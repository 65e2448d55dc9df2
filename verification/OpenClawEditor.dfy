/** Setting and removing channels.telegram.proxy in the configuration's text. */
module OpenClawEditor {
  import opened Strings
  import opened Json5Text
  import opened Json5Tree
  import opened Json5RoundTrip
  import opened Json5Edit
  import opened Json5Parser
  import opened Json5Spans
  import opened Json5Sites
  import opened Json5Insertion
  import opened Json5Editor
  import opened Json5Values
  import opened OpenClawProxy

  // A member's value inside the document.

  /** An object inside an object, and what replacing it makes of the outer one. */
  lemma Nested(raw: string, node: Node, before: string, f: Fields, more: string, i: nat)
    requires Located(raw, node, before, f, more) && Opens(f, i)
    ensures i < |node.fields|
    ensures Located(raw, node.fields[i].value, (before + "{") + Ahead(f, i), Inner(f, i), After(f, i, more))
  {
    hide *;
    OpensIs(f, i);
    WfOfLocated(raw, node, before, f, more);
    ObjectIs(raw, node, before, f, more);
    MemberSite(f, i, before + "{", more);
    ValueSite(f, i, Entries(f)[i].1, more);
    EntryIsWf(f, i);
    ObjectText(Entries(f)[i].1);
    Chained(before + "{", Ahead(f, i), FieldsText(Inner(f, i)), After(f, i, more));
    LocatedIs(raw, node.fields[i].value, (before + "{") + Ahead(f, i), Inner(f, i), After(f, i, more));
  }

  lemma OpensIs(f: Fields, i: nat)
    requires Opens(f, i)
    ensures i < |Entries(f)| && Entries(f)[i].1 == Object(Inner(f, i))
  {
  }

  lemma LocatedIs(raw: string, node: Node, before: string, f: Fields, more: string)
    ensures Located(raw, node, before, f, more) <==>
              raw == (before + "{") + (FieldsText(f) + more) && node == NodeOf(Object(f), |before|) && WfFields(f)
  {
  }

  lemma ObjectText(t: Tree)
    requires t.Object?
    ensures Text(t) == "{" + FieldsText(t.fields)
    ensures Wf(t) ==> WfFields(t.fields)
  {
  }

  lemma Chained(before: string, ahead: string, inner: string, after: string)
    ensures before + (ahead + (("{" + inner) + after)) == ((before + ahead) + "{") + (inner + after)
  {
  }

  lemma NestedText(before: string, f: Fields, more: string, i: nat, g: Fields)
    requires i < |Entries(f)|
    ensures (((before + "{") + Ahead(f, i)) + "{") + (FieldsText(g) + After(f, i, more)) ==
            (before + "{") + (FieldsText(WithValue(f, i, Object(g))) + more)
  {
    hide *;
    ValueSite(f, i, Object(g), more);
    ObjectText(Object(g));
    Chained(before + "{", Ahead(f, i), FieldsText(g), After(f, i, more));
  }

  // Lookups.

  /** The one member of an object whose key means `key`. */
  method FindField(raw: string, node: Node, meaning: string -> string, key: string,
                   ghost before: string, ghost f: Fields, ghost more: string) returns (s: Step)
    requires Located(raw, node, before, f, more)
    ensures s == Seek(f, meaning, key)
    ensures |node.fields| == |Entries(f)|
  {
    hide *;
    ObjectIs(raw, node, before, f, more);
    WfOfLocated(raw, node, before, f, more);
    ghost var entries := Entries(f);
    KeysAre(raw, node, before, f, more);
    var found, count := 0, 0;
    NoHits(entries, meaning, key);
    for i := 0 to |node.fields|
      invariant |Hits(entries[..i], meaning, key)| == count
      invariant count == 1 ==> Hits(entries[..i], meaning, key) == [found]
    {
      NextHit(entries, i, meaning, key);
      var m := node.fields[i];
      if meaning(raw[m.keyStart..m.keyEnd]) == key {
        found, count := i, count + 1;
      }
    }
    s := if count == 0 then Absent else if count > 1 then Doubtful else Once(found);
    SeekIs(f, meaning, key);
  }

  /** Where the keys of an object are spelled. */
  lemma KeysAre(raw: string, node: Node, before: string, f: Fields, more: string)
    requires Located(raw, node, before, f, more)
    ensures |node.fields| == |Entries(f)|
    ensures forall i :: 0 <= i < |node.fields| ==>
              var m := node.fields[i];
              m.keyStart <= m.keyEnd <= |raw| && raw[m.keyStart..m.keyEnd] == Entries(f)[i].0
  {
    hide *;
    ObjectIs(raw, node, before, f, more);
    WfOfLocated(raw, node, before, f, more);
    forall i | 0 <= i < |node.fields|
      ensures var m := node.fields[i];
              m.keyStart <= m.keyEnd <= |raw| && raw[m.keyStart..m.keyEnd] == Entries(f)[i].0
    {
      MemberSite(f, i, before + "{", more);
    }
  }

  lemma NoHits(entries: seq<(string, Tree)>, meaning: string -> string, key: string)
    ensures Hits(entries[..0], meaning, key) == []
  {
  }

  lemma NextHit(entries: seq<(string, Tree)>, i: nat, meaning: string -> string, key: string)
    requires i < |entries|
    ensures Hits(entries[..i + 1], meaning, key) == Hits(entries[..i], meaning, key) + if meaning(entries[i].0) == key
            then [i] else []
  {
    HitsMore(entries[..i], entries[i], meaning, key);
    assert entries[..i + 1] == entries[..i] + [entries[i]];
  }

  lemma SeekIs(f: Fields, meaning: string -> string, key: string)
    ensures var hits := Hits(Entries(f)[..|Entries(f)|], meaning, key);
            Seek(f, meaning, key) == if |hits| == 0 then Absent else if |hits| > 1 then Doubtful else Once(hits[0])
  {
    assert Entries(f)[..|Entries(f)|] == Entries(f);
  }

  /** The one member of this meaning, which must be an object. */
  method FindObject(raw: string, node: Node, meaning: string -> string, key: string,
                    ghost before: string, ghost f: Fields, ghost more: string) returns (s: Step)
    requires Located(raw, node, before, f, more)
    ensures s == Enter(f, meaning, key)
    ensures |node.fields| == |Entries(f)|
  {
    s := FindField(raw, node, meaning, key, before, f, more);
    if s.Once? {
      ObjectIs(raw, node, before, f, more);
      MemberSite(f, s.i, before + "{", more);
      if node.fields[s.i].value.kind != ObjectKind { s := Doubtful; }
    }
  }

  // Edits of the whole text. A configuration's inside f stands between `before` + "{" and `more`.

  /** Replaces the value of one member. */
  method ReplaceValue(raw: string, node: Node, i: nat, source: string,
                      ghost before: string, ghost f: Fields, ghost more: string, ghost v: Tree) returns (out: string)
    requires Located(raw, node, before, f, more) && i < |Entries(f)| && source == Text(v)
    ensures out == (before + "{") + (FieldsText(WithValue(f, i, v)) + more)
  {
    hide *;
    WfOfLocated(raw, node, before, f, more);
    ObjectIs(raw, node, before, f, more);
    MemberPlaces(f, i, |before| + 1);
    NodeEnds(Entries(f)[i].1, |before| + 1 + |Ahead(f, i)|);
    ValueSite(f, i, v, more);
    var value := node.fields[i].value;
    Replaced(before + "{", Ahead(f, i), Text(Entries(f)[i].1), After(f, i, more), source);
    out := Splice(raw, value.start, value.end, source);
  }

  lemma Replaced(before: string, ahead: string, was: string, after: string, now: string)
    ensures var raw, start := before + (ahead + (was + after)), |before| + |ahead|;
            start + |was| <= |raw| && Splice(raw, start, start + |was|, now) == before + (ahead + (now + after))
  {
  }

  datatype Edit = Refused | Same | Edited(text: string)

  /** Sets the proxy to a value that is spelled `source`, adding the objects around it where they are missing. */
  method AddOrReplace(raw: string, node: Node, meaning: string -> string, source: string,
                      ghost before: string, ghost f: Fields, ghost more: string, ghost v: Tree) returns (r: Edit)
    requires Located(raw, node, before, f, more) && source == Text(v)
    ensures r == if Where(f, meaning).Unclear? then Refused
                 else Edited((before + "{") + (FieldsText(WithProxy(f, meaning, v)) + more))
  {
    hide *;
    WhereIs(f, meaning);
    WithProxyIs(f, meaning, v);
    SingleText(TELEGRAM, Single(PROXY, v));
    SingleText(PROXY, v);
    var out;
    var c := FindObject(raw, node, meaning, CHANNELS, before, f, more);
    if c.Doubtful? { return Refused; }
    if c.Absent? {
      var nested := "{" + (Encoded(TELEGRAM) + (":" + (("{" + (Encoded(PROXY) + (":" + (source + "}")))) + "}")));
      out := InsertMember(raw, node, Encoded(CHANNELS), nested, before, f, more, Single(TELEGRAM, Single(PROXY, v)));
      return Edited(out);
    }
    Nested(raw, node, before, f, more, c.i);
    ghost var before1, channels, more1 := (before + "{") + Ahead(f, c.i), Inner(f, c.i), After(f, c.i, more);
    var node1 := node.fields[c.i].value;
    var t := FindObject(raw, node1, meaning, TELEGRAM, before1, channels, more1);
    if t.Doubtful? { return Refused; }
    if t.Absent? {
      var nested := "{" + (Encoded(PROXY) + (":" + (source + "}")));
      out := InsertMember(raw, node1, Encoded(TELEGRAM), nested, before1, channels, more1, Single(PROXY, v));
      NestedText(before, f, more, c.i, Inserted(channels, Encoded(TELEGRAM), Single(PROXY, v), BreakOf(channels)));
      return Edited(out);
    }
    Nested(raw, node1, before1, channels, more1, t.i);
    ghost var before2, telegram, more2 := (before1 + "{") + Ahead(channels, t.i), Inner(channels, t.i),
        After(channels, t.i, more1);
    var node2 := node1.fields[t.i].value;
    var p := FindField(raw, node2, meaning, PROXY, before2, telegram, more2);
    if p.Doubtful? { return Refused; }
    if p.Absent? {
      out := InsertMember(raw, node2, Encoded(PROXY), source, before2, telegram, more2, v);
      TelegramText(before, f, more, c.i, t.i, Inserted(telegram, Encoded(PROXY), v, BreakOf(telegram)));
    } else {
      out := ReplaceValue(raw, node2, p.i, source, before2, telegram, more2, v);
      TelegramText(before, f, more, c.i, t.i, WithValue(telegram, p.i, v));
    }
    r := Edited(out);
  }

  /** Replacing the telegram object's text replaces it in the whole configuration. */
  lemma TelegramText(before: string, f: Fields, more: string, c: nat, t: nat, telegram: Fields)
    requires Opens(f, c) && Opens(Inner(f, c), t)
    ensures var before1, more1 := (before + "{") + Ahead(f, c), After(f, c, more);
            (((before1 + "{") + Ahead(Inner(f, c), t)) + "{") + (FieldsText(telegram) + After(Inner(f, c), t, more1)) ==
            (before + "{") + (FieldsText(WithTelegram(f, c, t, telegram)) + more)
  {
    hide *;
    OpensIs(f, c);
    OpensIs(Inner(f, c), t);
    var before1, more1 := (before + "{") + Ahead(f, c), After(f, c, more);
    NestedText(before1, Inner(f, c), more1, t, telegram);
    NestedText(before, f, more, c, WithValue(Inner(f, c), t, Object(telegram)));
    TelegramIs(f, c, t, telegram);
  }

  lemma TelegramIs(f: Fields, c: nat, t: nat, telegram: Fields)
    requires Opens(f, c) && Opens(Inner(f, c), t)
    ensures c < |Entries(f)| && t < |Entries(Inner(f, c))|
    ensures WithTelegram(f, c, t, telegram) == WithValue(f, c, Object(WithValue(Inner(f, c), t, Object(telegram))))
  {
  }

  lemma SingleText(key: string, v: Tree)
    ensures Text(Single(key, v)) == "{" + (Encoded(key) + (":" + (Text(v) + "}")))
  {
    hide Encoded;
    assert "" + Encoded(key) + "" == Encoded(key);
    assert Encoded(key) + ":" + "" == Encoded(key) + ":";
    assert LeadText(Lead("", Encoded(key), "", "")) == Encoded(key) + ":";
    assert FieldsText(Single(key, v).fields) == (Encoded(key) + ":") + Text(v) + "" + "}";
    assert (Encoded(key) + ":") + Text(v) + "" == (Encoded(key) + ":") + Text(v);
    Assoc(Encoded(key) + ":", Text(v), "}");
    Assoc(Encoded(key), ":", Text(v) + "}");
  }

  lemma WhereIs(f: Fields, meaning: string -> string)
    ensures Enter(f, meaning, CHANNELS).Doubtful? ==> Where(f, meaning).Unclear?
    ensures Enter(f, meaning, CHANNELS).Absent? ==> Where(f, meaning).NoChannels?
    ensures Enter(f, meaning, CHANNELS).Once? ==> InChannels(f, meaning, Enter(f, meaning, CHANNELS).i)
    ensures forall c: nat :: InChannels(f, meaning, c) ==> Opens(f, c) && c < |Entries(f)|
    ensures forall c: nat :: InChannels(f, meaning, c) && Enter(Inner(f, c), meaning, TELEGRAM).Doubtful? ==>
            Where(f, meaning).Unclear?
    ensures forall c: nat :: InChannels(f, meaning, c) && Enter(Inner(f, c), meaning, TELEGRAM).Absent? ==>
            Where(f, meaning) == NoTelegram(c)
    ensures forall c: nat :: InChannels(f, meaning, c) && Enter(Inner(f, c), meaning, TELEGRAM).Once? ==>
            InTelegram(f, meaning, c, Enter(Inner(f, c), meaning, TELEGRAM).i)
    ensures forall c: nat, t: nat :: InTelegram(f, meaning, c, t) ==>
            Opens(Inner(f, c), t) && t < |Entries(Inner(f, c))|
    ensures forall c: nat, t: nat ::
              InTelegram(f, meaning, c, t) && Seek(Inner(Inner(f, c), t), meaning, PROXY).Doubtful? ==>
                Where(f, meaning).Unclear?
    ensures forall c: nat, t: nat ::
              InTelegram(f, meaning, c, t) && Seek(Inner(Inner(f, c), t), meaning, PROXY).Absent? ==>
                Where(f, meaning) == NoProxy(c, t)
    ensures forall c: nat, t: nat ::
              InTelegram(f, meaning, c, t) && Seek(Inner(Inner(f, c), t), meaning, PROXY).Once? ==>
                Where(f, meaning) == Proxy(c, t, Seek(Inner(Inner(f, c), t), meaning, PROXY).i)
  {
  }

  /** The search got into the one channels object, and from there into the one telegram object. */
  ghost predicate InChannels(f: Fields, meaning: string -> string, c: nat) {
    Enter(f, meaning, CHANNELS) == Once(c) && Opens(f, c)
  }

  ghost predicate InTelegram(f: Fields, meaning: string -> string, c: nat, t: nat) {
    InChannels(f, meaning, c) && Enter(Inner(f, c), meaning, TELEGRAM) == Once(t) && Opens(Inner(f, c), t)
  }

  lemma WithProxyIs(f: Fields, meaning: string -> string, v: Tree)
    ensures var s := Where(f, meaning);
            && (s.NoChannels? ==>
                 WithProxy(f, meaning, v) ==
                     Inserted(f, Encoded(CHANNELS), Single(TELEGRAM, Single(PROXY, v)), BreakOf(f)))
            && (s.NoTelegram? ==>
                  Opens(f, s.c) && s.c < |Entries(f)| &&
                  var channels := Inner(f, s.c);
                  WithProxy(f, meaning, v) ==
                  WithValue(f, s.c, Object(Inserted(channels, Encoded(TELEGRAM), Single(PROXY, v), BreakOf(channels)))))
            && (s.NoProxy? ==>
                  Opens(f, s.c) && Opens(Inner(f, s.c), s.t) && s.t < |Entries(Inner(f, s.c))| &&
                  var telegram := Inner(Inner(f, s.c), s.t);
                  WithProxy(f, meaning, v) ==
                      WithTelegram(f, s.c, s.t, Inserted(telegram, Encoded(PROXY), v, BreakOf(telegram))))
            && (s.Proxy? ==>
                  Opens(f, s.c) && Opens(Inner(f, s.c), s.t) && s.t < |Entries(Inner(f, s.c))|
                  && s.p < |Entries(Inner(Inner(f, s.c), s.t))|
                  && WithProxy(f, meaning, v) ==
                       WithTelegram(f, s.c, s.t, WithValue(Inner(Inner(f, s.c), s.t), s.p, v)))
  {
  }

  /** Something in the object's text looks like a comment. */
  method ContainsComment(raw: string, node: Node, ghost before: string, ghost f: Fields, ghost more: string)
    returns (r: bool)
    requires Located(raw, node, before, f, more)
    ensures r <==> MentionsComment(f)
  {
    ObjectIs(raw, node, before, f, more);
    WfOfLocated(raw, node, before, f, more);
    hide Located;
    hide FieldsText;
    hide Members;
    var inner := raw[node.start + 1..node.close];
    ghost var s := FieldsText(f);
    assert |inner| == |s| - 1 && forall i :: 0 <= i < |inner| ==> inner[i] == s[i];
    r := exists i :: 0 <= i < |inner| - 1 && inner[i] == '/' && (inner[i + 1] == '/' || inner[i + 1] == '*');
  }

  /** The node of a configuration that was just written. */
  method Reparse(text: string, ghost d: Document) returns (node: Node)
    requires WfDocument(d) && DocumentText(d) == text && d.root.Object?
    ensures Located(text, node, d.pre, d.root.fields, d.post)
  {
    DocumentRound(text, d);
    RootText(d);
    hide ParseDocument;
    hide NodeOf;
    var r := ParseText(text);
    node := r.node;
  }

  lemma RootText(d: Document)
    requires WfDocument(d) && d.root.Object?
    ensures DocumentText(d) == (d.pre + "{") + (FieldsText(d.root.fields) + d.post) && WfFields(d.root.fields)
  {
    hide FieldsText;
    hide WfFields;
    hide Trivia;
    Assoc(d.pre, "{", FieldsText(d.root.fields));
    Assoc(d.pre + "{", FieldsText(d.root.fields), d.post);
  }

  lemma RewrittenRoot(d: Document, g: Fields)
    requires WfDocument(d) && WfFields(g)
    ensures var e := Document(d.pre, Object(g), d.post);
            WfDocument(e) && DocumentText(e) == (d.pre + "{") + (FieldsText(g) + d.post)
  {
    hide FieldsText;
    hide WfFields;
    hide Trivia;
    Assoc(d.pre, "{", FieldsText(g));
    Assoc(d.pre + "{", FieldsText(g), d.post);
  }

  /** Finds telegram's object in a configuration that has one. */
  method FindTelegram(raw: string, node: Node, meaning: string -> string, ghost before: string, ghost f: Fields,
                      ghost more: string)
    returns (c: nat, t: nat, channels: Node, telegram: Node)
    requires Located(raw, node, before, f, more)
    requires Enter(f, meaning, CHANNELS).Once?
             && Enter(Inner(f, Enter(f, meaning, CHANNELS).i), meaning, TELEGRAM).Once?
    ensures Enter(f, meaning, CHANNELS) == Once(c) && Enter(Inner(f, c), meaning, TELEGRAM) == Once(t)
    ensures Located(raw, channels, (before + "{") + Ahead(f, c), Inner(f, c), After(f, c, more))
    ensures Located(raw, telegram, (((before + "{") + Ahead(f, c)) + "{") + Ahead(Inner(f, c), t),
                    Inner(Inner(f, c), t),
                    After(Inner(f, c), t, After(f, c, more)))
  {
    hide *;
    WhereIs(f, meaning);
    var cs := FindObject(raw, node, meaning, CHANNELS, before, f, more);
    c := cs.i;
    Nested(raw, node, before, f, more, c);
    channels := node.fields[c].value;
    var ts := FindObject(raw, channels, meaning, TELEGRAM, (before + "{") + Ahead(f, c), Inner(f, c),
                         After(f, c, more));
    t := ts.i;
    Nested(raw, channels, (before + "{") + Ahead(f, c), Inner(f, c), After(f, c, more), t);
    telegram := channels.fields[t].value;
  }

  /** Enter looks only at Seek and at the kind of what it finds. */
  lemma EnterThere(f: Fields, g: Fields, meaning: string -> string, key: string, i: nat)
    requires Enter(f, meaning, key) == Once(i) && Seek(g, meaning, key) == Seek(f, meaning, key) && Opens(g, i)
    ensures Enter(g, meaning, key) == Once(i)
  {
  }

  /** The configuration with a changed telegram object still has it in the same place. */
  lemma TelegramStays(f: Fields, meaning: string -> string, c: nat, t: nat, telegram: Fields)
    requires Enter(f, meaning, CHANNELS) == Once(c) && Enter(Inner(f, c), meaning, TELEGRAM) == Once(t)
    requires WfFields(f) && WfFields(telegram)
    ensures var g := WithTelegram(f, c, t, telegram);
            && WfFields(g) && Enter(g, meaning, CHANNELS) == Once(c)
            && Enter(Inner(g, c), meaning, TELEGRAM) == Once(t) && Inner(Inner(g, c), t) == telegram
            && Inner(g, c) == WithValue(Inner(f, c), t, Object(telegram))
  {
    hide *;
    WhereIs(f, meaning);
    OpensIs(f, c);
    OpensIs(Inner(f, c), t);
    InnerIsWf(f, c);
    ObjectIsWf(telegram);
    WithValueKeeps(Inner(f, c), t, Object(telegram));
    ObjectIsWf(WithValue(Inner(f, c), t, Object(telegram)));
    WithValueKeeps(f, c, Object(WithValue(Inner(f, c), t, Object(telegram))));
    TelegramIs(f, c, t, telegram);
    TelegramThere(f, meaning, c, t, telegram);
    EnterThere(f, WithTelegram(f, c, t, telegram), meaning, CHANNELS, c);
    EnterThere(Inner(f, c), Inner(WithTelegram(f, c, t, telegram), c), meaning, TELEGRAM, t);
  }

  lemma ObjectIsWf(f: Fields)
    ensures Wf(Object(f)) <==> WfFields(f)
  {
  }

  lemma WithoutProxyIs(f: Fields, meaning: string -> string, recorded: bool, hadChannels: bool, hadTelegram: bool)
    requires Where(f, meaning).Proxy?
    ensures var s := Where(f, meaning);
            && Opens(f, s.c) && Opens(Inner(f, s.c), s.t) && s.p < |Entries(Inner(Inner(f, s.c), s.t))|
            && Enter(f, meaning, CHANNELS) == Once(s.c) && Enter(Inner(f, s.c), meaning, TELEGRAM) == Once(s.t)
            && Seek(Inner(Inner(f, s.c), s.t), meaning, PROXY) == Once(s.p)
    ensures var s := Where(f, meaning);
            var channels := Inner(f, s.c);
            var telegram := Removed(Inner(channels, s.t), s.p);
            var g := WithoutProxy(f, meaning, recorded, hadChannels, hadTelegram);
            && s.t < |Entries(channels)| && s.t < |Entries(WithValue(channels, s.t, Object(telegram)))|
            && s.c < |Entries(f)|
            && if !recorded || hadTelegram || !Hollow(telegram) then g == WithTelegram(f, s.c, s.t, telegram)
               else
                 var rest := Removed(WithValue(channels, s.t, Object(telegram)), s.t);
                 && s.c < |Entries(WithValue(f, s.c, Object(rest)))|
                 && g == if hadChannels || !Hollow(rest) then WithValue(f, s.c, Object(rest))
                      else Removed(WithValue(f, s.c, Object(rest)), s.c)
  {
    var s := Where(f, meaning);
    var channels := Inner(f, s.c);
    var telegram := Removed(Inner(channels, s.t), s.p);
    WithValueKeeps(channels, s.t, Object(telegram));
    WithValueKeeps(f, s.c, Object(Removed(WithValue(channels, s.t, Object(telegram)), s.t)));
    hide Removed;
    hide WithValue;
    hide Entries;
    hide Seek;
    hide Hollow;
  }

  /** Removes the proxy, and the objects around it that were not there before when nothing else is in them. */
  method RemoveProxy(raw: string, node: Node, meaning: string -> string, recorded: bool, hadChannels: bool,
                     hadTelegram: bool,
                     ghost d: Document) returns (out: string)
    requires WfDocument(d) && d.root.Object? && Located(raw, node, d.pre, d.root.fields, d.post)
    requires Where(d.root.fields, meaning).Proxy?
    ensures out ==
            (d.pre + "{")
                + (FieldsText(WithoutProxy(d.root.fields, meaning, recorded, hadChannels, hadTelegram)) + d.post)
  {
    hide *;
    ghost var f, before, more := d.root.fields, d.pre, d.post;
    WithoutProxyIs(f, meaning, recorded, hadChannels, hadTelegram);
    WfOfLocated(raw, node, before, f, more);
    var c, t, channels, telegram := FindTelegram(raw, node, meaning, before, f, more);
    ghost var inside := Inner(Inner(f, c), t);
    ghost var before2 := (((before + "{") + Ahead(f, c)) + "{") + Ahead(Inner(f, c), t);
    ghost var more2 := After(Inner(f, c), t, After(f, c, more));
    var p := FindField(raw, telegram, meaning, PROXY, before2, inside, more2);
    out := RemoveMember(raw, telegram, p.i, before2, inside, more2);
    ghost var left := Removed(inside, p.i);
    TelegramText(before, f, more, c, t, left);
    if !recorded || hadTelegram { return; }
    out := PruneTelegram(out, meaning, hadChannels, d, c, t, left, p.i);
  }

  lemma OpensAt(f: Fields, meaning: string -> string, c: nat, t: nat)
    requires Enter(f, meaning, CHANNELS) == Once(c)
    ensures Opens(f, c) && c < |Entries(f)|
    ensures Enter(Inner(f, c), meaning, TELEGRAM) == Once(t) ==> Opens(Inner(f, c), t) && t < |Entries(Inner(f, c))|
  {
  }

  /** Removes an empty telegram object, and then an empty channels object. */
  method PruneTelegram(text: string, meaning: string -> string, hadChannels: bool,
                       ghost d: Document, ghost c: nat, ghost t: nat, ghost left: Fields, ghost p: nat)
    returns (out: string)
    requires WfDocument(d) && d.root.Object? && WfFields(d.root.fields)
             && Where(d.root.fields, meaning) == Proxy(c, t, p)
    requires Enter(d.root.fields, meaning, CHANNELS) == Once(c)
             && Enter(Inner(d.root.fields, c), meaning, TELEGRAM) == Once(t)
    requires left == Removed(Inner(Inner(d.root.fields, c), t), p)
    requires text == (d.pre + "{") + (FieldsText(WithTelegram(d.root.fields, c, t, left)) + d.post)
    ensures out == (d.pre + "{") + (FieldsText(WithoutProxy(d.root.fields, meaning, true, hadChannels, false)) + d.post)
  {
    hide *;
    ghost var f := d.root.fields;
    WithoutProxyIs(f, meaning, true, hadChannels, false);
    InnerIsWf(f, c);
    InnerIsWf(Inner(f, c), t);
    RemovedKeeps(Inner(Inner(f, c), t), p);
    TelegramStays(f, meaning, c, t, left);
    ghost var f1 := WithTelegram(f, c, t, left);
    OpensAt(f1, meaning, c, t);
    RewrittenRoot(d, f1);
    var node := Reparse(text, Document(d.pre, Object(f1), d.post));
    var c1, t1, channels, telegram := FindTelegram(text, node, meaning, d.pre, f1, d.post);
    var hollow := IsHollow(text, telegram, (((d.pre + "{") + Ahead(f1, c)) + "{") + Ahead(Inner(f1, c), t), left,
                           After(Inner(f1, c), t, After(f1, c, d.post)));
    if !hollow { return text; }
    ghost var channels1 := Inner(f1, c);
    ObjectIs(text, channels, (d.pre + "{") + Ahead(f1, c), channels1, After(f1, c, d.post));
    out := RemoveMember(text, channels, t1, (d.pre + "{") + Ahead(f1, c), channels1, After(f1, c, d.post));
    ghost var rest := Removed(channels1, t);
    NestedText(d.pre, f1, d.post, c, rest);
    TelegramIs(f, c, t, left);
    WithValueAgain(f, c, Object(channels1), Object(rest));
    if hadChannels { return; }
    InnerIsWf(f1, c);
    RemovedKeeps(channels1, t);
    out := PruneChannels(out, meaning, d, c, rest);
  }

  method PruneChannels(text: string, meaning: string -> string, ghost d: Document, ghost c: nat, ghost rest: Fields)
    returns (out: string)
    requires WfDocument(d) && d.root.Object? && WfFields(d.root.fields) && WfFields(rest)
    requires Enter(d.root.fields, meaning, CHANNELS) == Once(c) && c < |Entries(d.root.fields)|
    requires text == (d.pre + "{") + (FieldsText(WithValue(d.root.fields, c, Object(rest))) + d.post)
    ensures c < |Entries(WithValue(d.root.fields, c, Object(rest)))|
    ensures var f2 := WithValue(d.root.fields, c, Object(rest));
            out == if Hollow(rest) then (d.pre + "{") + (FieldsText(Removed(f2, c)) + d.post) else text
  {
    hide *;
    ghost var f, f2 := d.root.fields, WithValue(d.root.fields, c, Object(rest));
    ObjectIsWf(rest);
    WithValueKeeps(f, c, Object(rest));
    SeekWithValue(f, c, Object(rest), meaning, CHANNELS);
    EnterThere(f, f2, meaning, CHANNELS, c);
    RewrittenRoot(d, f2);
    var node := Reparse(text, Document(d.pre, Object(f2), d.post));
    var cs := FindObject(text, node, meaning, CHANNELS, d.pre, f2, d.post);
    Nested(text, node, d.pre, f2, d.post, c);
    var hollow := IsHollow(text, node.fields[cs.i].value, (d.pre + "{") + Ahead(f2, c), rest, After(f2, c, d.post));
    if !hollow { return text; }
    out := RemoveMember(text, node, cs.i, d.pre, f2, d.post);
  }

  /** The object has no member and nothing in it looks like a comment. */
  method IsHollow(raw: string, node: Node, ghost before: string, ghost f: Fields, ghost more: string) returns (r: bool)
    requires Located(raw, node, before, f, more)
    ensures r <==> Hollow(f)
  {
    ObjectIs(raw, node, before, f, more);
    var comment := ContainsComment(raw, node, before, f, more);
    r := |node.fields| == 0 && !comment;
  }

  // The whole operation.

  /** A proxy setting: none, or a canonical value. */
  datatype Value = None | Value(text: string)

  /** What setting the proxy makes of a configuration. `canonical` decodes a value's text; None means it is neither a
      string nor null. */
  function Decide(d: Document, meaning: string -> string, canonical: string -> Value, wanted: Value, source: string,
                  recorded: bool, hadChannels: bool, hadTelegram: bool): Edit
  {
    if !d.root.Object? || Where(d.root.fields, meaning).Unclear? then Refused
    else
      var f, s := d.root.fields, Where(d.root.fields, meaning);
      var current := if s.Proxy? then canonical(Text(Entries(Inner(Inner(f, s.c), s.t))[s.p].1)) else None;
      if s.Proxy? && current.None? then Refused
      else if wanted == current then Same
      else if wanted.None? then
        Edited(DocumentText(Document(d.pre, Object(WithoutProxy(f, meaning, recorded, hadChannels, hadTelegram)),
                                     d.post)))
      else if canonical(source) != wanted then Refused
      else Edited(DocumentText(Document(d.pre, Object(WithProxy(f, meaning, Scalar(source))), d.post)))
  }

  lemma WithProxyWf(f: Fields, meaning: string -> string, v: Tree)
    requires WfFields(f) && Wf(v) && !Where(f, meaning).Unclear?
    ensures WfFields(WithProxy(f, meaning, v))
  {
    KeysAreQuoted();
    hide *;
    var s := Where(f, meaning);
    WithProxyIs(f, meaning, v);
    SingleWf(PROXY, v);
    SingleWf(TELEGRAM, Single(PROXY, v));
    if s.NoChannels? {
      InsertedWf(f, Encoded(CHANNELS), Single(TELEGRAM, Single(PROXY, v)));
    } else {
      InnerIsWf(f, s.c);
      var channels := Inner(f, s.c);
      if s.NoTelegram? {
        InsertedWf(channels, Encoded(TELEGRAM), Single(PROXY, v));
        ReplacedWf(f, s.c, Inserted(channels, Encoded(TELEGRAM), Single(PROXY, v), BreakOf(channels)));
      } else {
        InnerIsWf(channels, s.t);
        var telegram := Inner(channels, s.t);
        if s.NoProxy? {
          InsertedWf(telegram, Encoded(PROXY), v);
          TelegramWf(f, s.c, s.t, Inserted(telegram, Encoded(PROXY), v, BreakOf(telegram)));
        } else {
          WithValueKeeps(telegram, s.p, v);
          TelegramWf(f, s.c, s.t, WithValue(telegram, s.p, v));
        }
      }
    }
  }

  lemma KeysAreQuoted()
    ensures Quoted(Encoded(CHANNELS)) && Quoted(Encoded(TELEGRAM)) && Quoted(Encoded(PROXY))
  {
    EncodedIsQuoted(CHANNELS);
    EncodedIsQuoted(TELEGRAM);
    EncodedIsQuoted(PROXY);
  }

  lemma SingleWf(key: string, v: Tree)
    requires Wf(v) && key in {TELEGRAM, PROXY}
    ensures Wf(Single(key, v))
  {
    EncodedIsQuoted(key);
    hide Quoted;
    hide Name;
    hide Encoded;
  }

  lemma InsertedWf(f: Fields, key: string, v: Tree)
    requires WfFields(f) && Wf(v) && Quoted(key)
    ensures WfFields(Inserted(f, key, v, BreakOf(f)))
  {
    BreakIsBreak(f);
    InsertedThenRemovedWf(f, key, v, BreakOf(f));
  }

  lemma InsertedThenRemovedWf(f: Fields, key: string, v: Tree, nl: string)
    requires WfFields(f) && Wf(v) && Quoted(key) && LineBreak(nl)
    ensures WfFields(Inserted(f, key, v, nl))
  {
    InsertedKeeps(f, key, v, nl);
  }

  lemma ReplacedWf(f: Fields, i: nat, g: Fields)
    requires WfFields(f) && WfFields(g) && i < |Entries(f)|
    ensures WfFields(WithValue(f, i, Object(g)))
  {
  }

  lemma TelegramWf(f: Fields, c: nat, t: nat, telegram: Fields)
    requires WfFields(f) && WfFields(telegram) && Opens(f, c) && Opens(Inner(f, c), t)
    ensures c < |Entries(f)| && t < |Entries(Inner(f, c))| && WfFields(WithTelegram(f, c, t, telegram))
  {
    hide *;
    TelegramIs(f, c, t, telegram);
    InnerIsWf(f, c);
    ReplacedWf(Inner(f, c), t, telegram);
    ReplacedWf(f, c, WithValue(Inner(f, c), t, Object(telegram)));
  }

  lemma WithoutProxyWf(f: Fields, meaning: string -> string, recorded: bool, hadChannels: bool, hadTelegram: bool)
    requires WfFields(f) && Where(f, meaning).Proxy?
    ensures WfFields(WithoutProxy(f, meaning, recorded, hadChannels, hadTelegram))
  {
    hide *;
    WithoutProxyIs(f, meaning, recorded, hadChannels, hadTelegram);
    var s := Where(f, meaning);
    var channels := Inner(f, s.c);
    InnerIsWf(f, s.c);
    InnerIsWf(channels, s.t);
    RemovedKeeps(Inner(channels, s.t), s.p);
    var telegram := Removed(Inner(channels, s.t), s.p);
    TelegramWf(f, s.c, s.t, telegram);
    if recorded && !hadTelegram && Hollow(telegram) {
      ReplacedWf(channels, s.t, telegram);
      RemovedKeeps(WithValue(channels, s.t, Object(telegram)), s.t);
      var rest := Removed(WithValue(channels, s.t, Object(telegram)), s.t);
      ReplacedWf(f, s.c, rest);
      RemovedKeeps(WithValue(f, s.c, Object(rest)), s.c);
    }
  }

  /** Sets or removes the proxy in a configuration's text. */
  method SetProxy(raw: string, meaning: string -> string, canonical: string -> Value, wanted: Value, source: string,
                  recorded: bool, hadChannels: bool, hadTelegram: bool) returns (r: Edit)
    requires Quoted(source) || Plain(source)
    ensures ParseDocument(raw).Bad? ==> r.Refused?
    ensures ParseDocument(raw).Good? ==>
              r == Decide(ParseDocument(raw).value, meaning, canonical, wanted, source, recorded, hadChannels,
                          hadTelegram)
    ensures r.Edited? ==> ParseDocument(r.text).Good?
  {
    var parsed := ParseText(raw);
    if parsed.Failed? { return Refused; }
    ghost var d := ParseDocument(raw).value;
    DocumentRound(raw, d);
    var node := parsed.node;
    RootKind(d.root, |d.pre|);
    if node.kind != ObjectKind { return Refused; }
    RootText(d);
    r := SetIn(raw, node, meaning, canonical, wanted, source, recorded, hadChannels, hadTelegram, d);
  }

  lemma RootKind(t: Tree, at: nat)
    ensures NodeOf(t, at).kind == ObjectKind <==> t.Object?
  {
  }

  /** The document a text was rewritten to is what it now reads as. */
  lemma Rewritten(d: Document, g: Fields, text: string)
    requires WfDocument(d) && WfFields(g) && text == (d.pre + "{") + (FieldsText(g) + d.post)
    ensures var e := Document(d.pre, Object(g), d.post); text == DocumentText(e) && ParseDocument(text) == Good(e, "")
  {
    RewrittenRoot(d, g);
    DocumentRound(text, Document(d.pre, Object(g), d.post));
  }

  lemma DecideIs(d: Document, meaning: string -> string, canonical: string -> Value, wanted: Value, source: string,
                 recorded: bool, hadChannels: bool, hadTelegram: bool)
    requires d.root.Object?
    ensures var r, f, s := Decide(d, meaning, canonical, wanted, source, recorded, hadChannels, hadTelegram),
            d.root.fields, Where(d.root.fields, meaning);
            if s.Unclear? then r == Refused
            else
              (s.Proxy? ==> Opens(f, s.c) && Opens(Inner(f, s.c), s.t) && s.p < |Entries(Inner(Inner(f, s.c), s.t))|) &&
              var current := if s.Proxy? then canonical(Text(Entries(Inner(Inner(f, s.c), s.t))[s.p].1)) else None;
              r == if s.Proxy? && current.None? then Refused
                   else if wanted == current then Same
                   else if wanted.None? then
                     Edited(DocumentText(Document(
                         d.pre, Object(WithoutProxy(f, meaning, recorded, hadChannels, hadTelegram)), d.post)))
                   else if canonical(source) != wanted then Refused
                   else Edited(DocumentText(Document(d.pre, Object(WithProxy(f, meaning, Scalar(source))), d.post)))
  {
  }

  /** The proxy's canonical value as the text has it. */
  method CurrentProxy(raw: string, node: Node, meaning: string -> string, canonical: string -> Value,
                      ghost before: string, ghost f: Fields, ghost more: string)
    returns (clear: bool, present: bool, value: Value)
    requires Located(raw, node, before, f, more)
    ensures clear <==> !Where(f, meaning).Unclear?
    ensures clear ==> (present <==> Where(f, meaning).Proxy?)
    ensures clear && present ==>
              var s := Where(f, meaning);
              Opens(f, s.c) && Opens(Inner(f, s.c), s.t) && s.p < |Entries(Inner(Inner(f, s.c), s.t))|
              && value == canonical(Text(Entries(Inner(Inner(f, s.c), s.t))[s.p].1))
    ensures clear && !present ==> value == None
  {
    hide *;
    clear, present, value := true, false, None;
    WhereIs(f, meaning);
    var cs := FindObject(raw, node, meaning, CHANNELS, before, f, more);
    if !cs.Once? { return cs.Absent?, false, None; }
    Nested(raw, node, before, f, more, cs.i);
    ghost var before1, channels, more1 := (before + "{") + Ahead(f, cs.i), Inner(f, cs.i), After(f, cs.i, more);
    var node1 := node.fields[cs.i].value;
    var ts := FindObject(raw, node1, meaning, TELEGRAM, before1, channels, more1);
    if !ts.Once? { return ts.Absent?, false, None; }
    Nested(raw, node1, before1, channels, more1, ts.i);
    ghost var before2, telegram, more2 := (before1 + "{") + Ahead(channels, ts.i), Inner(channels, ts.i),
        After(channels, ts.i, more1);
    var node2 := node1.fields[ts.i].value;
    var ps := FindField(raw, node2, meaning, PROXY, before2, telegram, more2);
    if !ps.Once? { return ps.Absent?, false, None; }
    var text := ValueText(raw, node2, ps.i, before2, telegram, more2);
    present, value := true, canonical(text);
  }

  method ValueText(raw: string, node: Node, i: nat, ghost before: string, ghost f: Fields, ghost more: string)
    returns (text: string)
    requires Located(raw, node, before, f, more) && i < |Entries(f)|
    ensures text == Text(Entries(f)[i].1)
  {
    hide *;
    WfOfLocated(raw, node, before, f, more);
    ObjectIs(raw, node, before, f, more);
    MemberPlaces(f, i, |before| + 1);
    NodeEnds(Entries(f)[i].1, |before| + 1 + |Ahead(f, i)|);
    ValueSite(f, i, Entries(f)[i].1, more);
    ValueSlice(before + "{", Ahead(f, i), Text(Entries(f)[i].1), After(f, i, more));
    var v := node.fields[i].value;
    text := raw[v.start..v.end];
  }

  lemma ValueSlice(before: string, ahead: string, text: string, after: string)
    ensures var raw, start := before + (ahead + (text + after)), |before| + |ahead|;
            start + |text| <= |raw| && raw[start..start + |text|] == text
  {
  }

  method SetIn(raw: string, node: Node, meaning: string -> string, canonical: string -> Value, wanted: Value,
               source: string,
               recorded: bool, hadChannels: bool, hadTelegram: bool, ghost d: Document) returns (r: Edit)
    requires WfDocument(d) && d.root.Object? && Located(raw, node, d.pre, d.root.fields, d.post)
    requires Quoted(source) || Plain(source)
    ensures r == Decide(d, meaning, canonical, wanted, source, recorded, hadChannels, hadTelegram)
    ensures r.Edited? ==> ParseDocument(r.text).Good?
  {
    ghost var f := d.root.fields;
    ghost var v := Scalar(source);
    assert Wf(v) && Text(v) == source;
    DecideIs(d, meaning, canonical, wanted, source, recorded, hadChannels, hadTelegram);
    hide *;
    WfOfLocated(raw, node, d.pre, f, d.post);
    var clear, present, current := CurrentProxy(raw, node, meaning, canonical, d.pre, f, d.post);
    if !clear || (present && current.None?) { return Refused; }
    if wanted == current { return Same; }
    if wanted.None? {
      var out := RemoveProxy(raw, node, meaning, recorded, hadChannels, hadTelegram, d);
      WithoutProxyWf(f, meaning, recorded, hadChannels, hadTelegram);
      Rewritten(d, WithoutProxy(f, meaning, recorded, hadChannels, hadTelegram), out);
      return Edited(out);
    }
    if canonical(source) != wanted { return Refused; }
    r := AddOrReplace(raw, node, meaning, source, d.pre, f, d.post, v);
    WithProxyWf(f, meaning, v);
    Rewritten(d, WithProxy(f, meaning, v), r.text);
  }

  // Taking over and restoring, in the text.

  /** Decoding takes no object or array for a proxy value. */
  ghost predicate DecodesScalars(canonical: string -> Value) {
    forall t: Tree :: Wf(t) && canonical(Text(t)).Value? ==> t.Scalar?
  }

  /** How the proxy is spelled; empty when there is none. */
  function Lexeme(f: Fields, meaning: string -> string): string {
    var s := Where(f, meaning);
    if s.Proxy? then Text(Entries(Inner(Inner(f, s.c), s.t))[s.p].1) else ""
  }

  function Current(f: Fields, meaning: string -> string, canonical: string -> Value): Value {
    if Where(f, meaning).Proxy? then canonical(Lexeme(f, meaning)) else None
  }

  /** The member the take-over wrote has the value it was given. */
  lemma ValueThere(f: Fields, meaning: string -> string, v: Tree)
    requires Understands(meaning) && !Where(f, meaning).Unclear?
    ensures var g := WithProxy(f, meaning, v);
            Where(g, meaning).Proxy? && Lexeme(g, meaning) == Text(v)
  {
    var s := Where(f, meaning);
    TakenOver(f, meaning, v);
    WithProxyIs(f, meaning, v);
    hide WithProxy;
    hide Text;
    hide Where;
    hide BreakOf;
    if s.NoChannels? {
      InsertedValue(f, Encoded(CHANNELS), Single(TELEGRAM, Single(PROXY, v)), v, BreakOf(f));
      SeekSingle(meaning, TELEGRAM, Single(PROXY, v));
      SeekSingle(meaning, PROXY, v);
    } else if s.NoTelegram? {
      var channels := Inner(f, s.c);
      InsertedValue(channels, Encoded(TELEGRAM), Single(PROXY, v), v, BreakOf(channels));
      SeekWithValue(f, s.c, Object(Inserted(channels, Encoded(TELEGRAM), Single(PROXY, v), BreakOf(channels))),
                    meaning, "");
      SeekSingle(meaning, PROXY, v);
    } else if s.NoProxy? {
      var telegram := Inner(Inner(f, s.c), s.t);
      InsertedValue(telegram, Encoded(PROXY), v, v, BreakOf(telegram));
      TelegramThere(f, meaning, s.c, s.t, Inserted(telegram, Encoded(PROXY), v, BreakOf(telegram)));
    } else {
      var telegram := Inner(Inner(f, s.c), s.t);
      WithValueKeeps(telegram, s.p, v);
      TelegramThere(f, meaning, s.c, s.t, WithValue(telegram, s.p, v));
    }
  }

  /** Decide in terms of what is there. */
  lemma Decides(d: Document, meaning: string -> string, canonical: string -> Value, wanted: Value, source: string,
                recorded: bool, hadChannels: bool, hadTelegram: bool)
    requires d.root.Object? && !Where(d.root.fields, meaning).Unclear?
    ensures var r, f := Decide(d, meaning, canonical, wanted, source, recorded, hadChannels, hadTelegram),
            d.root.fields;
            var p, current := Where(f, meaning).Proxy?, Current(f, meaning, canonical);
            r == if p && current.None? then Refused
                 else if wanted == current then Same
                 else if wanted.None? then
                   Edited(DocumentText(Document(
                       d.pre, Object(WithoutProxy(f, meaning, recorded, hadChannels, hadTelegram)), d.post)))
                 else if canonical(source) != wanted then Refused
                 else Edited(DocumentText(Document(d.pre, Object(WithProxy(f, meaning, Scalar(source))), d.post)))
  {
  }

  lemma LexemeIs(f: Fields, meaning: string -> string, canonical: string -> Value)
    requires WfFields(f) && DecodesScalars(canonical) && Where(f, meaning).Proxy?
             && Current(f, meaning, canonical).Value?
    ensures var s := Where(f, meaning); Entries(Inner(Inner(f, s.c), s.t))[s.p].1 == Scalar(Lexeme(f, meaning))
  {
    var s := Where(f, meaning);
    InnerIsWf(f, s.c);
    InnerIsWf(Inner(f, s.c), s.t);
    EntryIsWf(Inner(Inner(f, s.c), s.t), s.p);
  }

  /** Taking the proxy over in a text and restoring what was recorded gives a text that says the same at every level,
      in the same order and with the same words; and the very same text when a value was replaced, or when the closing
      brace of the object the program wrote into stands on a line of its own. */
  lemma SetThenRestored(raw: string, d: Document, meaning: string -> string, canonical: string -> Value,
                        wanted: string, source: string)
    requires ParseDocument(raw) == Good(d, "") && d.root.Object? && Understands(meaning) && DecodesScalars(canonical)
    requires (Quoted(source) || Plain(source)) && canonical(source) == Value(wanted)
    requires Decide(d, meaning, canonical, Value(wanted), source, false, false, false).Edited?
    ensures var f, s, taken := d.root.fields, Where(d.root.fields, meaning),
            Decide(d, meaning, canonical, Value(wanted), source, false, false, false);
            && ParseDocument(taken.text).Good?
            && var restored :=
                 Decide(ParseDocument(taken.text).value, meaning, canonical, Current(f, meaning, canonical),
                        Lexeme(f, meaning),
                                      true, !s.NoChannels?, s.NoProxy? || s.Proxy?);
               && restored.Edited? && ParseDocument(restored.text).Good?
               && var e := ParseDocument(restored.text).value;
                  && e.pre == d.pre && e.post == d.post && Says(e.root) == Says(d.root)
                  && (s.Proxy? || (!s.Unclear? && BraceAlone(OpenClawProxy.Edited(f, meaning))) ==>
                       restored.text == raw)
  {
    var f, s, v := d.root.fields, Where(d.root.fields, meaning), Scalar(source);
    DocumentRound(raw, d);
    DecideIs(d, meaning, canonical, Value(wanted), source, false, false, false);
    assert Wf(v) && Text(v) == source;
    hide Where;
    hide Decide;
    hide WithProxy;
    hide WithoutProxy;
    hide ParseDocument;
    hide Lexeme;
    hide Text;
    hide Trivia;
    hide Skip;
    hide BraceAlone;
    Decides(d, meaning, canonical, Value(wanted), source, false, false, false);
    var g := WithProxy(f, meaning, v);
    WithProxyWf(f, meaning, v);
    TakeOverThenGiveBack(f, meaning, v);
    ValueThere(f, meaning, v);
    RewrittenRoot(d, g);
    var d1 := Document(d.pre, Object(g), d.post);
    DocumentRound(DocumentText(d1), d1);
    var current, lexeme := Current(f, meaning, canonical), Lexeme(f, meaning);
    Decides(d1, meaning, canonical, current, lexeme, true, !s.NoChannels?, s.NoProxy? || s.Proxy?);
    if s.Proxy? {
      LexemeIs(f, meaning, canonical);
    } else {
      WithoutProxyWf(g, meaning, true, !s.NoChannels?, s.NoProxy?);
    }
    var back := if s.Proxy? then WithProxy(g, meaning, Scalar(lexeme))
        else WithoutProxy(g, meaning, true, !s.NoChannels?, s.NoProxy?);
    RewrittenRoot(d, back);
    var e := Document(d.pre, Object(back), d.post);
    DocumentRound(DocumentText(e), e);
  }
}
