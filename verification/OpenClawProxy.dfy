/** Taking over and giving back channels.telegram.proxy, as edits of the configuration's tree. */
module OpenClawProxy {
  import opened Json5Text
  import opened Json5Tree
  import opened Json5Lexemes
  import opened Json5Lines
  import opened Json5Edit
  import opened Json5Insertion
  import opened Json5Editor
  import opened Json5Values

  /** What a document says, without trivia: keys and values as they are spelled, in order. */
  datatype Said = Word(text: string) | Record(members: seq<(string, Said)>) | Listing(items: seq<Said>)

  function Says(t: Tree): Said {
    match t
    case Scalar(x) => Word(x)
    case Object(f) => Record(SaysFields(f))
    case Array(i) => Listing(SaysItems(i))
  }

  function SaysFields(f: Fields): seq<(string, Said)> {
    match f
    case NoField(_) => []
    case Field(l, v, _, rest) => [(l.key, Says(v))] + match rest case Closed => [] case Comma(next) => SaysFields(next)
  }

  function SaysItems(i: Items): seq<Said> {
    match i
    case NoItem(_) => []
    case Item(_, v, _, rest) => [Says(v)] + match rest case ClosedItems => [] case CommaItems(next) => SaysItems(next)
  }

  lemma {:induction false} SameEntriesSaySame(f: Fields, g: Fields)
    requires Entries(f) == Entries(g)
    ensures SaysFields(f) == SaysFields(g)
    decreases |Entries(f)|
  {
    if f.Field? {
      FieldIs(f);
      FieldIs(g);
      assert Entries(f)[0] == Entries(g)[0] && Entries(f)[1..] == Entries(g)[1..];
      assert MoreEntries(f.rest) == Entries(f)[1..] && MoreEntries(g.rest) == Entries(g)[1..];
      var f' := if f.rest.Closed? then NoField("") else f.rest.next;
      var g' := if g.rest.Closed? then NoField("") else g.rest.next;
      SameEntriesSaySame(f', g');
    }
  }

  // Looking members up and changing one value.

  /** The places whose key means `key`; `meaning` decodes a key. */
  function Hits(entries: seq<(string, Tree)>, meaning: string -> string, key: string): (r: seq<nat>)
    ensures forall i :: i in r ==> i < |entries| && meaning(entries[i].0) == key
    ensures forall i :: 0 <= i < |entries| && meaning(entries[i].0) == key ==> i in r
  {
    if entries == [] then []
    else
      var n := |entries| - 1;
      Hits(entries[..n], meaning, key) + if meaning(entries[n].0) == key then [n] else []
  }

  lemma InsertedFirst(f: Fields, key: string, v: Tree, w: Tree, nl: string)
    requires f.NoField? || f.rest.Closed? || f.rest.next.NoField?
    ensures |Entries(Inserted(f, key, v, nl))| == |Entries(f)| + 1
    ensures WithValue(Inserted(f, key, v, nl), |Entries(f)|, w) == Inserted(f, key, w, nl)
    ensures Entries(Inserted(f, key, v, nl)) == Entries(f) + [(key, v)]
  {
  }

  /** The value of an inserted member can be changed where it stands. */
  lemma {:induction false} InsertedValue(f: Fields, key: string, v: Tree, w: Tree, nl: string)
    ensures |Entries(Inserted(f, key, v, nl))| == |Entries(f)| + 1
    ensures WithValue(Inserted(f, key, v, nl), |Entries(f)|, w) == Inserted(f, key, w, nl)
    ensures Entries(Inserted(f, key, v, nl)) == Entries(f) + [(key, v)]
  {
    if f.NoField? || f.rest.Closed? || f.rest.next.NoField? {
      InsertedFirst(f, key, v, w, nl);
    } else {
      InsertedValue(f.rest.next, key, v, w, nl);
      InsertedNext(f, key, v, nl);
      InsertedNext(f, key, w, nl);
      FieldIs(f);
      FieldIs(Inserted(f, key, v, nl));
      WithValueIs(Inserted(f, key, v, nl), |Entries(f)|, w);
    }
  }

  lemma {:induction false} HitsMore(entries: seq<(string, Tree)>, last: (string, Tree), meaning: string -> string,
                                    key: string)
    ensures Hits(entries + [last], meaning, key) ==
            Hits(entries, meaning, key) + if meaning(last.0) == key then [|entries|] else []
  {
  }

  // Taking over.

  function Encoded(key: string): string { "\"" + key + "\"" }

  const CHANNELS := "channels"
  const TELEGRAM := "telegram"
  const PROXY := "proxy"

  /** An object with one member, written without white space. */
  function Single(key: string, v: Tree): Tree { Object(Field(Lead("", Encoded(key), "", ""), v, "", Closed)) }

  /** How far the path channels, telegram, proxy exists; Unclear when a step is ambiguous or no object. */
  datatype Site = NoChannels | NoTelegram(c: nat) | NoProxy(c: nat, t: nat) | Proxy(c: nat, t: nat, p: nat) | Unclear

  predicate Opens(f: Fields, i: nat) { i < |Entries(f)| && Entries(f)[i].1.Object? }

  function Inner(f: Fields, i: nat): Fields
    requires Opens(f, i)
  {
    Entries(f)[i].1.fields
  }

  datatype Step = Absent | Once(i: nat) | Doubtful

  /** The one member of this meaning. */
  function Seek(f: Fields, meaning: string -> string, key: string): (s: Step)
    ensures s.Once? ==> s.i < |Entries(f)|
  {
    var hits := Hits(Entries(f), meaning, key);
    if |hits| == 0 then Absent
    else if |hits| > 1 then Doubtful
    else
      assert hits[0] in hits;
      Once(hits[0])
  }

  /** The one member of this meaning, which must be an object. */
  function Enter(f: Fields, meaning: string -> string, key: string): (s: Step)
    ensures s.Once? ==> Opens(f, s.i)
  {
    var s := Seek(f, meaning, key);
    if s.Once? && !Entries(f)[s.i].1.Object? then Doubtful else s
  }

  function Where(f: Fields, meaning: string -> string): (s: Site)
    ensures s.NoTelegram? || s.NoProxy? || s.Proxy? ==> Opens(f, s.c)
    ensures s.NoProxy? || s.Proxy? ==> Opens(Inner(f, s.c), s.t)
    ensures s.Proxy? ==> s.p < |Entries(Inner(Inner(f, s.c), s.t))|
  {
    match Enter(f, meaning, CHANNELS)
    case Doubtful => Unclear
    case Absent => NoChannels
    case Once(c) =>
      match Enter(Inner(f, c), meaning, TELEGRAM)
      case Doubtful => Unclear
      case Absent => NoTelegram(c)
      case Once(t) =>
        match Seek(Inner(Inner(f, c), t), meaning, PROXY)
        case Doubtful => Unclear
        case Absent => NoProxy(c, t)
        case Once(p) => Proxy(c, t, p)
  }

  /** The configuration with another telegram object. */
  function WithTelegram(f: Fields, c: nat, t: nat, telegram: Fields): Fields
    requires Opens(f, c) && t < |Entries(Inner(f, c))|
  {
    WithValue(f, c, Object(WithValue(Inner(f, c), t, Object(telegram))))
  }

  /** The configuration with the proxy set to v. */
  function WithProxy(f: Fields, meaning: string -> string, v: Tree): Fields
    requires !Where(f, meaning).Unclear?
  {
    match Where(f, meaning)
    case NoChannels => Inserted(f, Encoded(CHANNELS), Single(TELEGRAM, Single(PROXY, v)), BreakOf(f))
    case NoTelegram(c) =>
      WithValue(f, c, Object(Inserted(Inner(f, c), Encoded(TELEGRAM), Single(PROXY, v), BreakOf(Inner(f, c)))))
    case NoProxy(c, t) =>
      var telegram := Inner(Inner(f, c), t);
      WithTelegram(f, c, t, Inserted(telegram, Encoded(PROXY), v, BreakOf(telegram)))
    case Proxy(c, t, p) => WithTelegram(f, c, t, WithValue(Inner(Inner(f, c), t), p, v))
  }

  // Giving back.

  /** Something that looks like a comment stands inside the object. */
  predicate MentionsComment(f: Fields) {
    var s := FieldsText(f);
    exists i :: 0 <= i < |s| - 2 && s[i] == '/' && (s[i + 1] == '/' || s[i + 1] == '*')
  }

  predicate Hollow(f: Fields) { |Entries(f)| == 0 && !MentionsComment(f) }

  /** The configuration without the proxy; containers that were not there before go when nothing else is in them. */
  function WithoutProxy(f: Fields, meaning: string -> string, recorded: bool, hadChannels: bool,
                        hadTelegram: bool): Fields
    requires Where(f, meaning).Proxy?
  {
    var s := Where(f, meaning);
    var channels := Inner(f, s.c);
    var telegram := Removed(Inner(channels, s.t), s.p);
    if !recorded || hadTelegram || !Hollow(telegram) then WithTelegram(f, s.c, s.t, telegram)
    else
      WithValueKeeps(channels, s.t, Object(telegram));
      var rest := Removed(WithValue(channels, s.t, Object(telegram)), s.t);
      WithValueKeeps(f, s.c, Object(rest));
      if hadChannels || !Hollow(rest) then WithValue(f, s.c, Object(rest))
      else Removed(WithValue(f, s.c, Object(rest)), s.c)
  }

  /** An object with nothing in it but white space. */
  predicate Vacant(f: Fields) { f.NoField? && forall c :: c in f.trivia ==> IsWhite(c) }

  lemma HollowIff(f: Fields)
    requires WfFields(f)
    ensures Hollow(f) <==> Vacant(f)
  {
    if f.NoField? { CommentIff(f.trivia); }
  }

  lemma CommentIff(t: string)
    requires Trivia(t)
    ensures MentionsComment(NoField(t)) <==> exists c :: c in t && !IsWhite(c)
  {
    hide MentionsComment;
    hide GoodBit;
    hide BitsText;
    var bits := TriviaHas(t);
    if forall b :: b in bits ==> b.White? {
      WhiteBits(bits);
      assert !IsWhite('/');
      NoComment(t);
    } else {
      var i := CommentIn(bits);
      HasComment(t, i);
    }
  }

  lemma NoComment(t: string)
    requires '/' !in t
    ensures !MentionsComment(NoField(t))
  {
    var s := FieldsText(NoField(t));
    forall i | 0 <= i < |s| - 2 ensures s[i] != '/' { assert s[i] == t[i] && t[i] in t; }
  }

  lemma HasComment(t: string, i: nat)
    requires i < |t| - 1 && t[i] == '/' && t[i + 1] in "/*"
    ensures MentionsComment(NoField(t)) && t[i] in t && !IsWhite(t[i])
  {
    var s := FieldsText(NoField(t));
    assert s[i] == t[i] && s[i + 1] == t[i + 1];
  }

  lemma {:induction false} WhiteBits(bits: seq<Bit>)
    requires GoodBits(bits) && forall b :: b in bits ==> b.White?
    ensures forall c :: c in BitsText(bits) ==> IsWhite(c)
  {
    if bits != [] {
      assert bits[0] in bits;
      WhiteBits(bits[1..]);
    }
  }

  lemma {:induction false} CommentIn(bits: seq<Bit>) returns (i: nat)
    requires GoodBits(bits) && exists b :: b in bits && !b.White?
    ensures i < |BitsText(bits)| - 1
    ensures BitsText(bits)[i] == '/' && BitsText(bits)[i + 1] in "/*"
  {
    var first, rest := BitText(bits[0]), BitsText(bits[1..]);
    if bits[0].White? {
      i := CommentIn(bits[1..]);
      assert BitsText(bits)[i + 1] == rest[i] && BitsText(bits)[i + 2] == rest[i + 1];
      i := i + 1;
    } else {
      i := 0;
      assert BitsText(bits)[0] == first[0] && BitsText(bits)[1] == first[1];
    }
  }

  /** A container goes only when it is recorded that the program made it and nothing but white space is left in it. */
  lemma PrunedWhen(f: Fields, meaning: string -> string, recorded: bool, hadChannels: bool, hadTelegram: bool)
    requires WfFields(f) && Where(f, meaning).Proxy?
    ensures var s, r := Where(f, meaning), WithoutProxy(f, meaning, recorded, hadChannels, hadTelegram);
            var channels, telegram := Inner(f, s.c), Removed(Inner(Inner(f, s.c), s.t), s.p);
            if !recorded || hadTelegram || !Vacant(telegram) then r == WithTelegram(f, s.c, s.t, telegram)
            else
              var g := WithValue(channels, s.t, Object(telegram));
              && s.t < |Entries(g)|
              && var rest := Removed(g, s.t);
                 && Entries(rest) == Entries(channels)[..s.t] + Entries(channels)[s.t + 1..]
                 && if hadChannels || !Vacant(rest) then r == WithValue(f, s.c, Object(rest))
                    else Entries(r) == Entries(f)[..s.c] + Entries(f)[s.c + 1..]
  {
    var s := Where(f, meaning);
    var channels := Inner(f, s.c);
    InnerIsWf(f, s.c);
    InnerIsWf(channels, s.t);
    var telegram := Removed(Inner(channels, s.t), s.p);
    RemovedKeeps(Inner(channels, s.t), s.p);
    HollowIff(telegram);
    WithValueKeeps(channels, s.t, Object(telegram));
    var g := WithValue(channels, s.t, Object(telegram));
    RemovedKeeps(g, s.t);
    SkipsAt(Entries(channels), s.t, (Entries(channels)[s.t].0, Object(telegram)));
    var rest := Removed(g, s.t);
    HollowIff(rest);
    WithValueKeeps(f, s.c, Object(rest));
    RemovedKeeps(WithValue(f, s.c, Object(rest)), s.c);
    SkipsAt(Entries(f), s.c, (Entries(f)[s.c].0, Object(rest)));
  }

  lemma SkipsAt<T>(s: seq<T>, i: nat, x: T)
    requires i < |s|
    ensures s[i := x][..i] + s[i := x][i + 1..] == s[..i] + s[i + 1..]
  {
  }

  // What was taken over can be given back.

  /** Decoding understands the keys the program writes. */
  ghost predicate Understands(meaning: string -> string) {
    meaning(Encoded(CHANNELS)) == CHANNELS && meaning(Encoded(TELEGRAM)) == TELEGRAM && meaning(Encoded(PROXY)) == PROXY
  }

  lemma SeekInserted(f: Fields, meaning: string -> string, key: string, v: Tree, nl: string)
    requires Seek(f, meaning, key).Absent? && meaning(Encoded(key)) == key
    ensures Seek(Inserted(f, Encoded(key), v, nl), meaning, key) == Once(|Entries(f)|)
    ensures |Entries(Inserted(f, Encoded(key), v, nl))| == |Entries(f)| + 1
    ensures Entries(Inserted(f, Encoded(key), v, nl))[|Entries(f)|].1 == v
  {
    InsertedValue(f, Encoded(key), v, v, nl);
    HitsMore(Entries(f), (Encoded(key), v), meaning, key);
  }

  lemma SeekSingle(meaning: string -> string, key: string, v: Tree)
    requires meaning(Encoded(key)) == key
    ensures Single(key, v).Object?
    ensures var f := Single(key, v).fields; Seek(f, meaning, key) == Once(0) && Entries(f) == [(Encoded(key), v)]
  {
    assert Entries(Single(key, v).fields) == [(Encoded(key), v)];
    HitsMore([], (Encoded(key), v), meaning, key);
    assert [] + [(Encoded(key), v)] == [(Encoded(key), v)];
  }

  lemma {:induction false} HitsSame(e: seq<(string, Tree)>, e': seq<(string, Tree)>, meaning: string -> string,
                                    key: string)
    requires |e| == |e'| && forall i :: 0 <= i < |e| ==> e[i].0 == e'[i].0
    ensures Hits(e, meaning, key) == Hits(e', meaning, key)
  {
    if e != [] { HitsSame(e[..|e| - 1], e'[..|e| - 1], meaning, key); }
  }

  lemma SeekWithValue(f: Fields, i: nat, v: Tree, meaning: string -> string, key: string)
    requires i < |Entries(f)|
    ensures |Entries(WithValue(f, i, v))| == |Entries(f)|
    ensures Seek(WithValue(f, i, v), meaning, key) == Seek(f, meaning, key)
    ensures Entries(WithValue(f, i, v))[i].1 == v
    ensures v.Object? ==> Opens(WithValue(f, i, v), i) && Inner(WithValue(f, i, v), i) == v.fields
  {
    WithValueKeeps(f, i, v);
    HitsSame(Entries(WithValue(f, i, v)), Entries(f), meaning, key);
  }

  /** The object a take-over inserts into. */
  function Edited(f: Fields, meaning: string -> string): Fields
    requires Where(f, meaning).NoChannels? || Where(f, meaning).NoTelegram? || Where(f, meaning).NoProxy?
  {
    match Where(f, meaning)
    case NoChannels => f
    case NoTelegram(c) => Inner(f, c)
    case NoProxy(c, t) => Inner(Inner(f, c), t)
  }

  /** Where the proxy is after it was set. */
  lemma TakenOver(f: Fields, meaning: string -> string, v: Tree)
    requires Understands(meaning) && !Where(f, meaning).Unclear?
    ensures var s := Where(f, meaning);
            Where(WithProxy(f, meaning, v), meaning) ==
            if s.NoChannels? then Proxy(|Entries(f)|, 0, 0)
            else if s.NoTelegram? then Proxy(s.c, |Entries(Inner(f, s.c))|, 0)
            else if s.NoProxy? then Proxy(s.c, s.t, |Entries(Inner(Inner(f, s.c), s.t))|)
            else s
  {
    hide Inserted;
    hide BreakOf;
    hide WithValue;
    hide Entries;
    hide Seek;
    hide Single;
    match Where(f, meaning)
    case NoChannels =>
      var w := Single(TELEGRAM, Single(PROXY, v));
      SeekInserted(f, meaning, CHANNELS, w, BreakOf(f));
      SeekSingle(meaning, TELEGRAM, Single(PROXY, v));
      SeekSingle(meaning, PROXY, v);
    case NoTelegram(c) =>
      var w := Single(PROXY, v);
      var channels := Inserted(Inner(f, c), Encoded(TELEGRAM), w, BreakOf(Inner(f, c)));
      SeekInserted(Inner(f, c), meaning, TELEGRAM, w, BreakOf(Inner(f, c)));
      SeekSingle(meaning, PROXY, v);
      SeekWithValue(f, c, Object(channels), meaning, CHANNELS);
    case NoProxy(c, t) =>
      var telegram := Inner(Inner(f, c), t);
      SeekInserted(telegram, meaning, PROXY, v, BreakOf(telegram));
      TelegramThere(f, meaning, c, t, Inserted(telegram, Encoded(PROXY), v, BreakOf(telegram)));
    case Proxy(c, t, p) =>
      var telegram := Inner(Inner(f, c), t);
      SeekWithValue(telegram, p, v, meaning, PROXY);
      TelegramThere(f, meaning, c, t, WithValue(telegram, p, v));
  }

  lemma TelegramThere(f: Fields, meaning: string -> string, c: nat, t: nat, telegram: Fields)
    requires Opens(f, c) && Opens(Inner(f, c), t)
    ensures var g := WithTelegram(f, c, t, telegram);
            && Seek(g, meaning, CHANNELS) == Seek(f, meaning, CHANNELS)
            && Opens(g, c) && Seek(Inner(g, c), meaning, TELEGRAM) == Seek(Inner(f, c), meaning, TELEGRAM)
            && Opens(Inner(g, c), t) && Inner(Inner(g, c), t) == telegram
            && Inner(g, c) == WithValue(Inner(f, c), t, Object(telegram))
  {
    hide WithValue;
    hide Seek;
    hide Entries;
    var channels := WithValue(Inner(f, c), t, Object(telegram));
    SeekWithValue(Inner(f, c), t, Object(telegram), meaning, TELEGRAM);
    SeekWithValue(f, c, Object(channels), meaning, CHANNELS);
  }

  /** Setting the proxy and setting the recorded value again gives the same document, to the letter. */
  lemma ReplacedThenRestored(f: Fields, meaning: string -> string, v: Tree)
    requires Understands(meaning) && Where(f, meaning).Proxy?
    ensures var s := Where(f, meaning);
            var recorded := Entries(Inner(Inner(f, s.c), s.t))[s.p].1;
            var g := WithProxy(f, meaning, v);
            !Where(g, meaning).Unclear? && WithProxy(g, meaning, recorded) == f
  {
    var s := Where(f, meaning);
    var telegram := Inner(Inner(f, s.c), s.t);
    var recorded := Entries(telegram)[s.p].1;
    TakenOver(f, meaning, v);
    TelegramThere(f, meaning, s.c, s.t, WithValue(telegram, s.p, v));
    WithValueAgain(telegram, s.p, v, recorded);
    WithValueKeeps(telegram, s.p, recorded);
    hide WithValue;
    hide Entries;
    var channels := Inner(f, s.c);
    assert Object(telegram) == Entries(channels)[s.t].1 && Object(channels) == Entries(f)[s.c].1;
    WithValueAgain(channels, s.t, Object(WithValue(telegram, s.p, v)), Object(telegram));
    WithValueKeeps(channels, s.t, Object(telegram));
    WithValueAgain(f, s.c, Object(WithValue(channels, s.t, Object(WithValue(telegram, s.p, v)))), Object(channels));
    WithValueKeeps(f, s.c, Object(channels));
  }

  lemma {:induction false} SaysWithValue(f: Fields, i: nat, v: Tree)
    requires i < |Entries(f)| && Says(v) == Says(Entries(f)[i].1)
    ensures SaysFields(WithValue(f, i, v)) == SaysFields(f)
  {
    hide Says;
    if i > 0 { SaysWithValue(f.rest.next, i - 1, v); }
  }

  const EMPTY := NoField("")

  /** The only member of a compact object leaves nothing behind. */
  lemma SingleEmptied(key: string, v: Tree, w: Tree)
    ensures var f := Single(key, v).fields;
            && |Entries(f)| == 1 && Removed(f, 0) == EMPTY && WithValue(f, 0, w) == Single(key, w).fields
            && Hollow(EMPTY) && Wf(Object(EMPTY))
  {
  }

  lemma {:induction false} EncodedLength(key: string)
    requires '"' !in key && '\\' !in key
    ensures StringLength('"', key + "\"") == |key| + 1
  {
    if key != "" {
      assert (key + "\"")[1..] == key[1..] + "\"";
      assert key[0] in key;
      EncodedLength(key[1..]);
    }
  }

  lemma EncodedIsQuoted(key: string)
    requires '"' !in key && '\\' !in key
    ensures Quoted(Encoded(key))
  {
    EncodedLength(key);
    assert Encoded(key)[1..] == key + "\"";
  }

  /** A member inserted with any value, emptied in place and removed again. */
  lemma EmptiedThenRemoved(f: Fields, key: string, v: Tree)
    requires WfFields(f) && key in {CHANNELS, TELEGRAM}
    ensures var n, g := |Entries(f)|, Inserted(f, Encoded(key), v, BreakOf(f));
            && n < |Entries(g)| && n < |Entries(WithValue(g, n, Object(EMPTY)))|
            && Entries(Removed(WithValue(g, n, Object(EMPTY)), n)) == Entries(f)
            && (BraceAlone(f) ==> Removed(WithValue(g, n, Object(EMPTY)), n) == f)
  {
    SingleEmptied(key, v, v);
    BreakIsBreak(f);
    EncodedIsQuoted(key);
    InsertedValue(f, Encoded(key), v, Object(EMPTY), BreakOf(f));
    InsertedValue(f, Encoded(key), Object(EMPTY), v, BreakOf(f));
    InsertedThenRemoved(f, Encoded(key), Object(EMPTY), BreakOf(f));
  }

  /** Telegram's object was there: only its own member goes. */
  lemma ProxyReturns(f: Fields, meaning: string -> string, v: Tree)
    requires WfFields(f) && Wf(v) && Understands(meaning) && Where(f, meaning).NoProxy?
    ensures var s, g := Where(f, meaning), WithProxy(f, meaning, v);
            && Where(g, meaning).Proxy?
            && SaysFields(WithoutProxy(g, meaning, true, true, true)) == SaysFields(f)
            && (BraceAlone(Inner(Inner(f, s.c), s.t)) ==> WithoutProxy(g, meaning, true, true, true) == f)
  {
    hide Where;
    hide Inserted;
    hide Removed;
    hide BreakOf;
    hide Entries;
    hide WithValue;
    hide Encoded;
    hide BraceAlone;
    var s, g := Where(f, meaning), WithProxy(f, meaning, v);
    var channels := Inner(f, s.c);
    var telegram := Inner(channels, s.t);
    var more := Inserted(telegram, Encoded(PROXY), v, BreakOf(telegram));
    InnerIsWf(f, s.c);
    InnerIsWf(channels, s.t);
    BreakIsBreak(telegram);
    EncodedIsQuoted(PROXY);
    InsertedThenRemoved(telegram, Encoded(PROXY), v, BreakOf(telegram));
    var less := Removed(more, |Entries(telegram)|);
    TakenOver(f, meaning, v);
    TelegramThere(f, meaning, s.c, s.t, more);
    TelegramAgain(f, s.c, s.t, more, less);
    SameEntriesSaySame(less, telegram);
    SaysTelegram(f, s.c, s.t, less);
  }

  lemma InnerIsWf(f: Fields, i: nat)
    requires WfFields(f) && Opens(f, i)
    ensures WfFields(Inner(f, i))
  {
    hide Trivia;
    hide WfLead;
    EntryIsWf(f, i);
  }

  lemma TelegramAgain(f: Fields, c: nat, t: nat, more: Fields, less: Fields)
    requires Opens(f, c) && Opens(Inner(f, c), t)
    ensures var g := WithTelegram(f, c, t, more);
            && Opens(g, c) && t < |Entries(Inner(g, c))| && WithTelegram(g, c, t, less) == WithTelegram(f, c, t, less)
    ensures less == Inner(Inner(f, c), t) ==> WithTelegram(f, c, t, less) == f
  {
    var channels := Inner(f, c);
    hide WithValue;
    SeekWithValue(channels, t, Object(more), (x: string) => x, "");
    SeekWithValue(f, c, Object(WithValue(channels, t, Object(more))), (x: string) => x, "");
    WithValueAgain(channels, t, Object(more), Object(less));
    WithValueAgain(f, c, Object(WithValue(channels, t, Object(more))), Object(WithValue(channels, t, Object(less))));
    WithValueKeeps(channels, t, Object(less));
    WithValueKeeps(f, c, Object(WithValue(channels, t, Object(less))));
  }

  lemma SaysTelegram(f: Fields, c: nat, t: nat, less: Fields)
    requires Opens(f, c) && Opens(Inner(f, c), t) && SaysFields(less) == SaysFields(Inner(Inner(f, c), t))
    ensures SaysFields(WithTelegram(f, c, t, less)) == SaysFields(f)
  {
    SaysWithValue(Inner(f, c), t, Object(less));
    SaysWithValue(f, c, Object(WithValue(Inner(f, c), t, Object(less))));
  }

  /** The channels object was there: the telegram object that was added goes again. */
  lemma TelegramReturns(f: Fields, meaning: string -> string, v: Tree)
    requires WfFields(f) && Understands(meaning) && Where(f, meaning).NoTelegram?
    ensures var s, g := Where(f, meaning), WithProxy(f, meaning, v);
            && Where(g, meaning).Proxy?
            && SaysFields(WithoutProxy(g, meaning, true, true, false)) == SaysFields(f)
            && (BraceAlone(Inner(f, s.c)) ==> WithoutProxy(g, meaning, true, true, false) == f)
  {
    var c := Where(f, meaning).c;
    var channels, w := Inner(f, c), Single(PROXY, v);
    var more := Inserted(channels, Encoded(TELEGRAM), w, BreakOf(channels));
    var n := |Entries(channels)|;
    InnerIsWf(f, c);
    TakenOver(f, meaning, v);
    EmptiedThenRemoved(channels, TELEGRAM, w);
    SingleEmptied(PROXY, v, v);
    InsertedValue(channels, Encoded(TELEGRAM), w, w, BreakOf(channels));
    SeekWithValue(f, c, Object(more), meaning, CHANNELS);
    var rest := Removed(WithValue(more, n, Object(EMPTY)), n);
    WithValueAgain(f, c, Object(more), Object(rest));
    WithValueKeeps(f, c, Object(rest));
    SameEntriesSaySame(rest, channels);
    SaysWithValue(f, c, Object(rest));
  }

  /** Nothing was there: the channels object that was added goes again. */
  lemma ChannelsReturn(f: Fields, meaning: string -> string, v: Tree)
    requires WfFields(f) && Understands(meaning) && Where(f, meaning).NoChannels?
    ensures var g := WithProxy(f, meaning, v);
            && Where(g, meaning).Proxy?
            && SaysFields(WithoutProxy(g, meaning, true, false, false)) == SaysFields(f)
            && (BraceAlone(f) ==> WithoutProxy(g, meaning, true, false, false) == f)
  {
    var w := Single(TELEGRAM, Single(PROXY, v));
    var n := |Entries(f)|;
    TakenOver(f, meaning, v);
    EmptiedThenRemoved(f, CHANNELS, w);
    SingleEmptied(PROXY, v, v);
    SingleEmptied(TELEGRAM, Single(PROXY, v), Object(EMPTY));
    SingleEmptied(TELEGRAM, Object(EMPTY), v);
    InsertedValue(f, Encoded(CHANNELS), w, w, BreakOf(f));
    SeekSingle(meaning, TELEGRAM, Single(PROXY, v));
    var g := WithProxy(f, meaning, v);
    var rest := Removed(WithValue(g, n, Object(EMPTY)), n);
    SameEntriesSaySame(rest, f);
  }

  /** Taking over and giving back are inverse. Restoring the recorded value, or its absence, gives a configuration that
      says the same with the same words at every level; it is the same to the letter when the value was only
      replaced, or when the closing brace of the object that was added to stands on a line of its own. */
  lemma TakeOverThenGiveBack(f: Fields, meaning: string -> string, v: Tree)
    requires WfFields(f) && Wf(v) && Understands(meaning) && !Where(f, meaning).Unclear?
    ensures var s, g := Where(f, meaning), WithProxy(f, meaning, v);
            && Where(g, meaning).Proxy?
            && if s.Proxy? then WithProxy(g, meaning, Entries(Inner(Inner(f, s.c), s.t))[s.p].1) == f
               else
                 var back := WithoutProxy(g, meaning, true, !s.NoChannels?, s.NoProxy?);
                 SaysFields(back) == SaysFields(f) && (BraceAlone(Edited(f, meaning)) ==> back == f)
  {
    var s := Where(f, meaning);
    TakenOver(f, meaning, v);
    hide WithProxy;
    hide WithoutProxy;
    hide Entries;
    hide BraceAlone;
    if s.Proxy? { ReplacedThenRestored(f, meaning, v); }
    else if s.NoProxy? { ProxyReturns(f, meaning, v); }
    else if s.NoTelegram? { TelegramReturns(f, meaning, v); }
    else { ChannelsReturn(f, meaning, v); }
  }
}
