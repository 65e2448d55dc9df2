/** Reading and writing are inverse: a text is read as a tree exactly when it is the text of that tree. */
module Json5RoundTrip {
  import opened Strings
  import opened Json5Text
  import opened Json5Tree

  // Tokens alone and in context.

  lemma {:induction false} PlainLess(s: string, n: nat)
    requires n <= PlainLength(s)
    ensures PlainLength(s[..n]) == n
  {
    hide Skippable;
    if n > 0 {
      PlainLess(s[1..], n - 1);
      assert s[..n][1..] == s[1..][..n - 1];
    }
  }

  lemma {:induction false} NameLess(s: string, n: nat)
    requires n <= NameLength(s)
    ensures NameLength(s[..n]) == n
  {
    hide Skippable;
    if n > 0 {
      NameLess(s[1..], n - 1);
      assert s[..n][1..] == s[1..][..n - 1];
    }
  }

  lemma {:induction false} StringLess(quote: char, s: string)
    requires StringLength(quote, s) > 0
    ensures StringLength(quote, s[..StringLength(quote, s)]) == StringLength(quote, s)
    decreases |s|
  {
    var n := StringLength(quote, s);
    if s[0] != quote {
      var step := if s[0] != '\\' then 1 else if |s| > 2 && s[1] == '\r' && s[2] == '\n' then 3 else 2;
      StringLess(quote, s[step..]);
      assert s[..n][step..] == s[step..][..n - step];
    }
  }

  lemma {:induction false} PlainMore(x: string, more: string)
    requires PlainLength(x) == |x| && '/' !in x && PlainLength(more) == 0
    ensures PlainLength(x + more) == |x|
  {
    hide Skippable;
    if x == "" {
      assert x + more == more;
    } else {
      PlainMore(x[1..], more);
      assert (x + more)[1..] == x[1..] + more;
      assert x[0] in x;
    }
  }

  lemma {:induction false} NameMore(x: string, more: string)
    requires NameLength(x) == |x| && '/' !in x && NameLength(more) == 0
    ensures NameLength(x + more) == |x|
  {
    hide Skippable;
    if x == "" {
      assert x + more == more;
    } else {
      NameMore(x[1..], more);
      assert (x + more)[1..] == x[1..] + more;
      assert x[0] in x;
    }
  }

  lemma {:induction false} StringMore(quote: char, x: string, more: string)
    requires x != "" && StringLength(quote, x) == |x|
    ensures StringLength(quote, x + more) == |x|
    decreases |x|
  {
    if x[0] != quote {
      var step := if x[0] != '\\' then 1 else if |x| > 2 && x[1] == '\r' && x[2] == '\n' then 3 else 2;
      StringMore(quote, x[step..], more);
      assert (x + more)[step..] == x[step..] + more;
    }
  }

  /** Trivia in front of a delimiter ends an unquoted value, trivia in front of a colon ends a name. */
  lemma TriviaStops(t: string, more: string)
    requires Trivia(t) || (more == "" && Skip(t) == |t|)
    ensures PlainLength(more) == 0 ==> PlainLength(t + more) == 0
    ensures NameLength(more) == 0 ==> NameLength(t + more) == 0
  {
  }

  lemma KeySound(s: string)
    requires KeyLength(s) > 0
    ensures var x := s[..KeyLength(s)]; Quoted(x) || Name(x)
  {
    var n := KeyLength(s);
    if Quote(s[0]) {
      StringLess(s[0], s[1..]);
      assert s[..n][1..] == s[1..][..n - 1];
    } else {
      NameLess(s, n);
    }
  }

  lemma KeyMore(x: string, more: string)
    requires (Quoted(x) || Name(x)) && NameLength(more) == 0
    ensures KeyLength(x + more) == |x|
    ensures (x + more)[0] != '}' && Piece(x + more) == 0
  {
    if Quoted(x) {
      StringMore(x[0], x[1..], more);
      assert (x + more)[1..] == x[1..] + more;
    } else {
      NameMore(x, more);
      assert (x + more)[..|x|] == x;
      assert x[0] in x;
    }
  }

  // Concatenations.

  lemma Cut(x: string, y: string)
    ensures (x + y)[..|x|] == x && (x + y)[|x|..] == y
  {
  }

  lemma CutIn(s: string, n: nat)
    requires n <= |s|
    ensures s == s[..n] + s[n..]
  {
  }

  lemma SplitAt(s: string, d: nat)
    requires d < |s|
    ensures s == s[..d] + ([s[d]] + s[d + 1..])
  {
  }

  lemma Joined(l: Lead, more: string)
    ensures LeadText(l) + more == l.pre + (l.key + (l.mid + (":" + (l.gap + more))))
  {
  }

  lemma FieldJoins(l: Lead, v: Tree, post: string, rest: More, more: string)
    ensures FieldsText(Field(l, v, post, rest)) + more == LeadText(l) + (Text(v) + (post + (MoreText(rest) + more)))
  {
  }

  lemma ItemJoins(pre: string, v: Tree, post: string, rest: MoreItems, more: string)
    ensures ItemsText(Item(pre, v, post, rest)) + more == pre + (Text(v) + (post + (MoreItemsText(rest) + more)))
  {
  }

  // Reading yields the tree of the text.

  lemma ColonSound(s: string)
    requires ParseColon(s).Good?
    ensures var r := ParseColon(s);
            r.value.0 + (":" + (r.value.1 + r.rest)) == s && Trivia(r.value.0) && Trivia(r.value.1)
                && Piece(r.rest) == 0
  {
    hide Trivia;
    hide Skip;
    hide Piece;
    var w := s[Skip(s) + 1..];
    Skipped(s);
    Skipped(w);
    assert w == w[..Skip(w)] + w[Skip(w)..];
    SplitAt(s, Skip(s));
  }

  lemma LeadSound(s: string)
    requires ParseLead(s).Good?
    ensures var r := ParseLead(s); s == LeadText(r.value) + r.rest && WfLead(r.value) && Piece(r.rest) == 0
  {
    hide Trivia;
    hide Skip;
    hide KeyLength;
    hide Name;
    hide Quoted;
    hide Piece;
    hide ParseColon;
    hide LeadText;
    var u := s[Skip(s)..];
    var v := u[KeyLength(u)..];
    Skipped(s);
    KeySound(u);
    ColonSound(v);
    var r := ParseLead(s);
    CutIn(s, Skip(s));
    CutIn(u, KeyLength(u));
    Joined(r.value, r.rest);
  }

  lemma ScalarSound(s: string)
    requires s != "" && ParseScalar(s).Good? && s[0] != '{' && s[0] != '['
    ensures var r := ParseScalar(s); s == Text(r.value) + r.rest && Wf(r.value)
  {
    if Quote(s[0]) {
      var n := StringLength(s[0], s[1..]);
      StringLess(s[0], s[1..]);
      assert s[..n + 1][1..] == s[1..][..n];
      assert s == s[..n + 1] + s[n + 1..];
    } else {
      var n := PlainLength(s);
      PlainLess(s, n);
      assert s == s[..n] + s[n..];
    }
  }

  lemma {:induction false} ValueSound(s: string)
    requires ParseValue(s).Good?
    ensures var r := ParseValue(s); s == Text(r.value) + r.rest && Wf(r.value)
    decreases |s|, 0
  {
    hide ParseScalar;
    hide ParseFields;
    hide ParseItems;
    hide FieldsText;
    hide ItemsText;
    hide WfFields;
    hide WfItems;
    var r := ParseValue(s);
    if s[0] == '{' {
      FieldsSound(s[1..]);
      assert s == "{" + s[1..];
      Assoc("{", FieldsText(r.value.fields), r.rest);
    } else if s[0] == '[' {
      ItemsSound(s[1..]);
      assert s == "[" + s[1..];
      Assoc("[", ItemsText(r.value.items), r.rest);
    } else {
      ScalarSound(s);
    }
  }

  lemma {:induction false} FieldsSound(s: string)
    requires ParseFields(s).Good?
    ensures var r := ParseFields(s); s == FieldsText(r.value) + r.rest && WfFields(r.value)
    decreases |s|, 1
  {
    hide *;
    FieldsParts(s);
    if Skip(s) < |s| && s[Skip(s)] == '}' {
      Skipped(s);
      SplitAt(s, Skip(s));
      Assoc(s[..Skip(s)], "}", s[Skip(s) + 1..]);
    } else {
      LeadSound(s);
      ValueSound(ParseLead(s).rest);
      MoreSound(ParseValue(ParseLead(s).rest).rest);
      var r := ParseFields(s);
      FieldJoins(r.value.lead, r.value.value, r.value.post, r.value.rest, r.rest);
    }
  }

  /** What reading an object's inside took it apart into. */
  lemma FieldsParts(s: string)
    requires ParseFields(s).Good?
    ensures var r := ParseFields(s);
            if Skip(s) < |s| && s[Skip(s)] == '}' then
              r.value == NoField(s[..Skip(s)]) && r.rest == s[Skip(s) + 1..]
              && FieldsText(r.value) == s[..Skip(s)] + "}" && (WfFields(r.value) <==> Trivia(s[..Skip(s)]))
            else
              && ParseLead(s).Good? && |ParseLead(s).rest| < |s|
              && var v := ParseValue(ParseLead(s).rest);
                 && v.Good? && |v.rest| < |s|
                 && var p := ParseMore(v.rest);
                    && p.Good? && r.rest == p.rest
                    && r.value == Field(ParseLead(s).value, v.value, p.value.0, p.value.1)
                    && (WfFields(r.value) <==>
                         WfLead(r.value.lead) && Wf(v.value) && Trivia(p.value.0)
                             && (p.value.1.Comma? ==> WfFields(p.value.1.next)))
  {
  }

  lemma {:induction false} MoreSound(s: string)
    requires ParseMore(s).Good?
    ensures var r := ParseMore(s);
            && s == r.value.0 + (MoreText(r.value.1) + r.rest)
            && Trivia(r.value.0) && (r.value.1.Comma? ==> WfFields(r.value.1.next))
    decreases |s|, 0
  {
    hide Skip;
    hide Trivia;
    hide ParseFields;
    hide FieldsText;
    hide WfFields;
    Skipped(s);
    SplitAt(s, Skip(s));
    if s[Skip(s)] == ',' { FieldsSound(s[Skip(s) + 1..]); }
  }

  lemma {:induction false} ItemsSound(s: string)
    requires ParseItems(s).Good?
    ensures var r := ParseItems(s); s == ItemsText(r.value) + r.rest && WfItems(r.value)
    decreases |s|, 1
  {
    hide Skip;
    hide Trivia;
    hide ParseValue;
    hide ParseMoreItems;
    hide Text;
    hide Wf;
    hide MoreItemsText;
    var a := Skip(s);
    Skipped(s);
    if a < |s| && s[a] == ']' {
      SplitAt(s, a);
    } else {
      ValueSound(s[a..]);
      MoreItemsSound(ParseValue(s[a..]).rest);
      var r := ParseItems(s);
      ItemJoins(r.value.pre, r.value.value, r.value.post, r.value.rest, r.rest);
      assert s == s[..a] + s[a..];
    }
  }

  lemma {:induction false} MoreItemsSound(s: string)
    requires ParseMoreItems(s).Good?
    ensures var r := ParseMoreItems(s);
            && s == r.value.0 + (MoreItemsText(r.value.1) + r.rest)
            && Trivia(r.value.0) && (r.value.1.CommaItems? ==> WfItems(r.value.1.next))
    decreases |s|, 0
  {
    hide Skip;
    hide Trivia;
    hide ParseItems;
    hide ItemsText;
    hide WfItems;
    Skipped(s);
    SplitAt(s, Skip(s));
    if s[Skip(s)] == ',' { ItemsSound(s[Skip(s) + 1..]); }
  }

  // Reading the text of a tree yields the tree.

  lemma ColonRound(mid: string, gap: string, more: string)
    requires Trivia(mid) && Trivia(gap) && more != "" && Piece(more) == 0
    ensures ParseColon(mid + (":" + (gap + more))) == Good((mid, gap), more)
  {
    hide *;
    var w := gap + more;
    ColonStops(w);
    NothingSkipped(more);
    SkipOver(mid, ":" + w);
    SkipOver(gap, more);
    Cut(gap, more);
    BehindColon(mid, w);
    ColonIs(mid + (":" + w));
  }

  lemma ColonStops(w: string)
    ensures Skip(":" + w) == 0
  {
  }

  lemma NothingSkipped(s: string)
    requires Piece(s) == 0
    ensures Skip(s) == 0
  {
  }

  lemma BehindColon(mid: string, w: string)
    ensures var s := mid + (":" + w); s[..|mid|] == mid && s[|mid|] == ':' && s[|mid| + 1..] == w
  {
  }

  lemma ColonIs(s: string)
    requires Skip(s) < |s| && s[Skip(s)] == ':' && Skip(s[Skip(s) + 1..]) < |s| - Skip(s) - 1
    ensures var w := s[Skip(s) + 1..]; ParseColon(s) == Good((s[..Skip(s)], w[..Skip(w)]), w[Skip(w)..])
  {
    hide Skip;
  }

  lemma KeyStands(key: string, mid: string, w: string)
    requires (Quoted(key) || Name(key)) && Trivia(mid)
    ensures var u := key + (mid + (":" + w)); u != "" && KeyLength(u) == |key| > 0 && Skip(u) == 0 && u[0] != '}'
  {
    TriviaStops(mid, ":" + w);
    KeyMore(key, mid + (":" + w));
  }

  lemma LeadRound(l: Lead, more: string)
    requires WfLead(l) && more != "" && Piece(more) == 0
    ensures ParseLead(LeadText(l) + more) == Good(l, more)
    ensures Skip(LeadText(l) + more) == |l.pre| && (LeadText(l) + more)[|l.pre|] != '}'
  {
    hide Trivia;
    hide Skip;
    hide KeyLength;
    hide Name;
    hide Quoted;
    hide Piece;
    hide ParseColon;
    var w := l.gap + more;
    var v := l.mid + (":" + w);
    var u := l.key + v;
    KeyStands(l.key, l.mid, w);
    Joined(l, more);
    SkipOver(l.pre, u);
    ColonRound(l.mid, l.gap, more);
    Cut(l.pre, u);
    Cut(l.key, v);
    assert |LeadText(l)| == |l.pre| + |l.key| + |l.mid| + 1 + |l.gap|;
    hide LeadText;
    assert LeadText(l) + more == l.pre + u;
  }

  /** A value's text starts with neither trivia nor, for a scalar, a bracket. */
  lemma ValueStarts(t: Tree, more: string)
    requires Wf(t)
    ensures var s := Text(t) + more; s != "" && Piece(s) == 0 && Skip(s) == 0 && s[0] != ']'
    ensures t.Scalar? ==> (Text(t) + more)[0] != '{' && (Text(t) + more)[0] != '['
  {
    if t.Scalar? && !Quoted(t.text) { assert t.text[0] in t.text; }
  }

  lemma ScalarRound(x: string, more: string)
    requires (Quoted(x) || Plain(x)) && PlainLength(more) == 0
    ensures ParseScalar(x + more) == Good(Scalar(x), more)
  {
    Cut(x, more);
    if Quoted(x) {
      StringMore(x[0], x[1..], more);
      assert (x + more)[1..] == x[1..] + more;
    } else {
      PlainMore(x, more);
    }
  }

  lemma {:induction false} ValueRound(t: Tree, more: string)
    requires Wf(t) && PlainLength(more) == 0
    ensures ParseValue(Text(t) + more) == Good(t, more)
    decreases t, 0
  {
    hide ParseScalar;
    hide ParseFields;
    hide ParseItems;
    hide FieldsText;
    hide ItemsText;
    hide Quoted;
    hide Plain;
    hide PlainLength;
    match t
    case Scalar(x) =>
      ValueStarts(t, more);
      ScalarRound(x, more);
    case Object(f) =>
      FieldsRound(f, more);
      Assoc("{", FieldsText(f), more);
      Cut("{", FieldsText(f) + more);
    case Array(i) =>
      ItemsRound(i, more);
      Assoc("[", ItemsText(i), more);
      Cut("[", ItemsText(i) + more);
  }

  lemma {:induction false} FieldsRound(f: Fields, more: string)
    requires WfFields(f)
    ensures ParseFields(FieldsText(f) + more) == Good(f, more)
    decreases f, 1
  {
    hide Trivia;
    hide Skip;
    hide Text;
    hide MoreText;
    hide LeadText;
    hide WfLead;
    hide Wf;
    hide ParseLead;
    hide ParseValue;
    hide ParseMore;
    hide PlainLength;
    hide Piece;
    match f
    case NoField(trivia) =>
      var u := "}" + more;
      Assoc(trivia, "}", more);
      SkipOver(trivia, u);
      BraceStops(more);
      Cut(trivia, u);
      assert u[1..] == more;
    case Field(l, v, post, rest) =>
      FieldJoins(l, v, post, rest, more);
      var w := post + (MoreText(rest) + more);
      MoreStops(post, rest, more);
      ValueStarts(v, w);
      LeadRound(l, Text(v) + w);
      ValueRound(v, w);
      MoreRound(post, rest, more);
  }

  lemma BraceStops(more: string)
    ensures Skip("}" + more) == 0 && Skip("," + more) == 0 && Skip("]" + more) == 0
    ensures PlainLength("}" + more) == 0 && PlainLength("," + more) == 0 && PlainLength("]" + more) == 0
  {
  }

  lemma MoreStops(post: string, rest: More, more: string)
    requires Trivia(post)
    ensures PlainLength(post + (MoreText(rest) + more)) == 0
  {
    if rest.Comma? {
      Assoc(",", FieldsText(rest.next), more);
      BraceStops(FieldsText(rest.next) + more);
    } else {
      BraceStops(more);
    }
    TriviaStops(post, MoreText(rest) + more);
  }

  lemma {:induction false} MoreRound(post: string, rest: More, more: string)
    requires Trivia(post) && (rest.Comma? ==> WfFields(rest.next))
    ensures ParseMore(post + (MoreText(rest) + more)) == Good((post, rest), more)
    decreases rest, 2
  {
    hide Trivia;
    hide Skip;
    hide FieldsText;
    hide WfFields;
    hide ParseFields;
    var u := MoreText(rest) + more;
    SkipOver(post, u);
    Cut(post, u);
    match rest
    case Closed =>
      BraceStops(more);
      assert (post + u)[|post| + 1..] == more;
    case Comma(f) =>
      BraceStops(FieldsText(f) + more);
      Assoc(",", FieldsText(f), more);
      assert (post + u)[|post| + 1..] == FieldsText(f) + more;
      FieldsRound(f, more);
  }

  lemma {:induction false} ItemsRound(i: Items, more: string)
    requires WfItems(i)
    ensures ParseItems(ItemsText(i) + more) == Good(i, more)
    decreases i, 1
  {
    hide Trivia;
    hide Skip;
    hide Text;
    hide MoreItemsText;
    hide Wf;
    hide ParseValue;
    hide ParseMoreItems;
    hide PlainLength;
    hide Piece;
    match i
    case NoItem(trivia) =>
      var u := "]" + more;
      Assoc(trivia, "]", more);
      SkipOver(trivia, u);
      BraceStops(more);
      Cut(trivia, u);
      assert u[1..] == more;
    case Item(pre, v, post, rest) =>
      ItemJoins(pre, v, post, rest, more);
      var w := post + (MoreItemsText(rest) + more);
      MoreItemsStop(post, rest, more);
      ValueStarts(v, w);
      SkipOver(pre, Text(v) + w);
      Cut(pre, Text(v) + w);
      ValueRound(v, w);
      MoreItemsRound(post, rest, more);
  }

  lemma MoreItemsStop(post: string, rest: MoreItems, more: string)
    requires Trivia(post)
    ensures PlainLength(post + (MoreItemsText(rest) + more)) == 0
  {
    if rest.CommaItems? {
      Assoc(",", ItemsText(rest.next), more);
      BraceStops(ItemsText(rest.next) + more);
    } else {
      BraceStops(more);
    }
    TriviaStops(post, MoreItemsText(rest) + more);
  }

  lemma {:induction false} MoreItemsRound(post: string, rest: MoreItems, more: string)
    requires Trivia(post) && (rest.CommaItems? ==> WfItems(rest.next))
    ensures ParseMoreItems(post + (MoreItemsText(rest) + more)) == Good((post, rest), more)
    decreases rest, 2
  {
    hide Trivia;
    hide Skip;
    hide ItemsText;
    hide WfItems;
    hide ParseItems;
    var u := MoreItemsText(rest) + more;
    SkipOver(post, u);
    Cut(post, u);
    match rest
    case ClosedItems =>
      BraceStops(more);
      assert (post + u)[|post| + 1..] == more;
    case CommaItems(i) =>
      BraceStops(ItemsText(i) + more);
      Assoc(",", ItemsText(i), more);
      assert (post + u)[|post| + 1..] == ItemsText(i) + more;
      ItemsRound(i, more);
  }

  /** A text is accepted with tree d exactly when d is well formed and the text is its text. */
  lemma DocumentRound(s: string, d: Document)
    ensures ParseDocument(s) == Good(d, "") <==> WfDocument(d) && DocumentText(d) == s
  {
    hide *;
    if ParseDocument(s) == Good(d, "") { DocumentSound(s, d); }
    if WfDocument(d) && DocumentText(d) == s { DocumentRead(d); }
  }

  lemma DocumentSound(s: string, d: Document)
    requires ParseDocument(s) == Good(d, "")
    ensures WfDocument(d) && DocumentText(d) == s
  {
    hide Trivia;
    hide Text;
    hide Wf;
    hide ParseValue;
    hide PlainLength;
    hide Skip;
    Skipped(s);
    CutIn(s, Skip(s));
    ValueSound(s[Skip(s)..]);
    Assoc(d.pre, Text(d.root), d.post);
  }

  lemma DocumentRead(d: Document)
    requires WfDocument(d)
    ensures ParseDocument(DocumentText(d)) == Good(d, "")
  {
    hide Trivia;
    hide Text;
    hide Wf;
    hide ParseValue;
    hide PlainLength;
    hide Skip;
    hide Piece;
    var u := Text(d.root) + d.post;
    Assoc(d.pre, Text(d.root), d.post);
    EndStops(d.post);
    ValueStarts(d.root, d.post);
    SkipOver(d.pre, u);
    Cut(d.pre, u);
    ValueRound(d.root, d.post);
  }

  lemma EndStops(post: string)
    requires Skip(post) == |post|
    ensures PlainLength(post) == 0
  {
    TriviaStops(post, "");
    assert post + "" == post;
  }
}
