/** What the tokens and the trivia of a document are, character by character, without the scanning functions. */
module Json5Lexemes {
  import opened Strings
  import opened Json5Text
  import opened Json5Tree
  import opened Json5RoundTrip

  /** White space and byte order marks. */
  const WHITE := "\t\n\U{B}\U{C}\r \U{85}\U{A0}\U{1680}\U{2000}\U{2001}\U{2002}\U{2003}\U{2004}\U{2005}\U{2006}"
    + "\U{2007}\U{2008}\U{2009}\U{200A}\U{2028}\U{2029}\U{202F}\U{205F}\U{3000}\U{FEFF}"

  predicate IsWhite(c: char) { c in WHITE }

  const QUOTES := "'\""

  // Strings.

  /** A character inside a string: itself, or behind a backslash. */
  datatype Unit = Bare(c: char) | Escaped(c: char)

  function UnitText(u: Unit): string {
    match u case Bare(c) => [c] case Escaped(c) => ['\\', c]
  }

  function UnitsText(units: seq<Unit>): string {
    if units == [] then "" else UnitText(units[0]) + UnitsText(units[1..])
  }

  /** No bare character is the closing quote or a backslash. */
  predicate Inside(q: char, units: seq<Unit>) {
    forall u :: u in units && u.Bare? ==> u.c != q && u.c != '\\'
  }

  lemma UnitsStep(q: char, units: seq<Unit>)
    requires units != [] && Inside(q, units)
    ensures Inside(q, units[1..])
    ensures UnitsText(units) == UnitText(units[0]) + UnitsText(units[1..])
    ensures units[0].Bare? ==> units[0].c != q && units[0].c != '\\'
  {
    assert units[0] in units;
  }

  lemma BareStep(q: char, c: char, rest: string)
    requires c != q && c != '\\' && StringLength(q, rest) > 0
    ensures StringLength(q, [c] + rest) == 1 + StringLength(q, rest)
  {
    assert ([c] + rest)[1..] == rest;
  }

  lemma EscapedStep(q: char, c: char, rest: string)
    requires q in QUOTES && StringLength(q, rest) > 0
    requires c == '\r' && rest[0] == '\n' ==> StringLength(q, rest[1..]) > 0
    ensures StringLength(q, ['\\', c] + rest) ==
              if c == '\r' && rest[0] == '\n' then 3 + StringLength(q, rest[1..]) else 2 + StringLength(q, rest)
  {
    assert (['\\', c] + rest)[2..] == rest && (['\\', c] + rest)[3..] == rest[1..];
  }

  /** A string goes up to the first quote that is not escaped. */
  lemma {:induction false} StringIs(q: char, units: seq<Unit>, more: string)
    requires q in QUOTES && Inside(q, units)
    ensures StringLength(q, UnitsText(units) + ([q] + more)) == |UnitsText(units)| + 1
    decreases |units|
  {
    hide StringLength;
    if units == [] {
      EndStep(q, more);
    } else {
      UnitsStep(q, units);
      StringIs(q, units[1..], more);
      UnitStep(q, units[0], units[1..], more);
      assert UnitsText(units) + ([q] + more) == UnitText(units[0]) + (UnitsText(units[1..]) + ([q] + more));
    }
  }

  lemma EndStep(q: char, more: string)
    ensures StringLength(q, UnitsText([]) + ([q] + more)) == 1
  {
    assert UnitsText([]) + ([q] + more) == [q] + more;
  }

  lemma UnitStep(q: char, u: Unit, units: seq<Unit>, more: string)
    requires q in QUOTES && Inside(q, units) && (u.Bare? ==> u.c != q && u.c != '\\')
    requires StringLength(q, UnitsText(units) + ([q] + more)) == |UnitsText(units)| + 1
    ensures StringLength(q, UnitText(u) + (UnitsText(units) + ([q] + more))) == |UnitText(u)| + |UnitsText(units)| + 1
  {
    hide StringLength;
    var rest := UnitsText(units) + ([q] + more);
    match u
    case Bare(c) => BareStep(q, c, rest);
    case Escaped(c) =>
      if c == '\r' && rest[0] == '\n' { BreakLength(q, units, more); }
      EscapedStep(q, c, rest);
  }

  /** A line feed inside a string is a character of its own. */
  lemma BreakLength(q: char, units: seq<Unit>, more: string)
    requires q in QUOTES && Inside(q, units)
    requires var s := UnitsText(units) + ([q] + more); s[0] == '\n' && StringLength(q, s) == |UnitsText(units)| + 1
    ensures var s := UnitsText(units) + ([q] + more); StringLength(q, s[1..]) == |UnitsText(units)|
  {
    if units != [] { UnitsStep(q, units); }
  }

  /** And every string is made of such characters. */
  lemma {:induction false} StringHas(q: char, s: string) returns (units: seq<Unit>)
    requires q in QUOTES && StringLength(q, s) == |s| > 0
    ensures Inside(q, units) && s == UnitsText(units) + [q]
    decreases |s|
  {
    if s[0] == q {
      return [];
    }
    var step := if s[0] != '\\' then 1 else if |s| > 2 && s[1] == '\r' && s[2] == '\n' then 3 else 2;
    var rest := StringHas(q, s[step..]);
    if step == 3 {
      units := [Bare('\n')] + rest;
      assert units[1..] == rest && UnitsText(units) == ['\n'] + UnitsText(rest);
      rest := units;
    }
    units := [if step == 1 then Bare(s[0]) else Escaped(s[1])] + rest;
    assert units[1..] == rest;
    assert s == s[..step] + s[step..];
  }

  /** A string in either kind of quotes. */
  ghost predicate InQuotes(x: string) {
    exists q, units :: q in QUOTES && Inside(q, units) && x == [q] + (UnitsText(units) + [q])
  }

  lemma QuotedIff(x: string)
    ensures Quoted(x) <==> InQuotes(x)
  {
    if Quoted(x) {
      var units := StringHas(x[0], x[1..]);
      assert x == [x[0]] + (UnitsText(units) + [x[0]]);
    }
    if InQuotes(x) {
      var q, units :| q in QUOTES && Inside(q, units) && x == [q] + (UnitsText(units) + [q]);
      StringIs(q, units, "");
      assert x[1..] == UnitsText(units) + ([q] + "");
    }
  }

  // Tokens without quotes.

  /** An unquoted value: no delimiter, slash or white space in it, and nothing in front that opens something else. */
  predicate Unquoted(x: string) {
    x != "" && (forall c :: c in x ==> c !in ",]}/" && !IsWhite(c)) && x[0] !in QUOTES && x[0] !in "{["
  }

  /** An unquoted key. */
  predicate BareKey(x: string) {
    x != "" && (forall c :: c in x ==> c !in ":/" && !IsWhite(c)) && x[0] !in QUOTES && x[0] != '}'
  }

  lemma WhiteIs(c: char)
    ensures Skippable(c) <==> IsWhite(c)
    ensures c == '/' ==> !IsWhite(c)
    ensures c in "\n\r" ==> IsWhite(c)
  {
  }

  lemma {:induction false} PlainRun(x: string)
    ensures PlainLength(x) == |x| && '/' !in x <==> forall c :: c in x ==> c !in ",]}/" && !IsWhite(c)
  {
    if x != "" {
      WhiteIs(x[0]);
      PlainRun(x[1..]);
      hide Skippable;
      assert x == [x[0]] + x[1..];
    }
  }

  lemma {:induction false} NameRun(x: string)
    ensures NameLength(x) == |x| && '/' !in x <==> forall c :: c in x ==> c !in ":/" && !IsWhite(c)
  {
    if x != "" {
      WhiteIs(x[0]);
      NameRun(x[1..]);
      hide Skippable;
      assert x == [x[0]] + x[1..];
    }
  }

  lemma PlainIff(x: string)
    ensures Plain(x) <==> Unquoted(x)
    ensures Name(x) <==> BareKey(x)
  {
    PlainRun(x);
    NameRun(x);
  }

  // Trivia.

  /** A white character, or a comment with what closes it. */
  datatype Bit = White(c: char) | Line(text: string, end: char) | Block(text: string)

  function BitText(b: Bit): string {
    match b
    case White(c) => [c]
    case Line(text, end) => "//" + (text + [end])
    case Block(text) => "/*" + (text + "*/")
  }

  predicate GoodBit(b: Bit) {
    match b
    case White(c) => IsWhite(c)
    case Line(text, end) => NoBreak(text) && end in "\n\r"
    case Block(text) => forall i :: 0 <= i < |text| - 1 ==> !(text[i] == '*' && text[i + 1] == '/')
  }

  predicate NoBreak(text: string) { forall c :: c in text ==> c !in "\n\r" }

  function BitsText(bits: seq<Bit>): string {
    if bits == [] then "" else BitText(bits[0]) + BitsText(bits[1..])
  }

  predicate GoodBits(bits: seq<Bit>) { forall b :: b in bits ==> GoodBit(b) }

  lemma {:induction false} LineIs(text: string, more: string)
    requires NoBreak(text) && (more == "" || more[0] in "\n\r")
    ensures LineLength(text + more) == |text|
  {
    if text == "" {
      assert text + more == more;
    } else {
      assert text[0] in text && (text + more)[1..] == text[1..] + more;
      LineIs(text[1..], more);
    }
  }

  lemma {:induction false} BlockIs(text: string, more: string)
    requires GoodBit(Block(text))
    ensures BlockLength(text + ("*/" + more)) == |text| + 2
  {
    var s := text + ("*/" + more);
    if text != "" {
      assert s[1..] == text[1..] + ("*/" + more);
      assert GoodBit(Block(text[1..]));
      BlockIs(text[1..], more);
    }
  }

  lemma BitIs(b: Bit, more: string)
    requires GoodBit(b)
    ensures Piece(BitText(b) + more) == if b.Line? then |BitText(b)| - 1 else |BitText(b)|
  {
    hide IsWhite;
    hide Skippable;
    hide Piece;
    var s := BitText(b) + more;
    WhiteIs(s[0]);
    match b
    case White(c) => WhitePiece(s);
    case Line(text, end) =>
      assert s[2..] == text + ([end] + more);
      LineIs(text, [end] + more);
      LinePiece(s, |text|);
    case Block(text) =>
      assert s[2..] == text + ("*/" + more);
      BlockIs(text, more);
      BlockPiece(s, |text| + 2);
  }

  lemma WhitePiece(s: string)
    requires s != "" && IsWhite(s[0])
    ensures Piece(s) == 1
  {
    WhiteIs(s[0]);
  }

  lemma LinePiece(s: string, n: nat)
    requires |s| >= 2 && s[0] == s[1] == '/' && LineLength(s[2..]) == n
    ensures Piece(s) == 2 + n
  {
    WhiteIs(s[0]);
  }

  lemma BlockPiece(s: string, n: nat)
    requires |s| >= 2 && s[0] == '/' && s[1] == '*' && BlockLength(s[2..]) == n > 0
    ensures Piece(s) == 2 + n
  {
    WhiteIs(s[0]);
  }

  lemma {:induction false} BlockHas(s: string) returns (text: string)
    requires BlockLength(s) == |s| > 0
    ensures s == text + "*/" && GoodBit(Block(text))
  {
    text := s[..|s| - 2];
    if !(s[0] == '*' && s[1] == '/') {
      var rest := BlockHas(s[1..]);
      assert text == [s[0]] + rest;
      forall i | 0 <= i < |text| - 1 ensures !(text[i] == '*' && text[i + 1] == '/') {
        if i > 0 { assert text[i] == rest[i - 1] && text[i + 1] == rest[i]; }
      }
    }
  }

  lemma {:induction false} LineHas(s: string)
    ensures NoBreak(s[..LineLength(s)])
  {
    if s != "" && !Newline(s[0]) {
      LineHas(s[1..]);
      assert s[..LineLength(s)] == [s[0]] + s[1..][..LineLength(s[1..])];
    }
  }

  lemma {:induction false} BitsAreTrivia(bits: seq<Bit>)
    requires GoodBits(bits)
    ensures Trivia(BitsText(bits))
  {
    if bits != [] {
      assert bits[0] in bits;
      BitIsTrivia(bits[0]);
      BitsAreTrivia(bits[1..]);
      TriviaJoins(BitText(bits[0]), BitsText(bits[1..]));
    }
  }

  lemma BitIsTrivia(b: Bit)
    requires GoodBit(b)
    ensures Trivia(BitText(b))
  {
    hide IsWhite;
    hide Skippable;
    var t := BitText(b);
    BitIs(b, "");
    assert t + "" == t;
    if b.Line? {
      WhiteIs(b.end);
      assert t[Piece(t)..] == [b.end];
      assert Trivia([b.end]);
    } else {
      assert t[Piece(t)..] == "";
    }
  }

  lemma {:induction false} TriviaHas(t: string) returns (bits: seq<Bit>)
    requires Trivia(t)
    ensures GoodBits(bits) && t == BitsText(bits)
    decreases |t|
  {
    if t == "" { return []; }
    var b, n := FirstBit(t);
    var rest := TriviaHas(t[n..]);
    bits := [b] + rest;
    assert bits[1..] == rest;
  }

  lemma FirstBit(t: string) returns (b: Bit, n: nat)
    requires Trivia(t) && t != ""
    ensures GoodBit(b) && 0 < n <= |t| && t[..n] == BitText(b) && Trivia(t[n..])
    ensures t == BitText(b) + t[n..]
  {
    hide IsWhite;
    hide Skippable;
    hide Piece;
    hide LineLength;
    hide BlockLength;
    PieceOf(t);
    n := Piece(t);
    if IsWhite(t[0]) {
      b := White(t[0]);
    } else if StartsLine(t) {
      LineHas(t[2..]);
      LineEndsInTrivia(t);
      b := Line(t[2..n], t[n]);
      assert t[2..n] == t[2..][..n - 2];
      assert t == "//" + (t[2..n] + [t[n]]) + t[n + 1..];
      n := n + 1;
    } else {
      BlockLengthLess(t[2..], n - 2);
      assert t[2..n] == t[2..][..n - 2];
      var text := BlockHas(t[2..n]);
      b := Block(text);
      assert t == "/*" + t[2..n] + t[n..];
    }
  }

  /** What the first piece of trivia is. */
  lemma PieceOf(t: string)
    requires Trivia(t) && t != ""
    ensures 0 < Piece(t) <= |t| && (!StartsLine(t) ==> Trivia(t[Piece(t)..]))
    ensures IsWhite(t[0]) ==> Piece(t) == 1
    ensures StartsLine(t) ==> !IsWhite(t[0]) && Piece(t) == 2 + LineLength(t[2..])
    ensures !IsWhite(t[0]) && !StartsLine(t) ==>
              StartsBlock(t) && Piece(t) == 2 + BlockLength(t[2..]) && BlockLength(t[2..]) > 0
  {
    hide IsWhite;
    hide Skippable;
    WhiteIs(t[0]);
  }

  lemma LineEndsInTrivia(t: string)
    requires Trivia(t) && StartsLine(t)
    ensures Piece(t) < |t| && t[Piece(t)] in "\n\r" && Trivia(t[Piece(t) + 1..])
  {
    hide IsWhite;
    hide Skippable;
    var u := t[Piece(t)..];
    WhiteIs(t[0]);
    assert u[0] == t[2..][LineLength(t[2..])];
    WhiteIs(u[0]);
    assert u[1..] == t[Piece(t) + 1..];
  }

  ghost predicate WhiteOrComments(t: string) { exists bits :: GoodBits(bits) && t == BitsText(bits) }

  lemma TriviaIff(t: string)
    ensures Trivia(t) <==> WhiteOrComments(t)
  {
    if Trivia(t) { var bits := TriviaHas(t); }
    if WhiteOrComments(t) {
      var bits :| GoodBits(bits) && t == BitsText(bits);
      BitsAreTrivia(bits);
    }
  }

  /** Nothing, or a line comment without a line break. */
  predicate OpenComment(c: string) { c == "" || (|c| >= 2 && c[0] == '/' && c[1] == '/' && NoBreak(c[2..])) }

  /** At the end of a document a line comment needs no line break. */
  ghost predicate Tail(t: string) {
    exists n :: 0 <= n <= |t| && WhiteOrComments(t[..n]) && OpenComment(t[n..])
  }

  lemma TailIff(t: string)
    ensures Skip(t) == |t| <==> Tail(t)
  {
    hide Skip;
    hide WhiteOrComments;
    hide OpenComment;
    if Skip(t) == |t| { TailHas(t); }
    if Tail(t) {
      var n :| 0 <= n <= |t| && WhiteOrComments(t[..n]) && OpenComment(t[n..]);
      TailSkips(t[..n], t[n..]);
      assert t == t[..n] + t[n..];
    }
  }

  lemma TailSkips(t: string, c: string)
    requires WhiteOrComments(t) && OpenComment(c)
    ensures Skip(t + c) == |t| + |c|
  {
    TriviaIff(t);
    SkipOver(t, c);
    OpenIs(c);
  }

  lemma OpenIs(c: string)
    requires OpenComment(c)
    ensures Skip(c) == |c|
  {
    hide IsWhite;
    hide Skippable;
    if c != "" {
      WhiteIs(c[0]);
      LineIs(c[2..], "");
      assert c[2..] + "" == c[2..];
      assert c[Piece(c)..] == "";
    }
  }

  lemma {:induction false} TailHas(t: string)
    requires Skip(t) == |t|
    ensures Tail(t)
    decreases |t|
  {
    hide IsWhite;
    hide Skippable;
    hide GoodBits;
    hide BitsText;
    hide OpenComment;
    if t == "" || !PieceEnds(t) {
      TriviaIff(t[..0]);
      if t == "" { NothingIsOpen(); } else { OpenHas(t); }
      assert t[0..] == t;
    } else {
      var p := Piece(t);
      var u := t[p..];
      TailHas(u);
      var n :| 0 <= n <= |u| && WhiteOrComments(u[..n]) && OpenComment(u[n..]);
      assert u[n..] == t[p + n..];
      if StartsLine(t) { BreakFollows(t); }
      PieceTrivia(t, n);
      TriviaIff(t[..p + n]);
    }
  }

  lemma NothingIsOpen()
    ensures OpenComment("")
  {
  }

  lemma BreakFollows(t: string)
    requires StartsLine(t) && PieceEnds(t)
    ensures !OpenComment(t[Piece(t)..])
  {
    hide IsWhite;
    hide Skippable;
    WhiteIs(t[0]);
    assert t[Piece(t)] == t[2..][LineLength(t[2..])];
  }

  lemma OpenHas(t: string)
    requires t != "" && Skip(t) == |t| && !PieceEnds(t)
    ensures OpenComment(t)
  {
    hide IsWhite;
    hide Skippable;
    WhiteIs(t[0]);
    LineHas(t[2..]);
    assert t[2..][..LineLength(t[2..])] == t[2..];
  }

  lemma PieceTrivia(t: string, n: nat)
    requires PieceEnds(t) && Piece(t) + n <= |t| && WhiteOrComments(t[Piece(t)..][..n])
    requires StartsLine(t) ==> n > 0
    ensures Trivia(t[..Piece(t) + n])
  {
    var p := Piece(t);
    TriviaIff(t[p..][..n]);
    PieceLess(t, p + n);
    assert t[..p + n][p..] == t[p..][..n];
  }

  // Documents.

  ghost predicate GoodLead(l: Lead) {
    WhiteOrComments(l.pre) && (InQuotes(l.key) || BareKey(l.key)) && WhiteOrComments(l.mid) && WhiteOrComments(l.gap)
  }

  /** The tree of a document, in terms of characters. */
  ghost predicate Good(t: Tree) {
    match t
    case Scalar(x) => InQuotes(x) || Unquoted(x)
    case Object(f) => GoodFields(f)
    case Array(i) => GoodItems(i)
  }

  ghost predicate GoodFields(f: Fields) {
    match f
    case NoField(t) => WhiteOrComments(t)
    case Field(l, v, post, rest) =>
      GoodLead(l) && Good(v) && WhiteOrComments(post) && (rest.Comma? ==> GoodFields(rest.next))
  }

  ghost predicate GoodItems(i: Items) {
    match i
    case NoItem(t) => WhiteOrComments(t)
    case Item(pre, v, post, rest) =>
      && WhiteOrComments(pre) && Good(v) && WhiteOrComments(post)
      && (rest.CommaItems? ==> GoodItems(rest.next))
  }

  lemma LeadIff(l: Lead)
    ensures WfLead(l) <==> GoodLead(l)
  {
    hide *;
    TriviaIff(l.pre);
    TriviaIff(l.mid);
    TriviaIff(l.gap);
    QuotedIff(l.key);
    PlainIff(l.key);
    LeadsAre(l);
  }

  lemma LeadsAre(l: Lead)
    ensures WfLead(l) <==> Trivia(l.pre) && (Quoted(l.key) || Name(l.key)) && Trivia(l.mid) && Trivia(l.gap)
    ensures GoodLead(l) <==>
              && WhiteOrComments(l.pre) && (InQuotes(l.key) || BareKey(l.key))
              && WhiteOrComments(l.mid) && WhiteOrComments(l.gap)
  {
  }

  lemma {:induction false} GoodIff(t: Tree)
    ensures Wf(t) <==> Good(t)
  {
    hide Quoted;
    hide InQuotes;
    hide Plain;
    hide Unquoted;
    match t
    case Scalar(x) =>
      QuotedIff(x);
      PlainIff(x);
    case Object(f) => GoodFieldsIff(f);
    case Array(i) => GoodItemsIff(i);
  }

  lemma {:induction false} GoodFieldsIff(f: Fields)
    ensures WfFields(f) <==> GoodFields(f)
  {
    hide Trivia;
    hide WhiteOrComments;
    hide WfLead;
    hide GoodLead;
    match f
    case NoField(t) => TriviaIff(t);
    case Field(l, v, post, rest) =>
      LeadIff(l);
      GoodIff(v);
      TriviaIff(post);
      if rest.Comma? { GoodFieldsIff(rest.next); }
  }

  lemma {:induction false} GoodItemsIff(i: Items)
    ensures WfItems(i) <==> GoodItems(i)
  {
    hide Trivia;
    hide WhiteOrComments;
    match i
    case NoItem(t) => TriviaIff(t);
    case Item(pre, v, post, rest) =>
      TriviaIff(pre);
      GoodIff(v);
      TriviaIff(post);
      if rest.CommaItems? { GoodItemsIff(rest.next); }
  }

  /** A text is accepted with tree d exactly when its tokens and trivia are what they have to be, character by
      character, and it is the text of d. */
  lemma AcceptedIff(s: string, d: Document)
    ensures ParseDocument(s) == Parsed<Document>.Good(d, "") <==>
              WhiteOrComments(d.pre) && Good(d.root) && Tail(d.post) && DocumentText(d) == s
  {
    DocumentRound(s, d);
    hide ParseDocument;
    hide DocumentText;
    hide Skip;
    hide Tail;
    hide Trivia;
    hide WhiteOrComments;
    hide Wf;
    hide Good;
    TriviaIff(d.pre);
    GoodIff(d.root);
    TailIff(d.post);
  }

  /** In particular, whatever stands between two equal quotes is one scalar where a value stands, and one key where a
      key stands. */
  lemma QuotesAreRead(q: char, units: seq<Unit>, more: string)
    requires q in QUOTES && Inside(q, units)
    ensures var x := [q] + (UnitsText(units) + [q]);
            && ParseValue(x + more) == Parsed<Tree>.Good(Scalar(x), more)
            && KeyLength(x + more) == |x|
  {
    var x := [q] + (UnitsText(units) + [q]);
    StringIs(q, units, more);
    assert (x + more)[1..] == UnitsText(units) + ([q] + more);
    assert (x + more)[..|x|] == x && (x + more)[|x|..] == more;
  }
}
