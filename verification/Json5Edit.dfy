/** Adding and removing an object's member, as edits of the object's tree. */
module Json5Edit {
  import opened Strings
  import opened Json5Text
  import opened Json5Tree
  import opened Json5Lines

  /** What an object says: its keys and values in order, without trivia and commas. */
  function Entries(f: Fields): (r: seq<(string, Tree)>)
    ensures |r| == if f.NoField? then 0 else 1 + |MoreEntries(f.rest)|
  {
    match f
    case NoField(_) => []
    case Field(l, v, _, rest) => [(l.key, v)] + MoreEntries(rest)
  }

  function MoreEntries(m: More): (r: seq<(string, Tree)>)
    ensures |r| == if m.Closed? then 0 else |Entries(m.next)|
  {
    match m case Closed => [] case Comma(next) => Entries(next)
  }

  function Leading(f: Fields): string {
    match f case NoField(t) => t case Field(l, _, _, _) => l.pre
  }

  function WithLeading(f: Fields, t: string): Fields {
    match f case NoField(_) => NoField(t) case Field(l, v, post, rest) => Field(l.(pre := t), v, post, rest)
  }

  // Removal.

  /** A member is alone on its lines: only white space stands before it, only blanks behind it. */
  predicate Alone(pre: string, behind: string) { OpensLine(pre) && LineTail(behind) > 0 }

  /** The trivia before a member and behind it, joined without the member's lines. */
  function Closing(pre: string, behind: string): string
    requires Alone(pre, behind)
  {
    pre[..LineStart(pre)] + behind[LineTail(behind)..]
  }

  /** Without the first member, which has no comma before it. */
  function WithoutFirst(f: Fields): Fields
    requires f.Field?
  {
    var pre, post := f.lead.pre, f.post;
    match f.rest
    case Closed => NoField(if Alone(pre, post) then Closing(pre, post) else pre + post)
    case Comma(next) =>
      var t := Leading(next);
      WithLeading(next, if Alone(pre, t) then Closing(pre, t) else pre + post + t)
  }

  /** What follows a member's value when the next member g goes. The comma between them goes when g was the last. */
  function WithoutNext(behind: string, g: Fields): (string, More)
    requires g.Field?
  {
    var pre, post := g.lead.pre, g.post;
    match g.rest
    case Closed =>
      (behind + (if Alone(pre, post) then Closing(pre, post) else if AllSpace(pre) then post else pre + post), Closed)
    case Comma(next) =>
      var t := Leading(next);
      (behind, Comma(if Alone(pre, t) then WithLeading(next, Closing(pre, t))
                     else if AllSpace(pre) then next
                     else WithLeading(next, pre + post + t)))
  }

  /** Without member i. */
  function Removed(f: Fields, i: nat): Fields
    requires i < |Entries(f)|
  {
    if i == 0 then WithoutFirst(f)
    else if i == 1 then
      var r := WithoutNext(f.post, f.rest.next);
      f.(post := r.0, rest := r.1)
    else f.(rest := Comma(Removed(f.rest.next, i - 1)))
  }

  lemma ClosingIsTrivia(pre: string, behind: string)
    requires Trivia(pre) && Trivia(behind)
    ensures Alone(pre, behind) ==> Trivia(Closing(pre, behind))
  {
    if Alone(pre, behind) {
      CutAtBreak(pre);
      TailIsTrivia(behind);
      TriviaJoins(pre[..LineStart(pre)], behind[LineTail(behind)..]);
    }
  }

  lemma LeadingIsTrivia(f: Fields, t: string)
    requires WfFields(f)
    ensures Trivia(Leading(f))
    ensures Trivia(t) ==> WfFields(WithLeading(f, t))
    ensures Entries(WithLeading(f, t)) == Entries(f)
  {
  }

  lemma JoinedIsTrivia(pre: string, post: string, t: string)
    requires Trivia(pre) && Trivia(post) && Trivia(t)
    ensures Trivia(pre + post) && Trivia(pre + post + t)
  {
    TriviaJoins(pre, post);
    TriviaJoins(pre + post, t);
  }

  lemma WithoutFirstKeeps(f: Fields)
    requires WfFields(f) && f.Field?
    ensures WfFields(WithoutFirst(f)) && Entries(WithoutFirst(f)) == Entries(f)[1..]
  {
    hide Trivia;
    hide Alone;
    hide Closing;
    var pre, post := f.lead.pre, f.post;
    JoinedIsTrivia(pre, post, post);
    ClosingIsTrivia(pre, post);
    if f.rest.Comma? {
      var next := f.rest.next;
      LeadingIsTrivia(next, Leading(WithoutFirst(f)));
      JoinedIsTrivia(pre, post, Leading(next));
      ClosingIsTrivia(pre, Leading(next));
    }
  }

  lemma WithoutNextKeeps(behind: string, g: Fields)
    requires WfFields(g) && g.Field? && Trivia(behind)
    ensures var r := WithoutNext(behind, g);
            Trivia(r.0) && (r.1.Comma? ==> WfFields(r.1.next)) && MoreEntries(r.1) == Entries(g)[1..]
  {
    hide Trivia;
    hide Alone;
    hide Closing;
    hide AllSpace;
    var pre, post := g.lead.pre, g.post;
    match g.rest
    case Closed =>
      JoinedIsTrivia(pre, post, post);
      ClosingIsTrivia(pre, post);
      TriviaJoins(behind, if Alone(pre, post) then Closing(pre, post) else if AllSpace(pre) then post else pre + post);
    case Comma(next) =>
      LeadingIsTrivia(next, Leading(WithoutNext(behind, g).1.next));
      JoinedIsTrivia(pre, post, Leading(next));
      ClosingIsTrivia(pre, Leading(next));
  }

  lemma DropAt<T>(x: T, rest: seq<T>, i: nat)
    requires 0 < i <= |rest|
    ensures ([x] + rest)[..i] + ([x] + rest)[i + 1..] == [x] + (rest[..i - 1] + rest[i..])
  {
  }

  lemma FieldIs(f: Fields)
    requires f.Field?
    ensures Entries(f) == [(f.lead.key, f.value)] + MoreEntries(f.rest)
    ensures WfFields(f) <==>
            WfLead(f.lead) && Wf(f.value) && Trivia(f.post) && (f.rest.Comma? ==> WfFields(f.rest.next))
  {
  }

  /** Removal leaves a well-formed object that says the same about every other member. */
  lemma {:induction false} RemovedKeeps(f: Fields, i: nat)
    requires WfFields(f) && i < |Entries(f)|
    ensures WfFields(Removed(f, i))
    ensures Entries(Removed(f, i)) == Entries(f)[..i] + Entries(f)[i + 1..]
  {
    hide *;
    if i == 0 {
      RemovedFirstKeeps(f);
    } else if i == 1 {
      RemovedSecondKeeps(f);
    } else {
      EntriesSome(f);
      FieldIs(f);
      RemovedIs(f, i);
      RemovedKeeps(f.rest.next, i - 1);
      DropAt((f.lead.key, f.value), MoreEntries(f.rest), i);
      FieldIs(Removed(f, i));
    }
  }

  lemma RemovedFirstKeeps(f: Fields)
    requires WfFields(f) && 0 < |Entries(f)|
    ensures WfFields(Removed(f, 0))
    ensures Entries(Removed(f, 0)) == Entries(f)[..0] + Entries(f)[1..]
  {
    hide *;
    EntriesSome(f);
    RemovedIs(f, 0);
    WithoutFirstKeeps(f);
    assert Entries(f)[..0] + Entries(f)[1..] == Entries(f)[1..];
  }

  lemma RemovedSecondKeeps(f: Fields)
    requires WfFields(f) && 1 < |Entries(f)|
    ensures WfFields(Removed(f, 1))
    ensures Entries(Removed(f, 1)) == Entries(f)[..1] + Entries(f)[2..]
  {
    hide *;
    EntriesSome(f);
    FieldIs(f);
    RemovedIs(f, 1);
    WithoutNextKeeps(f.post, f.rest.next);
    FieldIs(Removed(f, 1));
    var rest := MoreEntries(f.rest);
    DropAt((f.lead.key, f.value), rest, 1);
    assert rest[..0] + rest[1..] == rest[1..];
  }

  lemma EntriesSome(f: Fields)
    ensures |Entries(f)| > 0 <==> f.Field?
    ensures f.Field? ==> f == Field(f.lead, f.value, f.post, f.rest)
  {
  }

  lemma RemovedIs(f: Fields, i: nat)
    requires i < |Entries(f)|
    ensures i == 0 ==> Removed(f, i) == WithoutFirst(f)
    ensures i > 0 ==>
            f.rest.Comma? && f.rest.next.Field? && MoreEntries(f.rest) == Entries(f.rest.next)
                && |Entries(f)| == 1 + |Entries(f.rest.next)|
    ensures i == 1 ==> var r := WithoutNext(f.post, f.rest.next); Removed(f, i) == Field(f.lead, f.value, r.0, r.1)
    ensures i > 1 ==> Removed(f, i) == Field(f.lead, f.value, f.post, Comma(Removed(f.rest.next, i - 1)))
                      && MoreEntries(Comma(Removed(f.rest.next, i - 1))) == Entries(Removed(f.rest.next, i - 1))
  {
  }

  // Insertion.

  /** The byte that ends a character's encoding, read as a character of its own, is white space. */
  predicate EndsInSpaceByte(c: char) {
    var n := c as int;
    if n < 0x80 then Space(c) else n % 64 == 5 || n % 64 == 32
  }

  /** The last byte of a character's UTF-8 encoding: itself, or six low bits behind the mark of a continuation. */
  function LastByte(c: char): char {
    var n := c as int;
    if n <= 0x7F then c else (0x80 + n % 0x40) as char
  }

  lemma EndsInSpaceByteIs(c: char)
    ensures EndsInSpaceByte(c) <==> Space(LastByte(c))
  {
  }

  /** The indentation a new member takes from the member before it, or from the closing brace. */
  function Indent(pre: string, t: string): string
    requires Indents(t)
  {
    if Indents(pre) then pre[LineStart(pre)..] else t[LineStart(t)..] + "  "
  }

  function NewLead(pre: string, key: string): Lead { Lead(pre, key, "", " ") }

  /** With one more member at the end. A closing brace on a line of its own keeps its line. */
  function Inserted(f: Fields, key: string, v: Tree, nl: string): Fields {
    match f
    case NoField(t) =>
      if Indents(t) then
        var k := LineStart(t);
        Field(NewLead(t[..k] + (t[k..] + "  "), key), v, nl + t[k..], Closed)
      else
        Field(NewLead(t + (if t != "" && !EndsInSpaceByte(t[|t| - 1]) then " " else ""), key), v, "", Closed)
    case Field(l, w, t, Closed) =>
      if Indents(t) then
        var k := LineStart(t);
        Field(l, w, "", Comma(Field(NewLead(t[..k] + Indent(l.pre, t), key), v, nl + t[k..], Closed)))
      else Field(l, w, t, Comma(Field(NewLead(" ", key), v, "", Closed)))
    case Field(l, w, post, Comma(NoField(t))) =>
      if Indents(t) then
        var k := LineStart(t);
        Field(l, w, post, Comma(Field(NewLead(t[..k] + Indent(l.pre, t), key), v, "", Comma(NoField(nl + t[k..])))))
      else Field(l, w, post, Comma(Field(NewLead(t + " ", key), v, "", Comma(NoField("")))))
    case Field(l, w, post, Comma(next)) => Field(l, w, post, Comma(Inserted(next, key, v, nl)))
  }

  lemma LineIsTrivia(t: string, indent: string, nl: string)
    requires Trivia(t) && Indents(t) && AllBlank(indent) && AllSpace(nl)
    ensures Trivia(t[..LineStart(t)] + indent) && Trivia(nl + t[LineStart(t)..])
  {
    var k := LineStart(t);
    CutAtBreak(t);
    SpaceIsTrivia(indent);
    TriviaJoins(t[..k], indent);
    SpaceIsTrivia(nl);
    SpaceIsTrivia(t[k..]);
    TriviaJoins(nl, t[k..]);
  }

  lemma GapIsTrivia(t: string)
    requires Trivia(t)
    ensures Trivia(" ") && Trivia("") && Trivia(t + " ") && Trivia(t + "")
  {
    SpaceIsTrivia(" ");
    TriviaJoins(t, " ");
    assert t + "" == t;
  }

  lemma KeptLine(pre: string, t: string)
    requires Indents(t)
    ensures AllBlank(Indent(pre, t)) && AllBlank(t[LineStart(t)..] + "  ")
  {
  }

  /** Insertion leaves a well-formed object that says the same and the new member at the end. */
  lemma {:induction false} InsertedKeeps(f: Fields, key: string, v: Tree, nl: string)
    requires WfFields(f) && Wf(v) && (Quoted(key) || Name(key)) && AllSpace(nl)
    ensures WfFields(Inserted(f, key, v, nl))
    ensures Entries(Inserted(f, key, v, nl)) == Entries(f) + [(key, v)]
  {
    hide Trivia;
    hide Indents;
    hide Indent;
    hide AllBlank;
    hide AllSpace;
    hide Quoted;
    hide Name;
    hide Wf;
    match f
    case NoField(t) =>
      GapIsTrivia(t);
      if Indents(t) { KeptLine("", t); LineIsTrivia(t, t[LineStart(t)..] + "  ", nl); }
    case Field(l, w, t, Closed) =>
      GapIsTrivia(t);
      if Indents(t) { KeptLine(l.pre, t); LineIsTrivia(t, Indent(l.pre, t), nl); }
      LastEntries(Inserted(f, key, v, nl));
    case Field(l, w, post, Comma(NoField(t))) =>
      GapIsTrivia(t);
      if Indents(t) { KeptLine(l.pre, t); LineIsTrivia(t, Indent(l.pre, t), nl); }
      LastEntries(Inserted(f, key, v, nl));
    case Field(l, w, post, Comma(next)) =>
      InsertedKeeps(next, key, v, nl);
      assert Entries(f) == [(l.key, w)] + Entries(next);
  }

  lemma LastEntries(f: Fields)
    requires f.Field? && f.rest.Comma? && f.rest.next.Field? && MoreEntries(f.rest.next.rest) == []
    ensures Entries(f) == [(f.lead.key, f.value), (f.rest.next.lead.key, f.rest.next.value)]
    ensures WfFields(f) <==>
              WfLead(f.lead) && Wf(f.value) && Trivia(f.post) && WfLead(f.rest.next.lead) && Wf(f.rest.next.value)
                  && Trivia(f.rest.next.post)
              && (f.rest.next.rest.Comma? ==> WfFields(f.rest.next.rest.next))
  {
  }

  // A member put in and taken out again.

  /** The closing brace stands on a line of its own. */
  predicate BraceAlone(f: Fields) {
    match f
    case NoField(t) => Indents(t)
    case Field(_, _, t, Closed) => Indents(t)
    case Field(_, _, _, Comma(next)) => BraceAlone(next)
  }

  predicate LineBreak(nl: string) { nl == "\n" || nl == "\r\n" }

  lemma IndentedLine(line: string, indent: string)
    requires line != "" && Newline(line[|line| - 1]) && AllBlank(indent)
    ensures LineStart(line + indent) == |line| && OpensLine(line + indent)
    ensures (line + indent)[..|line|] == line && (line + indent)[|line|..] == indent
  {
    var pre := line + indent;
    forall i | |line| <= i < |pre| ensures !Newline(pre[i]) { assert pre[i] == indent[i - |line|] && pre[i] in indent; }
    LineStartIs(pre, |line|);
  }

  lemma LineReturns(t: string, indent: string, nl: string)
    requires Indents(t) && AllBlank(indent) && LineBreak(nl)
    ensures var k := LineStart(t); Alone(t[..k] + indent, nl + t[k..]) && Closing(t[..k] + indent, nl + t[k..]) == t
  {
    var k := LineStart(t);
    IndentedLine(t[..k], indent);
    assert (nl + t[k..])[|nl|..] == t[k..];
    assert LineTail(nl + t[k..]) == |nl|;
    assert t[..k] + t[k..] == t;
  }

  /** Inserting a member and removing it again leaves what was said as it was, and the text too when the
      closing brace stands on a line of its own. */
  lemma {:induction false} InsertedThenRemoved(f: Fields, key: string, v: Tree, nl: string)
    requires WfFields(f) && Wf(v) && (Quoted(key) || Name(key)) && LineBreak(nl)
    ensures |Entries(Inserted(f, key, v, nl))| == |Entries(f)| + 1
    ensures Entries(Removed(Inserted(f, key, v, nl), |Entries(f)|)) == Entries(f)
    ensures BraceAlone(f) ==> Removed(Inserted(f, key, v, nl), |Entries(f)|) == f
  {
    var g, n := Inserted(f, key, v, nl), |Entries(f)|;
    assert AllSpace(nl);
    InsertedKeeps(f, key, v, nl);
    RemovedKeeps(g, n);
    assert Entries(g)[..n] == Entries(f) && Entries(g)[n + 1..] == [];
    if BraceAlone(f) { TextReturns(f, key, v, nl); }
  }

  lemma {:induction false} TextReturns(f: Fields, key: string, v: Tree, nl: string)
    requires BraceAlone(f) && LineBreak(nl)
    ensures |Entries(Inserted(f, key, v, nl))| == |Entries(f)| + 1
    ensures Removed(Inserted(f, key, v, nl), |Entries(f)|) == f
  {
    hide Indents;
    hide Indent;
    hide AllBlank;
    hide Alone;
    hide Closing;
    match f
    case NoField(t) =>
      KeptLine("", t);
      LineReturns(t, t[LineStart(t)..] + "  ", nl);
    case Field(l, w, t, Closed) =>
      KeptLine(l.pre, t);
      LineReturns(t, Indent(l.pre, t), nl);
      assert "" + t == t;
    case Field(l, w, post, Comma(NoField(t))) =>
      KeptLine(l.pre, t);
      LineReturns(t, Indent(l.pre, t), nl);
    case Field(l, w, post, Comma(next)) =>
      TextReturns(next, key, v, nl);
  }
}
