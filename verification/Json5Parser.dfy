/** The scanner over character offsets, and the nodes it builds. */
module Json5Parser {
  import opened Json5Text
  import opened Json5Tree
  import opened Json5RoundTrip

  datatype Kind = ScalarKind | ObjectKind | ArrayKind

  /** Where a value stands in the document; `close` is the closing bracket. */
  datatype Node = Node(kind: Kind, start: nat, end: nat, close: nat, fields: seq<Member>)

  /** Where a member stands; `comma` is the comma behind it, or -1. */
  datatype Member = Member(keyStart: nat, keyEnd: nat, value: Node, comma: int)

  /** The node of a tree whose text starts at an offset. */
  function NodeOf(t: Tree, at: nat): Node {
    match t
    case Scalar(x) => Node(ScalarKind, at, at + |x|, 0, [])
    case Object(f) => Node(ObjectKind, at, at + 1 + |FieldsText(f)|, at + |FieldsText(f)|, Members(f, at + 1))
    case Array(i) => Node(ArrayKind, at, at + 1 + |ItemsText(i)|, at + |ItemsText(i)|, [])
  }

  function Members(f: Fields, at: nat): seq<Member> {
    match f
    case NoField(_) => []
    case Field(l, v, post, rest) =>
      var key, value := at + |l.pre|, at + |LeadText(l)|;
      var behind := value + |Text(v)| + |post|;
      match rest
      case Closed => [Member(key, key + |l.key|, NodeOf(v, value), -1)]
      case Comma(next) => [Member(key, key + |l.key|, NodeOf(v, value), behind)] + Members(next, behind + 1)
  }

  /** One step inside a string: a character, an escape, or an escaped line break. */
  lemma StringSteps(quote: char, raw: string, p: nat)
    requires p < |raw| && raw[p] != quote && (raw[p] == '\\' ==> p + 1 < |raw|)
    ensures var step := if raw[p] != '\\' then 1 else if p + 2 < |raw| && raw[p + 1] == '\r' && raw[p + 2] == '\n'
            then 3 else 2;
            StringLength(quote, raw[p..]) == if StringLength(quote, raw[p + step..]) == 0 then 0
                else step + StringLength(quote, raw[p + step..])
  {
  }

  // One member at a time.

  /** The document from an offset on. */
  function From(raw: string, at: nat): string
    requires at <= |raw|
  {
    raw[at..]
  }

  /** Where the trivia that starts at an offset ends. */
  function Past(raw: string, at: nat): (c: nat)
    requires at <= |raw|
    ensures at <= c <= |raw|
  {
    at + Skip(raw[at..])
  }

  predicate ReadsMember(s: string) {
    ParseLead(s).Good? && ParseValue(ParseLead(s).rest).Good?
  }

  function MemberAt(s: string, at: nat): Member
    requires ReadsMember(s)
  {
    var l := ParseLead(s).value;
    Member(at + |l.pre|, at + |l.pre| + |l.key|, NodeOf(ParseValue(ParseLead(s).rest).value, at + |LeadText(l)|), -1)
  }

  function MemberRest(s: string): string
    requires ReadsMember(s)
  {
    ParseValue(ParseLead(s).rest).rest
  }

  lemma NoTrivia(s: string)
    requires Piece(s) == 0
    ensures Skip(s) == 0
  {
  }

  lemma PastIs(raw: string, at: nat)
    requires at <= |raw|
    ensures Past(raw, at) == at + Skip(From(raw, at))
    ensures Past(raw, at) < |raw| ==>
              From(raw, at)[Skip(From(raw, at))] == raw[Past(raw, at)]
              && From(raw, at)[Skip(From(raw, at)) + 1..] == From(raw, Past(raw, at) + 1)
    ensures From(raw, at)[Skip(From(raw, at))..] == From(raw, Past(raw, at))
    ensures Skip(From(raw, Past(raw, at))) == 0 && Past(raw, Past(raw, at)) == Past(raw, at)
  {
    hide Skip;
    Skipped(raw[at..]);
    assert raw[at..][Skip(raw[at..])..] == raw[Past(raw, at)..];
    NoTrivia(raw[Past(raw, at)..]);
  }

  /** Where an object closes. */
  lemma ClosesAt(raw: string, at: nat)
    requires at <= |raw| && Past(raw, at) < |raw| && raw[Past(raw, at)] == '}'
    ensures ParseFields(From(raw, at)).Good? && ParseFields(From(raw, at)).rest == From(raw, Past(raw, at) + 1)
    ensures Members(ParseFields(From(raw, at)).value, at) == []
  {
  }

  lemma ClosesHere(raw: string, c: nat)
    requires c < |raw| && raw[c] == '}'
    ensures ParseFields(From(raw, c)).Good? && ParseFields(From(raw, c)).rest == From(raw, c + 1)
    ensures Members(ParseFields(From(raw, c)).value, c) == []
  {
  }

  lemma NoMember(raw: string, at: nat)
    requires at <= |raw|
    ensures Past(raw, at) == |raw| || (raw[Past(raw, at)] != '}' && !ReadsMember(From(raw, at))) ==>
            ParseFields(From(raw, at)).Bad?
  {
  }

  lemma NothingLeft(s: string)
    ensures Skip(s) == |s| ==> ParseLead(s).Bad?
  {
  }

  /** What follows a member's value. */
  lemma MoreAt(raw: string, behind: nat)
    requires behind <= |raw|
    ensures var y, c := From(raw, behind), Past(raw, behind);
            if c < |raw| && raw[c] == '}' then
              ParseMore(y).Good? && ParseMore(y).value.1 == Closed && |ParseMore(y).value.0| == c - behind
                  && ParseMore(y).rest == From(raw, c + 1)
            else if c < |raw| && raw[c] == ',' then
              var next := ParseFields(From(raw, c + 1));
              if next.Bad? then ParseMore(y).Bad?
              else
                ParseMore(y).Good? && ParseMore(y).value.1 == Comma(next.value)
                    && |ParseMore(y).value.0| == c - behind && ParseMore(y).rest == next.rest
            else ParseMore(y).Bad?
  {
    PastIs(raw, behind);
    assert |From(raw, behind)| == |raw| - behind;
    hide From;
    hide Past;
    hide Skip;
    hide ParseFields;
  }

  lemma MemberEnds(raw: string, at: nat, behind: nat)
    requires at <= |raw| && behind <= |raw| && ReadsMember(From(raw, at))
             && MemberRest(From(raw, at)) == From(raw, behind)
    ensures var s := From(raw, at);
            behind == at + |LeadText(ParseLead(s).value)| + |Text(ParseValue(ParseLead(s).rest).value)|
  {
    var s := From(raw, at);
    assert |s| == |raw| - at && |From(raw, behind)| == |raw| - behind;
    hide From;
    hide ParseLead;
    hide ParseValue;
    hide LeadText;
    hide Text;
    LeadSound(s);
    ValueSound(ParseLead(s).rest);
  }

  lemma FieldsAre(raw: string, at: nat)
    requires at <= |raw| && ReadsMember(From(raw, at)) && Past(raw, at) < |raw| && raw[Past(raw, at)] != '}'
    ensures var s := From(raw, at);
            var more := ParseMore(MemberRest(s));
            ParseFields(s) == if more.Bad? then Bad
                              else Good(Field(ParseLead(s).value, ParseValue(ParseLead(s).rest).value, more.value.0,
                                              more.value.1), more.rest)
  {
    PastIs(raw, at);
    assert |From(raw, at)| == |raw| - at;
    hide From;
    hide Past;
    hide Skip;
    hide ParseLead;
    hide ParseValue;
    hide ParseMore;
  }

  lemma MembersAre(s: string, at: nat, f: Fields)
    requires ReadsMember(s) && f.Field? && f.lead == ParseLead(s).value
             && f.value == ParseValue(ParseLead(s).rest).value
    ensures var m, c := MemberAt(s, at), at + |LeadText(f.lead)| + |Text(f.value)| + |f.post|;
            Members(f, at) ==
                match f.rest case Closed => [m] case Comma(next) => [m.(comma := c)] + Members(next, c + 1)
  {
    hide ParseLead;
    hide ParseValue;
    hide LeadText;
    hide Text;
    hide NodeOf;
  }

  /** Behind a member's value. */
  lemma FieldsStep(raw: string, at: nat, behind: nat)
    requires at <= behind <= |raw|
    requires ReadsMember(From(raw, at)) && MemberRest(From(raw, at)) == From(raw, behind)
    requires Past(raw, at) < |raw| && raw[Past(raw, at)] != '}'
    ensures var s, m, c := From(raw, at), MemberAt(From(raw, at), at), Past(raw, behind);
            if c < |raw| && raw[c] == '}' then
              ParseFields(s).Good? && ParseFields(s).rest == From(raw, c + 1)
                  && Members(ParseFields(s).value, at) == [m]
            else if c < |raw| && raw[c] == ',' then
              match ParseFields(From(raw, c + 1))
              case Bad => ParseFields(s).Bad?
              case Good(f, z) => ParseFields(s).Good? && ParseFields(s).rest == z
                                 && Members(ParseFields(s).value, at) == [m.(comma := c)] + Members(f, c + 1)
            else ParseFields(s).Bad?
  {
    hide *;
    var s := From(raw, at);
    MoreAt(raw, behind);
    MemberEnds(raw, at, behind);
    FieldsAre(raw, at);
    if ParseFields(s).Good? { MembersAre(s, at, ParseFields(s).value); }
  }

  /** Reading the rest of an object from pos completes what was read of it so far. */
  ghost predicate ReadsOn(raw: string, open: nat, fields: seq<Member>, pos: nat) {
    && open < pos <= |raw|
    && match ParseFields(From(raw, pos))
       case Bad => ParseFields(From(raw, open + 1)).Bad?
       case Good(f, z) =>
         && ParseFields(From(raw, open + 1)).Good? && ParseFields(From(raw, open + 1)).rest == z
         && Members(ParseFields(From(raw, open + 1)).value, open + 1) == fields + Members(f, pos)
  }

  lemma ReadsOnMember(raw: string, open: nat, fields: seq<Member>, at: nat, behind: nat)
    requires open < at && ReadsOn(raw, open, fields, at) && at <= behind <= |raw|
    requires ReadsMember(From(raw, at)) && MemberRest(From(raw, at)) == From(raw, behind)
    requires Past(raw, at) < |raw| && raw[Past(raw, at)] != '}'
    ensures var m, c := MemberAt(From(raw, at), at), Past(raw, behind);
            if c < |raw| && raw[c] == '}' then ReadsOn(raw, open, fields + [m], c)
            else if c < |raw| && raw[c] == ',' then ReadsOn(raw, open, fields + [m.(comma := c)], c + 1)
            else ParseFields(From(raw, open + 1)).Bad?
  {
    hide *;
    var c, m := Past(raw, behind), MemberAt(From(raw, at), at);
    FieldsStep(raw, at, behind);
    ReadsOnIs(raw, open, fields, at);
    if c < |raw| && raw[c] == '}' {
      ClosesHere(raw, c);
      ReadsOnIs(raw, open, fields + [m], c);
      assert fields + [m] + [] == fields + [m];
    } else if c < |raw| && raw[c] == ',' {
      ReadsOnIs(raw, open, fields + [m.(comma := c)], c + 1);
      var next := ParseFields(From(raw, c + 1));
      if next.Good? { Appended(fields, m.(comma := c), Members(next.value, c + 1)); }
    }
  }

  lemma Appended(fields: seq<Member>, m: Member, more: seq<Member>)
    ensures fields + [m] + more == fields + ([m] + more)
  {
  }

  lemma ReadsOnIs(raw: string, open: nat, fields: seq<Member>, pos: nat)
    requires open < pos <= |raw|
    ensures ReadsOn(raw, open, fields, pos) <==>
              var r, all := ParseFields(From(raw, pos)), ParseFields(From(raw, open + 1));
              if r.Bad? then all.Bad?
              else all.Good? && all.rest == r.rest && Members(all.value, open + 1) == fields + Members(r.value, pos)
  {
  }

  lemma ReadsOnClosed(raw: string, open: nat, fields: seq<Member>, at: nat)
    requires ReadsOn(raw, open, fields, at)
    ensures var c, r := Past(raw, at), ParseFields(From(raw, open + 1));
            if c == |raw| || (raw[c] != '}' && !ReadsMember(From(raw, at))) then r.Bad?
            else raw[c] == '}' ==>
                r.Good? && r.rest == From(raw, c + 1)
                    && NodeOf(Object(r.value), open) == Node(ObjectKind, open, c + 1, c, fields)
  {
    var c, s := Past(raw, at), From(raw, open + 1);
    NoMember(raw, at);
    if c < |raw| && raw[c] == '}' {
      ClosesAt(raw, at);
      assert |From(raw, c + 1)| == |raw| - c - 1 && |s| == |raw| - open - 1;
      hide From;
      hide ParseFields;
      hide Members;
      FieldsSound(s);
    }
  }

  /** The same for arrays, of whose items only the extent matters. */
  ghost predicate ItemsReadOn(raw: string, open: nat, pos: nat) {
    && open < pos <= |raw|
    && match ParseItems(From(raw, pos))
       case Bad => ParseItems(From(raw, open + 1)).Bad?
       case Good(_, z) => ParseItems(From(raw, open + 1)).Good? && ParseItems(From(raw, open + 1)).rest == z
  }

  lemma ItemsStep(raw: string, at: nat, behind: nat)
    requires at <= |raw| && behind <= |raw| && Past(raw, at) < |raw| && raw[Past(raw, at)] != ']'
    requires ParseValue(From(raw, Past(raw, at))).Good?
             && ParseValue(From(raw, Past(raw, at))).rest == From(raw, behind)
    ensures var s, c := From(raw, at), Past(raw, behind);
            if c < |raw| && raw[c] == ']' then ParseItems(s).Good? && ParseItems(s).rest == From(raw, c + 1)
            else if c < |raw| && raw[c] == ',' then
              match ParseItems(From(raw, c + 1))
              case Bad => ParseItems(s).Bad?
              case Good(_, z) => ParseItems(s).Good? && ParseItems(s).rest == z
            else ParseItems(s).Bad?
  {
    hide *;
    MoreItemsAt(raw, behind);
    ItemsAre(raw, at);
  }

  lemma MoreItemsAt(raw: string, behind: nat)
    requires behind <= |raw|
    ensures var y, c := From(raw, behind), Past(raw, behind);
            if c < |raw| && raw[c] == ']' then ParseMoreItems(y).Good? && ParseMoreItems(y).rest == From(raw, c + 1)
            else if c < |raw| && raw[c] == ',' then
              var next := ParseItems(From(raw, c + 1));
              if next.Bad? then ParseMoreItems(y).Bad?
                  else ParseMoreItems(y).Good? && ParseMoreItems(y).rest == next.rest
            else ParseMoreItems(y).Bad?
  {
    PastIs(raw, behind);
    assert |From(raw, behind)| == |raw| - behind;
    hide From;
    hide Past;
    hide Skip;
    hide ParseItems;
  }

  lemma ItemsAre(raw: string, at: nat)
    requires at <= |raw| && Past(raw, at) < |raw| && raw[Past(raw, at)] != ']'
             && ParseValue(From(raw, Past(raw, at))).Good?
    ensures var s, more := From(raw, at), ParseMoreItems(ParseValue(From(raw, Past(raw, at))).rest);
            if more.Bad? then ParseItems(s).Bad? else ParseItems(s).Good? && ParseItems(s).rest == more.rest
  {
    PastIs(raw, at);
    assert |From(raw, at)| == |raw| - at;
    hide From;
    hide Past;
    hide Skip;
    hide ParseValue;
    hide ParseMoreItems;
  }

  lemma ItemsReadOnMore(raw: string, open: nat, at: nat, behind: nat)
    requires ItemsReadOn(raw, open, at) && at <= behind <= |raw| && Past(raw, at) < |raw| && raw[Past(raw, at)] != ']'
    requires ParseValue(From(raw, Past(raw, at))).Good?
             && ParseValue(From(raw, Past(raw, at))).rest == From(raw, behind)
    ensures var c := Past(raw, behind);
            if c < |raw| && raw[c] == ']' then ItemsReadOn(raw, open, c)
            else if c < |raw| && raw[c] == ',' then ItemsReadOn(raw, open, c + 1)
            else ParseItems(From(raw, open + 1)).Bad?
  {
    ItemsStep(raw, at, behind);
    PastIs(raw, behind);
    var c := Past(raw, behind);
    if c < |raw| && raw[c] == ']' { ItemsCloseAt(raw, c); }
    hide Past;
    hide From;
    hide Skip;
    hide ParseItems;
    hide ParseValue;
  }

  lemma ItemsCloseAt(raw: string, at: nat)
    requires at <= |raw|
    ensures var c := Past(raw, at);
            if c == |raw| || (raw[c] != ']' && ParseValue(From(raw, c)).Bad?) then ParseItems(From(raw, at)).Bad?
            else raw[c] == ']' ==> ParseItems(From(raw, at)).Good? && ParseItems(From(raw, at)).rest == From(raw, c + 1)
  {
    PastIs(raw, at);
    assert |From(raw, at)| == |raw| - at;
    assert Past(raw, at) == |raw| ==> From(raw, Past(raw, at)) == "";
    hide From;
    hide Past;
    hide Skip;
  }

  lemma ItemsReadOnClosed(raw: string, open: nat, at: nat)
    requires ItemsReadOn(raw, open, at)
    ensures var c, r := Past(raw, at), ParseItems(From(raw, open + 1));
            if c == |raw| || (raw[c] != ']' && ParseValue(From(raw, c)).Bad?) then r.Bad?
            else raw[c] == ']' ==>
                r.Good? && r.rest == From(raw, c + 1)
                    && NodeOf(Array(r.value), open) == Node(ArrayKind, open, c + 1, c, [])
  {
    var c, s := Past(raw, at), From(raw, open + 1);
    ItemsCloseAt(raw, at);
    if c < |raw| && raw[c] == ']' {
      assert |From(raw, c + 1)| == |raw| - c - 1 && |s| == |raw| - open - 1;
      hide From;
      hide ParseItems;
      ItemsSound(s);
    }
  }

  datatype Outcome = Failed | Parsed(node: Node)

  class Parser {
    const raw: string
    var pos: nat

    constructor (raw: string)
      ensures this.raw == raw && pos == 0
    {
      this.raw, pos := raw, 0;
    }

    function Ahead(): string
      requires pos <= |raw|
      reads this
    {
      From(raw, pos)
    }

    /** Moves behind all trivia. */
    method SkipTrivia()
      requires pos <= |raw|
      modifies this`pos
      ensures pos == Past(raw, old(pos)) <= |raw|
    {
      hide Piece;
      while pos < |raw|
        invariant pos <= |raw| && pos + Skip(Ahead()) == old(pos) + Skip(old(Ahead()))
        decreases |raw| - pos
      {
        ghost var at, here := pos, Ahead();
        var moved := SkipPiece();
        if !moved { return; }
        assert here[Piece(here)..] == Ahead();
      }
    }

    /** Moves behind one character or comment. */
    method SkipPiece() returns (moved: bool)
      requires pos < |raw|
      modifies this`pos
      ensures pos == old(pos) + Piece(old(Ahead())) <= |raw|
      ensures moved <==> Piece(old(Ahead())) > 0
    {
      hide Skippable;
      ghost var here := Ahead();
      assert pos + 2 <= |raw| ==> here[2..] == raw[pos + 2..];
      if Skippable(raw[pos]) {
        pos := pos + 1;
        return true;
      }
      if pos + 1 >= |raw| || raw[pos] != '/' { return false; }
      if raw[pos + 1] == '/' {
        pos := pos + 2;
        LineAhead();
        return true;
      }
      if raw[pos + 1] != '*' { return false; }
      pos := pos + 2;
      moved := BlockAhead();
      if !moved { pos := pos - 2; }
    }

    /** Moves to the end of the line. */
    method LineAhead()
      requires pos <= |raw|
      modifies this`pos
      ensures pos == old(pos) + LineLength(old(Ahead())) <= |raw|
    {
      while pos < |raw| && !Newline(raw[pos])
        invariant pos <= |raw| && pos + LineLength(Ahead()) == old(pos) + LineLength(old(Ahead()))
      {
        assert Ahead()[1..] == raw[pos + 1..];
        pos := pos + 1;
      }
    }

    /** Moves behind the end of a block comment, if it has one. */
    method BlockAhead() returns (closed: bool)
      requires pos <= |raw|
      modifies this`pos
      ensures closed <==> BlockLength(old(Ahead())) != 0
      ensures pos == old(pos) + BlockLength(old(Ahead())) <= |raw|
    {
      var p := pos;
      while p + 1 < |raw| && !(raw[p] == '*' && raw[p + 1] == '/')
        invariant old(pos) <= p <= |raw|
        invariant BlockLength(raw[p..]) == 0 <==> BlockLength(old(Ahead())) == 0
        invariant BlockLength(raw[p..]) != 0 ==> p + BlockLength(raw[p..]) == old(pos) + BlockLength(old(Ahead()))
      {
        assert raw[p..][1..] == raw[p + 1..];
        p := p + 1;
      }
      closed := p + 1 < |raw|;
      if closed { pos := p + 2; }
    }

    /** Moves behind a string. */
    method ScanString() returns (ok: bool)
      requires pos < |raw|
      modifies this`pos
      ensures pos <= |raw|
      ensures ok <==> StringLength(old(raw[pos]), old(raw[pos + 1..])) != 0
      ensures ok ==> pos == old(pos) + 1 + StringLength(old(raw[pos]), old(raw[pos + 1..])) <= |raw|
    {
      var quote := raw[pos];
      ghost var n := StringLength(quote, raw[pos + 1..]);
      pos := pos + 1;
      while pos < |raw|
        invariant old(pos) < pos <= |raw|
        invariant StringLength(quote, Ahead()) == 0 <==> n == 0
        invariant n != 0 ==> pos + StringLength(quote, Ahead()) == old(pos) + 1 + n
        decreases |raw| - pos
      {
        if raw[pos] == quote {
          pos := pos + 1;
          return true;
        }
        if raw[pos] == '\\' && pos + 1 >= |raw| { return false; }
        StringSteps(quote, raw, pos);
        if raw[pos] != '\\' {
          pos := pos + 1;
        } else if raw[pos + 1] == '\r' && pos + 2 < |raw| && raw[pos + 2] == '\n' {
          pos := pos + 3;
        } else {
          pos := pos + 2;
        }
      }
      ok := false;
    }

    /** Moves behind an unquoted value. */
    method ScanPlain()
      requires pos <= |raw|
      modifies this`pos
      ensures pos == old(pos) + PlainLength(old(Ahead())) <= |raw|
    {
      while pos < |raw| && !Delimiter(raw[pos]) && !StartsComment(Ahead()) && !Skippable(raw[pos])
        invariant pos <= |raw| && pos + PlainLength(Ahead()) == old(pos) + PlainLength(old(Ahead()))
      {
        assert Ahead()[1..] == raw[pos + 1..];
        pos := pos + 1;
      }
    }

    /** Moves behind an unquoted key. */
    method ScanName()
      requires pos <= |raw|
      modifies this`pos
      ensures pos == old(pos) + NameLength(old(Ahead())) <= |raw|
    {
      while pos < |raw| && raw[pos] != ':' && !StartsComment(Ahead()) && !Skippable(raw[pos])
        invariant pos <= |raw| && pos + NameLength(Ahead()) == old(pos) + NameLength(old(Ahead()))
      {
        assert Ahead()[1..] == raw[pos + 1..];
        pos := pos + 1;
      }
    }

    /** Moves behind a key, quoted or not. */
    method ScanKey() returns (ok: bool)
      requires pos < |raw| && raw[pos] != '}'
      modifies this`pos
      ensures pos <= |raw|
      ensures ok <==> KeyLength(From(raw, old(pos))) > 0
      ensures ok ==> pos == old(pos) + KeyLength(From(raw, old(pos))) <= |raw|
    {
      ghost var s := From(raw, pos);
      assert s[1..] == raw[pos + 1..];
      if Quote(raw[pos]) {
        ok := ScanString();
      } else {
        var start := pos;
        ScanName();
        assert raw[start..pos] == s[..NameLength(s)];
        ok := pos > start && '/' !in raw[start..pos];
      }
    }

    /** Reads one value and the trivia before it. */
    method ParseValue() returns (r: Outcome)
      requires pos <= |raw|
      modifies this`pos
      ensures pos <= |raw|
      ensures var a := Past(raw, old(pos));
              match Json5Tree.ParseValue(From(raw, a))
              case Bad => r.Failed?
              case Good(t, rest) => r == Parsed(NodeOf(t, a)) && From(raw, pos) == rest && a < pos
      decreases |raw| - pos, 2
    {
      SkipTrivia();
      if pos >= |raw| { return Failed; }
      ghost var s := From(raw, pos);
      assert s[1..] == From(raw, pos + 1);
      hide From;
      var start := pos;
      if raw[pos] == '{' {
        r := ParseObject();
      } else if raw[pos] == '[' {
        r := ParseArray();
      } else {
        r := ParseScalar();
      }
    }

    method ParseScalar() returns (r: Outcome)
      requires pos < |raw| && raw[pos] != '{' && raw[pos] != '['
      modifies this`pos
      ensures pos <= |raw|
      ensures match Json5Tree.ParseScalar(From(raw, old(pos)))
              case Bad => r.Failed?
              case Good(t, rest) => r == Parsed(NodeOf(t, old(pos))) && From(raw, pos) == rest
    {
      ghost var s := From(raw, pos);
      assert s[1..] == raw[pos + 1..];
      var start := pos;
      if Quote(raw[pos]) {
        var ok := ScanString();
        if !ok { return Failed; }
      } else {
        ScanPlain();
        assert raw[start..pos] == s[..PlainLength(s)];
        if pos == start || '/' in raw[start..pos] { return Failed; }
      }
      r := Parsed(Node(ScalarKind, start, pos, 0, []));
    }

    /** Moves from behind a key to its value, over the colon. */
    method ScanColon() returns (ok: bool)
      requires pos <= |raw|
      modifies this`pos
      ensures pos <= |raw|
      ensures ok ==> old(pos) < pos < |raw|
      ensures match ParseColon(From(raw, old(pos))) case Bad => !ok case Good(_, rest) => ok && From(raw, pos) == rest
    {
      hide Skip;
      ghost var v := From(raw, pos);
      SkipTrivia();
      assert pos < |raw| ==> v[Skip(v)] == raw[pos];
      if pos >= |raw| || raw[pos] != ':' { return false; }
      pos := pos + 1;
      assert v[Skip(v) + 1..] == From(raw, pos);
      ghost var w := From(raw, pos);
      SkipTrivia();
      assert w[Skip(w)..] == From(raw, pos);
      ok := pos < |raw|;
    }

    /** Reads a member from its key to the end of its value; `at` is where the trivia before it starts. */
    method ParseMember(ghost at: nat) returns (ok: bool, m: Member)
      requires at <= pos < |raw| && raw[pos] != '}' && pos == Past(raw, at)
      modifies this`pos
      ensures pos <= |raw|
      ensures ok <==> ReadsMember(From(raw, at))
      ensures ok ==> old(pos) < pos && From(raw, pos) == MemberRest(From(raw, at)) && m == MemberAt(From(raw, at), at)
      decreases |raw| - pos, 3
    {
      hide *;
      ghost var start := pos;
      m := Member(pos, pos, Node(ScalarKind, 0, 0, 0, []), -1);
      ok := ScanKey();
      LeadAt(raw, at, start, pos);
      if !ok { return; }
      m := m.(keyEnd := pos);
      ok := ScanColon();
      if !ok { return; }
      LeadPlace(raw, at, pos);
      var r := ParseValue();
      if r.Failed? { return false, m; }
      m := m.(value := r.node);
    }

    method ParseObject() returns (r: Outcome)
      requires pos < |raw| && raw[pos] == '{'
      modifies this`pos
      ensures pos <= |raw|
      ensures match ParseFields(From(raw, old(pos) + 1))
              case Bad => r.Failed?
              case Good(f, rest) => r == Parsed(NodeOf(Object(f), old(pos))) && From(raw, pos) == rest && old(pos) < pos
      decreases |raw| - pos, 0
    {
      hide *;
      var open := pos;
      var fields: seq<Member> := [];
      pos := pos + 1;
      ReadsOnStarts(raw, open);
      while true
        invariant open < pos <= |raw| && ReadsOn(raw, open, fields, pos)
        decreases |raw| - pos
      {
        ghost var at := pos;
        SkipTrivia();
        ReadsOnClosed(raw, open, fields, at);
        if pos >= |raw| { return Failed; }
        if raw[pos] == '}' {
          r := Parsed(Node(ObjectKind, open, pos + 1, pos, fields));
          pos := pos + 1;
          return;
        }
        var ok, m := ParseMember(at);
        if !ok { return Failed; }
        ReadsOnMember(raw, open, fields, at, pos);
        SkipTrivia();
        if pos >= |raw| { return Failed; }
        if raw[pos] == ',' {
          fields := fields + [m.(comma := pos)];
          pos := pos + 1;
          continue;
        }
        if raw[pos] != '}' { return Failed; }
        fields := fields + [m];
      }
      r := Failed;
    }

    method ParseArray() returns (r: Outcome)
      requires pos < |raw| && raw[pos] == '['
      modifies this`pos
      ensures pos <= |raw|
      ensures match ParseItems(From(raw, old(pos) + 1))
              case Bad => r.Failed?
              case Good(i, rest) => r == Parsed(NodeOf(Array(i), old(pos))) && From(raw, pos) == rest && old(pos) < pos
      decreases |raw| - pos, 0
    {
      hide *;
      var open := pos;
      pos := pos + 1;
      ItemsReadOnStarts(raw, open);
      while true
        invariant open < pos <= |raw| && ItemsReadOn(raw, open, pos)
        decreases |raw| - pos
      {
        ghost var at := pos;
        SkipTrivia();
        ItemsReadOnClosed(raw, open, at);
        PastIs(raw, at);
        if pos >= |raw| { return Failed; }
        if raw[pos] == ']' {
          r := Parsed(Node(ArrayKind, open, pos + 1, pos, []));
          pos := pos + 1;
          return;
        }
        var item := ParseValue();
        if item.Failed? { return Failed; }
        ItemsReadOnMore(raw, open, at, pos);
        SkipTrivia();
        if pos >= |raw| { return Failed; }
        if raw[pos] == ',' {
          pos := pos + 1;
          continue;
        }
        if raw[pos] != ']' { return Failed; }
      }
      r := Failed;
    }
  }

  lemma ReadsOnStarts(raw: string, open: nat)
    requires open < |raw|
    ensures ReadsOn(raw, open, [], open + 1)
  {
  }

  lemma ItemsReadOnStarts(raw: string, open: nat)
    requires open < |raw|
    ensures ItemsReadOn(raw, open, open + 1)
  {
  }

  /** From the trivia before a key to behind it. */
  lemma LeadAt(raw: string, at: nat, start: nat, behind: nat)
    requires at <= start <= |raw| && behind <= |raw| && start == Past(raw, at)
    ensures var s, k := From(raw, at), KeyLength(From(raw, start));
            && (ParseLead(s).Bad? ==> !ReadsMember(s))
            && (k == 0 ==> ParseLead(s).Bad?)
            && (k > 0 && behind == start + k ==>
                  match ParseColon(From(raw, behind))
                  case Bad => ParseLead(s).Bad?
                  case Good(_, w) => ParseLead(s).Good? && ParseLead(s).rest == w
                                     && |ParseLead(s).value.pre| == start - at && |ParseLead(s).value.key| == k)
  {
    PastIs(raw, at);
    assert |From(raw, at)| == |raw| - at && |From(raw, start)| == |raw| - start;
    assert behind == start + KeyLength(From(raw, start)) ==>
        From(raw, start)[KeyLength(From(raw, start))..] == From(raw, behind);
    hide Past;
    hide From;
    hide Skip;
    hide KeyLength;
    hide ParseColon;
  }

  /** Where a member's value starts. */
  lemma LeadPlace(raw: string, at: nat, value: nat)
    requires at <= |raw| && value <= |raw| && ParseLead(From(raw, at)).Good?
             && ParseLead(From(raw, at)).rest == From(raw, value)
    ensures value == at + |LeadText(ParseLead(From(raw, at)).value)| && Past(raw, value) == value
    ensures ReadsMember(From(raw, at)) <==> ParseValue(From(raw, value)).Good?
    ensures ReadsMember(From(raw, at)) ==>
              var l, v := ParseLead(From(raw, at)).value, ParseValue(From(raw, value));
              && MemberRest(From(raw, at)) == v.rest
              && MemberAt(From(raw, at), at) == Member(at + |l.pre|, at + |l.pre| + |l.key|, NodeOf(v.value, value), -1)
  {
    hide *;
    LeadSound(From(raw, at));
    NoTriviaHere(raw, value);
    FromIs(raw, at);
    FromIs(raw, value);
    MemberIs(From(raw, at), at);
  }

  lemma FromIs(raw: string, at: nat)
    requires at <= |raw|
    ensures |From(raw, at)| == |raw| - at
  {
  }

  lemma MemberIs(s: string, at: nat)
    requires ParseLead(s).Good?
    ensures ReadsMember(s) <==> ParseValue(ParseLead(s).rest).Good?
    ensures ReadsMember(s) ==>
              var l, v := ParseLead(s).value, ParseValue(ParseLead(s).rest);
              && MemberRest(s) == v.rest
              && MemberAt(s, at) ==
                   Member(at + |l.pre|, at + |l.pre| + |l.key|, NodeOf(v.value, at + |LeadText(l)|), -1)
  {
  }

  lemma NoTriviaHere(raw: string, at: nat)
    requires at <= |raw| && Piece(From(raw, at)) == 0
    ensures Past(raw, at) == at
  {
  }

  /** Reads a whole document. */
  method ParseText(raw: string) returns (r: Outcome)
    ensures match ParseDocument(raw)
            case Bad => r.Failed?
            case Good(d, _) => r == Parsed(NodeOf(d.root, |d.pre|))
  {
    assert From(raw, 0) == raw;
    PastIs(raw, 0);
    hide Skip;
    hide Json5Tree.ParseValue;
    hide NodeOf;
    var p := new Parser(raw);
    p.SkipTrivia();
    r := p.ParseValue();
    if r.Failed? { return; }
    ghost var w := p.pos;
    p.SkipTrivia();
    if p.pos != |raw| { return Failed; }
  }
}
