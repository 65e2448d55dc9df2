/** Lines inside trivia: where they break, and how trivia can be cut at a break. */
module Json5Lines {
  import opened Strings
  import opened Json5Text

  predicate AllSpace(s: string) { forall c :: c in s ==> Space(c) }

  predicate AllBlank(s: string) { forall c :: c in s ==> Blank(c) }

  /** Where the last line of s starts: behind its last line break, or at 0. */
  function LineStart(s: string): (k: nat)
    ensures k <= |s|
    ensures k > 0 ==> Newline(s[k - 1])
    ensures forall i :: k <= i < |s| ==> !Newline(s[i])
  {
    if s == "" then 0 else if Newline(s[|s| - 1]) then |s| else LineStart(s[..|s| - 1])
  }

  /** The blanks up to and including a line break; 0 when something else comes first. */
  function LineTail(s: string): (n: nat)
    ensures n <= |s|
  {
    if s == "" then 0
    else if Blank(s[0]) then (if LineTail(s[1..]) == 0 then 0 else 1 + LineTail(s[1..]))
    else if s[0] == '\r' then (if |s| > 1 && s[1] == '\n' then 2 else 1)
    else if s[0] == '\n' then 1
    else 0
  }

  /** Only white space stands between the start of a line in this trivia and its end. */
  predicate OpensLine(t: string) { LineStart(t) > 0 && AllSpace(t[LineStart(t)..]) }

  /** The same with blanks only. */
  predicate Indents(t: string) { LineStart(t) > 0 && AllBlank(t[LineStart(t)..]) }

  lemma LineStartIs(s: string, k: nat)
    requires k <= |s| && (k > 0 ==> Newline(s[k - 1])) && forall i :: k <= i < |s| ==> !Newline(s[i])
    ensures LineStart(s) == k
  {
  }

  lemma {:induction false} SpaceIsTrivia(s: string)
    requires AllSpace(s)
    ensures Trivia(s)
  {
    if s != "" {
      assert s[0] in s;
      forall c | c in s[1..] ensures Space(c) { assert c in s; }
      SpaceIsTrivia(s[1..]);
    }
  }

  /** A line break in a comment at most ends it: no comment reaches over a break that only white space follows. */
  lemma PieceStaysBefore(t: string)
    requires Trivia(t) && t != "" && OpensLine(t)
    ensures Piece(t) <= LineStart(t)
    ensures StartsLine(t) ==> Piece(t) < LineStart(t)
  {
    var k, p := LineStart(t), Piece(t);
    if StartsLine(t) && !Skippable(t[0]) {
      assert p < |t| && Newline(t[2..][LineLength(t[2..])]);
      assert t[p] == t[2..][LineLength(t[2..])];
    } else if !Skippable(t[0]) {
      BlockEnds(t[2..]);
      assert t[p - 1] == t[2..][BlockLength(t[2..]) - 1] == '/';
      assert forall i :: k <= i < |t| ==> t[i] == t[k..][i - k];
    }
  }

  lemma {:induction false} BlockEnds(s: string)
    requires BlockLength(s) > 0
    ensures s[BlockLength(s) - 1] == '/'
  {
    if !(s[0] == '*' && s[1] == '/') { BlockEnds(s[1..]); }
  }

  /** Trivia can be cut at a line break that only white space follows. */
  lemma {:induction false} CutAtBreak(t: string)
    requires Trivia(t) && OpensLine(t)
    ensures Trivia(t[..LineStart(t)])
    decreases |t|
  {
    var k, p := LineStart(t), Piece(t);
    PieceStaysBefore(t);
    PieceLess(t, k);
    if p < k {
      assert t[p..][k - p..] == t[k..];
      LineStartIs(t[p..], k - p);
      CutAtBreak(t[p..]);
    } else {
      assert t[..k][p..] == "";
    }
  }

  lemma {:induction false} TailIsTrivia(s: string)
    requires Trivia(s) && LineTail(s) > 0
    ensures Trivia(s[LineTail(s)..])
  {
    if Blank(s[0]) {
      TailIsTrivia(s[1..]);
      assert s[1..][LineTail(s[1..])..] == s[LineTail(s)..];
    } else if LineTail(s) == 2 {
      assert s[1..][1..] == s[2..];
    }
  }

  lemma {:induction false} TailMore(s: string, more: string)
    requires more != "" && !Blank(more[0]) && !Newline(more[0])
    ensures LineTail(s + more) == LineTail(s)
  {
    if s == "" {
      assert s + more == more;
    } else {
      assert (s + more)[1..] == s[1..] + more;
      if Blank(s[0]) { TailMore(s[1..], more); }
    }
  }

  /** What stands before trivia does not matter to its last line, as long as the trivia has one. */
  lemma StartMore(before: string, t: string)
    requires before != "" && !Newline(before[|before| - 1])
    ensures LineStart(t) > 0 ==> LineStart(before + t) == |before| + LineStart(t)
    ensures LineStart(t) == 0 ==> LineStart(before + t) < |before|
  {
    var s := before + t;
    var k := LineStart(s);
    assert forall i :: |before| <= i < |s| ==> s[i] == t[i - |before|];
    assert s[|before| - 1] == before[|before| - 1];
    if LineStart(t) > 0 { LineStartIs(s, |before| + LineStart(t)); }
  }
}
