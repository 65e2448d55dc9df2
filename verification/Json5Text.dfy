/** Characters and trivia of a JSON5 document: white space, byte order marks and comments. */
module Json5Text {
  import opened Strings

  predicate Skippable(c: char) { Space(c) || c as int == 0xFEFF }

  predicate Blank(c: char) { c == ' ' || c == '\t' }

  predicate Newline(c: char) { c == '\n' || c == '\r' }

  predicate StartsLine(s: string) { |s| >= 2 && s[0] == '/' && s[1] == '/' }

  predicate StartsBlock(s: string) { |s| >= 2 && s[0] == '/' && s[1] == '*' }

  predicate StartsComment(s: string) { StartsLine(s) || StartsBlock(s) }

  /** How far it is to the end of the line. */
  function LineLength(s: string): (n: nat)
    ensures n <= |s|
    ensures n < |s| ==> Newline(s[n])
  {
    if s == "" || Newline(s[0]) then 0 else 1 + LineLength(s[1..])
  }

  /** How far it is to behind the end of a block comment; 0 when it does not end. */
  function BlockLength(s: string): (n: nat)
    ensures n <= |s| && n != 1
  {
    if |s| < 2 then 0
    else if s[0] == '*' && s[1] == '/' then 2
    else if BlockLength(s[1..]) == 0 then 0 else 1 + BlockLength(s[1..])
  }

  /** The length of one leading piece of trivia: a character or a comment. A comment that never closes is none. */
  function Piece(s: string): (n: nat)
    ensures n <= |s|
  {
    if s == "" then 0
    else if Skippable(s[0]) then 1
    else if StartsLine(s) then 2 + LineLength(s[2..])
    else if StartsBlock(s) && BlockLength(s[2..]) != 0 then 2 + BlockLength(s[2..])
    else 0
  }

  /** The length of all leading trivia. */
  function Skip(s: string): (n: nat)
    ensures n <= |s|
    decreases |s|
  {
    if Piece(s) == 0 then 0 else Piece(s) + Skip(s[Piece(s)..])
  }

  /** The first piece ends inside t, so that nothing appended to t could extend it. */
  predicate PieceEnds(t: string) {
    Piece(t) > 0 && (StartsLine(t) ==> Piece(t) < |t|)
  }

  /** Complete trivia: every comment in it is closed, a line comment by its line break. */
  predicate Trivia(t: string)
    decreases |t|
  {
    t == "" || (PieceEnds(t) && Trivia(t[Piece(t)..]))
  }

  lemma {:induction false} LineLengthMore(s: string, more: string)
    requires LineLength(s) < |s|
    ensures LineLength(s + more) == LineLength(s)
  {
    if !Newline(s[0]) {
      LineLengthMore(s[1..], more);
      assert (s + more)[1..] == s[1..] + more;
    }
  }

  lemma {:induction false} BlockLengthMore(s: string, more: string)
    requires BlockLength(s) != 0
    ensures BlockLength(s + more) == BlockLength(s)
  {
    if !(s[0] == '*' && s[1] == '/') {
      BlockLengthMore(s[1..], more);
      assert (s + more)[1..] == s[1..] + more;
    }
  }

  lemma PieceMore(t: string, more: string)
    requires PieceEnds(t)
    ensures Piece(t + more) == Piece(t) && PieceEnds(t + more)
    ensures (t + more)[Piece(t)..] == t[Piece(t)..] + more
  {
    hide Skippable;
    if !Skippable(t[0]) {
      assert (t + more)[2..] == t[2..] + more;
      if StartsLine(t) { LineLengthMore(t[2..], more); } else { BlockLengthMore(t[2..], more); }
    }
  }

  lemma {:induction false} SkipOver(t: string, more: string)
    requires Trivia(t)
    ensures Skip(t + more) == |t| + Skip(more)
    decreases |t|
  {
    if t == "" {
      assert t + more == more;
    } else {
      PieceMore(t, more);
      SkipOver(t[Piece(t)..], more);
    }
  }

  lemma {:induction false} TriviaJoins(t: string, more: string)
    requires Trivia(t) && Trivia(more)
    ensures Trivia(t + more)
    decreases |t|
  {
    if t == "" {
      assert t + more == more;
    } else {
      PieceMore(t, more);
      TriviaJoins(t[Piece(t)..], more);
    }
  }

  lemma {:induction false} LineLengthLess(s: string, n: nat)
    requires LineLength(s) <= n <= |s|
    ensures LineLength(s[..n]) == LineLength(s)
  {
    if s != "" && !Newline(s[0]) {
      LineLengthLess(s[1..], n - 1);
      assert s[..n][1..] == s[1..][..n - 1];
    }
  }

  lemma {:induction false} BlockLengthLess(s: string, n: nat)
    requires 0 < BlockLength(s) <= n <= |s|
    ensures BlockLength(s[..n]) == BlockLength(s)
  {
    if !(s[0] == '*' && s[1] == '/') {
      BlockLengthLess(s[1..], n - 1);
      assert s[..n][1..] == s[1..][..n - 1];
    }
  }

  lemma PieceLess(s: string, n: nat)
    requires 0 < Piece(s) <= n <= |s|
    ensures Piece(s[..n]) == Piece(s)
    ensures s[..n][Piece(s)..] == s[Piece(s)..][..n - Piece(s)]
  {
    hide Skippable;
    if !Skippable(s[0]) {
      assert s[..n][2..] == s[2..][..n - 2];
      if StartsLine(s) { LineLengthLess(s[2..], n - 2); } else { BlockLengthLess(s[2..], n - 2); }
    }
  }

  /** Skipping stops where there is no trivia; before the end of the text it has skipped only trivia. */
  lemma {:induction false} Skipped(s: string)
    ensures Piece(s[Skip(s)..]) == 0
    ensures Skip(s) < |s| ==> Trivia(s[..Skip(s)])
    decreases |s|
  {
    if Piece(s) > 0 {
      var p := Piece(s);
      Skipped(s[p..]);
      assert s[p..][Skip(s[p..])..] == s[Skip(s)..];
      if Skip(s) < |s| {
        PieceLess(s, Skip(s));
        assert s[..Skip(s)][p..] == s[p..][..Skip(s[p..])];
        if StartsLine(s) && Skip(s) == p { LineEndSkips(s); }
      }
    }
  }

  /** The line break that ends a comment is skipped with it. */
  lemma LineEndSkips(s: string)
    requires StartsLine(s)
    ensures Piece(s) < |s| ==> Skip(s) > Piece(s)
  {
  }
}
