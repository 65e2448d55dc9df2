/** The same edits made on the document's characters, by offsets. */
module Json5Spans {
  import opened Strings
  import opened Json5Text
  import opened Json5Tree
  import opened Json5Lines
  import opened Json5Edit
  import opened Json5Parser

  /** The document with one span replaced. */
  function Splice(raw: string, start: nat, end: nat, replacement: string): (r: string)
    requires start <= end <= |raw|
    ensures |r| == |raw| - (end - start) + |replacement|
  {
    raw[..start] + replacement + raw[end..]
  }

  /** The lines from start to end are otherwise white: blanks up to a line break, or to the end of the document,
      follow. */
  predicate OwnLines(raw: string, start: nat, end: nat)
    requires start <= end <= |raw|
  {
    AllSpace(raw[LineStart(raw[..start])..start]) && (LineTail(raw[end..]) > 0 || AllBlank(raw[end..]))
  }

  function OwnEnd(raw: string, end: nat): (n: nat)
    requires end <= |raw|
    ensures end <= n <= |raw|
  {
    if LineTail(raw[end..]) > 0 then end + LineTail(raw[end..]) else |raw|
  }

  method OwnLineSpan(raw: string, start: nat, end: nat) returns (ok: bool, lineStart: nat, lineEnd: nat)
    requires start <= end <= |raw|
    ensures ok <==> OwnLines(raw, start, end)
    ensures ok ==> lineStart == LineStart(raw[..start]) && lineEnd == OwnEnd(raw, end)
  {
    lineStart, lineEnd := LineStart(raw[..start]), end;
    if !AllSpace(raw[lineStart..start]) { return false, 0, 0; }
    while lineEnd < |raw| && !Newline(raw[lineEnd])
      invariant end <= lineEnd <= |raw|
      invariant (LineTail(raw[end..]) > 0 || AllBlank(raw[end..])) <==>
               (LineTail(raw[lineEnd..]) > 0 || AllBlank(raw[lineEnd..]))
      invariant LineTail(raw[lineEnd..]) > 0 <==> LineTail(raw[end..]) > 0
      invariant LineTail(raw[end..]) > 0 ==> lineEnd + LineTail(raw[lineEnd..]) == end + LineTail(raw[end..])
    {
      TailStep(raw, lineEnd);
      if raw[lineEnd] != ' ' && raw[lineEnd] != '\t' { return false, 0, 0; }
      lineEnd := lineEnd + 1;
    }
    if lineEnd < |raw| && raw[lineEnd] == '\r' {
      lineEnd := lineEnd + 1;
      if lineEnd < |raw| && raw[lineEnd] == '\n' { lineEnd := lineEnd + 1; }
    } else if lineEnd < |raw| && raw[lineEnd] == '\n' {
      lineEnd := lineEnd + 1;
    }
    ok := true;
  }

  lemma TailStep(raw: string, n: nat)
    requires n < |raw| && !Newline(raw[n])
    ensures LineTail(raw[n..]) > 0 ==> Blank(raw[n])
    ensures Blank(raw[n]) ==>
            LineTail(raw[n..]) == if LineTail(raw[n + 1..]) == 0 then 0 else 1 + LineTail(raw[n + 1..])
    ensures AllBlank(raw[n..]) <==> Blank(raw[n]) && AllBlank(raw[n + 1..])
  {
  }

  /** Where a member stands, as the offsets an edit needs. */
  predicate Spans(raw: string, m: Member, previous: int) {
    && m.keyStart <= m.value.end <= |raw|
    && -1 <= previous < m.keyStart && (previous >= 0 ==> raw[previous] == ',')
    && (m.comma >= 0 ==> m.value.end <= m.comma < |raw|)
  }

  /** The text left when a member goes; `previous` is the comma before it, or negative. */
  function RemovalText(raw: string, m: Member, previous: int): string
    requires Spans(raw, m, previous)
  {
    var tokenEnd := if m.comma >= 0 then m.comma + 1 else m.value.end;
    if OwnLines(raw, m.keyStart, tokenEnd) then
      var out := Splice(raw, LineStart(raw[..m.keyStart]), OwnEnd(raw, tokenEnd), "");
      if m.comma < 0 && 0 <= previous < |out| then Splice(out, previous, previous + 1, "") else out
    else if previous >= 0 && AllSpace(raw[previous + 1..m.keyStart]) then
      if m.comma < 0 then Splice(raw, previous, m.value.end, "") else Splice(raw, previous + 1, m.comma + 1, "")
    else TokensRemoved(raw, m, previous)
  }

  /** Without the member's tokens and one comma, and with everything around them. */
  function TokensRemoved(raw: string, m: Member, previous: int): string
    requires Spans(raw, m, previous)
  {
    var start, end := m.keyStart, m.value.end;
    var out := Splice(raw, start, end, "");
    if m.comma >= 0 then Splice(out, m.comma - (end - start), m.comma - (end - start) + 1, "")
    else if previous >= 0 then Splice(out, previous, previous + 1, "")
    else out
  }

  // How splices look on concatenations.

  lemma SpliceIn(x: string, r: string, z: string)
    ensures Splice(x + z, |x|, |x|, r) == x + (r + z)
  {
  }

  /** Text before trivia that cannot be part of a line of it. */
  predicate Stands(before: string) { before != "" && !Space(before[|before| - 1]) }

  /** Text behind trivia that ends the blanks. */
  predicate Ends(behind: string) { behind != "" && !Blank(behind[0]) && !Newline(behind[0]) }

  lemma LineBefore(a: string, pre: string)
    requires Stands(a)
    ensures var s := a + pre;
            && (AllSpace(s[LineStart(s)..]) <==> OpensLine(pre))
            && (OpensLine(pre) ==> LineStart(s) == |a| + LineStart(pre))
  {
    StartMore(a, pre);
    hide Space;
    var s := a + pre;
    var ls := LineStart(s);
    if LineStart(pre) > 0 {
      assert s[ls..] == pre[LineStart(pre)..];
    } else {
      assert s[ls..][|a| - 1 - ls] == a[|a| - 1];
      assert a[|a| - 1] in s[ls..];
    }
  }

  lemma LineBehind(t: string, z: string)
    requires Ends(z)
    ensures LineTail(t + z) == LineTail(t) && !AllBlank(t + z)
  {
    TailMore(t, z);
    assert (t + z)[|t|] == z[0];
  }

  lemma SplicePieces(a: string, p: string, q: string, b: string, u: string, v: string, z: string)
    ensures Splice(a + ((p + q) + (b + ((u + v) + z))), |a| + |p|, |a| + |p| + |q| + |b| + |u|, "") == a + ((p + v) + z)
  {
  }

  lemma Halves(t: string, k: nat)
    requires k <= |t|
    ensures t == t[..k] + t[k..]
  {
  }

  lemma SpliceLines(a: string, pre: string, body: string, t: string, z: string)
    requires Alone(pre, t)
    ensures var raw := a + (pre + (body + (t + z)));
            Splice(raw, |a| + LineStart(pre), |a| + |pre| + |body| + LineTail(t), "") == a + (Closing(pre, t) + z)
  {
    hide *;
    var k, n := LineStart(pre), LineTail(t);
    Halves(pre, k);
    Halves(t, n);
    SplicePieces(a, pre[..k], pre[k..], body, t[..n], t[n..], z);
    ClosingIs(pre, t);
  }

  lemma ClosingIs(pre: string, t: string)
    requires Alone(pre, t)
    ensures Closing(pre, t) == pre[..LineStart(pre)] + t[LineTail(t)..]
  {
  }

  /** Between solid text on both sides, lines are decided by the trivia alone. */
  lemma LinesAround(a: string, pre: string, body: string, t: string, z: string)
    requires Stands(a) && Ends(z)
    ensures var raw := a + (pre + (body + (t + z)));
            var start, end := |a| + |pre|, |a| + |pre| + |body|;
            && (OwnLines(raw, start, end) <==> Alone(pre, t))
            && (Alone(pre, t) ==>
                 Splice(raw, LineStart(raw[..start]), OwnEnd(raw, end), "") == a + (Closing(pre, t) + z))
  {
    hide *;
    LineBefore(a, pre);
    LineBehind(t, z);
    OwnLinesOf(a + pre, body, t + z);
    AloneIs(pre, t);
    Assoc(a, pre, body + (t + z));
    if Alone(pre, t) { SpliceLines(a, pre, body, t, z); }
  }

  lemma AloneIs(pre: string, t: string)
    ensures Alone(pre, t) <==> OpensLine(pre) && LineTail(t) > 0
  {
  }

  /** The lines around a part of the text, in terms of the text before and behind it. */
  lemma OwnLinesOf(s: string, body: string, w: string)
    ensures var raw, end := s + (body + w), |s| + |body|;
            && LineStart(raw[..|s|]) == LineStart(s)
            && (OwnLines(raw, |s|, end) <==> AllSpace(s[LineStart(s)..]) && (LineTail(w) > 0 || AllBlank(w)))
            && OwnEnd(raw, end) == if LineTail(w) > 0 then end + LineTail(w) else |raw|
  {
    hide AllSpace;
    hide AllBlank;
    hide LineTail;
    hide LineStart;
    var raw, end := s + (body + w), |s| + |body|;
    assert raw[..|s|] == s && raw[end..] == w;
    assert raw[LineStart(s)..|s|] == s[LineStart(s)..];
  }

  // The four ways a member can stand: first or not, last or not.

  /** A middle part goes. */
  lemma SpliceMiddle(a: string, pre: string, body: string, w: string)
    ensures Splice(a + (pre + (body + w)), |a| + |pre|, |a| + |pre| + |body|, "") == a + (pre + w)
  {
  }

  lemma BetweenIs(a: string, pre: string, w: string)
    ensures (a + (pre + w))[|a|..|a| + |pre|] == pre
  {
  }

  /** The only member: only trivia is left. */
  lemma RemoveOnly(raw: string, m: Member, a: string, pre: string, body: string, t: string, z: string)
    requires raw == a + (pre + (body + (t + z))) && Stands(a) && Ends(z)
    requires m.keyStart == |a| + |pre| && m.value.end == |a| + |pre| + |body| && m.comma < 0
    requires Spans(raw, m, -1)
    ensures RemovalText(raw, m, -1) == a + ((if Alone(pre, t) then Closing(pre, t) else pre + t) + z)
  {
    hide OwnLines;
    hide Splice;
    hide Alone;
    hide Closing;
    hide Stands;
    hide Ends;
    hide LineStart;
    LinesAround(a, pre, body, t, z);
    SpliceMiddle(a, pre, body, t + z);
    Assoc(pre, t, z);
  }

  /** The last of several members: the comma before it goes with it. */
  lemma RemoveLast(raw: string, m: Member, front: string, pre: string, body: string, t: string, z: string)
    requires raw == (front + ",") + (pre + (body + (t + z))) && Ends(z)
    requires m.keyStart == |front| + 1 + |pre| && m.value.end == |front| + 1 + |pre| + |body| && m.comma < 0
    requires Spans(raw, m, |front|)
    ensures RemovalText(raw, m, |front|) ==
            front + ((if Alone(pre, t) then Closing(pre, t) else if AllSpace(pre) then t else pre + t) + z)
  {
    var a := front + ",";
    hide OwnLines;
    hide Splice;
    hide Alone;
    hide Closing;
    hide Ends;
    hide LineStart;
    hide AllSpace;
    LinesAround(a, pre, body, t, z);
    if OwnLines(raw, m.keyStart, m.value.end) {
      CommaGoes(front, Closing(pre, t) + z);
    } else {
      BetweenIs(a, pre, body + (t + z));
      Assoc(pre, t, z);
      if AllSpace(pre) {
        LastGoes(front, pre, body, t + z);
      } else {
        SpliceMiddle(a, pre, body, t + z);
        CommaGoes(front, pre + (t + z));
      }
    }
  }

  lemma CommaGoes(front: string, w: string)
    ensures Splice((front + ",") + w, |front|, |front| + 1, "") == front + w
  {
  }

  lemma LastGoes(front: string, pre: string, body: string, w: string)
    ensures Splice((front + ",") + (pre + (body + w)), |front|, |front| + 1 + |pre| + |body|, "") == front + w
  {
  }

  /** A member with a comma behind it; `previous` is the comma before it, right before the trivia, or -1. */
  lemma RemoveInner(raw: string, m: Member, previous: int, a: string, pre: string, body: string, post: string,
                    t: string, z: string)
    requires raw == a + (pre + ((body + (post + ",")) + (t + z))) && Stands(a) && Ends(z)
    requires m.keyStart == |a| + |pre| && m.value.end == |a| + |pre| + |body| && m.comma == m.value.end + |post|
    requires (previous == -1 || previous == |a| - 1) && Spans(raw, m, previous)
    ensures RemovalText(raw, m, previous) ==
            a + ((if Alone(pre, t) then Closing(pre, t) else if previous >= 0 && AllSpace(pre) then t
                else pre + post + t) + z)
  {
    var token := body + (post + ",");
    hide OwnLines;
    hide Splice;
    hide Alone;
    hide Closing;
    hide Stands;
    hide Ends;
    hide LineStart;
    hide AllSpace;
    LinesAround(a, pre, token, t, z);
    if !OwnLines(raw, m.keyStart, m.comma + 1) {
      BetweenIs(a, pre, token + (t + z));
      if previous >= 0 && AllSpace(pre) {
        InnerGoes(a, pre, token, t + z);
      } else {
        BodyGoes(a, pre, body, post, t + z);
        Assoc(pre + post, t, z);
      }
    }
  }

  lemma InnerGoes(a: string, pre: string, token: string, w: string)
    ensures Splice(a + (pre + (token + w)), |a|, |a| + |pre| + |token|, "") == a + w
  {
  }

  lemma BodyGoes(a: string, pre: string, body: string, post: string, w: string)
    ensures var out := Splice(a + (pre + ((body + (post + ",")) + w)), |a| + |pre|, |a| + |pre| + |body|, "");
            && |out| > |a| + |pre| + |post|
            && Splice(out, |a| + |pre| + |post|, |a| + |pre| + |post| + 1, "") == a + ((pre + post) + w)
  {
  }
}
