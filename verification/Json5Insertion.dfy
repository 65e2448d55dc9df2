/** Insertion by offsets is insertion into the tree. */
module Json5Insertion {
  import opened Strings
  import opened Json5Text
  import opened Json5Tree
  import opened Json5RoundTrip
  import opened Json5Lines
  import opened Json5Edit
  import opened Json5Parser
  import opened Json5Spans
  import opened Json5Sites

  function MemberText(key: string, v: Tree): string { key + (": " + Text(v)) }

  /** Where the line of an offset starts, and what stands on it before the offset. */
  function LineAt(raw: string, at: nat): (n: nat)
    requires at <= |raw|
    ensures n <= at
  {
    LineStart(raw[..at])
  }

  function IndentAt(raw: string, at: nat): string
    requires at <= |raw|
  {
    raw[LineAt(raw, at)..at]
  }

  predicate IndentedAt(raw: string, at: nat)
    requires at <= |raw|
  {
    AllBlank(IndentAt(raw, at))
  }

  /** Something that is not white space stands right before the closing brace. */
  predicate NeedsGap(raw: string, open: nat, close: nat)
    requires open < close <= |raw|
  {
    close > open + 1 && !EndsInSpaceByte(raw[close - 1])
  }

  /** The text with a member added to an object that has none. */
  function FirstText(raw: string, nl: string, open: nat, close: nat, member: string): string
    requires open < close <= |raw|
  {
    if IndentedAt(raw, close) then
      var line := LineAt(raw, close);
      Splice(raw, line, line, IndentAt(raw, close) + "  " + member + nl)
    else
      Splice(raw, close, close, (if NeedsGap(raw, open, close) then " " else "") + member)
  }

  /** The text with a member added behind the last one. */
  function NextText(raw: string, nl: string, close: nat, last: Member, member: string): string
    requires last.keyStart <= last.value.end <= close <= |raw|
  {
    if IndentedAt(raw, close) then
      var line := LineAt(raw, close);
      var indent := if IndentedAt(raw, last.keyStart) then IndentAt(raw, last.keyStart)
          else IndentAt(raw, close) + "  ";
      var out := Splice(raw, line, line, indent + member + (if last.comma >= 0 then "," else "") + nl);
      if last.comma >= 0 then out else Splice(out, last.value.end, last.value.end, ",")
    else Splice(raw, close, close, if last.comma >= 0 then " " + member + "," else ", " + member)
  }

  lemma LineOfTrivia(a: string, t: string, rest: string)
    requires Stands(a)
    ensures var raw, at := a + (t + rest), |a| + |t|;
            && (IndentedAt(raw, at) <==> Indents(t))
            && (Indents(t) ==> LineAt(raw, at) == |a| + LineStart(t) && IndentAt(raw, at) == t[LineStart(t)..])
  {
    Assoc(a, t, rest);
    LineCut(a + t, rest);
    LastLine(a, t);
    hide Stands;
    hide Indents;
    hide LineAt;
    hide IndentAt;
  }

  lemma LineCut(s: string, rest: string)
    ensures LineAt(s + rest, |s|) == LineStart(s) && IndentAt(s + rest, |s|) == s[LineStart(s)..]
  {
  }

  /** The last line of text that ends in trivia. */
  lemma LastLine(a: string, t: string)
    requires Stands(a)
    ensures var s := a + t;
            && (AllBlank(s[LineStart(s)..]) <==> Indents(t))
            && (Indents(t) ==> LineStart(s) == |a| + LineStart(t) && s[LineStart(s)..] == t[LineStart(t)..])
  {
    var s := a + t;
    StartMore(a, t);
    hide Space;
    var ls := LineStart(s);
    if LineStart(t) > 0 {
      assert s[ls..] == t[LineStart(t)..];
    } else {
      assert s[ls..][|a| - 1 - ls] == a[|a| - 1];
      assert a[|a| - 1] in s[ls..];
      SpacesAreBlank(a[|a| - 1]);
    }
  }

  lemma SpacesAreBlank(c: char)
    ensures Blank(c) ==> Space(c)
  {
  }

  /** The text of an inserted member. */
  lemma NewText(pre: string, key: string, v: Tree, post: string, rest: More, more: string)
    ensures FieldsText(Field(NewLead(pre, key), v, post, rest)) + more ==
            pre + (MemberText(key, v) + (post + (MoreText(rest) + more)))
  {
  }

  /** A splice at the start of the last line of trivia. */
  lemma InsertAtLine(a: string, t: string, k: nat, w: string, x: string)
    requires k <= |t|
    ensures Splice(a + (t + w), |a| + k, |a| + k, x) == a + (t[..k] + (x + (t[k..] + w)))
  {
  }

  lemma InsertAtEnd(a: string, t: string, w: string, x: string)
    ensures Splice(a + (t + w), |a| + |t|, |a| + |t|, x) == a + (t + (x + w))
  {
  }

  // An object without members.

  lemma FirstTree(t: string, key: string, v: Tree, nl: string, more: string)
    ensures FieldsText(Inserted(NoField(t), key, v, nl)) + more ==
            if Indents(t) then
              (t[..LineStart(t)] + (t[LineStart(t)..] + "  "))
                  + (MemberText(key, v) + ((nl + t[LineStart(t)..]) + ("}" + more)))
            else
              (t + (if t != "" && !EndsInSpaceByte(t[|t| - 1]) then " " else ""))
                  + (MemberText(key, v) + ("" + ("}" + more)))
  {
    BraceText(Closed);
    if Indents(t) {
      var k := LineStart(t);
      NewText(t[..k] + (t[k..] + "  "), key, v, nl + t[k..], Closed, more);
    } else {
      NewText(t + (if t != "" && !EndsInSpaceByte(t[|t| - 1]) then " " else ""), key, v, "", Closed, more);
    }
  }

  lemma FirstIs(raw: string, nl: string, open: nat, close: nat, member: string)
    requires open < close <= |raw|
    ensures IndentedAt(raw, close) ==>
              var line := LineAt(raw, close);
              FirstText(raw, nl, open, close, member) ==
                  Splice(raw, line, line, IndentAt(raw, close) + "  " + member + nl)
    ensures !IndentedAt(raw, close) ==>
              FirstText(raw, nl, open, close, member) ==
              Splice(raw, close, close, (if NeedsGap(raw, open, close) then " " else "") + member)
  {
  }

  lemma FirstIsEdit(before: string, t: string, more: string, key: string, v: Tree, nl: string)
    requires Stands(before)
    ensures |before| > 0
    ensures var raw, close := before + (t + ("}" + more)), |before| + |t|;
            FirstText(raw, nl, |before| - 1, close, MemberText(key, v)) ==
                before + (FieldsText(Inserted(NoField(t), key, v, nl)) + more)
  {
    hide *;
    StandsLong(before);
    if Indents(t) { FirstOnLine(before, t, more, key, v, nl); } else { FirstInside(before, t, more, key, v, nl); }
  }

  lemma FirstOnLine(before: string, t: string, more: string, key: string, v: Tree, nl: string)
    requires Stands(before) && |before| > 0 && Indents(t)
    ensures var raw, close := before + (t + ("}" + more)), |before| + |t|;
            FirstText(raw, nl, |before| - 1, close, MemberText(key, v)) ==
                before + (FieldsText(Inserted(NoField(t), key, v, nl)) + more)
  {
    hide *;
    var raw, close, w := before + (t + ("}" + more)), |before| + |t|, "}" + more;
    var k := LineStart(t);
    var line, last, member := t[..k], t[k..], MemberText(key, v);
    LineOfTrivia(before, t, w);
    FirstTree(t, key, v, nl, more);
    FirstIs(raw, nl, |before| - 1, close, member);
    InsertAtLine(before, t, k, w, last + "  " + member + nl);
    FirstOwnLine(line, last, member, nl, w);
  }

  lemma FirstInside(before: string, t: string, more: string, key: string, v: Tree, nl: string)
    requires Stands(before) && |before| > 0 && !Indents(t)
    ensures var raw, close := before + (t + ("}" + more)), |before| + |t|;
            FirstText(raw, nl, |before| - 1, close, MemberText(key, v)) ==
                before + (FieldsText(Inserted(NoField(t), key, v, nl)) + more)
  {
    hide *;
    var raw, close, w := before + (t + ("}" + more)), |before| + |t|, "}" + more;
    var gap, member := if t != "" && !EndsInSpaceByte(t[|t| - 1]) then " " else "", MemberText(key, v);
    LineOfTrivia(before, t, w);
    FirstTree(t, key, v, nl, more);
    FirstIs(raw, nl, |before| - 1, close, member);
    LastOf(before, t, w);
    InsertAtEnd(before, t, w, gap + member);
    FirstInline(t, gap, member, w);
  }

  lemma StandsLong(before: string)
    requires Stands(before)
    ensures |before| > 0
  {
  }

  lemma LastOf(before: string, t: string, w: string)
    requires before != ""
    ensures NeedsGap(before + (t + w), |before| - 1, |before| + |t|) <==> t != "" && !EndsInSpaceByte(t[|t| - 1])
  {
  }

  lemma FirstOwnLine(line: string, last: string, member: string, nl: string, w: string)
    ensures line + ((last + "  " + member + nl) + (last + w)) == (line + (last + "  ")) + (member + ((nl + last) + w))
  {
  }

  lemma FirstInline(t: string, gap: string, member: string, w: string)
    ensures t + ((gap + member) + w) == (t + gap) + (member + ("" + w))
  {
  }

  // An object with members: the last one has a comma behind it or not.

  lemma NextIs(raw: string, nl: string, close: nat, last: Member, member: string)
    requires last.keyStart <= last.value.end <= close <= |raw|
    ensures IndentedAt(raw, close) ==>
              var line := LineAt(raw, close);
              var indent := if IndentedAt(raw, last.keyStart) then IndentAt(raw, last.keyStart)
                  else IndentAt(raw, close) + "  ";
              if last.comma >= 0
                  then NextText(raw, nl, close, last, member) == Splice(raw, line, line, indent + member + "," + nl)
              else
                var out := Splice(raw, line, line, indent + member + "" + nl);
                last.value.end <= |out|
                    && NextText(raw, nl, close, last, member) == Splice(out, last.value.end, last.value.end, ",")
    ensures !IndentedAt(raw, close) ==>
              NextText(raw, nl, close, last, member) ==
                  Splice(raw, close, close, if last.comma >= 0 then " " + member + "," else ", " + member)
  {
  }

  /** The text of an object whose last member is followed by an inserted one. */
  lemma NextTree(f: Fields, post: string, g: Fields, before: string, more: string)
    requires f.Field?
    ensures before + (FieldsText(Field(f.lead, f.value, post, Comma(g))) + more) ==
            (before + (f.lead.pre + Body(f))) + (post + ("," + (FieldsText(g) + more)))
  {
  }

  lemma NextJoins(a: string, b: string, c: string, d: string)
    ensures a + (b + (c + d)) == (a + (b + c)) + d
  {
  }

  /** Where things stand when the last member has no comma behind it. */
  lemma ClosedSite(f: Fields, before: string, more: string)
    requires WfFields(f) && f.Field? && f.rest.Closed? && Stands(before)
    ensures var raw, last := before + (FieldsText(f) + more), Members(f, |before|)[0];
            var a, t, w, pre := before + (f.lead.pre + Body(f)), f.post, "}" + more, f.lead.pre;
            && raw == a + (t + w) && Stands(a) && |before| + |FieldsText(f)| - 1 == |a| + |t| <= |raw|
            && last.comma == -1 && last.value.end == |a| && last.keyStart == |before| + |pre| <= |a|
            && (IndentedAt(raw, last.keyStart) <==> Indents(pre))
            && (Indents(pre) ==> IndentAt(raw, last.keyStart) == pre[LineStart(pre)..])
  {
    var w, pre := "}" + more, f.lead.pre;
    var a, t := before + (pre + Body(f)), f.post;
    MemberPlace(f, |before|);
    FieldIsText(f, more);
    FieldSize(f);
    BodyStands(f, before);
    hide *;
    BraceText(f.rest);
    NextJoins(before, pre, Body(f), t + w);
    LineOfTrivia(before, pre, Body(f) + (t + w));
  }

  lemma ClosedIsEdit(f: Fields, before: string, more: string, key: string, v: Tree, nl: string)
    requires WfFields(f) && f.Field? && f.rest.Closed? && Stands(before)
    ensures var raw, last := before + (FieldsText(f) + more), Members(f, |before|)[0];
            var close := |before| + |FieldsText(f)| - 1;
            && last.keyStart <= last.value.end <= close <= |raw|
            && NextText(raw, nl, close, last, MemberText(key, v)) ==
                 before + (FieldsText(Inserted(f, key, v, nl)) + more)
  {
    hide *;
    HasMember(f, |before|);
    ClosedSite(f, before, more);
    var raw, last := before + (FieldsText(f) + more), Members(f, |before|)[0];
    var pre, t, w, member := f.lead.pre, f.post, "}" + more, MemberText(key, v);
    var a := before + (pre + Body(f));
    LineOfTrivia(a, t, w);
    NextIs(raw, nl, |a| + |t|, last, member);
    if Indents(t) {
      var k, indent := LineStart(t), Indent(pre, t);
      IndentIs(pre, t);
      ClosedOwnLine(f, before, more, key, v, nl);
      InsertAtLine(a, t, k, w, indent + member + "" + nl);
      SpliceIn(a, ",", t[..k] + ((indent + member + "" + nl) + (t[k..] + w)));
    } else {
      ClosedInline(f, before, more, key, v, nl);
      InsertAtEnd(a, t, w, ", " + member);
    }
  }

  lemma FieldSize(f: Fields)
    requires f.Field?
    ensures |FieldsText(f)| == |f.lead.pre| + |Body(f)| + |f.post| + |MoreText(f.rest)|
  {
  }

  lemma IndentIs(pre: string, t: string)
    requires Indents(t)
    ensures Indent(pre, t) == if Indents(pre) then pre[LineStart(pre)..] else t[LineStart(t)..] + "  "
  {
  }

  /** A member's text ends in its value, which ends in no white space. */
  lemma BodyStands(f: Fields, before: string)
    requires WfFields(f) && f.Field?
    ensures Stands(before + (f.lead.pre + Body(f)))
    ensures Stands(before + ((f.lead.pre + Body(f)) + (f.post + ",")))
  {
    ValueStands(f.value);
    hide Text;
    hide Trivia;
    hide Space;
    var s := before + (f.lead.pre + Body(f));
    assert s[|s| - 1] == Text(f.value)[|Text(f.value)| - 1];
  }

  lemma {:induction false} ValueStands(t: Tree)
    requires Wf(t)
    ensures Stands(Text(t))
    decreases t, 0
  {
    match t
    case Scalar(x) => if Quoted(x) { StringEnds(x[0], x[1..]); } else { PlainEnds(x); }
    case Object(f) => FieldsEnd(f);
    case Array(i) => ItemsEnd(i);
  }

  lemma {:induction false} FieldsEnd(f: Fields)
    ensures FieldsText(f) != "" && FieldsText(f)[|FieldsText(f)| - 1] == '}'
    decreases f, 1
  {
    hide Text;
    hide LeadText;
    if f.Field? && f.rest.Comma? { FieldsEnd(f.rest.next); }
  }

  lemma {:induction false} ItemsEnd(i: Items)
    ensures ItemsText(i) != "" && ItemsText(i)[|ItemsText(i)| - 1] == ']'
    decreases i, 1
  {
    hide Text;
    if i.Item? && i.rest.CommaItems? { ItemsEnd(i.rest.next); }
  }

  lemma {:induction false} StringEnds(quote: char, s: string)
    requires s != "" && StringLength(quote, s) == |s|
    ensures s[|s| - 1] == quote
    decreases |s|
  {
    if s[0] != quote {
      var step := if s[0] != '\\' then 1 else if |s| > 2 && s[1] == '\r' && s[2] == '\n' then 3 else 2;
      StringEnds(quote, s[step..]);
      assert s[step..][|s| - step - 1] == s[|s| - 1];
    }
  }

  lemma {:induction false} PlainEnds(x: string)
    requires x != "" && PlainLength(x) == |x|
    ensures !Space(x[|x| - 1])
  {
    if |x| > 1 {
      PlainEnds(x[1..]);
      assert x[1..][|x| - 2] == x[|x| - 1];
    }
  }

  lemma ClosedOwnLine(f: Fields, before: string, more: string, key: string, v: Tree, nl: string)
    requires f.Field? && f.rest.Closed? && Indents(f.post)
    ensures var t, k := f.post, LineStart(f.post);
            before + (FieldsText(Inserted(f, key, v, nl)) + more) ==
            (before + (f.lead.pre + Body(f))) +
            ("," + (t[..k] + ((Indent(f.lead.pre, t) + MemberText(key, v) + "" + nl) + (t[k..] + ("}" + more)))))
  {
    var t, k := f.post, LineStart(f.post);
    var indent := Indent(f.lead.pre, t);
    var g := Field(NewLead(t[..k] + indent, key), v, nl + t[k..], Closed);
    assert Inserted(f, key, v, nl) == Field(f.lead, f.value, "", Comma(g));
    hide *;
    NextTree(f, "", g, before, more);
    NewText(t[..k] + indent, key, v, nl + t[k..], Closed, more);
    BraceText(Closed);
    OwnLineJoins(t[..k], indent, MemberText(key, v), "", nl, t[k..], "}" + more);
    assert "" + ("," + (FieldsText(g) + more)) == "," + (FieldsText(g) + more);
  }

  lemma OwnLineJoins(line: string, indent: string, member: string, comma: string, nl: string, last: string, w: string)
    ensures line + ((indent + member + comma + nl) + (last + w)) ==
            (line + indent) + (member + (comma + ((nl + last) + w)))
    ensures comma == "" ==> comma + ((nl + last) + w) == (nl + last) + w
  {
  }

  lemma ClosedInline(f: Fields, before: string, more: string, key: string, v: Tree, nl: string)
    requires f.Field? && f.rest.Closed? && !Indents(f.post)
    ensures before + (FieldsText(Inserted(f, key, v, nl)) + more) ==
            (before + (f.lead.pre + Body(f))) + (f.post + ((", " + MemberText(key, v)) + ("}" + more)))
  {
    var g := Field(NewLead(" ", key), v, "", Closed);
    assert Inserted(f, key, v, nl) == Field(f.lead, f.value, f.post, Comma(g));
    hide *;
    NextTree(f, f.post, g, before, more);
    NewText(" ", key, v, "", Closed, more);
    BraceText(Closed);
    InlineJoins(MemberText(key, v), "}" + more);
  }

  lemma InlineJoins(member: string, w: string)
    ensures "," + (" " + (member + ("" + w))) == (", " + member) + w
  {
  }

  /** Where things stand when only trivia follows the last member's comma. */
  lemma TrailingSite(f: Fields, before: string, more: string)
    requires WfFields(f) && f.Field? && f.rest.Comma? && f.rest.next.NoField? && Stands(before)
    ensures var raw, last := before + (FieldsText(f) + more), Members(f, |before|)[0];
            var a, t, w, pre := before + ((f.lead.pre + Body(f)) + (f.post + ",")), f.rest.next.trivia, "}" + more,
                f.lead.pre;
            && raw == a + (t + w) && Stands(a) && |before| + |FieldsText(f)| - 1 == |a| + |t| <= |raw|
            && last.comma >= 0 && last.keyStart == |before| + |pre| <= last.value.end <= |a|
            && (IndentedAt(raw, last.keyStart) <==> Indents(pre))
            && (Indents(pre) ==> IndentAt(raw, last.keyStart) == pre[LineStart(pre)..])
  {
    hide *;
    TrailingText(f, before, more);
    MemberPlace(f, |before|);
    LeadIndent(f, before, more);
  }

  /** The indentation of an object's first member. */
  lemma LeadIndent(f: Fields, before: string, more: string)
    requires f.Field? && Stands(before)
    ensures var raw, at, pre := before + (FieldsText(f) + more), |before| + |f.lead.pre|, f.lead.pre;
            && at <= |raw| && (IndentedAt(raw, at) <==> Indents(pre))
            && (Indents(pre) ==> IndentAt(raw, at) == pre[LineStart(pre)..])
  {
    hide *;
    FieldIsText(f, more);
    LineOfTrivia(before, f.lead.pre, Body(f) + (f.post + (MoreText(f.rest) + more)));
  }

  lemma TrailingText(f: Fields, before: string, more: string)
    requires WfFields(f) && f.Field? && f.rest.Comma? && f.rest.next.NoField?
    ensures var raw, a, t := before + (FieldsText(f) + more), before + ((f.lead.pre + Body(f)) + (f.post + ",")),
            f.rest.next.trivia;
            raw == a + (t + ("}" + more)) && Stands(a) && |before| + |FieldsText(f)| - 1 == |a| + |t| <= |raw|
  {
    hide *;
    FieldIsText(f, more);
    FieldSize(f);
    BodyStands(f, before);
    CommaText(f.rest);
    NoFieldText(f.rest.next);
    TrailingJoins(before, f.lead.pre, Body(f), f.post, f.rest.next.trivia, more);
  }

  lemma NoFieldText(f: Fields)
    requires f.NoField?
    ensures FieldsText(f) == f.trivia + "}"
  {
  }

  lemma HasMember(f: Fields, at: nat)
    requires f.Field?
    ensures |Members(f, at)| > 0
  {
  }

  lemma TrailingJoins(before: string, pre: string, body: string, post: string, t: string, more: string)
    ensures before + (pre + (body + (post + (("," + (t + "}")) + more)))) ==
            (before + ((pre + body) + (post + ","))) + (t + ("}" + more))
  {
  }

  lemma TrailingTree(f: Fields, g: Fields, before: string, more: string)
    requires f.Field?
    ensures before + (FieldsText(Field(f.lead, f.value, f.post, Comma(g))) + more) ==
            (before + ((f.lead.pre + Body(f)) + (f.post + ","))) + (FieldsText(g) + more)
  {
  }

  lemma TrailingOwnLine(f: Fields, before: string, more: string, key: string, v: Tree, nl: string)
    requires f.Field? && f.rest.Comma? && f.rest.next.NoField? && Indents(f.rest.next.trivia)
    ensures var t, k := f.rest.next.trivia, LineStart(f.rest.next.trivia);
            before + (FieldsText(Inserted(f, key, v, nl)) + more) ==
            (before + ((f.lead.pre + Body(f)) + (f.post + ","))) +
            (t[..k] + ((Indent(f.lead.pre, t) + MemberText(key, v) + "," + nl) + (t[k..] + ("}" + more))))
  {
    var t, k := f.rest.next.trivia, LineStart(f.rest.next.trivia);
    var indent := Indent(f.lead.pre, t);
    var rest := Comma(NoField(nl + t[k..]));
    var g := Field(NewLead(t[..k] + indent, key), v, "", rest);
    assert Inserted(f, key, v, nl) == Field(f.lead, f.value, f.post, Comma(g));
    assert MoreText(rest) == "," + ((nl + t[k..]) + "}");
    hide *;
    TrailingTree(f, g, before, more);
    NewText(t[..k] + indent, key, v, "", rest, more);
    OwnLineJoins(t[..k], indent, MemberText(key, v), ",", nl, t[k..], "}" + more);
    Assoc(",", (nl + t[k..]) + "}", more);
    Assoc(nl + t[k..], "}", more);
    assert "" + (MoreText(rest) + more) == MoreText(rest) + more;
  }

  lemma TrailingInline(f: Fields, before: string, more: string, key: string, v: Tree, nl: string)
    requires f.Field? && f.rest.Comma? && f.rest.next.NoField? && !Indents(f.rest.next.trivia)
    ensures before + (FieldsText(Inserted(f, key, v, nl)) + more) ==
            (before + ((f.lead.pre + Body(f)) + (f.post + ","))) +
            (f.rest.next.trivia + ((" " + MemberText(key, v) + ",") + ("}" + more)))
  {
    var t, rest := f.rest.next.trivia, Comma(NoField(""));
    var g := Field(NewLead(t + " ", key), v, "", rest);
    assert Inserted(f, key, v, nl) == Field(f.lead, f.value, f.post, Comma(g));
    assert MoreText(rest) == "," + "}";
    hide *;
    TrailingTree(f, g, before, more);
    NewText(t + " ", key, v, "", rest, more);
    TrailingInlineJoins(t, MemberText(key, v), more);
  }

  lemma TrailingInlineJoins(t: string, member: string, more: string)
    ensures (t + " ") + (member + ("" + (("," + "}") + more))) == t + ((" " + member + ",") + ("}" + more))
  {
  }

  lemma TrailingIsEdit(f: Fields, before: string, more: string, key: string, v: Tree, nl: string)
    requires WfFields(f) && f.Field? && f.rest.Comma? && f.rest.next.NoField? && Stands(before)
    ensures var raw, last := before + (FieldsText(f) + more), Members(f, |before|)[0];
            var close := |before| + |FieldsText(f)| - 1;
            && last.keyStart <= last.value.end <= close <= |raw|
            && NextText(raw, nl, close, last, MemberText(key, v)) ==
                 before + (FieldsText(Inserted(f, key, v, nl)) + more)
  {
    hide *;
    HasMember(f, |before|);
    TrailingSite(f, before, more);
    var raw, last := before + (FieldsText(f) + more), Members(f, |before|)[0];
    var pre, t, w, member := f.lead.pre, f.rest.next.trivia, "}" + more, MemberText(key, v);
    var a := before + ((pre + Body(f)) + (f.post + ","));
    LineOfTrivia(a, t, w);
    NextIs(raw, nl, |a| + |t|, last, member);
    if Indents(t) {
      var k, indent := LineStart(t), Indent(pre, t);
      IndentIs(pre, t);
      TrailingOwnLine(f, before, more, key, v, nl);
      InsertAtLine(a, t, k, w, indent + member + "," + nl);
    } else {
      TrailingInline(f, before, more, key, v, nl);
      InsertAtEnd(a, t, w, " " + member + ",");
    }
  }

  /** What insertion by offsets makes of an object's text is the text of the object with the member. */
  lemma {:induction false} NextIsEdit(f: Fields, before: string, more: string, key: string, v: Tree, nl: string)
    requires WfFields(f) && f.Field? && Stands(before)
    ensures var raw, members := before + (FieldsText(f) + more), Members(f, |before|);
            var last, close := members[|members| - 1], |before| + |FieldsText(f)| - 1;
            && last.keyStart <= last.value.end <= close <= |raw|
            && NextText(raw, nl, close, last, MemberText(key, v)) ==
                 before + (FieldsText(Inserted(f, key, v, nl)) + more)
  {
    hide *;
    HasMember(f, |before|);
    if f.rest.Closed? {
      OneMember(f, |before|);
      ClosedIsEdit(f, before, more, key, v, nl);
    } else if f.rest.next.NoField? {
      OneMember(f, |before|);
      TrailingIsEdit(f, before, more, key, v, nl);
    } else {
      var before' := before + ((f.lead.pre + Body(f)) + (f.post + ","));
      FieldIs(f);
      BodyStands(f, before);
      NextIsEdit(f.rest.next, before', more, key, v, nl);
      LaterIsEdit(f, before, more, key, v, nl);
    }
  }

  lemma LaterIsEdit(f: Fields, before: string, more: string, key: string, v: Tree, nl: string)
    requires f.Field? && f.rest.Comma? && f.rest.next.Field?
    ensures |Members(f, |before|)| > 0
    ensures var next, before' := f.rest.next, before + ((f.lead.pre + Body(f)) + (f.post + ","));
            var members, members' := Members(f, |before|), Members(next, |before'|);
            && |members'| > 0 && members[|members| - 1] == members'[|members'| - 1]
            && before + (FieldsText(f) + more) == before' + (FieldsText(next) + more)
            && |before| + |FieldsText(f)| == |before'| + |FieldsText(next)|
            && before + (FieldsText(Inserted(f, key, v, nl)) + more) ==
                 before' + (FieldsText(Inserted(next, key, v, nl)) + more)
  {
    hide *;
    HasMember(f, |before|);
    HasMember(f.rest.next, |before| + |f.lead.pre| + |Body(f)| + |f.post| + 1);
    NextMembers(f, |before|);
    InsertedNext(f, key, v, nl);
    SameField(f);
    TrailingTree(f, f.rest.next, before, more);
    TrailingTree(f, Inserted(f.rest.next, key, v, nl), before, more);
    assert |before + ((f.lead.pre + Body(f)) + (f.post + ","))| == |before| + |f.lead.pre| + |Body(f)| + |f.post| + 1;
  }

  lemma SameField(f: Fields)
    requires f.Field? && f.rest.Comma?
    ensures f == Field(f.lead, f.value, f.post, Comma(f.rest.next))
  {
  }

  lemma OneMember(f: Fields, at: nat)
    requires f.Field? && (f.rest.Closed? || f.rest.next.NoField?)
    ensures |Members(f, at)| == 1
  {
  }

  lemma NextMembers(f: Fields, at: nat)
    requires f.Field? && f.rest.Comma? && f.rest.next.Field?
    ensures var next := Members(f.rest.next, at + |f.lead.pre| + |Body(f)| + |f.post| + 1);
            Members(f, at)[|Members(f, at)| - 1] == next[|next| - 1]
    ensures |FieldsText(f)| == |f.lead.pre| + |Body(f)| + |f.post| + 1 + |FieldsText(f.rest.next)|
  {
  }

  lemma InsertedNext(f: Fields, key: string, v: Tree, nl: string)
    requires f.Field? && f.rest.Comma? && f.rest.next.Field?
    ensures Inserted(f, key, v, nl) == Field(f.lead, f.value, f.post, Comma(Inserted(f.rest.next, key, v, nl)))
  {
  }
}
