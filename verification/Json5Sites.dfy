/** Where a member stands in its object's text, and what removal and insertion by offsets do to the tree. */
module Json5Sites {
  import opened Strings
  import opened Json5Text
  import opened Json5Tree
  import opened Json5RoundTrip
  import opened Json5Lines
  import opened Json5Edit
  import opened Json5Parser
  import opened Json5Spans

  /** The members from the i-th on. */
  function Sub(f: Fields, i: nat): (g: Fields)
    requires i < |Entries(f)|
    ensures g.Field?
  {
    if i == 0 then f else Sub(f.rest.next, i - 1)
  }

  /** The text before the i-th member's trivia. */
  function PreText(f: Fields, i: nat): string
    requires i < |Entries(f)|
  {
    if i == 0 then "" else LeadText(f.lead) + (Text(f.value) + (f.post + ("," + PreText(f.rest.next, i - 1))))
  }

  /** The text up to the end of the value before the i-th member, and the trivia behind that value. */
  function Front(f: Fields, i: nat): string
    requires 0 < i < |Entries(f)|
  {
    LeadText(f.lead) + (Text(f.value) + if i == 1 then "" else f.post + ("," + Front(f.rest.next, i - 1)))
  }

  function Behind(f: Fields, i: nat): string
    requires 0 < i < |Entries(f)|
  {
    if i == 1 then f.post else Behind(f.rest.next, i - 1)
  }

  lemma FieldText(f: Fields, more: string)
    requires f.Field?
    ensures FieldsText(f) + more == LeadText(f.lead) + (Text(f.value) + (f.post + (MoreText(f.rest) + more)))
  {
    FieldJoins(f.lead, f.value, f.post, f.rest, more);
  }

  lemma {:induction false} SubText(f: Fields, i: nat, more: string)
    requires i < |Entries(f)|
    ensures FieldsText(f) + more == PreText(f, i) + (FieldsText(Sub(f, i)) + more)
    ensures WfFields(f) ==> WfFields(Sub(f, i))
    ensures i > 0 ==> PreText(f, i) == (Front(f, i) + Behind(f, i)) + ","
  {
    if i == 0 {
      assert "" + (FieldsText(f) + more) == FieldsText(f) + more;
    } else {
      var next := f.rest.next;
      SubText(next, i - 1, more);
      hide FieldsText;
      hide LeadText;
      hide Text;
      hide WfFields;
      FieldText(f, more);
      Assoc(",", FieldsText(next), more);
      CommaText(f.rest);
      Chain(LeadText(f.lead), Text(f.value), f.post, PreText(next, i - 1), FieldsText(Sub(f, i)) + more);
      FieldIs(f);
      if i == 1 {
        FrontOne(f);
      } else {
        FrontMore(LeadText(f.lead), Text(f.value), f.post, Front(next, i - 1), Behind(next, i - 1));
      }
    }
  }

  lemma CommaText(r: More)
    requires r.Comma?
    ensures MoreText(r) == "," + FieldsText(r.next)
  {
  }

  lemma Chain(l: string, v: string, p: string, x: string, y: string)
    ensures (l + (v + (p + ("," + x)))) + y == l + (v + (p + ("," + (x + y))))
  {
  }

  lemma FrontOne(f: Fields)
    requires 1 < |Entries(f)|
    ensures PreText(f, 1) == (Front(f, 1) + Behind(f, 1)) + ","
  {
    hide LeadText;
    hide Text;
    assert PreText(f.rest.next, 0) == "";
    assert "," + "" == ",";
    assert Text(f.value) + "" == Text(f.value);
  }

  lemma FrontMore(l: string, v: string, p: string, front: string, behind: string)
    ensures l + (v + (p + ("," + ((front + behind) + ",")))) == ((l + (v + (p + ("," + front)))) + behind) + ","
  {
  }

  /** The offsets of the i-th member. */
  lemma {:induction false} SubMembers(f: Fields, i: nat, at: nat)
    requires i < |Entries(f)|
    ensures |Members(f, at)| == |Entries(f)|
    ensures Members(f, at)[i] == Members(Sub(f, i), at + |PreText(f, i)|)[0]
    ensures i > 0 ==> Members(f, at)[i - 1].comma == at + |PreText(f, i)| - 1
  {
    hide LeadText;
    hide Text;
    hide NodeOf;
    MembersCount(f, at);
    if i > 0 {
      var behind := at + |LeadText(f.lead)| + |Text(f.value)| + |f.post|;
      SubMembers(f.rest.next, i - 1, behind + 1);
      assert Members(f, at)[1..] == Members(f.rest.next, behind + 1);
      MembersCount(Sub(f, i), at + |PreText(f, i)|);
    }
  }

  lemma {:induction false} MembersCount(f: Fields, at: nat)
    ensures |Members(f, at)| == |Entries(f)|
  {
    hide LeadText;
    hide Text;
    hide NodeOf;
    if f.Field? && f.rest.Comma? {
      MembersCount(f.rest.next, at + |LeadText(f.lead)| + |Text(f.value)| + |f.post| + 1);
    }
  }

  lemma {:induction false} RemovedText(f: Fields, i: nat, more: string)
    requires 0 < i < |Entries(f)|
    ensures var r := WithoutNext(Behind(f, i), Sub(f, i));
            FieldsText(Removed(f, i)) + more == Front(f, i) + (r.0 + (MoreText(r.1) + more))
  {
    hide FieldsText;
    hide MoreText;
    hide LeadText;
    hide Text;
    hide WithoutNext;
    FieldText(Removed(f, i), more);
    if i == 1 {
      assert Text(f.value) + "" == Text(f.value);
      Assoc(LeadText(f.lead), Text(f.value),
            WithoutNext(f.post, f.rest.next).0 + (MoreText(WithoutNext(f.post, f.rest.next).1) + more));
    } else {
      var next := f.rest.next;
      var r := WithoutNext(Behind(next, i - 1), Sub(next, i - 1));
      RemovedText(next, i - 1, more);
      CommaText(Removed(f, i).rest);
      Assoc(",", FieldsText(Removed(next, i - 1)), more);
      Chain(LeadText(f.lead), Text(f.value), f.post, Front(next, i - 1), r.0 + (MoreText(r.1) + more));
    }
  }

  // Removal by offsets is removal from the tree.

  /** A member's text from its key to the end of its value. */
  function Body(f: Fields): string
    requires f.Field?
  {
    f.lead.key + (f.lead.mid + (":" + (f.lead.gap + Text(f.value))))
  }

  /** An object's inside behind its leading trivia. */
  function Tail(f: Fields): string {
    match f case NoField(_) => "}" case Field(_, _, post, rest) => Body(f) + (post + MoreText(rest))
  }

  lemma LeadingText(f: Fields, t: string, more: string)
    ensures FieldsText(f) + more == Leading(f) + (Tail(f) + more)
    ensures FieldsText(WithLeading(f, t)) + more == t + (Tail(f) + more)
  {
    hide Text;
    hide MoreText;
    if f.Field? {
      var g := WithLeading(f, t);
      FieldIsText(f, more);
      FieldIsText(g, more);
      Assoc(Body(f), f.post + MoreText(f.rest), more);
      Assoc(f.post, MoreText(f.rest), more);
    }
  }

  lemma FieldIsText(f: Fields, more: string)
    requires f.Field?
    ensures FieldsText(f) + more == f.lead.pre + (Body(f) + (f.post + (MoreText(f.rest) + more)))
  {
    FieldText(f, more);
    hide Text;
    hide MoreText;
    hide FieldsText;
    var l := f.lead;
    Joined(l, Text(f.value) + (f.post + (MoreText(f.rest) + more)));
    BodyJoins(l.key, l.mid, l.gap, Text(f.value), f.post + (MoreText(f.rest) + more));
  }

  lemma BodyJoins(key: string, mid: string, gap: string, v: string, more: string)
    ensures key + (mid + (":" + (gap + (v + more)))) == (key + (mid + (":" + (gap + v)))) + more
  {
  }

  lemma TailEnds(f: Fields, more: string)
    requires WfFields(f)
    ensures Ends(Tail(f) + more)
  {
    hide Text;
    hide Trivia;
    if f.Field? {
      assert Quoted(f.lead.key) || Name(f.lead.key);
      assert (Tail(f) + more)[0] == f.lead.key[0];
    }
  }

  /** Only member: the object's inside becomes the trivia around it. */
  lemma OnlyGoes(f: Fields, before: string, more: string, raw: string)
    requires WfFields(f) && f.Field? && f.rest.Closed? && Stands(before) && raw == before + (FieldsText(f) + more)
    ensures var m := Members(f, |before|)[0];
            Spans(raw, m, -1) && RemovalText(raw, m, -1) == before + (FieldsText(WithoutFirst(f)) + more)
  {
    var m, t := Members(f, |before|)[0], f.post;
    var z := "}" + more;
    MemberPlace(f, |before|);
    FieldIsText(f, more);
    assert Ends(z);
    assert |raw| == |before| + |f.lead.pre| + |Body(f)| + |t| + |z|;
    hide Stands;
    hide Ends;
    hide Body;
    RemoveOnly(raw, m, before, f.lead.pre, Body(f), t, z);
    var x := if Alone(f.lead.pre, t) then Closing(f.lead.pre, t) else f.lead.pre + t;
    assert FieldsText(WithoutFirst(f)) == x + "}";
    Assoc(x, "}", more);
  }

  lemma MemberPlace(f: Fields, at: nat)
    requires f.Field?
    ensures var m := Members(f, at)[0];
            && m.keyStart == at + |f.lead.pre| && m.value.end == m.keyStart + |Body(f)|
            && m.comma == if f.rest.Closed? then -1 else m.value.end + |f.post|
  {
    NodeEnds(f.value, at + |LeadText(f.lead)|);
    hide Text;
    hide NodeOf;
  }

  lemma NodeEnds(t: Tree, at: nat)
    ensures NodeOf(t, at).end == at + |Text(t)| && NodeOf(t, at).start == at
  {
  }

  lemma ClosedNext(g: Fields)
    requires g.Field? && g.rest.Closed?
    ensures var pre, t := g.lead.pre, g.post;
            WithoutNext("", g) ==
                (if Alone(pre, t) then Closing(pre, t) else if AllSpace(pre) then t else pre + t, Closed)
  {
    hide Alone;
    hide Closing;
    hide AllSpace;
    assert forall x: string :: "" + x == x;
  }

  lemma LastSpans(raw: string, m: Member, front: string, pre: string, body: string, t: string, z: string)
    requires raw == (front + ",") + (pre + (body + (t + z))) && m.comma < 0
    requires m.keyStart == |front| + 1 + |pre| && m.value.end == |front| + 1 + |pre| + |body|
    ensures Spans(raw, m, |front|)
  {
  }

  /** A last member behind others. */
  lemma LastGoes(g: Fields, front: string, more: string, raw: string)
    requires WfFields(g) && g.Field? && g.rest.Closed? && raw == (front + ",") + (FieldsText(g) + more)
    ensures var m, r := Members(g, |front| + 1)[0], WithoutNext("", g);
            && r.1 == Closed && Spans(raw, m, |front|)
            && RemovalText(raw, m, |front|) == front + (r.0 + ("}" + more))
  {
    var m, t := Members(g, |front| + 1)[0], g.post;
    var z := "}" + more;
    MemberPlace(g, |front| + 1);
    assert Ends(z);
    hide *;
    FieldIsText(g, more);
    ClosedNext(g);
    BraceText(g.rest);
    LastSpans(raw, m, front, g.lead.pre, Body(g), t, z);
    RemoveLast(raw, m, front, g.lead.pre, Body(g), t, z);
  }

  lemma BraceText(r: More)
    requires r.Closed?
    ensures MoreText(r) == "}"
  {
  }

  /** A member with others behind it. */
  lemma InnerGoes(g: Fields, before: string, previous: int, more: string, raw: string)
    requires WfFields(g) && g.Field? && g.rest.Comma? && Stands(before) && raw == before + (FieldsText(g) + more)
    requires previous == -1 || (previous == |before| - 1 && before[previous] == ',')
    ensures var m, next := Members(g, |before|)[0], g.rest.next;
            && Spans(raw, m, previous)
            && RemovalText(raw, m, previous) ==
               before + (FieldsText(if previous >= 0 then WithoutNext("", g).1.next else WithoutFirst(g)) + more)
            && (previous >= 0 ==> WithoutNext("", g).0 == "" && WithoutNext("", g).1.Comma?)
  {
    var m, next := Members(g, |before|)[0], g.rest.next;
    var pre, t, z := g.lead.pre, Leading(next), Tail(next) + more;
    MemberPlace(g, |before|);
    FieldIsText(g, more);
    LeadingText(next, t, more);
    TailEnds(next, more);
    CommaText(g.rest);
    var x := if Alone(pre, t) then Closing(pre, t) else if previous >= 0 && AllSpace(pre) then t else pre + g.post + t;
    LeadingText(next, x, more);
    assert WithLeading(next, t) == next;
    assert (if previous >= 0 then WithoutNext("", g).1.next else WithoutFirst(g)) == WithLeading(next, x);
    hide Tail;
    hide Stands;
    hide Ends;
    hide Body;
    hide FieldsText;
    hide WithoutNext;
    hide WithoutFirst;
    hide AllSpace;
    Assoc(",", FieldsText(next), more);
    InnerText(before, pre, Body(g), g.post, t, z);
    InnerSpans(raw, m, previous, before, pre, Body(g), g.post, t, z);
    RemoveInner(raw, m, previous, before, pre, Body(g), g.post, t, z);
  }

  lemma InnerText(before: string, pre: string, body: string, post: string, t: string, z: string)
    ensures before + (pre + (body + (post + ("," + (t + z))))) == before + (pre + ((body + (post + ",")) + (t + z)))
  {
  }

  lemma InnerSpans(raw: string, m: Member, previous: int, before: string, pre: string, body: string, post: string,
                   t: string, z: string)
    requires raw == before + (pre + ((body + (post + ",")) + (t + z)))
    requires previous == -1 || (previous == |before| - 1 && before[previous] == ',')
    requires m.keyStart == |before| + |pre| && m.value.end == m.keyStart + |body| && m.comma == m.value.end + |post|
    ensures Spans(raw, m, previous)
  {
    assert |raw| == |before| + |pre| + |body| + |post| + 1 + |t| + |z|;
    assert previous >= 0 ==> raw[previous] == before[previous];
  }

  function PreviousComma(members: seq<Member>, i: nat): int
    requires i <= |members|
  {
    if i > 0 then members[i - 1].comma else -1
  }

  /** The same with an empty string before the second member. */
  lemma WithoutNextBehind(behind: string, g: Fields)
    requires g.Field?
    ensures WithoutNext(behind, g) == (behind + WithoutNext("", g).0, WithoutNext("", g).1)
  {
    hide Alone;
    hide Closing;
    hide AllSpace;
    assert "" + "" == "";
    assert behind + "" == behind;
    assert forall x: string :: "" + x == x;
  }

  /** What removal by offsets leaves of an object's text is the text of the object without the member. */
  lemma RemovalIsEdit(before: string, f: Fields, more: string, i: nat)
    requires WfFields(f) && i < |Entries(f)| && Stands(before)
    ensures |Members(f, |before|)| == |Entries(f)|
    ensures var raw, members := before + (FieldsText(f) + more), Members(f, |before|);
            Spans(raw, members[i], PreviousComma(members, i))
            && RemovalText(raw, members[i], PreviousComma(members, i)) == before + (FieldsText(Removed(f, i)) + more)
  {
    SubMembers(f, i, |before|);
    if i == 0 {
      var raw := before + (FieldsText(f) + more);
      if f.rest.Closed? { OnlyGoes(f, before, more, raw); } else { InnerGoes(f, before, -1, more, raw); }
    } else if Sub(f, i).rest.Closed? {
      LastIsEdit(before, f, more, i);
    } else {
      InnerIsEdit(before, f, more, i);
    }
  }

  lemma LastIsEdit(before: string, f: Fields, more: string, i: nat)
    requires WfFields(f) && 0 < i < |Entries(f)| && Sub(f, i).rest.Closed?
    ensures |Members(f, |before|)| == |Entries(f)|
    ensures var raw, members := before + (FieldsText(f) + more), Members(f, |before|);
            && members[i - 1].comma >= 0 && Spans(raw, members[i], members[i - 1].comma)
            && RemovalText(raw, members[i], members[i - 1].comma) == before + (FieldsText(Removed(f, i)) + more)
  {
    hide *;
    var g := Sub(f, i);
    var front := before + (Front(f, i) + Behind(f, i));
    SubText(f, i, more);
    SubMembers(f, i, |before|);
    SiteText(before, Front(f, i), Behind(f, i), FieldsText(g) + more);
    LastGoes(g, front, more, before + (FieldsText(f) + more));
    RemovedText(f, i, more);
    WithoutNextBehind(Behind(f, i), g);
    BraceText(WithoutNext("", g).1);
    LastText(before, Front(f, i), Behind(f, i), WithoutNext("", g).0, "}" + more);
  }

  lemma InnerIsEdit(before: string, f: Fields, more: string, i: nat)
    requires WfFields(f) && 0 < i < |Entries(f)| && Sub(f, i).rest.Comma?
    ensures |Members(f, |before|)| == |Entries(f)|
    ensures var raw, members := before + (FieldsText(f) + more), Members(f, |before|);
            && members[i - 1].comma >= 0 && Spans(raw, members[i], members[i - 1].comma)
            && RemovalText(raw, members[i], members[i - 1].comma) == before + (FieldsText(Removed(f, i)) + more)
  {
    hide *;
    var g := Sub(f, i);
    var front := before + (Front(f, i) + Behind(f, i));
    SubText(f, i, more);
    SubMembers(f, i, |before|);
    SiteText(before, Front(f, i), Behind(f, i), FieldsText(g) + more);
    CommaStands(front);
    InnerGoes(g, front + ",", |front|, more, before + (FieldsText(f) + more));
    RemovedText(f, i, more);
    WithoutNextBehind(Behind(f, i), g);
    CommaText(WithoutNext("", g).1);
    InnerKept(before, Front(f, i), Behind(f, i), FieldsText(WithoutNext("", g).1.next), more);
  }

  lemma CommaStands(front: string)
    ensures Stands(front + ",")
  {
  }

  lemma SiteText(before: string, front: string, behind: string, rest: string)
    ensures before + (((front + behind) + ",") + rest) == ((before + (front + behind)) + ",") + rest
  {
  }

  lemma LastText(before: string, front: string, behind: string, t: string, rest: string)
    ensures (before + (front + behind)) + (t + rest) == before + (front + ((behind + t) + rest))
  {
  }

  lemma InnerKept(before: string, front: string, behind: string, text: string, more: string)
    ensures ((before + (front + behind)) + ",") + (text + more) ==
            before + (front + ((behind + "") + (("," + text) + more)))
  {
  }
}
