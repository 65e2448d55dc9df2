/** One value inside an object: its place in the text, its node, and what changing it does. */
module Json5Values {
  import opened Strings
  import opened Json5Text
  import opened Json5Tree
  import opened Json5RoundTrip
  import opened Json5Edit
  import opened Json5Parser
  import opened Json5Spans
  import opened Json5Sites
  import opened Json5Insertion

  /** The object with another value at place i. */
  function WithValue(f: Fields, i: nat, v: Tree): Fields
    requires i < |Entries(f)|
  {
    if i == 0 then f.(value := v) else f.(rest := Comma(WithValue(f.rest.next, i - 1, v)))
  }

  lemma {:induction false} WithValueKeeps(f: Fields, i: nat, v: Tree)
    requires i < |Entries(f)|
    ensures Entries(WithValue(f, i, v)) == Entries(f)[i := (Entries(f)[i].0, v)]
    ensures WfFields(f) && Wf(v) ==> WfFields(WithValue(f, i, v))
    ensures Entries(f)[i].1 == v ==> WithValue(f, i, v) == f
  {
    EntriesSome(f);
    hide *;
    FieldIs(f);
    WithValueIs(f, i, v);
    FieldIs(WithValue(f, i, v));
    var first, rest := (f.lead.key, f.value), MoreEntries(f.rest);
    if i == 0 {
      assert ([first] + rest)[0 := (f.lead.key, v)] == [(f.lead.key, v)] + rest;
    } else {
      WithValueKeeps(f.rest.next, i - 1, v);
      UpdateAt(first, rest, i, (rest[i - 1].0, v));
    }
  }

  lemma UpdateAt<T>(x: T, rest: seq<T>, i: nat, y: T)
    requires 0 < i <= |rest|
    ensures ([x] + rest)[i] == rest[i - 1] && ([x] + rest)[i := y] == [x] + rest[i - 1 := y]
  {
  }

  lemma WithValueIs(f: Fields, i: nat, v: Tree)
    requires i < |Entries(f)|
    ensures f.Field? && WithValue(f, i, v).Field?
    ensures i == 0 ==> WithValue(f, i, v) == Field(f.lead, v, f.post, f.rest)
    ensures i > 0 ==> f.rest.Comma? && i - 1 < |Entries(f.rest.next)| && MoreEntries(f.rest) == Entries(f.rest.next)
                      && WithValue(f, i, v) == Field(f.lead, f.value, f.post, Comma(WithValue(f.rest.next, i - 1, v)))
                      && MoreEntries(Comma(WithValue(f.rest.next, i - 1, v))) ==
                           Entries(WithValue(f.rest.next, i - 1, v))
  {
  }

  /** A value put where another one was put before replaces it. */
  lemma {:induction false} WithValueAgain(f: Fields, i: nat, v: Tree, w: Tree)
    requires i < |Entries(f)|
    ensures i < |Entries(WithValue(f, i, v))|
    ensures WithValue(WithValue(f, i, v), i, w) == WithValue(f, i, w)
  {
    if i > 0 { WithValueAgain(f.rest.next, i - 1, v, w); }
  }

  lemma {:induction false} EntryIsWf(f: Fields, i: nat)
    requires WfFields(f) && i < |Entries(f)|
    ensures Wf(Entries(f)[i].1)
  {
    hide Wf;
    FieldIs(f);
    if i > 0 { EntryIsWf(f.rest.next, i - 1); }
  }

  /** The inside of an object before the value of member i, and everything behind that value. */
  function Ahead(f: Fields, i: nat): string
    requires i < |Entries(f)|
  {
    PreText(f, i) + LeadText(Sub(f, i).lead)
  }

  function After(f: Fields, i: nat, more: string): string
    requires i < |Entries(f)|
  {
    Sub(f, i).post + (MoreText(Sub(f, i).rest) + more)
  }

  lemma {:induction false} SubWithValue(f: Fields, i: nat, v: Tree)
    requires i < |Entries(f)|
    ensures i < |Entries(WithValue(f, i, v))|
    ensures PreText(WithValue(f, i, v), i) == PreText(f, i)
    ensures Sub(WithValue(f, i, v), i) == Field(Sub(f, i).lead, v, Sub(f, i).post, Sub(f, i).rest)
    ensures Entries(f)[i] == (Sub(f, i).lead.key, Sub(f, i).value)
  {
    WithValueKeeps(f, i, v);
    FieldIs(f);
    if i > 0 { SubWithValue(f.rest.next, i - 1, v); }
  }

  lemma ValueSite(f: Fields, i: nat, v: Tree, more: string)
    requires i < |Entries(f)|
    ensures FieldsText(f) + more == Ahead(f, i) + (Text(Entries(f)[i].1) + After(f, i, more))
    ensures FieldsText(WithValue(f, i, v)) + more == Ahead(f, i) + (Text(v) + After(f, i, more))
  {
    var g := WithValue(f, i, v);
    SubWithValue(f, i, v);
    SubText(f, i, more);
    SubText(g, i, more);
    FieldText(Sub(f, i), more);
    FieldText(Sub(g, i), more);
    hide FieldsText;
    hide PreText;
    hide LeadText;
    hide Text;
    hide MoreText;
    hide Sub;
    hide Entries;
    hide WithValue;
    Assoc(PreText(f, i), LeadText(Sub(f, i).lead), Text(Entries(f)[i].1) + After(f, i, more));
    Assoc(PreText(f, i), LeadText(Sub(f, i).lead), Text(v) + After(f, i, more));
  }

  /** The offsets of member i: its key's text and its value's node. */
  lemma MemberSite(f: Fields, i: nat, before: string, more: string)
    requires i < |Entries(f)|
    ensures |Members(f, |before|)| == |Entries(f)|
    ensures var m, raw := Members(f, |before|)[i], before + (FieldsText(f) + more);
            m.keyStart <= m.keyEnd <= |raw| && raw[m.keyStart..m.keyEnd] == Entries(f)[i].0
    ensures Members(f, |before|)[i].value == NodeOf(Entries(f)[i].1, |before| + |Ahead(f, i)|)
  {
    hide *;
    SubIsField(f, i);
    MemberPlaces(f, i, |before|);
    SubText(f, i, more);
    KeyText(before, PreText(f, i), Sub(f, i), more);
  }

  lemma MemberPlaces(f: Fields, i: nat, at: nat)
    requires i < |Entries(f)|
    ensures |Members(f, at)| == |Entries(f)|
    ensures var m, g, start := Members(f, at)[i], Sub(f, i), at + |PreText(f, i)| + |Sub(f, i).lead.pre|;
            m.keyStart == start && m.keyEnd == start + |g.lead.key| && Entries(f)[i].0 == g.lead.key
    ensures Members(f, at)[i].value == NodeOf(Entries(f)[i].1, at + |Ahead(f, i)|)
  {
    hide *;
    SubIsField(f, i);
    SubMembers(f, i, at);
    EntryIs(f, i);
    AheadSize(f, i);
    var g, place := Sub(f, i), at + |PreText(f, i)|;
    FirstMember(g, place);
    assert place + |LeadText(g.lead)| == at + |Ahead(f, i)|;
  }

  lemma EntryIs(f: Fields, i: nat)
    requires i < |Entries(f)|
    ensures Entries(f)[i] == (Sub(f, i).lead.key, Sub(f, i).value)
  {
  }

  lemma SubIsField(f: Fields, i: nat)
    requires i < |Entries(f)|
    ensures Sub(f, i).Field?
  {
  }

  lemma AheadSize(f: Fields, i: nat)
    requires i < |Entries(f)|
    ensures |Ahead(f, i)| == |PreText(f, i)| + |LeadText(Sub(f, i).lead)|
  {
  }

  lemma FirstMember(g: Fields, at: nat)
    requires g.Field?
    ensures |Members(g, at)| > 0
    ensures Members(g, at)[0].keyStart == at + |g.lead.pre|
            && Members(g, at)[0].keyEnd == at + |g.lead.pre| + |g.lead.key|
    ensures Members(g, at)[0].value == NodeOf(g.value, at + |LeadText(g.lead)|)
  {
  }

  lemma KeyText(before: string, pre: string, g: Fields, more: string)
    requires g.Field?
    ensures var raw, start := before + (pre + (FieldsText(g) + more)), |before| + |pre| + |g.lead.pre|;
            start + |g.lead.key| <= |raw| && raw[start..start + |g.lead.key|] == g.lead.key
  {
  }
}
