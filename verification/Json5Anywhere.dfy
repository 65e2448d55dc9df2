/** Edits anywhere in a document: what is read again is the document's tree with one object changed. */
module Json5Anywhere {
  import opened Strings
  import opened Json5Text
  import opened Json5Tree
  import opened Json5RoundTrip
  import opened Json5Lines
  import opened Json5Edit
  import opened Json5Parser
  import opened Json5Insertion
  import opened Json5Editor
  import opened Json5Values

  /** Where a value stands in a tree: the tree itself, inside a member's value, or inside an array's element. */
  datatype Place = Here | InField(i: nat, inner: Place) | InItem(k: nat, inner: Place)

  // Arrays.

  /** What an array says: its elements in order. */
  function Elements(i: Items): (r: seq<Tree>)
    ensures |r| > 0 <==> i.Item?
  {
    match i
    case NoItem(_) => []
    case Item(_, v, _, rest) => [v] + match rest case ClosedItems => [] case CommaItems(next) => Elements(next)
  }

  /** The array with another element at place k. */
  function WithItem(i: Items, k: nat, v: Tree): Items
    requires k < |Elements(i)|
  {
    if k == 0 then i.(value := v) else i.(rest := CommaItems(WithItem(i.rest.next, k - 1, v)))
  }

  /** The inside of an array before element k, and everything behind that element. */
  function AheadItem(i: Items, k: nat): string
    requires k < |Elements(i)|
  {
    if k == 0 then i.pre else i.pre + (Text(i.value) + (i.post + ("," + AheadItem(i.rest.next, k - 1))))
  }

  function AfterItem(i: Items, k: nat): string
    requires k < |Elements(i)|
  {
    if k == 0 then i.post + MoreItemsText(i.rest) else AfterItem(i.rest.next, k - 1)
  }

  lemma ItemIs(i: Items)
    requires i.Item?
    ensures var next := if i.rest.ClosedItems? then [] else Elements(i.rest.next); Elements(i) == [i.value] + next
    ensures ItemsText(i) == i.pre + (Text(i.value) + (i.post + MoreItemsText(i.rest)))
    ensures WfItems(i) <==>
              Trivia(i.pre) && Wf(i.value) && Trivia(i.post) && (i.rest.CommaItems? ==> WfItems(i.rest.next))
  {
    hide Text;
    hide Trivia;
    Assoc(i.pre + Text(i.value), i.post, MoreItemsText(i.rest));
    Assoc(i.pre, Text(i.value), i.post + MoreItemsText(i.rest));
  }

  lemma {:induction false} ItemText(i: Items, k: nat)
    requires k < |Elements(i)|
    ensures ItemsText(i) == AheadItem(i, k) + (Text(Elements(i)[k]) + AfterItem(i, k))
  {
    hide Text;
    hide ItemsText;
    ItemIs(i);
    if k > 0 {
      var next := i.rest.next;
      ItemText(next, k - 1);
      Nest(i.pre, Text(i.value), i.post, AheadItem(next, k - 1), Text(Elements(i)[k]) + AfterItem(i, k));
    }
  }

  lemma {:induction false} AroundItem(i: Items, k: nat, v: Tree)
    requires k < |Elements(i)|
    ensures k < |Elements(WithItem(i, k, v))| && Elements(WithItem(i, k, v))[k] == v
    ensures AheadItem(WithItem(i, k, v), k) == AheadItem(i, k) && AfterItem(WithItem(i, k, v), k) == AfterItem(i, k)
  {
    hide Text;
    if k > 0 { AroundItem(i.rest.next, k - 1, v); }
  }

  lemma ItemSite(i: Items, k: nat, v: Tree)
    requires k < |Elements(i)|
    ensures ItemsText(WithItem(i, k, v)) == AheadItem(i, k) + (Text(v) + AfterItem(i, k))
  {
    AroundItem(i, k, v);
    ItemText(WithItem(i, k, v), k);
  }

  lemma Nest(pre: string, v: string, post: string, ahead: string, rest: string)
    ensures pre + (v + (post + ("," + (ahead + rest)))) == (pre + (v + (post + ("," + ahead)))) + rest
  {
    Assoc(pre, v + (post + ("," + ahead)), rest);
    Assoc(v, post + ("," + ahead), rest);
    Assoc(post, "," + ahead, rest);
    Assoc(",", ahead, rest);
  }

  lemma {:induction false} WithItemKeeps(i: Items, k: nat, v: Tree)
    requires k < |Elements(i)|
    ensures Elements(WithItem(i, k, v)) == Elements(i)[k := v]
    ensures WfItems(i) ==> Wf(Elements(i)[k])
    ensures WfItems(i) && Wf(v) ==> WfItems(WithItem(i, k, v))
    ensures WithItem(i, k, Elements(i)[k]) == i
  {
    hide Wf;
    hide Trivia;
    if k > 0 { WithItemKeeps(i.rest.next, k - 1, v); }
  }

  // Any place.

  /** There is a value at the place. */
  predicate Within(t: Tree, s: Place)
    decreases s
  {
    match s
    case Here => true
    case InField(i, inner) => t.Object? && i < |Entries(t.fields)| && Within(Entries(t.fields)[i].1, inner)
    case InItem(k, inner) => t.Array? && k < |Elements(t.items)| && Within(Elements(t.items)[k], inner)
  }

  function At(t: Tree, s: Place): Tree
    requires Within(t, s)
    decreases s
  {
    match s
    case Here => t
    case InField(i, inner) => At(Entries(t.fields)[i].1, inner)
    case InItem(k, inner) => At(Elements(t.items)[k], inner)
  }

  /** The places of a tree: itself, and the places of its members' values and of its elements. */
  lemma PlacesAre(t: Tree)
    ensures Within(t, Here) && At(t, Here) == t
    ensures t.Object? ==> forall i, s :: 0 <= i < |Entries(t.fields)| && Within(Entries(t.fields)[i].1, s) ==>
              Within(t, InField(i, s)) && At(t, InField(i, s)) == At(Entries(t.fields)[i].1, s)
    ensures t.Array? ==> forall k, s :: 0 <= k < |Elements(t.items)| && Within(Elements(t.items)[k], s) ==>
              Within(t, InItem(k, s)) && At(t, InItem(k, s)) == At(Elements(t.items)[k], s)
  {
  }

  /** The tree with another value at the place. */
  function Put(t: Tree, s: Place, x: Tree): Tree
    requires Within(t, s)
    decreases s
  {
    match s
    case Here => x
    case InField(i, inner) => Object(WithValue(t.fields, i, Put(Entries(t.fields)[i].1, inner, x)))
    case InItem(k, inner) => Array(WithItem(t.items, k, Put(Elements(t.items)[k], inner, x)))
  }

  /** The text before the place and behind it. */
  function Before(t: Tree, s: Place): string
    requires Within(t, s)
    decreases s
  {
    match s
    case Here => ""
    case InField(i, inner) => "{" + (Ahead(t.fields, i) + Before(Entries(t.fields)[i].1, inner))
    case InItem(k, inner) => "[" + (AheadItem(t.items, k) + Before(Elements(t.items)[k], inner))
  }

  function Behind(t: Tree, s: Place): string
    requires Within(t, s)
    decreases s
  {
    match s
    case Here => ""
    case InField(i, inner) => Behind(Entries(t.fields)[i].1, inner) + After(t.fields, i, "")
    case InItem(k, inner) => Behind(Elements(t.items)[k], inner) + AfterItem(t.items, k)
  }

  lemma Frame(open: string, ahead: string, before: string, x: string, behind: string, after: string)
    ensures open + (ahead + ((before + (x + behind)) + after)) == (open + (ahead + before)) + (x + (behind + after))
  {
    Assoc(before, x + behind, after);
    Assoc(x, behind, after);
    Assoc(ahead, before, x + (behind + after));
    Assoc(open, ahead + before, x + (behind + after));
  }

  /** Only the text at the place changes. */
  lemma {:induction false} PutText(t: Tree, s: Place, x: Tree)
    requires Within(t, s)
    ensures Text(Put(t, s, x)) == Before(t, s) + (Text(x) + Behind(t, s))
    decreases s
  {
    hide Wf;
    match s
    case Here =>
    case InField(i, inner) =>
      var v := Entries(t.fields)[i].1;
      var y := Put(v, inner, x);
      PutText(v, inner, x);
      ValueSite(t.fields, i, y, "");
      Frame("{", Ahead(t.fields, i), Before(v, inner), Text(x), Behind(v, inner), After(t.fields, i, ""));
      assert FieldsText(WithValue(t.fields, i, y)) + "" == FieldsText(WithValue(t.fields, i, y));
    case InItem(k, inner) =>
      var v := Elements(t.items)[k];
      PutText(v, inner, x);
      ItemSite(t.items, k, Put(v, inner, x));
      Frame("[", AheadItem(t.items, k), Before(v, inner), Text(x), Behind(v, inner), AfterItem(t.items, k));
  }

  /** The tree stays well formed, has the new value at the place, and is the old one when that is put back. */
  lemma {:induction false} PutKeeps(t: Tree, s: Place, x: Tree)
    requires Within(t, s)
    ensures Wf(t) ==> Wf(At(t, s))
    ensures Wf(t) && Wf(x) ==> Wf(Put(t, s, x))
    ensures Within(Put(t, s, x), s) && At(Put(t, s, x), s) == x
    ensures Put(t, s, At(t, s)) == t
    decreases s
  {
    match s
    case Here =>
    case InField(i, inner) =>
      var v := Entries(t.fields)[i].1;
      PutKeeps(v, inner, x);
      WithValueKeeps(t.fields, i, Put(v, inner, x));
      WithValueKeeps(t.fields, i, v);
      if Wf(t) { EntryIsWf(t.fields, i); }
    case InItem(k, inner) =>
      var v := Elements(t.items)[k];
      PutKeeps(v, inner, x);
      WithItemKeeps(t.items, k, Put(v, inner, x));
  }

  /** A value put where another one was put before replaces it. */
  lemma {:induction false} PutAgain(t: Tree, s: Place, x: Tree, y: Tree)
    requires Within(t, s)
    ensures Within(Put(t, s, x), s) && Put(Put(t, s, x), s, y) == Put(t, s, y)
    decreases s
  {
    match s
    case Here =>
    case InField(i, inner) =>
      var v := Entries(t.fields)[i].1;
      PutAgain(v, inner, x, y);
      WithValueKeeps(t.fields, i, Put(v, inner, x));
      WithValueAgain(t.fields, i, Put(v, inner, x), Put(v, inner, y));
    case InItem(k, inner) =>
      var v := Elements(t.items)[k];
      PutAgain(v, inner, x, y);
      WithItemKeeps(t.items, k, Put(v, inner, x));
      WithItemAgain(t.items, k, Put(v, inner, x), Put(v, inner, y));
  }

  lemma {:induction false} WithItemAgain(i: Items, k: nat, v: Tree, w: Tree)
    requires k < |Elements(i)|
    ensures k < |Elements(WithItem(i, k, v))|
    ensures WithItem(WithItem(i, k, v), k, w) == WithItem(i, k, w)
  {
    if k > 0 { WithItemAgain(i.rest.next, k - 1, v, w); }
  }

  /** Neither place is inside the other. */
  predicate Disjoint(s: Place, s': Place)
    decreases s
  {
    match (s, s')
    case (InField(i, inner), InField(j, inner')) => i != j || Disjoint(inner, inner')
    case (InItem(k, inner), InItem(l, inner')) => k != l || Disjoint(inner, inner')
    case _ => false
  }

  /** Nothing changes anywhere else. */
  lemma {:induction false} ElsewhereStays(t: Tree, s: Place, s': Place, x: Tree)
    requires Within(t, s) && Within(t, s') && Disjoint(s, s')
    ensures Within(Put(t, s, x), s') && At(Put(t, s, x), s') == At(t, s')
    decreases s
  {
    match s
    case Here =>
    case InField(i, inner) =>
      var v := Entries(t.fields)[i].1;
      WithValueKeeps(t.fields, i, Put(v, inner, x));
      if s'.i == i { ElsewhereStays(v, inner, s'.inner, x); }
    case InItem(k, inner) =>
      var v := Elements(t.items)[k];
      WithItemKeeps(t.items, k, Put(v, inner, x));
      if s'.k == k { ElsewhereStays(v, inner, s'.inner, x); }
  }

  datatype Reached = Nowhere | Found(node: Node)

  /** The node the parser gives a value inside objects. Elements of arrays get none. */
  function Reach(n: Node, s: Place): (r: Reached)
    decreases s
  {
    match s
    case Here => Found(n)
    case InField(i, inner) => if i < |n.fields| then Reach(n.fields[i].value, inner) else Nowhere
    case InItem(_, _) => Nowhere
  }

  predicate InFields(s: Place) { s.Here? || (s.InField? && InFields(s.inner)) }

  lemma {:induction false} ReachIs(t: Tree, s: Place, at: nat)
    requires Within(t, s) && InFields(s)
    ensures Reach(NodeOf(t, at), s) == Found(NodeOf(At(t, s), at + |Before(t, s)|))
    decreases s
  {
    hide Members;
    hide Wf;
    if s.InField? {
      var v := Entries(t.fields)[s.i].1;
      MemberPlaces(t.fields, s.i, at + 1);
      ReachIs(v, s.inner, at + 1 + |Ahead(t.fields, s.i)|);
    }
  }

  // Whole documents.

  /** The document with another value at the place. */
  function Changed(d: Document, s: Place, x: Tree): Document
    requires Within(d.root, s)
  {
    Document(d.pre, Put(d.root, s, x), d.post)
  }

  /** An object in a document, with the text around it. */
  ghost predicate ObjectAt(raw: string, d: Document, s: Place, f: Fields) {
    ParseDocument(raw) == Good(d, "") && Within(d.root, s) && At(d.root, s) == Object(f)
  }

  lemma ChangedText(d: Document, s: Place, g: Fields)
    requires Within(d.root, s)
    ensures DocumentText(Changed(d, s, Object(g))) ==
            ((d.pre + Before(d.root, s)) + "{") + (FieldsText(g) + (Behind(d.root, s) + d.post))
  {
    PutText(d.root, s, Object(g));
    hide *;
    ObjectIsText(g);
    var b, x, h := Before(d.root, s), FieldsText(g), Behind(d.root, s);
    DocumentIs(Changed(d, s, Object(g)));
    ChangedIs(d, s, Object(g));
    Around(d.pre, b, x, h, d.post);
  }

  lemma ObjectIsText(g: Fields)
    ensures Text(Object(g)) == "{" + FieldsText(g)
  {
  }

  lemma DocumentIs(d: Document)
    ensures DocumentText(d) == d.pre + Text(d.root) + d.post
  {
  }

  lemma ChangedIs(d: Document, s: Place, x: Tree)
    requires Within(d.root, s)
    ensures Changed(d, s, x) == Document(d.pre, Put(d.root, s, x), d.post)
  {
  }

  lemma Around(pre: string, b: string, x: string, h: string, post: string)
    ensures pre + (b + (("{" + x) + h)) + post == ((pre + b) + "{") + (x + (h + post))
  {
    Assoc("{", x, h);
    Assoc(b, "{", x + h);
    Assoc(pre, b + "{", x + h);
    Assoc(pre, b, "{");
    Assoc((pre + b) + "{", x + h, post);
    Assoc(x, h, post);
  }

  /** Such an object stands where the editor needs it. */
  lemma ObjectStands(raw: string, d: Document, s: Place, f: Fields)
    requires ObjectAt(raw, d, s, f)
    ensures var before := d.pre + Before(d.root, s);
            Located(raw, NodeOf(Object(f), |before|), before, f, Behind(d.root, s) + d.post)
    ensures WfDocument(d) && WfFields(f)
  {
    DocumentRound(raw, d);
    PutKeeps(d.root, s, Object(f));
    ChangedText(d, s, f);
    hide DocumentText;
    hide Text;
    hide FieldsText;
    hide Before;
    hide Behind;
    hide ParseDocument;
  }

  lemma ChangedIsRead(d: Document, s: Place, g: Fields)
    requires WfDocument(d) && Within(d.root, s) && WfFields(g)
    ensures ParseDocument(DocumentText(Changed(d, s, Object(g)))) == Good(Changed(d, s, Object(g)), "")
  {
    PutKeeps(d.root, s, Object(g));
    DocumentRound(DocumentText(Changed(d, s, Object(g))), Changed(d, s, Object(g)));
  }

  /** Removing a member of any object of any document: what is written is read as the document without that member. */
  method RemoveAnywhere(raw: string, node: Node, index: nat, ghost d: Document, ghost s: Place, ghost f: Fields)
    returns (out: string)
    requires ObjectAt(raw, d, s, f) && node == NodeOf(Object(f), |d.pre + Before(d.root, s)|)
    requires index < |Entries(f)|
    ensures ParseDocument(out) == Good(Changed(d, s, Object(Removed(f, index))), "")
    ensures DocumentText(Changed(d, s, Object(Removed(f, index)))) == out
  {
    hide *;
    WithinIs(raw, d, s, f);
    ObjectStands(raw, d, s, f);
    RemovedKeeps(f, index);
    ChangedText(d, s, Removed(f, index));
    ChangedIsRead(d, s, Removed(f, index));
    ghost var before, more := d.pre + Before(d.root, s), Behind(d.root, s) + d.post;
    ObjectIs(raw, node, before, f, more);
    out := RemoveMember(raw, node, index, before, f, more);
  }

  /** Adding a member to any object of any document: what is written is read as the document with that member. */
  method InsertAnywhere(raw: string, node: Node, key: string, value: string, ghost d: Document, ghost s: Place,
                        ghost f: Fields, ghost v: Tree)
    returns (out: string)
    requires ObjectAt(raw, d, s, f) && node == NodeOf(Object(f), |d.pre + Before(d.root, s)|)
    requires Wf(v) && value == Text(v) && (Quoted(key) || Name(key))
    ensures ParseDocument(out) == Good(Changed(d, s, Object(Inserted(f, key, v, BreakOf(f)))), "")
    ensures DocumentText(Changed(d, s, Object(Inserted(f, key, v, BreakOf(f))))) == out
  {
    hide *;
    WithinIs(raw, d, s, f);
    ObjectStands(raw, d, s, f);
    BreakIsBreak(f);
    InsertedKeeps(f, key, v, BreakOf(f));
    ChangedText(d, s, Inserted(f, key, v, BreakOf(f)));
    ChangedIsRead(d, s, Inserted(f, key, v, BreakOf(f)));
    out := InsertMember(raw, node, key, value, d.pre + Before(d.root, s), f, Behind(d.root, s) + d.post, v);
  }

  /** A member added anywhere and removed again: the very same document when the object's closing brace stands on a line
      of its own, and otherwise one in which the object has the same members. */
  lemma AddedThenRemovedAnywhere(d: Document, s: Place, f: Fields, key: string, v: Tree)
    requires WfDocument(d) && Within(d.root, s) && At(d.root, s) == Object(f)
    requires Wf(v) && (Quoted(key) || Name(key))
    ensures var g := Inserted(f, key, v, BreakOf(f));
            && |Entries(f)| < |Entries(g)| && Within(Changed(d, s, Object(g)).root, s)
            && var back := Changed(Changed(d, s, Object(g)), s, Object(Removed(g, |Entries(f)|)));
            && back == Changed(d, s, Object(Removed(g, |Entries(f)|)))
            && Entries(Removed(g, |Entries(f)|)) == Entries(f)
            && (BraceAlone(f) ==> back == d)
  {
    PutKeeps(d.root, s, Object(f));
    BreakIsBreak(f);
    InsertedThenRemoved(f, key, v, BreakOf(f));
    var g := Inserted(f, key, v, BreakOf(f));
    PutAgain(d.root, s, Object(g), Object(Removed(g, |Entries(f)|)));
  }

  lemma WithinIs(raw: string, d: Document, s: Place, f: Fields)
    requires ObjectAt(raw, d, s, f)
    ensures Within(d.root, s)
  {
  }
}
