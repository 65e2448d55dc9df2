/** What merging downloaded subscriptions makes of a Store. */
module Reconciliation {
  import opened Scenes
  import opened SourceLists
  import opened Subscriptions
  import opened Snapshots

  /** One merge: the Store before it and what the downloads ask for. */
  datatype Merge = Merge(st: Store, snap: Snapshot)

  function KeyAt(m: Merge, i: nat): Key
    requires i < |m.st.nodes|
  {
    m.st.nodes[i].url.key
  }

  /** Nodes a selection rests on. */
  function Selected(st: Store): set<Id> {
    {st.defaultId} + st.sceneNodes.Values + {SelectedId(st, Global), SelectedId(st, Dev), SelectedId(st, Telegram)}
  }

  function Priority(n: Node, selected: set<Id>): nat {
    if n.id in selected then 2 else if !n.managed then 1 else 0
  }

  /** The node stays whatever the refreshed sources say. */
  predicate MustKeep(n: Node, refreshing: set<Source>) {
    !n.managed || exists s :: s in n.sources && s !in refreshing
  }

  ghost predicate Pinned(m: Merge, i: nat)
    requires i < |m.st.nodes|
  {
    && KeyAt(m, i) in m.snap.desired
    && m.st.nodes[i].url == m.snap.desired[KeyAt(m, i)]
    && MustKeep(m.st.nodes[i], m.snap.refreshing)
  }

  ghost predicate LastPinned(m: Merge, i: nat)
    requires i < |m.st.nodes|
  {
    Pinned(m, i) && forall j :: i < j < |m.st.nodes| && KeyAt(m, j) == KeyAt(m, i) ==> !Pinned(m, j)
  }

  /** Higher priority wins, then the earlier place. */
  ghost predicate Beats(m: Merge, i: nat, j: nat)
    requires i < |m.st.nodes| && j < |m.st.nodes|
  {
    var p, q := Priority(m.st.nodes[i], Selected(m.st)), Priority(m.st.nodes[j], Selected(m.st));
    p > q || (p == q && i < j)
  }

  ghost predicate Best(m: Merge, i: nat)
    requires i < |m.st.nodes|
  {
    forall j :: 0 <= j < |m.st.nodes| && j != i && KeyAt(m, j) == KeyAt(m, i) ==> Beats(m, i, j)
  }

  /** The one node of its identity that carries the refreshed sources: a node that must stay and already
      has the chosen link, otherwise the best. */
  ghost predicate Keeper(m: Merge, i: nat)
    requires i < |m.st.nodes|
  {
    LastPinned(m, i)
        || (Best(m, i) && forall j :: 0 <= j < |m.st.nodes| && KeyAt(m, j) == KeyAt(m, i) ==> !Pinned(m, j))
  }

  /** The refreshed sources a keeper carries. */
  ghost function Brought(m: Merge, i: nat): seq<Source>
    requires i < |m.st.nodes|
  {
    if Keeper(m, i) && KeyAt(m, i) in m.snap.carriers then m.snap.carriers[KeyAt(m, i)] else []
  }

  ghost function Members(m: Merge, i: nat): seq<Source>
    requires i < |m.st.nodes|
  {
    Replaced(m.st.nodes[i].sources, m.snap.refreshing, Brought(m, i))
  }

  ghost predicate Dropped(m: Merge, i: nat)
    requires i < |m.st.nodes|
  {
    m.st.nodes[i].managed && Members(m, i) == []
  }

  /** The name a node gets from its link. */
  function DisplayName(u: Url): string {
    if u.name != "" then u.name else u.key.protocol + "-node"
  }

  /** A node as it survives. */
  ghost function Refreshed(m: Merge, i: nat): Node
    requires i < |m.st.nodes|
  {
    var n := m.st.nodes[i].(sources := Members(m, i));
    var k := KeyAt(m, i);
    if k in m.snap.desired && Keeper(m, i) && n.managed && n.url != m.snap.desired[k] then
      n.(url := m.snap.desired[k],
         name := if k.Config? && n.name == DisplayName(n.url) then DisplayName(m.snap.desired[k]) else n.name)
    else n
  }

  /** The places that survive among the first n. */
  ghost function Kept(m: Merge, n: nat): seq<nat>
    requires n <= |m.st.nodes|
  {
    if n == 0 then [] else Kept(m, n - 1) + if Dropped(m, n - 1) then [] else [n - 1]
  }

  ghost predicate Known(m: Merge, k: Key) {
    exists i :: 0 <= i < |m.st.nodes| && KeyAt(m, i) == k
  }

  /** The identities among the first n arrivals that no node has. */
  ghost function NewKeys(m: Merge, n: nat): seq<Key>
    requires n <= |m.snap.order|
  {
    if n == 0 then [] else NewKeys(m, n - 1) + if Known(m, m.snap.order[n - 1]) then [] else [m.snap.order[n - 1]]
  }

  /** The places that survive. */
  ghost function Staying(m: Merge): seq<nat> { Kept(m, |m.st.nodes|) }

  /** The identities that get a new node. */
  ghost function Coming(m: Merge): seq<Key> { NewKeys(m, |m.snap.order|) }

  ghost function Added(m: Merge, k: Key, id: Id): Node
    requires Proper(m) && k in Coming(m)
  {
    NewKeysFacts(m, |m.snap.order|);
    var u := m.snap.desired[k];
    Node(id, DisplayName(u), u.key.protocol, u, Sort(m.snap.carriers[k]), true)
  }

  /** Identifiers given to added nodes are new. */
  ghost predicate GoodIds(m: Merge, ids: seq<Id>) {
    && |ids| == |Coming(m)|
    && Distinct(ids)
    && forall j :: 0 <= j < |ids| ==> ids[j] != 0 && !HasId(m.st.nodes, ids[j])
  }

  ghost predicate Proper(m: Merge) {
    Tidy(m.snap)
  }

  ghost function Survivors(m: Merge, n: nat): seq<Node>
    requires n <= |m.st.nodes|
  {
    if n == 0 then [] else Survivors(m, n - 1) + if Dropped(m, n - 1) then [] else [Refreshed(m, n - 1)]
  }

  ghost function Additions(m: Merge, ids: seq<Id>): (r: seq<Node>)
    requires Proper(m) && |ids| == |Coming(m)|
  {
    seq(|ids|, j requires 0 <= j < |ids| => Added(m, Coming(m)[j], ids[j]))
  }

  ghost function Nodes(m: Merge, ids: seq<Id>): seq<Node>
    requires Proper(m) && |ids| == |Coming(m)|
  {
    Survivors(m, |m.st.nodes|) + Additions(m, ids)
  }

  lemma {:induction false} KeptFacts(m: Merge, n: nat)
    requires n <= |m.st.nodes|
    ensures forall a, b :: 0 <= a < b < |Kept(m, n)| ==> Kept(m, n)[a] < Kept(m, n)[b]
    ensures forall a :: 0 <= a < |Kept(m, n)| ==> Kept(m, n)[a] < n && !Dropped(m, Kept(m, n)[a])
    ensures forall i :: 0 <= i < n && !Dropped(m, i) ==> i in Kept(m, n)
    ensures |Survivors(m, n)| == |Kept(m, n)|
    ensures forall a :: 0 <= a < |Kept(m, n)| ==> Survivors(m, n)[a] == Refreshed(m, Kept(m, n)[a])
  {
    hide Dropped;
    hide Refreshed;
    if n > 0 { KeptFacts(m, n - 1); }
  }

  lemma {:induction false} NewKeysFacts(m: Merge, n: nat)
    requires Proper(m) && n <= |m.snap.order|
    ensures Distinct(NewKeys(m, n))
    ensures forall k :: k in NewKeys(m, n) <==> k in m.snap.order[..n] && !Known(m, k)
    ensures forall k :: k in NewKeys(m, n) ==> k in m.snap.desired && k in m.snap.carriers
  {
    if n > 0 {
      NewKeysFacts(m, n - 1);
      hide Known;
      assert m.snap.order[..n] == m.snap.order[..n - 1] + [m.snap.order[n - 1]];
      assert m.snap.order[n - 1] !in m.snap.order[..n - 1];
      assert m.snap.order[n - 1] in m.snap.order;
    }
  }

  /** The identifier that now stands for an identity among the first n places, 0 when none does. */
  ghost function Holder(m: Merge, n: nat, k: Key): Id
    requires n <= |m.st.nodes|
  {
    if n == 0 then 0
    else
      var id := Holder(m, n - 1, k);
      if !Dropped(m, n - 1) && KeyAt(m, n - 1) == k && (id == 0 || Keeper(m, n - 1)) then m.st.nodes[n - 1].id else id
  }

  ghost function Current(m: Merge, ids: seq<Id>, n: nat, k: Key): Id
    requires |ids| == |Coming(m)| && n <= |ids|
  {
    if n == 0 then Holder(m, |m.st.nodes|, k)
    else if Coming(m)[n - 1] == k then ids[n - 1]
    else Current(m, ids, n - 1, k)
  }

  ghost function Now(m: Merge, ids: seq<Id>, k: Key): Id
    requires |ids| == |Coming(m)|
  {
    Current(m, ids, |ids|, k)
  }

  /** The node that stands for the first entry of a source's download. */
  ghost function Leading(m: Merge, ids: seq<Id>, batch: seq<Download>, x: Source): Id
    requires |ids| == |Coming(m)|
    requires forall i :: 0 <= i < |batch| ==> batch[i].nodes != []
  {
    if batch == [] then 0
    else if batch[|batch| - 1].source == x then Now(m, ids, batch[|batch| - 1].nodes[0].url.key)
    else Leading(m, ids, batch[..|batch| - 1], x)
  }

  /** The first of these sources the node came from that still leads somewhere. */
  ghost function FromSources(m: Merge, ids: seq<Id>, batch: seq<Download>, gone: Node, from: seq<Source>): Id
    requires |ids| == |Coming(m)|
    requires forall i :: 0 <= i < |batch| ==> batch[i].nodes != []
  {
    if from == [] then 0
    else if from[0] in gone.sources && Leading(m, ids, batch, from[0]) != 0 then Leading(m, ids, batch, from[0])
    else FromSources(m, ids, batch, gone, from[1..])
  }

  /** What takes over from a removed node. */
  ghost function Successor(m: Merge, ids: seq<Id>, batch: seq<Download>, gone: Node): Id
    requires |ids| == |Coming(m)|
    requires forall i :: 0 <= i < |batch| ==> batch[i].nodes != []
  {
    if Now(m, ids, gone.url.key) != 0 then Now(m, ids, gone.url.key)
    else if FromSources(m, ids, batch, gone, m.snap.subscriptions) != 0
        then FromSources(m, ids, batch, gone, m.snap.subscriptions)
    else if m.snap.order != [] then Now(m, ids, m.snap.order[0])
    else 0
  }

  ghost function Removed(m: Merge): set<Id> {
    set i | 0 <= i < |m.st.nodes| && Dropped(m, i) :: m.st.nodes[i].id
  }

  /** Where a selection of this identifier goes. */
  ghost function Follow(m: Merge, ids: seq<Id>, batch: seq<Download>, id: Id): Id
    requires |ids| == |Coming(m)|
    requires forall i :: 0 <= i < |batch| ==> batch[i].nodes != []
  {
    if id in Removed(m) then
      assert HasId(m.st.nodes, id);
      Successor(m, ids, batch, m.st.nodes[FindIndex(m.st.nodes, id)])
    else id
  }

  ghost function NewDefault(m: Merge, ids: seq<Id>, batch: seq<Download>): Id
    requires Proper(m) && |ids| == |Coming(m)|
    requires forall i :: 0 <= i < |batch| ==> batch[i].nodes != []
  {
    var was := if HasId(m.st.nodes, m.st.defaultId) then m.st.defaultId else FirstId(m.st.nodes);
    if was in Removed(m) then Follow(m, ids, batch, was)
    else if m.st.nodes == [] && Nodes(m, ids) != [] then Nodes(m, ids)[0].id
    else m.st.defaultId
  }

  ghost function Merged(m: Merge, ids: seq<Id>, batch: seq<Download>): Store
    requires Proper(m) && |ids| == |Coming(m)|
    requires forall i :: 0 <= i < |batch| ==> batch[i].nodes != []
  {
    Store(Nodes(m, ids), NewDefault(m, ids, batch),
          map s | s in m.st.sceneNodes :: Follow(m, ids, batch, m.st.sceneNodes[s]),
          m.st.enabled, m.snap.subscriptions, m.st.speed - Removed(m))
  }

  ghost function MergeOf(st: Store, batch: seq<Download>): (m: Merge)
    ensures Proper(m)
  {
    GatherKeepsTidy(st.subscriptions, batch);
    Merge(st, Gather(st.subscriptions, batch))
  }

  /** The merge is allowed. */
  ghost predicate Permitted(st: Store, batch: seq<Download>) {
    && Acceptable(st.subscriptions, batch)
    && var m := MergeOf(st, batch);
       |Staying(m)| + |Coming(m)| <= MAX_NODES
  }

  /** The Store st becomes when the batch is merged and added nodes get these identifiers. */
  ghost predicate Becomes(st: Store, batch: seq<Download>, ids: seq<Id>, st': Store) {
    && Permitted(st, batch)
    && GoodIds(MergeOf(st, batch), ids)
    && st' == Merged(MergeOf(st, batch), ids, batch)
  }
}
