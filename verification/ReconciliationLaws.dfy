/** What every merge of subscriptions guarantees. */
module ReconciliationLaws {
  import opened Scenes
  import opened SourceLists
  import opened Subscriptions
  import opened Snapshots
  import opened Reconciliation

  /** A valid Store and a snapshot gathered for it. */
  ghost predicate Sane(m: Merge) {
    && ValidStore(m.st) && Proper(m)
    && Distinct(m.snap.subscriptions) && m.st.subscriptions <= m.snap.subscriptions
    && |m.snap.subscriptions| <= MAX_SUBSCRIPTIONS
    && (forall k, x :: Carries(m.snap, x, k) ==> x in m.snap.refreshing && x in m.snap.subscriptions)
    && m.snap.order != []
  }

  // Keepers: every identity in the Store has exactly one.

  lemma KeeperUnique(m: Merge, i: nat, j: nat)
    requires i < |m.st.nodes| && j < |m.st.nodes| && KeyAt(m, i) == KeyAt(m, j)
    requires Keeper(m, i) && Keeper(m, j)
    ensures i == j
  {
  }

  lemma {:induction false} BestBelow(m: Merge, k: Key, n: nat) returns (i: nat)
    requires n <= |m.st.nodes| && exists j :: 0 <= j < n && KeyAt(m, j) == k
    ensures i < n && KeyAt(m, i) == k
    ensures forall j :: 0 <= j < n && j != i && KeyAt(m, j) == k ==> Beats(m, i, j)
  {
    if forall j :: 0 <= j < n - 1 ==> KeyAt(m, j) != k {
      i := n - 1;
    } else {
      i := BestBelow(m, k, n - 1);
      if KeyAt(m, n - 1) == k && Beats(m, n - 1, i) { i := n - 1; }
    }
  }

  lemma {:induction false} LastPinnedBelow(m: Merge, k: Key, n: nat) returns (i: nat)
    requires n <= |m.st.nodes| && exists j :: 0 <= j < n && KeyAt(m, j) == k && Pinned(m, j)
    ensures i < n && KeyAt(m, i) == k && Pinned(m, i)
    ensures forall j :: i < j < n && KeyAt(m, j) == k ==> !Pinned(m, j)
  {
    if KeyAt(m, n - 1) == k && Pinned(m, n - 1) { i := n - 1; } else { i := LastPinnedBelow(m, k, n - 1); }
  }

  lemma KeeperExists(m: Merge, k: Key) returns (i: nat)
    requires Known(m, k)
    ensures i < |m.st.nodes| && KeyAt(m, i) == k && Keeper(m, i)
  {
    if exists j :: 0 <= j < |m.st.nodes| && KeyAt(m, j) == k && Pinned(m, j) {
      i := LastPinnedBelow(m, k, |m.st.nodes|);
    } else {
      i := BestBelow(m, k, |m.st.nodes|);
    }
  }

  // Which node keeps an identity.

  /** A selection rests on the node: the default's, a scene's own, or the one a scene falls back to. */
  ghost predicate InUse(st: Store, id: Id) {
    || id == st.defaultId
    || (exists s :: s in st.sceneNodes && st.sceneNodes[s] == id)
    || (exists s: Scene :: id == SelectedId(st, s))
  }

  lemma SelectedIs(st: Store, id: Id)
    ensures id in Selected(st) <==> InUse(st, id)
  {
    if exists s: Scene :: id == SelectedId(st, s) {
      var s: Scene :| id == SelectedId(st, s);
      match s case Global => case Dev => case Telegram =>
    }
  }

  /** The node a scene uses: its own if there is one, otherwise the default one, otherwise the first. */
  lemma SelectedIdIs(st: Store, s: Scene)
    ensures var own, id := (if s in st.sceneNodes then st.sceneNodes[s] else 0), SelectedId(st, s);
            && (own != 0 && HasId(st.nodes, own) ==> id == own)
            && (!(own != 0 && HasId(st.nodes, own)) && st.defaultId != 0 && HasId(st.nodes, st.defaultId) ==>
                  id == st.defaultId)
            && (!(own != 0 && HasId(st.nodes, own)) && !(st.defaultId != 0 && HasId(st.nodes, st.defaultId)) ==>
                  id == if st.nodes == [] then 0 else st.nodes[0].id)
  {
  }

  /** Node i comes before node j: one in use before others, of these an unmanaged one before managed ones, and the
      earlier one among equals. */
  ghost predicate Before(st: Store, i: nat, j: nat)
    requires i < |st.nodes| && j < |st.nodes|
  {
    var p, q := st.nodes[i], st.nodes[j];
    if InUse(st, p.id) != InUse(st, q.id) then InUse(st, p.id)
    else if !InUse(st, p.id) && p.managed != q.managed then q.managed
    else i < j
  }

  /** A link's name, or one made from its protocol. */
  lemma NameOfLink(u: Url)
    ensures |u.name| > 0 ==> DisplayName(u) == u.name
    ensures |u.name| == 0 ==> DisplayName(u) == u.key.protocol + "-node"
  {
  }

  /** A node changes its link only as a managed keeper of a wanted identity, and its name only with the link and only if
      that was the old link's name. */
  lemma RefreshedWhen(m: Merge, i: nat)
    requires i < |m.st.nodes|
    ensures var n, r, k := m.st.nodes[i], Refreshed(m, i), KeyAt(m, i);
            && r.id == n.id && r.protocol == n.protocol && r.managed == n.managed
            && (if n.managed && Keeper(m, i) && k in m.snap.desired && m.snap.desired[k] != n.url then
                  && r.url == m.snap.desired[k]
                  && r.name == (if k.Config? && n.name == DisplayName(n.url) then DisplayName(r.url) else n.name)
                else r.url == n.url && r.name == n.name)
  {
  }

  /** Without a pinned node the keeper is the first in that order. */
  lemma KeeperIs(m: Merge, i: nat)
    requires i < |m.st.nodes|
    requires forall j :: 0 <= j < |m.st.nodes| && KeyAt(m, j) == KeyAt(m, i) ==> !Pinned(m, j)
    ensures Keeper(m, i) <==>
              forall j :: 0 <= j < |m.st.nodes| && j != i && KeyAt(m, j) == KeyAt(m, i) ==> Before(m.st, i, j)
  {
    hide Selected;
    hide InUse;
    forall j | 0 <= j < |m.st.nodes| && j != i ensures Beats(m, i, j) <==> Before(m.st, i, j) {
      SelectedIs(m.st, m.st.nodes[i].id);
      SelectedIs(m.st, m.st.nodes[j].id);
    }
  }

  /** With one, it is the last that must stay and already has the fresh link. */
  lemma PinnedKeeperIs(m: Merge, i: nat)
    requires i < |m.st.nodes|
    requires exists j :: 0 <= j < |m.st.nodes| && KeyAt(m, j) == KeyAt(m, i) && Pinned(m, j)
    ensures Keeper(m, i) <==>
              Pinned(m, i) && forall j :: i < j < |m.st.nodes| && KeyAt(m, j) == KeyAt(m, i) ==> !Pinned(m, j)
  {
  }

  /** A node in use of a wanted identity leaves only for another node in use or a pinned one. */
  lemma InUseLeaves(m: Merge, i: nat) returns (j: nat)
    requires Sane(m) && i < |m.st.nodes| && InUse(m.st, m.st.nodes[i].id)
    requires KeyAt(m, i) in m.snap.desired && Dropped(m, i)
    ensures j < |m.st.nodes| && j != i && KeyAt(m, j) == KeyAt(m, i) && Keeper(m, j) && !Dropped(m, j)
    ensures Pinned(m, j) || InUse(m.st, m.st.nodes[j].id)
  {
    hide InUse;
    j := KeeperExists(m, KeyAt(m, i));
    DroppedWhen(m, i);
    DroppedWhen(m, j);
    if forall k :: 0 <= k < |m.st.nodes| && KeyAt(m, k) == KeyAt(m, j) ==> !Pinned(m, k) {
      KeeperIs(m, j);
      assert Before(m.st, j, i);
    }
  }

  /** Membership after the merge, source by source. */
  lemma MembersAre(m: Merge, i: nat)
    requires Sane(m) && i < |m.st.nodes|
    ensures Distinct(Members(m, i))
    ensures forall x :: x in Members(m, i) <==>
              (x in m.st.nodes[i].sources && x !in m.snap.refreshing)
                  || (Keeper(m, i) && Carries(m.snap, x, KeyAt(m, i)))
  {
    assert ValidNode(m.st.nodes[i], m.st.subscriptions);
    forall x ensures x in Brought(m, i) <==> Keeper(m, i) && Carries(m.snap, x, KeyAt(m, i)) {}
    ReplacedHolds(m.st.nodes[i].sources, m.snap.refreshing, Brought(m, i));
  }

  /** The keeper of a wanted identity stays. */
  lemma KeeperSurvives(m: Merge, i: nat)
    requires Sane(m) && i < |m.st.nodes| && Keeper(m, i) && KeyAt(m, i) in m.snap.desired
    ensures !Dropped(m, i)
  {
  }

  /** A node leaves exactly when it is managed, no unrefreshed source carries it and it is not the keeper of a wanted
      identity. */
  lemma DroppedWhen(m: Merge, i: nat)
    requires Sane(m) && i < |m.st.nodes|
    ensures Dropped(m, i) <==>
            !MustKeep(m.st.nodes[i], m.snap.refreshing) && !(Keeper(m, i) && KeyAt(m, i) in m.snap.desired)
  {
    MembersAre(m, i);
    if Keeper(m, i) && KeyAt(m, i) in m.snap.desired { KeeperSurvives(m, i); }
    if !Dropped(m, i) && m.st.nodes[i].managed { assert Members(m, i)[0] in Members(m, i); }
  }

  // The nodes after the merge.

  lemma NodesSize(m: Merge, ids: seq<Id>)
    requires Proper(m) && |ids| == |Coming(m)|
    ensures |Nodes(m, ids)| == |Staying(m)| + |ids|
  {
    KeptFacts(m, |m.st.nodes|);
  }

  lemma StayingAt(m: Merge, a: nat, b: nat)
    requires a < b < |Staying(m)|
    ensures Staying(m)[a] < Staying(m)[b]
  {
    KeptFacts(m, |m.st.nodes|);
  }

  lemma StayingHas(m: Merge, i: nat) returns (a: nat)
    requires i < |m.st.nodes| && !Dropped(m, i)
    ensures a < |Staying(m)| && Staying(m)[a] == i
  {
    KeptFacts(m, |m.st.nodes|);
    a :| 0 <= a < |Staying(m)| && Staying(m)[a] == i;
  }

  /** The survivor at place a: what it was and what it keeps. */
  lemma OldAt(m: Merge, ids: seq<Id>, a: nat) returns (i: nat)
    requires Sane(m) && |ids| == |Coming(m)| && a < |Staying(m)|
    ensures i == Staying(m)[a] && i < |m.st.nodes| && !Dropped(m, i)
    ensures a < |Nodes(m, ids)| && Nodes(m, ids)[a] == Refreshed(m, i)
    ensures var n, r := m.st.nodes[i], Nodes(m, ids)[a];
            r.id == n.id && r.managed == n.managed && r.url.key == n.url.key && r.sources == Members(m, i)
  {
    hide Dropped;
    KeptFacts(m, |m.st.nodes|);
    i := Staying(m)[a];
    RefreshedKeeps(m, i);
  }

  /** The added node at place a. */
  lemma NewAt(m: Merge, ids: seq<Id>, a: nat)
    requires Sane(m) && |ids| == |Coming(m)| && |Staying(m)| <= a < |Nodes(m, ids)|
    ensures a - |Staying(m)| < |ids|
    ensures var k, r := Coming(m)[a - |Staying(m)|], Nodes(m, ids)[a];
            && !Known(m, k) && k in m.snap.desired && k in m.snap.order
            && r == Added(m, k, ids[a - |Staying(m)|])
            && r.id == ids[a - |Staying(m)|] && r.url == m.snap.desired[k] && r.url.key == k
            && r.protocol == k.protocol && r.managed
            && Distinct(r.sources) && forall x :: x in r.sources <==> Carries(m.snap, x, k)
  {
    hide *;
    SaneParts(m);
    AdditionAt(m, ids, a);
    AddedIs(m, Coming(m)[a - |Staying(m)|], ids[a - |Staying(m)|]);
  }

  lemma SaneParts(m: Merge)
    requires Sane(m)
    ensures ValidStore(m.st) && Proper(m)
  {
  }

  lemma AdditionAt(m: Merge, ids: seq<Id>, a: nat)
    requires Proper(m) && |ids| == |Coming(m)| && |Staying(m)| <= a < |Nodes(m, ids)|
    ensures a - |Staying(m)| < |ids| && Coming(m)[a - |Staying(m)|] in Coming(m)
    ensures Nodes(m, ids)[a] == Added(m, Coming(m)[a - |Staying(m)|], ids[a - |Staying(m)|])
  {
    hide Proper;
    hide Added;
    hide Refreshed;
    hide Dropped;
    KeptFacts(m, |m.st.nodes|);
  }

  /** What a surviving node keeps. */
  lemma RefreshedKeeps(m: Merge, i: nat)
    requires Sane(m) && i < |m.st.nodes|
    ensures var n, r := m.st.nodes[i], Refreshed(m, i);
            && r.id == n.id && r.managed == n.managed && r.protocol == n.protocol && r.url.key == n.url.key
            && r.sources == Members(m, i)
            && (r.url != n.url ==> Keeper(m, i))
            && (Keeper(m, i) && r.managed && r.url.key in m.snap.desired ==> r.url == m.snap.desired[r.url.key])
  {
  }

  lemma AddedIs(m: Merge, k: Key, id: Id)
    requires Proper(m) && k in Coming(m)
    ensures !Known(m, k) && k in m.snap.desired && k in m.snap.carriers && k in m.snap.order
    ensures var n := Added(m, k, id);
            n.id == id && n.url == m.snap.desired[k] && n.url.key == k && n.protocol == k.protocol && n.managed
    ensures forall x :: x in Added(m, k, id).sources <==> Carries(m.snap, x, k)
    ensures Distinct(Added(m, k, id).sources)
  {
    NewKeysFacts(m, |m.snap.order|);
    var c := m.snap.carriers[k];
    DistinctByCount(c);
    DistinctByCount(Sort(c));
    forall x ensures x in Sort(c) <==>
        x in c { assert x in Sort(c) <==> x in multiset(Sort(c)); assert x in c <==> x in multiset(c); }
  }

  /** Links are distinct, so at most one node is pinned. */
  lemma PinnedIsKeeper(m: Merge, i: nat)
    requires Sane(m) && i < |m.st.nodes| && Pinned(m, i)
    ensures Keeper(m, i)
  {
  }

  /** A keeper that takes the chosen link never takes one another survivor has. */
  lemma TakenLinkIsFree(m: Merge, i: nat, j: nat)
    requires Sane(m) && i < |m.st.nodes| && j < |m.st.nodes| && i != j && Keeper(m, i) && !Dropped(m, j)
    requires KeyAt(m, i) in m.snap.desired
    ensures m.st.nodes[j].url != m.snap.desired[KeyAt(m, i)]
  {
    DroppedWhen(m, j);
    if Keeper(m, j) && KeyAt(m, j) == KeyAt(m, i) { KeeperUnique(m, i, j); }
    if Pinned(m, j) { PinnedIsKeeper(m, j); }
  }

  lemma SurvivorUrlsDiffer(m: Merge, i: nat, j: nat)
    requires Sane(m) && i < |m.st.nodes| && j < |m.st.nodes| && i != j && !Dropped(m, i) && !Dropped(m, j)
    ensures Refreshed(m, i).url != Refreshed(m, j).url
  {
    RefreshedKeeps(m, i);
    RefreshedKeeps(m, j);
    assert m.st.nodes[i].url != m.st.nodes[j].url;
    if KeyAt(m, i) == KeyAt(m, j) {
      if Keeper(m, i) && Keeper(m, j) { KeeperUnique(m, i, j); }
      if Keeper(m, i) && KeyAt(m, i) in m.snap.desired { TakenLinkIsFree(m, i, j); }
      if Keeper(m, j) && KeyAt(m, j) in m.snap.desired { TakenLinkIsFree(m, j, i); }
    }
  }

  lemma UrlsStayDistinct(m: Merge, ids: seq<Id>)
    requires Sane(m) && GoodIds(m, ids)
    ensures DistinctUrls(Nodes(m, ids))
  {
    forall a, b | 0 <= a < b < |Nodes(m, ids)| ensures Nodes(m, ids)[a].url != Nodes(m, ids)[b].url {
      UrlsDiffer(m, ids, a, b);
    }
  }

  lemma UrlsDiffer(m: Merge, ids: seq<Id>, a: nat, b: nat)
    requires Sane(m) && GoodIds(m, ids) && a < b < |Nodes(m, ids)|
    ensures Nodes(m, ids)[a].url != Nodes(m, ids)[b].url
  {
    hide Proper;
    hide Dropped;
    hide Refreshed;
    hide Added;
    hide Nodes;
    hide ValidStore;
    hide Carries;
    if b < |Staying(m)| {
      var i := OldAt(m, ids, a);
      var j := OldAt(m, ids, b);
      StayingAt(m, a, b);
      SurvivorUrlsDiffer(m, i, j);
    } else {
      NewAt(m, ids, b);
      if a < |Staying(m)| {
        var i := OldAt(m, ids, a);
        assert KeyAt(m, i) == Nodes(m, ids)[a].url.key;
      } else {
        NewAt(m, ids, a);
        ComingDiffer(m, a - |Staying(m)|, b - |Staying(m)|);
      }
    }
  }

  lemma ComingDiffer(m: Merge, a: nat, b: nat)
    requires Proper(m) && a < b < |Coming(m)|
    ensures Coming(m)[a] != Coming(m)[b]
  {
    NewKeysFacts(m, |m.snap.order|);
  }

  lemma IdsStayDistinct(m: Merge, ids: seq<Id>)
    requires Sane(m) && GoodIds(m, ids)
    ensures DistinctIds(Nodes(m, ids))
  {
    forall a, b | 0 <= a < b < |Nodes(m, ids)| ensures Nodes(m, ids)[a].id != Nodes(m, ids)[b].id {
      IdsDiffer(m, ids, a, b);
    }
  }

  lemma IdsDiffer(m: Merge, ids: seq<Id>, a: nat, b: nat)
    requires Sane(m) && GoodIds(m, ids) && a < b < |Nodes(m, ids)|
    ensures Nodes(m, ids)[a].id != Nodes(m, ids)[b].id
  {
    hide Dropped;
    hide Refreshed;
    hide Added;
    hide Nodes;
    hide Proper;
    if b < |Staying(m)| {
      var i := OldAt(m, ids, a);
      var j := OldAt(m, ids, b);
      StayingAt(m, a, b);
    } else {
      NewAt(m, ids, b);
      if a < |Staying(m)| {
        var i := OldAt(m, ids, a);
      } else {
        NewAt(m, ids, a);
      }
    }
  }

  lemma NodeStaysValid(m: Merge, ids: seq<Id>, a: nat)
    requires Sane(m) && GoodIds(m, ids) && a < |Nodes(m, ids)|
    ensures ValidNode(Nodes(m, ids)[a], m.snap.subscriptions)
  {
    if a < |Staying(m)| {
      OldStaysValid(m, ids, a);
    } else {
      NewIsValid(m, ids, a);
    }
  }

  lemma OldStaysValid(m: Merge, ids: seq<Id>, a: nat)
    requires Sane(m) && GoodIds(m, ids) && a < |Staying(m)| && a < |Nodes(m, ids)|
    ensures ValidNode(Nodes(m, ids)[a], m.snap.subscriptions)
  {
    hide Dropped;
    hide Added;
    hide Nodes;
    hide Proper;
    hide Staying;
    var i := OldAt(m, ids, a);
    RefreshedKeeps(m, i);
    MembersAre(m, i);
    assert ValidNode(m.st.nodes[i], m.st.subscriptions);
    DistinctFits(Nodes(m, ids)[a].sources, m.snap.subscriptions);
  }

  lemma NewIsValid(m: Merge, ids: seq<Id>, a: nat)
    requires Sane(m) && GoodIds(m, ids) && |Staying(m)| <= a < |Nodes(m, ids)|
    ensures ValidNode(Nodes(m, ids)[a], m.snap.subscriptions)
  {
    hide Dropped;
    hide Added;
    hide Nodes;
    hide Staying;
    NewAt(m, ids, a);
    DistinctFits(Nodes(m, ids)[a].sources, m.snap.subscriptions);
  }
}
