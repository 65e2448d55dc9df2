/** The main results about merging subscriptions: the Store stays valid, the refreshed sources are
    replaced exactly, selections follow their nodes, and a second merge changes nothing. */
module MergeLaws {
  import opened Scenes
  import opened SourceLists
  import opened Subscriptions
  import opened Snapshots
  import opened Reconciliation
  import opened ReconciliationLaws
  import opened SelectionLaws

  lemma GatheredIsSane(st: Store, batch: seq<Download>)
    requires ValidStore(st) && Acceptable(st.subscriptions, batch) && batch != []
    ensures Sane(MergeOf(st, batch)) && Wanted(MergeOf(st, batch), batch)
  {
    var m := MergeOf(st, batch);
    GatherSubscriptions(st.subscriptions, batch);
    forall k, x | Carries(m.snap, x, k) ensures x in m.snap.refreshing && x in m.snap.subscriptions {
      GatherCarries(st.subscriptions, batch, x, k);
      GatherRefreshes(st.subscriptions, batch, x);
    }
    forall i | 0 <= i < |batch| ensures batch[i].nodes != [] && batch[i].nodes[0].url.key in m.snap.desired {
      var k := batch[i].nodes[0].url.key;
      assert Mentions(batch[i].nodes, k);
      GatherCarries(st.subscriptions, batch, batch[i].source, k);
    }
    assert batch[0].nodes[0].url.key in m.snap.order;
  }

  lemma NothingRemoved(m: Merge)
    requires m.st.nodes == []
    ensures Removed(m) == {}
  {
  }

  lemma SelectionsResolve(m: Merge, ids: seq<Id>, batch: seq<Download>)
    requires Sane(m) && GoodIds(m, ids) && Wanted(m, batch)
    ensures var nodes := Nodes(m, ids);
            && (NewDefault(m, ids, batch) == 0 || HasId(nodes, NewDefault(m, ids, batch)))
            && (forall s :: s in m.st.sceneNodes ==> HasId(nodes, Follow(m, ids, batch, m.st.sceneNodes[s])))
            && (forall id :: id in m.st.speed && id !in Removed(m) ==> HasId(nodes, id))
  {
    hide Dropped;
    hide Nodes;
    hide Follow;
    hide Removed;
    forall id | HasId(m.st.nodes, id)
      ensures HasId(Nodes(m, ids), Follow(m, ids, batch, id)) && (id !in Removed(m) ==> Follow(m, ids, batch, id) == id)
    {
      var i :| 0 <= i < |m.st.nodes| && m.st.nodes[i].id == id;
      RemovedIs(m, i);
      FollowIs(m, ids, batch, i);
    }
    if m.st.nodes != [] { assert HasId(m.st.nodes, m.st.nodes[0].id); } else { NothingRemoved(m); }
    if Nodes(m, ids) != [] { assert HasId(Nodes(m, ids), Nodes(m, ids)[0].id); }
  }

  /** A merge of nonempty downloads into a valid Store leaves a valid Store. */
  lemma ValidPreserved(st: Store, batch: seq<Download>, ids: seq<Id>, st': Store)
    requires ValidStore(st) && batch != [] && Becomes(st, batch, ids, st')
    ensures ValidStore(st')
  {
    var m := MergeOf(st, batch);
    GatheredIsSane(st, batch);
    UrlsStayDistinct(m, ids);
    IdsStayDistinct(m, ids);
    forall a | 0 <= a < |st'.nodes| ensures ValidNode(st'.nodes[a], st'.subscriptions) { NodeStaysValid(m, ids, a); }
    SelectionsResolve(m, ids, batch);
    NodesSize(m, ids);
    assert m.snap.order[0] in m.snap.desired;
    var a := WantedIsCarried(m, ids, m.snap.order[0]);
  }

  // Exact replacement.

  /** Exactly one node of this identity carries the source. */
  ghost predicate CarriedOnce(nodes: seq<Node>, x: Source, k: Key) {
    exists a ::
      && 0 <= a < |nodes| && CarriesAt(nodes, a, x, k)
      && forall b :: 0 <= b < |nodes| && CarriesAt(nodes, b, x, k) ==> b == a
  }

  ghost predicate CarriesAt(nodes: seq<Node>, a: nat, x: Source, k: Key)
    requires a < |nodes|
  {
    nodes[a].url.key == k && x in nodes[a].sources
  }

  /** A node carries a refreshed source exactly when it stands for an identity the source lists. */
  lemma CarriesWhen(m: Merge, ids: seq<Id>, a: nat, x: Source)
    requires Sane(m) && GoodIds(m, ids) && a < |Nodes(m, ids)| && x in m.snap.refreshing
    ensures var n := Nodes(m, ids)[a];
            x in n.sources <==>
                Carries(m.snap, x, n.url.key)
                    && (a < |Staying(m)| ==> Staying(m)[a] < |m.st.nodes| && Keeper(m, Staying(m)[a]))
  {
    hide Dropped;
    hide Keeper;
    hide Nodes;
    hide ValidStore;
    if a < |Staying(m)| {
      var i := OldAt(m, ids, a);
      MembersAre(m, i);
      assert KeyAt(m, i) == Nodes(m, ids)[a].url.key;
    } else {
      NewAt(m, ids, a);
    }
  }

  lemma StandsAlone(m: Merge, ids: seq<Id>, a: nat, b: nat)
    requires Sane(m) && GoodIds(m, ids) && a < b < |Nodes(m, ids)|
             && Nodes(m, ids)[a].url.key == Nodes(m, ids)[b].url.key
    ensures b < |Staying(m)|
    ensures Staying(m)[a] < Staying(m)[b] < |m.st.nodes| && !(Keeper(m, Staying(m)[a]) && Keeper(m, Staying(m)[b]))
  {
    hide Dropped;
    hide Keeper;
    hide Nodes;
    hide ValidStore;
    hide Proper;
    if a < |Staying(m)| {
      var i := OldAt(m, ids, a);
      assert KeyAt(m, i) == Nodes(m, ids)[a].url.key;
      if b < |Staying(m)| {
        var j := OldAt(m, ids, b);
        StayingAt(m, a, b);
        if Keeper(m, i) && Keeper(m, j) { KeeperUnique(m, i, j); }
      } else {
        NewAt(m, ids, b);
      }
    } else {
      NewAt(m, ids, a);
      NewAt(m, ids, b);
      ComingDiffer(m, a - |Staying(m)|, b - |Staying(m)|);
    }
  }

  /** A refreshed source ends up on exactly one node of every identity it lists, and on no other node. */
  lemma ExactReplacement(st: Store, batch: seq<Download>, ids: seq<Id>, st': Store, x: Source, k: Key)
    requires ValidStore(st) && batch != [] && Becomes(st, batch, ids, st') && Downloaded(batch, x)
    ensures if Lists(batch, x, k) then CarriedOnce(st'.nodes, x, k)
            else forall a :: 0 <= a < |st'.nodes| ==> !CarriesAt(st'.nodes, a, x, k)
  {
    var m := MergeOf(st, batch);
    GatheredIsSane(st, batch);
    GatherRefreshes(st.subscriptions, batch, x);
    GatherCarries(st.subscriptions, batch, x, k);
    hide Sane;
    hide Becomes;
    hide Lists;
    assert st'.nodes == Nodes(m, ids) && GoodIds(m, ids) by { BecomesNodes(st, batch, ids, st'); }
    forall a | 0 <= a < |st'.nodes| && CarriesAt(st'.nodes, a, x, k)
      ensures Carries(m.snap, x, k) { CarriesWhen(m, ids, a, x); }
    if Carries(m.snap, x, k) {
      assert k in m.snap.desired;
      var a := WantedIsCarried(m, ids, k);
      CarriesWhen(m, ids, a, x);
      forall b | 0 <= b < |st'.nodes| && CarriesAt(st'.nodes, b, x, k) ensures b == a {
        CarriesWhen(m, ids, b, x);
        if a < b { StandsAlone(m, ids, a, b); }
        if b < a { StandsAlone(m, ids, b, a); }
      }
      assert CarriesAt(st'.nodes, a, x, k);
    }
  }

  lemma BecomesNodes(st: Store, batch: seq<Download>, ids: seq<Id>, st': Store)
    requires Becomes(st, batch, ids, st')
    ensures st'.nodes == Nodes(MergeOf(st, batch), ids) && GoodIds(MergeOf(st, batch), ids)
    ensures st' == Merged(MergeOf(st, batch), ids, batch)
  {
  }

  lemma StayerIs(m: Merge, ids: seq<Id>, i: nat) returns (a: nat)
    requires Sane(m) && |ids| == |Coming(m)| && i < |m.st.nodes| && MustKeep(m.st.nodes[i], m.snap.refreshing)
    ensures a < |Nodes(m, ids)| && Nodes(m, ids)[a].id == m.st.nodes[i].id
            && Nodes(m, ids)[a].url.key == m.st.nodes[i].url.key
    ensures !m.st.nodes[i].managed ==>
            Nodes(m, ids)[a].url == m.st.nodes[i].url && Nodes(m, ids)[a].name == m.st.nodes[i].name
    ensures forall x :: x !in m.snap.refreshing ==> (x in Nodes(m, ids)[a].sources <==> x in m.st.nodes[i].sources)
  {
    hide Dropped;
    hide Keeper;
    hide ValidStore;
    DroppedWhen(m, i);
    a := StayingHas(m, i);
    var i' := OldAt(m, ids, a);
    RefreshedKeeps(m, i);
    MembersAre(m, i);
  }

  /** Node n is what became of `was` when the sources outside the batch have their say. */
  ghost predicate Stays(was: Node, n: Node, batch: seq<Download>) {
    && n.id == was.id && n.url.key == was.url.key
    && (!was.managed ==> n.url == was.url && n.name == was.name)
    && forall x :: !Downloaded(batch, x) ==> (x in n.sources <==> x in was.sources)
  }

  /** Nodes that are not managed, and nodes another source carries, stay and keep those other sources. */
  lemma OthersStay(st: Store, batch: seq<Download>, ids: seq<Id>, st': Store, i: nat)
    requires ValidStore(st) && batch != [] && Becomes(st, batch, ids, st') && i < |st.nodes|
    requires !st.nodes[i].managed || exists x :: x in st.nodes[i].sources && !Downloaded(batch, x)
    ensures exists a :: 0 <= a < |st'.nodes| && Stays(st.nodes[i], st'.nodes[a], batch)
  {
    var m := MergeOf(st, batch);
    GatheredIsSane(st, batch);
    forall x ensures x in m.snap.refreshing <==> Downloaded(batch, x) { GatherRefreshes(st.subscriptions, batch, x); }
    BecomesNodes(st, batch, ids, st');
    hide Downloaded;
    hide Becomes;
    hide GoodIds;
    hide Nodes;
    hide Sane;
    var a := StayerIs(m, ids, i);
    assert Stays(st.nodes[i], st'.nodes[a], batch);
  }

  // Selections.

  lemma DroppedIsGone(m: Merge, ids: seq<Id>, i: nat)
    requires Sane(m) && GoodIds(m, ids) && i < |m.st.nodes| && Dropped(m, i)
    ensures !HasId(Nodes(m, ids), m.st.nodes[i].id)
  {
    forall a | 0 <= a < |Nodes(m, ids)|
      ensures Nodes(m, ids)[a].id != m.st.nodes[i].id { DroppedIsNotAt(m, ids, i, a); }
  }

  lemma DroppedIsNotAt(m: Merge, ids: seq<Id>, i: nat, a: nat)
    requires Sane(m) && GoodIds(m, ids) && i < |m.st.nodes| && Dropped(m, i) && a < |Nodes(m, ids)|
    ensures Nodes(m, ids)[a].id != m.st.nodes[i].id
  {
    hide Dropped;
    hide Refreshed;
    hide Added;
    hide Nodes;
    hide Proper;
    hide Carries;
    hide ValidStore;
    if a < |Staying(m)| {
      var j := OldAt(m, ids, a);
      RemovedIs(m, i);
      RemovedIs(m, j);
    } else {
      NewAt(m, ids, a);
    }
  }

  lemma FirstFollows(m: Merge, ids: seq<Id>, batch: seq<Download>)
    requires Sane(m) && GoodIds(m, ids) && Wanted(m, batch) && m.st.nodes != [] && m.st.defaultId == 0
    ensures var id := Follow(m, ids, batch, m.st.nodes[0].id);
            if Dropped(m, 0) then NewDefault(m, ids, batch) == id && id != 0 && HasId(Nodes(m, ids), id)
            else NewDefault(m, ids, batch) == 0 && FirstId(Nodes(m, ids)) == id
  {
    hide Nodes;
    hide Proper;
    assert !HasId(m.st.nodes, 0) by {
      forall i | 0 <= i < |m.st.nodes|
        ensures m.st.nodes[i].id != 0 { assert ValidNode(m.st.nodes[i], m.st.subscriptions); }
    }
    hide Dropped;
    hide ValidStore;
    RemovedIs(m, 0);
    FollowIs(m, ids, batch, 0);
    if !Dropped(m, 0) {
      var a := StayingHas(m, 0);
      if a > 0 { var low := OldAt(m, ids, 0); StayingAt(m, 0, a); }
      var i := OldAt(m, ids, a);
    }
  }

  /** What a scene uses after the merge is where its old selection went. */
  lemma SelectedFollows(m: Merge, ids: seq<Id>, batch: seq<Download>, scene: Scene, i: nat)
    requires Sane(m) && GoodIds(m, ids) && Wanted(m, batch)
    requires i < |m.st.nodes| && m.st.nodes[i].id == SelectedId(m.st, scene)
    ensures SelectedId(Merged(m, ids, batch), scene) == Follow(m, ids, batch, m.st.nodes[i].id)
  {
    hide Nodes;
    hide Follow;
    hide Dropped;
    hide Proper;
    FollowIs(m, ids, batch, i);
    RemovedIs(m, i);
    if scene in m.st.sceneNodes {
      assert ValidNode(m.st.nodes[FindIndex(m.st.nodes, m.st.sceneNodes[scene])], m.st.subscriptions);
    } else if m.st.defaultId != 0 {
      assert NewDefault(m, ids, batch) == Follow(m, ids, batch, m.st.defaultId);
    } else {
      FirstFollows(m, ids, batch);
      RemovedIs(m, 0);
    }
  }

  /** A scene keeps its node while that survives, and otherwise moves to a node of the same identity when there is
      one. */
  lemma SelectionsFollow(st: Store, batch: seq<Download>, ids: seq<Id>, st': Store, scene: Scene, i: nat)
    requires ValidStore(st) && batch != [] && Becomes(st, batch, ids, st')
    requires i < |st.nodes| && st.nodes[i].id == SelectedId(st, scene)
    ensures HasId(st'.nodes, st.nodes[i].id) ==> SelectedId(st', scene) == st.nodes[i].id
    ensures Carried(st'.nodes, st.nodes[i].url.key) ==> Holds(st'.nodes, SelectedId(st', scene), st.nodes[i].url.key)
  {
    var m := MergeOf(st, batch);
    GatheredIsSane(st, batch);
    BecomesNodes(st, batch, ids, st');
    hide Becomes;
    hide Sane;
    hide Merged;
    hide Dropped;
    hide Follow;
    SelectedFollows(m, ids, batch, scene, i);
    FollowIs(m, ids, batch, i);
    if Dropped(m, i) { DroppedIsGone(m, ids, i); }
  }
}
