/** Merging the same complete downloads a second time changes nothing. */
module Idempotence {
  import opened Scenes
  import opened SourceLists
  import opened Subscriptions
  import opened Snapshots
  import opened Reconciliation
  import opened ReconciliationLaws
  import opened SelectionLaws
  import opened MergeLaws

  /** The second merge of the same snapshot. */
  ghost function Again(m: Merge, ids: seq<Id>, batch: seq<Download>): Merge
    requires Proper(m) && |ids| == |Coming(m)|
    requires forall i :: 0 <= i < |batch| ==> batch[i].nodes != []
  {
    Merge(Merged(m, ids, batch), m.snap)
  }

  ghost predicate Set(m: Merge, ids: seq<Id>, batch: seq<Download>) {
    Sane(m) && GoodIds(m, ids) && Wanted(m, batch) && Sane(Again(m, ids, batch))
  }

  /** Place a holds the node that stands for a wanted identity. */
  ghost predicate Stands(m: Merge, ids: seq<Id>, a: nat)
    requires Proper(m) && |ids| == |Coming(m)| && a < |Nodes(m, ids)|
  {
    Nodes(m, ids)[a].url.key in m.snap.desired
    && (a < |Staying(m)| ==> Staying(m)[a] < |m.st.nodes| && Keeper(m, Staying(m)[a]))
  }

  // Selections before and after.

  /** A selection moves onto a survivor other than a wanted keeper only by staying there. */
  lemma FollowedIsOld(m: Merge, ids: seq<Id>, batch: seq<Download>, i: nat, j: nat)
    requires Sane(m) && GoodIds(m, ids) && Wanted(m, batch) && i < |m.st.nodes| && j < |m.st.nodes|
    requires !Dropped(m, i) && !Keeper(m, i) && KeyAt(m, i) in m.snap.desired
    requires Follow(m, ids, batch, m.st.nodes[j].id) == m.st.nodes[i].id
    ensures i == j
  {
    hide Keeper;
    hide Dropped;
    hide Nodes;
    hide Proper;
    hide Follow;
    FollowIs(m, ids, batch, j);
    if Dropped(m, j) {
      var k :| (k == KeyAt(m, j) || k in m.snap.desired) && m.st.nodes[i].id == Now(m, ids, k);
      StandInIsKeeper(m, ids, k, i);
    } else {
      RemovedIs(m, i);
      RemovedIs(m, j);
    }
  }

  lemma StandInIsKeeper(m: Merge, ids: seq<Id>, k: Key, i: nat)
    requires Sane(m) && GoodIds(m, ids) && i < |m.st.nodes| && !Dropped(m, i) && KeyAt(m, i) in m.snap.desired
    requires Now(m, ids, k) == m.st.nodes[i].id
    ensures Keeper(m, i)
  {
    hide Keeper;
    hide Dropped;
    hide Nodes;
    hide Proper;
    NowIs(m, ids, k);
    IdsStayDistinct(m, ids);
    SurvivorHasId(m, ids, i);
    assert ValidNode(m.st.nodes[i], m.st.subscriptions);
    assert KeyAt(m, i) == k;
    var keeper := KeeperExists(m, k);
    KeeperSurvives(m, keeper);
    RemovedIs(m, i);
    RemovedIs(m, keeper);
  }

  lemma SelectedKept(m: Merge, ids: seq<Id>, batch: seq<Download>, i: nat)
    requires Sane(m) && GoodIds(m, ids) && Wanted(m, batch) && i < |m.st.nodes| && !Dropped(m, i)
    requires m.st.nodes[i].id in Selected(m.st)
    ensures m.st.nodes[i].id in Selected(Merged(m, ids, batch))
  {
    hide Dropped;
    hide Nodes;
    hide Proper;
    var id := m.st.nodes[i].id;
    assert ValidNode(m.st.nodes[i], m.st.subscriptions);
    FollowIs(m, ids, batch, i);
    RemovedIs(m, i);
    hide Follow;
    hide Removed;
    if id in m.st.sceneNodes.Values {
      var s :| s in m.st.sceneNodes && m.st.sceneNodes[s] == id;
      assert Merged(m, ids, batch).sceneNodes[s] == id;
    } else if id != m.st.defaultId {
      hide SelectedId;
      var s :| s in {Global, Dev, Telegram} && SelectedId(m.st, s) == id;
      SelectedFollows(m, ids, batch, s, i);
    }
  }

  lemma SelectedIsNode(st: Store, s: Scene) returns (j: nat)
    requires ValidStore(st) && st.nodes != []
    ensures j < |st.nodes| && st.nodes[j].id == SelectedId(st, s)
  {
    if HasId(st.nodes, SelectedId(st, s)) { j := FindIndex(st.nodes, SelectedId(st, s)); } else { j := 0; }
  }

  lemma SelectedNew(m: Merge, ids: seq<Id>, batch: seq<Download>, i: nat)
    requires Sane(m) && GoodIds(m, ids) && Wanted(m, batch) && i < |m.st.nodes|
    requires !Dropped(m, i) && !Keeper(m, i) && KeyAt(m, i) in m.snap.desired
    requires m.st.nodes[i].id in Selected(Merged(m, ids, batch))
    ensures m.st.nodes[i].id in Selected(m.st)
  {
    hide Dropped;
    hide Nodes;
    hide Keeper;
    hide Proper;
    var id, st' := m.st.nodes[i].id, Merged(m, ids, batch);
    assert ValidNode(m.st.nodes[i], m.st.subscriptions);
    hide Follow;
    hide SelectedId;
    if s :| s in st'.sceneNodes && st'.sceneNodes[s] == id {
      var j := FindIndex(m.st.nodes, m.st.sceneNodes[s]);
      FollowedIsOld(m, ids, batch, i, j);
    } else if s :| s in {Global, Dev, Telegram} && SelectedId(st', s) == id {
      var j := SelectedIsNode(m.st, s);
      SelectedFollows(m, ids, batch, s, j);
      FollowedIsOld(m, ids, batch, i, j);
    } else if id != m.st.defaultId {
      DefaultIsOld(m, ids, batch, i);
    }
  }

  lemma DefaultIsOld(m: Merge, ids: seq<Id>, batch: seq<Download>, i: nat)
    requires Sane(m) && GoodIds(m, ids) && Wanted(m, batch) && i < |m.st.nodes|
    requires !Dropped(m, i) && !Keeper(m, i) && KeyAt(m, i) in m.snap.desired
    requires m.st.nodes[i].id == NewDefault(m, ids, batch)
    ensures m.st.nodes[i].id == m.st.defaultId
  {
    hide Dropped;
    hide Nodes;
    hide Keeper;
    hide Proper;
    hide Follow;
    var was := if HasId(m.st.nodes, m.st.defaultId) then m.st.defaultId else FirstId(m.st.nodes);
    if was in Removed(m) {
      assert HasId(m.st.nodes, m.st.nodes[0].id);
      var j := FindIndex(m.st.nodes, was);
      FollowedIsOld(m, ids, batch, i, j);
      RemovedIs(m, i);
    }
  }

  // The same keepers.

  lemma StandsExists(m: Merge, ids: seq<Id>, k: Key) returns (a: nat)
    requires Sane(m) && GoodIds(m, ids) && k in m.snap.desired
    ensures a < |Nodes(m, ids)| && Nodes(m, ids)[a].url.key == k && Stands(m, ids, a)
  {
    a := WantedIsCarried(m, ids, k);
  }

  /** Only one place stands for an identity; another place of that identity is an older node that is no keeper. */
  lemma StandsOnce(m: Merge, ids: seq<Id>, a: nat, b: nat) returns (j: nat)
    requires Sane(m) && GoodIds(m, ids) && a < |Nodes(m, ids)| && Stands(m, ids, a)
    requires b < |Nodes(m, ids)| && b != a && Nodes(m, ids)[a].url.key == Nodes(m, ids)[b].url.key
    ensures a < |Staying(m)| && b < |Staying(m)| && j == Staying(m)[b] && j < |m.st.nodes| && !Keeper(m, j)
            && !Stands(m, ids, b)
    ensures (a < b <==> Staying(m)[a] < j)
  {
    hide Keeper;
    hide Dropped;
    hide Nodes;
    hide Proper;
    if a < b { StandsAlone(m, ids, a, b); } else { StandsAlone(m, ids, b, a); }
    j := OldAt(m, ids, b);
    var i := OldAt(m, ids, a);
    if a < b { StayingAt(m, a, b); } else { StayingAt(m, b, a); }
  }

  lemma NotPinnedAgain(m: Merge, ids: seq<Id>, batch: seq<Download>, b: nat)
    requires Sane(m) && GoodIds(m, ids) && Wanted(m, batch) && b < |Staying(m)| && b < |Nodes(m, ids)|
    requires Staying(m)[b] < |m.st.nodes| && !Keeper(m, Staying(m)[b]) && Nodes(m, ids)[b].url.key in m.snap.desired
    ensures !Pinned(Again(m, ids, batch), b)
  {
    hide Keeper;
    hide Dropped;
    hide Nodes;
    hide ValidStore;
    var j := OldAt(m, ids, b);
    RefreshedKeeps(m, j);
    MembersAre(m, j);
    if Pinned(Again(m, ids, batch), b) {
      assert Pinned(m, j);
      PinnedIsKeeper(m, j);
    }
  }

  lemma PinnedAgain(m: Merge, ids: seq<Id>, batch: seq<Download>, a: nat)
    requires Sane(m) && GoodIds(m, ids) && Wanted(m, batch) && a < |Staying(m)| && a < |Nodes(m, ids)|
    requires Staying(m)[a] < |m.st.nodes| && Keeper(m, Staying(m)[a]) && Pinned(m, Staying(m)[a])
    ensures Pinned(Again(m, ids, batch), a)
  {
    hide Keeper;
    hide Dropped;
    hide Nodes;
    hide ValidStore;
    var i := OldAt(m, ids, a);
    RefreshedKeeps(m, i);
    MembersAre(m, i);
  }

  lemma BeatsAgain(m: Merge, ids: seq<Id>, batch: seq<Download>, a: nat, b: nat)
    requires Sane(m) && GoodIds(m, ids) && Wanted(m, batch) && a < |Staying(m)| && b < |Staying(m)|
             && |Staying(m)| <= |Nodes(m, ids)|
    requires var i, j := Staying(m)[a], Staying(m)[b];
             && i < |m.st.nodes| && j < |m.st.nodes| && Beats(m, i, j) && (a < b <==> i < j)
             && !Keeper(m, j) && KeyAt(m, j) in m.snap.desired
    ensures Beats(Again(m, ids, batch), a, b)
  {
    hide Keeper;
    hide Dropped;
    hide Nodes;
    hide Selected;
    hide Proper;
    var i := OldAt(m, ids, a);
    var j := OldAt(m, ids, b);
    if m.st.nodes[i].id in Selected(m.st) { SelectedKept(m, ids, batch, i); }
    if m.st.nodes[j].id in Selected(Merged(m, ids, batch)) { SelectedNew(m, ids, batch, j); }
  }

  lemma UnpinnedKeeperBeats(m: Merge, i: nat, j: nat)
    requires i < |m.st.nodes| && j < |m.st.nodes| && i != j && KeyAt(m, i) == KeyAt(m, j) && Keeper(m, i)
             && !Pinned(m, i)
    ensures Beats(m, i, j)
  {
  }

  lemma OtherLoses(m: Merge, ids: seq<Id>, batch: seq<Download>, a: nat, b: nat)
    requires Sane(m) && GoodIds(m, ids) && Wanted(m, batch)
    requires a < |Nodes(m, ids)| && Stands(m, ids, a) && !Pinned(Again(m, ids, batch), a)
    requires b < |Nodes(m, ids)| && b != a && Nodes(m, ids)[b].url.key == Nodes(m, ids)[a].url.key
    ensures Beats(Again(m, ids, batch), a, b) && !Pinned(Again(m, ids, batch), b)
  {
    hide Nodes;
    hide Beats;
    hide ValidStore;
    hide Carries;
    hide Proper;
    hide Dropped;
    hide Pinned;
    hide Keeper;
    hide Refreshed;
    hide Members;
    hide Merged;
    hide Wanted;
    var j := StandsOnce(m, ids, a, b);
    NotPinnedAgain(m, ids, batch, b);
    var j' := OldAt(m, ids, b);
    var i := OldAt(m, ids, a);
    if Pinned(m, i) { PinnedAgain(m, ids, batch, a); }
    assert KeyAt(m, i) == KeyAt(m, j);
    UnpinnedKeeperBeats(m, i, j);
    NodesSize(m, ids);
    BeatsAgain(m, ids, batch, a, b);
  }

  /** Whatever the selections did, the second merge picks the same keeper for every wanted identity. */
  lemma KeeperAgain(m: Merge, ids: seq<Id>, batch: seq<Download>, a: nat)
    requires Set(m, ids, batch) && a < |Nodes(m, ids)| && Stands(m, ids, a)
    ensures Keeper(Again(m, ids, batch), a)
  {
    hide Nodes;
    hide Beats;
    hide Pinned;
    hide Stands;
    hide ValidStore;
    hide Carries;
    hide Proper;
    var m2 := Again(m, ids, batch);
    if Pinned(m2, a) {
      PinnedIsKeeper(m2, a);
    } else {
      forall b | 0 <= b < |Nodes(m, ids)| && b != a && Nodes(m, ids)[b].url.key == Nodes(m, ids)[a].url.key
        ensures Beats(m2, a, b) && !Pinned(m2, b)
      {
        OtherLoses(m, ids, batch, a, b);
      }
    }
  }

  lemma KeepsStanding(m: Merge, ids: seq<Id>, batch: seq<Download>, a: nat)
    requires Set(m, ids, batch) && a < |Nodes(m, ids)|
    ensures Stands(m, ids, a) <==> Keeper(Again(m, ids, batch), a) && Nodes(m, ids)[a].url.key in m.snap.desired
  {
    hide Keeper;
    hide Nodes;
    hide ValidStore;
    hide Carries;
    hide Proper;
    if Stands(m, ids, a) {
      KeeperAgain(m, ids, batch, a);
    } else if Keeper(Again(m, ids, batch), a) && Nodes(m, ids)[a].url.key in m.snap.desired {
      var b := StandsExists(m, ids, Nodes(m, ids)[a].url.key);
      KeeperAgain(m, ids, batch, b);
      KeeperUnique(Again(m, ids, batch), a, b);
    }
  }

  // Nothing left to do.

  lemma BroughtAgain(m: Merge, ids: seq<Id>, batch: seq<Download>, a: nat)
    requires Set(m, ids, batch) && a < |Nodes(m, ids)|
    ensures var k := Nodes(m, ids)[a].url.key;
            Brought(Again(m, ids, batch), a) == if Stands(m, ids, a) && k in m.snap.carriers then m.snap.carriers[k]
                else []
    ensures forall x :: x in Brought(Again(m, ids, batch), a) ==> x in m.snap.refreshing
    ensures Stands(m, ids, a) ==> Brought(Again(m, ids, batch), a) != []
  {
    hide Keeper;
    hide Nodes;
    hide ValidStore;
    KeepsStanding(m, ids, batch, a);
    forall x | x in Brought(Again(m, ids, batch), a)
      ensures x in m.snap.refreshing { assert Carries(m.snap, x, Nodes(m, ids)[a].url.key); }
  }

  /** Every place already has the sources the second merge gives it. */
  lemma SourcesAgain(m: Merge, ids: seq<Id>, batch: seq<Download>, a: nat)
    requires Set(m, ids, batch) && a < |Nodes(m, ids)|
    ensures Members(Again(m, ids, batch), a) == Nodes(m, ids)[a].sources
  {
    hide Keeper;
    hide Nodes;
    hide ValidStore;
    hide Carries;
    hide Replaced;
    hide Dropped;
    var brought := Brought(Again(m, ids, batch), a);
    BroughtAgain(m, ids, batch, a);
    if a < |Staying(m)| {
      var i := OldAt(m, ids, a);
      assert Brought(m, i) == brought by { assert KeyAt(m, i) == Nodes(m, ids)[a].url.key; }
      ReplacedTwice(m.st.nodes[i].sources, m.snap.refreshing, brought);
    } else {
      NewSources(m, ids, a);
      ReplacedTwice([], m.snap.refreshing, brought);
    }
  }

  lemma NewSources(m: Merge, ids: seq<Id>, a: nat)
    requires Sane(m) && GoodIds(m, ids) && |Staying(m)| <= a < |Nodes(m, ids)|
    ensures var n := Nodes(m, ids)[a];
            n.url.key in m.snap.carriers && n.sources == Replaced([], m.snap.refreshing, m.snap.carriers[n.url.key])
    ensures Nodes(m, ids)[a].sources != []
    ensures Stands(m, ids, a) && Nodes(m, ids)[a].url == m.snap.desired[Nodes(m, ids)[a].url.key]
  {
    hide Nodes;
    NewAt(m, ids, a);
    var k := Nodes(m, ids)[a].url.key;
    assert [] + m.snap.carriers[k] == m.snap.carriers[k];
    assert Carries(m.snap, m.snap.carriers[k][0], k);
  }

  /** The second merge drops and changes no node. */
  lemma NodeAgain(m: Merge, ids: seq<Id>, batch: seq<Download>, a: nat)
    requires Set(m, ids, batch) && a < |Nodes(m, ids)|
    ensures Refreshed(Again(m, ids, batch), a) == Nodes(m, ids)[a] && !Dropped(Again(m, ids, batch), a)
  {
    hide Keeper;
    hide Nodes;
    hide ValidStore;
    hide Carries;
    hide Replaced;
    hide Members;
    var m2, n := Again(m, ids, batch), Nodes(m, ids)[a];
    SourcesAgain(m, ids, batch, a);
    KeepsStanding(m, ids, batch, a);
    if a < |Staying(m)| {
      var i := OldAt(m, ids, a);
      RefreshedKeeps(m, i);
    } else {
      NewSources(m, ids, a);
    }
  }

  lemma {:induction false} AllSurvive(m: Merge, n: nat)
    requires n <= |m.st.nodes| && forall a :: 0 <= a < |m.st.nodes| ==>
             Refreshed(m, a) == m.st.nodes[a] && !Dropped(m, a)
    ensures Survivors(m, n) == m.st.nodes[..n] && |Kept(m, n)| == n
  {
    hide Refreshed;
    hide Dropped;
    if n > 0 { AllSurvive(m, n - 1); }
  }

  lemma {:induction false} NoneComing(m: Merge, n: nat)
    requires n <= |m.snap.order| && forall k :: k in m.snap.order ==> Known(m, k)
    ensures NewKeys(m, n) == []
  {
    if n > 0 { NoneComing(m, n - 1); }
  }

  /** Merging the same snapshot again keeps every node as it is. */
  lemma NodesAgain(m: Merge, ids: seq<Id>, batch: seq<Download>)
    requires Set(m, ids, batch)
    ensures var m2 := Again(m, ids, batch);
            Coming(m2) == [] && |Staying(m2)| == |m2.st.nodes| && Nodes(m2, []) == m2.st.nodes && Removed(m2) == {}
  {
    var m2 := Again(m, ids, batch);
    forall a | 0 <= a < |m2.st.nodes|
      ensures Refreshed(m2, a) == m2.st.nodes[a] && !Dropped(m2, a) { NodeAgain(m, ids, batch, a); }
    AllSurvive(m2, |m2.st.nodes|);
    assert m2.st.nodes[..|m2.st.nodes|] == m2.st.nodes;
    forall k | k in m.snap.order ensures Known(m2, k) {
      var a := StandsExists(m, ids, k);
      assert KeyAt(m2, a) == k;
    }
    NoneComing(m2, |m2.snap.order|);
  }

  lemma MergedAgain(m: Merge, ids: seq<Id>, batch: seq<Download>)
    requires Set(m, ids, batch)
    ensures var m2 := Again(m, ids, batch);
            |Coming(m2)| == 0 && |Staying(m2)| == |m2.st.nodes| && Merged(m2, [], batch) == m2.st
  {
    var m2 := Again(m, ids, batch);
    NodesAgain(m, ids, batch);
    hide Sane;
    hide Removed;
    assert m2.st.nodes != [] by { SomeNode(m, ids); }
    var r := Merged(m2, [], batch);
    assert r.nodes == m2.st.nodes;
    assert r.defaultId == m2.st.defaultId;
    assert r.sceneNodes == m2.st.sceneNodes;
    assert r.speed == m2.st.speed;
  }

  lemma SomeNode(m: Merge, ids: seq<Id>)
    requires Sane(m) && GoodIds(m, ids)
    ensures Nodes(m, ids) != []
  {
    assert m.snap.order[0] in m.snap.order;
    var a := StandsExists(m, ids, m.snap.order[0]);
  }

  // The snapshot is the same the second time.

  lemma {:induction false} AddUrlsElsewhere(s: Snapshot, source: Source, nodes: seq<Fresh>, subs: seq<Source>)
    ensures AddUrls(s.(subscriptions := subs), source, nodes) == AddUrls(s, source, nodes).(subscriptions := subs)
  {
    if nodes != [] { AddUrlsElsewhere(s, source, nodes[..|nodes| - 1], subs); }
  }

  lemma {:induction false} GatherElsewhere(known: seq<Source>, subs: seq<Source>, batch: seq<Download>)
    requires forall i :: 0 <= i < |batch| ==> batch[i].source in subs
    ensures Gather(subs, batch) == Gather(known, batch).(subscriptions := subs)
  {
    if batch != [] {
      var init, d := batch[..|batch| - 1], batch[|batch| - 1];
      assert forall i :: 0 <= i < |init| ==> init[i] == batch[i];
      GatherElsewhere(known, subs, init);
      var s := AddSource(Gather(known, init), known, d.source);
      AddUrlsElsewhere(s, d.source, d.nodes, subs);
      assert AddSource(Gather(subs, init), subs, d.source) == s.(subscriptions := subs);
    }
  }

  lemma GatheredAgain(st: Store, batch: seq<Download>, ids: seq<Id>, st': Store)
    requires ValidStore(st) && batch != [] && Becomes(st, batch, ids, st')
    requires forall i :: 0 <= i < |batch| ==> Complete(batch[i])
    ensures Acceptable(st'.subscriptions, batch)
    ensures MergeOf(st', batch) == Again(MergeOf(st, batch), ids, batch)
  {
    var s := Gather(st.subscriptions, batch);
    GatherSubscriptions(st.subscriptions, batch);
    forall i | 0 <= i < |batch|
      ensures batch[i].source in s.subscriptions { assert Downloaded(batch, batch[i].source); }
    GatherElsewhere(st.subscriptions, s.subscriptions, batch);
  }

  /** Merging the same complete downloads again is permitted, adds no node and leaves the Store exactly as it was. */
  lemma Idempotent(st: Store, batch: seq<Download>, ids: seq<Id>, st': Store, ids2: seq<Id>, st'': Store)
    requires ValidStore(st) && batch != [] && Becomes(st, batch, ids, st')
    requires forall i :: 0 <= i < |batch| ==> Complete(batch[i])
    ensures Permitted(st', batch)
    ensures Becomes(st', batch, ids2, st'') <==> ids2 == [] && st'' == st'
  {
    var m := MergeOf(st, batch);
    GatheredIsSane(st, batch);
    ValidPreserved(st, batch, ids, st');
    GatheredAgain(st, batch, ids, st');
    GatheredIsSane(st', batch);
    MergedAgain(m, ids, batch);
  }
}
