/** A merge keeps every selection resolvable, and keeps the Store valid. */
module SelectionLaws {
  import opened SourceLists
  import opened Subscriptions
  import opened Snapshots
  import opened Reconciliation
  import opened ReconciliationLaws

  /** Some node has this identity. */
  ghost predicate Carried(nodes: seq<Node>, k: Key) {
    exists a :: 0 <= a < |nodes| && nodes[a].url.key == k
  }

  /** The node with this identifier has this identity. */
  ghost predicate Holds(nodes: seq<Node>, id: Id, k: Key) {
    exists a :: 0 <= a < |nodes| && nodes[a].id == id && nodes[a].url.key == k
  }

  lemma {:induction false} HolderIs(m: Merge, n: nat, k: Key)
    requires Sane(m) && n <= |m.st.nodes|
    ensures Holder(m, n, k) == 0 ==> forall i :: 0 <= i < n && KeyAt(m, i) == k ==> Dropped(m, i)
    ensures Holder(m, n, k) != 0 ==>
            exists i :: 0 <= i < n && KeyAt(m, i) == k && !Dropped(m, i) && m.st.nodes[i].id == Holder(m, n, k)
    ensures forall i :: 0 <= i < n && KeyAt(m, i) == k && Keeper(m, i) && !Dropped(m, i) ==>
            Holder(m, n, k) == m.st.nodes[i].id
  {
    hide Keeper;
    hide Dropped;
    hide Proper;
    if n > 0 {
      HolderIs(m, n - 1, k);
      assert ValidNode(m.st.nodes[n - 1], m.st.subscriptions);
      forall i | 0 <= i < n && KeyAt(m, i) == k && Keeper(m, i) && !Dropped(m, i)
        ensures Holder(m, n, k) == m.st.nodes[i].id {
        if Keeper(m, n - 1) && KeyAt(m, n - 1) == k { KeeperUnique(m, i, n - 1); }
      }
    }
  }

  lemma {:induction false} CurrentIs(m: Merge, ids: seq<Id>, n: nat, k: Key)
    requires Proper(m) && |ids| == |Coming(m)| && n <= |ids|
    ensures k !in Coming(m)[..n] ==> Current(m, ids, n, k) == Holder(m, |m.st.nodes|, k)
    ensures forall j :: 0 <= j < n && Coming(m)[j] == k ==> Current(m, ids, n, k) == ids[j]
  {
    hide Proper;
    if n > 0 {
      CurrentIs(m, ids, n - 1, k);
      var c := Coming(m);
      assert c[..n] == c[..n - 1] + [c[n - 1]];
      forall j | 0 <= j < n && c[j] == k ensures Current(m, ids, n, k) == ids[j] {
        if j < n - 1 && c[n - 1] == k { ComingDiffer(m, j, n - 1); }
      }
    }
  }

  /** `Now` names a node of the identity whenever there is one, and its keeper when that survives. */
  lemma NowIs(m: Merge, ids: seq<Id>, k: Key)
    requires Sane(m) && GoodIds(m, ids)
    ensures Now(m, ids, k) != 0 <==> Carried(Nodes(m, ids), k)
    ensures Now(m, ids, k) != 0 ==> Holds(Nodes(m, ids), Now(m, ids, k), k)
    ensures forall i :: 0 <= i < |m.st.nodes| && KeyAt(m, i) == k && Keeper(m, i) && !Dropped(m, i) ==>
            Now(m, ids, k) == m.st.nodes[i].id
  {
    hide Keeper;
    hide Dropped;
    hide Proper;
    hide Nodes;
    hide ValidStore;
    hide Carries;
    NewKeysFacts(m, |m.snap.order|);
    CurrentIs(m, ids, |ids|, k);
    HolderIs(m, |m.st.nodes|, k);
    assert Coming(m)[..|ids|] == Coming(m);
    hide Now;
    hide Coming;
    if k in Coming(m) {
      var j :| 0 <= j < |ids| && Coming(m)[j] == k;
      NodesSize(m, ids);
      NewAt(m, ids, |Staying(m)| + j);
      assert Holds(Nodes(m, ids), ids[j], k);
    } else {
      OldHolds(m, ids, k);
    }
  }

  /** An identity without an added node is carried exactly when one of its stored nodes stays. */
  lemma OldHolds(m: Merge, ids: seq<Id>, k: Key)
    requires Sane(m) && GoodIds(m, ids) && k !in Coming(m)
    ensures forall i :: 0 <= i < |m.st.nodes| && KeyAt(m, i) == k && !Dropped(m, i) ==>
            Holds(Nodes(m, ids), m.st.nodes[i].id, k)
    ensures Carried(Nodes(m, ids), k) ==> exists i :: 0 <= i < |m.st.nodes| && KeyAt(m, i) == k && !Dropped(m, i)
  {
    hide Keeper;
    hide Dropped;
    hide Proper;
    hide Nodes;
    hide ValidStore;
    hide Carries;
    forall i | 0 <= i < |m.st.nodes| && KeyAt(m, i) == k && !Dropped(m, i)
      ensures Holds(Nodes(m, ids), m.st.nodes[i].id, k) {
      var a := StayingHas(m, i);
      var i' := OldAt(m, ids, a);
    }
    if Carried(Nodes(m, ids), k) {
      var a :| 0 <= a < |Nodes(m, ids)| && Nodes(m, ids)[a].url.key == k;
      if a < |Staying(m)| {
        var i := OldAt(m, ids, a);
        assert KeyAt(m, i) == k;
      } else {
        NewAt(m, ids, a);
      }
    }
  }

  lemma NewIsCarried(m: Merge, ids: seq<Id>, k: Key) returns (a: nat)
    requires Sane(m) && GoodIds(m, ids) && k in m.snap.desired && !Known(m, k)
    ensures |Staying(m)| <= a < |Nodes(m, ids)| && Nodes(m, ids)[a].url.key == k
            && Now(m, ids, k) == Nodes(m, ids)[a].id
  {
    hide ValidStore;
    hide Carries;
    hide Known;
    hide Nodes;
    NewKeysFacts(m, |m.snap.order|);
    assert m.snap.order[..|m.snap.order|] == m.snap.order;
    var j :| 0 <= j < |ids| && Coming(m)[j] == k;
    a := |Staying(m)| + j;
    NodesSize(m, ids);
    NewAt(m, ids, a);
    CurrentIs(m, ids, |ids|, k);
  }

  /** A wanted identity has a node after the merge: its keeper or an added one. */
  lemma WantedIsCarried(m: Merge, ids: seq<Id>, k: Key) returns (a: nat)
    requires Sane(m) && GoodIds(m, ids) && k in m.snap.desired
    ensures a < |Nodes(m, ids)| && Nodes(m, ids)[a].url.key == k
    ensures a < |Staying(m)| ==>
            Staying(m)[a] < |m.st.nodes| && Keeper(m, Staying(m)[a]) && KeyAt(m, Staying(m)[a]) == k
    ensures a >= |Staying(m)| ==> !Known(m, k)
    ensures Now(m, ids, k) == Nodes(m, ids)[a].id
  {
    hide Keeper;
    hide Dropped;
    hide Nodes;
    hide ValidStore;
    hide Proper;
    if Known(m, k) {
      NowIs(m, ids, k);
      var i := KeeperExists(m, k);
      KeeperSurvives(m, i);
      a := StayingHas(m, i);
      var i' := OldAt(m, ids, a);
    } else {
      a := NewIsCarried(m, ids, k);
    }
  }

  /** The identity by which a node stands in for a removed one: the same, or a wanted one. */
  ghost predicate StandsIn(m: Merge, ids: seq<Id>, id: Id, was: Key) 
    requires |ids| == |Coming(m)|
  {
    id != 0 && exists k :: (k == was || k in m.snap.desired) && id == Now(m, ids, k)
  }

  /** Each download's first entry is wanted. */
  ghost predicate Wanted(m: Merge, batch: seq<Download>) {
    forall i :: 0 <= i < |batch| ==> batch[i].nodes != [] && batch[i].nodes[0].url.key in m.snap.desired
  }

  lemma {:induction false} LeadingStandsIn(m: Merge, ids: seq<Id>, batch: seq<Download>, x: Source, was: Key)
    requires |ids| == |Coming(m)| && Wanted(m, batch)
    ensures Leading(m, ids, batch, x) != 0 ==> StandsIn(m, ids, Leading(m, ids, batch, x), was)
  {
    if batch != [] {
      LeadingStandsIn(m, ids, batch[..|batch| - 1], x, was);
    }
  }

  lemma {:induction false} FromSourcesStandsIn(m: Merge, ids: seq<Id>, batch: seq<Download>, gone: Node,
                                               from: seq<Source>)
    requires |ids| == |Coming(m)| && Wanted(m, batch)
    ensures var id := FromSources(m, ids, batch, gone, from); id != 0 ==> StandsIn(m, ids, id, gone.url.key)
  {
    if from != [] {
      LeadingStandsIn(m, ids, batch, from[0], gone.url.key);
      FromSourcesStandsIn(m, ids, batch, gone, from[1..]);
    }
  }

  /** Something always stands in for a removed node, with the same identity when any node has it. */
  lemma SuccessorStandsIn(m: Merge, ids: seq<Id>, batch: seq<Download>, gone: Node)
    requires Sane(m) && GoodIds(m, ids) && Wanted(m, batch)
    ensures StandsIn(m, ids, Successor(m, ids, batch, gone), gone.url.key)
    ensures Carried(Nodes(m, ids), gone.url.key) ==> Holds(Nodes(m, ids), Successor(m, ids, batch, gone), gone.url.key)
  {
    hide ValidStore;
    NowIs(m, ids, gone.url.key);
    FromSourcesStandsIn(m, ids, batch, gone, m.snap.subscriptions);
    assert m.snap.order[0] in m.snap.order;
    var a := WantedIsCarried(m, ids, m.snap.order[0]);
    NowIs(m, ids, m.snap.order[0]);
  }

  lemma StandInExists(m: Merge, ids: seq<Id>, id: Id, was: Key)
    requires Sane(m) && GoodIds(m, ids) && StandsIn(m, ids, id, was)
    ensures id != 0 && HasId(Nodes(m, ids), id)
  {
    var k :| (k == was || k in m.snap.desired) && id == Now(m, ids, k);
    NowIs(m, ids, k);
    var a :| 0 <= a < |Nodes(m, ids)| && Nodes(m, ids)[a].id == id && Nodes(m, ids)[a].url.key == k;
  }

  /** Identifiers tell nodes apart, so the removed identifiers are those of the dropped nodes. */
  lemma RemovedIs(m: Merge, i: nat)
    requires Sane(m) && i < |m.st.nodes|
    ensures m.st.nodes[i].id in Removed(m) <==> Dropped(m, i)
    ensures HasId(m.st.nodes, m.st.nodes[i].id) && FindIndex(m.st.nodes, m.st.nodes[i].id) == i
  {
  }

  /** A node that is not dropped keeps its identifier. */
  lemma SurvivorHasId(m: Merge, ids: seq<Id>, i: nat)
    requires Sane(m) && |ids| == |Coming(m)| && i < |m.st.nodes| && !Dropped(m, i)
    ensures Holds(Nodes(m, ids), m.st.nodes[i].id, KeyAt(m, i))
  {
    hide Dropped;
    var a := StayingHas(m, i);
    var i' := OldAt(m, ids, a);
  }

  /** Where a selection of node i goes. */
  lemma FollowIs(m: Merge, ids: seq<Id>, batch: seq<Download>, i: nat)
    requires Sane(m) && GoodIds(m, ids) && Wanted(m, batch) && i < |m.st.nodes|
    ensures var id, was := Follow(m, ids, batch, m.st.nodes[i].id), KeyAt(m, i);
            && id != 0 && HasId(Nodes(m, ids), id)
            && (!Dropped(m, i) ==> id == m.st.nodes[i].id)
            && (Dropped(m, i) ==> StandsIn(m, ids, id, was))
            && (Carried(Nodes(m, ids), was) ==> Holds(Nodes(m, ids), id, was))
  {
    hide Dropped;
    hide Nodes;
    RemovedIs(m, i);
    if Dropped(m, i) {
      SuccessorStandsIn(m, ids, batch, m.st.nodes[i]);
      StandInExists(m, ids, Follow(m, ids, batch, m.st.nodes[i].id), KeyAt(m, i));
    } else {
      SurvivorHasId(m, ids, i);
      assert ValidNode(m.st.nodes[i], m.st.subscriptions);
    }
  }
}
