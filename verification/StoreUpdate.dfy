/** Merging downloaded subscriptions into the Store, pass by pass. */
module StoreUpdate {
  import opened Scenes
  import opened SourceLists
  import opened Subscriptions
  import opened Snapshots
  import opened Reconciliation
  import opened ReconciliationLaws
  import opened SelectionLaws

  lemma {:induction false} SubscriptionsGrow(known: seq<Source>, batch: seq<Download>, n: nat)
    requires n <= |batch|
    ensures |known| <= |Gather(known, batch[..n]).subscriptions| <= |Gather(known, batch).subscriptions|
  {
    if batch != [] {
      var d := batch[|batch| - 1];
      AddUrlsFacts(AddSource(Gather(known, batch[..|batch| - 1]), known, d.source), d.source, d.nodes);
      if n < |batch| {
        SubscriptionsGrow(known, batch[..|batch| - 1], n);
        assert batch[..|batch| - 1][..n] == batch[..n];
      } else {
        SubscriptionsGrow(known, batch[..|batch| - 1], n - 1);
        assert batch[..n] == batch;
      }
    }
  }

  lemma SourcesSnoc(short: seq<Download>, d: Download)
    ensures DistinctSources(short + [d]) <==> DistinctSources(short) && !Downloaded(short, d.source)
  {
    var long := short + [d];
    if DistinctSources(long) {
      forall a, b | 0 <= a < b < |short|
        ensures short[a].source != short[b].source { assert long[a].source != long[b].source; }
      forall a | 0 <= a < |short| ensures short[a].source != d.source { assert long[a].source != long[|short|].source; }
    }
  }

  /** A batch one download longer is accepted when that download passes the checks made as it arrives. */
  lemma AcceptMore(known: seq<Source>, batch: seq<Download>, i: nat)
    requires i < |batch|
    ensures var s, d := Gather(known, batch[..i]), batch[i];
            && (Acceptable(known, batch[..i + 1]) <==>
                  && Acceptable(known, batch[..i])
                  && Admits(known, d) && d.source !in s.refreshing
                  && (d.source in known || |s.subscriptions| < MAX_SUBSCRIPTIONS))
            && Gather(known, batch[..i + 1]) == AddUrls(AddSource(s, known, d.source), d.source, d.nodes)
  {
    hide *;
    Prefixes(batch, i);
    GatherSnoc(known, batch[..i], batch[i]);
    AcceptSnoc(known, batch[..i], batch[i]);
  }

  lemma Prefixes(batch: seq<Download>, i: nat)
    requires i < |batch|
    ensures batch[..i + 1] == batch[..i] + [batch[i]]
  {
  }

  lemma GatherSnoc(known: seq<Source>, short: seq<Download>, d: Download)
    ensures Gather(known, short + [d]) == AddUrls(AddSource(Gather(known, short), known, d.source), d.source, d.nodes)
  {
  }

  lemma AdmitsSnoc(known: seq<Source>, short: seq<Download>, d: Download)
    ensures var long := short + [d];
            (forall a :: 0 <= a < |long| ==> Admits(known, long[a])) <==>
                (forall a :: 0 <= a < |short| ==> Admits(known, short[a])) && Admits(known, d)
  {
    hide Admits;
    var long := short + [d];
    assert long[|short|] == d && forall a :: 0 <= a < |short| ==> long[a] == short[a];
  }

  lemma AcceptSnoc(known: seq<Source>, short: seq<Download>, d: Download)
    ensures var s := Gather(known, short);
            Acceptable(known, short + [d]) <==>
              && Acceptable(known, short) && Admits(known, d) && d.source !in s.refreshing
              && (d.source in known || |s.subscriptions| < MAX_SUBSCRIPTIONS)
  {
    var s := Gather(known, short);
    GatherSnoc(known, short, d);
    AddUrlsFacts(AddSource(s, known, d.source), d.source, d.nodes);
    SubscriptionsGrow(known, short, 0);
    GatherRefreshes(known, short, d.source);
    SourcesSnoc(short, d);
    AdmitsSnoc(known, short, d);
    hide Admits;
    hide Gather;
    hide AddUrls;
    hide DistinctSources;
    hide Downloaded;
  }

  lemma AcceptPrefix(known: seq<Source>, batch: seq<Download>, i: nat)
    requires i <= |batch| && Acceptable(known, batch)
    ensures Acceptable(known, batch[..i])
  {
    SubscriptionsGrow(known, batch, i);
  }

  /** Adds one download's entries, unless one of them was not understood. */
  method CollectUrls(s0: Snapshot, d: Download) returns (ok: bool, s: Snapshot)
    requires d.nodes != []
    ensures ok <==> Usable(d)
    ensures ok ==> s == AddUrls(s0, d.source, d.nodes)
  {
    ok, s := true, s0;
    var j := 0;
    while j < |d.nodes|
      invariant 0 <= j <= |d.nodes|
      invariant s == AddUrls(s0, d.source, d.nodes[..j])
      invariant forall a :: 0 <= a < j ==> d.nodes[a].parsed && d.nodes[a].url.text != ""
    {
      if !d.nodes[j].parsed || d.nodes[j].url.text == "" { return false, s; }
      assert d.nodes[..j + 1][..j] == d.nodes[..j];
      s := AddUrl(s, d.source, d.nodes[j].url);
      j := j + 1;
    }
    assert d.nodes[..j] == d.nodes;
  }

  /** Reads every download; refuses the batch when one of them may not be used. */
  method Collect(known: seq<Source>, batch: seq<Download>) returns (ok: bool, s: Snapshot)
    ensures ok <==> Acceptable(known, batch)
    ensures ok ==> s == Gather(known, batch)
  {
    hide Acceptable;
    hide Usable;
    hide Complete;
    hide AddUrls;
    hide AddSource;
    ok, s := true, Snapshot(map[], map[], [], {}, known);
    assert Acceptable(known, []) by { AcceptNothing(known); }
    var i := 0;
    while i < |batch|
      invariant 0 <= i <= |batch|
      invariant s == Gather(known, batch[..i]) && Acceptable(known, batch[..i])
    {
      var d := batch[i];
      AcceptMore(known, batch, i);
      if Acceptable(known, batch) { AcceptPrefix(known, batch, i + 1); }
      if d.nodes == [] { UnusableWhenEmpty(d); return false, s; }
      if d.source in known {
        if !Complete(d) { return false, s; }
      } else {
        if |s.subscriptions| >= MAX_SUBSCRIPTIONS { return false, s; }
      }
      if d.source in s.refreshing { return false, s; }
      ok, s := CollectUrls(AddSource(s, known, d.source), d);
      if !ok { return; }
      i := i + 1;
    }
    assert batch[..i] == batch;
  }

  lemma AcceptNothing(known: seq<Source>)
    ensures Acceptable(known, [])
  {
  }

  lemma UnusableWhenEmpty(d: Download)
    requires d.nodes == []
    ensures !Usable(d)
  {
  }

  ghost predicate BestBelow(m: Merge, i: nat, n: nat)
    requires i < |m.st.nodes|
  {
    forall j :: 0 <= j < n && j < |m.st.nodes| && j != i && KeyAt(m, j) == KeyAt(m, i) ==> Beats(m, i, j)
  }

  /** The best node of each identity. */
  method ChooseBest(m: Merge) returns (keepers: map<Key, nat>)
    ensures forall k :: k in keepers ==> keepers[k] < |m.st.nodes| && KeyAt(m, keepers[k]) == k && Best(m, keepers[k])
    ensures forall i :: 0 <= i < |m.st.nodes| ==> KeyAt(m, i) in keepers
  {
    var selected := Selected(m.st);
    keepers := map[];
    for i := 0 to |m.st.nodes|
      invariant forall k :: k in keepers ==> keepers[k] < i && KeyAt(m, keepers[k]) == k && BestBelow(m, keepers[k], i)
      invariant forall j :: 0 <= j < i ==> KeyAt(m, j) in keepers
    {
      var k := KeyAt(m, i);
      if k !in keepers || Priority(m.st.nodes[i], selected) > Priority(m.st.nodes[keepers[k]], selected) {
        keepers := keepers[k := i];
      }
    }
    assert forall i :: 0 <= i < |m.st.nodes| && BestBelow(m, i, |m.st.nodes|) ==> Best(m, i);
  }

  /** The keeper as far as the pinned nodes among the first n decide it. */
  ghost predicate ChosenBelow(m: Merge, i: nat, n: nat)
    requires i < |m.st.nodes|
  {
    if Pinned(m, i) && i < n then forall j :: i < j < n && j < |m.st.nodes| && KeyAt(m, j) == KeyAt(m, i) ==>
        !Pinned(m, j)
    else Best(m, i) && forall j :: 0 <= j < n && j < |m.st.nodes| && KeyAt(m, j) == KeyAt(m, i) ==> !Pinned(m, j)
  }

  lemma ChosenStep(m: Merge, i: nat, n: nat)
    requires i < |m.st.nodes| && n < |m.st.nodes| && ChosenBelow(m, i, n)
             && (KeyAt(m, n) != KeyAt(m, i) || !Pinned(m, n))
    ensures ChosenBelow(m, i, n + 1)
  {
  }

  lemma ChosenSelf(m: Merge, i: nat)
    requires i < |m.st.nodes|
    ensures Pinned(m, i) ==> ChosenBelow(m, i, i + 1)
    ensures Best(m, i) ==> ChosenBelow(m, i, 0)
    ensures ChosenBelow(m, i, |m.st.nodes|) ==> Keeper(m, i)
  {
  }

  /** The place that carries each identity. */
  method ChooseKeepers(m: Merge) returns (keepers: map<Key, nat>)
    ensures forall k :: k in keepers ==> keepers[k] < |m.st.nodes| && KeyAt(m, keepers[k]) == k && Keeper(m, keepers[k])
    ensures forall i :: 0 <= i < |m.st.nodes| ==> KeyAt(m, i) in keepers
  {
    hide Keeper;
    hide Best;
    hide ChosenBelow;
    keepers := ChooseBest(m);
    forall k | k in keepers ensures ChosenBelow(m, keepers[k], 0) { ChosenSelf(m, keepers[k]); }
    for i := 0 to |m.st.nodes|
      invariant forall k :: k in keepers ==>
               keepers[k] < |m.st.nodes| && KeyAt(m, keepers[k]) == k && ChosenBelow(m, keepers[k], i)
      invariant forall j :: 0 <= j < |m.st.nodes| ==> KeyAt(m, j) in keepers
    {
      var k := KeyAt(m, i);
      ChosenSelf(m, i);
      if k in m.snap.desired && m.st.nodes[i].url == m.snap.desired[k] && MustKeep(m.st.nodes[i], m.snap.refreshing) {
        forall k' | k' in keepers && k' != k
          ensures ChosenBelow(m, keepers[k'], i + 1) { ChosenStep(m, keepers[k'], i); }
        keepers := keepers[k := i];
      } else {
        forall k' | k' in keepers ensures ChosenBelow(m, keepers[k'], i + 1) { ChosenStep(m, keepers[k'], i); }
      }
    }
    forall k | k in keepers ensures Keeper(m, keepers[k]) { ChosenSelf(m, keepers[k]); }
  }

  /** The choice of keepers, seen as a map. */
  ghost predicate Chosen(m: Merge, keepers: map<Key, nat>) {
    && (forall k :: k in keepers ==> keepers[k] < |m.st.nodes| && KeyAt(m, keepers[k]) == k && Keeper(m, keepers[k]))
    && (forall i :: 0 <= i < |m.st.nodes| ==> KeyAt(m, i) in keepers)
  }

  lemma ChosenIsKeeper(m: Merge, keepers: map<Key, nat>, i: nat)
    requires Chosen(m, keepers) && i < |m.st.nodes|
    ensures keepers[KeyAt(m, i)] == i <==> Keeper(m, i)
  {
  }

  function Look(current: map<Key, Id>, k: Key): Id {
    if k in current then current[k] else 0
  }

  /** The sources node i ends up with. */
  method Renew(m: Merge, keepers: map<Key, nat>, i: nat) returns (members: seq<Source>)
    requires Chosen(m, keepers) && i < |m.st.nodes|
    ensures members == Members(m, i)
  {
    members := Retain(m.st.nodes[i].sources, m.snap.refreshing);
    ChosenIsKeeper(m, keepers, i);
    ChosenHas(m, keepers, i);
    hide Keeper;
    hide Outside;
    hide Sort;
    hide Chosen;
    if keepers[KeyAt(m, i)] == i {
      members := members + if KeyAt(m, i) in m.snap.carriers then m.snap.carriers[KeyAt(m, i)] else [];
    } else {
      assert members == members + [];
    }
    members := Sort(members);
  }

  /** The sources that are not refreshed. */
  method Retain(own: seq<Source>, refreshing: set<Source>) returns (members: seq<Source>)
    ensures members == Outside(own, refreshing)
  {
    members := [];
    for j := 0 to |own|
      invariant members == Outside(own[..j], refreshing)
    {
      assert own[..j + 1][..j] == own[..j];
      if own[j] !in refreshing { members := members + [own[j]]; }
    }
    assert own[..|own|] == own;
  }

  /** Goes over the stored nodes: who stays, with which sources and link, and who now stands for each identity. */
  method Sweep(m: Merge, keepers: map<Key, nat>) returns (nodes: seq<Node>, removed: seq<Id>, current: map<Key, Id>)
    requires Chosen(m, keepers)
    ensures nodes == Survivors(m, |m.st.nodes|)
    ensures (set id | id in removed) == Removed(m)
    ensures forall k :: Look(current, k) == Holder(m, |m.st.nodes|, k)
  {
    hide Keeper;
    hide Members;
    hide Chosen;
    nodes, removed, current := [], [], map[];
    for i := 0 to |m.st.nodes|
      invariant nodes == Survivors(m, i)
      invariant forall id :: id in removed <==> exists j :: 0 <= j < i && Dropped(m, j) && m.st.nodes[j].id == id
      invariant forall k :: Look(current, k) == Holder(m, i, k)
    {
      var k := KeyAt(m, i);
      var members := Renew(m, keepers, i);
      ChosenIsKeeper(m, keepers, i);
      ghost var was := current;
      assert k in keepers by { ChosenHas(m, keepers, i); }
      var n := m.st.nodes[i].(sources := members);
      if n.managed && members == [] {
        removed := removed + [n.id];
      } else {
        if Look(current, k) == 0 || keepers[k] == i { current := current[k := n.id]; }
        if k in m.snap.desired && keepers[k] == i && n.managed && n.url != m.snap.desired[k] {
          if k.Config? && n.name == DisplayName(n.url) { n := n.(name := DisplayName(m.snap.desired[k])); }
          n := n.(url := m.snap.desired[k]);
        }
        nodes := nodes + [n];
      }
      HolderStep(m, i, was, current);
    }
  }

  lemma ChosenHas(m: Merge, keepers: map<Key, nat>, i: nat)
    requires Chosen(m, keepers) && i < |m.st.nodes|
    ensures KeyAt(m, i) in keepers
  {
  }

  lemma HolderStep(m: Merge, i: nat, was: map<Key, Id>, now: map<Key, Id>)
    requires i < |m.st.nodes| && forall k :: Look(was, k) == Holder(m, i, k)
    requires now == if !Dropped(m, i) && (Look(was, KeyAt(m, i)) == 0 || Keeper(m, i))
             then was[KeyAt(m, i) := m.st.nodes[i].id] else was
    ensures forall k :: Look(now, k) == Holder(m, i + 1, k)
  {
  }

  /** There is always an identifier nobody has. */
  lemma {:induction false} FreshId(used: set<Id>) returns (id: Id)
    ensures id != 0 && forall x :: x in used ==> x < id
  {
    id := 1;
    if used != {} {
      var x :| x in used;
      id := FreshId(used - {x});
      assert used == (used - {x}) + {x};
      if id <= x { id := x + 1; }
    }
  }

  lemma {:induction false} NewKeysPrefix(m: Merge, n: nat)
    requires n <= |m.snap.order|
    ensures NewKeys(m, n) <= Coming(m)
    decreases |m.snap.order| - n
  {
    if n < |m.snap.order| { NewKeysPrefix(m, n + 1); }
  }

  /** The additions for the first identities of `Coming`, with the identifiers given so far. */
  ghost predicate Extended(m: Merge, n: nat, holders: map<Key, Id>, added: seq<Node>, ids: seq<Id>,
                           current: map<Key, Id>)
    requires Proper(m) && n <= |m.snap.order|
  {
    && |ids| == |added| == |NewKeys(m, n)| && NewKeys(m, n) <= Coming(m)
    && Distinct(ids) && (forall t :: 0 <= t < |ids| ==> ids[t] != 0 && !HasId(m.st.nodes, ids[t]))
    && (forall t :: 0 <= t < |added| ==> AddedAt(m, added, ids, t))
    && (forall t :: 0 <= t < |ids| ==> Look(current, NewKeys(m, n)[t]) == ids[t])
    && (forall k :: k !in NewKeys(m, n) ==> Look(current, k) == Look(holders, k))
  }

  ghost predicate AddedAt(m: Merge, added: seq<Node>, ids: seq<Id>, t: nat)
    requires Proper(m) && t < |added| && t < |ids| <= |Coming(m)|
  {
    Coming(m)[t] in Coming(m) && added[t] == Added(m, Coming(m)[t], ids[t])
  }

  lemma ExtendMore(m: Merge, n: nat, holders: map<Key, Id>, added: seq<Node>, ids: seq<Id>, current: map<Key, Id>,
                   id: Id)
    requires Proper(m) && n < |m.snap.order| && Extended(m, n, holders, added, ids, current)
    requires !Known(m, m.snap.order[n]) && id != 0 && !HasId(m.st.nodes, id) && id !in ids
    ensures m.snap.order[n] in Coming(m)
    ensures var k := m.snap.order[n];
            Extended(m, n + 1, holders, added + [Added(m, k, id)], ids + [id], current[k := id])
  {
    hide Added;
    hide Known;
    hide HasId;
    hide Proper;
    hide Distinct;
    hide AddedAt;
    var k := m.snap.order[n];
    NewKeysPrefix(m, n + 1);
    OrderFresh(m, n);
    DistinctSnoc(ids, id);
    assert NewKeys(m, n + 1) == NewKeys(m, n) + [k];
    assert NewKeys(m, n + 1)[|ids|] == k == Coming(m)[|ids|];
    var added', ids' := added + [Added(m, k, id)], ids + [id];
    forall t | 0 <= t < |added'|
      ensures AddedAt(m, added', ids', t) { AddedStays(m, added, ids, Added(m, k, id), id, t); }
  }

  lemma OrderFresh(m: Merge, n: nat)
    requires Proper(m) && n < |m.snap.order|
    ensures m.snap.order[n] !in NewKeys(m, n)
  {
    NewKeysFacts(m, n);
    assert m.snap.order[n] !in m.snap.order[..n];
  }

  lemma AddedStays(m: Merge, added: seq<Node>, ids: seq<Id>, node: Node, id: Id, t: nat)
    requires Proper(m) && |added| == |ids| < |Coming(m)| && t <= |added|
    requires t < |added| ==> AddedAt(m, added, ids, t)
    requires Coming(m)[|ids|] in Coming(m) && node == Added(m, Coming(m)[|ids|], id)
    ensures AddedAt(m, added + [node], ids + [id], t)
  {
  }

  lemma ExtendedIsAll(m: Merge, holders: map<Key, Id>, added: seq<Node>, ids: seq<Id>, current: map<Key, Id>)
    requires Proper(m) && Extended(m, |m.snap.order|, holders, added, ids, current)
    ensures GoodIds(m, ids) && added == Additions(m, ids)
  {
    hide HasId;
    hide Added;
    hide Proper;
    forall t | 0 <= t < |ids| ensures added[t] == Additions(m, ids)[t] { assert AddedAt(m, added, ids, t); }
  }

  lemma ExtendedIsNow(m: Merge, holders: map<Key, Id>, added: seq<Node>, ids: seq<Id>, current: map<Key, Id>, k: Key)
    requires Proper(m) && Extended(m, |m.snap.order|, holders, added, ids, current)
    requires Look(holders, k) == Holder(m, |m.st.nodes|, k)
    ensures Look(current, k) == Now(m, ids, k)
  {
    hide HasId;
    hide Proper;
    hide AddedAt;
    CurrentIs(m, ids, |ids|, k);
    assert Coming(m)[..|ids|] == Coming(m);
  }

  /** A node for identity k, under an identifier nobody has. */
  method MakeNode(m: Merge, k: Key, used: set<Id>) returns (n: Node)
    requires Proper(m) && k in Coming(m)
    ensures n.id != 0 && n.id !in used && n == Added(m, k, n.id)
  {
    NewKeysFacts(m, |m.snap.order|);
    ghost var free := FreshId(used);
    assert free !in used;
    var id :| id != 0 && id !in used;
    var u := m.snap.desired[k];
    n := Node(id, DisplayName(u), u.key.protocol, u, Sort(m.snap.carriers[k]), true);
  }

  /** Adds a node for every identity no stored node has. */
  method Extend(m: Merge, keepers: map<Key, nat>, kept: seq<Node>, holders: map<Key, Id>)
    returns (nodes: seq<Node>, current: map<Key, Id>, ids: seq<Id>)
    requires Proper(m) && Chosen(m, keepers) && kept == Survivors(m, |m.st.nodes|)
    requires forall k :: Look(holders, k) == Holder(m, |m.st.nodes|, k)
    ensures GoodIds(m, ids)
    ensures nodes == Nodes(m, ids)
    ensures forall k :: Look(current, k) == Now(m, ids, k)
  {
    hide Extended;
    hide Proper;
    hide Chosen;
    hide Added;
    hide Known;
    hide HasId;
    var used := set i | 0 <= i < |m.st.nodes| :: m.st.nodes[i].id;
    UsedIs(m.st.nodes);
    var added: seq<Node> := [];
    current, ids := holders, [];
    NothingExtended(m, holders);
    for j := 0 to |m.snap.order|
      invariant Extended(m, j, holders, added, ids, current)
      invariant forall id :: id in used <==> HasId(m.st.nodes, id) || id in ids
    {
      var k := m.snap.order[j];
      ChosenIsKnown(m, keepers, k);
      if k in keepers {
        ExtendSkip(m, j, holders, added, ids, current);
      } else {
        ComingHas(m, j);
        var n := MakeNode(m, k, used);
        ExtendMore(m, j, holders, added, ids, current, n.id);
        used := used + {n.id};
        added, ids, current := added + [n], ids + [n.id], current[k := n.id];
      }
    }
    nodes := kept + added;
    ExtendedIsAll(m, holders, added, ids, current);
    forall k ensures Look(current, k) == Now(m, ids, k) { ExtendedIsNow(m, holders, added, ids, current, k); }
  }

  lemma UsedIs(nodes: seq<Node>)
    ensures forall id :: id in (set i | 0 <= i < |nodes| :: nodes[i].id) <==> HasId(nodes, id)
  {
  }

  lemma ChosenIsKnown(m: Merge, keepers: map<Key, nat>, k: Key)
    requires Chosen(m, keepers)
    ensures k in keepers <==> Known(m, k)
  {
  }

  lemma ComingHas(m: Merge, n: nat)
    requires n < |m.snap.order| && !Known(m, m.snap.order[n])
    ensures m.snap.order[n] in Coming(m)
  {
    NewKeysPrefix(m, n + 1);
    assert NewKeys(m, n + 1)[|NewKeys(m, n)|] == m.snap.order[n];
  }

  lemma NothingExtended(m: Merge, holders: map<Key, Id>)
    requires Proper(m)
    ensures Extended(m, 0, holders, [], [], holders)
  {
  }

  lemma ExtendSkip(m: Merge, n: nat, holders: map<Key, Id>, added: seq<Node>, ids: seq<Id>, current: map<Key, Id>)
    requires Proper(m) && n < |m.snap.order| && Extended(m, n, holders, added, ids, current)
             && Known(m, m.snap.order[n])
    ensures Extended(m, n + 1, holders, added, ids, current)
  {
  }

  /** The node standing for the first entry of each download, source by source. */
  method Lead(m: Merge, ghost ids: seq<Id>, batch: seq<Download>, current: map<Key, Id>)
    returns (first: map<Source, Id>)
    requires |ids| == |Coming(m)| && forall i :: 0 <= i < |batch| ==> batch[i].nodes != []
    requires forall k :: Look(current, k) == Now(m, ids, k)
    ensures forall x :: (if x in first then first[x] else 0) == Leading(m, ids, batch, x)
  {
    hide Now;
    first := map[];
    for i := 0 to |batch|
      invariant forall x :: (if x in first then first[x] else 0) == Leading(m, ids, batch[..i], x)
    {
      assert batch[..i + 1][..i] == batch[..i];
      first := first[batch[i].source := Look(current, batch[i].nodes[0].url.key)];
    }
    assert batch[..|batch|] == batch;
  }

  /** What takes over from a removed node. */
  method Succeed(m: Merge, ghost ids: seq<Id>, batch: seq<Download>, current: map<Key, Id>, first: map<Source, Id>,
                 gone: Node)
    returns (id: Id)
    requires |ids| == |Coming(m)| && forall i :: 0 <= i < |batch| ==> batch[i].nodes != []
    requires forall k :: Look(current, k) == Now(m, ids, k)
    requires forall x :: (if x in first then first[x] else 0) == Leading(m, ids, batch, x)
    ensures id == Successor(m, ids, batch, gone)
  {
    hide Now;
    id := Look(current, gone.url.key);
    if id == 0 {
      ghost var found := FromSources(m, ids, batch, gone, m.snap.subscriptions);
      var i := 0;
      while i < |m.snap.subscriptions| && id == 0
        invariant 0 <= i <= |m.snap.subscriptions|
        invariant if id != 0 then id == found else FromSources(m, ids, batch, gone, m.snap.subscriptions[i..]) == found
      {
        var x := m.snap.subscriptions[i];
        assert m.snap.subscriptions[i..][1..] == m.snap.subscriptions[i + 1..];
        if x in gone.sources && x in first { id := first[x]; }
        i := i + 1;
      }
    }
    if id == 0 && m.snap.order != [] { id := Look(current, m.snap.order[0]); }
  }

  /** Where the selections of removed nodes go. */
  method Replace(m: Merge, ghost ids: seq<Id>, batch: seq<Download>, current: map<Key, Id>, removed: seq<Id>)
    returns (replacements: map<Id, Id>)
    requires |ids| == |Coming(m)| && forall i :: 0 <= i < |batch| ==> batch[i].nodes != []
    requires forall k :: Look(current, k) == Now(m, ids, k)
    requires (set id | id in removed) == Removed(m)
    ensures replacements.Keys == Removed(m)
    ensures forall id :: id in replacements ==> replacements[id] == Follow(m, ids, batch, id)
  {
    hide Now;
    hide Dropped;
    hide Successor;
    hide Leading;
    var first := Lead(m, ids, batch, current);
    replacements := map[];
    for i := 0 to |removed|
      invariant replacements.Keys == set id | id in removed[..i]
      invariant forall id :: id in replacements ==> replacements[id] == Follow(m, ids, batch, id)
    {
      var id := removed[i];
      assert id in Removed(m);
      assert HasId(m.st.nodes, id);
      var heir := Succeed(m, ids, batch, current, first, m.st.nodes[FindIndex(m.st.nodes, id)]);
      replacements := replacements[id := heir];
    }
    assert removed[..|removed|] == removed;
  }

  /** The stored nodes, subscriptions, selections and measurements. */
  class LiveStore {
    var nodes: seq<Node>
    var defaultId: Id
    var sceneNodes: map<Scene, Id>
    var enabled: set<Scene>
    var subscriptions: seq<Source>
    var speed: set<Id>

    function Value(): Store
      reads this
    {
      Store(nodes, defaultId, sceneNodes, enabled, subscriptions, speed)
    }

    constructor (st: Store)
      ensures Value() == st
    {
      nodes, defaultId, sceneNodes := st.nodes, st.defaultId, st.sceneNodes;
      enabled, subscriptions, speed := st.enabled, st.subscriptions, st.speed;
    }

    /** Merges a batch of downloads, all of it or none of it. */
    method Reconcile(batch: seq<Download>) returns (ok: bool, ids: seq<Id>)
      modifies this
      ensures ok <==> Permitted(old(Value()), batch)
      ensures if ok then Becomes(old(Value()), batch, ids, Value()) else Value() == old(Value())
    {
      hide Acceptable;
      hide GoodIds;
      hide Nodes;
      hide Follow;
      hide NewDefault;
      hide Proper;
      hide Removed;
      hide Now;
      hide Chosen;
      hide Keeper;
      hide Staying;
      hide Coming;
      ids := [];
      var snap;
      ok, snap := Collect(subscriptions, batch);
      if !ok { return; }
      var m := Merge(Value(), snap);
      assert m == MergeOf(Value(), batch) && Proper(m);
      var keepers := ChooseKeepers(m);
      ChosenWhen(m, keepers);
      var kept, removed, holders := Sweep(m, keepers);
      var merged, current;
      merged, current, ids := Extend(m, keepers, kept, holders);
      GoodCount(m, ids);
      if |merged| > MAX_NODES { return false, ids; }
      AcceptedHaveNodes(subscriptions, batch);
      var replacements := Replace(m, ids, batch, current, removed);
      Select(m, ids, batch, replacements, merged);
      nodes, subscriptions := merged, snap.subscriptions;
      speed := speed - set id | id in removed;
    }

    /** Moves the default and the scenes off removed nodes. */
    method Select(m: Merge, ghost ids: seq<Id>, batch: seq<Download>, replacements: map<Id, Id>, merged: seq<Node>)
      requires m.st == Value() && Proper(m) && |ids| == |Coming(m)| && merged == Nodes(m, ids)
      requires forall i :: 0 <= i < |batch| ==> batch[i].nodes != []
      requires replacements.Keys == Removed(m) && forall id :: id in replacements ==>
               replacements[id] == Follow(m, ids, batch, id)
      modifies this`defaultId, this`sceneNodes
      ensures defaultId == NewDefault(m, ids, batch)
      ensures sceneNodes == map s | s in m.st.sceneNodes :: Follow(m, ids, batch, m.st.sceneNodes[s])
    {
      hide Follow;
      hide Nodes;
      hide Proper;
      hide Removed;
      hide Coming;
      var was := if HasId(nodes, defaultId) then defaultId else FirstId(nodes);
      hide HasId;
      forall id ensures (if id in replacements then replacements[id] else id) == Follow(m, ids, batch, id) {
        FollowElsewhere(m, ids, batch, id);
      }
      if was in replacements {
        defaultId := replacements[was];
      } else if nodes == [] && merged != [] {
        defaultId := merged[0].id;
      }
      sceneNodes := map s | s in sceneNodes :: if sceneNodes[s] in replacements then replacements[sceneNodes[s]]
          else sceneNodes[s];
    }
  }

  lemma ChosenWhen(m: Merge, keepers: map<Key, nat>)
    requires forall k :: k in keepers ==>
             keepers[k] < |m.st.nodes| && KeyAt(m, keepers[k]) == k && Keeper(m, keepers[k])
    requires forall i :: 0 <= i < |m.st.nodes| ==> KeyAt(m, i) in keepers
    ensures Chosen(m, keepers)
  {
  }

  lemma AcceptedHaveNodes(known: seq<Source>, batch: seq<Download>)
    requires Acceptable(known, batch)
    ensures forall i :: 0 <= i < |batch| ==> batch[i].nodes != []
  {
  }

  lemma GoodCount(m: Merge, ids: seq<Id>)
    requires Proper(m) && GoodIds(m, ids)
    ensures |ids| == |Coming(m)| && |Nodes(m, ids)| == |Kept(m, |m.st.nodes|)| + |Coming(m)|
    ensures Staying(m) == Kept(m, |m.st.nodes|)
  {
    NodesSize(m, ids);
  }

  lemma FollowElsewhere(m: Merge, ids: seq<Id>, batch: seq<Download>, id: Id)
    requires |ids| == |Coming(m)| && forall i :: 0 <= i < |batch| ==> batch[i].nodes != []
    ensures id !in Removed(m) ==> Follow(m, ids, batch, id) == id
  {
  }
}
