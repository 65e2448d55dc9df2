/** The check every Store passes before it is used or saved. */
module StoreCheck {
  import opened SourceLists
  import opened Subscriptions

  /** No source repeats and every one is known. */
  method CheckSources(sources: seq<Source>, known: set<Source>) returns (ok: bool)
    ensures ok <==> Distinct(sources) && forall x :: x in sources ==> x in known
  {
    var seen: set<Source> := {};
    for i := 0 to |sources|
      invariant seen == set x | x in sources[..i]
      invariant seen <= known && Distinct(sources[..i])
    {
      DistinctSnoc(sources[..i], sources[i]);
      assert sources[..i + 1] == sources[..i] + [sources[i]];
      if sources[i] !in known || sources[i] in seen {
        assert Distinct(sources) ==> Distinct(sources[..i + 1]);
        return false;
      }
      seen := seen + {sources[i]};
    }
    assert sources[..|sources|] == sources;
    ok := true;
  }

  ghost predicate GoodNodes(nodes: seq<Node>, subscriptions: seq<Source>) {
    DistinctIds(nodes) && DistinctUrls(nodes) && forall i :: 0 <= i < |nodes| ==> ValidNode(nodes[i], subscriptions)
  }

  lemma GoodPrefix(nodes: seq<Node>, subscriptions: seq<Source>, n: nat)
    requires n <= |nodes| && GoodNodes(nodes, subscriptions)
    ensures GoodNodes(nodes[..n], subscriptions)
  {
  }

  lemma GoodMore(nodes: seq<Node>, subscriptions: seq<Source>, n: Node)
    ensures GoodNodes(nodes + [n], subscriptions) <==>
              && GoodNodes(nodes, subscriptions) && ValidNode(n, subscriptions)
              && forall i :: 0 <= i < |nodes| ==> nodes[i].id != n.id && nodes[i].url != n.url
  {
    hide ValidNode;
    var more := nodes + [n];
    if GoodNodes(more, subscriptions) {
      forall i | 0 <= i < |nodes|
        ensures nodes[i].id != n.id && nodes[i].url != n.url && ValidNode(nodes[i], subscriptions) {
        assert more[i].id != more[|nodes|].id && more[i].url != more[|nodes|].url;
        assert ValidNode(more[i], subscriptions);
      }
      assert ValidNode(more[|nodes|], subscriptions);
      GoodPrefix(more, subscriptions, |nodes|);
      assert more[..|nodes|] == nodes;
    }
  }

  /** Identifiers and links are unique, protocols fit, sources are known and unique. */
  method CheckNodes(nodes: seq<Node>, subscriptions: seq<Source>) returns (ok: bool, ids: set<Id>)
    ensures ok <==> GoodNodes(nodes, subscriptions)
    ensures ok ==> forall id :: id in ids <==> HasId(nodes, id)
  {
    hide GoodNodes;
    var urls: set<Url> := {};
    var known := set x | x in subscriptions;
    ids := {};
    assert GoodNodes(nodes[..0], subscriptions) by { NoNodesAreGood(subscriptions); }
    for i := 0 to |nodes|
      invariant ids == set j | 0 <= j < i :: nodes[j].id
      invariant urls == set j | 0 <= j < i :: nodes[j].url
      invariant GoodNodes(nodes[..i], subscriptions)
    {
      var n := nodes[i];
      GoodMore(nodes[..i], subscriptions, n);
      assert nodes[..i + 1] == nodes[..i] + [n];
      if GoodNodes(nodes, subscriptions) { GoodPrefix(nodes, subscriptions, i + 1); }
      assert (n.id in ids || n.url in urls) <==>
          exists j :: 0 <= j < i && (nodes[..i][j].id == n.id || nodes[..i][j].url == n.url);
      if n.id == 0 || n.id in ids { return false, ids; }
      if |n.sources| > MAX_SUBSCRIPTIONS { return false, ids; }
      var sources := CheckSources(n.sources, known);
      if !sources || n.url in urls || n.protocol != n.url.key.protocol { return false, ids; }
      ids, urls := ids + {n.id}, urls + {n.url};
    }
    assert nodes[..|nodes|] == nodes;
    ok := true;
  }

  lemma NoNodesAreGood(subscriptions: seq<Source>)
    ensures GoodNodes([], subscriptions)
  {
  }

  /** What a Store may hold, in terms of its lists. */
  lemma ValidStoreIs(st: Store)
    ensures var ids := set n | n in st.nodes :: n.id;
            ValidStore(st) <==>
              && |st.nodes| <= 4096 && |st.subscriptions| <= 512
              && (st.enabled != {} ==> st.nodes != [])
              && (forall i, j :: 0 <= i < |st.subscriptions| && 0 <= j < |st.subscriptions| ==>
                    st.subscriptions[i] == st.subscriptions[j] ==> i == j)
              && (forall i, j :: 0 <= i < |st.nodes| && 0 <= j < |st.nodes| ==>
                    st.nodes[i].id == st.nodes[j].id || st.nodes[i].url == st.nodes[j].url ==> i == j)
              && (forall n :: n in st.nodes ==> NodeFits(n, st.subscriptions))
              && 0 !in ids && st.defaultId in ids + {0} && st.sceneNodes.Values <= ids && st.speed <= ids
  {
    IdsAre(st.nodes);
    forall i | 0 <= i < |st.nodes| ensures st.nodes[i] in st.nodes {}
    if ValidStore(st) { assert forall s :: s in st.sceneNodes ==> HasId(st.nodes, st.sceneNodes[s]); }
  }

  predicate NodeFits(n: Node, subscriptions: seq<Source>) {
    && n.protocol == n.url.key.protocol && |n.sources| <= 512
    && (forall x :: x in n.sources ==> x in subscriptions)
    && (forall i, j :: 0 <= i < |n.sources| && 0 <= j < |n.sources| ==> n.sources[i] == n.sources[j] ==> i == j)
  }

  lemma IdsAre(nodes: seq<Node>)
    ensures var ids := set n | n in nodes :: n.id; forall id :: id in ids <==> HasId(nodes, id)
  {
    var ids := set n | n in nodes :: n.id;
    forall id ensures id in ids <==> HasId(nodes, id) {
      if HasId(nodes, id) {
        var i :| 0 <= i < |nodes| && nodes[i].id == id;
        assert nodes[i] in nodes;
      }
    }
  }

  /** Decides exactly the Store invariant. */
  method Check(st: Store) returns (ok: bool)
    ensures ok <==> ValidStore(st)
  {
    assert ValidStore(st) ==> GoodNodes(st.nodes, st.subscriptions);
    hide ValidNode;
    hide Distinct;
    hide DistinctIds;
    hide DistinctUrls;
    if |st.nodes| > MAX_NODES || |st.subscriptions| > MAX_SUBSCRIPTIONS { return false; }
    if st.nodes == [] && st.enabled != {} { return false; }
    ok := CheckSources(st.subscriptions, set x | x in st.subscriptions);
    if !ok { return; }
    var ids;
    ok, ids := CheckNodes(st.nodes, st.subscriptions);
    if !ok { return; }
    if st.defaultId != 0 && st.defaultId !in ids { return false; }
    if exists s :: s in st.sceneNodes && st.sceneNodes[s] !in ids { return false; }
    if exists id :: id in st.speed && id !in ids { return false; }
    ok := true;
  }
}
