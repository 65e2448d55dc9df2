/** What a set of downloaded subscriptions asks the Store to hold. */
module Snapshots {
  import opened SourceLists
  import opened Subscriptions

  /** One downloaded entry; `parsed` tells whether its link was understood. */
  datatype Fresh = Fresh(url: Url, parsed: bool)

  datatype Download = Download(source: Source, nodes: seq<Fresh>, invalid: nat, incomplete: bool)

  /** The identities to hold, the link chosen for each, the sources that carry it, in arrival order. */
  datatype Snapshot = Snapshot(desired: map<Key, Url>, carriers: map<Key, seq<Source>>, order: seq<Key>,
                               refreshing: set<Source>, subscriptions: seq<Source>)

  /** A refresh of a known subscription must be complete. */
  predicate Complete(d: Download) {
    d.nodes != [] && d.invalid == 0 && !d.incomplete
  }

  predicate Usable(d: Download) {
    d.nodes != [] && forall i :: 0 <= i < |d.nodes| ==> d.nodes[i].parsed && d.nodes[i].url.text != ""
  }

  /** A Store with these subscriptions takes this download. */
  predicate Admits(known: seq<Source>, d: Download) {
    Usable(d) && (d.source in known ==> Complete(d))
  }

  ghost predicate DistinctSources(batch: seq<Download>) {
    forall i, j :: 0 <= i < j < |batch| ==> batch[i].source != batch[j].source
  }

  /** The batch is accepted by a Store with these subscriptions. */
  ghost predicate Acceptable(known: seq<Source>, batch: seq<Download>) {
    && (forall i :: 0 <= i < |batch| ==> Admits(known, batch[i]))
    && DistinctSources(batch)
    && |Gather(known, batch).subscriptions| <= if |known| <= MAX_SUBSCRIPTIONS then MAX_SUBSCRIPTIONS else |known|
  }

  /** What a Store asks of a download, entry by entry. */
  lemma AdmitsWhen(known: seq<Source>, d: Download)
    ensures Admits(known, d) <==>
              && |d.nodes| > 0 && (forall n :: n in d.nodes ==> n.parsed && n.url.text != "")
              && (d.source in known ==> d.invalid < 1 && d.incomplete == false)
  {
    if forall n :: n in d.nodes ==> n.parsed && n.url.text != "" {
      forall i | 0 <= i < |d.nodes| ensures d.nodes[i].parsed && d.nodes[i].url.text != "" {
        assert d.nodes[i] in d.nodes;
      }
    }
  }

  function AddUrl(s: Snapshot, source: Source, u: Url): Snapshot {
    var carriers := if u.key in s.carriers then s.carriers[u.key] else [];
    s.(desired := if u.key in s.desired then s.desired else s.desired[u.key := u],
       order := if u.key in s.desired then s.order else s.order + [u.key],
       carriers := s.carriers[u.key := if source in carriers then carriers else carriers + [source]])
  }

  function AddUrls(s: Snapshot, source: Source, nodes: seq<Fresh>): Snapshot {
    if nodes == [] then s
    else AddUrl(AddUrls(s, source, nodes[..|nodes| - 1]), source, nodes[|nodes| - 1].url)
  }

  function AddSource(s: Snapshot, known: seq<Source>, source: Source): Snapshot {
    s.(refreshing := s.refreshing + {source},
       subscriptions := if source in known then s.subscriptions else s.subscriptions + [source])
  }

  /** Everything a batch contributes, first entry of an identity winning. */
  function Gather(known: seq<Source>, batch: seq<Download>): Snapshot {
    if batch == [] then Snapshot(map[], map[], [], {}, known)
    else
      var d := batch[|batch| - 1];
      AddUrls(AddSource(Gather(known, batch[..|batch| - 1]), known, d.source), d.source, d.nodes)
  }

  /** The first entry of an identity in a batch. */
  ghost predicate FirstMention(batch: seq<Download>, i: nat, j: nat, key: Key) {
    && i < |batch| && j < |batch[i].nodes| && batch[i].nodes[j].url.key == key
    && (forall a :: 0 <= a < i ==> !Mentions(batch[a].nodes, key))
    && !Mentions(batch[i].nodes[..j], key)
  }

  lemma {:induction false} AddUrlsWants(s: Snapshot, source: Source, nodes: seq<Fresh>, key: Key)
    ensures key in AddUrls(s, source, nodes).desired <==> key in s.desired || Mentions(nodes, key)
    ensures key in s.desired ==> AddUrls(s, source, nodes).desired[key] == s.desired[key]
  {
    if nodes != [] {
      var n := |nodes| - 1;
      AddUrlsWants(s, source, nodes[..n], key);
      MentionsSnoc(nodes, key);
    }
  }

  lemma {:induction false} GatherWants(known: seq<Source>, batch: seq<Download>, key: Key)
    ensures key in Gather(known, batch).desired <==> exists a :: 0 <= a < |batch| && Mentions(batch[a].nodes, key)
  {
    if batch != [] {
      var n := |batch| - 1;
      var d, s := batch[n], Gather(known, batch[..n]);
      GatherWants(known, batch[..n], key);
      AddUrlsWants(AddSource(s, known, d.source), d.source, d.nodes, key);
      assert forall a :: 0 <= a < n ==> batch[..n][a] == batch[a];
    }
  }

  /** The first entry of an identity decides its link. */
  lemma {:induction false} FirstWins(known: seq<Source>, batch: seq<Download>, i: nat, j: nat, key: Key)
    requires FirstMention(batch, i, j, key)
    ensures key in Gather(known, batch).desired && Gather(known, batch).desired[key] == batch[i].nodes[j].url
  {
    hide *;
    var n := |batch| - 1;
    MentionIs(batch, i, j, key);
    GatherLast(known, batch);
    var d, s := batch[n], Gather(known, batch[..n]);
    if i < n {
      FirstWins(known, batch[..n], i, j, key);
    } else {
      GatherWants(known, batch[..n], key);
      assert forall a :: 0 <= a < n ==> batch[..n][a] == batch[a];
      SourceWantsNothing(s, known, d.source);
      FirstOfNodes(AddSource(s, known, d.source), d.source, d.nodes, j, key);
    }
    SourceWantsNothing(s, known, d.source);
    AddUrlsWants(AddSource(s, known, d.source), d.source, d.nodes, key);
  }

  lemma SourceWantsNothing(s: Snapshot, known: seq<Source>, source: Source)
    ensures AddSource(s, known, source).desired == s.desired
  {
  }

  lemma GatherLast(known: seq<Source>, batch: seq<Download>)
    requires batch != []
    ensures var n := |batch| - 1;
            Gather(known, batch) ==
              AddUrls(AddSource(Gather(known, batch[..n]), known, batch[n].source), batch[n].source, batch[n].nodes)
  {
  }

  lemma MentionIs(batch: seq<Download>, i: nat, j: nat, key: Key)
    requires FirstMention(batch, i, j, key)
    ensures i < |batch| && j < |batch[i].nodes| && batch[i].nodes[j].url.key == key
    ensures !Mentions(batch[i].nodes[..j], key) && forall a :: 0 <= a < i ==> !Mentions(batch[a].nodes, key)
    ensures i < |batch| - 1 ==> FirstMention(batch[..|batch| - 1], i, j, key)
  {
  }

  lemma {:induction false} FirstOfNodes(s: Snapshot, source: Source, nodes: seq<Fresh>, j: nat, key: Key)
    requires key !in s.desired && j < |nodes| && nodes[j].url.key == key && !Mentions(nodes[..j], key)
    ensures key in AddUrls(s, source, nodes).desired && AddUrls(s, source, nodes).desired[key] == nodes[j].url
  {
    var n := |nodes| - 1;
    if j < n {
      assert nodes[..n][..j] == nodes[..j];
      FirstOfNodes(s, source, nodes[..n], j, key);
    } else {
      AddUrlsWants(s, source, nodes[..n], key);
    }
  }

  /** Some download from the source lists an entry of this identity. */
  ghost predicate Lists(batch: seq<Download>, source: Source, key: Key) {
    exists i :: 0 <= i < |batch| && batch[i].source == source && Mentions(batch[i].nodes, key)
  }

  ghost predicate Mentions(nodes: seq<Fresh>, key: Key) {
    exists j :: 0 <= j < |nodes| && nodes[j].url.key == key
  }

  ghost predicate Carries(s: Snapshot, source: Source, key: Key) {
    key in s.carriers && source in s.carriers[key]
  }

  /** The bookkeeping every snapshot keeps. */
  ghost predicate Tidy(s: Snapshot) {
    && Distinct(s.order)
    && (forall k :: k in s.order <==> k in s.desired)
    && s.carriers.Keys == s.desired.Keys
    && (forall k :: k in s.desired ==> s.desired[k].key == k)
    && (forall k :: k in s.carriers ==> s.carriers[k] != [] && Distinct(s.carriers[k]))
  }

  lemma AddUrlKeepsTidy(s: Snapshot, source: Source, u: Url)
    requires Tidy(s)
    ensures Tidy(AddUrl(s, source, u))
  {
    hide Distinct;
    DistinctSnoc(s.order, u.key);
    if u.key in s.carriers { DistinctSnoc(s.carriers[u.key], source); } else { DistinctSnoc([], source); }
  }

  lemma {:induction false} AddUrlsFacts(s: Snapshot, source: Source, nodes: seq<Fresh>)
    ensures Tidy(s) ==> Tidy(AddUrls(s, source, nodes))
    ensures AddUrls(s, source, nodes).refreshing == s.refreshing
    ensures AddUrls(s, source, nodes).subscriptions == s.subscriptions
  {
    hide Tidy;
    if nodes != [] {
      AddUrlsFacts(s, source, nodes[..|nodes| - 1]);
      if Tidy(s) { AddUrlKeepsTidy(AddUrls(s, source, nodes[..|nodes| - 1]), source, nodes[|nodes| - 1].url); }
    }
  }

  lemma {:induction false} AddUrlsCarries(s: Snapshot, source: Source, nodes: seq<Fresh>, x: Source, k: Key)
    ensures Carries(AddUrls(s, source, nodes), x, k) <==> Carries(s, x, k) || (x == source && Mentions(nodes, k))
  {
    if nodes != [] {
      AddUrlsCarries(s, source, nodes[..|nodes| - 1], x, k);
      MentionsSnoc(nodes, k);
    }
  }

  lemma MentionsSnoc(nodes: seq<Fresh>, k: Key)
    requires nodes != []
    ensures Mentions(nodes, k) <==> Mentions(nodes[..|nodes| - 1], k) || nodes[|nodes| - 1].url.key == k
  {
  }

  /** Every snapshot is tidy. */
  lemma {:induction false} GatherKeepsTidy(known: seq<Source>, batch: seq<Download>)
    ensures Tidy(Gather(known, batch))
  {
    if batch != [] {
      var init, d := batch[..|batch| - 1], batch[|batch| - 1];
      GatherKeepsTidy(known, init);
      var s := AddSource(Gather(known, init), known, d.source);
      assert Tidy(s);
      hide Tidy;
      AddUrlsFacts(s, d.source, d.nodes);
    }
  }

  ghost predicate Downloaded(batch: seq<Download>, x: Source) {
    exists i :: 0 <= i < |batch| && batch[i].source == x
  }

  lemma DownloadedSnoc(batch: seq<Download>, x: Source)
    requires batch != []
    ensures Downloaded(batch, x) <==> Downloaded(batch[..|batch| - 1], x) || batch[|batch| - 1].source == x
  {
  }

  /** Exactly the downloaded sources are refreshed. */
  lemma {:induction false} GatherRefreshes(known: seq<Source>, batch: seq<Download>, x: Source)
    ensures x in Gather(known, batch).refreshing <==> Downloaded(batch, x)
  {
    if batch != [] {
      var init, d := batch[..|batch| - 1], batch[|batch| - 1];
      GatherRefreshes(known, init, x);
      AddUrlsFacts(AddSource(Gather(known, init), known, d.source), d.source, d.nodes);
      DownloadedSnoc(batch, x);
    }
  }

  /** The carriers of an identity are exactly the sources that list it. */
  lemma {:induction false} GatherCarries(known: seq<Source>, batch: seq<Download>, x: Source, k: Key)
    ensures Carries(Gather(known, batch), x, k) <==> Lists(batch, x, k)
  {
    if batch != [] {
      var init, d := batch[..|batch| - 1], batch[|batch| - 1];
      GatherCarries(known, init, x, k);
      var t := AddSource(Gather(known, init), known, d.source);
      assert Carries(t, x, k) <==> Carries(Gather(known, init), x, k);
      AddUrlsCarries(t, d.source, d.nodes, x, k);
      if Lists(batch, x, k) {
        var i :| 0 <= i < |batch| && batch[i].source == x && Mentions(batch[i].nodes, k);
        if i < |init| { assert init[i] == batch[i]; }
      }
      if Lists(init, x, k) {
        var i :| 0 <= i < |init| && init[i].source == x && Mentions(init[i].nodes, k);
        assert batch[i] == init[i];
      }
    }
  }

  /** The subscriptions are the known ones and then the new ones, each once. */
  lemma {:induction false} GatherSubscriptions(known: seq<Source>, batch: seq<Download>)
    requires Distinct(known) && DistinctSources(batch)
    ensures var r := Gather(known, batch).subscriptions;
            Distinct(r) && known <= r && forall x :: x in r <==> x in known || Downloaded(batch, x)
  {
    if batch != [] {
      var init, d := batch[..|batch| - 1], batch[|batch| - 1];
      GatherSubscriptions(known, init);
      AddUrlsFacts(AddSource(Gather(known, init), known, d.source), d.source, d.nodes);
      forall x ensures Downloaded(batch, x) <==> Downloaded(init, x) || d.source == x { DownloadedSnoc(batch, x); }
      assert !Downloaded(init, d.source);
    }
  }
}
