/** The Store's nodes and subscriptions, and the invariant every saved Store satisfies. */
module Subscriptions {
  import opened Scenes
  import opened SourceLists

  /** Node identifiers; 0 is the empty one. */
  type Id = nat

  /** A subscription URL, which stands for its digest as well. */
  type Source = nat

  /** The identity of a connection: its complete configuration, or the exact text of a link that no
      longer parses. Both fix the protocol. */
  datatype Key = Config(protocol: string, digest: string) | Raw(protocol: string, text: string)

  /** A link: its text, the identity it parses to and the name it carries. */
  datatype Url = Url(text: string, key: Key, name: string)

  datatype Node = Node(id: Id, name: string, protocol: string, url: Url, sources: seq<Source>, managed: bool)

  datatype Store = Store(nodes: seq<Node>, defaultId: Id, sceneNodes: map<Scene, Id>, enabled: set<Scene>,
                         subscriptions: seq<Source>, speed: set<Id>)

  const MAX_NODES: nat := 4096
  const MAX_SUBSCRIPTIONS: nat := 512

  predicate HasId(nodes: seq<Node>, id: Id) {
    exists i :: 0 <= i < |nodes| && nodes[i].id == id
  }

  ghost predicate DistinctIds(nodes: seq<Node>) {
    forall i, j :: 0 <= i < j < |nodes| ==> nodes[i].id != nodes[j].id
  }

  ghost predicate DistinctUrls(nodes: seq<Node>) {
    forall i, j :: 0 <= i < j < |nodes| ==> nodes[i].url != nodes[j].url
  }

  ghost predicate ValidNode(n: Node, subscriptions: seq<Source>) {
    && n.id != 0
    && n.protocol == n.url.key.protocol
    && Distinct(n.sources) && |n.sources| <= MAX_SUBSCRIPTIONS
    && forall s :: s in n.sources ==> s in subscriptions
  }

  ghost predicate ValidStore(st: Store) {
    && |st.nodes| <= MAX_NODES && |st.subscriptions| <= MAX_SUBSCRIPTIONS
    && (st.nodes == [] ==> st.enabled == {})
    && Distinct(st.subscriptions)
    && DistinctIds(st.nodes) && DistinctUrls(st.nodes)
    && (forall i :: 0 <= i < |st.nodes| ==> ValidNode(st.nodes[i], st.subscriptions))
    && (st.defaultId == 0 || HasId(st.nodes, st.defaultId))
    && (forall s :: s in st.sceneNodes ==> HasId(st.nodes, st.sceneNodes[s]))
    && (forall id :: id in st.speed ==> HasId(st.nodes, id))
  }

  function FirstId(nodes: seq<Node>): Id {
    if nodes == [] then 0 else nodes[0].id
  }

  /** The node a scene uses. */
  function SelectedId(st: Store, scene: Scene): Id {
    if scene in st.sceneNodes && st.sceneNodes[scene] != 0 && HasId(st.nodes, st.sceneNodes[scene])
        then st.sceneNodes[scene]
    else if st.defaultId != 0 && HasId(st.nodes, st.defaultId) then st.defaultId
    else FirstId(st.nodes)
  }

  function FindIndex(nodes: seq<Node>, id: Id): (i: nat)
    requires HasId(nodes, id)
    ensures i < |nodes| && nodes[i].id == id
  {
    if nodes[0].id == id then 0 else FindIndex(nodes[1..], id) + 1
  }
}
