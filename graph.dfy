/**
 * The stored flow graph: typed nodes with a free-form data payload, edges with an optional
 * source handle, and the first-match lookups the engine and the editor perform on them.
 * A lookup on an array in the source (`nodes.find`, `edges.find`) returns the first match in
 * stored order; these functions do the same.
 */
module Graph {
  import opened Wrappers
  import opened Seqs

  /** Canvas coordinates of a node. */
  datatype Position = Position(x: int, y: int)

  datatype Button = Button(id: string, title: string)

  datatype ListItem = ListItem(id: string, title: string, description: Option<string>)

  /**
   * The node payload. Every field may be missing, as in the stored JSON object:
   * `message` for the message nodes, `buttons` for buttonMessage, `buttonText` and
   * `listItems` for listMessage, `targetFlowId` for gotoSubflow.
   */
  datatype NodeData = NodeData(
    message: Option<string>,
    buttons: Option<seq<Button>>,
    buttonText: Option<string>,
    listItems: Option<seq<ListItem>>,
    targetFlowId: Option<string>)

  /** A node; `nodeType` is the type tag ("start", "plainMessage", "gotoSubflow", ...). */
  datatype Node = Node(id: string, nodeType: string, position: Position, data: NodeData)

  datatype Edge = Edge(id: string, source: string, target: string, sourceHandle: Option<string>)

  /** A stored flow document: its node and edge arrays in stored order. */
  datatype Flow = Flow(nodes: seq<Node>, edges: seq<Edge>)

  /** `flow.nodes.find(n => n.id === id)`. */
  function FindNode(nodes: seq<Node>, id: string): (r: Option<Node>)
    ensures r.None? <==> forall j :: 0 <= j < |nodes| ==> nodes[j].id != id
    ensures r.Some? ==> r.value in nodes && r.value.id == id
    ensures r.Some? ==> r.value == nodes[FirstIndex(nodes, (n: Node) => n.id == id)]
  {
    First(nodes, (n: Node) => n.id == id)
  }

  /** `nodes.find(n => n.type === t)`: the first node of type `t`. */
  function FindNodeOfType(nodes: seq<Node>, t: string): (r: Option<Node>)
    ensures r.None? <==> forall j :: 0 <= j < |nodes| ==> nodes[j].nodeType != t
    ensures r.Some? ==> r.value in nodes && r.value.nodeType == t
    ensures r.Some? ==> r.value == nodes[FirstIndex(nodes, (n: Node) => n.nodeType == t)]
  {
    First(nodes, (n: Node) => n.nodeType == t)
  }

  /** `edges.find(e => e.source === src)`: the first edge leaving `src`, whatever its handle. */
  function FirstEdgeFrom(edges: seq<Edge>, src: string): (r: Option<Edge>)
    ensures r.None? <==> forall j :: 0 <= j < |edges| ==> edges[j].source != src
    ensures r.Some? ==> r.value in edges && r.value.source == src
    ensures r.Some? ==> r.value == edges[FirstIndex(edges, (e: Edge) => e.source == src)]
  {
    First(edges, (e: Edge) => e.source == src)
  }

  /** `edges.find(e => e.source === src && e.sourceHandle === handle)`. */
  function EdgeForHandle(edges: seq<Edge>, src: string, handle: string): (r: Option<Edge>)
    ensures r.None? <==> forall j :: 0 <= j < |edges| ==> !(edges[j].source == src && edges[j].sourceHandle == Some(handle))
    ensures r.Some? ==> r.value in edges && r.value.source == src && r.value.sourceHandle == Some(handle)
    ensures r.Some? ==> r.value == edges[FirstIndex(edges, (e: Edge) => e.source == src && e.sourceHandle == Some(handle))]
  {
    First(edges, (e: Edge) => e.source == src && e.sourceHandle == Some(handle))
  }

  /** The ids of `nodes`, in order. */
  function Ids(nodes: seq<Node>): (r: seq<string>)
    ensures |r| == |nodes|
    ensures forall i :: 0 <= i < |nodes| ==> r[i] == nodes[i].id
  {
    if nodes == [] then [] else Ids(nodes[..|nodes| - 1]) + [nodes[|nodes| - 1].id]
  }

  /** No two nodes share an id. */
  predicate UniqueIds(nodes: seq<Node>) {
    forall i, j :: 0 <= i < j < |nodes| ==> nodes[i].id != nodes[j].id
  }

  /** The set of ids of `nodes`. */
  function IdSet(nodes: seq<Node>): (r: set<string>)
    ensures forall n :: n in nodes ==> n.id in r
    ensures forall id :: id in r ==> exists i :: 0 <= i < |nodes| && nodes[i].id == id
  {
    set n | n in nodes :: n.id
  }
}
