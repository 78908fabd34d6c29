/**
 * The list updaters of the flow editor: delete an edge, delete a node with its edges,
 * duplicate a node, replace a node's data and add a dropped node. Each takes the current
 * node and edge arrays and returns the new ones, as the `setNodes`/`setEdges` callbacks do.
 * The two editor pages share these updaters; they differ only in the defaults of a dropped
 * node, in the node types they treat as roots and in the wording of the delete prompt.
 */
module EditorOps {
  import opened Wrappers
  import opened Seqs
  import opened Graph

  /** Every edge joins two nodes that are on the canvas. */
  predicate NoDanglingEdges(nodes: seq<Node>, edges: seq<Edge>) {
    forall e :: e in edges ==> e.source in IdSet(nodes) && e.target in IdSet(nodes)
  }

  /** handleDeleteEdge: `eds.filter(e => e.id !== edgeId)`. */
  function DeleteEdge(edges: seq<Edge>, edgeId: string): (r: seq<Edge>)
    ensures forall e :: e in r <==> e in edges && e.id != edgeId
    ensures IsSubsequence(r, edges)
    ensures forall e :: multiset(r)[e] == if e.id != edgeId then multiset(edges)[e] else 0
  {
    var keep := (e: Edge) => e.id != edgeId;
    FilterIsSubsequence(edges, keep);
    FilterCount(edges, keep);
    Filter(edges, keep)
  }

  /** Deleting an id no edge carries changes nothing. */
  lemma DeleteUnknownEdge(edges: seq<Edge>, edgeId: string)
    requires forall e :: e in edges ==> e.id != edgeId
    ensures DeleteEdge(edges, edgeId) == edges
  {
    FilterAll(edges, (e: Edge) => e.id != edgeId);
  }

  /** An edge survives a node deletion when neither end is the deleted node. */
  predicate Detached(e: Edge, nodeId: string) {
    e.source != nodeId && e.target != nodeId
  }

  /**
   * handleDeleteNode: nothing happens for an unknown id or a declined confirmation;
   * otherwise the node and every edge into or out of it are removed.
   */
  function DeleteNode(flow: Flow, nodeId: string, confirmed: bool): (r: Flow)
    ensures FindNode(flow.nodes, nodeId).None? || !confirmed ==> r == flow
    ensures FindNode(flow.nodes, nodeId).Some? && confirmed ==>
      && (forall n :: n in r.nodes <==> n in flow.nodes && n.id != nodeId)
      && (forall e :: e in r.edges <==> e in flow.edges && Detached(e, nodeId))
      && IsSubsequence(r.nodes, flow.nodes)
      && IsSubsequence(r.edges, flow.edges)
      && (forall n :: multiset(r.nodes)[n] == if n.id != nodeId then multiset(flow.nodes)[n] else 0)
      && (forall e :: multiset(r.edges)[e] == if Detached(e, nodeId) then multiset(flow.edges)[e] else 0)
  {
    if FindNode(flow.nodes, nodeId).None? || !confirmed then flow
    else
      var keepNode := (n: Node) => n.id != nodeId;
      var keepEdge := (e: Edge) => Detached(e, nodeId);
      FilterIsSubsequence(flow.nodes, keepNode);
      FilterIsSubsequence(flow.edges, keepEdge);
      FilterCount(flow.nodes, keepNode);
      FilterCount(flow.edges, keepEdge);
      Flow(Filter(flow.nodes, keepNode), Filter(flow.edges, keepEdge))
  }

  /** Deleting a node never leaves an edge pointing at a node that is gone. */
  lemma DeleteNodeNoDangling(flow: Flow, nodeId: string, confirmed: bool)
    requires NoDanglingEdges(flow.nodes, flow.edges)
    ensures var r := DeleteNode(flow, nodeId, confirmed); NoDanglingEdges(r.nodes, r.edges)
  {
    var r := DeleteNode(flow, nodeId, confirmed);
    if FindNode(flow.nodes, nodeId).Some? && confirmed {
      forall e | e in r.edges
        ensures e.source in IdSet(r.nodes) && e.target in IdSet(r.nodes)
      {
        assert e in flow.edges && Detached(e, nodeId);
        SurvivingId(flow.nodes, r.nodes, nodeId, e.source);
        SurvivingId(flow.nodes, r.nodes, nodeId, e.target);
      }
    }
  }

  /** An id other than the deleted one is still carried by a kept node. */
  lemma SurvivingId(nodes: seq<Node>, kept: seq<Node>, nodeId: string, id: string)
    requires forall n :: n in kept <==> n in nodes && n.id != nodeId
    requires id in IdSet(nodes) && id != nodeId
    ensures id in IdSet(kept)
  {
    var i :| 0 <= i < |nodes| && nodes[i].id == id;
    assert nodes[i] in kept;
  }

  /** Deleting an edge keeps the remaining edges attached. */
  lemma DeleteEdgeNoDangling(nodes: seq<Node>, edges: seq<Edge>, edgeId: string)
    requires NoDanglingEdges(nodes, edges)
    ensures NoDanglingEdges(nodes, DeleteEdge(edges, edgeId))
  {
  }

  /** The copy made by handleDuplicateNode: new id `<type>-<stamp>`, moved by (+50, +50). */
  function Copy(n: Node, stamp: string): (r: Node)
    ensures r.id == n.nodeType + "-" + stamp && r.nodeType == n.nodeType && r.data == n.data
    ensures r.position == Position(n.position.x + 50, n.position.y + 50)
  {
    n.(id := n.nodeType + "-" + stamp, position := Position(n.position.x + 50, n.position.y + 50))
  }

  /**
   * handleDuplicateNode: append a copy of the first node with the id; an unknown id
   * changes nothing. `stamp` stands for `Date.now()`.
   */
  function DuplicateNode(nodes: seq<Node>, nodeId: string, stamp: string): (r: seq<Node>)
    ensures FindNode(nodes, nodeId).None? ==> r == nodes
    ensures FindNode(nodes, nodeId).Some? ==>
      |r| == |nodes| + 1 && r[..|nodes|] == nodes && r[|nodes|] == Copy(FindNode(nodes, nodeId).value, stamp)
  {
    match FindNode(nodes, nodeId)
    case None => nodes
    case Some(n) => nodes + [Copy(n, stamp)]
  }

  /** A duplicate whose id is new keeps ids unique and edges attached. */
  lemma DuplicateKeepsInvariants(nodes: seq<Node>, edges: seq<Edge>, nodeId: string, stamp: string)
    requires UniqueIds(nodes) && NoDanglingEdges(nodes, edges)
    requires FindNode(nodes, nodeId).Some? ==> Copy(FindNode(nodes, nodeId).value, stamp).id !in IdSet(nodes)
    ensures UniqueIds(DuplicateNode(nodes, nodeId, stamp))
    ensures NoDanglingEdges(DuplicateNode(nodes, nodeId, stamp), edges)
  {
    var r := DuplicateNode(nodes, nodeId, stamp);
    match FindNode(nodes, nodeId)
    case None =>
    case Some(n) =>
      forall i, j | 0 <= i < j < |r| ensures r[i].id != r[j].id {
        if j == |nodes| {
          assert r[i] == nodes[i];
        } else {
          assert r[i] == nodes[i] && r[j] == nodes[j];
        }
      }
      forall e | e in edges ensures e.source in IdSet(r) && e.target in IdSet(r) {
        var i :| 0 <= i < |nodes| && nodes[i].id == e.source;
        var j :| 0 <= j < |nodes| && nodes[j].id == e.target;
        assert r[i] == nodes[i] && r[j] == nodes[j];
      }
  }

  /** handleUpdateNode: `nds.map(node => node.id === nodeId ? {...node, data} : node)`. */
  function UpdateNode(nodes: seq<Node>, nodeId: string, data: NodeData): (r: seq<Node>)
    ensures |r| == |nodes|
    ensures forall i :: 0 <= i < |r| ==>
      && r[i].id == nodes[i].id && r[i].nodeType == nodes[i].nodeType && r[i].position == nodes[i].position
      && r[i].data == (if nodes[i].id == nodeId then data else nodes[i].data)
  {
    seq(|nodes|, i requires 0 <= i < |nodes| => if nodes[i].id == nodeId then nodes[i].(data := data) else nodes[i])
  }

  /** Updating keeps the node ids in order, so ids stay unique and edges stay attached. */
  lemma UpdateKeepsIds(nodes: seq<Node>, edges: seq<Edge>, nodeId: string, data: NodeData)
    ensures Ids(UpdateNode(nodes, nodeId, data)) == Ids(nodes)
    ensures IdSet(UpdateNode(nodes, nodeId, data)) == IdSet(nodes)
    ensures UniqueIds(nodes) ==> UniqueIds(UpdateNode(nodes, nodeId, data))
    ensures NoDanglingEdges(nodes, edges) ==> NoDanglingEdges(UpdateNode(nodes, nodeId, data), edges)
  {
    var r := UpdateNode(nodes, nodeId, data);
    forall id | id in IdSet(nodes) ensures id in IdSet(r) {
      var i :| 0 <= i < |nodes| && nodes[i].id == id;
      assert r[i] in r;
    }
    forall id | id in IdSet(r) ensures id in IdSet(nodes) {
      var i :| 0 <= i < |r| && r[i].id == id;
      assert nodes[i] in nodes;
    }
  }

  /** After an update, looking the node up finds the new data; updating twice is updating once. */
  lemma UpdateThenFind(nodes: seq<Node>, nodeId: string, data: NodeData)
    ensures var r := UpdateNode(nodes, nodeId, data);
      && (FindNode(nodes, nodeId).None? ==> r == nodes)
      && (FindNode(nodes, nodeId).Some? ==> FindNode(r, nodeId) == Some(FindNode(nodes, nodeId).value.(data := data)))
      && UpdateNode(r, nodeId, data) == r
  {
    var r := UpdateNode(nodes, nodeId, data);
    if FindNode(nodes, nodeId).Some? {
      var k := FirstIndex(nodes, (n: Node) => n.id == nodeId);
      var f := FindNode(r, nodeId);
      assert r[k].id == nodeId;
      assert f.value == r[FirstIndex(r, (n: Node) => n.id == nodeId)];
    } else {
      assert forall i :: 0 <= i < |r| ==> r[i] == nodes[i];
    }
  }

  /**
   * onDrop: a node of the dragged type, with id `<type>-<stamp>`, is appended with the page's
   * default data; nothing happens when no type was dragged or the canvas is not ready.
   */
  function DropNode(nodes: seq<Node>, nodeType: string, position: Position, stamp: string, ready: bool, data: NodeData): (r: seq<Node>)
    ensures nodeType == "" || !ready ==> r == nodes
    ensures nodeType != "" && ready ==> r == nodes + [Node(nodeType + "-" + stamp, nodeType, position, data)]
  {
    if nodeType == "" || !ready then nodes
    else nodes + [Node(nodeType + "-" + stamp, nodeType, position, data)]
  }

  /** A dropped node with a new id keeps ids unique and edges attached. */
  lemma DropKeepsInvariants(nodes: seq<Node>, edges: seq<Edge>, nodeType: string, position: Position, stamp: string, ready: bool, data: NodeData)
    requires UniqueIds(nodes) && NoDanglingEdges(nodes, edges)
    requires nodeType + "-" + stamp !in IdSet(nodes)
    ensures UniqueIds(DropNode(nodes, nodeType, position, stamp, ready, data))
    ensures NoDanglingEdges(DropNode(nodes, nodeType, position, stamp, ready, data), edges)
  {
    var r := DropNode(nodes, nodeType, position, stamp, ready, data);
    if nodeType != "" && ready {
      forall i, j | 0 <= i < j < |r| ensures r[i].id != r[j].id {
        assert r[i] == nodes[i];
        if j < |nodes| {
          assert r[j] == nodes[j];
        }
      }
      forall e | e in edges ensures e.source in IdSet(r) && e.target in IdSet(r) {
        var i :| 0 <= i < |nodes| && nodes[i].id == e.source;
        var j :| 0 <= j < |nodes| && nodes[j].id == e.target;
        assert r[i] == nodes[i] && r[j] == nodes[j];
      }
    }
  }
}
