/**
 * The single-flow editor page, the older copy of the editor: the same list updaters
 * (EditorOps), the same drop defaults except that a sub-flow node gets no target field,
 * and an auto-layout rooted only at a `start` node.
 */
module AppPage {
  import opened Wrappers
  import opened Graph
  import EditorPage
  import Layout

  /** The node types auto-layout starts from. */
  const RootTypes: set<string> := {"start"}

  /** The data of a dropped node: the editor page's defaults without `targetFlowId`. */
  function DropDefaults(nodeType: string): (r: NodeData)
    ensures r.targetFlowId.None?
    ensures r == EditorPage.DropDefaults(nodeType).(targetFlowId := None)
    ensures nodeType != "gotoSubflow" ==> r == EditorPage.DropDefaults(nodeType)
  {
    var d := EditorPage.DropDefaults(nodeType);
    NodeData(d.message, d.buttons, d.buttonText, d.listItems, None)
  }

  /** The subject of the delete confirmation: only a `start` node is called the START node. */
  function DeleteSubject(nodeType: string): (r: string)
    ensures r == "START node" <==> nodeType == "start"
    ensures r != "START node" ==> r == "this node"
    ensures nodeType != "subflowStart" ==> r == EditorPage.DeleteSubject(nodeType)
  {
    if nodeType == "start" then "START node" else "this node"
  }

  /**
   * handleAutoLayout: without a `start` node nothing moves, even when a `subflowStart` node
   * exists; otherwise the breadth-first arrangement of Layout.
   */
  method HandleAutoLayout(nodes: seq<Node>, edges: seq<Edge>) returns (out: seq<Node>)
    ensures Layout.Root(nodes, RootTypes).None? ==> out == nodes
    ensures Layout.Root(nodes, RootTypes).Some? ==>
      exists k :: Layout.Arranged(nodes, edges, Layout.Root(nodes, RootTypes).value, out, k)
    ensures UniqueIds(nodes) ==>
      |out| == |nodes| && UniqueIds(out) && IdSet(out) == IdSet(nodes) && Layout.FromInput(nodes, out)
  {
    ghost var k;
    out, k := Layout.AutoLayout(nodes, edges, RootTypes);
    if UniqueIds(nodes) {
      if Layout.Root(nodes, RootTypes).Some? {
        Layout.ArrangedIsPermutation(nodes, edges, Layout.Root(nodes, RootTypes).value, out, k);
      } else {
        Layout.NodeMapUnique(nodes);
      }
    }
  }

  /** A sub-flow canvas (a `subflowStart` node but no `start`) is not arranged here. */
  lemma SubflowCanvasNotArranged(nodes: seq<Node>)
    requires forall i :: 0 <= i < |nodes| ==> nodes[i].nodeType != "start"
    ensures Layout.Root(nodes, RootTypes).None?
  {
  }
}
