/**
 * The multi-flow editor page: the data a dropped node starts with, the wording of the delete
 * prompt and the auto-layout rooted at a `start` or `subflowStart` node. The list updaters
 * themselves are those of EditorOps.
 */
module EditorPage {
  import opened Wrappers
  import opened Seqs
  import opened Graph
  import opened JsText
  import opened Validators
  import opened EngineSpec
  import Layout

  /** The node types auto-layout starts from. */
  const RootTypes: set<string> := {"start", "subflowStart"}

  const DefaultButtons: seq<Button> := [Button("btn_1", "Option 1"), Button("btn_2", "Option 2")]

  const DefaultItems: seq<ListItem> := [
    ListItem("list_1", "Option 1", Some("Description 1")),
    ListItem("list_2", "Option 2", Some("Description 2"))]

  /** The data of a node dropped from the sidebar, by node type. */
  function DropDefaults(nodeType: string): (r: NodeData)
    ensures r.message == Some(if nodeType == "plainMessage" then "New message" else "Choose an option")
    ensures r.buttons == (if nodeType == "buttonMessage" then Some(DefaultButtons) else None)
    ensures r.buttonText == (if nodeType == "listMessage" then Some("View Options") else None)
    ensures r.listItems == (if nodeType == "listMessage" then Some(DefaultItems) else None)
    ensures r.targetFlowId == (if nodeType == "gotoSubflow" then Some("") else None)
  {
    NodeData(
      Some(if nodeType == "plainMessage" then "New message" else "Choose an option"),
      if nodeType == "buttonMessage" then Some(DefaultButtons) else None,
      if nodeType == "listMessage" then Some("View Options") else None,
      if nodeType == "listMessage" then Some(DefaultItems) else None,
      if nodeType == "gotoSubflow" then Some("") else None)
  }

  /** Both default buttons of a dropped button node pass validation and are sent. */
  lemma DroppedButtonsAreSent()
    ensures UniqueButtons(DropDefaults("buttonMessage").buttons) == DefaultButtons
  {
    DefaultTitles();
    DefaultButtonsValid();
    DefaultButtonsDistinct();
  }

  lemma DefaultTitles()
    ensures Trim("Option 1") == "Option 1" && Trim("Option 2") == "Option 2"
  {
    assert TrimStart("Option 1") == "Option 1" && TrimStart("Option 2") == "Option 2";
  }

  lemma DefaultButtonsValid()
    requires Trim("Option 1") == "Option 1" && Trim("Option 2") == "Option 2"
    ensures ValidButtons(Some(DefaultButtons)) == DefaultButtons
  {
    var bs := DefaultButtons;
    assert IsValidButtonTitle(bs[0].title) && IsValidButtonTitle(bs[1].title);
    FilterAll(bs, (b: Button) => IsValidButtonTitle(b.title));
  }

  lemma DefaultButtonsDistinct()
    requires Trim("Option 1") == "Option 1" && Trim("Option 2") == "Option 2"
    ensures FirstByKey(DefaultButtons, TrimmedTitle) == DefaultButtons
  {
    assert TrimmedTitle(DefaultButtons[0]) == "Option 1" && TrimmedTitle(DefaultButtons[1]) == "Option 2";
    FirstByKeyNoRepeat(DefaultButtons, TrimmedTitle);
  }

  /** Both default items of a dropped list node pass validation, under the label "View Options". */
  lemma DroppedListIsSent()
    ensures ValidListItems(DropDefaults("listMessage").listItems) == DefaultItems
    ensures ButtonLabel(DropDefaults("listMessage").buttonText) == "View Options"
  {
    var items := DefaultItems;
    DefaultTitles();
    assert IsValidItemTitle(items[0].title) && IsValidItemTitle(items[1].title);
    FilterAll(items, (it: ListItem) => IsValidItemTitle(it.title));
  }

  /** A freshly dropped sub-flow node has an empty target, so running it just follows its edge. */
  lemma DroppedGotoAdvances(env: Env, w: World, node: Node, flowId: string, fuel: nat)
    requires flowId in env.flows
    requires node.data == DropDefaults("gotoSubflow")
    ensures RunGoto(env, w, node, flowId, fuel) == Advance(env, w, node.id, flowId, fuel)
  {
  }

  /** The subject of the delete confirmation. */
  function DeleteSubject(nodeType: string): (r: string)
    ensures r == "START node" <==> nodeType in RootTypes
    ensures r != "START node" ==> r == "this node"
  {
    if nodeType == "start" || nodeType == "subflowStart" then "START node" else "this node"
  }

  /**
   * handleAutoLayout: without a `start` or `subflowStart` node nothing moves; otherwise the
   * breadth-first arrangement of Layout, which for unique ids holds every node exactly once.
   */
  method HandleAutoLayout(nodes: seq<Node>, edges: seq<Edge>) returns (out: seq<Node>)
    ensures Layout.Root(nodes, RootTypes).None? ==> out == nodes
    ensures Layout.Root(nodes, RootTypes).Some? ==>
      exists k :: Layout.Arranged(nodes, edges, Layout.Root(nodes, RootTypes).value, out, k)
    ensures UniqueIds(nodes) ==>
      |out| == |nodes| && UniqueIds(out) && IdSet(out) == IdSet(nodes) && Layout.FromInput(nodes, out)
  {
    ghost var k;
    out, k := Layout.AutoLayout(nodes, edges, RootTypes);
    if UniqueIds(nodes) {
      if Layout.Root(nodes, RootTypes).Some? {
        Layout.ArrangedIsPermutation(nodes, edges, Layout.Root(nodes, RootTypes).value, out, k);
      } else {
        Layout.NodeMapUnique(nodes);
      }
    }
  }
}
