/**
 * The side panel that edits the selected node: it loads the node's message and buttons into
 * a draft, lets the user add, retitle and remove buttons, and on save merges the draft back
 * into the node's data, which the page then stores with EditorOps.UpdateNode.
 */
module NodePanel {
  import opened Wrappers
  import opened Seqs
  import opened Graph
  import EditorOps

  /** The panel never lets a node have more than this many buttons. */
  const MaxButtons := 3

  /** The panel's own state: the edited message and button list. */
  datatype Draft = Draft(message: string, buttons: seq<Button>)

  /** The draft a selected node starts with: missing fields read as empty. */
  function Load(node: Node): (r: Draft)
    ensures node.data.message.Some? ==> r.message == node.data.message.value
    ensures node.data.message.None? ==> r.message == ""
    ensures node.data.buttons.Some? ==> r.buttons == node.data.buttons.value
    ensures node.data.buttons.None? ==> r.buttons == []
  {
    Draft(node.data.message.GetOr(""), node.data.buttons.GetOr([]))
  }

  /**
   * handleSave: the node's data with the draft's message, and the draft's buttons for a
   * button node only; every other field is kept. The panel is not shown for a `start` node,
   * so it cannot save one.
   */
  function Save(node: Node, draft: Draft): (r: NodeData)
    requires node.nodeType != "start"
    ensures r.message == Some(draft.message)
    ensures r.buttons == (if node.nodeType == "buttonMessage" then Some(draft.buttons) else node.data.buttons)
    ensures r.buttonText == node.data.buttonText && r.listItems == node.data.listItems
    ensures r.targetFlowId == node.data.targetFlowId
  {
    node.data.(message := Some(draft.message),
               buttons := if node.nodeType == "buttonMessage" then Some(draft.buttons) else node.data.buttons)
  }

  /** Loading what was saved gives back the draft's message, and its buttons on a button node. */
  lemma SaveThenLoad(node: Node, draft: Draft)
    requires node.nodeType != "start"
    ensures Load(node.(data := Save(node, draft))).message == draft.message
    ensures node.nodeType == "buttonMessage" ==> Load(node.(data := Save(node, draft))) == draft
    ensures node.nodeType != "buttonMessage" ==> Load(node.(data := Save(node, draft))).buttons == Load(node).buttons
  {
  }

  /** Saving an unedited draft changes nothing, once the fields the panel shows are present. */
  lemma LoadThenSave(node: Node)
    requires node.nodeType != "start"
    requires node.data.message.Some?
    requires node.nodeType == "buttonMessage" ==> node.data.buttons.Some?
    ensures Save(node, Load(node)) == node.data
  {
  }

  /** Saving through the page's update gives the selected node the draft's message. */
  lemma SavedIntoCanvas(nodes: seq<Node>, node: Node, draft: Draft)
    requires node.nodeType != "start"
    requires FindNode(nodes, node.id) == Some(node)
    ensures var r := EditorOps.UpdateNode(nodes, node.id, Save(node, draft));
      FindNode(r, node.id).Some? && Load(FindNode(r, node.id).value).message == draft.message
  {
    EditorOps.UpdateThenFind(nodes, node.id, Save(node, draft));
  }

  /** addButton: a "New Button" with id `btn_<stamp>` is appended while there are fewer than three. */
  function AddButton(buttons: seq<Button>, stamp: string): (r: seq<Button>)
    ensures |buttons| < MaxButtons ==> r == buttons + [Button("btn_" + stamp, "New Button")]
    ensures |buttons| >= MaxButtons ==> r == buttons
    ensures |buttons| <= MaxButtons ==> |r| <= MaxButtons
  {
    if |buttons| < MaxButtons then buttons + [Button("btn_" + stamp, "New Button")] else buttons
  }

  /** removeButton: `buttons.filter((_, i) => i !== index)`. */
  function RemoveButton(buttons: seq<Button>, index: int): (r: seq<Button>)
    ensures 0 <= index < |buttons| ==> |r| == |buttons| - 1
    ensures !(0 <= index < |buttons|) ==> r == buttons
    decreases |buttons|
  {
    if buttons == [] then []
    else
      var last := |buttons| - 1;
      RemoveButton(buttons[..last], index) + (if index == last then [] else [buttons[last]])
  }

  /** Removing keeps every other button, in order: the list closes up around the index. */
  lemma {:induction false} RemoveButtonCloses(buttons: seq<Button>, index: int)
    requires 0 <= index < |buttons|
    ensures RemoveButton(buttons, index) == buttons[..index] + buttons[index + 1..]
    decreases |buttons|
  {
    var last := |buttons| - 1;
    if index == last {
      assert buttons[index + 1..] == [];
    } else {
      RemoveButtonCloses(buttons[..last], index);
      assert buttons[..last][..index] == buttons[..index];
      assert buttons[..last][index + 1..] + [buttons[last]] == buttons[index + 1..];
    }
  }

  /** Removing the button just added restores the list. */
  lemma AddThenRemove(buttons: seq<Button>, stamp: string)
    requires |buttons| < MaxButtons
    ensures RemoveButton(AddButton(buttons, stamp), |buttons|) == buttons
  {
    var added := AddButton(buttons, stamp);
    RemoveButtonCloses(added, |buttons|);
    assert added[..|buttons|] == buttons;
  }

  /**
   * updateButton: the title at `index` is replaced; ids, order and the other titles are
   * kept. An index outside the list throws in the source, which leaves the draft as it was.
   */
  function UpdateButton(buttons: seq<Button>, index: int, title: string): (r: seq<Button>)
    ensures |r| == |buttons|
    ensures forall i :: 0 <= i < |r| ==>
      r[i].id == buttons[i].id && r[i].title == (if i == index then title else buttons[i].title)
  {
    if 0 <= index < |buttons| then buttons[index := buttons[index].(title := title)] else buttons
  }

  /** Of two edits to one button, the later title is the one kept. */
  lemma UpdateButtonLastWins(buttons: seq<Button>, index: int, first: string, second: string)
    ensures UpdateButton(UpdateButton(buttons, index, first), index, second) == UpdateButton(buttons, index, second)
  {
  }
}
