/**
 * The flow engine as the source runs it: the session record of one (phone, bot) pair is an
 * object updated in place, field by field, by the entry points startFlow, executeNode,
 * handleFlowEnd and handleButtonClick. Each method is proved to leave the record and the
 * message log exactly as the corresponding EngineSpec function says, so every property proved
 * in EngineProps holds of the methods too.
 */
module Engine {
  import opened Wrappers
  import opened Graph
  import opened Validators
  import opened Payload
  import opened EngineSpec
  import EngineProps

  class Session {
    /** Whether a record for this (phone, bot) pair exists in the store at all. */
    var stored: bool
    var currentFlowId: string
    var currentNodeId: Option<string>
    var waitingForButton: bool
    var waitingNodeId: Option<string>
    var callStack: seq<Frame>
    var variables: map<string, string>
    /** Everything sent to the phone so far, in order. */
    ghost var outbox: seq<Outbound>

    /** The stored record, if there is one. */
    function Record(): Option<SessionRec>
      reads this
    {
      if stored then Some(SessionRec(currentFlowId, currentNodeId, waitingForButton, waitingNodeId, callStack, variables))
      else None
    }

    ghost function Snapshot(): World
      reads this
    {
      World(Record(), outbox)
    }

    /** No record stored yet and nothing sent. */
    constructor ()
      ensures Snapshot() == World(None, [])
    {
      stored := false;
      currentFlowId := "";
      currentNodeId := None;
      waitingForButton := false;
      waitingNodeId := None;
      callStack := [];
      variables := map[];
      outbox := [];
    }

    /** Hand a message to the WhatsApp API. */
    ghost method Dispatch(m: Outbound)
      modifies this
      ensures Snapshot() == Send(old(Snapshot()), m)
    {
      outbox := outbox + [m];
    }

    /** The reset write of startFlow (upsert). */
    method Reset(mainFlowId: string)
      modifies this
      ensures Snapshot() == World(Some(ResetRecord(mainFlowId)), old(outbox))
    {
      stored := true;
      currentFlowId := mainFlowId;
      currentNodeId := None;
      waitingForButton := false;
      waitingNodeId := None;
      callStack := [];
      variables := map[];
    }

    /** The wait write after an interactive message (upsert). */
    method SaveWait(flowId: string, nodeId: string)
      modifies this
      ensures Snapshot() == World(Some(RecordWait(old(Record()), flowId, nodeId)), old(outbox))
    {
      if !stored {
        stored := true;
        callStack := [];
        variables := map[];
      }
      currentFlowId := flowId;
      currentNodeId := Some(nodeId);
      waitingForButton := true;
      waitingNodeId := Some(nodeId);
    }

    /** `$push` of a return frame with the switch to the subflow (no upsert). */
    method PushReturn(frame: Frame, target: string)
      modifies this
      ensures Snapshot() == World(PushFrame(old(Record()), frame, target), old(outbox))
    {
      if stored {
        callStack := callStack + [frame];
        currentFlowId := target;
      }
    }

    /** startFlow. */
    method StartFlow(env: Env, fuel: nat)
      modifies this
      ensures Snapshot() == EngineSpec.StartFlow(env, old(Snapshot()), fuel)
      ensures EngineProps.WorldOk(env, old(Snapshot())) ==> EngineProps.WorldOk(env, Snapshot())
    {
      ghost var w := Snapshot();
      if EngineProps.WorldOk(env, w) {
        EngineProps.StartFlowOk(env, w, fuel);
      }
      var main := MainFlowId(env.botId);
      if main !in env.flows {
        return;
      }
      var flow := env.flows[main];
      Reset(main);
      var start := FindNodeOfType(flow.nodes, "start");
      if start.None? {
        return;
      }
      var first := FirstEdgeFrom(flow.edges, start.value.id);
      if first.None? {
        return;
      }
      ExecuteNode(env, first.value.target, main, fuel);
    }

    /** executeNode: run one node of flow `flowId` and whatever follows it. */
    method ExecuteNode(env: Env, nodeId: string, flowId: string, fuel: nat)
      modifies this
      ensures Snapshot() == Execute(env, old(Snapshot()), nodeId, flowId, fuel)
      decreases fuel, 0
    {
      if fuel == 0 || flowId !in env.flows {
        return;
      }
      var found := FindNode(env.flows[flowId].nodes, nodeId);
      if found.None? {
        return;
      }
      RunNode(env, found.value, flowId, fuel - 1);
    }

    /** The branch on the node type; a node of any other type does nothing. */
    method RunNode(env: Env, node: Node, flowId: string, fuel: nat)
      requires flowId in env.flows
      modifies this
      ensures Snapshot() == EngineSpec.RunNode(env, old(Snapshot()), node, flowId, fuel)
      decreases fuel, 4
    {
      if node.nodeType == "plainMessage" {
        if env.hasCredentials {
          RunPlain(env, node, flowId, fuel);
        }
      } else if node.nodeType == "buttonMessage" {
        if env.hasCredentials {
          RunButtons(env, node, flowId, fuel);
        }
      } else if node.nodeType == "listMessage" {
        if env.hasCredentials {
          RunList(env, node, flowId, fuel);
        }
      } else if node.nodeType == "gotoSubflow" {
        RunGoto(env, node, flowId, fuel);
      }
    }

    /** A plain message node: send its text, then follow its edge. */
    method RunPlain(env: Env, node: Node, flowId: string, fuel: nat)
      requires flowId in env.flows
      modifies this
      ensures Snapshot() == EngineSpec.RunPlain(env, old(Snapshot()), node, flowId, fuel)
      decreases fuel, 3
    {
      Dispatch(TextOut(env.phone, node.data.message));
      Advance(env, node.id, flowId, fuel);
    }

    /** A button node: send the valid, de-duplicated buttons and wait, or pass on when none is left. */
    method RunButtons(env: Env, node: Node, flowId: string, fuel: nat)
      requires flowId in env.flows
      modifies this
      ensures Snapshot() == EngineSpec.RunButtons(env, old(Snapshot()), node, flowId, fuel)
      decreases fuel, 3
    {
      var valid := ValidButtons(node.data.buttons);
      var unique := DedupByTitle(valid);
      if |unique| == 0 {
        Advance(env, node.id, flowId, fuel);
        return;
      }
      Dispatch(ButtonsOut(env.phone, node.data.message, ButtonPayload(unique)));
      SaveWait(flowId, node.id);
    }

    /** A list node: send the valid rows and wait, or pass on when none is left. */
    method RunList(env: Env, node: Node, flowId: string, fuel: nat)
      requires flowId in env.flows
      modifies this
      ensures Snapshot() == EngineSpec.RunList(env, old(Snapshot()), node, flowId, fuel)
      decreases fuel, 3
    {
      var items := ValidListItems(node.data.listItems);
      if |items| == 0 {
        Advance(env, node.id, flowId, fuel);
        return;
      }
      Dispatch(ListOut(env.phone, node.data.message, ListPayload(ButtonLabel(node.data.buttonText), items)));
      SaveWait(flowId, node.id);
    }

    /** A subflow call: push the return point and run the subflow from its start. */
    method RunGoto(env: Env, node: Node, flowId: string, fuel: nat)
      requires flowId in env.flows
      modifies this
      ensures Snapshot() == EngineSpec.RunGoto(env, old(Snapshot()), node, flowId, fuel)
      decreases fuel, 3
    {
      var target := node.data.targetFlowId;
      if target.None? || target.value == "" || target.value !in env.flows {
        Advance(env, node.id, flowId, fuel);
        return;
      }
      var sub := env.flows[target.value];
      var start := FindNodeOfType(sub.nodes, "subflowStart");
      if start.None? {
        return;
      }
      var first := FirstEdgeFrom(sub.edges, start.value.id);
      if first.None? {
        return;
      }
      var next := FirstEdgeFrom(env.flows[flowId].edges, node.id);
      if next.Some? {
        PushReturn(Frame(flowId, next.value.target), target.value);
      }
      ExecuteNode(env, first.value.target, target.value, fuel);
    }

    /** The `nextEdge` step: run the target of the first edge out of `nodeId`, or end the flow. */
    method Advance(env: Env, nodeId: string, flowId: string, fuel: nat)
      requires flowId in env.flows
      modifies this
      ensures Snapshot() == EngineSpec.Advance(env, old(Snapshot()), nodeId, flowId, fuel)
      decreases fuel, 2
    {
      var next := FirstEdgeFrom(env.flows[flowId].edges, nodeId);
      if next.Some? {
        ExecuteNode(env, next.value.target, flowId, fuel);
      } else {
        HandleFlowEnd(env, fuel);
      }
    }

    /** handleFlowEnd: pop a return frame and resume there, or finish the conversation. */
    method HandleFlowEnd(env: Env, fuel: nat)
      modifies this
      ensures Snapshot() == FlowEnd(env, old(Snapshot()), fuel)
      decreases fuel, 1
    {
      if !stored {
        return;
      }
      if callStack == [] {
        waitingForButton := false;
        waitingNodeId := None;
        currentNodeId := None;
        return;
      }
      var top := callStack[|callStack| - 1];
      callStack := callStack[..|callStack| - 1];
      currentFlowId := top.flowId;
      waitingForButton := false;
      waitingNodeId := None;
      ExecuteNode(env, top.nodeId, top.flowId, fuel);
    }

    /** handleButtonClick: a button or list reply with id `replyId` arrived. */
    method HandleButtonClick(env: Env, replyId: string, fuel: nat)
      modifies this
      ensures Snapshot() == EngineSpec.HandleButtonClick(env, old(Snapshot()), replyId, fuel)
      ensures EngineProps.WorldOk(env, old(Snapshot())) ==> EngineProps.WorldOk(env, Snapshot())
    {
      ghost var w := Snapshot();
      if EngineProps.WorldOk(env, w) {
        EngineProps.HandleButtonClickOk(env, w, replyId, fuel);
      }
      if !stored || !waitingForButton || waitingNodeId.None? || waitingNodeId.value == "" {
        return;
      }
      if currentFlowId !in env.flows {
        return;
      }
      var flowId := currentFlowId;
      var edge := EdgeForHandle(env.flows[flowId].edges, waitingNodeId.value, replyId);
      if edge.None? {
        return;
      }
      waitingForButton := false;
      waitingNodeId := None;
      currentNodeId := Some(edge.value.target);
      ExecuteNode(env, edge.value.target, flowId, fuel);
    }
  }
}
