/**
 * The flow engine (backend/src/engine/flowExecutor.ts) as a pure state-transition
 * specification. A `World` is the session record of one (phone, bot) pair, possibly absent,
 * together with the log of messages sent to that phone. The flow store, the bot and whether
 * the bot has WhatsApp credentials form a read-only `Env`.
 *
 * `executeNode` and `handleFlowEnd` call each other and do not terminate on a cyclic graph;
 * here every node execution spends one unit of `fuel`, and running out of fuel stops the run
 * with the state reached so far. The helpers are ranked so that a call either spends fuel or
 * goes to a lower rank: Execute (0) < FlowEnd (1) < Advance (2) < the node handlers (3).
 */
module EngineSpec {
  import opened Wrappers
  import opened Graph
  import opened Validators
  import opened Payload

  /** A return address on the call stack: where to resume once a subflow ends. */
  datatype Frame = Frame(flowId: string, nodeId: string)

  /** The stored session record (models/Session.ts), without its keys and timestamp. */
  datatype SessionRec = SessionRec(
    currentFlowId: string,
    currentNodeId: Option<string>,
    waitingForButton: bool,
    waitingNodeId: Option<string>,
    callStack: seq<Frame>,
    variables: map<string, string>)

  /** A message handed to the WhatsApp Cloud API. */
  datatype Outbound =
    | TextOut(to: string, body: Option<string>)
    | ButtonsOut(to: string, body: Option<string>, buttons: seq<ReplyButton>)
    | ListOut(to: string, body: Option<string>, action: ListAction)

  /**
   * What the engine reads but never writes: the bot's flows by flowId, the bot id, the
   * recipient, and whether the bot record has both a token and a phone number id.
   */
  datatype Env = Env(flows: map<string, Flow>, botId: string, phone: string, hasCredentials: bool)

  datatype World = World(session: Option<SessionRec>, outbox: seq<Outbound>)

  /** The flowId of a bot's entry flow, `${botId}-main`. */
  function MainFlowId(botId: string): (r: string)
    ensures |r| == |botId| + 5 && r[..|botId|] == botId
  {
    botId + "-main"
  }

  // ---------------------------------------------------------------------------------------
  // The single-record session writes. A write without upsert on a missing record does nothing.

  /** The reset written by startFlow (upsert): the old record, if any, is fully overwritten. */
  function ResetRecord(mainFlowId: string): SessionRec {
    SessionRec(mainFlowId, None, false, None, [], map[])
  }

  /** The wait write after an interactive message (upsert: a new record gets the defaults). */
  function RecordWait(s: Option<SessionRec>, flowId: string, nodeId: string): SessionRec {
    match s
    case None => SessionRec(flowId, Some(nodeId), true, Some(nodeId), [], map[])
    case Some(r) =>
      r.(currentFlowId := flowId, currentNodeId := Some(nodeId), waitingForButton := true, waitingNodeId := Some(nodeId))
  }

  /** `$push` of a return frame together with the switch of `currentFlowId` to the subflow. */
  function PushFrame(s: Option<SessionRec>, frame: Frame, target: string): Option<SessionRec> {
    match s
    case None => None
    case Some(r) => Some(r.(callStack := r.callStack + [frame], currentFlowId := target))
  }

  /** Flow end with an empty stack: the wait flags and the current node are cleared. */
  function Ended(r: SessionRec): SessionRec {
    r.(waitingForButton := false, waitingNodeId := None, currentNodeId := None)
  }

  /** `$pop` of the last frame, switching back to its flow and clearing the wait flags. */
  function Returned(r: SessionRec): SessionRec
    requires r.callStack != []
  {
    var top := r.callStack[|r.callStack| - 1];
    r.(callStack := r.callStack[..|r.callStack| - 1], currentFlowId := top.flowId,
       waitingForButton := false, waitingNodeId := None)
  }

  /** The write before resuming after a reply: flags cleared, current node moved to `target`. */
  function Resumed(r: SessionRec, target: string): SessionRec {
    r.(waitingForButton := false, waitingNodeId := None, currentNodeId := Some(target))
  }

  function Send(w: World, m: Outbound): World {
    World(w.session, w.outbox + [m])
  }

  // ---------------------------------------------------------------------------------------
  // The engine.

  /** startFlow: reset the session and run the node after the main flow's start node. */
  function StartFlow(env: Env, w: World, fuel: nat): World {
    var main := MainFlowId(env.botId);
    if main !in env.flows then w
    else
      var flow := env.flows[main];
      var w0 := World(Some(ResetRecord(main)), w.outbox);
      match FindNodeOfType(flow.nodes, "start")
      case None => w0
      case Some(start) =>
        match FirstEdgeFrom(flow.edges, start.id)
        case None => w0
        case Some(first) => Execute(env, w0, first.target, main, fuel)
  }

  /** executeNode: look the node up and dispatch on its type. */
  function Execute(env: Env, w: World, nodeId: string, flowId: string, fuel: nat): World
    decreases fuel, 0
  {
    if fuel == 0 || flowId !in env.flows then w
    else
      match FindNode(env.flows[flowId].nodes, nodeId)
      case None => w
      case Some(node) =>
        RunNode(env, w, node, flowId, fuel - 1)
  }

  /** The branch of executeNode on the node type; a node of any other type does nothing. */
  function RunNode(env: Env, w: World, node: Node, flowId: string, fuel: nat): World
    requires flowId in env.flows
    decreases fuel, 4
  {
    if node.nodeType == "plainMessage" then
      if env.hasCredentials then RunPlain(env, w, node, flowId, fuel) else w
    else if node.nodeType == "buttonMessage" then
      if env.hasCredentials then RunButtons(env, w, node, flowId, fuel) else w
    else if node.nodeType == "listMessage" then
      if env.hasCredentials then RunList(env, w, node, flowId, fuel) else w
    else if node.nodeType == "gotoSubflow" then
      RunGoto(env, w, node, flowId, fuel)
    else w
  }

  /** Follow the first edge leaving `nodeId` (any handle), or end the flow if there is none. */
  function Advance(env: Env, w: World, nodeId: string, flowId: string, fuel: nat): World
    requires flowId in env.flows
    decreases fuel, 2
  {
    match FirstEdgeFrom(env.flows[flowId].edges, nodeId)
    case Some(next) => Execute(env, w, next.target, flowId, fuel)
    case None => FlowEnd(env, w, fuel)
  }

  /** handleFlowEnd: terminate, or return to the caller recorded on top of the stack. */
  function FlowEnd(env: Env, w: World, fuel: nat): World
    decreases fuel, 1
  {
    match w.session
    case None => w
    case Some(r) =>
      if r.callStack == [] then World(Some(Ended(r)), w.outbox)
      else
        var top := r.callStack[|r.callStack| - 1];
        Execute(env, World(Some(Returned(r)), w.outbox), top.nodeId, top.flowId, fuel)
  }

  function RunPlain(env: Env, w: World, node: Node, flowId: string, fuel: nat): World
    requires flowId in env.flows
    decreases fuel, 3
  {
    Advance(env, Send(w, TextOut(env.phone, node.data.message)), node.id, flowId, fuel)
  }

  function RunButtons(env: Env, w: World, node: Node, flowId: string, fuel: nat): World
    requires flowId in env.flows
    decreases fuel, 3
  {
    var unique := UniqueButtons(node.data.buttons);
    if |unique| == 0 then Advance(env, w, node.id, flowId, fuel)
    else
      var sent := Send(w, ButtonsOut(env.phone, node.data.message, ButtonPayload(unique)));
      World(Some(RecordWait(w.session, flowId, node.id)), sent.outbox)
  }

  function RunList(env: Env, w: World, node: Node, flowId: string, fuel: nat): World
    requires flowId in env.flows
    decreases fuel, 3
  {
    var items := ValidListItems(node.data.listItems);
    if |items| == 0 then Advance(env, w, node.id, flowId, fuel)
    else
      var action := ListPayload(ButtonLabel(node.data.buttonText), items);
      var sent := Send(w, ListOut(env.phone, node.data.message, action));
      World(Some(RecordWait(w.session, flowId, node.id)), sent.outbox)
  }

  function RunGoto(env: Env, w: World, node: Node, flowId: string, fuel: nat): World
    requires flowId in env.flows
    decreases fuel, 3
  {
    var target := node.data.targetFlowId;
    if target.None? || target.value == "" || target.value !in env.flows then
      Advance(env, w, node.id, flowId, fuel)
    else
      var sub := env.flows[target.value];
      match FindNodeOfType(sub.nodes, "subflowStart")
      case None => w
      case Some(start) =>
        match FirstEdgeFrom(sub.edges, start.id)
        case None => w
        case Some(first) =>
          var called := match FirstEdgeFrom(env.flows[flowId].edges, node.id)
            case None => w
            case Some(next) => World(PushFrame(w.session, Frame(flowId, next.target), target.value), w.outbox);
          Execute(env, called, first.target, target.value, fuel)
  }

  /** handleButtonClick: resume along the edge whose handle is the reply id, if the session waits. */
  function HandleButtonClick(env: Env, w: World, replyId: string, fuel: nat): World {
    match w.session
    case None => w
    case Some(r) =>
      if !r.waitingForButton || r.waitingNodeId.None? || r.waitingNodeId.value == "" then w
      else if r.currentFlowId !in env.flows then w
      else
        match EdgeForHandle(env.flows[r.currentFlowId].edges, r.waitingNodeId.value, replyId)
        case None => w
        case Some(e) => Execute(env, World(Some(Resumed(r, e.target)), w.outbox), e.target, r.currentFlowId, fuel)
  }
}
