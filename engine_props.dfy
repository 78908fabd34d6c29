/**
 * What the flow engine guarantees, proved about the specification in EngineSpec: the session
 * invariant every entry point preserves, the error branches that leave the state alone, and
 * the call/return discipline of subflows.
 */
module EngineProps {
  import opened Wrappers
  import opened Graph
  import opened Validators
  import opened Payload
  import opened EngineSpec

  /** `nodeId` names a node of `flow` that asks the user to pick a reply. */
  predicate IsWaitNode(flow: Flow, nodeId: string) {
    var n := FindNode(flow.nodes, nodeId);
    n.Some? && (n.value.nodeType == "buttonMessage" || n.value.nodeType == "listMessage")
  }

  /** `waitingForButton` is set exactly when `waitingNodeId` is. */
  predicate FlagsAgree(r: SessionRec) {
    r.waitingForButton <==> r.waitingNodeId.Some?
  }

  /**
   * The session invariant: the flags agree; the current flow and every return frame name a
   * stored flow; and a waiting session sits on the node it waits for, which is a button or
   * list node of the current flow.
   */
  predicate SessionOk(env: Env, r: SessionRec) {
    && FlagsAgree(r)
    && r.currentFlowId in env.flows
    && (forall i :: 0 <= i < |r.callStack| ==> r.callStack[i].flowId in env.flows)
    && (r.waitingForButton ==>
          r.currentNodeId == r.waitingNodeId && IsWaitNode(env.flows[r.currentFlowId], r.waitingNodeId.value))
  }

  predicate WorldOk(env: Env, w: World) {
    w.session.Some? ==> SessionOk(env, w.session.value)
  }

  predicate Waits(w: World) {
    w.session.Some? && w.session.value.waitingForButton
  }

  predicate IsInteractive(m: Outbound) {
    m.ButtonsOut? || m.ListOut?
  }

  /** The interactive message a button or list node sends: its de-duplicated buttons or its valid items. */
  function Prompt(env: Env, node: Node): (m: Outbound)
    ensures IsInteractive(m) && m.to == env.phone && m.body == node.data.message
  {
    if node.nodeType == "buttonMessage" then
      ButtonsOut(env.phone, node.data.message, ButtonPayload(UniqueButtons(node.data.buttons)))
    else
      ListOut(env.phone, node.data.message, ListPayload(ButtonLabel(node.data.buttonText), ValidListItems(node.data.listItems)))
  }

  /** A waiting session's last message is the prompt of the node it waits on, in its current flow. */
  predicate WaitPrompted(env: Env, w: World) {
    && w.session.Some?
    && w.session.value.waitingNodeId.Some?
    && w.session.value.currentFlowId in env.flows
    && |w.outbox| > 0
    && var n := FindNode(env.flows[w.session.value.currentFlowId].nodes, w.session.value.waitingNodeId.value);
       n.Some? && w.outbox[|w.outbox| - 1] == Prompt(env, n.value)
  }

  /**
   * From `w0` to `w` messages were only appended, and if the session now waits, the last
   * message sent in between is the prompt of the node it waits on.
   */
  predicate Settled(env: Env, w0: World, w: World) {
    && w0.outbox <= w.outbox
    && (Waits(w) ==> |w.outbox| > |w0.outbox| && WaitPrompted(env, w))
  }



  // ---------------------------------------------------------------------------------------
  // The invariant, by induction over the mutually recursive engine functions.

  lemma {:induction false} ExecuteOk(env: Env, w: World, nodeId: string, flowId: string, fuel: nat)
    requires WorldOk(env, w) && !Waits(w)
    ensures var r := Execute(env, w, nodeId, flowId, fuel); WorldOk(env, r) && Settled(env, w, r)
    decreases fuel, 0
  {
    if fuel > 0 && flowId in env.flows {
      var found := FindNode(env.flows[flowId].nodes, nodeId);
      if found.Some? {
        RunNodeOk(env, w, found.value, flowId, fuel - 1);
      }
    }
  }

  lemma {:induction false} RunNodeOk(env: Env, w: World, node: Node, flowId: string, fuel: nat)
    requires flowId in env.flows && FindNode(env.flows[flowId].nodes, node.id) == Some(node)
    requires WorldOk(env, w) && !Waits(w)
    ensures var r := RunNode(env, w, node, flowId, fuel); WorldOk(env, r) && Settled(env, w, r)
    decreases fuel, 4
  {
    if node.nodeType == "plainMessage" {
      if env.hasCredentials { PlainOk(env, w, node, flowId, fuel); }
    } else if node.nodeType == "buttonMessage" {
      if env.hasCredentials { ButtonsOk(env, w, node, flowId, fuel); }
    } else if node.nodeType == "listMessage" {
      if env.hasCredentials { ListOk(env, w, node, flowId, fuel); }
    } else if node.nodeType == "gotoSubflow" {
      GotoOk(env, w, node, flowId, fuel);
    }
  }

  lemma {:induction false} AdvanceOk(env: Env, w: World, nodeId: string, flowId: string, fuel: nat)
    requires flowId in env.flows && WorldOk(env, w) && !Waits(w)
    ensures var r := Advance(env, w, nodeId, flowId, fuel); WorldOk(env, r) && Settled(env, w, r)
    decreases fuel, 2
  {
    match FirstEdgeFrom(env.flows[flowId].edges, nodeId)
    case Some(next) => ExecuteOk(env, w, next.target, flowId, fuel);
    case None => FlowEndOk(env, w, fuel);
  }

  lemma {:induction false} FlowEndOk(env: Env, w: World, fuel: nat)
    requires WorldOk(env, w) && !Waits(w)
    ensures var r := FlowEnd(env, w, fuel); WorldOk(env, r) && Settled(env, w, r)
    decreases fuel, 1
  {
    match w.session
    case None =>
    case Some(r) =>
      if r.callStack != [] {
        var top := r.callStack[|r.callStack| - 1];
        var back := World(Some(Returned(r)), w.outbox);
        assert SessionOk(env, Returned(r));
        ExecuteOk(env, back, top.nodeId, top.flowId, fuel);
      }
  }

  lemma {:induction false} PlainOk(env: Env, w: World, node: Node, flowId: string, fuel: nat)
    requires flowId in env.flows && WorldOk(env, w) && !Waits(w)
    ensures var r := RunPlain(env, w, node, flowId, fuel); WorldOk(env, r) && Settled(env, w, r)
    decreases fuel, 3
  {
    var sent := Send(w, TextOut(env.phone, node.data.message));
    AdvanceOk(env, sent, node.id, flowId, fuel);
  }

  lemma {:induction false} ButtonsOk(env: Env, w: World, node: Node, flowId: string, fuel: nat)
    requires flowId in env.flows && FindNode(env.flows[flowId].nodes, node.id) == Some(node)
    requires node.nodeType == "buttonMessage"
    requires WorldOk(env, w) && !Waits(w)
    ensures var r := RunButtons(env, w, node, flowId, fuel); WorldOk(env, r) && Settled(env, w, r)
    ensures var r := RunButtons(env, w, node, flowId, fuel);
      |UniqueButtons(node.data.buttons)| > 0 ==>
        && r.session.Some? && r.session.value.waitingNodeId == Some(node.id)
        && r.outbox == w.outbox + [ButtonsOut(env.phone, node.data.message, ButtonPayload(UniqueButtons(node.data.buttons)))]
    decreases fuel, 3
  {
    if |UniqueButtons(node.data.buttons)| == 0 {
      AdvanceOk(env, w, node.id, flowId, fuel);
    }
  }

  lemma {:induction false} ListOk(env: Env, w: World, node: Node, flowId: string, fuel: nat)
    requires flowId in env.flows && FindNode(env.flows[flowId].nodes, node.id) == Some(node)
    requires node.nodeType == "listMessage"
    requires WorldOk(env, w) && !Waits(w)
    ensures var r := RunList(env, w, node, flowId, fuel); WorldOk(env, r) && Settled(env, w, r)
    ensures var r := RunList(env, w, node, flowId, fuel);
      |ValidListItems(node.data.listItems)| > 0 ==>
        && r.session.Some? && r.session.value.waitingNodeId == Some(node.id)
        && r.outbox == w.outbox + [ListOut(env.phone, node.data.message, ListPayload(ButtonLabel(node.data.buttonText), ValidListItems(node.data.listItems)))]
    decreases fuel, 3
  {
    if |ValidListItems(node.data.listItems)| == 0 {
      AdvanceOk(env, w, node.id, flowId, fuel);
    }
  }

  lemma {:induction false} GotoOk(env: Env, w: World, node: Node, flowId: string, fuel: nat)
    requires flowId in env.flows && WorldOk(env, w) && !Waits(w)
    ensures var r := RunGoto(env, w, node, flowId, fuel); WorldOk(env, r) && Settled(env, w, r)
    decreases fuel, 3
  {
    var target := node.data.targetFlowId;
    if target.None? || target.value == "" || target.value !in env.flows {
      AdvanceOk(env, w, node.id, flowId, fuel);
    } else {
      var sub := env.flows[target.value];
      match FindNodeOfType(sub.nodes, "subflowStart")
      case None =>
      case Some(start) =>
        match FirstEdgeFrom(sub.edges, start.id)
        case None =>
        case Some(first) =>
          match FirstEdgeFrom(env.flows[flowId].edges, node.id)
          case None =>
            assert RunGoto(env, w, node, flowId, fuel) == Execute(env, w, first.target, target.value, fuel);
            ExecuteOk(env, w, first.target, target.value, fuel);
          case Some(next) =>
            var called := World(PushFrame(w.session, Frame(flowId, next.target), target.value), w.outbox);
            assert RunGoto(env, w, node, flowId, fuel) == Execute(env, called, first.target, target.value, fuel);
            PushOk(env, w, Frame(flowId, next.target), target.value);
            ExecuteOk(env, called, first.target, target.value, fuel);
    }
  }

  /** Pushing a return frame into a stored flow and switching to a stored subflow keeps the invariant. */
  lemma PushOk(env: Env, w: World, frame: Frame, target: string)
    requires WorldOk(env, w) && !Waits(w) && frame.flowId in env.flows && target in env.flows
    ensures var called := World(PushFrame(w.session, frame, target), w.outbox);
      WorldOk(env, called) && !Waits(called)
  {
    if w.session.Some? {
      var r := w.session.value;
      var stack := r.callStack + [frame];
      assert forall i :: 0 <= i < |stack| ==> stack[i].flowId in env.flows by {
        forall i | 0 <= i < |stack| ensures stack[i].flowId in env.flows {
          if i < |r.callStack| {
            assert stack[i] == r.callStack[i];
          }
        }
      }
    }
  }

  /** startFlow keeps the invariant; once the main flow exists, a wait follows its message. */
  lemma StartFlowOk(env: Env, w: World, fuel: nat)
    requires WorldOk(env, w)
    ensures var r := StartFlow(env, w, fuel);
      && WorldOk(env, r)
      && w.outbox <= r.outbox
      && (MainFlowId(env.botId) in env.flows ==> Settled(env, w, r))
  {
    var main := MainFlowId(env.botId);
    if main in env.flows {
      var flow := env.flows[main];
      var w0 := World(Some(ResetRecord(main)), w.outbox);
      match FindNodeOfType(flow.nodes, "start")
      case None =>
      case Some(start) =>
        match FirstEdgeFrom(flow.edges, start.id)
        case None =>
        case Some(first) =>
          assert StartFlow(env, w, fuel) == Execute(env, w0, first.target, main, fuel);
          ExecuteOk(env, w0, first.target, main, fuel);
    }
  }

  /** A reply keeps the invariant and only ever appends messages. */
  lemma HandleButtonClickOk(env: Env, w: World, replyId: string, fuel: nat)
    requires WorldOk(env, w)
    ensures var r := HandleButtonClick(env, w, replyId, fuel); WorldOk(env, r) && w.outbox <= r.outbox
  {
    match w.session
    case None =>
    case Some(s) =>
      if s.waitingForButton && s.waitingNodeId.Some? && s.waitingNodeId.value != "" && s.currentFlowId in env.flows {
        match EdgeForHandle(env.flows[s.currentFlowId].edges, s.waitingNodeId.value, replyId)
        case None =>
        case Some(e) => ExecuteOk(env, World(Some(Resumed(s, e.target)), w.outbox), e.target, s.currentFlowId, fuel);
      }
  }

  // ---------------------------------------------------------------------------------------
  // Outcomes of the individual branches.

  /**
   * executeNode changes nothing (no message, no session write) when the flow or the node is
   * missing, when a message node's bot has no credentials, or when the node type is unknown.
   */
  lemma ExecuteNoEffect(env: Env, w: World, nodeId: string, flowId: string, fuel: nat)
    requires
      || flowId !in env.flows
      || FindNode(env.flows[flowId].nodes, nodeId).None?
      || (var t := FindNode(env.flows[flowId].nodes, nodeId).value.nodeType;
          (t == "plainMessage" || t == "buttonMessage" || t == "listMessage") && !env.hasCredentials)
      || (var t := FindNode(env.flows[flowId].nodes, nodeId).value.nodeType;
          t != "plainMessage" && t != "buttonMessage" && t != "listMessage" && t != "gotoSubflow")
    ensures Execute(env, w, nodeId, flowId, fuel) == w
  {
  }

  /**
   * A button node whose buttons all fail validation sends nothing, records no wait, and
   * continues exactly as if the node had been passed through.
   */
  lemma NoValidButtonsFallThrough(env: Env, w: World, node: Node, flowId: string, fuel: nat)
    requires flowId in env.flows && FindNode(env.flows[flowId].nodes, node.id) == Some(node)
    requires node.nodeType == "buttonMessage" && env.hasCredentials
    requires forall i :: 0 <= i < |node.data.buttons.GetOr([])| ==> !IsValidButtonTitle(node.data.buttons.GetOr([])[i].title)
    ensures Execute(env, w, node.id, flowId, fuel + 1) == Advance(env, w, node.id, flowId, fuel)
  {
    UniqueButtonsFromInput(node.data.buttons);
    assert RunNode(env, w, node, flowId, fuel) == RunButtons(env, w, node, flowId, fuel);
  }

  /** The same for a list node none of whose items has a usable title. */
  lemma NoValidItemsFallThrough(env: Env, w: World, node: Node, flowId: string, fuel: nat)
    requires flowId in env.flows && FindNode(env.flows[flowId].nodes, node.id) == Some(node)
    requires node.nodeType == "listMessage" && env.hasCredentials
    requires forall i :: 0 <= i < |node.data.listItems.GetOr([])| ==> !IsValidItemTitle(node.data.listItems.GetOr([])[i].title)
    ensures Execute(env, w, node.id, flowId, fuel + 1) == Advance(env, w, node.id, flowId, fuel)
  {
    assert RunNode(env, w, node, flowId, fuel) == RunList(env, w, node, flowId, fuel);
  }

  /** A reply when nothing waits for one, or that matches no handle, leaves everything as it was. */
  lemma ClickIgnored(env: Env, w: World, replyId: string, fuel: nat)
    requires
      || w.session.None?
      || !w.session.value.waitingForButton
      || w.session.value.waitingNodeId.None?
      || w.session.value.waitingNodeId.value == ""
      || w.session.value.currentFlowId !in env.flows
      || (forall e :: e in env.flows[w.session.value.currentFlowId].edges ==>
            !(e.source == w.session.value.waitingNodeId.value && e.sourceHandle == Some(replyId)))
    ensures HandleButtonClick(env, w, replyId, fuel) == w
  {
    if w.session.Some? && w.session.value.waitingForButton && w.session.value.waitingNodeId.Some?
      && w.session.value.currentFlowId in env.flows
    {
      var s := w.session.value;
      var edges := env.flows[s.currentFlowId].edges;
      var hit := EdgeForHandle(edges, s.waitingNodeId.value, replyId);
      if hit.Some? {
        assert hit.value in edges;
      }
    }
  }

  /**
   * A reply matching the handle of an edge out of the waiting node clears the wait, moves the
   * current node to that edge's target and runs it in the same flow; the first such edge wins.
   */
  lemma ClickResumes(env: Env, w: World, replyId: string, fuel: nat, k: nat)
    requires w.session.Some? && w.session.value.waitingForButton
    requires w.session.value.waitingNodeId.Some? && w.session.value.waitingNodeId.value != ""
    requires w.session.value.currentFlowId in env.flows
    requires var edges := env.flows[w.session.value.currentFlowId].edges;
      && k < |edges|
      && edges[k].source == w.session.value.waitingNodeId.value && edges[k].sourceHandle == Some(replyId)
      && (forall j :: 0 <= j < k ==> !(edges[j].source == edges[k].source && edges[j].sourceHandle == Some(replyId)))
    ensures var s := w.session.value;
      var e := env.flows[s.currentFlowId].edges[k];
      var resumed := s.(waitingForButton := false, waitingNodeId := None, currentNodeId := Some(e.target));
      HandleButtonClick(env, w, replyId, fuel) == Execute(env, World(Some(resumed), w.outbox), e.target, s.currentFlowId, fuel)
  {
    var s := w.session.value;
    var edges := env.flows[s.currentFlowId].edges;
    var p := (e: Edge) => e.source == s.waitingNodeId.value && e.sourceHandle == Some(replyId);
    var i := Seqs.FirstIndex(edges, p);
    assert i == k;
  }

  /** Without a `${botId}-main` flow, startFlow does nothing at all. */
  lemma StartWithoutMainFlow(env: Env, w: World, fuel: nat)
    requires MainFlowId(env.botId) !in env.flows
    ensures StartFlow(env, w, fuel) == w
  {
  }

  /**
   * With a main flow, the session is reset before the start node is looked for: when there is no
   * start node, or the first start node has no edge out of it, what remains is the clean reset
   * record and no message.
   */
  lemma StartWithoutEntryEdge(env: Env, w: World, fuel: nat)
    requires MainFlowId(env.botId) in env.flows
    requires var flow := env.flows[MainFlowId(env.botId)];
      var start := FindNodeOfType(flow.nodes, "start");
      start.None? || FirstEdgeFrom(flow.edges, start.value.id).None?
    ensures var r := StartFlow(env, w, fuel);
      && r.outbox == w.outbox
      && r.session == Some(SessionRec(MainFlowId(env.botId), None, false, None, [], map[]))
  {
  }

  /** Flow end on an empty stack: only the wait flags and the current node are cleared. */
  lemma FlowEndTerminates(env: Env, w: World, fuel: nat)
    requires w.session.Some? && w.session.value.callStack == []
    ensures var s := w.session.value; var r := FlowEnd(env, w, fuel);
      && r.outbox == w.outbox
      && r.session.Some?
      && r.session.value.currentFlowId == s.currentFlowId
      && r.session.value.callStack == []
      && r.session.value.variables == s.variables
      && !r.session.value.waitingForButton && r.session.value.waitingNodeId.None?
      && r.session.value.currentNodeId.None?
  {
  }

  /**
   * The four outcomes of a gotoSubflow node. A missing or empty target id, or a target flow that
   * is not stored, continues past the node as a pass-through would. A target without a
   * subflowStart node, or whose start node has no edge, stops with nothing changed. Otherwise
   * the subflow's first node runs in the target flow; if the calling node has an outgoing edge,
   * exactly one frame (the caller's flow and that edge's target) is pushed first and the
   * target becomes the current flow, and if it has none, nothing is pushed.
   */
  lemma GotoOutcomes(env: Env, w: World, node: Node, flowId: string, fuel: nat)
    requires flowId in env.flows
    ensures var t := node.data.targetFlowId;
      (t.None? || t.value == "" || t.value !in env.flows) ==>
        RunGoto(env, w, node, flowId, fuel) == Advance(env, w, node.id, flowId, fuel)
    ensures var t := node.data.targetFlowId;
      t.Some? && t.value != "" && t.value in env.flows ==>
        var sub := env.flows[t.value];
        var start := FindNodeOfType(sub.nodes, "subflowStart");
        (start.None? || FirstEdgeFrom(sub.edges, start.value.id).None?) ==> RunGoto(env, w, node, flowId, fuel) == w
    ensures var t := node.data.targetFlowId;
      t.Some? && t.value != "" && t.value in env.flows ==>
        var sub := env.flows[t.value];
        var start := FindNodeOfType(sub.nodes, "subflowStart");
        start.Some? && FirstEdgeFrom(sub.edges, start.value.id).Some? ==>
          var first := FirstEdgeFrom(sub.edges, start.value.id).value;
          match FirstEdgeFrom(env.flows[flowId].edges, node.id)
          case None =>
            RunGoto(env, w, node, flowId, fuel) == Execute(env, w, first.target, t.value, fuel)
          case Some(next) =>
            var called := match w.session
              case None => None
              case Some(s) => Some(s.(callStack := s.callStack + [Frame(flowId, next.target)], currentFlowId := t.value));
            RunGoto(env, w, node, flowId, fuel) == Execute(env, World(called, w.outbox), first.target, t.value, fuel)
  {
  }

  /** Popping a pushed frame gives back the record before the push, in the frame's flow and not waiting. */
  lemma PushThenReturned(r: SessionRec, frame: Frame, target: string)
    ensures PushFrame(Some(r), frame, target).Some?
    ensures Returned(PushFrame(Some(r), frame, target).value)
      == r.(currentFlowId := frame.flowId, waitingForButton := false, waitingNodeId := None)
  {
    assert (r.callStack + [frame])[..|r.callStack|] == r.callStack;
  }

  /**
   * Flow end on a stack `rest + [frame]` runs the frame's node in the frame's flow, with the
   * stack `rest`, the frame's flow current and the wait cleared; no message is sent on the way.
   */
  lemma FlowEndReturns(env: Env, w: World, fuel: nat, rest: seq<Frame>, frame: Frame)
    requires w.session.Some? && w.session.value.callStack == rest + [frame]
    ensures var back := w.session.value.(callStack := rest, currentFlowId := frame.flowId,
                                         waitingForButton := false, waitingNodeId := None);
      FlowEnd(env, w, fuel) == Execute(env, World(Some(back), w.outbox), frame.nodeId, frame.flowId, fuel)
  {
    assert (rest + [frame])[..|rest|] == rest;
  }

  /**
   * One instance of the call and the return together: a gotoSubflow whose subflow is a single
   * terminal text message sends that message and comes back to the node after the gotoSubflow
   * in the calling flow, with the call stack exactly as before the call and the caller's flow
   * current again.
   */
  lemma SubflowCallReturns(env: Env, w: World, nodeId: string, flowId: string, fuel: nat,
                           target: string, start: Node, first: Edge, leaf: Node, cont: Edge)
    requires w.session.Some? && env.hasCredentials && flowId in env.flows
    requires FindNode(env.flows[flowId].nodes, nodeId).Some?
    requires var goto := FindNode(env.flows[flowId].nodes, nodeId).value;
      goto.nodeType == "gotoSubflow" && goto.data.targetFlowId == Some(target)
    requires target != "" && target in env.flows
    requires FindNodeOfType(env.flows[target].nodes, "subflowStart") == Some(start)
    requires FirstEdgeFrom(env.flows[target].edges, start.id) == Some(first)
    requires FindNode(env.flows[target].nodes, first.target) == Some(leaf) && leaf.nodeType == "plainMessage"
    requires FirstEdgeFrom(env.flows[target].edges, first.target).None?
    requires FirstEdgeFrom(env.flows[flowId].edges, nodeId) == Some(cont)
    ensures var s := w.session.value;
      var back := s.(currentFlowId := flowId, waitingForButton := false, waitingNodeId := None);
      Execute(env, w, nodeId, flowId, fuel + 2)
        == Execute(env, World(Some(back), w.outbox + [TextOut(env.phone, leaf.data.message)]), cont.target, flowId, fuel)
  {
    var s := w.session.value;
    var called := World(PushFrame(w.session, Frame(flowId, cont.target), target), w.outbox);
    var pushed := s.(callStack := s.callStack + [Frame(flowId, cont.target)], currentFlowId := target);
    assert called.session == Some(pushed);
    var sent := Send(called, TextOut(env.phone, leaf.data.message));
    PushThenReturned(s, Frame(flowId, cont.target), target);
    calc {
      Execute(env, w, nodeId, flowId, fuel + 2);
      RunGoto(env, w, FindNode(env.flows[flowId].nodes, nodeId).value, flowId, fuel + 1);
      Execute(env, called, first.target, target, fuel + 1);
      RunPlain(env, called, leaf, target, fuel);
      FlowEnd(env, sent, fuel);
    }
  }
}
