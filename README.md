# wa-flow-builder core, modelled in Dafny

wa-flow-builder lets a user draw WhatsApp chat flows in a browser editor and then runs them for
incoming WhatsApp messages. This project models the core of both halves and proves properties of
that model.

- **The flow engine** (`flowExecutor.ts`).
  - `startFlow` resets the user's session and runs the main flow from its `start` node.
  - `executeNode` runs one node. A plain message is sent and the flow moves on. A button or list
    message is validated, sent, and then the session waits for a reply. A sub-flow node pushes a
    return point and runs the target flow.
  - `handleFlowEnd` pops the call stack or ends the session's flow.
  - `handleButtonClick` resumes a waiting session along the edge whose handle is the reply id.
  - The engine is specified by pure functions (`EngineSpec`). The session document is a class,
    `Engine.Session`, whose methods are proved equal to those functions. The invariants are proved
    about the functions (`EngineProps`).
- **The outbound payloads** (`sendButtons.ts`, `sendList.ts`). These are the WhatsApp
  interactive-message limits: 3 reply buttons, 10 list rows, a row title of 24 characters, a
  description of 72 and a list button label of 20.
- **The webhook** (`webhookRoutes.ts`).
  - GET: the subscription handshake.
  - POST: the loop over entries, changes and messages that turns a delivery into `startFlow` and
    `handleButtonClick` calls.
- **The editor.**
  - Both editor pages (`EditorPage.tsx` and its older single-flow copy `App.tsx`) update the node
    and edge arrays with the same operations: delete an edge, delete a node with its edges,
    duplicate, update, drop a new node (`EditorOps`).
  - The breadth-first auto-layout is an imperative loop (`Layout`).
  - The node editor side panel (`NodeEditorPanel.tsx`) is modelled in `NodePanel`.

Database reads and writes become a value: the session record (`Option<SessionRec>`), and for the
flows, a map from flow id to flow.

Every message sent is appended to an outbox. The bot's credentials become a boolean, and
`Date.now()` becomes a `stamp` parameter. The confirmation dialog becomes a `confirmed` parameter,
and "the canvas is ready" becomes a `ready` parameter.

A recursive chain of `executeNode` calls is bounded by a `fuel` count: each node executed spends
one unit.

## Model

| member | source | states |
|---|---|---|
| JsText.TrimSpec | backend/src/engine/flowExecutor.ts:137 | `trim` removes exactly the leading and trailing ECMAScript white space, and no character inside |
| JsText.Trim | backend/src/engine/flowExecutor.ts:137 | `String.prototype.trim`: white space removed at both ends; its meaning is stated by `JsText.TrimSpec` |
| JsText.TrimEmptyIffBlank | backend/src/engine/flowExecutor.ts:137 | a title trims to the empty string exactly when it is all white space |
| JsText.Truncate | backend/src/whatsapp/sendList.ts:20 | `slice(0, n)` is a prefix of the string of length min(n, length) |
| JsText.TruncateIdempotent | backend/src/whatsapp/sendList.ts:20-21 | slicing twice to n is slicing once, and a string that fits is kept whole |
| JsText.ToLowerAscii | backend/src/routes/webhookRoutes.ts:90 | lower-casing keeps the length and maps each character on its own |
| JsText.TrimPadded | backend/src/routes/webhookRoutes.ts:90 | white space added on either side of a text does not change its trimmed form |
| JsText.ToLowerAsciiAppend | backend/src/routes/webhookRoutes.ts:90 | lower-casing distributes over concatenation and is idempotent |
| Graph.FindNode | backend/src/engine/flowExecutor.ts:82 | the result is absent exactly when no node has the id, otherwise it is the first node with it |
| Graph.FindNodeOfType | backend/src/engine/flowExecutor.ts:43 | absent exactly when no node has the type, otherwise the first node of that type |
| Graph.FirstEdgeFrom | backend/src/engine/flowExecutor.ts:52 | absent exactly when no edge leaves the node, otherwise the first edge out of it |
| Graph.EdgeForHandle | backend/src/engine/flowExecutor.ts:403-406 | absent exactly when no edge leaves the node with that source handle, otherwise the first such edge |
| Validators.TitleNonBlank | backend/src/engine/flowExecutor.ts:137 | `title && title.trim().length > 0` holds exactly when the title has a non-space character |
| Validators.IsValidButtonTitle | backend/src/engine/flowExecutor.ts:134-138 | a button title is valid when it is non-empty, not all white space, and at most 20 characters long |
| Validators.IsValidItemTitle | backend/src/engine/flowExecutor.ts:207-211 | an item title is valid when it is non-empty, not all white space, and at most 24 characters long |
| Validators.UniqueButtons | backend/src/engine/flowExecutor.ts:134-149 | the buttons sent: the valid ones, keeping the first of each trimmed title |
| Validators.ValidButtons | backend/src/engine/flowExecutor.ts:134-138 | the kept buttons are exactly the input buttons with a valid title, in input order, each as often as in the input; a missing array gives none |
| Validators.DedupByTitle | backend/src/engine/flowExecutor.ts:141-149 | the loop with the `uniqueTitles` set keeps the first button of each trimmed title |
| Validators.UniqueButtonsFromInput | backend/src/engine/flowExecutor.ts:134-149 | every button sent is a valid input button, and the sent buttons keep the input order |
| Validators.UniqueButtonsDistinct | backend/src/engine/flowExecutor.ts:141-149 | the sent buttons have pairwise different trimmed titles |
| Validators.FirstValidOccurrenceSent | backend/src/engine/flowExecutor.ts:141-149 | a valid button whose trimmed title has not occurred before it is sent |
| Seqs.FirstByKeyNoRepeat | backend/src/engine/flowExecutor.ts:141-149 | when no two buttons share a trimmed title, the de-duplication keeps every button |
| Seqs.FilterCount | backend/src/engine/flowExecutor.ts:134-138 | filtering keeps each element that passes exactly as often as it occurs, and drops every other one |
| Validators.ValidListItems | backend/src/engine/flowExecutor.ts:207-211 | the kept items are exactly the items with a non-blank title of at most 24 characters, in order, each as often as in the input |
| Validators.ButtonLabel | backend/src/engine/flowExecutor.ts:230 | a missing or empty `buttonText` falls back to "View Options", any other is used as is |
| Validators.CaseSensitiveDedup | backend/src/engine/flowExecutor.ts:141-149 | "Yes", "yes " and "No" are three different titles: all three buttons are sent |
| Payload.ButtonPayload | backend/src/whatsapp/sendButtons.ts:10-16 | at most the first 3 buttons, each as a `reply` entry with its id and title |
| Payload.ButtonPayloadRoundTrip | backend/src/whatsapp/sendButtons.ts:10-16 | reading the buttons back from the payload gives exactly the first min(3, n) input buttons |
| Payload.OfferedIdsFromButtons | backend/src/whatsapp/sendButtons.ts:10-16 | every reply id offered to the user is the id of an input button |
| Payload.RowDescription | backend/src/whatsapp/sendList.ts:21 | a non-empty description is cut to 72 characters; a missing or empty one is left out |
| Payload.Rows | backend/src/whatsapp/sendList.ts:18-22 | at most 10 rows, in order, with the item's id, its title cut to 24 and its description as above |
| Payload.ListPayload | backend/src/whatsapp/sendList.ts:34-41 | the label cut to 20 characters and a single section "Options" holding all the rows |
| Payload.ShortTitlesKept | backend/src/whatsapp/sendList.ts:18-22 | items whose titles fit keep them exactly; only items after the tenth are dropped |
| EngineSpec.MainFlowId | backend/src/engine/flowExecutor.ts:14 | the main flow's id is the bot id followed by "-main" |
| EngineSpec.ResetRecord | backend/src/engine/flowExecutor.ts:23-38 | the record startFlow writes: the main flow current, no node, no wait, an empty call stack and no variables |
| EngineSpec.RecordWait | backend/src/engine/flowExecutor.ts:179-191 | the record written after an interactive message: the flow and the node current, and waiting on that node; a new record gets the defaults |
| EngineSpec.PushFrame | backend/src/engine/flowExecutor.ts:303-321 | the `$push` of a return frame together with the switch to the sub-flow; a missing session stays missing |
| EngineSpec.Returned | backend/src/engine/flowExecutor.ts:350-361 | the `$pop` of the last frame, back in its flow, with the wait cleared |
| EngineSpec.Ended | backend/src/engine/flowExecutor.ts:332-345 | the write at flow end with an empty stack: the wait and the current node cleared |
| EngineSpec.Resumed | backend/src/engine/flowExecutor.ts:412-420 | the write before resuming after a reply: the wait cleared and the current node moved to the edge's target |
| EngineSpec.StartFlow | backend/src/engine/flowExecutor.ts:8-61 | `startFlow`: no main flow changes nothing; otherwise reset, then run the target of the first edge out of the first start node |
| EngineSpec.Execute | backend/src/engine/flowExecutor.ts:63-89 | `executeNode`: a missing flow or node changes nothing; otherwise the node runs by its type |
| EngineSpec.RunNode | backend/src/engine/flowExecutor.ts:88-326 | the branch on the node type; message nodes need the bot's credentials and an unknown type does nothing |
| EngineSpec.RunPlain | backend/src/engine/flowExecutor.ts:90-121 | send the text, then take the first outgoing edge or end the flow |
| EngineSpec.RunButtons | backend/src/engine/flowExecutor.ts:122-194 | send the valid, de-duplicated buttons and wait on the node, or pass on when none is left |
| EngineSpec.RunList | backend/src/engine/flowExecutor.ts:195-252 | send the list of valid items and wait on the node, or pass on when none is left |
| EngineSpec.RunGoto | backend/src/engine/flowExecutor.ts:253-325 | the sub-flow call; its outcomes are those of `EngineProps.GotoOutcomes` |
| EngineSpec.Advance | backend/src/engine/flowExecutor.ts:113-121 | run the target of the first edge out of the node in the same flow, or end the flow |
| EngineSpec.FlowEnd | backend/src/engine/flowExecutor.ts:328-365 | with no frame, clear the wait and the current node; otherwise pop the last frame and run its node in its flow |
| EngineSpec.HandleButtonClick | backend/src/engine/flowExecutor.ts:367-430 | a reply to a waiting session runs the target of the first edge out of the waiting node whose handle is the reply id |
| EngineProps.ExecuteOk | backend/src/engine/flowExecutor.ts:63-326 | running a node from a session that is not waiting keeps the session invariant. Messages are only appended. If the session then waits, the last message sent is the prompt (buttons or list) of the node it waits on, looked up in its current flow |
| EngineProps.RunNodeOk | backend/src/engine/flowExecutor.ts:90-326 | the branch on the node type keeps the invariant and only appends messages, for every node type |
| EngineProps.AdvanceOk | backend/src/engine/flowExecutor.ts:113-121 | following the first outgoing edge, or ending the flow, keeps the invariant and only appends messages |
| EngineProps.FlowEndOk | backend/src/engine/flowExecutor.ts:328-365 | ending a flow keeps the invariant, whether it returns to a caller or stops |
| EngineProps.PlainOk | backend/src/engine/flowExecutor.ts:90-121 | a plain message node keeps the invariant and only appends messages |
| EngineProps.ButtonsOk | backend/src/engine/flowExecutor.ts:122-194 | a button node keeps the invariant; with a valid button left it waits on itself and sends exactly one message, its de-duplicated buttons |
| EngineProps.ListOk | backend/src/engine/flowExecutor.ts:195-252 | the same for a list node: with a valid item left it waits on itself and sends exactly its list message |
| EngineProps.GotoOk | backend/src/engine/flowExecutor.ts:253-325 | a sub-flow call keeps the invariant; the pushed return frame names a stored flow |
| EngineProps.PushOk | backend/src/engine/flowExecutor.ts:303-321 | pushing a return frame into a stored flow and switching to a stored sub-flow keeps the invariant and does not make the session wait |
| EngineProps.StartFlowOk | backend/src/engine/flowExecutor.ts:8-61 | `startFlow` keeps the invariant and only appends messages; with a main flow a wait follows its message |
| EngineProps.HandleButtonClickOk | backend/src/engine/flowExecutor.ts:367-430 | a reply keeps the invariant and only appends messages |
| EngineProps.ExecuteNoEffect | backend/src/engine/flowExecutor.ts:73-99 | a missing flow or node, a message node without bot credentials, or an unknown node type changes nothing |
| EngineProps.NoValidButtonsFallThrough | backend/src/engine/flowExecutor.ts:151-160 | a button node with no valid button sends nothing and continues exactly as a pass-through node |
| EngineProps.NoValidItemsFallThrough | backend/src/engine/flowExecutor.ts:213-222 | the same for a list node with no valid item |
| EngineProps.ClickIgnored | backend/src/engine/flowExecutor.ts:376-398 | a reply without a waiting session, without a stored current flow, or matching no edge handle out of the waiting node changes nothing |
| EngineProps.ClickResumes | backend/src/engine/flowExecutor.ts:402-424 | a reply matching an edge's handle clears the wait, moves to the first matching edge's target and runs it in the same flow |
| EngineProps.StartWithoutMainFlow | backend/src/engine/flowExecutor.ts:14-19 | without a `<botId>-main` flow, `startFlow` changes nothing |
| EngineProps.StartWithoutEntryEdge | backend/src/engine/flowExecutor.ts:23-56 | the reset happens before the start node is looked for, so without a start node, or when the first start node has no outgoing edge, exactly the reset record is left and nothing is sent |
| EngineProps.FlowEndTerminates | backend/src/engine/flowExecutor.ts:332-345 | with an empty call stack, the flow end clears only the wait flags and the current node |
| EngineProps.GotoOutcomes | backend/src/engine/flowExecutor.ts:253-325 | the four outcomes of a sub-flow node: no usable target passes through; no start node or start edge stops; otherwise the sub-flow runs, after pushing exactly one frame and switching the current flow when the node has an outgoing edge, and with nothing pushed when it has none |
| EngineProps.PushThenReturned | backend/src/engine/flowExecutor.ts:303-361 | popping a pushed frame gives back the record before the push, in the frame's flow and not waiting |
| EngineProps.FlowEndReturns | backend/src/engine/flowExecutor.ts:346-364 | flow end on a stack `rest + [frame]` runs the frame's node in its flow with the stack `rest`, and sends nothing on the way |
| EngineProps.SubflowCallReturns | backend/src/engine/flowExecutor.ts:302-364 | one instance of call and return: calling a one-message sub-flow sends its message, pops the frame, restores the caller's flow and continues after the sub-flow node |
| Engine.Session.Reset | backend/src/engine/flowExecutor.ts:23-38 | the upserted reset record |
| Engine.Session.SaveWait | backend/src/engine/flowExecutor.ts:179-191 | the upserted wait record: the current node is the waiting node and the other fields are kept |
| Engine.Session.PushReturn | backend/src/engine/flowExecutor.ts:303-321 | the frame is pushed and the current flow becomes the target; a missing session stays missing |
| Engine.Session.Dispatch | backend/src/engine/flowExecutor.ts:168-174 | handing a message to the WhatsApp API appends it to the outbox and changes nothing else |
| Engine.Session.StartFlow | backend/src/engine/flowExecutor.ts:8-61 | the new session and outbox are those of the `startFlow` specification, and the invariant is preserved |
| Engine.Session.ExecuteNode | backend/src/engine/flowExecutor.ts:63-326 | the new session and outbox are those of the `executeNode` specification |
| Engine.Session.RunNode | backend/src/engine/flowExecutor.ts:90-326 | the same for the branch on the node type; an unknown type changes nothing |
| Engine.Session.RunPlain | backend/src/engine/flowExecutor.ts:90-121 | the same for a plain message node |
| Engine.Session.RunButtons | backend/src/engine/flowExecutor.ts:122-194 | the same for a button node |
| Engine.Session.RunList | backend/src/engine/flowExecutor.ts:195-252 | the same for a list node |
| Engine.Session.RunGoto | backend/src/engine/flowExecutor.ts:253-325 | the same for a sub-flow call |
| Engine.Session.Advance | backend/src/engine/flowExecutor.ts:113-121 | the same for the "next edge or flow end" step |
| Engine.Session.HandleFlowEnd | backend/src/engine/flowExecutor.ts:328-365 | the same for `handleFlowEnd` |
| Engine.Session.HandleButtonClick | backend/src/engine/flowExecutor.ts:367-430 | the same for `handleButtonClick`, and the invariant is preserved |
| Webhook.VerifyAsWritten | backend/src/routes/webhookRoutes.ts:8-50 | 404 exactly for an unknown bot; the info page exactly when mode, token and challenge are all falsy; otherwise the challenge is echoed exactly for "subscribe" with a token equal to the stored one, and 403 exactly in the remaining case |
| Webhook.Verify | backend/src/routes/webhookRoutes.ts:37-45 | the corrected handshake: the challenge is echoed exactly when the mode is "subscribe" and the token equals a configured, non-empty verify token; 403 exactly in the remaining case |
| Webhook.VerifyAgreesOnConfiguredBots | backend/src/routes/webhookRoutes.ts:37 | on every bot with a verify token, the code as written and the corrected handshake agree |
| Webhook.UnconfiguredBotVerifiesWithoutToken | backend/src/routes/webhookRoutes.ts:37 | as written, a bot without a verify token is verified by a request that sends no token |
| Webhook.MessageCalls | backend/src/routes/webhookRoutes.ts:82-125 | a message causes at most one call, for its sender. A start keyword gives `startFlow`. A `button_reply` or `list_reply` gives `handleButtonClick` with that reply's id, and only those do |
| Webhook.Receive | backend/src/routes/webhookRoutes.ts:53-142 | 404 exactly for an unknown bot; a body that is not `whatsapp_business_account` is accepted with no calls |
| Webhook.ReceiveWebhook | backend/src/routes/webhookRoutes.ts:70-134 | the loop over the entries issues exactly the calls of `Receive`, in order |
| Webhook.ProcessEntry | backend/src/routes/webhookRoutes.ts:76-130 | the loop over one entry's changes issues its calls in order and skips a change without messages |
| Webhook.ProcessMessages | backend/src/routes/webhookRoutes.ts:82-126 | the loop over a change's messages issues each message's calls in message order |
| Webhook.HandleMessage | backend/src/routes/webhookRoutes.ts:83-125 | the three type checks of the loop body issue exactly the calls of `MessageCalls` |
| Webhook.BatchesInOrder | backend/src/routes/webhookRoutes.ts:73-131 | the calls of entries a + b are the calls of a followed by those of b |
| Webhook.RepliesRouteAlike | backend/src/routes/webhookRoutes.ts:104-125 | a button reply and a list reply with the same id cause the same call |
| Webhook.StartKeywordIgnoresPaddingAndCase | backend/src/routes/webhookRoutes.ts:89-93 | surrounding white space and capital letters do not change whether a text starts the flow |
| Webhook.IsStartKeyword | backend/src/routes/webhookRoutes.ts:89-93 | a text starts the flow when, lower-cased and trimmed, it is "hi", "hello" or "start" |
| Webhook.Falsy | backend/src/routes/webhookRoutes.ts:25 | a query parameter JavaScript treats as false: absent or empty |
| Layout.Root | frontend/src/pages/EditorPage.tsx:259-262 | absent exactly when no node has a root type, otherwise the first such node |
| Layout.NodeMap | frontend/src/pages/EditorPage.tsx:257 | the table's keys are exactly the node ids, and each entry is a node filed under its own id |
| Layout.NodeMapUnique | frontend/src/pages/EditorPage.tsx:257 | with unique ids, every node is the table's entry for its id |
| Layout.ChildOffset | frontend/src/pages/EditorPage.tsx:292-295 | the integer offset equals (idx − (k−1)/2)·100 computed in real arithmetic, is 0 for one child and a multiple of 50 |
| Layout.ChildOffsetSymmetric | frontend/src/pages/EditorPage.tsx:292-295 | siblings are placed symmetrically around their parent |
| Layout.EdgesFrom | frontend/src/pages/EditorPage.tsx:287 | exactly the edges whose source is the node |
| Layout.EdgesFromInOrder | frontend/src/pages/EditorPage.tsx:287-289 | the edges out of the node keep their stored order, which fixes each child's index, and each occurs as often as in the input |
| Layout.ChildItemsSpec | frontend/src/pages/EditorPage.tsx:290-302 | each queued entry is an edge's target, 300 to the right at that edge's offset; every target is visited or queued |
| Layout.ChildItemsFrom | frontend/src/pages/EditorPage.tsx:290-302 | each queued entry is the target of one of the edges, 300 to the right at that edge's offset |
| Layout.ChildItemsCover | frontend/src/pages/EditorPage.tsx:290-302 | the target of every edge is visited already or queued |
| Layout.Unvisited | frontend/src/pages/EditorPage.tsx:305-309 | exactly the nodes whose ids were not visited, unchanged |
| Layout.UnvisitedInOrder | frontend/src/pages/EditorPage.tsx:305-309 | the unvisited nodes keep their original order, each as often as in the input |
| Layout.UnvisitedCount | frontend/src/pages/EditorPage.tsx:305-309 | with unique ids, as many nodes are appended as there are input ids left unvisited |
| Layout.BuildNodeMap | frontend/src/pages/EditorPage.tsx:257 | the loop builds the last-wins id table |
| Layout.EnqueueChildren | frontend/src/pages/EditorPage.tsx:287-302 | the loop queues one entry per edge to an unvisited target, in edge order |
| Layout.AppendUnvisited | frontend/src/pages/EditorPage.tsx:305-309 | the loop appends the unvisited nodes in their original order |
| Layout.Walk | frontend/src/pages/EditorPage.tsx:269-303 | the first-in, first-out queue loop ends with the walk invariant on an empty queue: distinct laid-out nodes on the grid, in breadth-first order, and every edge out of them leading to a visited node |
| Layout.StepSkip | frontend/src/pages/EditorPage.tsx:276-280 | dropping a visited or unknown entry keeps the walk invariant, the origins of the entries behind it included |
| Layout.SkipOrigins | frontend/src/pages/EditorPage.tsx:276-280 | once the head entry is dropped and its id is visited, the remaining entries are still ordered by origin, and every edge to an unvisited id still has its entry queued |
| Layout.StepPlace | frontend/src/pages/EditorPage.tsx:282-301 | placing a node and queuing its children keeps the walk invariant; the children's entries get the new node and their edge index as origins |
| Layout.PlaceKey | frontend/src/pages/EditorPage.tsx:273-284 | the node dequeued first among its entries has, as parent, the first earlier node with an edge to it, and that parent's first such edge: a smaller origin would sit ahead of it in the queue |
| Layout.PlaceOrdered | frontend/src/pages/EditorPage.tsx:273-284 | placing the head entry's node keeps the laid-out sequence in breadth-first order |
| Layout.PlaceOrigins | frontend/src/pages/EditorPage.tsx:282-301 | after queueing the children behind the rest, the entries are the ones their origins queue, ordered by origin, after every laid-out node's origin, and none pending is lost |
| Layout.ChildOriginsMatch | frontend/src/pages/EditorPage.tsx:287-302 | each queued child entry is the target of the edge its origin names, at that edge's place |
| Layout.ChildOriginsSorted | frontend/src/pages/EditorPage.tsx:287-302 | children are queued in the order of their edges |
| Layout.ChildOriginsCover | frontend/src/pages/EditorPage.tsx:287-302 | every edge to an unvisited target has its child entry |
| Layout.EdgeIndex | frontend/src/pages/EditorPage.tsx:287-293 | the index of the first edge out of a node to a target, or the number of its edges when none leads there |
| Layout.FirstParent | frontend/src/pages/EditorPage.tsx:273-290 | the first node of a prefix with an edge to the target, or the prefix length when none has one |
| Layout.KeyStable | frontend/src/pages/EditorPage.tsx:282-285 | laying out one more node changes no earlier node's parent or origin |
| Layout.Finish | frontend/src/pages/EditorPage.tsx:305-311 | the final state gives an arranged result: the root first at (50, 250), then the reached nodes in breadth-first order (each at its parent's first edge to it, the parent being the first earlier node with such an edge, origins increasing), then the unreached ones |
| Layout.AutoLayout | frontend/src/pages/EditorPage.tsx:252-312 | without a root node nothing changes; otherwise the result is arranged as above, breadth-first order included |
| Layout.DiamondLayout | frontend/src/pages/EditorPage.tsx:269-302 | on r→a, r→b, a→b the only arranged result is r at (50, 250), a at (350, 200), b at (350, 300): b is r's second child, never a's |
| Layout.ArrangedIsPermutation | frontend/src/pages/EditorPage.tsx:252-312 | with unique ids, an arranged result holds every input node exactly once, each changed at most in position |
| EditorOps.DeleteEdge | frontend/src/pages/EditorPage.tsx:78-83 | exactly the edges with another id remain, in their order, each as often as before (the same code is at frontend/src/App.tsx:79-84) |
| EditorOps.DeleteUnknownEdge | frontend/src/pages/EditorPage.tsx:78-83 | deleting an id no edge has changes nothing |
| EditorOps.DeleteNode | frontend/src/pages/EditorPage.tsx:163-181 | an unknown id or a declined confirmation changes nothing. Otherwise exactly the other nodes and the edges not touching the node remain, in order and each as often as before (same code at frontend/src/App.tsx:162-177) |
| EditorOps.DeleteNodeNoDangling | frontend/src/pages/EditorPage.tsx:173-176 | deleting a node never leaves an edge to or from a node that is gone |
| EditorOps.DeleteEdgeNoDangling | frontend/src/pages/EditorPage.tsx:80 | deleting an edge keeps every remaining edge attached |
| EditorOps.Copy | frontend/src/pages/EditorPage.tsx:147-155 | the copy has id `<type>-<stamp>`, the same type and data, and is moved by (+50, +50) |
| EditorOps.DuplicateNode | frontend/src/pages/EditorPage.tsx:141-161 | an unknown id changes nothing; otherwise the nodes are kept and the copy of the first match is appended (same code at frontend/src/App.tsx:140-160) |
| EditorOps.DuplicateKeepsInvariants | frontend/src/pages/EditorPage.tsx:141-161 | with a fresh stamp, ids stay unique and edges stay attached |
| EditorOps.UpdateNode | frontend/src/pages/EditorPage.tsx:200-208 | the length, ids, types and positions are kept; only the matching nodes get the new data (same code at frontend/src/App.tsx:197-205) |
| EditorOps.UpdateKeepsIds | frontend/src/pages/EditorPage.tsx:202-204 | the id sequence is unchanged, so ids stay unique and edges stay attached |
| EditorOps.UpdateThenFind | frontend/src/pages/EditorPage.tsx:200-208 | an unknown id changes nothing. Otherwise looking the node up gives it with the new data. Updating twice is updating once |
| EditorOps.DropNode | frontend/src/pages/EditorPage.tsx:99-139 | no type or no canvas: nothing changes; otherwise a node `<type>-<stamp>` with the page's defaults is appended |
| EditorOps.DropKeepsInvariants | frontend/src/pages/EditorPage.tsx:111-136 | with a fresh stamp, ids stay unique and edges stay attached |
| EditorPage.DropDefaults | frontend/src/pages/EditorPage.tsx:115-133 | the defaults per type: the message, two buttons, the list label and two items, and an empty sub-flow target |
| EditorPage.DroppedButtonsAreSent | frontend/src/pages/EditorPage.tsx:117-122 | both default buttons pass the engine's validation and de-duplication |
| EditorPage.DroppedListIsSent | frontend/src/pages/EditorPage.tsx:123-129 | both default items pass validation and the label is "View Options" |
| EditorPage.DroppedGotoAdvances | frontend/src/pages/EditorPage.tsx:130-132 | a new sub-flow node's empty target makes the engine pass straight through it |
| EditorPage.DeleteSubject | frontend/src/pages/EditorPage.tsx:168-171 | "START node" exactly for `start` and `subflowStart`, otherwise "this node" |
| EditorPage.HandleAutoLayout | frontend/src/pages/EditorPage.tsx:252-312 | rooted at `start` or `subflowStart`: no root changes nothing; otherwise the result is arranged in breadth-first order, and with unique ids it is a permutation of the nodes up to position |
| AppPage.DropDefaults | frontend/src/App.tsx:113-133 | the editor page's defaults, with no `targetFlowId` |
| AppPage.DeleteSubject | frontend/src/App.tsx:167 | "START node" exactly for `start` |
| AppPage.HandleAutoLayout | frontend/src/App.tsx:259-322 | rooted at `start` only: no root changes nothing; otherwise the result is arranged in breadth-first order, and with unique ids it is a permutation of the nodes up to position |
| AppPage.SubflowCanvasNotArranged | frontend/src/App.tsx:268-269 | a canvas without a `start` node is left as it is |
| NodePanel.Load | frontend/src/components/NodeEditorPanel.tsx:18-23 | a missing message reads as "" and missing buttons as [] |
| NodePanel.Save | frontend/src/components/NodeEditorPanel.tsx:27-34 | the message is replaced, the buttons only on a button node, and every other field is kept |
| NodePanel.SaveThenLoad | frontend/src/components/NodeEditorPanel.tsx:18-34 | reloading a saved node gives back the draft message, and the whole draft on a button node |
| NodePanel.LoadThenSave | frontend/src/components/NodeEditorPanel.tsx:18-34 | saving an unedited draft leaves the data unchanged when the shown fields are present |
| NodePanel.SavedIntoCanvas | frontend/src/components/NodeEditorPanel.tsx:27-34 | after the page's update, the selected node on the canvas carries the draft's message |
| NodePanel.AddButton | frontend/src/components/NodeEditorPanel.tsx:36-41 | "New Button" `btn_<stamp>` is appended only below 3 buttons, so at most 3 stay at most 3 |
| NodePanel.RemoveButton | frontend/src/components/NodeEditorPanel.tsx:49-51 | a valid index removes one button; any other index removes none |
| NodePanel.RemoveButtonCloses | frontend/src/components/NodeEditorPanel.tsx:49-51 | removal keeps the buttons before and after the index, in order |
| NodePanel.AddThenRemove | frontend/src/components/NodeEditorPanel.tsx:36-51 | removing the button just added restores the list |
| NodePanel.UpdateButton | frontend/src/components/NodeEditorPanel.tsx:43-47 | the length, ids and other titles are kept; only the title at the index changes |
| NodePanel.UpdateButtonLastWins | frontend/src/components/NodeEditorPanel.tsx:43-47 | of two edits to the same button, the later title is kept |

## Left out

- Persistence:
  - MongoDB and mongoose are replaced by one session record per (phone, bot) and a map of the bot's flows. Each write is an atomic update of that record.
  - `updatedAt` timestamps are not modelled.
  - A value set to `undefined` in an update is modelled as unsetting the field.
- HTTP:
  - The axios posts to the WhatsApp API become an appended outbox entry.
  - Their error logging and rethrow, and the extra token arguments passed to the send functions, are not modelled.
  - Express plumbing and the 500 responses that a malformed body (for example a text message without `text.body`) or a thrown error causes are not modelled.
  - A query parameter given as an array is not modelled.
- Concurrency: webhook deliveries for the same session are processed one after the other. The source does not serialise them.
- Engine.Session.ExecuteNode: the chain of `executeNode` calls is bounded by `fuel`. A flow whose nodes loop without a wait runs without end in the source; in the model it stops when the fuel runs out.
- Strings: lengths count Unicode characters, not UTF-16 code units. `toLowerCase` is modelled for ASCII letters only, which decides the start keywords the same way.
- Layout.AutoLayout: positions are integers. A drop position with a fraction is not modelled. The layout's own offsets are multiples of 50.
- NodePanel.UpdateButton: the source writes the new title into the shared button object, so the canvas node's button changes before a save. The model works on values and shows the change only through the draft.
- Freshness of ids: `Date.now()` is a `stamp` parameter. The invariant lemmas assume the resulting id is new.
- UI: rendering, `window.confirm` and its wording beyond the subject, `alert`, `prompt` and the selected-node state are not modelled. Neither are logging, export/import, and the reactflow `addEdge` call, whose code is not part of this model.
- EngineProps.SubflowCallReturns: the return to the caller is proved for a sub-flow of one terminal text message only. For arbitrary sub-flows, which may wait for replies and call further sub-flows, the model proves the parts separately: `GotoOutcomes` pushes exactly one frame, `FlowEndReturns` pops exactly that frame, and `PushThenReturned` shows that the pop undoes the push. No lemma states that a sub-flow run leaves the frames below its own untouched.
- Duplicate button titles: the de-duplication compares trimmed titles exactly, so "Yes" and "yes " both survive; the model follows the code, which is case-sensitive.

## Findings

| source | as written | input that shows it | evidently intended | confidence | as-written member | corrected member |
|---|---|---|---|---|---|---|
| backend/src/routes/webhookRoutes.ts:37 | `token === bot.verifyToken` also holds when both are undefined | a bot with no verify token (never connected) and `GET ?hub.mode=subscribe&hub.challenge=1158201444` without `hub.verify_token`: the challenge is echoed | only a configured, non-empty verify token verifies | not executed | Webhook.VerifyAsWritten, Webhook.UnconfiguredBotVerifiesWithoutToken | Webhook.Verify |
