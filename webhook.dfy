/**
 * The per-bot webhook (backend/src/routes/webhookRoutes.ts). GET answers the subscription
 * handshake of the WhatsApp Cloud API; POST turns a delivered batch of messages into calls of
 * the flow engine, in delivery order. The engine calls themselves are modelled in Engine; here
 * a POST yields the list of calls it makes.
 */
module Webhook {
  import opened Wrappers
  import opened Seqs
  import opened JsText

  /** What the webhook reads of a bot record. */
  datatype BotInfo = BotInfo(verifyToken: Option<string>)

  datatype VerifyResponse =
    | BotNotFound                          // 404
    | EndpointInfo                         // 200 with a description of the endpoint
    | Verified(challenge: Option<string>)  // 200 echoing hub.challenge
    | VerificationFailed                   // 403

  /** A query parameter JavaScript treats as false: absent or empty. */
  predicate Falsy(v: Option<string>) {
    v.None? || v.value == ""
  }

  /**
   * The GET handler as written. The token comparison is strict equality of two possibly
   * undefined values, so a bot that never stored a verify token accepts a request that
   * carries none.
   */
  function VerifyAsWritten(bot: Option<BotInfo>, mode: Option<string>, token: Option<string>, challenge: Option<string>): (r: VerifyResponse)
    ensures r.BotNotFound? <==> bot.None?
    ensures r.EndpointInfo? <==> bot.Some? && Falsy(mode) && Falsy(token) && Falsy(challenge)
    ensures r.Verified? <==>
      bot.Some? && !(Falsy(mode) && Falsy(token) && Falsy(challenge)) && mode == Some("subscribe") && token == bot.value.verifyToken
    ensures r.Verified? ==> r.challenge == challenge
    ensures r.VerificationFailed? <==>
      bot.Some? && !(Falsy(mode) && Falsy(token) && Falsy(challenge)) && !(mode == Some("subscribe") && token == bot.value.verifyToken)
  {
    if bot.None? then BotNotFound
    else if Falsy(mode) && Falsy(token) && Falsy(challenge) then EndpointInfo
    else if mode == Some("subscribe") && token == bot.value.verifyToken then Verified(challenge)
    else VerificationFailed
  }

  /** The handshake as intended: only the bot's own, configured token verifies. */
  function Verify(bot: Option<BotInfo>, mode: Option<string>, token: Option<string>, challenge: Option<string>): (r: VerifyResponse)
    ensures r.BotNotFound? <==> bot.None?
    ensures r.EndpointInfo? <==> bot.Some? && Falsy(mode) && Falsy(token) && Falsy(challenge)
    ensures r.Verified? <==>
      bot.Some? && mode == Some("subscribe") && !Falsy(token) && token == bot.value.verifyToken
    ensures r.Verified? ==> r.challenge == challenge
    ensures r.VerificationFailed? <==>
      bot.Some? && !(Falsy(mode) && Falsy(token) && Falsy(challenge))
      && !(mode == Some("subscribe") && !Falsy(token) && token == bot.value.verifyToken)
  {
    if bot.None? then BotNotFound
    else if Falsy(mode) && Falsy(token) && Falsy(challenge) then EndpointInfo
    else if mode == Some("subscribe") && !Falsy(bot.value.verifyToken) && token == bot.value.verifyToken then Verified(challenge)
    else VerificationFailed
  }

  /** The two agree on every bot that has a verify token, i.e. every connected bot. */
  lemma VerifyAgreesOnConfiguredBots(bot: Option<BotInfo>, mode: Option<string>, token: Option<string>, challenge: Option<string>)
    requires bot.Some? ==> !Falsy(bot.value.verifyToken)
    ensures Verify(bot, mode, token, challenge) == VerifyAsWritten(bot, mode, token, challenge)
  {
  }

  /**
   * As written, a bot without a verify token is verified by a subscribe request that carries no
   * token at all; the intended handshake refuses it.
   */
  lemma UnconfiguredBotVerifiesWithoutToken()
    ensures VerifyAsWritten(Some(BotInfo(None)), Some("subscribe"), None, Some("1158201444")) == Verified(Some("1158201444"))
    ensures Verify(Some(BotInfo(None)), Some("subscribe"), None, Some("1158201444")) == VerificationFailed
  {
  }

  // ---------------------------------------------------------------------------------------
  // POST: from a delivered payload to engine calls.

  /** The part of a message the handler looks at, by `message.type`. */
  datatype Content =
    | Text(body: string)                       // type "text", text.body
    | Interactive(kind: string, replyId: string) // type "interactive"; the id of its button_reply or list_reply
    | OtherType(messageType: string)

  datatype Message = Message(from: string, content: Content)

  /** `change.value.messages`, which is absent for status updates. */
  datatype Change = Change(messages: Option<seq<Message>>)

  datatype Entry = Entry(changes: seq<Change>)

  datatype WebhookBody = WebhookBody(objectName: Option<string>, entries: seq<Entry>)

  datatype EngineCall =
    | StartFlowCall(phone: string)                // startFlow(phone, botId)
    | ReplyCall(phone: string, replyId: string)   // handleButtonClick(phone, replyId, botId)

  datatype PostResponse = NotFound | Accepted(calls: seq<EngineCall>)

  const StartKeywords: seq<string> := ["hi", "hello", "start"]

  /** A text that starts the flow: lower-cased and trimmed, it is one of the keywords. */
  predicate IsStartKeyword(body: string) {
    Trim(ToLowerAscii(body)) in StartKeywords
  }

  /** The calls one message causes. */
  function MessageCalls(m: Message): (r: seq<EngineCall>)
    ensures |r| <= 1
    ensures r == [StartFlowCall(m.from)] <==> m.content.Text? && IsStartKeyword(m.content.body)
    ensures m.content.Interactive? && (m.content.kind == "button_reply" || m.content.kind == "list_reply") ==>
      r == [ReplyCall(m.from, m.content.replyId)]
    ensures (exists id :: r == [ReplyCall(m.from, id)]) ==>
      m.content.Interactive? && (m.content.kind == "button_reply" || m.content.kind == "list_reply")
    ensures r != [] ==> r[0].phone == m.from
  {
    match m.content
    case Text(body) => if IsStartKeyword(body) then [StartFlowCall(m.from)] else []
    case Interactive(kind, id) =>
      if kind == "button_reply" || kind == "list_reply" then [ReplyCall(m.from, id)] else []
    case OtherType(_) => []
  }

  function ChangeCalls(c: Change): seq<EngineCall> {
    FlatMap(c.messages.GetOr([]), MessageCalls)
  }

  function EntryCalls(e: Entry): seq<EngineCall> {
    FlatMap(e.changes, ChangeCalls)
  }

  /** The POST handler: 404 for an unknown bot, otherwise the calls in entry, change, message order. */
  function Receive(bot: Option<BotInfo>, body: WebhookBody): (r: PostResponse)
    ensures r.NotFound? <==> bot.None?
    ensures bot.Some? && body.objectName != Some("whatsapp_business_account") ==> r == Accepted([])
  {
    if bot.None? then NotFound
    else if body.objectName == Some("whatsapp_business_account") then Accepted(FlatMap(body.entries, EntryCalls))
    else Accepted([])
  }

  /** The handler's loop over the entries of a payload, issuing engine calls as it goes. */
  method ReceiveWebhook(bot: Option<BotInfo>, body: WebhookBody) returns (r: PostResponse)
    ensures r == Receive(bot, body)
  {
    if bot.None? {
      return NotFound;
    }
    var calls: seq<EngineCall> := [];
    if body.objectName == Some("whatsapp_business_account") {
      var i := 0;
      while i < |body.entries|
        invariant 0 <= i <= |body.entries|
        invariant calls == FlatMap(body.entries[..i], EntryCalls)
      {
        var more := ProcessEntry(body.entries[i]);
        calls := calls + more;
        FlatMapSnoc(body.entries, EntryCalls, i);
        i := i + 1;
      }
      assert body.entries[..i] == body.entries;
    }
    return Accepted(calls);
  }

  /** The middle loop: the changes of one entry; a change without messages is skipped. */
  method ProcessEntry(entry: Entry) returns (calls: seq<EngineCall>)
    ensures calls == EntryCalls(entry)
  {
    calls := [];
    var j := 0;
    while j < |entry.changes|
      invariant 0 <= j <= |entry.changes|
      invariant calls == FlatMap(entry.changes[..j], ChangeCalls)
    {
      var change := entry.changes[j];
      if change.messages.Some? {
        var more := ProcessMessages(change.messages.value);
        calls := calls + more;
      }
      FlatMapSnoc(entry.changes, ChangeCalls, j);
      j := j + 1;
    }
    assert entry.changes[..j] == entry.changes;
  }

  /** The inner loop: each message of a change, in order. */
  method ProcessMessages(ms: seq<Message>) returns (calls: seq<EngineCall>)
    ensures calls == FlatMap(ms, MessageCalls)
  {
    calls := [];
    var k := 0;
    while k < |ms|
      invariant 0 <= k <= |ms|
      invariant calls == FlatMap(ms[..k], MessageCalls)
    {
      var more := HandleMessage(ms[k]);
      calls := calls + more;
      FlatMapSnoc(ms, MessageCalls, k);
      k := k + 1;
    }
    assert ms[..k] == ms;
  }

  /** The body of the inner loop: a start keyword, a button reply or a list reply. */
  method HandleMessage(m: Message) returns (calls: seq<EngineCall>)
    ensures calls == MessageCalls(m)
  {
    calls := [];
    match m.content {
      case Text(b) =>
        var text := Trim(ToLowerAscii(b));
        if text in StartKeywords {
          calls := calls + [StartFlowCall(m.from)];
        }
      case Interactive(kind, id) =>
        if kind == "button_reply" {
          calls := calls + [ReplyCall(m.from, id)];
        }
        if kind == "list_reply" {
          calls := calls + [ReplyCall(m.from, id)];
        }
      case OtherType(_) =>
    }
  }

  /** Two payloads delivered one after the other cause the first one's calls first. */
  lemma BatchesInOrder(bot: BotInfo, a: seq<Entry>, b: seq<Entry>)
    ensures Receive(Some(bot), WebhookBody(Some("whatsapp_business_account"), a + b)).calls
      == Receive(Some(bot), WebhookBody(Some("whatsapp_business_account"), a)).calls
       + Receive(Some(bot), WebhookBody(Some("whatsapp_business_account"), b)).calls
  {
    FlatMapAppend(a, b, EntryCalls);
  }

  /** A button reply and a list reply with the same id go to the same resolver. */
  lemma RepliesRouteAlike(from: string, id: string)
    ensures MessageCalls(Message(from, Interactive("button_reply", id)))
         == MessageCalls(Message(from, Interactive("list_reply", id)))
         == [ReplyCall(from, id)]
  {
  }

  /** Surrounding white space and ASCII capitals do not change whether a text starts the flow. */
  lemma StartKeywordIgnoresPaddingAndCase(pad1: string, body: string, pad2: string)
    requires AllSpace(pad1) && AllSpace(pad2)
    ensures IsStartKeyword(pad1 + body + pad2) <==> IsStartKeyword(body)
    ensures IsStartKeyword(ToLowerAscii(body)) <==> IsStartKeyword(body)
  {
    ToLowerAsciiAppend(pad1 + body, pad2);
    ToLowerAsciiAppend(pad1, body);
    ToLowerAsciiSpace(pad1);
    ToLowerAsciiSpace(pad2);
    TrimPadded(pad1, ToLowerAscii(body), pad2);
    ToLowerAsciiAppend(body, []);
  }
}
