/** Expo push notifications (src/tools/NotificationService.ts): the messages built
    from a token list and the options, and how the outcome of the HTTP request
    becomes the result object. The request itself is not made here: its outcome
    is an input, and the messages it would carry are returned beside the result. */
module NotificationService {
  import opened Wrappers
  import opened JsValues

  /** `NotificationOptions`; `data` is a string-valued object. */
  datatype NotificationOptions = NotificationOptions(
    title: Option<string>,
    body: Option<string>,
    data: Option<map<string, string>>,
    sound: Option<string>,
    badge: Option<real>,
    priority: Option<string>,
    ttl: Option<real>)

  const NoOptions := NotificationOptions(None, None, None, None, None, None, None)

  /** `PushMessage`; `sound` and `priority` always carry a value. */
  datatype PushMessage = PushMessage(
    to: string,
    title: Option<string>,
    body: Option<string>,
    data: Option<map<string, string>>,
    sound: string,
    badge: Option<real>,
    priority: string,
    ttl: Option<real>)

  /** The JSON text of one push ticket. */
  type PushTicket = string

  /** The parsed body of a push response: its `data` array when it has one. */
  datatype PushResponse = PushResponse(data: Option<seq<PushTicket>>)

  /** The body of an answer, or the message of the error `response.json()` threw. */
  datatype Body = Parsed(response: PushResponse) | Malformed(message: string)

  /** What `fetch` did: threw (with the message when the thrown value is an `Error`),
      or answered. */
  datatype FetchOutcome =
    | Threw(message: Option<string>)
    | Answered(ok: bool, status: int, statusText: string, body: Body)

  datatype SendResult = SendResult(success: bool, results: Option<PushResponse>, error: Option<string>)

  /** The request that was sent, if any, and the resolved result. */
  datatype SendCall = SendCall(request: Option<seq<PushMessage>>, result: SendResult)

  const NoToken := "No expo token"
  const UnknownError := "Erreur inconnue"

  /** `x || 'default'` on a string option. */
  function OrDefault(o: Option<string>): (r: string)
    ensures r != ""
    ensures TruthyText(o) ==> r == o.value
    ensures !TruthyText(o) ==> r == "default"
  {
    if TruthyText(o) then o.value else "default"
  }

  /** The message sent to one token. */
  function MessageFor(token: string, options: NotificationOptions): (m: PushMessage)
    ensures m.to == token
    ensures m.title == options.title && m.body == options.body && m.data == options.data
    ensures m.badge == options.badge && m.ttl == options.ttl
    ensures m.sound == OrDefault(options.sound) && m.priority == OrDefault(options.priority)
  {
    PushMessage(token, options.title, options.body, options.data,
                OrDefault(options.sound), options.badge, OrDefault(options.priority), options.ttl)
  }

  /** `expoTokens.map(...)`: one message per token, in order, each addressed to its
      token and otherwise identical. */
  function BuildMessages(tokens: seq<string>, options: NotificationOptions): (messages: seq<PushMessage>)
    ensures |messages| == |tokens|
    ensures forall i :: 0 <= i < |tokens| ==> messages[i].to == tokens[i]
    ensures forall i, j :: 0 <= i < |tokens| && 0 <= j < |tokens| ==> messages[i].(to := "") == messages[j].(to := "")
    ensures forall i :: 0 <= i < |tokens| ==> messages[i] == MessageFor(tokens[i], options)
  {
    seq(|tokens|, i requires 0 <= i < |tokens| => MessageFor(tokens[i], options))
  }

  /** The addresses of a batch, in order. */
  function Recipients(messages: seq<PushMessage>): (tokens: seq<string>)
    ensures |tokens| == |messages|
  {
    if |messages| == 0 then [] else [messages[0].to] + Recipients(messages[1..])
  }

  /** The batch is addressed to exactly the given tokens, in the given order. */
  lemma {:induction false} RecipientsOfBuild(tokens: seq<string>, options: NotificationOptions)
    ensures Recipients(BuildMessages(tokens, options)) == tokens
  {
    if |tokens| > 0 {
      assert BuildMessages(tokens, options)[1..] == BuildMessages(tokens[1..], options);
      RecipientsOfBuild(tokens[1..], options);
    }
  }

  /** `sendNotifications`. */
  function SendNotifications(tokens: Option<seq<string>>, options: NotificationOptions, fetch: FetchOutcome): (c: SendCall)
    ensures c.request.None? <==> tokens.None? || |tokens.value| == 0
    ensures c.request.None? ==> c.result == SendResult(false, None, Some(NoToken))
    ensures c.request.Some? ==> c.request.value == BuildMessages(tokens.value, options)
    ensures c.result.success <==> c.request.Some? && fetch.Answered? && fetch.ok && fetch.body.Parsed?
    ensures c.result.success ==> c.result.results == Some(fetch.body.response) && c.result.error.None?
    ensures !c.result.success ==> c.result.results.None? && c.result.error.Some?
    ensures c.request.Some? && fetch.Answered? && !fetch.ok ==>
      c.result.error == Some("Erreur HTTP: " + IntToString(fetch.status) + " " + fetch.statusText)
    ensures c.request.Some? && fetch.Answered? && fetch.ok && fetch.body.Malformed? ==>
      c.result.error == Some(fetch.body.message)
    ensures c.request.Some? && fetch.Threw? ==>
      c.result.error == Some(if fetch.message.Some? then fetch.message.value else UnknownError)
  {
    if tokens.None? || |tokens.value| == 0 then SendCall(None, SendResult(false, None, Some(NoToken)))
    else
      var messages := BuildMessages(tokens.value, options);
      var result :=
        match fetch
        case Threw(message) => SendResult(false, None, Some(if message.Some? then message.value else UnknownError))
        case Answered(ok, status, statusText, body) =>
          if !ok then SendResult(false, None, Some("Erreur HTTP: " + IntToString(status) + " " + statusText))
          else match body
            case Malformed(message) => SendResult(false, None, Some(message))
            case Parsed(response) => SendResult(true, Some(response), None);
      SendCall(Some(messages), result)
  }

  datatype SingleResult = SingleResult(success: bool, result: Option<PushTicket>, error: Option<string>)

  datatype SingleCall = SingleCall(request: Option<seq<PushMessage>>, result: SingleResult)

  /** `response.results?.data?.[0]`. */
  function FirstTicket(results: Option<PushResponse>): (t: Option<PushTicket>)
    ensures t.Some? <==> results.Some? && results.value.data.Some? && |results.value.data.value| > 0
    ensures t.Some? ==> t.value == results.value.data.value[0]
  {
    if results.Some? && results.value.data.Some? && |results.value.data.value| > 0
    then Some(results.value.data.value[0]) else None
  }

  /** `sendSingleNotification`. */
  function SendSingleNotification(token: string, options: NotificationOptions, fetch: FetchOutcome): (c: SingleCall)
    ensures c.request == Some([MessageFor(token, options)])
    ensures c.result.success <==> fetch.Answered? && fetch.ok && fetch.body.Parsed?
    ensures c.result.success ==>
      c.result.error.None? && c.result.result == FirstTicket(Some(fetch.body.response))
    ensures !c.result.success ==>
      c.result.result.None? && c.result.error == SendNotifications(Some([token]), options, fetch).result.error
  {
    var response := SendNotifications(Some([token]), options, fetch);
    assert BuildMessages([token], options) == [MessageFor(token, options)];
    if !response.result.success then SingleCall(response.request, SingleResult(false, None, response.result.error))
    else SingleCall(response.request, SingleResult(true, FirstTicket(response.result.results), None))
  }

  /** A single send always goes out, even to an empty token, since its list has one
      element; a failure always carries an error. */
  lemma SingleAlwaysSends(token: string, options: NotificationOptions, fetch: FetchOutcome)
    ensures var c := SendSingleNotification(token, options, fetch);
      && c.request.Some? && |c.request.value| == 1 && c.request.value[0].to == token
      && (!c.result.success ==> c.result.error.Some?)
  {
  }

  /** Sending to one token is the batch send to a one-token list, with the first
      ticket in place of the whole response. */
  lemma SingleIsBatchOfOne(token: string, options: NotificationOptions, fetch: FetchOutcome)
    ensures var single := SendSingleNotification(token, options, fetch);
      var batch := SendNotifications(Some([token]), options, fetch);
      && single.request == batch.request
      && single.result.success == batch.result.success
      && single.result.error == batch.result.error
      && single.result.result == FirstTicket(batch.result.results)
  {
  }

  /** With no options, every message asks for the default sound and priority and
      carries nothing else besides its address. */
  lemma DefaultsWithoutOptions(tokens: seq<string>)
    ensures forall i :: 0 <= i < |tokens| ==>
      BuildMessages(tokens, NoOptions)[i] == PushMessage(tokens[i], None, None, None, "default", None, "default", None)
  {
  }
}
