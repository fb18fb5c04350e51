/** The WebSocket channel registry (src/websocketServer/WebSocketServer.ts).

    `WebSocketManager` keeps a `Map` from client id to the client's socket and its
    set of subscribed channels. Sockets are modelled by their `open` flag
    (`readyState === OPEN`), and every `ws.send` is an append to `outbox`; JSON
    encoding of the outgoing messages is not modelled. The JavaScript `Map`
    iterates in insertion order, which `order` records. */
module WebSocketRegistry {
  import opened Wrappers
  import opened JsValues

  /** The `data` part of an outgoing message. */
  datatype EventData = ClientInfo(clientId: string) | ChannelInfo(channel: string) | AppData(json: string)

  /** An outgoing message: `{type: 'event', eventType, data}` or `{type: 'error', data: {message}}`. */
  datatype Outgoing = EventMessage(eventType: string, data: EventData) | ErrorMessage(message: string)

  /** An incoming frame after `JSON.parse`: text that does not parse, the JSON value
      `null` (reading its `type` throws inside the same `try`), or an object with
      optional `type` and `channel` fields. */
  datatype Incoming = Unparseable | NullMessage | Message(kind: Option<string>, channel: Option<string>)

  datatype Client = Client(open: bool, subscriptions: set<string>)

  datatype Delivery = Delivery(to: string, message: Outgoing)

  type Registry = map<string, Client>

  /** A registry after one handler step, with what the step sent. */
  datatype Step = Step(registry: Registry, sent: seq<Delivery>)

  const InvalidJson := "Invalid JSON format"
  const UnknownType := "Unknown message type"

  // ---------------------------------------------------------------------------
  // Specification of the handlers

  /** `sendToClient`: one delivery when the client is registered and its socket is open. */
  function Send(reg: Registry, id: string, msg: Outgoing): (sent: seq<Delivery>)
    ensures |sent| <= 1
    ensures sent != [] <==> id in reg && reg[id].open
    ensures forall d :: d in sent ==> d == Delivery(id, msg)
  {
    if id in reg && reg[id].open then [Delivery(id, msg)] else []
  }

  /** The `'message'` listener followed by `handleMessage`. */
  function HandleMessage(reg: Registry, id: string, m: Incoming): Step
  {
    if id !in reg then Step(reg, [])
    else match m
      case Unparseable => Step(reg, Send(reg, id, ErrorMessage(InvalidJson)))
      case NullMessage => Step(reg, Send(reg, id, ErrorMessage(InvalidJson)))
      case Message(kind, channel) =>
        if kind == Some("subscribe") then
          if TruthyText(channel) then
            var reg' := reg[id := reg[id].(subscriptions := reg[id].subscriptions + {channel.value})];
            Step(reg', Send(reg', id, EventMessage("subscribed", ChannelInfo(channel.value))))
          else Step(reg, [])
        else if kind == Some("unsubscribe") then
          if TruthyText(channel) then
            var reg' := reg[id := reg[id].(subscriptions := reg[id].subscriptions - {channel.value})];
            Step(reg', Send(reg', id, EventMessage("unsubscribed", ChannelInfo(channel.value))))
          else Step(reg, [])
        else Step(reg, Send(reg, id, ErrorMessage(UnknownType)))
  }

  /** Handling a message touches at most the sender's own entry, keeps every socket's
      state, and answers only the sender. */
  lemma HandleMessageLocal(reg: Registry, id: string, m: Incoming)
    ensures HandleMessage(reg, id, m).registry.Keys == reg.Keys
    ensures forall other :: other in reg && other != id ==> HandleMessage(reg, id, m).registry[other] == reg[other]
    ensures forall c :: c in reg ==> HandleMessage(reg, id, m).registry[c].open == reg[c].open
    ensures forall d :: d in HandleMessage(reg, id, m).sent ==> d.to == id
  {
  }

  /** Subscribing adds the channel and acknowledges; a second identical subscribe
      leaves the subscriptions as they were. */
  lemma SubscribeAdds(reg: Registry, id: string, channel: string)
    requires id in reg && channel != ""
    ensures var s := HandleMessage(reg, id, Message(Some("subscribe"), Some(channel)));
      && s.registry[id].subscriptions == reg[id].subscriptions + {channel}
      && s.sent == (if reg[id].open then [Delivery(id, EventMessage("subscribed", ChannelInfo(channel)))] else [])
      && HandleMessage(s.registry, id, Message(Some("subscribe"), Some(channel))).registry == s.registry
  {
  }

  /** Unsubscribing removes the channel and acknowledges; a channel the client does
      not have leaves the registry as it was, and the acknowledgement is still sent. */
  lemma UnsubscribeRemoves(reg: Registry, id: string, channel: string)
    requires id in reg && channel != ""
    ensures var s := HandleMessage(reg, id, Message(Some("unsubscribe"), Some(channel)));
      && s.registry[id].subscriptions == reg[id].subscriptions - {channel}
      && (channel !in reg[id].subscriptions ==> s.registry == reg)
      && s.sent == (if reg[id].open then [Delivery(id, EventMessage("unsubscribed", ChannelInfo(channel)))] else [])
  {
    if channel !in reg[id].subscriptions {
      var s := HandleMessage(reg, id, Message(Some("unsubscribe"), Some(channel)));
      assert s.registry[id].subscriptions == reg[id].subscriptions;
      assert s.registry[id] == reg[id];
    }
  }

  /** A subscribe or unsubscribe without a (truthy) channel changes nothing and sends nothing. */
  lemma NoChannelNoEffect(reg: Registry, id: string, kind: string, channel: Option<string>)
    requires kind == "subscribe" || kind == "unsubscribe"
    requires !TruthyText(channel)
    ensures HandleMessage(reg, id, Message(Some(kind), channel)) == Step(reg, [])
  {
  }

  /** Unsubscribing undoes a subscribe to a channel the client did not have. */
  lemma UnsubscribeUndoesSubscribe(reg: Registry, id: string, channel: string)
    requires id in reg && channel != "" && channel !in reg[id].subscriptions
    ensures var s := HandleMessage(reg, id, Message(Some("subscribe"), Some(channel)));
      HandleMessage(s.registry, id, Message(Some("unsubscribe"), Some(channel))).registry == reg
  {
    var s := HandleMessage(reg, id, Message(Some("subscribe"), Some(channel)));
    var t := HandleMessage(s.registry, id, Message(Some("unsubscribe"), Some(channel)));
    assert t.registry[id].subscriptions == reg[id].subscriptions;
    assert t.registry[id] == reg[id];
  }

  /** Any other message type, `'event'` and `'error'` included, is answered with an
      error and changes no subscription; so are unparseable frames. */
  lemma OtherMessagesOnlyAnswer(reg: Registry, id: string, m: Incoming)
    requires id in reg
    requires m.Message? ==> m.kind != Some("subscribe") && m.kind != Some("unsubscribe")
    ensures HandleMessage(reg, id, m).registry == reg
    ensures HandleMessage(reg, id, m).sent ==
      Send(reg, id, ErrorMessage(if m.Message? then UnknownType else InvalidJson))
  {
  }

  /** Messages of a client that is not registered are ignored. */
  lemma UnknownClientIgnored(reg: Registry, id: string, m: Incoming)
    requires id !in reg
    ensures HandleMessage(reg, id, m) == Step(reg, [])
  {
  }

  /** `emitToChannel`'s loop over the clients in `order`. */
  function ToChannel(order: seq<string>, reg: Registry, channel: string, msg: Outgoing): seq<Delivery>
  {
    if order == [] then []
    else
      var id := order[|order| - 1];
      ToChannel(order[..|order| - 1], reg, channel, msg)
      + (if id in reg && channel in reg[id].subscriptions then Send(reg, id, msg) else [])
  }

  /** `emitToAll`'s loop over the clients in `order`. */
  function ToAll(order: seq<string>, reg: Registry, msg: Outgoing): seq<Delivery>
  {
    if order == [] then []
    else ToAll(order[..|order| - 1], reg, msg) + Send(reg, order[|order| - 1], msg)
  }

  /** The clients subscribed to `channel`. */
  function Subscribers(reg: Registry, channel: string): set<string>
  {
    set id | id in reg && channel in reg[id].subscriptions
  }

  /** Channel fan-out reaches exactly the open, subscribed clients of `order`, once each. */
  lemma {:induction false} ToChannelRecipients(order: seq<string>, reg: Registry, channel: string, msg: Outgoing)
    requires Distinct(order)
    ensures forall d :: d in ToChannel(order, reg, channel, msg) <==>
      d.message == msg && d.to in order && d.to in reg && reg[d.to].open && channel in reg[d.to].subscriptions
    ensures Distinct(ToChannel(order, reg, channel, msg))
  {
    if order != [] {
      var init := order[..|order| - 1];
      var last := order[|order| - 1];
      assert order == init + [last];
      assert Distinct(init);
      ToChannelRecipients(init, reg, channel, msg);
      assert last !in init;
      var prev := ToChannel(init, reg, channel, msg);
      forall d | d in prev ensures d.to != last {
      }
    }
  }

  /** Broadcast fan-out reaches exactly the open clients of `order`, once each. */
  lemma {:induction false} ToAllRecipients(order: seq<string>, reg: Registry, msg: Outgoing)
    requires Distinct(order)
    ensures forall d :: d in ToAll(order, reg, msg) <==>
      d.message == msg && d.to in order && d.to in reg && reg[d.to].open
    ensures Distinct(ToAll(order, reg, msg))
  {
    if order != [] {
      var init := order[..|order| - 1];
      var last := order[|order| - 1];
      assert order == init + [last];
      assert Distinct(init);
      ToAllRecipients(init, reg, msg);
      assert last !in init;
    }
  }

  /** `getSubscriberCount`'s counting loop over `order`. */
  function CountSubscribed(order: seq<string>, reg: Registry, channel: string): nat
  {
    if order == [] then 0
    else
      var id := order[|order| - 1];
      CountSubscribed(order[..|order| - 1], reg, channel)
      + (if id in reg && channel in reg[id].subscriptions then 1 else 0)
  }

  lemma {:induction false} CountSubscribedIsSize(order: seq<string>, reg: Registry, channel: string)
    requires Distinct(order)
    ensures CountSubscribed(order, reg, channel)
         == |set id | id in order && id in reg && channel in reg[id].subscriptions|
  {
    if order != [] {
      var init := order[..|order| - 1];
      var last := order[|order| - 1];
      assert order == init + [last];
      assert Distinct(init);
      CountSubscribedIsSize(init, reg, channel);
      assert last !in init;
      var before := set id | id in init && id in reg && channel in reg[id].subscriptions;
      var after := set id | id in order && id in reg && channel in reg[id].subscriptions;
      if last in reg && channel in reg[last].subscriptions {
        assert after == before + {last};
      } else {
        assert after == before;
      }
    }
  }

  lemma {:induction false} DistinctSize(order: seq<string>)
    requires Distinct(order)
    ensures |set id | id in order| == |order|
  {
    if order != [] {
      var init := order[..|order| - 1];
      var last := order[|order| - 1];
      assert order == init + [last];
      assert Distinct(init);
      DistinctSize(init);
      assert last !in init;
      assert (set id | id in order) == (set id | id in init) + {last};
    }
  }

  /** Every channel some client is subscribed to. */
  function AllChannels(reg: Registry): set<string>
  {
    set id, ch | id in reg && ch in reg[id].subscriptions :: ch
  }

  /** `order` without `id`: the `Map.delete` of the close and error listeners. */
  function Without(order: seq<string>, id: string): (r: seq<string>)
    ensures forall x :: x in r <==> x in order && x != id
    ensures Distinct(order) ==> Distinct(r)
  {
    if order == [] then []
    else if order[0] == id then Without(order[1..], id)
    else
      var rest := Without(order[1..], id);
      assert forall x :: x in order[1..] ==> x in order;
      assert Distinct(order) ==> Distinct(order[1..]) && order[0] !in order[1..];
      [order[0]] + rest
  }

  // ---------------------------------------------------------------------------
  // The manager

  class WebSocketManager {
    /** The registry keys in `Map` insertion order. */
    var order: seq<string>
    var clients: Registry
    /** Every message sent so far, in sending order. */
    var outbox: seq<Delivery>

    ghost predicate Valid()
      reads this
    {
      Distinct(order) && forall id :: id in order <==> id in clients
    }

    /** The HTTP server and its listener are transport plumbing; the registry starts empty. */
    constructor ()
      ensures Valid()
      ensures clients == map[] && order == [] && outbox == []
    {
      order := [];
      clients := map[];
      outbox := [];
    }

    method SendToClient(clientId: string, message: Outgoing)
      modifies this`outbox
      ensures outbox == old(outbox) + Send(clients, clientId, message)
    {
      if clientId in clients && clients[clientId].open {
        outbox := outbox + [Delivery(clientId, message)];
      }
    }

    /** The `'connection'` listener; `clientId` is the generated id and `open` the
        socket's ready state. A repeated id overwrites the entry in place. */
    method Connect(clientId: string, open: bool)
      requires Valid()
      modifies this
      ensures Valid()
      ensures clients == old(clients)[clientId := Client(open, {})]
      ensures order == if clientId in old(clients) then old(order) else old(order) + [clientId]
      ensures outbox == old(outbox) + Send(clients, clientId, EventMessage("connected", ClientInfo(clientId)))
    {
      if clientId !in clients {
        order := order + [clientId];
      }
      clients := clients[clientId := Client(open, {})];
      SendToClient(clientId, EventMessage("connected", ClientInfo(clientId)));
    }

    /** The `'message'` listener: parse outcome `m`, then `handleMessage`. */
    method OnMessage(clientId: string, m: Incoming)
      requires Valid()
      modifies this
      ensures Valid()
      ensures order == old(order)
      ensures clients == HandleMessage(old(clients), clientId, m).registry
      ensures outbox == old(outbox) + HandleMessage(old(clients), clientId, m).sent
    {
      if clientId !in clients {
        return;
      }
      match m {
        case Unparseable =>
          SendToClient(clientId, ErrorMessage(InvalidJson));
        case NullMessage =>
          SendToClient(clientId, ErrorMessage(InvalidJson));
        case Message(kind, channel) =>
          var client := clients[clientId];
          if kind == Some("subscribe") {
            if TruthyText(channel) {
              clients := clients[clientId := client.(subscriptions := client.subscriptions + {channel.value})];
              SendToClient(clientId, EventMessage("subscribed", ChannelInfo(channel.value)));
            }
          } else if kind == Some("unsubscribe") {
            if TruthyText(channel) {
              clients := clients[clientId := client.(subscriptions := client.subscriptions - {channel.value})];
              SendToClient(clientId, EventMessage("unsubscribed", ChannelInfo(channel.value)));
            }
          } else {
            SendToClient(clientId, ErrorMessage(UnknownType));
          }
      }
    }

    /** The `'close'` and `'error'` listeners: the client leaves the registry. */
    method Disconnect(clientId: string)
      requires Valid()
      modifies this
      ensures Valid()
      ensures clients == old(clients) - {clientId}
      ensures order == Without(old(order), clientId)
      ensures outbox == old(outbox)
    {
      clients := clients - {clientId};
      order := Without(order, clientId);
    }

    /** The socket of a registered client changes its ready state (the library
        does this on its own; it decides whether `sendToClient` sends). */
    method ReadyStateChanged(clientId: string, open: bool)
      requires Valid()
      modifies this
      ensures Valid()
      ensures clientId in old(clients) ==> clients == old(clients)[clientId := old(clients)[clientId].(open := open)]
      ensures clientId !in old(clients) ==> clients == old(clients)
      ensures order == old(order) && outbox == old(outbox)
    {
      if clientId in clients {
        clients := clients[clientId := clients[clientId].(open := open)];
      }
    }

    method EmitToChannel(channel: string, eventType: string, data: EventData)
      requires Valid()
      modifies this`outbox
      ensures outbox == old(outbox) + ToChannel(order, clients, channel, EventMessage(eventType, data))
    {
      var message := EventMessage(eventType, data);
      var i := 0;
      while i < |order|
        invariant 0 <= i <= |order|
        invariant outbox == old(outbox) + ToChannel(order[..i], clients, channel, message)
      {
        assert order[..i + 1][..i] == order[..i];
        var id := order[i];
        if id in clients && channel in clients[id].subscriptions {
          SendToClient(id, message);
        }
        i := i + 1;
      }
      assert order[..|order|] == order;
    }

    method EmitToAll(eventType: string, data: EventData)
      requires Valid()
      modifies this`outbox
      ensures outbox == old(outbox) + ToAll(order, clients, EventMessage(eventType, data))
    {
      var message := EventMessage(eventType, data);
      var i := 0;
      while i < |order|
        invariant 0 <= i <= |order|
        invariant outbox == old(outbox) + ToAll(order[..i], clients, message)
      {
        assert order[..i + 1][..i] == order[..i];
        SendToClient(order[i], message);
        i := i + 1;
      }
      assert order[..|order|] == order;
    }

    method EmitToClient(clientId: string, eventType: string, data: EventData)
      modifies this`outbox
      ensures outbox == old(outbox) + Send(clients, clientId, EventMessage(eventType, data))
    {
      SendToClient(clientId, EventMessage(eventType, data));
    }

    method GetSubscriberCount(channel: string) returns (count: nat)
      requires Valid()
      ensures count == |Subscribers(clients, channel)|
    {
      count := 0;
      var i := 0;
      while i < |order|
        invariant 0 <= i <= |order|
        invariant count == CountSubscribed(order[..i], clients, channel)
      {
        assert order[..i + 1][..i] == order[..i];
        var id := order[i];
        if id in clients && channel in clients[id].subscriptions {
          count := count + 1;
        }
        i := i + 1;
      }
      assert order[..|order|] == order;
      CountSubscribedIsSize(order, clients, channel);
      assert (set id | id in order && id in clients && channel in clients[id].subscriptions)
          == Subscribers(clients, channel);
    }

    method GetConnectedClientsCount() returns (n: nat)
      requires Valid()
      ensures n == |clients| == |order|
    {
      n := |clients|;
      DistinctSize(order);
      assert clients.Keys == set id | id in order;
    }

    method GetChannels() returns (channels: set<string>)
      requires Valid()
      ensures channels == AllChannels(clients)
    {
      channels := {};
      var i := 0;
      while i < |order|
        invariant 0 <= i <= |order|
        invariant channels == set id, ch | id in order[..i] && id in clients && ch in clients[id].subscriptions :: ch
      {
        var id := order[i];
        var before := channels;
        if id in clients {
          var rest := clients[id].subscriptions;
          while rest != {}
            invariant rest <= clients[id].subscriptions
            invariant channels == before + (clients[id].subscriptions - rest)
          {
            var ch :| ch in rest;
            channels := channels + {ch};
            rest := rest - {ch};
          }
        }
        assert order[..i + 1] == order[..i] + [id];
        i := i + 1;
      }
      assert order[..|order|] == order;
    }
  }
}
