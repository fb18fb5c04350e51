/** POST `/auth/event` (src/webServer/controllers/EventController.ts): validation of
    a multipart event upload, construction of the `IEvent` (src/interface/IEvent.ts),
    and what the route does with it.

    The audio store, the session collection and the MQTT client are recorded as
    effects; the generated file name, the clock reading and the session documents
    are inputs. */
module EventController {
  import opened Wrappers
  import opened JsValues
  import opened SessionController

  /** A multipart field; `value` is absent for a file part sent under a field's name. */
  datatype Field = Field(value: Option<string>)

  /** The fields of the request body; `audioFile` is present when a file part was sent. */
  datatype EventBody = EventBody(
    eventType: Option<Field>,
    audioFile: bool,
    sessionId: Option<Field>,
    textContent: Option<Field>)

  /** An `IEvent`. */
  datatype Event = Event(
    kind: string,
    friendId: Option<string>,
    timestamp: nat,
    audioName: Option<string>,
    textContent: Option<string>)

  datatype Reply =
    | Status(code: nat, message: string)
    | Received
    /** A TypeError thrown by the handler, answered by the framework with a 500. */
    | Crashed

  datatype EventEffect =
    | AudioSaved(fileName: string)
    | SessionUpdated(sessionId: string, event: Event)
    | Published(topic: string, event: Event)

  const SessionIdRequired := "Session ID is required"
  const TypeRequired := "Event type is required and must be one of: audio, internal, text"
  const AudioRequired := "Audio file is required for audio events"
  const TextRequired := "Text content is required for text events"
  const SessionNotFound := "Session not found"

  const EventKinds: seq<string> := ["audio", "internal", "text"]

  /** The session documents by id, each with its `user_id`. */
  type SessionOwners = map<string, JsonValue>

  /** `` `event/${user_id}/` ``. */
  function EventTopic(owner: JsonValue): string
  {
    "event/" + TemplateText(owner) + "/"
  }

  // ---------------------------------------------------------------------------
  // Reference definition

  predicate SessionIdGiven(b: EventBody)
  {
    b.sessionId.Some? && TruthyText(b.sessionId.value.value)
  }

  /** The event, stated as a whole: its fields as the accepted request determines them. */
  function ExpectedEvent(b: EventBody, friendId: Option<string>, now: nat, fileName: string): Event
    requires b.eventType.Some? && b.eventType.value.value.Some?
    requires b.eventType.value.value.value == "text" ==> b.textContent.Some? && b.textContent.value.value.Some?
  {
    var v := b.eventType.value.value.value;
    Event(ToLower(v), friendId, now,
          if b.audioFile then Some(fileName) else None,
          if v == "text" then b.textContent.value.value else None)
  }

  /** The reply and the effects of the route, decided in the route's order. */
  function EventSpec(b: EventBody, friendId: Option<string>, now: nat, fileName: string, owners: SessionOwners): (Reply, seq<EventEffect>)
  {
    if !SessionIdGiven(b) then (Status(400, SessionIdRequired), [])
    else if b.eventType.None? then (Status(400, TypeRequired), [])
    else if b.eventType.value.value.None? then (Crashed, [])
    else
      var v := b.eventType.value.value.value;
      var saved := if b.audioFile then [AudioSaved(fileName)] else [];
      if ToLower(v) !in EventKinds then (Status(400, TypeRequired), [])
      else if v == "audio" && !b.audioFile then (Status(400, AudioRequired), [])
      else if v == "text" && (b.textContent.None? || !TruthyText(b.textContent.value.value)) then (Status(400, TextRequired), saved)
      else
        var id := b.sessionId.value.value.value;
        if id !in owners then (Status(404, SessionNotFound), saved)
        else
          var e := ExpectedEvent(b, friendId, now, fileName);
          (Received, saved + [SessionUpdated(id, e), Published(EventTopic(owners[id]), e)])
  }

  // ---------------------------------------------------------------------------
  // The route

  /** POST `/auth/event`. `body` is `None` when the request has no body, which makes the
      destructuring of the first line throw; `friendId` is the token's `user_id`, `None` when
      the token has none (the field is then dropped from the stored JSON), `now`
      the clock in Unix seconds, `fileName` the name the audio store picks. */
  method PostEvent(body: Option<EventBody>, friendId: Option<string>, now: nat, fileName: string, owners: SessionOwners)
    returns (reply: Reply, effects: seq<EventEffect>)
    ensures body.None? ==> reply == Crashed && effects == []
    ensures body.Some? ==> (reply, effects) == EventSpec(body.value, friendId, now, fileName, owners)
  {
    effects := [];
    if body.None? {
      return Crashed, effects;
    }
    var b := body.value;
    if b.sessionId.None? || !TruthyText(b.sessionId.value.value) {
      return Status(400, SessionIdRequired), effects;
    }
    if b.eventType.None? {
      return Status(400, TypeRequired), effects;
    }
    var typeValue := b.eventType.value.value;
    if typeValue.None? {
      return Crashed, effects;
    }
    var v := typeValue.value;
    if ToLower(v) !in EventKinds {
      return Status(400, TypeRequired), effects;
    }
    if v == "audio" && !b.audioFile {
      return Status(400, AudioRequired), effects;
    }

    var event := Event(ToLower(v), friendId, now, None, None);
    if b.audioFile {
      effects := effects + [AudioSaved(fileName)];
      event := event.(audioName := Some(fileName));
    }
    assert effects == if b.audioFile then [AudioSaved(fileName)] else [];
    if v == "text" {
      if b.textContent.None? || !TruthyText(b.textContent.value.value) {
        return Status(400, TextRequired), effects;
      }
      event := event.(textContent := b.textContent.value.value);
    }

    var id := b.sessionId.value.value.value;
    if id !in owners {
      return Status(404, SessionNotFound), effects;
    }
    var owner := owners[id];
    assert event == ExpectedEvent(b, friendId, now, fileName);
    effects := effects + [SessionUpdated(id, event)];
    effects := effects + [Published(EventTopic(owner), event)];
    assert effects == (if b.audioFile then [AudioSaved(fileName)] else [])
                      + [SessionUpdated(id, event), Published(EventTopic(owner), event)];
    return Received, effects;
  }

  // ---------------------------------------------------------------------------
  // Properties

  /** The session id is checked first: without it nothing else is looked at. */
  lemma SessionIdFirst(b: EventBody, friendId: Option<string>, now: nat, fileName: string, owners: SessionOwners)
    requires !SessionIdGiven(b)
    ensures EventSpec(b, friendId, now, fileName, owners) == (Status(400, SessionIdRequired), [])
  {
  }

  /** An accepted event has a lower-case type from the `IEvent` union, the caller as
      `friend_id`, and the clock reading as `timestamp`; it is stored on the session
      and published to the session owner's topic, in that order. */
  lemma AcceptedEvent(b: EventBody, friendId: Option<string>, now: nat, fileName: string, owners: SessionOwners)
    requires EventSpec(b, friendId, now, fileName, owners).0 == Received
    ensures var effects := EventSpec(b, friendId, now, fileName, owners).1;
      && |effects| >= 2
      && var e := effects[|effects| - 1].event;
      && e.kind in EventKinds
      && e.friendId == friendId && e.timestamp == now
      && SessionIdGiven(b)
      && var id := b.sessionId.value.value.value;
      && id in owners
      && effects[|effects| - 2] == SessionUpdated(id, e)
      && effects[|effects| - 1] == Published("event/" + TemplateText(owners[id]) + "/", e)
  {
  }

  /** `audio_name` is set exactly when a file was sent, whatever the type, and the
      file is saved before the session is updated. */
  lemma AudioNameIffFile(b: EventBody, friendId: Option<string>, now: nat, fileName: string, owners: SessionOwners)
    requires EventSpec(b, friendId, now, fileName, owners).0 == Received
    ensures var effects := EventSpec(b, friendId, now, fileName, owners).1;
      && (effects[|effects| - 1].event.audioName.Some? <==> b.audioFile)
      && (b.audioFile ==> effects[0] == AudioSaved(fileName) && effects[|effects| - 1].event.audioName == Some(fileName))
  {
  }

  /** The type check ignores case, the per-type requirements do not: "AUDIO" needs no
      file and "TEXT" no text, and both are stored lower-cased. */
  lemma UpperCaseSkipsRequirements(sid: string, friendId: Option<string>, now: nat, fileName: string, owners: SessionOwners)
    requires sid != "" && sid in owners
    ensures var b := EventBody(Some(Field(Some("AUDIO"))), false, Some(Field(Some(sid))), None);
      EventSpec(b, friendId, now, fileName, owners).0 == Received
      && EventSpec(b, friendId, now, fileName, owners).1[0].event == Event("audio", friendId, now, None, None)
    ensures var b := EventBody(Some(Field(Some("TEXT"))), false, Some(Field(Some(sid))), None);
      EventSpec(b, friendId, now, fileName, owners).0 == Received
      && EventSpec(b, friendId, now, fileName, owners).1[0].event == Event("text", friendId, now, None, None)
  {
    assert ToLower("AUDIO") == "audio";
    assert ToLower("TEXT") == "text";
  }

  /** The text requirement is checked after the audio file is saved: a text event with
      a file but no text is refused, yet its file has been stored. */
  lemma TextCheckedAfterAudioSave(b: EventBody, friendId: Option<string>, now: nat, fileName: string, owners: SessionOwners)
    requires SessionIdGiven(b) && b.eventType == Some(Field(Some("text"))) && b.audioFile
    requires b.textContent.None? || !TruthyText(b.textContent.value.value)
    ensures EventSpec(b, friendId, now, fileName, owners) == (Status(400, TextRequired), [AudioSaved(fileName)])
  {
    assert ToLower("text") == "text";
  }

  /** An unknown session is a 404 with nothing stored on a session and nothing published. */
  lemma UnknownSessionNotUpdated(b: EventBody, friendId: Option<string>, now: nat, fileName: string, owners: SessionOwners)
    requires SessionIdGiven(b) && b.sessionId.value.value.value !in owners
    ensures var (reply, effects) := EventSpec(b, friendId, now, fileName, owners);
      reply != Received && forall k :: 0 <= k < |effects| ==> effects[k].AudioSaved?
  {
  }

  /** An event type field without a value makes the handler throw. */
  lemma MissingTypeValueCrashes(b: EventBody, friendId: Option<string>, now: nat, fileName: string, owners: SessionOwners)
    requires SessionIdGiven(b) && b.eventType == Some(Field(None))
    ensures EventSpec(b, friendId, now, fileName, owners) == (Crashed, [])
  {
  }
}
