/** Session routes of the web server (src/webServer/controllers/SessionController.ts):
    validation of a posted session and the record stored for it, the optional
    day range of the per-user listing, and the title update.

    MongoDB is not modelled beyond what the routes ask of it: the clock reading and
    whether the store call succeeds are inputs, and the session collection is a
    sequence of records. */
module SessionController {
  import opened Wrappers
  import opened JsValues

  /** A JSON body field as the route sees it. Numbers are split into integers and
      other numbers; a non-integer number and an array or object are carried with
      the text a template literal would print for them. */
  datatype JsonValue =
    | Undefined
    | Null
    | Bool(b: bool)
    | Int(i: int)
    | Fraction(text: string)
    | Text(s: string)
    | Composite(text: string)

  /** JavaScript truthiness: `undefined`, `null`, `false`, `0` and `""` are falsy; a
      non-integer number, an array and an object are truthy. */
  predicate Truthy(v: JsonValue)
  {
    match v
    case Undefined => false
    case Null => false
    case Bool(b) => b
    case Int(i) => i != 0
    case Fraction(_) => true
    case Text(s) => s != ""
    case Composite(_) => true
  }

  /** `` `${v}` ``. */
  function TemplateText(v: JsonValue): string
  {
    match v
    case Undefined => "undefined"
    case Null => "null"
    case Bool(b) => if b then "true" else "false"
    case Int(i) => IntToString(i)
    case Fraction(t) => t
    case Text(s) => s
    case Composite(t) => t
  }

  /** `v || null`. */
  function OrNull(v: JsonValue): (r: JsonValue)
    ensures Truthy(v) ==> r == v
    ensures !Truthy(v) ==> r == Null
  {
    if Truthy(v) then v else Null
  }

  datatype SessionPayload = SessionPayload(
    sessionType: JsonValue,
    userId: JsonValue,
    title: JsonValue,
    distance: JsonValue,
    calories: JsonValue,
    allure: JsonValue,
    time: JsonValue,
    tps: JsonValue,
    timeObjective: JsonValue,
    distanceObjective: JsonValue,
    runId: JsonValue)

  datatype SessionRecord = SessionRecord(
    id: string,
    referenceDay: string,
    sessionType: JsonValue,
    userId: JsonValue,
    title: JsonValue,
    distance: JsonValue,
    calories: JsonValue,
    allure: JsonValue,
    time: JsonValue,
    tps: JsonValue,
    timeObjective: JsonValue,
    distanceObjective: JsonValue,
    runId: JsonValue)

  /** An error reply: status code and `message`. */
  datatype HttpError = HttpError(status: nat, message: string)

  const InvalidData := "Invalid data"
  const InvalidType := "Invalid data, session type must be 'run', 'distance' or 'time'"
  const MissingDistanceObjective := "Invalid data, distance objective is required"
  const MissingTimeObjective := "Invalid data, time objective is required"
  const MissingRunId := "Invalid data, run id is required"
  const InternalError := "Internal Server Error"

  // ---------------------------------------------------------------------------
  // The rules, one by one

  predicate RequiredPresent(p: SessionPayload)
  {
    Truthy(p.sessionType) && Truthy(p.userId) && Truthy(p.title) && Truthy(p.distance)
    && Truthy(p.calories) && Truthy(p.allure) && Truthy(p.time) && Truthy(p.tps)
  }

  predicate KnownType(p: SessionPayload)
  {
    p.sessionType in {Text("run"), Text("distance"), Text("time"), Text("free")}
  }

  /** The objective each session type needs is set; `free` needs none. */
  predicate ObjectiveSet(p: SessionPayload)
  {
    && (p.sessionType == Text("distance") ==> Truthy(p.distanceObjective))
    && (p.sessionType == Text("time") ==> Truthy(p.timeObjective))
    && (p.sessionType == Text("run") ==> Truthy(p.runId))
  }

  /** The guard chain of POST `/session`: the first failing check decides the message. */
  function ValidateSession(p: SessionPayload): Option<HttpError>
  {
    if !RequiredPresent(p) then Some(HttpError(400, InvalidData))
    else if !KnownType(p) then Some(HttpError(400, InvalidType))
    else if p.sessionType == Text("distance") && !Truthy(p.distanceObjective) then Some(HttpError(400, MissingDistanceObjective))
    else if p.sessionType == Text("time") && !Truthy(p.timeObjective) then Some(HttpError(400, MissingTimeObjective))
    else if p.sessionType == Text("run") && !Truthy(p.runId) then Some(HttpError(400, MissingRunId))
    else None
  }

  /** A payload passes exactly when every rule holds, and a rejection is always a 400. */
  lemma ValidateSessionAccepts(p: SessionPayload)
    ensures ValidateSession(p).None? <==> RequiredPresent(p) && KnownType(p) && ObjectiveSet(p)
    ensures ValidateSession(p).Some? ==> ValidateSession(p).value.status == 400
  {
  }

  /** The checks run in order: required fields, then the type, then the objective. */
  lemma ValidateSessionOrder(p: SessionPayload)
    ensures !RequiredPresent(p) ==> ValidateSession(p) == Some(HttpError(400, InvalidData))
    ensures RequiredPresent(p) && !KnownType(p) ==> ValidateSession(p) == Some(HttpError(400, InvalidType))
    ensures RequiredPresent(p) && KnownType(p) && !ObjectiveSet(p) ==>
      ValidateSession(p).Some? && ValidateSession(p).value.message in {MissingDistanceObjective, MissingTimeObjective, MissingRunId}
  {
  }

  /** A zero distance, calorie count, pace or time counts as missing. */
  lemma ZeroIsMissing(p: SessionPayload)
    requires p.distance == Int(0) || p.calories == Int(0) || p.allure == Int(0) || p.time == Int(0)
    ensures ValidateSession(p) == Some(HttpError(400, InvalidData))
  {
  }

  /** A `free` session needs no objective at all. */
  lemma FreeNeedsNoObjective(p: SessionPayload)
    requires RequiredPresent(p) && p.sessionType == Text("free")
    ensures ValidateSession(p) == None
  {
  }

  // ---------------------------------------------------------------------------
  // The stored record

  /** `` `${user_id}-${unixSeconds}` ``. */
  function SessionId(userId: JsonValue, unixSeconds: nat): string
  {
    TemplateText(userId) + "-" + NatToString(unixSeconds)
  }

  /** The id determines the second and the printed user id. */
  lemma SessionIdInjective(u1: JsonValue, t1: nat, u2: JsonValue, t2: nat)
    requires SessionId(u1, t1) == SessionId(u2, t2)
    ensures t1 == t2 && TemplateText(u1) == TemplateText(u2)
  {
    var a, b := NatToString(t1), NatToString(t2);
    assert '-' !in a by {
      forall i | 0 <= i < |a| ensures a[i] != '-' { assert IsDigit(a[i]); }
    }
    assert '-' !in b by {
      forall i | 0 <= i < |b| ensures b[i] != '-' { assert IsDigit(b[i]); }
    }
    assert TemplateText(u1) + ['-'] + a == TemplateText(u2) + ['-'] + b;
    LastSeparatorSplit(TemplateText(u1), a, TemplateText(u2), b, '-');
    NatToStringInjective(t1, t2);
  }

  /** Two integer user ids posting in the same second get different ids. */
  lemma DistinctUsersDistinctIds(u1: int, u2: int, t: nat)
    requires u1 != u2
    ensures SessionId(Int(u1), t) != SessionId(Int(u2), t)
  {
    if SessionId(Int(u1), t) == SessionId(Int(u2), t) {
      SessionIdInjective(Int(u1), t, Int(u2), t);
      IntToStringParses(u1);
      IntToStringParses(u2);
    }
  }

  /** The document POST `/session` inserts; `day` is the "yyyy-LL-dd" text of the clock reading. */
  function BuildSession(p: SessionPayload, unixSeconds: nat, day: string): SessionRecord
  {
    SessionRecord(
      SessionId(p.userId, unixSeconds), day, p.sessionType, p.userId, p.title,
      p.distance, p.calories, p.allure, p.time, p.tps,
      OrNull(p.timeObjective), OrNull(p.distanceObjective), OrNull(p.runId))
  }

  /** The outcome of a route that writes: done, refused with an error reply, or a
      TypeError thrown by the handler itself, which the framework answers with a 500. */
  datatype RouteOutcome<T> = Done(value: T) | Rejected(error: HttpError) | Threw

  /** POST `/session`. `body` is `None` when the request has no body or the JSON
      `null`; `storeOk` says whether connecting and `insertOne` succeed. */
  function PostSession(body: Option<SessionPayload>, unixSeconds: nat, day: string, storeOk: bool): (r: RouteOutcome<SessionRecord>)
    ensures r.Threw? <==> body.None?
    ensures body.Some? ==> (r.Done? <==> ValidateSession(body.value).None? && storeOk)
    ensures body.Some? && ValidateSession(body.value).Some? ==> r == Rejected(ValidateSession(body.value).value)
    ensures body.Some? && ValidateSession(body.value).None? && !storeOk ==> r == Rejected(HttpError(500, InternalError))
  {
    match body
    case None => Threw
    case Some(p) =>
      match ValidateSession(p)
      case Some(e) => Rejected(e)
      case None => if storeOk then Done(BuildSession(p, unixSeconds, day)) else Rejected(HttpError(500, InternalError))
  }

  /** A saved record copies the payload, stores falsy objectives as `null`, and carries
      a known type with the objective that type needs. */
  lemma SavedRecordShape(p: SessionPayload, unixSeconds: nat, day: string)
    requires PostSession(Some(p), unixSeconds, day, true).Done?
    ensures var s := PostSession(Some(p), unixSeconds, day, true).value;
      && s.id == SessionId(p.userId, unixSeconds) && s.referenceDay == day
      && s.sessionType == p.sessionType && s.userId == p.userId && s.title == p.title
      && s.distance == p.distance && s.calories == p.calories && s.allure == p.allure
      && s.time == p.time && s.tps == p.tps
      && (s.timeObjective == Null || s.timeObjective == p.timeObjective)
      && (s.distanceObjective == Null || s.distanceObjective == p.distanceObjective)
      && (s.runId == Null || s.runId == p.runId)
      && s.sessionType in {Text("run"), Text("distance"), Text("time"), Text("free")}
      && (s.sessionType == Text("distance") ==> Truthy(s.distanceObjective))
      && (s.sessionType == Text("time") ==> Truthy(s.timeObjective))
      && (s.sessionType == Text("run") ==> Truthy(s.runId))
  {
  }

  // ---------------------------------------------------------------------------
  // Listing by user

  /** The `$match` stage of GET `/session/user/:user_id`; `userId` is `None` for NaN. */
  datatype SessionMatch = SessionMatch(userId: Option<int>, dayRange: Option<(string, string)>)

  /** The route's parameters turned into the aggregation's `$match`. */
  function ListQuery(userIdParam: string, from: Option<string>, to: Option<string>): (r: Result<SessionMatch, HttpError>)
    ensures r.Err? <==> userIdParam == ""
    ensures r.Ok? ==> r.value.userId == ParseInt(userIdParam)
    ensures r.Ok? ==> (r.value.dayRange.Some? <==> TruthyText(from) && TruthyText(to))
    ensures r.Ok? && r.value.dayRange.Some? ==> r.value.dayRange.value == (from.value, to.value)
  {
    if userIdParam == "" then Err(HttpError(400, InvalidData))
    else
      var m := SessionMatch(ParseInt(userIdParam), None);
      if TruthyText(from) && TruthyText(to) then Ok(m.(dayRange := Some((from.value, to.value)))) else Ok(m)
  }

  /** String order as MongoDB compares strings: byte by byte in UTF-8, which is the
      order of Unicode code points. */
  predicate TextLe(a: string, b: string)
  {
    if a == [] then true
    else if b == [] then false
    else if a[0] != b[0] then a[0] < b[0]
    else TextLe(a[1..], b[1..])
  }

  /** Whether a stored session is selected by the `$match` stage. */
  predicate Selected(m: SessionMatch, s: SessionRecord)
  {
    && m.userId.Some? && s.userId == Int(m.userId.value)
    && (m.dayRange.Some? ==> TextLe(m.dayRange.value.0, s.referenceDay) && TextLe(s.referenceDay, m.dayRange.value.1))
  }

  /** With only one bound given, no day filtering happens at all. */
  lemma OneBoundIgnored(userIdParam: string, from: Option<string>, to: Option<string>, s: SessionRecord)
    requires userIdParam != "" && !(TruthyText(from) && TruthyText(to))
    ensures Selected(ListQuery(userIdParam, from, to).value, s) <==>
      ParseInt(userIdParam).Some? && s.userId == Int(ParseInt(userIdParam).value)
  {
  }

  // ---------------------------------------------------------------------------
  // Title update

  /** The filter and the `$set` of PUT `/session/:id`. */
  datatype TitleUpdate = TitleUpdate(id: string, title: JsonValue)

  /** The body of PUT `/session/:id`. */
  datatype TitleBody = TitleBody(title: JsonValue)

  /** PUT `/session/:id` up to the store call. `body` is `None` when the request has no
      body or the JSON `null`: the destructuring throws before the id is looked at. */
  function PutSession(id: string, body: Option<TitleBody>): (r: RouteOutcome<TitleUpdate>)
    ensures r.Threw? <==> body.None?
    ensures body.Some? ==> (r.Done? <==> id != "" && Truthy(body.value.title))
    ensures r.Done? ==> r.value == TitleUpdate(id, body.value.title)
    ensures r.Rejected? ==> r.error == HttpError(400, InvalidData)
  {
    match body
    case None => Threw
    case Some(b) =>
      if id == "" || !Truthy(b.title) then Rejected(HttpError(400, InvalidData)) else Done(TitleUpdate(id, b.title))
  }

  /** `updateOne`: the first session with the id gets the new title. */
  function ApplyTitle(sessions: seq<SessionRecord>, u: TitleUpdate): seq<SessionRecord>
  {
    if sessions == [] then []
    else if sessions[0].id == u.id then [sessions[0].(title := u.title)] + sessions[1..]
    else [sessions[0]] + ApplyTitle(sessions[1..], u)
  }

  /** The update changes the title of the sessions and nothing else; a session with
      another id is left as it is. */
  lemma {:induction false} ApplyTitleOnlyTitle(sessions: seq<SessionRecord>, u: TitleUpdate)
    ensures |ApplyTitle(sessions, u)| == |sessions|
    ensures forall i :: 0 <= i < |sessions| ==> ApplyTitle(sessions, u)[i] == sessions[i].(title := ApplyTitle(sessions, u)[i].title)
    ensures forall i :: 0 <= i < |sessions| && sessions[i].id != u.id ==> ApplyTitle(sessions, u)[i] == sessions[i]
  {
    if sessions != [] && sessions[0].id != u.id {
      ApplyTitleOnlyTitle(sessions[1..], u);
      var r := ApplyTitle(sessions, u);
      forall i | 1 <= i < |sessions| ensures r[i] == ApplyTitle(sessions[1..], u)[i - 1] && sessions[i] == sessions[1..][i - 1] { }
    }
  }

  /** The first session with the id gets the new title, and every session after it is
      left as it is. */
  lemma {:induction false} ApplyTitleFirstMatch(sessions: seq<SessionRecord>, u: TitleUpdate, i: nat)
    requires i < |sessions| && sessions[i].id == u.id
    requires forall k :: 0 <= k < i ==> sessions[k].id != u.id
    ensures |ApplyTitle(sessions, u)| == |sessions|
    ensures ApplyTitle(sessions, u)[i] == sessions[i].(title := u.title)
    ensures forall j :: i < j < |sessions| ==> ApplyTitle(sessions, u)[j] == sessions[j]
  {
    ApplyTitleOnlyTitle(sessions, u);
    if i > 0 {
      ApplyTitleFirstMatch(sessions[1..], u, i - 1);
      var r := ApplyTitle(sessions, u);
      assert r == [sessions[0]] + ApplyTitle(sessions[1..], u);
      forall j | i <= j < |sessions| ensures r[j] == ApplyTitle(sessions[1..], u)[j - 1] && sessions[j] == sessions[1..][j - 1] { }
    }
  }
}
