/**
 * SessionController: the guard clauses of the session endpoints. Each action
 * that can refuse before reaching the service is split into its guard
 * (`...Guard`: answer now, or call the service with these arguments) and
 * its completion (`...`: the answer, given what the service returned). The
 * caller's user id comes from the NameIdentifier claim (0 when absent or
 * unparsable), as in the hub.
 */
module SessionController {
  import opened Wrappers
  import opened Models
  import opened Claims
  import opened SessionService
  import opened ActionResults

  /** The request bodies; a string field missing from the JSON body is null. */
  datatype CreateSessionRequest = CreateSessionRequest(name: Option<string>, maxParticipants: int, sessionType: SessionType)
  datatype JoinSessionRequest = JoinSessionRequest(sessionId: Option<string>)

  /** The defaults of a CreateSessionRequest whose body leaves a field out. */
  function DefaultCreateSessionRequest(): (r: CreateSessionRequest)
    ensures r.maxParticipants == DefaultMaxParticipants && r.sessionType == VideoCall && r.name == Some("")
  {
    CreateSessionRequest(Some(""), DefaultMaxParticipants, VideoCall)
  }

  /** The arguments of CreateSessionAsync: creator, name, capacity, type. */
  datatype CreateArgs = CreateArgs(userId: int, name: string, maxParticipants: int, sessionType: SessionType)

  /** The arguments of JoinSessionAsync: user, session id and the generated connection id. */
  datatype JoinArgs = JoinArgs(userId: int, sessionId: string, connectionId: string)

  /** The arguments of LeaveSessionAsync and EndSessionAsync: user and the (possibly null) session id. */
  datatype MemberArgs = MemberArgs(userId: int, sessionId: Option<string>)

  /**
   * CreateSession's guards: Unauthorized for user 0, then BadRequest for a
   * blank name, then BadRequest for a capacity outside 2..100. The service is
   * called exactly when all three pass, so no session it creates has a
   * capacity outside 2..100.
   */
  function CreateSessionGuard(claim: Option<string>, request: CreateSessionRequest): (d: Decision<CreateArgs, SessionResponse>)
    ensures GetUserId(claim) == 0 ==> d == Respond(Unauthorized(None))
    ensures GetUserId(claim) != 0 && IsNullOrWhiteSpace(request.name) ==>
              d == Respond(BadRequest("Session name is required"))
    ensures GetUserId(claim) != 0 && !IsNullOrWhiteSpace(request.name) && !(2 <= request.maxParticipants <= 100) ==>
              d == Respond(BadRequest("MaxParticipants must be between 2 and 100"))
    ensures d.Call? <==> GetUserId(claim) != 0 && !IsNullOrWhiteSpace(request.name) && 2 <= request.maxParticipants <= 100
    ensures d.Call? ==> && d.args.userId == GetUserId(claim) != 0
                        && Some(d.args.name) == request.name
                        && 2 <= d.args.maxParticipants <= 100
                        && d.args.sessionType == request.sessionType
  {
    var userId := GetUserId(claim);
    if userId == 0 then Respond(Unauthorized(None))
    else if IsNullOrWhiteSpace(request.name) then Respond(BadRequest("Session name is required"))
    else if request.maxParticipants < 2 || request.maxParticipants > 100 then
      Respond(BadRequest("MaxParticipants must be between 2 and 100"))
    else Call(CreateArgs(userId, request.name.value, request.maxParticipants, request.sessionType))
  }

  /** CreateSession: Ok with the created session; a null result from the service is a BadRequest. */
  function CreateSession(claim: Option<string>, request: CreateSessionRequest, created: Option<SessionResponse>): (r: ActionResult<SessionResponse>)
    ensures CreateSessionGuard(claim, request).Respond? ==> r == CreateSessionGuard(claim, request).result
    ensures r.Ok? <==> CreateSessionGuard(claim, request).Call? && created.Some?
    ensures r.Ok? ==> r.value == created.value
    ensures CreateSessionGuard(claim, request).Call? && created.None? ==> r == BadRequest("Failed to create session")
  {
    match CreateSessionGuard(claim, request)
    case Respond(result) => result
    case Call(_) =>
      if created.None? then BadRequest("Failed to create session") else Ok(created.value)
  }

  /**
   * JoinSession's guards: Unauthorized for user 0, BadRequest for a blank
   * session id; otherwise the service is called with a freshly generated
   * connection id (the real one is bound later, over the hub).
   */
  function JoinSessionGuard(claim: Option<string>, request: JoinSessionRequest, freshConnectionId: string): (d: Decision<JoinArgs, SessionDetail>)
    ensures GetUserId(claim) == 0 ==> d == Respond(Unauthorized(None))
    ensures GetUserId(claim) != 0 && IsNullOrWhiteSpace(request.sessionId) ==> d == Respond(BadRequest("SessionId is required"))
    ensures d.Call? <==> GetUserId(claim) != 0 && !IsNullOrWhiteSpace(request.sessionId)
    ensures d.Call? ==> d.args == JoinArgs(GetUserId(claim), request.sessionId.value, freshConnectionId)
  {
    var userId := GetUserId(claim);
    if userId == 0 then Respond(Unauthorized(None))
    else if IsNullOrWhiteSpace(request.sessionId) then Respond(BadRequest("SessionId is required"))
    else Call(JoinArgs(userId, request.sessionId.value, freshConnectionId))
  }

  /** JoinSession: a null service result (missing or full, indistinguishably) is one NotFound. */
  function JoinSession(claim: Option<string>, request: JoinSessionRequest, freshConnectionId: string, joined: Option<SessionDetail>): (r: ActionResult<SessionDetail>)
    ensures JoinSessionGuard(claim, request, freshConnectionId).Respond? ==> r == JoinSessionGuard(claim, request, freshConnectionId).result
    ensures r.Ok? <==> JoinSessionGuard(claim, request, freshConnectionId).Call? && joined.Some?
    ensures r.Ok? ==> r.value == joined.value
    ensures JoinSessionGuard(claim, request, freshConnectionId).Call? && joined.None? ==>
              r == NotFound("Session not found or is full")
  {
    match JoinSessionGuard(claim, request, freshConnectionId)
    case Respond(result) => result
    case Call(_) =>
      if joined.None? then NotFound("Session not found or is full") else Ok(joined.value)
  }

  /** GetSession: no guard; NotFound exactly when no session, whatever its status, has that id. */
  function GetSession(store: SessionStore, sessionId: string, username: int -> string): (r: ActionResult<SessionDetail>)
    reads store
    ensures r.NotFound? <==> forall i | 0 <= i < |store.sessions| :: store.sessions[i].sessionId != sessionId
    ensures r.Ok? ==> r.value.summary.sessionId == sessionId
    ensures r.NotFound? ==> r.message == "Session not found"
    ensures r.Ok? || r.NotFound?
    ensures r.Ok? <==> store.GetSession(sessionId, username).Some?
    ensures r.Ok? ==> Some(r.value) == store.GetSession(sessionId, username)
  {
    match store.GetSession(sessionId, username)
    case None => NotFound("Session not found")
    case Some(detail) => Ok(detail)
  }

  /** GetActiveSessions: always Ok, with only Active sessions, newest first. */
  function GetActiveSessions(store: SessionStore, username: int -> string): (r: ActionResult<seq<SessionResponse>>)
    reads store
    ensures r.Ok?
    ensures forall i | 0 <= i < |r.value| :: r.value[i].status == Active
    ensures NewestFirst(r.value)
    ensures multiset(r.value) == multiset(Summaries(ActiveOnly(store.sessions), store.participants, username))
  {
    Ok(store.ListActiveSessions(username))
  }

  /** LeaveSession and EndSession share one guard: Unauthorized for user 0, and no check of the session id. */
  function MemberGuard(claim: Option<string>, request: JoinSessionRequest): (d: Decision<MemberArgs, string>)
    ensures d.Respond? <==> GetUserId(claim) == 0
    ensures d.Respond? ==> d == Respond(Unauthorized(None))
    ensures d.Call? ==> d.args == MemberArgs(GetUserId(claim), request.sessionId)
  {
    var userId := GetUserId(claim);
    if userId == 0 then Respond(Unauthorized(None)) else Call(MemberArgs(userId, request.sessionId))
  }

  /** LeaveSession: a false service result is a NotFound. */
  function LeaveSession(claim: Option<string>, request: JoinSessionRequest, success: bool): (r: ActionResult<string>)
    ensures GetUserId(claim) == 0 ==> r == Unauthorized(None)
    ensures GetUserId(claim) != 0 && !success ==> r == NotFound("Session not found or user not in session")
    ensures r.Ok? <==> GetUserId(claim) != 0 && success
  {
    match MemberGuard(claim, request)
    case Respond(result) => result
    case Call(_) =>
      if !success then NotFound("Session not found or user not in session") else Ok("Left session successfully")
  }

  /** EndSession: a false service result (missing session or not the creator) is a Forbid. */
  function EndSession(claim: Option<string>, request: JoinSessionRequest, success: bool): (r: ActionResult<string>)
    ensures GetUserId(claim) == 0 ==> r == Unauthorized(None)
    ensures GetUserId(claim) != 0 && !success ==> r == Forbid
    ensures r.Ok? <==> GetUserId(claim) != 0 && success
  {
    match MemberGuard(claim, request)
    case Respond(result) => result
    case Call(_) => if !success then Forbid else Ok("Session ended successfully")
  }
}
