/**
 * AuthController: the guard clauses of register, login and "me", split like
 * the session endpoints into a guard (answer now, or call the service with
 * these arguments) and a completion given the service's result.
 */
module AuthController {
  import opened Wrappers
  import opened Models
  import opened Claims
  import opened ActionResults
  import opened AuthService

  /** The request bodies; a field missing from the JSON body is null. */
  datatype RegisterRequest = RegisterRequest(username: Option<string>, email: Option<string>, password: Option<string>)
  datatype LoginRequest = LoginRequest(email: Option<string>, password: Option<string>)

  datatype RegisterArgs = RegisterArgs(username: string, email: string, password: string)
  datatype LoginArgs = LoginArgs(email: string, password: string)

  /** The body of a successful "me": the account without its password hash or active flag. */
  datatype CurrentUser = CurrentUser(id: int, username: string, email: string, createdAt: int, lastLoginAt: Option<int>)

  /** Register's guard: BadRequest unless all three fields are non-blank; the service sees only non-blank fields. */
  function RegisterGuard(request: RegisterRequest): (d: Decision<RegisterArgs, AuthResponse>)
    ensures d.Respond? <==> IsNullOrWhiteSpace(request.username) || IsNullOrWhiteSpace(request.email) || IsNullOrWhiteSpace(request.password)
    ensures d.Respond? ==> d.result == BadRequest("All fields are required")
    ensures d.Call? ==> Some(d.args.username) == request.username && Some(d.args.email) == request.email
                        && Some(d.args.password) == request.password
  {
    if IsNullOrWhiteSpace(request.username) || IsNullOrWhiteSpace(request.email) || IsNullOrWhiteSpace(request.password) then
      Respond(BadRequest("All fields are required"))
    else
      Call(RegisterArgs(request.username.value, request.email.value, request.password.value))
  }

  /** Register: a null service result (email or username taken) is a BadRequest. */
  function Register(request: RegisterRequest, registered: Option<AuthResponse>): (r: ActionResult<AuthResponse>)
    ensures RegisterGuard(request).Respond? ==> r == BadRequest("All fields are required")
    ensures RegisterGuard(request).Call? && registered.None? ==> r == BadRequest("User already exists")
    ensures r.Ok? <==> RegisterGuard(request).Call? && registered.Some?
    ensures r.Ok? ==> r.value == registered.value
  {
    match RegisterGuard(request)
    case Respond(result) => result
    case Call(_) => if registered.None? then BadRequest("User already exists") else Ok(registered.value)
  }

  /** Login's guard: BadRequest unless email and password are both non-blank. */
  function LoginGuard(request: LoginRequest): (d: Decision<LoginArgs, AuthResponse>)
    ensures d.Respond? <==> IsNullOrWhiteSpace(request.email) || IsNullOrWhiteSpace(request.password)
    ensures d.Respond? ==> d.result == BadRequest("Email and password are required")
    ensures d.Call? ==> Some(d.args.email) == request.email && Some(d.args.password) == request.password
  {
    if IsNullOrWhiteSpace(request.email) || IsNullOrWhiteSpace(request.password) then
      Respond(BadRequest("Email and password are required"))
    else
      Call(LoginArgs(request.email.value, request.password.value))
  }

  /** Login: a null service result (unknown email, wrong password or inactive user) is Unauthorized. */
  function Login(request: LoginRequest, loggedIn: Option<AuthResponse>): (r: ActionResult<AuthResponse>)
    ensures LoginGuard(request).Respond? ==> r == BadRequest("Email and password are required")
    ensures LoginGuard(request).Call? && loggedIn.None? ==> r == Unauthorized(Some("Invalid credentials"))
    ensures r.Ok? <==> LoginGuard(request).Call? && loggedIn.Some?
    ensures r.Ok? ==> r.value == loggedIn.value
  {
    match LoginGuard(request)
    case Respond(result) => result
    case Call(_) => if loggedIn.None? then Unauthorized(Some("Invalid credentials")) else Ok(loggedIn.value)
  }

  /**
   * GetCurrentUser's guard: Unauthorized when the id claim is missing or is
   * not an Int32. Unlike the session endpoints there is no test for 0: a
   * claim "0" goes on to the lookup.
   */
  function CurrentUserGuard(claim: Option<string>): (d: Decision<int, CurrentUser>)
    ensures d.Respond? <==> claim.None? || TryParseInt32(claim.value).None?
    ensures d.Respond? ==> d.result == Unauthorized(None)
    ensures d.Call? ==> Some(d.args) == TryParseInt32(claim.value)
  {
    if claim.None? then Respond(Unauthorized(None))
    else match TryParseInt32(claim.value)
      case None => Respond(Unauthorized(None))
      case Some(userId) => Call(userId)
  }

  /** GetCurrentUser: NotFound for an unknown user; otherwise the account's public fields. */
  function GetCurrentUser(claim: Option<string>, user: Option<User>): (r: ActionResult<CurrentUser>)
    ensures CurrentUserGuard(claim).Respond? ==> r == Unauthorized(None)
    ensures CurrentUserGuard(claim).Call? && user.None? ==> r == NotFound("User not found")
    ensures r.Ok? <==> CurrentUserGuard(claim).Call? && user.Some?
    ensures r.Ok? ==> && r.value.id == user.value.id && r.value.username == user.value.username
                      && r.value.email == user.value.email && r.value.createdAt == user.value.createdAt
                      && r.value.lastLoginAt == user.value.lastLoginAt
  {
    match CurrentUserGuard(claim)
    case Respond(result) => result
    case Call(_) =>
      match user
      case None => NotFound("User not found")
      case Some(u) => Ok(CurrentUser(u.id, u.username, u.email, u.createdAt, u.lastLoginAt))
  }

  /** The id claim of a token issued for user `id` passes the guard with that very id. */
  lemma IssuedClaimPassesGuard(id: int)
    requires Int32Min <= id <= Int32Max
    ensures CurrentUserGuard(Some(IntToString(id))) == Call(id)
  {
    UserIdClaimRoundTrip(id);
  }
}
