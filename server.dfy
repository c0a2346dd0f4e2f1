/**
 * The gRPC request boundary of the authentication service: field-presence
 * validation for the Login, Register and IsAdmin requests, forwarding of valid
 * requests to an abstract authentication engine, and the mapping of the
 * engine's answer onto a reply.
 *
 * The engine is an oracle: a record of three total functions. The handlers
 * report, besides their reply, the engine call they made (if any), so that the
 * contracts can say which inputs reach the engine and with what arguments.
 */
module AuthServer {
  import opened Wrappers
  import opened Status
  import opened Requirements

  /** The protobuf scalar widths of the request and response fields. */
  newtype Int32 = x: int | -0x8000_0000 <= x < 0x8000_0000
  newtype Int64 = x: int | -0x8000_0000_0000_0000 <= x < 0x8000_0000_0000_0000

  /** The "absent" value of a numeric field. */
  const EmptyValue: int := 0

  // ---------------------------------------------------------------------------
  // Requests and responses. A request is a pointer to a message and may be nil;
  // the Get* accessors return the zero value of a field of a nil message.

  datatype LoginRequest =
    | NilLoginRequest
    | LoginRequest(email: string, password: string, appId: Int32)
  {
    function GetEmail(): string { if LoginRequest? then email else "" }
    function GetPassword(): string { if LoginRequest? then password else "" }
    function GetAppId(): Int32 { if LoginRequest? then appId else 0 }
  }

  datatype RegisterRequest =
    | NilRegisterRequest
    | RegisterRequest(email: string, password: string)
  {
    function GetEmail(): string { if RegisterRequest? then email else "" }
    function GetPassword(): string { if RegisterRequest? then password else "" }
  }

  datatype IsAdminRequest =
    | NilIsAdminRequest
    | IsAdminRequest(userId: Int64)
  {
    function GetUserId(): Int64 { if IsAdminRequest? then userId else 0 }
  }

  datatype LoginResponse = LoginResponse(token: string)
  datatype RegisterResponse = RegisterResponse(userId: Int64)
  datatype IsAdminResponse = IsAdminResponse(isAdmin: bool)

  // ---------------------------------------------------------------------------
  // The authentication engine, seen only through its interface.

  /** Whatever error value the engine returns; its content never reaches the caller. */
  datatype EngineError = EngineError(description: string)

  datatype EngineResult<+T> = Success(value: T) | Failure(error: EngineError)

  /** The engine interface: login, user registration and the admin lookup. */
  datatype Auth = Auth(
    login: (string, string, int) -> EngineResult<string>,
    registerNewUser: (string, string) -> EngineResult<Int64>,
    isAdmin: Int64 -> EngineResult<bool>)

  /** The server: it only reads its engine. */
  datatype ServerApi = ServerApi(auth: Auth)

  /** A call the handler made into the engine, with its arguments. */
  datatype EngineCall =
    | LoginCall(email: string, password: string, appID: int)
    | RegisterNewUserCall(email: string, password: string)
    | IsAdminCall(userID: Int64)

  /** A handler's answer: a response, or an error status and no response. */
  datatype Reply<+R> = Ok(response: R) | Err(status: Status)

  /** A handler's reply together with the engine call it made, if any. */
  datatype Handled<+R> = Handled(reply: Reply<R>, call: Option<EngineCall>)

  /** The outcome of a validator: the nil error, or a status. */
  datatype Check = Pass | Fail(status: Status)

  // ---------------------------------------------------------------------------
  // Statuses.

  const EmailRequired := Status(InvalidArgument, "email is required")
  const PasswordRequired := Status(InvalidArgument, "password is required")
  const AppIdRequired := Status(InvalidArgument, "app_id is required")
  const UserIdRequired := Status(InvalidArgument, "userID is required")
  /** What Login and Register answer for every engine failure. */
  const InternalError := Status(Internal, "internal error")
  /** What IsAdmin answers for every engine failure. */
  const InternalErr := Status(Internal, "internal err")

  /** The status reporting that field `f` is missing; each field has its own message. */
  function RequiredError(f: Field): (st: Status)
    ensures st.code == InvalidArgument
  {
    match f
    case Email => EmailRequired
    case Password => PasswordRequired
    case AppId => AppIdRequired
    case UserId => UserIdRequired
  }

  /** The message tells which field is missing. */
  lemma RequiredErrorInjective(f: Field, g: Field)
    ensures RequiredError(f) == RequiredError(g) ==> f == g
  {
  }

  /** The validator outcome that reports `missing`, per the reference definition. */
  function Reject(missing: Option<Field>): Check
  {
    match missing
    case None => Pass
    case Some(f) => Fail(RequiredError(f))
  }

  // ---------------------------------------------------------------------------
  // The required fields of each request, in the order they are checked.

  function EmailPasswordChecks(email: string, password: string): seq<Requirement>
  {
    [Requirement(Email, email != ""), Requirement(Password, password != "")]
  }

  function LoginChecks(req: LoginRequest): seq<Requirement>
  {
    EmailPasswordChecks(req.GetEmail(), req.GetPassword())
      + [Requirement(AppId, req.GetAppId() as int != EmptyValue)]
  }

  function RegisterChecks(req: RegisterRequest): seq<Requirement>
  {
    EmailPasswordChecks(req.GetEmail(), req.GetPassword())
  }

  function IsAdminChecks(req: IsAdminRequest): seq<Requirement>
  {
    [Requirement(UserId, req.GetUserId() as int != EmptyValue)]
  }

  // ---------------------------------------------------------------------------
  // Validators.

  /** Email first, then password; the first empty one is reported. */
  function ValidateEmailPassword(email: string, password: string): (c: Check)
    ensures c == Reject(MissingField(EmailPasswordChecks(email, password)))
    ensures c == Fail(EmailRequired) <==> email == ""
    ensures email != "" ==> (c == Fail(PasswordRequired) <==> password == "")
    ensures c == Pass <==> email != "" && password != ""
  {
    var cs := EmailPasswordChecks(email, password);
    assert cs[0].present == (email != "") && cs[1].present == (password != "");
    if email == "" then Fail(EmailRequired)
    else if password == "" then Fail(PasswordRequired)
    else Pass
  }

  /**
   * Email and password as above, then the app id. The app id is read from the
   * message directly rather than through its accessor; that read is reached only
   * with a non-empty email, hence only on a non-nil request.
   */
  function ValidateLogin(req: LoginRequest): (c: Check)
    ensures c == Reject(MissingField(LoginChecks(req)))
    ensures ValidateEmailPassword(req.GetEmail(), req.GetPassword()).Fail? ==>
              c == ValidateEmailPassword(req.GetEmail(), req.GetPassword())
    ensures ValidateEmailPassword(req.GetEmail(), req.GetPassword()).Pass? ==>
              (c == Fail(AppIdRequired) <==> req.GetAppId() == 0) && (c == Pass <==> req.GetAppId() != 0)
  {
    var ep := ValidateEmailPassword(req.GetEmail(), req.GetPassword());
    MissingFieldAppend(EmailPasswordChecks(req.GetEmail(), req.GetPassword()),
                       [Requirement(AppId, req.GetAppId() as int != EmptyValue)]);
    if ep.Fail? then ep
    else if req.appId as int == EmptyValue then Fail(AppIdRequired)
    else Pass
  }

  /** Exactly the email and password checks. */
  function ValidateRegister(req: RegisterRequest): (c: Check)
    ensures c == Reject(MissingField(RegisterChecks(req)))
    ensures c == ValidateEmailPassword(req.GetEmail(), req.GetPassword())
  {
    var ep := ValidateEmailPassword(req.GetEmail(), req.GetPassword());
    if ep.Fail? then ep else Pass
  }

  // ---------------------------------------------------------------------------
  // Handlers: validate, then call the engine, then map its answer.

  function Login(s: ServerApi, req: LoginRequest): (h: Handled<LoginResponse>)
    ensures h.call.None? <==> ValidateLogin(req).Fail?
    ensures h.call.None? ==> h.reply == Err(ValidateLogin(req).status)
    ensures h.call.Some? ==> h.call.value == LoginCall(req.GetEmail(), req.GetPassword(), req.GetAppId() as int)
    ensures h.call.Some? ==>
              (h.reply.Err? <==> s.auth.login(req.GetEmail(), req.GetPassword(), req.GetAppId() as int).Failure?)
    ensures h.call.Some? && h.reply.Err? ==> h.reply.status == InternalError
    ensures h.reply.Ok? ==>
              s.auth.login(req.GetEmail(), req.GetPassword(), req.GetAppId() as int) == Success(h.reply.response.token)
  {
    match ValidateLogin(req)
    case Fail(err) => Handled(Err(err), None)
    case Pass =>
      var token := s.auth.login(req.GetEmail(), req.GetPassword(), req.GetAppId() as int);
      var call := Some(LoginCall(req.GetEmail(), req.GetPassword(), req.GetAppId() as int));
      match token
      case Failure(_) => Handled(Err(InternalError), call)
      case Success(t) => Handled(Ok(LoginResponse(t)), call)
  }

  function Register(s: ServerApi, req: RegisterRequest): (h: Handled<RegisterResponse>)
    ensures h.call.None? <==> ValidateRegister(req).Fail?
    ensures h.call.None? ==> h.reply == Err(ValidateRegister(req).status)
    ensures h.call.Some? ==> h.call.value == RegisterNewUserCall(req.GetEmail(), req.GetPassword())
    ensures h.call.Some? ==>
              (h.reply.Err? <==> s.auth.registerNewUser(req.GetEmail(), req.GetPassword()).Failure?)
    ensures h.call.Some? && h.reply.Err? ==> h.reply.status == InternalError
    ensures h.reply.Ok? ==>
              s.auth.registerNewUser(req.GetEmail(), req.GetPassword()) == Success(h.reply.response.userId)
  {
    match ValidateRegister(req)
    case Fail(err) => Handled(Err(err), None)
    case Pass =>
      var userID := s.auth.registerNewUser(req.GetEmail(), req.GetPassword());
      var call := Some(RegisterNewUserCall(req.GetEmail(), req.GetPassword()));
      match userID
      case Failure(_) => Handled(Err(InternalError), call)
      case Success(id) => Handled(Ok(RegisterResponse(id)), call)
  }

  function IsAdmin(s: ServerApi, req: IsAdminRequest): (h: Handled<IsAdminResponse>)
    ensures h.call.None? <==> req.GetUserId() == 0
    ensures h.call.None? ==> h.reply == Err(UserIdRequired)
    ensures h.reply == Err(UserIdRequired) ==> h.call.None?
    ensures h.call.Some? ==> h.call.value == IsAdminCall(req.GetUserId())
    ensures h.call.Some? ==> (h.reply.Err? <==> s.auth.isAdmin(req.GetUserId()).Failure?)
    ensures h.call.Some? && h.reply.Err? ==> h.reply.status == InternalErr
    ensures h.reply.Ok? ==> s.auth.isAdmin(req.GetUserId()) == Success(h.reply.response.isAdmin)
  {
    if req.GetUserId() as int == EmptyValue then Handled(Err(UserIdRequired), None)
    else
      var isAdmin := s.auth.isAdmin(req.GetUserId());
      var call := Some(IsAdminCall(req.GetUserId()));
      match isAdmin
      case Failure(_) => Handled(Err(InternalErr), call)
      case Success(b) => Handled(Ok(IsAdminResponse(b)), call)
  }
}
