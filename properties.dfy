/**
 * Properties of the request boundary that relate several calls or several
 * engines: rejection is decided by the first missing field alone, invalid
 * requests never depend on the engine, the engine's error is never exposed,
 * and a nil request behaves as a request with every field at its zero value.
 */
module AuthServerProperties {
  import opened Wrappers
  import opened Status
  import opened Requirements
  import opened AuthServer

  // ---------------------------------------------------------------------------
  // Rejection reports exactly the first missing field.

  lemma LoginRejectsFirstMissing(s: ServerApi, req: LoginRequest, f: Field)
    ensures Login(s, req).reply == Err(RequiredError(f)) <==> MissingField(LoginChecks(req)) == Some(f)
  {
  }

  lemma RegisterRejectsFirstMissing(s: ServerApi, req: RegisterRequest, f: Field)
    ensures Register(s, req).reply == Err(RequiredError(f)) <==> MissingField(RegisterChecks(req)) == Some(f)
  {
  }

  lemma IsAdminRejectsFirstMissing(s: ServerApi, req: IsAdminRequest, f: Field)
    ensures IsAdmin(s, req).reply == Err(RequiredError(f)) <==> MissingField(IsAdminChecks(req)) == Some(f)
  {
  }

  /** With both email and password empty, the email is the one reported, for either request. */
  lemma EmptyCredentialsReportEmail(s: ServerApi, appId: Int32)
    ensures Login(s, LoginRequest("", "", appId)).reply == Err(EmailRequired)
    ensures Register(s, RegisterRequest("", "")).reply == Err(EmailRequired)
  {
  }

  // ---------------------------------------------------------------------------
  // Status codes: InvalidArgument means "never reached the engine", every other
  // error is Internal, and no error carries the code OK.

  lemma LoginErrorCodes(s: ServerApi, req: LoginRequest)
    ensures Login(s, req).reply.Err? ==> Login(s, req).reply.status.code in {InvalidArgument, Internal}
    ensures Login(s, req).reply.Err? ==>
              (Login(s, req).reply.status.code == InvalidArgument <==> Login(s, req).call.None?)
  {
  }

  lemma RegisterErrorCodes(s: ServerApi, req: RegisterRequest)
    ensures Register(s, req).reply.Err? ==> Register(s, req).reply.status.code in {InvalidArgument, Internal}
    ensures Register(s, req).reply.Err? ==>
              (Register(s, req).reply.status.code == InvalidArgument <==> Register(s, req).call.None?)
  {
  }

  lemma IsAdminErrorCodes(s: ServerApi, req: IsAdminRequest)
    ensures IsAdmin(s, req).reply.Err? ==> IsAdmin(s, req).reply.status.code in {InvalidArgument, Internal}
    ensures IsAdmin(s, req).reply.Err? ==>
              (IsAdmin(s, req).reply.status.code == InvalidArgument <==> IsAdmin(s, req).call.None?)
  {
  }

  // ---------------------------------------------------------------------------
  // The reply depends on the engine only through the one call the handler makes,
  // and on an engine failure not even through the error value.

  lemma LoginDependsOnlyOnCall(s1: ServerApi, s2: ServerApi, req: LoginRequest)
    ensures Login(s1, req).call == Login(s2, req).call
    ensures Login(s1, req).call.None? ==> Login(s1, req) == Login(s2, req)
    ensures Login(s1, req).call.Some? ==>
              var c := Login(s1, req).call.value;
              var r1 := s1.auth.login(c.email, c.password, c.appID);
              var r2 := s2.auth.login(c.email, c.password, c.appID);
              (r1 == r2 || (r1.Failure? && r2.Failure?)) ==> Login(s1, req) == Login(s2, req)
  {
  }

  lemma RegisterDependsOnlyOnCall(s1: ServerApi, s2: ServerApi, req: RegisterRequest)
    ensures Register(s1, req).call == Register(s2, req).call
    ensures Register(s1, req).call.None? ==> Register(s1, req) == Register(s2, req)
    ensures Register(s1, req).call.Some? ==>
              var c := Register(s1, req).call.value;
              var r1 := s1.auth.registerNewUser(c.email, c.password);
              var r2 := s2.auth.registerNewUser(c.email, c.password);
              (r1 == r2 || (r1.Failure? && r2.Failure?)) ==> Register(s1, req) == Register(s2, req)
  {
  }

  lemma IsAdminDependsOnlyOnCall(s1: ServerApi, s2: ServerApi, req: IsAdminRequest)
    ensures IsAdmin(s1, req).call == IsAdmin(s2, req).call
    ensures IsAdmin(s1, req).call.None? ==> IsAdmin(s1, req) == IsAdmin(s2, req)
    ensures IsAdmin(s1, req).call.Some? ==>
              var c := IsAdmin(s1, req).call.value;
              var r1 := s1.auth.isAdmin(c.userID);
              var r2 := s2.auth.isAdmin(c.userID);
              (r1 == r2 || (r1.Failure? && r2.Failure?)) ==> IsAdmin(s1, req) == IsAdmin(s2, req)
  {
  }

  // ---------------------------------------------------------------------------
  // A nil request is answered as the all-zero request.

  lemma NilRequestsAreZeroRequests(s: ServerApi)
    ensures Login(s, NilLoginRequest) == Login(s, LoginRequest("", "", 0))
    ensures Register(s, NilRegisterRequest) == Register(s, RegisterRequest("", ""))
    ensures IsAdmin(s, NilIsAdminRequest) == IsAdmin(s, IsAdminRequest(0))
    ensures Login(s, NilLoginRequest).reply == Err(EmailRequired)
    ensures Register(s, NilRegisterRequest).reply == Err(EmailRequired)
    ensures IsAdmin(s, NilIsAdminRequest).reply == Err(UserIdRequired)
  {
  }
}
