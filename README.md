# sso: the gRPC authentication boundary

A Dafny model of the request boundary of the `sso` authentication service
(`internal/grpc/auth/server.go`). The boundary serves three gRPC calls:

- **Login**: email, password and app id.
- **Register**: email and password.
- **IsAdmin**: user id.

For each call it does three things in order:

1. It checks that the required fields are present, in a fixed order: email, then password, then app id. A missing field is answered with `InvalidArgument` and a message naming that field.
2. It forwards a valid request to the authentication engine (`Auth` interface).
3. It answers every engine failure with `Internal`, and passes a successful result through unchanged.

Layout:

- `wrappers.dfy`: `Option`.
- `status.dfy`: the gRPC status codes and the `Status` value (code plus message), as plain data.
- `requirements.dfy`: a reference definition of ordered presence checks. A request is a list of required fields, each present or not, and the reported field is the first absent one. `FirstAbsent` is the recursive definition. `FirstAbsentAppend` states that checking one list after another reports the first list's missing field when it has one, and the second list's otherwise. This is how `validateLogin` reuses `validateEmailPassword`.
- `server.dfy`: requests, responses, the engine interface, the validators and the three handlers.
- `properties.dfy`: lemmas that relate several calls or several engines.

Modelling decisions:

- **Engine.** The engine is a record `Auth` of three total functions. It is an oracle the model knows nothing about. A handler returns a `Handled` value with two parts:
  - `reply`: a response, or an error status with no response.
  - `call`: the engine call it made, with its arguments, or `None`.

  The `*DependsOnlyOnCall` lemmas justify the `call` field. When `call` is `None`, two different engines give the same answer. When it is `Some(c)`, the answer depends only on what the engine returns for `c`. If the engine fails, the answer does not even depend on the error value.
- **Nil requests.** A request is a pointer and may be nil. Each request datatype therefore has a nil constructor. Its `Get*` accessors return `""` or `0`, as the protobuf accessors do.
- **The direct `req.AppId` read.** `validateLogin` reads `req.AppId` directly, not through `GetAppId` (server.go:84). The model does the same, as a destructor. Dafny proves that this read only happens on a non-nil request, because it is reached only after a non-empty email.
- **Integer widths.** `int32` and `int64` are newtypes. The generated protobuf types are not part of this model.
  - The app id is taken to be `int32`, because the source converts it with `int(...)`. Go's `int` holds every `int32`, so the engine receives the same value (`as int`).
  - User ids are `int64`, as in the `Auth` interface.
- **Errors.** `status.Error` and `status.Errorf` are called only with constant messages and no format verbs, so both just build a `Status(code, message)`.

## Model

| member | source | states |
|---|---|---|
| `Requirements.FirstAbsent` | internal/grpc/auth/server.go:97-104 | the checked position is the first absent field: every earlier field is present, and the field at that position is absent (or every field is present) |
| `Requirements.MissingField` | internal/grpc/auth/server.go:97-104 | nothing is reported exactly when every field is present; a reported field is absent and every field before it is present |
| `Requirements.FirstAbsentAppend` | internal/grpc/auth/server.go:80-88 | checking a list and then a second one finds the first list's absent field if it has one, and otherwise the second list's, shifted past the first |
| `Requirements.MissingFieldAppend` | internal/grpc/auth/server.go:80-88 | a chained validator reports the first stage's missing field, and consults the later stage only when the first stage passes |
| `AuthServer.RequiredError` | internal/grpc/auth/server.go:67-103 | every missing-field status carries the code InvalidArgument |
| `AuthServer.RequiredErrorInjective` | internal/grpc/auth/server.go:67-103 | distinct missing fields get distinct statuses, so the status names the field |
| `AuthServer.ValidateEmailPassword` | internal/grpc/auth/server.go:97-105 | agrees with the reference (email, then password, first missing reported); fails with "email is required" exactly when the email is empty, whatever the password; with an email, fails with "password is required" exactly when the password is empty; passes exactly when both are non-empty |
| `AuthServer.ValidateLogin` | internal/grpc/auth/server.go:80-88 | agrees with the reference over email, password, then app id; an email/password error is reported as is; otherwise fails with "app_id is required" exactly when the app id is 0 and passes exactly when it is not |
| `AuthServer.ValidateRegister` | internal/grpc/auth/server.go:90-95 | has the same outcome as the email/password validator for every request, and agrees with the reference over email and password |
| `AuthServer.Login` | internal/grpc/auth/server.go:28-42 | the engine is called exactly when validation passes, and then with the request's email, password and app id as an int; an invalid request gets the validation error; the reply is an error exactly when the engine fails, and that error is Internal "internal error"; a response carries the engine's token unchanged |
| `AuthServer.Register` | internal/grpc/auth/server.go:44-60 | the engine is called exactly when validation passes, and then with the request's email and password; an invalid request gets the validation error; the reply is an error exactly when the engine fails, and that error is Internal "internal error"; a response carries the engine's user id unchanged |
| `AuthServer.IsAdmin` | internal/grpc/auth/server.go:62-77 | the engine is not called exactly when the user id is 0, and that answer is InvalidArgument "userID is required"; otherwise the engine is called with the user id, an engine failure becomes Internal "internal err", and a result is returned verbatim |
| `AuthServerProperties.LoginRejectsFirstMissing` | internal/grpc/auth/server.go:32-34 | Login answers "field f is required" exactly when f is the first absent field of email, password, app id |
| `AuthServerProperties.RegisterRejectsFirstMissing` | internal/grpc/auth/server.go:48-50 | Register answers "field f is required" exactly when f is the first absent field of email, password |
| `AuthServerProperties.IsAdminRejectsFirstMissing` | internal/grpc/auth/server.go:66-68 | IsAdmin answers "field f is required" exactly when f is the user id and the user id is 0 |
| `AuthServerProperties.EmptyCredentialsReportEmail` | internal/grpc/auth/server.go:97-103 | with both email and password empty, Login and Register report the email |
| `AuthServerProperties.LoginErrorCodes` | internal/grpc/auth/server.go:32-40 | every Login error is InvalidArgument or Internal, and it is InvalidArgument exactly when the engine was not called |
| `AuthServerProperties.RegisterErrorCodes` | internal/grpc/auth/server.go:48-56 | every Register error is InvalidArgument or Internal, and it is InvalidArgument exactly when the engine was not called |
| `AuthServerProperties.IsAdminErrorCodes` | internal/grpc/auth/server.go:66-73 | every IsAdmin error is InvalidArgument or Internal, and it is InvalidArgument exactly when the engine was not called |
| `AuthServerProperties.LoginDependsOnlyOnCall` | internal/grpc/auth/server.go:32-41 | two engines give the same Login answer when the request is invalid, when they agree on the one call made, or when both fail on it, whatever their errors |
| `AuthServerProperties.RegisterDependsOnlyOnCall` | internal/grpc/auth/server.go:48-59 | two engines give the same Register answer when the request is invalid, when they agree on the one call made, or when both fail on it, whatever their errors |
| `AuthServerProperties.IsAdminDependsOnlyOnCall` | internal/grpc/auth/server.go:66-76 | two engines give the same IsAdmin answer when the user id is 0, when they agree on the one call made, or when both fail on it, whatever their errors |
| `AuthServerProperties.NilRequestsAreZeroRequests` | internal/grpc/auth/server.go:81-84 | a nil request is answered exactly as the request with every field at its zero value: "email is required" for Login and Register, "userID is required" for IsAdmin |

## Left out

- The engine itself (`internal/services/auth/auth.go`). `New` only stores its arguments. `Login` panics as not implemented. `RegisterNewUser` and `IsAdmin` have no implementation in that file. The engine is therefore an opaque oracle, and no credential, hashing, token or expiry behaviour is modelled.
- The storage interfaces `UserSaver`, `UserProvider` and `AppProvider` have no behaviour to model.
- `Register(gRPC, auth)` (server.go:22-24) only registers the handlers with the gRPC server library.
- The embedded `UnimplementedAuthServer` is not modelled.
- The request `context.Context` is passed through to the engine unchanged. It carries deadlines and cancellation, which are not modelled.
- Process bootstrap and logger setup (`cmd/sso/main.go`) are not modelled: configuration loading, the server goroutine, signal handling, slog handlers.
- The handlers map every engine error to Internal. The model keeps this single mapping and adds no separate statuses for invalid credentials or existing users.
- Protobuf encoding is not modelled. Requests and responses are modelled by their field values only.
