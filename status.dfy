/**
 * The gRPC status vocabulary the handlers use, as plain values: the canonical
 * status code names and a status made of a code and a message.
 */
module Status {

  /** The canonical gRPC status codes, in their standard order. */
  datatype Code =
    | OK | Canceled | Unknown | InvalidArgument | DeadlineExceeded | NotFound
    | AlreadyExists | PermissionDenied | ResourceExhausted | FailedPrecondition
    | Aborted | OutOfRange | Unimplemented | Internal | Unavailable | DataLoss
    | Unauthenticated

  /** An error status as built by `status.Error` / `status.Errorf` with a constant message. */
  datatype Status = Status(code: Code, message: string)
}
