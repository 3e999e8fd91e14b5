/** The pieces of the tRPC layer the routers rely on: the error codes they throw and
    the authenticated caller that `protectedProcedure` puts in the context. */
module Trpc {

  datatype TrpcCode = BadRequest | Unauthorized | NotFound | Conflict | InternalServerError

  /** The text of a `TRPCError` thrown with a code and no message: the code's name. */
  function CodeName(code: TrpcCode): string {
    match code
    case BadRequest => "BAD_REQUEST"
    case Unauthorized => "UNAUTHORIZED"
    case NotFound => "NOT_FOUND"
    case Conflict => "CONFLICT"
    case InternalServerError => "INTERNAL_SERVER_ERROR"
  }

  /** `ctx.user`: the caller's user record as the session holds it. It can differ from
      the user's row in the database (the session is a snapshot). */
  datatype SessionUser = SessionUser(id: string, name: string, email: string)
}
