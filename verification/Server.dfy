/** zeus-facilitator/src/server.ts: the answers given before the executor is reached. */
module Server {
  import opened Wrappers
  import opened Wire
  import opened Settle

  datatype EarlyExit =
    | Unauthorized
    | InvalidJson
    | VerificationRefused(detail: string)
    | AlreadyUsed(detail: string)       // authorizationState was true when read
    | RpcUnavailable
    | Internal

  function EarlyReply(exit: EarlyExit): HttpReply {
    match exit
    case Unauthorized => HttpReply(401, EMPTY_BODY.(error := Some("unauthorized")))
    case InvalidJson => HttpReply(400, EMPTY_BODY.(error := Some("invalid_json")))
    case VerificationRefused(detail) => Failure(200, detail, "")
    case AlreadyUsed(detail) => Failure(200, "authorization_already_used: " + detail, "")
    case RpcUnavailable => HttpReply(503, EMPTY_BODY.(error := Some("rpc_unavailable")))
    case Internal => HttpReply(500, EMPTY_BODY.(error := Some("internal")))
  }
}
