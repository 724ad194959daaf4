/** JSON-RPC messages as the session and the client see them after JSON decoding. */
module Messages {
  import opened Options

  /** A request id: JSON-RPC allows numbers, strings and null. */
  datatype Id = Num(n: int) | Str(s: string) | NullId

  /** JSON values the protocol never looks into. */
  type Json = string

  /** The `params` member; `requestId` is what `$/cancelRequest` reads from it. */
  datatype Params = Params(requestId: Option<Id>, body: Json)

  /** The `error` member. `Malformed` is anything without an integer code and a string message. */
  datatype ErrorObject = RpcError(code: int, message: string) | Malformed

  /** A decoded message: each member is present or absent, as the dispatchers test it. */
  datatype Msg = Msg(id: Option<Id>, name: Option<string>, params: Option<Params>,
                     result: Option<Json>, error: Option<ErrorObject>)

  const METHOD_NOT_FOUND: int := -32601
  const INVALID_PARAMS: int := -32602
  const INTERNAL_ERROR: int := -32603
  const REQUEST_CANCELLED: int := -32800
  const CANCEL_METHOD := "$/cancelRequest"

  function Request(id: Id, name: string, params: Option<Params>): Msg {
    Msg(Some(id), Some(name), params, None, None)
  }

  function Notification(name: string, params: Option<Params>): Msg {
    Msg(None, Some(name), params, None, None)
  }

  function ResultResponse(id: Id, value: Json): Msg {
    Msg(Some(id), None, None, Some(value), None)
  }

  function ErrorResponse(id: Id, code: int, message: string): Msg {
    Msg(Some(id), None, None, None, Some(RpcError(code, message)))
  }

  /** A Response object in the sense of section 5 of JSON-RPC 2.0: an id, no method, and exactly
      one of result and error. */
  predicate IsResponse(m: Msg) {
    m.id.Some? && m.name.None? && m.result.Some? != m.error.Some?
  }

  /** What a future holds. A future leaves `Pending` at most once. */
  datatype Outcome = Pending | Cancelled | Value(value: Json) | Failed(reason: Failure)

  datatype Failure =
    | RemoteError(error: ErrorObject)
    | InvalidResponse
    | TransportClosed
    | ServerStopped

  /** How the asyncio task of an incoming request ends: its handler returned a value, or one that cannot be
      dumped, or raised, or was cancelled, or there is no handler for the method. */
  datatype HandlerEnd =
    | Returned(value: Json)
    | ReturnedUnserialisable(message: string)
    | RaisedHandlerError(code: int, message: string)
    | RaisedOther(message: string)
    | WasCancelled
    | NotRegistered

  /** `pos` is where its response stands in the log of everything its side has enqueued. */
  datatype TaskStatus =
    | Created
    | Running(cancelRequested: bool)
    | Ended(end: HandlerEnd, pos: nat)

  /** The asyncio task that serves one incoming request. */
  datatype Task = Task(request: Msg, status: TaskStatus)
}
