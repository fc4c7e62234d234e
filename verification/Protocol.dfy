/** JSON-RPC 2.0 messages as the crate sees them. */
module Protocol {
  import opened Wrappers
  import opened Json

  datatype Id = NullId | NumberId(n: nat) | StringId(s: string)

  /** Absent parameters are `None`; parsing them reads `null`. */
  datatype Request = Request(method_: string, params: Option<Value>, id: Id)

  function ParamsValue(params: Option<Value>): Value {
    match params
    case None => Null
    case Some(v) => v
  }

  // Section 5.1 of the JSON-RPC 2.0 specification.
  const INVALID_REQUEST: int := -32600
  const METHOD_NOT_FOUND: int := -32601
  const INVALID_PARAMS: int := -32602

  /** What the `data` member of an error object says. */
  datatype Detail =
    | NoDetail
    | NotParsed(params: Value)
    | MissingParameter(key: string)
    | WrongCount(expected: nat, got: nat)
    | BadValue(ty: Ty, value: Value)
    | SubscriptionsNotImplemented
    | Custom(value: Value)

  datatype ErrorObject = ErrorObject(code: int, detail: Detail)

  datatype Payload = Success(value: Value) | Error(err: ErrorObject)

  datatype Response = Response(payload: Payload, id: Id)

  /** The error type of the crate. `RequestProcessing` carries text in the source; here it says what
      the text is the rendering of. */
  datatype RpcError =
    | RequestProcessing(cause: Cause)
    | SerdeJson(ty: Ty, value: Value)
    | Foreign(code: int)

  datatype Cause = ErrorText(err: ErrorObject) | NoKnownVariant
}
