/** JSONRPCException and the other failures a call can end in. */
module RpcErrors {
  import opened Wrappers
  import opened JsonValue

  /** Client-side code for a missing response, a non-JSON content type or an
      undecodable body. */
  const TransportCode: int := -342
  /** Client-side code for a malformed JSON-RPC envelope. */
  const EnvelopeCode: int := -343

  const MissingResponseMessage: string := "missing HTTP response from server"
  const DecodeErrorMessage: string := "decode JSON response error"
  const MissingResultMessage: string := "missing JSON-RPC result"
  const InvalidListMessage: string := "invalid response list"

  /** A JSONRPCException: the original error payload and the `code` and
      `message` entries read out of it (None when the entry is absent).
      This keeps an absent key (None) apart from an entry holding JSON null
      (Some(Null)), a distinction Python's None does not make. */
  datatype RpcError = RpcError(error: Json, code: Option<Json>, message: Option<Json>)

  /** What a call raises: a JSONRPCException, or one of the Python errors the
      client lets escape unclassified. */
  datatype Exception =
    | JsonRpcException(rpc: RpcError)
    | TypeError
    | AttributeError
    | IndexError

  type Outcome<T> = Result<T, Exception>

  /** Reads one entry of an error payload the way the exception's constructor
      does: test `key in payload`, and subscript only when that holds. */
  function Field(payload: Json, key: string): (r: Outcome<Option<Json>>)
    ensures payload.Object? ==> r == Ok(Lookup(payload.fields, key))
    ensures payload.Null? || payload.Bool? || payload.Number? ==> r == Err(TypeError)
    ensures r.Ok? && r.value.Some? ==> payload.Object?
    ensures Contains(payload, key) == Some(false) ==> r == Ok(None)
    ensures !payload.Object? && Contains(payload, key) == Some(true) ==> r == Err(TypeError)
    ensures r.Err? ==> r.error == TypeError
  {
    match Contains(payload, key)
    case None => Err(TypeError)
    case Some(present) =>
      if !present then Ok(None)
      else match Subscript(payload, key)
        case None => Err(TypeError)
        case Some(v) => Ok(Some(v))
  }

  /** Constructs the exception from a server's (or the client's own) error
      payload. A dictionary always succeeds; a string or list succeeds only
      when neither "code" nor "message" is in it; anything else raises. */
  function NewRpcError(payload: Json): (r: Outcome<RpcError>)
    ensures r.Ok? ==> r.value.error == payload
    ensures payload.Object? ==>
      && r.Ok?
      && r.value.code == Lookup(payload.fields, "code")
      && r.value.message == Lookup(payload.fields, "message")
    ensures payload.Str? ==>
      (r.Ok? <==> forall i: nat :: !Text.OccursAt("code", payload.s, i) && !Text.OccursAt("message", payload.s, i))
    ensures payload.Array? ==>
      (r.Ok? <==> Str("code") !in payload.items && Str("message") !in payload.items)
    ensures !payload.Object? && r.Ok? ==> r.value.code.None? && r.value.message.None?
    ensures payload.Null? || payload.Bool? || payload.Number? ==> r == Err(TypeError)
    ensures r.Err? ==> r.error == TypeError
  {
    var code :- Field(payload, "code");
    var message :- Field(payload, "message");
    Ok(RpcError(payload, code, message))
  }

  /** The exception the client raises on its own, from a two-entry payload. */
  function ClientError(code: int, msg: string): (e: RpcError)
    ensures e.code == Some(Number(code))
    ensures e.message == Some(Str(msg))
    ensures e.error == Object(map["code" := Number(code), "message" := Str(msg)])
  {
    NewRpcError(Object(map["code" := Number(code), "message" := Str(msg)])).value
  }

  /** e is the client-side exception built from the payload
      `{code, message}`: it keeps that payload and reads back this code and
      message. */
  predicate IsClientError(e: Exception, code: int, msg: string)
  {
    e == JsonRpcException(ClientError(code, msg))
  }

  function Raise<T>(code: int, msg: string): Outcome<T>
  {
    Err(JsonRpcException(ClientError(code, msg)))
  }
}
