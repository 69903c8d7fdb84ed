# aiojsonrpc core, modelled in Dafny

This project models the logic underneath `aiojsonrpc`, an asyncio JSON-RPC 2.0
client built on aiohttp. The HTTP session, the event loop and the JSON codec
are left outside. What remains is a set of pure functions over an abstract
JSON value:

- **Response interpreter** (`Response.HandleResponse`). It classifies an
  optional HTTP response as a decoded payload or a JSONRPCException with code
  -342. A missing response is reported first. Next comes a content type
  whose part before the first `;` is not exactly `application/json`. Last
  comes a body that cannot be read or parsed.
- **Envelope checks** (`Dispatch.InterpretSingle`, `Dispatch.InterpretBatch`).
  A single call raises a non-null `error` payload as it is, even when a
  `result` is also present. Without an error it fails with -343 when
  `result` is missing, and otherwise returns `result` unchanged. A batch
  only requires the decoded reply to be a list. The list comes back
  untouched and errors inside its entries are not raised.
- **Envelope builders and the id counter** (`Dispatch.Issue`,
  `Dispatch.Envelope`, `Dispatch.BuildBatch`). The class-level counter is
  explicit state. `__call__` advances it and schedules a task. That task
  reads the counter again when it builds the envelope. The model therefore
  keeps two steps: issuing a call and building its envelope. Two calls
  issued back to back, before either task runs, post the same id
  (`Dispatch.BackToBackCallsShareId`). The model keeps this behaviour of the
  client as it is. A batch gives entry i the id `counter + i + 1`, with
  method `entry[0]` and params `entry[1:]`. An empty entry raises IndexError
  after the counter has already been advanced for it.
- **Exception fields** (`RpcErrors.NewRpcError`). `code` and `message` are
  read with Python's `in` and `[]`. An absent key gives None. A string or
  list payload that contains "code" or "message" raises TypeError, and so
  does a number or boolean payload.
- **Handle factory** (`Handles.GetAttr`). A dunder name raises
  AttributeError. Any other name gives a handle bound to that name, which
  shares the url, loop, timeout and session.

The codes -342 and -343 are the client's own. They do not come from the
error table in section 5.1 of the JSON-RPC 2.0 specification.

Modules:

| file | module | contents |
|---|---|---|
| wrappers.dfy | `Wrappers` | `Option`, `Result` |
| text.dfy | `Text` | first-occurrence search, Python substring test, ASCII case folding, `%i` formatting and its inverse |
| json.dfy | `JsonValue` | the JSON datatype; Python `in`, `[]` and `.get` on decoded values |
| errors.dfy | `RpcErrors` | JSONRPCException, the other escaping exceptions, client codes and messages |
| response.dfy | `Response` | HTTP response, header lookup, `handle_response` |
| handles.dfy | `Handles` | client handles, `__getattr__` |
| dispatch.dfy | `Dispatch` | request objects, counter, single and batch calls |

Transport and parsing are parameters. A response is `Option<HttpResponse>`.
Its `body` is None when `response.text()` fails. `json.loads` is an oracle
`parse: string -> Option<Json>`.

## Model

| member | source | states |
|---|---|---|
| `RpcErrors.Field` | aiojsonrpc/rpc.py:15-16 | one exception field: the dictionary entry or None when the key is absent; for a string or list, None when the key does not occur in it and TypeError when it does; TypeError for a number or boolean payload; only a dictionary yields a value |
| `RpcErrors.NewRpcError` | aiojsonrpc/rpc.py:7-16 | the exception keeps the payload; for a dictionary, `code` and `message` are the entries when present and None otherwise; a string or list payload succeeds exactly when neither key is in it, and then both fields are None; other payloads raise TypeError |
| `RpcErrors.ClientError` | aiojsonrpc/rpc.py:63-64 | a client-built exception keeps the payload `{code, message}` as its error and reads back exactly the given code and message |
| `JsonValue.Contains` | aiojsonrpc/rpc.py:15-16 | Python's `key in v`: key membership for a dictionary, element membership for a list, substring occurrence for a string, TypeError otherwise |
| `Text.OccursIffSlice` | aiojsonrpc/rpc.py:15-16 | the recursive substring test holds exactly when the key sits at some position of the string |
| `Response.HandleResponse` | aiojsonrpc/rpc.py:67-83 | success exactly when a response is present, its content type is JSON and its body decodes; the payload returned is the decoded body; every failure carries code -342 |
| `Response.MissingResponseFailsFirst` | aiojsonrpc/rpc.py:68-70 | a missing response fails with the exception built from the payload `{code: -342, message: "missing HTTP response from server"}` |
| `Response.ContentTypeCheckedBeforeBody` | aiojsonrpc/rpc.py:71-76 | a rejected content type fails the same way whatever the body and parser are; the exception is the one built from the payload `{code: -342, message}` with the non-JSON message, and status and reason can be read back from that message |
| `Response.NonJsonMessageRoundTrip` | aiojsonrpc/rpc.py:75-76 | the content-type failure message determines the status and reason it was built from |
| `Text.IntToDecimalRoundTrip` | aiojsonrpc/rpc.py:75 | the `%i` rendering of the status reads back as the same integer |
| `Response.UndecodableBodyFails` | aiojsonrpc/rpc.py:77-82 | an accepted content type with an unreadable or unparsable body fails with the exception built from the payload `{code: -342, message: "decode JSON response error"}` |
| `Response.HeaderIndex` | aiojsonrpc/rpc.py:72 | the Content-type lookup finds the first header whose name matches up to letter case, and none earlier matches |
| `Response.MediaType` | aiojsonrpc/rpc.py:72 | `split(";")[0]` is the longest prefix without a semicolon, ending at the first semicolon or at the end |
| `Text.IndexOf` | aiojsonrpc/rpc.py:72 | the first occurrence: no earlier element matches, and the element at the index does |
| `Response.MediaTypeIgnoresParameters` | aiojsonrpc/rpc.py:72 | parameters after the first `;` do not change the media type compared |
| `Response.JsonWithCharsetAccepted` | aiojsonrpc/rpc.py:72 | `content-type: application/json; charset=utf-8` is accepted |
| `Response.HtmlRejected` | aiojsonrpc/rpc.py:72-76 | `text/html` is rejected |
| `Response.UpperCaseMediaTypeRejected` | aiojsonrpc/rpc.py:72 | the media type is compared with its letter case, so `Application/JSON` is rejected |
| `Response.MissingContentTypeRejected` | aiojsonrpc/rpc.py:72-74 | a response without a Content-type header is rejected |
| `Dispatch.Encode` | aiojsonrpc/rpc.py:51-54 | a request object has exactly the keys jsonrpc, method, params and id |
| `Dispatch.EncodeRoundTrip` | aiojsonrpc/rpc.py:51-54 | reading a request object back gives the method, params and id it was built from |
| `Dispatch.ParseCallInverse` | aiojsonrpc/rpc.py:51-54 | every well-formed request object is the encoding of the call read from it |
| `Dispatch.Issue` | aiojsonrpc/rpc.py:44-47 | a call advances the shared counter by exactly one and passes the new value to the scheduled task, with the handle's method and the arguments |
| `Dispatch.Envelope` | aiojsonrpc/rpc.py:50-54 | the posted object reads back as version 2.0, the handle's method (null in factory mode), the arguments as params, and the counter value at build time as id |
| `Dispatch.PromptBuildKeepsIssuedId` | aiojsonrpc/rpc.py:45-54 | an envelope built before any further call carries the id its call was issued with |
| `Dispatch.BackToBackCallsShareId` | aiojsonrpc/rpc.py:44-54 | two calls issued before either task runs post the same id, counter + 2, though they were issued different ids |
| `Dispatch.IssueMany` | aiojsonrpc/rpc.py:44-47 | n calls, on any handles, advance the shared counter by exactly n and hand out the ids counter+1 … counter+n in issue order, each with its handle's method and its arguments |
| `Dispatch.IssuedIdsIncrease` | aiojsonrpc/rpc.py:45 | the ids handed out by successive calls strictly increase |
| `Dispatch.InterpretSingle` | aiojsonrpc/rpc.py:59-65 | a non-dictionary reply raises AttributeError; a non-null error is raised as the exception built from that payload (TypeError exactly when that construction raises), so for a dictionary with its own code and message; with no error, success exactly when `result` is present, returning it unchanged, else the exception built from the payload `{code: -343, message: "missing JSON-RPC result"}` |
| `Dispatch.StringErrorRaised` | aiojsonrpc/rpc.py:60-61 | a string error payload without "code" or "message" in it is raised as the exception with both fields None |
| `Dispatch.ErrorWinsOverResult` | aiojsonrpc/rpc.py:60-61 | a reply with both an error and a result raises the error |
| `Dispatch.Perform` | aiojsonrpc/rpc.py:50-65 | the posted id is the counter at build time; a `handle_response` failure passes through; otherwise the outcome is the envelope check of the decoded reply (the server's error, -343, or `result`); success exactly when the response is accepted and the reply passes the envelope checks, yielding its `result` |
| `Dispatch.BuildBatch` | aiojsonrpc/rpc.py:94-97 | with no empty entry: the counter ends at counter+n and entry i becomes a request with method entry[0], params entry[1:] and id counter+i+1; otherwise IndexError, with the counter advanced up to and including the first empty entry |
| `Dispatch.BatchIdsConsecutive` | aiojsonrpc/rpc.py:94-97 | each posted batch object reads back with its entry's method and params and id counter+i+1 |
| `Dispatch.InterpretBatch` | aiojsonrpc/rpc.py:104-107 | success exactly when the reply is a list, returned unchanged; otherwise the exception built from the payload `{code: -343, message: "invalid response list"}` |
| `Dispatch.BatchOutcome` | aiojsonrpc/rpc.py:99-107 | a `handle_response` failure passes through; a decoded reply that is not a list fails with -343 "invalid response list"; success exactly when the decoded reply is a list, which is the decoded body itself |
| `Dispatch.BatchExample` | aiojsonrpc/rpc.py:90-107 | `[["foo", 1, 2], ["bar"]]` gets ids counter+1 and counter+2, and an echoed list with an error entry comes back unchanged |
| `Handles.GetAttr` | aiojsonrpc/rpc.py:109-113 | an error (AttributeError) exactly for dunder names; otherwise a handle bound to the name that differs from the original only in its method |
| `Handles.RebindingKeepsLastName` | aiojsonrpc/rpc.py:109-113 | binding twice is the same as binding the last name directly |
| `Handles.DunderExamples` | aiojsonrpc/rpc.py:110 | which names count as dunder names, including the overlapping `__` and `___` |

## Left out

- The aiohttp session, the POST call, the request headers, the timeout and `close()`. These are network I/O in a foreign library. The transport's answer is a parameter, and transport-level failures such as a timeout or a refused connection are not modelled.
- Event-loop scheduling through `create_task`. Issuing a call and building its envelope are separate steps instead. The caller chooses the counter value at build time, which lets the model state the id collision without concurrency.
- `batch` is a coroutine. Its counter increments happen when it is awaited, not when it is called. The model takes the counter value at that point as its input.
- `json.dumps` and `json.loads`. Parsing is an oracle. Dictionary key order, floating-point numbers and serialisation failures are not modelled.
- The reply's `id` is never compared with the request's id. The model has no such check either.
- `__str__` and `__repr__`, including the TypeError that `'%d'` raises when `code` is None.
- The message argument passed to `Exception.__init__` only sets the exception's `args`; the model drops it.
- `AIOJSONRPC.__init__`: session creation and the default timeout `HTTP_TIMEOUT`.
- Normal attribute lookup runs before `__getattr__`. So `batch`, `close`, `handle_response` and the name-mangled private attributes resolve to the class's own members, and a remote method with one of those names cannot be bound fluently. Only the `__getattr__` rule is modelled.
- `Dispatch.BuildBatch`: batch entries are modelled as lists only, the `["method", params...]` form documented in `batch`. In the client a string entry is indexed character by character, and a number, None or dictionary entry raises TypeError or KeyError after the counter has advanced for it.
- `Response.HandleResponse`: the content-type test is an `assert`, which `python -O` removes. The model assumes assertions are enabled.
- `Response.HeaderIndex`: header names are compared with ASCII case folding. This stands in for aiohttp's case-insensitive multi-dictionary.
