/** The request builder and dispatcher: the shared id counter, the envelopes
    of single and batched calls, and the checks applied to the decoded reply.
    The counter is a class attribute in the client; here it is explicit state
    threaded through the operations that touch it. */
module Dispatch {
  import opened Wrappers
  import opened JsonValue
  import opened RpcErrors
  import opened Response
  import opened Handles
  import Text

  /** The fields of a JSON-RPC 2.0 request object (section 4 of the JSON-RPC
      2.0 specification): the method, the positional parameters and the id. */
  datatype Call = Call(procedure: Json, params: seq<Json>, id: int)

  const EnvelopeKeys: set<string> := {"jsonrpc", "method", "params", "id"}

  /** The request object as it is serialised. */
  function Encode(c: Call): (j: Json)
    ensures j.Object? && j.fields.Keys == EnvelopeKeys
  {
    Object(map["jsonrpc" := Str("2.0"), "method" := c.procedure, "params" := Array(c.params), "id" := Number(c.id)])
  }

  /** Reads a request object back; None for anything that is not exactly a
      version 2.0 request with array parameters and an integer id. */
  function ParseCall(j: Json): Option<Call>
  {
    if && j.Object?
       && j.fields.Keys == EnvelopeKeys
       && j.fields["jsonrpc"] == Str("2.0")
       && j.fields["params"].Array?
       && j.fields["id"].Number?
    then Some(Call(j.fields["method"], j.fields["params"].items, j.fields["id"].n))
    else None
  }

  lemma EncodeRoundTrip(c: Call)
    ensures ParseCall(Encode(c)) == Some(c)
  {
  }

  /** Every request object is the encoding of the call read out of it. */
  lemma ParseCallInverse(j: Json, c: Call)
    requires ParseCall(j) == Some(c)
    ensures Encode(c) == j
  {
    var e := Encode(c);
    assert forall k :: k in EnvelopeKeys ==> e.fields[k] == j.fields[k];
    assert e.fields == j.fields;
  }

  /** The method entry of a single call: null for a handle in factory mode. */
  function MethodValue(bound: Option<string>): Json
  {
    match bound
    case None => Null
    case Some(name) => Str(name)
  }

  /** What `__call__` schedules: the handle's method, the arguments, and the
      counter value it passes along as `id`, which the envelope never reads. */
  datatype Pending = Pending(bound: Option<string>, args: seq<Json>, id: int)

  /** `__call__`: advance the shared counter by one and schedule the request. */
  function Issue(counter: int, h: Handle, args: seq<Json>): (r: (int, Pending))
    ensures r.0 == counter + 1
    ensures r.1.id == r.0
    ensures r.1.bound == h.bound && r.1.args == args
  {
    (counter + 1, Pending(h.bound, args, counter + 1))
  }

  /** The envelope `__request` posts once the scheduled task runs: its id is the
      counter as it stands then, not the id the task was created with. */
  function Envelope(p: Pending, counterNow: int): (j: Json)
    ensures ParseCall(j) == Some(Call(MethodValue(p.bound), p.args, counterNow))
  {
    EncodeRoundTrip(Call(MethodValue(p.bound), p.args, counterNow));
    Encode(Call(MethodValue(p.bound), p.args, counterNow))
  }

  /** Built before any further call, the envelope carries the issued id. */
  lemma PromptBuildKeepsIssuedId(counter: int, h: Handle, args: seq<Json>)
    ensures var (c1, p) := Issue(counter, h, args);
      ParseCall(Envelope(p, c1)).value.id == p.id == counter + 1
  {
  }

  /** Two calls issued back to back, before either task runs, post the same
      id: both envelopes read the counter after the second increment. */
  lemma BackToBackCallsShareId(counter: int, h1: Handle, a1: seq<Json>, h2: Handle, a2: seq<Json>)
    ensures var (c1, p1) := Issue(counter, h1, a1);
      var (c2, p2) := Issue(c1, h2, a2);
      && ParseCall(Envelope(p1, c2)).value.id == ParseCall(Envelope(p2, c2)).value.id == counter + 2
      && p1.id != p2.id
  {
  }

  /** Issues the given calls back to back, each on its own handle: the counter
      is shared by every handle, so it advances by the number of calls and
      the ids handed to the scheduled tasks are consecutive, in issue order. */
  method IssueMany(counter: int, calls: seq<(Handle, seq<Json>)>) returns (counter': int, pending: seq<Pending>)
    ensures counter' == counter + |calls|
    ensures |pending| == |calls|
    ensures forall i :: 0 <= i < |calls| ==> pending[i] == Pending(calls[i].0.bound, calls[i].1, counter + i + 1)
  {
    counter' := counter;
    pending := [];
    var i := 0;
    while i < |calls|
      invariant 0 <= i <= |calls|
      invariant counter' == counter + i
      invariant |pending| == i
      invariant forall j :: 0 <= j < i ==> pending[j] == Pending(calls[j].0.bound, calls[j].1, counter + j + 1)
    {
      var issued := Issue(counter', calls[i].0, calls[i].1);
      counter' := issued.0;
      pending := pending + [issued.1];
      i := i + 1;
    }
  }

  /** The ids handed out by successive calls strictly increase. */
  lemma IssuedIdsIncrease(counter: int, calls: seq<(Handle, seq<Json>)>, pending: seq<Pending>, i: int, j: int)
    requires |pending| == |calls|
    requires forall k :: 0 <= k < |calls| ==> pending[k] == Pending(calls[k].0.bound, calls[k].1, counter + k + 1)
    requires 0 <= i < j < |pending|
    ensures pending[i].id < pending[j].id
  {
  }

  /** The checks `__request` applies to a decoded single-call reply: a non-null
      `error` is raised as it is, otherwise `result` must be present. A reply
      that is not a dictionary has no `.get` and raises AttributeError. */
  function InterpretSingle(payload: Json): (r: Outcome<Json>)
    ensures !payload.Object? ==> r == Err(AttributeError)
    ensures r.Ok? <==> payload.Object? && GetOrNull(payload.fields, "error") == Null && "result" in payload.fields
    ensures r.Ok? ==> r.value == payload.fields["result"]
    ensures payload.Object? && GetOrNull(payload.fields, "error") != Null ==>
      var err := payload.fields["error"];
      && r.Err?
      && (r.error.JsonRpcException? || r.error == TypeError)
      && (r.error.JsonRpcException? ==> r.error.rpc.error == err)
      && (r.error == TypeError <==> NewRpcError(err).Err?)
      && (r.error.JsonRpcException? ==> r.error.rpc == NewRpcError(err).value)
      && (err.Object? ==> r.error == JsonRpcException(RpcError(err, Lookup(err.fields, "code"), Lookup(err.fields, "message"))))
    ensures payload.Object? && GetOrNull(payload.fields, "error") == Null && "result" !in payload.fields ==>
      IsClientError(r.error, EnvelopeCode, MissingResultMessage)
  {
    match payload
    case Object(fields) =>
      if GetOrNull(fields, "error") != Null then
        match NewRpcError(fields["error"])
        case Ok(e) => Err(JsonRpcException(e))
        case Err(x) => Err(x)
      else if "result" !in fields then Raise(EnvelopeCode, MissingResultMessage)
      else Ok(fields["result"])
    case _ => Err(AttributeError)
  }

  /** A server error wins over a result sent alongside it. */
  lemma ErrorWinsOverResult(code: int, msg: string, result: Json, id: Json)
    ensures var err := Object(map["code" := Number(code), "message" := Str(msg)]);
      var reply := Object(map["result" := result, "error" := err, "id" := id]);
      InterpretSingle(reply) == Err(JsonRpcException(RpcError(err, Some(Number(code)), Some(Str(msg)))))
  {
  }

  /** A string error payload without "code" or "message" in it is raised as
      the exception, with both fields None. */
  lemma StringErrorRaised(result: Json)
    ensures var reply := Object(map["error" := Str("oops"), "result" := result]);
      InterpretSingle(reply) == Err(JsonRpcException(RpcError(Str("oops"), None, None)))
  {
    var e := NewRpcError(Str("oops"));
    forall i: nat
      ensures !Text.OccursAt("code", "oops", i) && !Text.OccursAt("message", "oops", i)
    {
      if i == 0 {
        assert "oops"[0..4][0] != "code"[0];
      }
    }
    assert e.Ok?;
  }

  /** One single call once its task runs: the envelope posted and what the
      awaited task yields. Nothing checks the reply's id against the request. */
  datatype Exchange = Exchange(posted: Json, outcome: Outcome<Json>)

  /** `__request`: build the envelope from the counter as it stands, hand the
      transport's response to `handle_response`, then check the envelope. */
  function Perform(p: Pending, counterNow: int, resp: Option<HttpResponse>, parse: string -> Option<Json>): (x: Exchange)
    ensures ParseCall(x.posted) == Some(Call(MethodValue(p.bound), p.args, counterNow))
    ensures HandleResponse(resp, parse).Err? ==> x.outcome == HandleResponse(resp, parse)
    ensures HandleResponse(resp, parse).Ok? ==> x.outcome == InterpretSingle(HandleResponse(resp, parse).value)
    ensures x.outcome.Ok? <==>
      HandleResponse(resp, parse).Ok? && InterpretSingle(HandleResponse(resp, parse).value).Ok?
    ensures x.outcome.Ok? ==>
      && Decoded(resp.value, parse).value.Object?
      && x.outcome.value == Decoded(resp.value, parse).value.fields["result"]
  {
    var posted := Envelope(p, counterNow);
    match HandleResponse(resp, parse)
    case Err(e) => Exchange(posted, Err(e))
    case Ok(payload) => Exchange(posted, InterpretSingle(payload))
  }

  /** One entry `[method, params...]` of a batch, with the id it is given. */
  function BatchCall(entry: seq<Json>, id: int): Call
    requires |entry| > 0
  {
    Call(entry[0], entry[1..], id)
  }

  /** The loop of `batch`: each entry first advances the counter, then reads
      its method as `entry[0]`, so an empty entry raises IndexError with the
      counter already advanced for it. */
  function BuildBatch(counter: int, requests: seq<seq<Json>>): (r: (int, Outcome<seq<Json>>))
    decreases |requests|
    ensures Text.IndexOf(requests, []) == |requests| ==>
      && r.0 == counter + |requests|
      && r.1.Ok? && |r.1.value| == |requests|
      && forall i :: 0 <= i < |requests| ==> r.1.value[i] == Encode(BatchCall(requests[i], counter + i + 1))
    ensures Text.IndexOf(requests, []) < |requests| ==>
      r == (counter + Text.IndexOf(requests, []) + 1, Err(IndexError))
  {
    if |requests| == 0 then (counter, Ok([]))
    else if requests[0] == [] then (counter + 1, Err(IndexError))
    else
      var (counter', rest) := BuildBatch(counter + 1, requests[1..]);
      if rest.Err? then (counter', rest)
      else (counter', Ok([Encode(BatchCall(requests[0], counter + 1))] + rest.value))
  }

  /** The batch's ids are the next |requests| counter values, in entry order. */
  lemma BatchIdsConsecutive(counter: int, requests: seq<seq<Json>>, i: int)
    requires Text.IndexOf(requests, []) == |requests|
    requires 0 <= i < |requests|
    ensures ParseCall(BuildBatch(counter, requests).1.value[i]) ==
      Some(Call(requests[i][0], requests[i][1..], counter + i + 1))
  {
    EncodeRoundTrip(BatchCall(requests[i], counter + i + 1));
  }

  /** The check `batch` applies to the decoded reply: it must be a list, which
      is returned untouched; errors inside its entries are not raised. */
  function InterpretBatch(payload: Json): (r: Outcome<Json>)
    ensures r.Ok? <==> payload.Array?
    ensures r.Ok? ==> r.value == payload
    ensures r.Err? ==> IsClientError(r.error, EnvelopeCode, InvalidListMessage)
  {
    if payload.Array? then Ok(payload) else Raise(EnvelopeCode, InvalidListMessage)
  }

  /** `batch` after the request is posted: `handle_response`, then the list check. */
  function BatchOutcome(resp: Option<HttpResponse>, parse: string -> Option<Json>): (r: Outcome<Json>)
    ensures HandleResponse(resp, parse).Err? ==> r == HandleResponse(resp, parse)
    ensures HandleResponse(resp, parse).Ok? ==> r == InterpretBatch(HandleResponse(resp, parse).value)
    ensures HandleResponse(resp, parse).Ok? && !HandleResponse(resp, parse).value.Array? ==>
      IsClientError(r.error, EnvelopeCode, InvalidListMessage)
    ensures r.Ok? <==> HandleResponse(resp, parse).Ok? && HandleResponse(resp, parse).value.Array?
    ensures r.Ok? ==> Decoded(resp.value, parse) == Some(r.value)
  {
    match HandleResponse(resp, parse)
    case Err(e) => Err(e)
    case Ok(payload) => InterpretBatch(payload)
  }

  /** The batch `[["foo", 1, 2], ["bar"]]` gets two consecutive ids, and an
      echoed list of replies, one of them an error, comes back unchanged. */
  lemma BatchExample(counter: int, resp: HttpResponse, parse: string -> Option<Json>)
    requires ContentTypeIsJson(resp)
    requires Decoded(resp, parse) == Some(Array([
      Object(map["result" := Number(3), "id" := Number(counter + 1)]),
      Object(map["error" := Object(map["code" := Number(-32601)]), "id" := Number(counter + 2)])]))
    ensures BuildBatch(counter, [[Str("foo"), Number(1), Number(2)], [Str("bar")]]) ==
      (counter + 2, Ok([Encode(Call(Str("foo"), [Number(1), Number(2)], counter + 1)),
                        Encode(Call(Str("bar"), [], counter + 2))]))
    ensures BatchOutcome(Some(resp), parse) == Ok(Decoded(resp, parse).value)
  {
    var requests := [[Str("foo"), Number(1), Number(2)], [Str("bar")]];
    assert Text.IndexOf(requests, []) == 2 by {
      assert requests[0] != [] && requests[1] != [];
    }
    assert requests[0][1..] == [Number(1), Number(2)];
    assert requests[1][1..] == [];
    var built := BuildBatch(counter, requests);
    var expected := [Encode(Call(Str("foo"), [Number(1), Number(2)], counter + 1)),
                     Encode(Call(Str("bar"), [], counter + 2))];
    assert built.1.value[0] == expected[0];
    assert built.1.value[1] == expected[1];
    assert built.1.value == expected;
  }
}
