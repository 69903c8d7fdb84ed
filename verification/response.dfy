/** The response interpreter (`handle_response`): a linear classifier from an
    optional HTTP response to a decoded JSON payload or a -342 exception. */
module Response {
  import opened Wrappers
  import opened JsonValue
  import opened RpcErrors
  import Text

  /** What the transport hands back. `body` is None when reading the body as
      text fails (for instance on bytes the declared charset cannot decode). */
  datatype HttpResponse = HttpResponse(
    status: int,
    reason: string,
    headers: seq<(string, string)>,
    body: Option<string>)

  const ContentTypeHeader: string := "Content-type"
  const JsonMediaType: string := "application/json"

  /** Position of the first header whose name equals name up to letter case,
      or |headers| when there is none. */
  function HeaderIndex(headers: seq<(string, string)>, name: string): (k: nat)
    ensures k <= |headers|
    ensures forall j :: 0 <= j < k ==> !Text.EqualsIgnoreCase(headers[j].0, name)
    ensures k < |headers| ==> Text.EqualsIgnoreCase(headers[k].0, name)
  {
    if |headers| == 0 then 0
    else if Text.EqualsIgnoreCase(headers[0].0, name) then 0
    else 1 + HeaderIndex(headers[1..], name)
  }

  /** `headers[name]` on a case-insensitive multi-dictionary: the first match. */
  function HeaderValue(headers: seq<(string, string)>, name: string): Option<string>
  {
    var k := HeaderIndex(headers, name);
    if k < |headers| then Some(headers[k].1) else None
  }

  /** `value.split(";")[0]`: the text before the first semicolon. */
  function MediaType(value: string): (m: string)
    ensures ';' !in m
    ensures m <= value
    ensures |m| < |value| ==> value[|m|] == ';'
  {
    value[..Text.IndexOf(value, ';')]
  }

  predicate ContentTypeIsJson(resp: HttpResponse)
  {
    match HeaderValue(resp.headers, ContentTypeHeader)
    case None => false
    case Some(v) => MediaType(v) == JsonMediaType
  }

  /** `json.loads(await response.text())`, with the parser as an oracle. */
  function Decoded(resp: HttpResponse, parse: string -> Option<Json>): Option<Json>
  {
    match resp.body
    case None => None
    case Some(text) => parse(text)
  }

  const NonJsonPrefix: string := "non-JSON HTTP response with '"
  const NonJsonSuffix: string := "' from server"

  /** The message of a content-type failure: status and reason, formatted with `'%i %s'`. */
  function NonJsonMessage(status: int, reason: string): string
  {
    NonJsonPrefix + Text.IntToDecimal(status) + " " + reason + NonJsonSuffix
  }

  /** Reads status and reason back out of a content-type failure message. */
  function SplitNonJsonMessage(msg: string): Option<(int, string)>
  {
    if |msg| >= |NonJsonPrefix| + |NonJsonSuffix|
       && msg[..|NonJsonPrefix|] == NonJsonPrefix
       && msg[|msg| - |NonJsonSuffix|..] == NonJsonSuffix
    then
      var middle := msg[|NonJsonPrefix|..|msg| - |NonJsonSuffix|];
      var k := Text.IndexOf(middle, ' ');
      if k < |middle| then
        match Text.ParseInt(middle[..k])
        case Some(status) => Some((status, middle[k + 1..]))
        case None => None
      else None
    else None
  }

  /** The failure message determines the status and reason it was made from. */
  lemma NonJsonMessageRoundTrip(status: int, reason: string)
    ensures SplitNonJsonMessage(NonJsonMessage(status, reason)) == Some((status, reason))
  {
    var digits := Text.IntToDecimal(status);
    var msg := NonJsonMessage(status, reason);
    assert msg[..|NonJsonPrefix|] == NonJsonPrefix;
    assert msg[|msg| - |NonJsonSuffix|..] == NonJsonSuffix;
    var middle := msg[|NonJsonPrefix|..|msg| - |NonJsonSuffix|];
    assert middle == digits + " " + reason;
    var k := Text.IndexOf(middle, ' ');
    assert middle[|digits|] == ' ';
    assert k == |digits|;
    assert middle[..k] == digits;
    assert middle[k + 1..] == reason;
    Text.IntToDecimalRoundTrip(status);
  }

  /** `handle_response`: the missing response is reported first, then a
      content type other than application/json, then an unreadable body;
      every failure carries code -342, and success yields the decoded body. */
  function HandleResponse(resp: Option<HttpResponse>, parse: string -> Option<Json>): (r: Outcome<Json>)
    ensures r.Ok? <==> resp.Some? && ContentTypeIsJson(resp.value) && Decoded(resp.value, parse).Some?
    ensures r.Ok? ==> Decoded(resp.value, parse) == Some(r.value)
    ensures r.Err? ==> r.error.JsonRpcException? && r.error.rpc.code == Some(Number(TransportCode))
  {
    if resp.None? then Raise(TransportCode, MissingResponseMessage)
    else if !ContentTypeIsJson(resp.value) then
      Raise(TransportCode, NonJsonMessage(resp.value.status, resp.value.reason))
    else match Decoded(resp.value, parse)
      case None => Raise(TransportCode, DecodeErrorMessage)
      case Some(payload) => Ok(payload)
  }

  /** A missing response fails before any header is looked at. */
  lemma MissingResponseFailsFirst(parse: string -> Option<Json>)
    ensures IsClientError(HandleResponse(None, parse).error, TransportCode, MissingResponseMessage)
  {
  }

  /** A rejected content type fails the same way whatever the body holds, and
      its message carries the response's status and reason. */
  lemma ContentTypeCheckedBeforeBody(resp: HttpResponse, body: Option<string>,
                                     parse: string -> Option<Json>, parse': string -> Option<Json>)
    requires !ContentTypeIsJson(resp)
    ensures HandleResponse(Some(resp), parse) == HandleResponse(Some(resp.(body := body)), parse')
    ensures var e := HandleResponse(Some(resp), parse).error;
      && IsClientError(e, TransportCode, NonJsonMessage(resp.status, resp.reason))
      && SplitNonJsonMessage(e.rpc.message.value.s) == Some((resp.status, resp.reason))
  {
    NonJsonMessageRoundTrip(resp.status, resp.reason);
  }

  /** An accepted content type with an unreadable or unparsable body fails
      with the decode message. */
  lemma UndecodableBodyFails(resp: HttpResponse, parse: string -> Option<Json>)
    requires ContentTypeIsJson(resp)
    requires Decoded(resp, parse).None?
    ensures IsClientError(HandleResponse(Some(resp), parse).error, TransportCode, DecodeErrorMessage)
  {
  }

  /** Parameters after the first semicolon do not affect the media type. */
  lemma {:induction false} MediaTypeIgnoresParameters(media: string, parameters: string)
    requires ';' !in media
    ensures MediaType(media + ";" + parameters) == media
    ensures MediaType(media) == media
  {
    var v := media + ";" + parameters;
    assert v[|media|] == ';';
    assert forall j :: 0 <= j < |media| ==> v[j] == media[j];
    assert v[..|media|] == media;
  }

  /** Parameters after the semicolon are ignored, and the header name
      matches in any letter case. */
  lemma JsonWithCharsetAccepted(status: int, reason: string, body: Option<string>)
    ensures ContentTypeIsJson(HttpResponse(status, reason, [("content-type", "application/json; charset=utf-8")], body))
  {
    var value := "application/json; charset=utf-8";
    var headers := [("content-type", value)];
    assert Text.EqualsIgnoreCase("content-type", ContentTypeHeader) by {
      assert Text.Lower('C') == 'c';
    }
    assert HeaderValue(headers, ContentTypeHeader) == Some(value);
    assert value == JsonMediaType + ";" + " charset=utf-8";
    MediaTypeIgnoresParameters(JsonMediaType, " charset=utf-8");
  }

  /** Another media type is rejected. */
  lemma HtmlRejected(status: int, reason: string, body: Option<string>)
    ensures !ContentTypeIsJson(HttpResponse(status, reason, [("Content-type", "text/html")], body))
  {
    assert Text.EqualsIgnoreCase("Content-type", ContentTypeHeader);
    assert MediaType("text/html")[0] == 't';
  }

  /** The media type is compared with its letter case. */
  lemma UpperCaseMediaTypeRejected(status: int, reason: string, body: Option<string>)
    ensures !ContentTypeIsJson(HttpResponse(status, reason, [("Content-type", "Application/JSON")], body))
  {
    assert Text.EqualsIgnoreCase("Content-type", ContentTypeHeader);
    assert MediaType("Application/JSON")[0] == 'A';
  }

  /** A response without a content type is rejected. */
  lemma MissingContentTypeRejected(status: int, reason: string, body: Option<string>)
    ensures !ContentTypeIsJson(HttpResponse(status, reason, [], body))
  {
  }
}
