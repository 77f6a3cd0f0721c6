/**
 * One call of the Sameday REST API (`call_sameday_api`): the request URL,
 * the headers that carry the credentials and the token, and the
 * classification of the reply. The HTTP exchange itself is foreign: a reply
 * is given as data, together with what `json_decode` makes of its body.
 */
module Transport {
  import opened Wrappers
  import opened PhpStrings
  import opened PhpArrays
  import opened WordPress
  import opened Lockers
  import opened Auth

  /** The API endpoint, as written with its trailing slash. */
  const Endpoint: string := "https://api.sameday.bg/"

  /** The endpoint without its trailing slash. */
  const Host: string := "https://api.sameday.bg"

  /** A query parameter value: a string or an integer. */
  datatype QueryValue = Str(s: string) | Int(i: int)

  function EncodeValue(v: QueryValue, wp: Wp): string {
    match v
    case Str(s) => wp.urlencode(s)
    case Int(i) => IntToString(i)
  }

  /** `http_build_query`: `key=value` pairs in order, joined by `&`. */
  function BuildQuery(q: Assoc<string, QueryValue>, wp: Wp): string
    decreases |q|
  {
    if q == [] then ""
    else
      var pair := wp.urlencode(q[0].0) + "=" + EncodeValue(q[0].1, wp);
      if |q| == 1 then pair else pair + "&" + BuildQuery(q[1..], wp)
  }

  /**
   * The request URL: the endpoint without trailing slashes, one slash, the
   * path without leading slashes, and `?query` only for a non-empty query.
   */
  function RequestUrl(param: string, q: Assoc<string, QueryValue>, wp: Wp): (url: string)
    ensures url == Host + "/" + TrimLeft(param, '/') + (if q == [] then "" else "?" + BuildQuery(q, wp))
  {
    EndpointWithoutSlash();
    var url := TrimRight(Endpoint, '/') + "/" + TrimLeft(param, '/');
    if q == [] then url else url + "?" + BuildQuery(q, wp)
  }

  lemma EndpointWithoutSlash()
    ensures TrimRight(Endpoint, '/') == Host
  {
    var e := Endpoint;
    assert e[|e| - 1] == '/';
    assert e[..|e| - 1] == Host;
    assert Host[|Host| - 1] == 'g';
  }

  /** Leading slashes on the path make no difference to the URL. */
  lemma RequestUrlIgnoresLeadingSlash(param: string, q: Assoc<string, QueryValue>, wp: Wp)
    ensures RequestUrl("/" + param, q, wp) == RequestUrl(param, q, wp)
  {
    assert ("/" + param)[1..] == param;
  }

  /** An API request: its URL and its header lines. */
  datatype Request = Request(url: string, headers: seq<string>)

  /** The header lines of an API request made with `token`. */
  function ApiHeaders(settings: Settings, token: string): seq<string> {
    [ "Accept: application/json",
      "Content-Type: application/x-www-form-urlencoded",
      "X-Auth-Username: " + settings.username.GetOr(""),
      "X-Auth-Password: " + settings.password.GetOr(""),
      "X-Auth-Token: " + token ]
  }

  /** The decoded top-level object of an API reply; `data` is [] when absent or empty. */
  datatype Payload = Payload(errorMessage: Option<string>, data: seq<RawLocker>, pages: Option<int>)

  /** What `json_decode` makes of a body: an error message, or a payload. */
  datatype Json = Malformed(message: string) | Decoded(payload: Payload)

  /** One reply of the API: a cURL error or not, the status, the raw body and its decoding. */
  datatype HttpReply = HttpReply(curlError: Option<string>, status: int, body: string, json: Json)

  /** The outcome of `call_sameday_api`: an exception's message, the raw body, or the parsed payload. */
  datatype CallResult = Failed(message: string) | Raw(body: string) | Parsed(payload: Payload)

  /**
   * The reply's classification, checked in this order: a transport error
   * fails; without parsing the raw body is returned; a body that does not
   * decode fails; an `error.message` in the payload fails; otherwise the
   * payload is the result.
   */
  function Classify(reply: HttpReply, parse: bool): (r: CallResult)
    ensures reply.curlError.Some? ==> r == Failed("Curl Error: " + reply.curlError.value)
    ensures reply.curlError.None? && !parse ==> r == Raw(reply.body)
    ensures reply.curlError.None? && parse && reply.json.Malformed? ==>
      r == Failed("JSON Decode Error: " + reply.json.message)
    ensures reply.curlError.None? && parse && reply.json.Decoded? && reply.json.payload.errorMessage.Some? ==>
      r == Failed("API Error: " + reply.json.payload.errorMessage.value)
    ensures r.Parsed? <==>
      reply.curlError.None? && parse && reply.json.Decoded? && reply.json.payload.errorMessage.None?
    ensures r.Parsed? ==> r.payload == reply.json.payload
  {
    if reply.curlError.Some? then Failed("Curl Error: " + reply.curlError.value)
    else if !parse then Raw(reply.body)
    else match reply.json
      case Malformed(m) => Failed("JSON Decode Error: " + m)
      case Decoded(p) =>
        if p.errorMessage.Some? then Failed("API Error: " + p.errorMessage.value) else Parsed(p)
  }

  /** The HTTP status of an API reply is read but never consulted. */
  lemma ClassifyIgnoresStatus(reply: HttpReply, parse: bool, status: int)
    ensures Classify(reply.(status := status), parse) == Classify(reply, parse)
  {
  }

  /**
   * `call_sameday_api(param, query, parse)`: the URL is built first, then the
   * token is obtained; when that throws no request is sent. Otherwise the
   * request carries the token, and `reply` is the server's answer to it.
   */
  function Call(
    s: AuthState, authServer: nat -> AuthReply, settings: Settings, wp: Wp, tz: string, now: int,
    param: string, q: Assoc<string, QueryValue>, parse: bool, reply: HttpReply
  ): (r: (AuthState, Option<Request>, CallResult))
    ensures r.0 == GetToken(s, authServer, wp, tz, now).0
    ensures GetToken(s, authServer, wp, tz, now).1.Failure? ==>
      r.1.None? && r.2 == Failed(GetToken(s, authServer, wp, tz, now).1.error)
    ensures GetToken(s, authServer, wp, tz, now).1.Success? ==>
      && r.1 == Some(Request(RequestUrl(param, q, wp), ApiHeaders(settings, GetToken(s, authServer, wp, tz, now).1.value)))
      && r.2 == Classify(reply, parse)
  {
    var url := RequestUrl(param, q, wp);
    var (s', token) := GetToken(s, authServer, wp, tz, now);
    match token
    case Failure(e) => (s', None, Failed(e))
    case Success(t) => (s', Some(Request(url, ApiHeaders(settings, t))), Classify(reply, parse))
  }
}
