/**
 * The REST client of src/infrastructure/revenuecat-client.ts: how one call
 * builds its URL, headers and body, hands them to `fetch` once, and turns
 * the response into a result or an `Error("HTTP <status>: <text>")`.
 *
 * `fetch` (with `response.text()` and `response.json()`) is a parameter:
 * a function from the request to what it settles with. The request id that
 * `crypto.randomUUID()` draws is a parameter too. The logger is a sequence
 * of entries the client appends to.
 */
module HttpClient {
  import opened Wrappers
  import opened JsonValues
  import opened Text
  import opened Exceptions
  import opened FormUrlencoded

  /** The methods the client's signature admits. */
  datatype Method = GET | POST | PATCH | DELETE

  /** The part of the configuration the client reads. */
  datatype Config = Config(secretKey: string, apiUrl: string)

  datatype Header = Header(name: string, value: string)

  /** What is handed to `fetch`: the body is the value to be sent as JSON, None when no body is sent. */
  datatype HttpRequest = HttpRequest(httpMethod: Method, url: string, headers: seq<Header>, body: Option<Json>)

  /**
   * What `fetch` resolves to: the status, the body as text (what
   * `response.text()` reads) and the body as JSON (what `response.json()`
   * returns or throws).
   */
  datatype Response = Response(status: nat, text: string, json: Outcome<Json>)

  /** `response.ok`: a status in the range 200 to 299. */
  predicate Ok(r: Response) {
    200 <= r.status <= 299
  }

  datatype LogEvent =
    | Started(httpMethod: Method, url: string)
    | Failed(status: nat, error: string)
    | Completed

  /** One logger call, with the id of the request it belongs to. */
  datatype LogEntry = LogEntry(requestId: string, event: LogEvent)

  // ---------------------------------------------------------------------
  // Request construction
  // ---------------------------------------------------------------------

  /** The URL of a call: base and endpoint, then `?` and the query whenever params are given, even none. */
  function RequestUrl(apiUrl: string, endpoint: string, params: Option<seq<Pair>>): string {
    if params.Some? then apiUrl + endpoint + "?" + Serialize(params.value) else apiUrl + endpoint
  }

  /** The three headers of every call. */
  function RequestHeaders(config: Config, requestId: string): seq<Header> {
    [ Header("Authorization", "Bearer " + config.secretKey),
      Header("Content-Type", "application/json"),
      Header("X-Request-ID", requestId) ]
  }

  /** The value of the first header called `name`. */
  function HeaderValue(headers: seq<Header>, name: string): Option<string> {
    if headers == [] then None
    else if headers[0].name == name then Some(headers[0].value)
    else HeaderValue(headers[1..], name)
  }

  /** The body is sent only for a truthy value; an absent, null, false, zero or empty-string body sends none. */
  function RequestBody(body: Option<Json>): (r: Option<Json>)
    ensures r.Some? <==> body.Some? && Truthy(body.value)
    ensures r.Some? ==> r == body
  {
    if body.Some? && Truthy(body.value) then body else None
  }

  /** The request a call hands to `fetch`. */
  function Outgoing(config: Config, httpMethod: Method, endpoint: string, body: Option<Json>,
                    params: Option<seq<Pair>>, requestId: string): HttpRequest
  {
    HttpRequest(httpMethod, RequestUrl(config.apiUrl, endpoint, params), RequestHeaders(config, requestId), RequestBody(body))
  }

  /** The message of the error a non-ok response raises. */
  function HttpErrorMessage(status: nat, text: string): string {
    "HTTP " + NatToString(status) + ": " + text
  }

  // ---------------------------------------------------------------------
  // What a call returns and logs, given what fetch settles with
  // ---------------------------------------------------------------------

  /** A failed fetch propagates; a non-ok status throws without reading JSON; an ok one returns (or throws) what `json()` does. */
  function Settle(fetched: Outcome<Response>): Outcome<Json> {
    match fetched
    case Threw(e) => Threw(e)
    case Returned(response) =>
      if !Ok(response) then Threw(Failure(Some(HttpErrorMessage(response.status, response.text))))
      else response.json
  }

  /** The entries one call logs: started; then failed on a non-ok status, or completed once the JSON is read. */
  function CallLog(requestId: string, httpMethod: Method, url: string, fetched: Outcome<Response>): (entries: seq<LogEntry>)
    ensures |entries| >= 1 && entries[0] == LogEntry(requestId, Started(httpMethod, url))
    ensures forall i | 0 <= i < |entries| :: entries[i].requestId == requestId
  {
    [LogEntry(requestId, Started(httpMethod, url))] +
      match fetched
      case Threw(_) => []
      case Returned(response) =>
        if !Ok(response) then [LogEntry(requestId, Failed(response.status, response.text))]
        else if response.json.Returned? then [LogEntry(requestId, Completed)]
        else []
  }

  // ---------------------------------------------------------------------
  // The client
  // ---------------------------------------------------------------------

  class RevenueCatClient {
    const config: Config
    /** What the logger has been given, oldest first. */
    var log: seq<LogEntry>
    /** Every request handed to `fetch`, oldest first. */
    var sent: seq<HttpRequest>

    constructor(config: Config)
      ensures this.config == config && log == [] && sent == []
    {
      this.config := config;
      log := [];
      sent := [];
    }

    /**
     * One call: exactly one request goes to `fetch`, and the result and
     * the log entries follow from what it settles with. There is no retry.
     */
    method Request(httpMethod: Method, endpoint: string, body: Option<Json>, params: Option<seq<Pair>>,
                   requestId: string, fetch: HttpRequest -> Outcome<Response>)
      returns (r: Outcome<Json>)
      modifies this
      ensures sent == old(sent) + [Outgoing(config, httpMethod, endpoint, body, params, requestId)]
      ensures r == Settle(fetch(Outgoing(config, httpMethod, endpoint, body, params, requestId)))
      ensures log == old(log) + CallLog(requestId, httpMethod, RequestUrl(config.apiUrl, endpoint, params),
                                        fetch(Outgoing(config, httpMethod, endpoint, body, params, requestId)))
    {
      var url := config.apiUrl + endpoint;
      if params.Some? {
        var queryString := Serialize(params.value);
        url := url + "?" + queryString;
      }
      log := log + [LogEntry(requestId, Started(httpMethod, url))];
      var request := HttpRequest(httpMethod, url, RequestHeaders(config, requestId), RequestBody(body));
      sent := sent + [request];
      var fetched := fetch(request);
      if fetched.Threw? {
        r := Threw(fetched.exception);
        return;
      }
      var response := fetched.value;
      if !Ok(response) {
        var error := response.text;
        log := log + [LogEntry(requestId, Failed(response.status, error))];
        r := Threw(Failure(Some("HTTP " + NatToString(response.status) + ": " + error)));
        return;
      }
      var data := response.json;
      if data.Returned? {
        log := log + [LogEntry(requestId, Completed)];
      }
      r := data;
    }
  }

  // ---------------------------------------------------------------------
  // Properties
  // ---------------------------------------------------------------------

  /** The URL is the base and the endpoint alone when no params are given; params, even empty, add a `?`. */
  lemma UrlShape(apiUrl: string, endpoint: string)
    ensures RequestUrl(apiUrl, endpoint, None) == apiUrl + endpoint
    ensures RequestUrl(apiUrl, endpoint, Some([])) == apiUrl + endpoint + "?"
  {
  }

  /**
   * When the base and endpoint hold no `?`, the URL splits at its first `?`
   * into base and endpoint, and a query that parses back to the params.
   */
  lemma UrlQueryReadsBack(apiUrl: string, endpoint: string, params: seq<Pair>)
    requires forall i | 0 <= i < |apiUrl + endpoint| :: (apiUrl + endpoint)[i] != '?'
    ensures var url := RequestUrl(apiUrl, endpoint, Some(params));
            var q := IndexOf(url, '?');
            q < |url| && url[..q] == apiUrl + endpoint && Parse(url[q + 1..]) == Some(params)
  {
    var path := apiUrl + endpoint;
    var query := Serialize(params);
    var url := RequestUrl(apiUrl, endpoint, Some(params));
    assert url == path + ['?'] + query;
    IndexAfter(path, '?', query);
    assert url[..|path|] == path;
    assert url[|path| + 1..] == query;
    ParseSerialize(params);
  }

  /** Exactly three headers: the bearer token, the JSON content type and the call's request id. */
  lemma HeadersExact(config: Config, requestId: string, name: string)
    ensures HeaderValue(RequestHeaders(config, requestId), "Authorization") == Some("Bearer " + config.secretKey)
    ensures HeaderValue(RequestHeaders(config, requestId), "Content-Type") == Some("application/json")
    ensures HeaderValue(RequestHeaders(config, requestId), "X-Request-ID") == Some(requestId)
    ensures HeaderValue(RequestHeaders(config, requestId), name).Some? <==>
              name == "Authorization" || name == "Content-Type" || name == "X-Request-ID"
  {
    var hs := RequestHeaders(config, requestId);
    assert hs[1..] == [hs[1], hs[2]];
    assert hs[1..][1..] == [hs[2]];
    assert hs[1..][1..][1..] == [];
    forall n
      ensures HeaderValue(hs, n) == if n == "Authorization" then Some("Bearer " + config.secretKey)
                                    else if n == "Content-Type" then Some("application/json")
                                    else if n == "X-Request-ID" then Some(requestId) else None
    {
      assert HeaderValue(hs[1..][1..], n) == if n == "X-Request-ID" then Some(requestId) else None;
    }
  }

  /** A non-ok response throws the same error whatever its body holds as JSON: the JSON is never read. */
  lemma NonOkIgnoresJson(a: Response, b: Response)
    requires a.status == b.status && a.text == b.text && !Ok(a)
    ensures Settle(Returned(a)) == Settle(Returned(b))
    ensures Settle(Returned(a)) == Threw(Failure(Some(HttpErrorMessage(a.status, a.text))))
  {
  }

  /** An ok response gives back exactly what reading it as JSON gives, whatever its text. */
  lemma OkReturnsJson(response: Response)
    requires Ok(response)
    ensures Settle(Returned(response)) == response.json
  {
  }

  /** The error message holds the status as three digits after "HTTP ", then ": " and the response text unchanged. */
  lemma HttpErrorMessageReadsBack(status: nat, text: string)
    requires 100 <= status <= 999
    ensures var m := HttpErrorMessage(status, text);
            |m| == 10 + |text| && m[..5] == "HTTP " && m[8..10] == ": " && m[10..] == text &&
            (forall i | 5 <= i < 8 :: IsDigit(m[i])) && DecimalValue(m[5..8]) == status
  {
    var digits := NatToString(status);
    ThreeDigits(status);
    var m := HttpErrorMessage(status, text);
    assert m == "HTTP " + digits + ": " + text;
    assert m[5..8] == digits;
    DecimalRoundTrip(status);
  }
}
