/**
 * The shared request helper (src/utils/apiClient.js): default headers with
 * an optional bearer token, the object spreads that merge the caller's
 * options over them, the three verb helpers, and the mapping of a response
 * to a returned value or a raised error. `fetch` is replaced by the reply
 * it produced.
 */
module ApiClient {
  import opened Wrappers
  import opened Json
  import opened Storage

  type Headers = map<string, string>

  /** The caller's `options`; `None` is a property the object does not have. */
  datatype Options = Options(headers: Option<Headers>, verb: Option<string>, body: Option<string>)

  const NoOptions := Options(None, None, None)

  /** What reaches `fetch`; a missing `method` means GET to `fetch`. */
  datatype Request = Request(url: string, verb: Option<string>, headers: Headers, body: Option<string>)

  /** `defaultHeaders`: JSON content, plus the bearer token when one is stored and truthy. */
  function DefaultHeaders(token: Option<string>): (h: Headers)
    ensures "Content-Type" in h && h["Content-Type"] == "application/json"
    ensures "Authorization" in h <==> token.Some? && token.value != ""
    ensures "Authorization" in h ==> h["Authorization"] == "Bearer " + token.value
    ensures h.Keys <= {"Content-Type", "Authorization"}
  {
    var h := map["Content-Type" := "application/json"];
    if token.Some? && token.value != "" then h["Authorization" := "Bearer " + token.value] else h
  }

  /** `{ ...a, ...b }` on two header objects: `b` wins on shared keys. */
  function Spread(a: Headers, b: Headers): (r: Headers)
    ensures r.Keys == a.Keys + b.Keys
    ensures forall k :: k in b ==> r[k] == b[k]
    ensures forall k :: k in a && k !in b ==> r[k] == a[k]
  {
    a + b
  }

  /**
   * `{ headers: { ...defaultHeaders, ...options.headers }, ...options }`:
   * the merged headers, then every property of `options` copied over them.
   */
  function BuildRequest(endpoint: string, token: Option<string>, options: Options): (q: Request)
    ensures q.url == endpoint && q.verb == options.verb && q.body == options.body
    ensures options.headers.Some? ==> q.headers == options.headers.value
    ensures options.headers.None? ==> "Content-Type" in q.headers && ("Authorization" in q.headers <==> token.Some? && token.value != "")
  {
    var merged := Spread(DefaultHeaders(token), if options.headers.Some? then options.headers.value else map[]);
    var headers := if options.headers.Some? then options.headers.value else merged;
    Request(endpoint, options.verb, headers, options.body)
  }

  /**
   * Because `...options` comes last, caller headers replace the merged ones
   * entirely: the request carries exactly the caller's headers, without the
   * content type or the token. Without caller headers it carries the defaults.
   */
  lemma CallerHeadersReplaceDefaults(endpoint: string, token: Option<string>, options: Options)
    ensures options.headers.Some? ==> BuildRequest(endpoint, token, options).headers == options.headers.value
    ensures options.headers.None? ==> BuildRequest(endpoint, token, options).headers == DefaultHeaders(token)
  {
    if options.headers.None? {
      assert DefaultHeaders(token) + map[] == DefaultHeaders(token);
    }
  }

  /** Without caller headers the token is sent exactly when it is truthy, as `'Bearer ' + token`. */
  lemma AuthorizationRule(endpoint: string, token: Option<string>)
    ensures var h := BuildRequest(endpoint, token, NoOptions).headers;
      && ("Authorization" in h <==> token.Some? && token.value != "")
      && ("Authorization" in h ==> h["Authorization"] == "Bearer " + token.value)
      && "Content-Type" in h && h["Content-Type"] == "application/json"
  {
    CallerHeadersReplaceDefaults(endpoint, token, NoOptions);
  }

  /** `{ method: verb, body: encoded, ...options }`: the helper's fields, each overridden by a present option. */
  function WithVerb(defaultVerb: string, encoded: Option<string>, options: Options): (o: Options)
    ensures o.headers == options.headers
    ensures o.verb == Some(if options.verb.Some? then options.verb.value else defaultVerb)
    ensures o.body == if options.body.Some? then options.body else encoded
  {
    Options(options.headers,
            if options.verb.Some? then options.verb else Some(defaultVerb),
            if options.body.Some? then options.body else encoded)
  }

  /** `get(endpoint, options)`. */
  function GetRequest(endpoint: string, token: Option<string>, options: Options): (q: Request)
    ensures q.url == endpoint && q.verb == Some(options.verb.GetOr("GET")) && q.body == options.body
  {
    BuildRequest(endpoint, token, WithVerb("GET", None, options))
  }

  /** `post(endpoint, body, options)`, with `encoded` the `JSON.stringify(body)` text. */
  function PostRequest(endpoint: string, token: Option<string>, encoded: string, options: Options): (q: Request)
    ensures q.url == endpoint && q.verb == Some(options.verb.GetOr("POST")) && q.body == Some(options.body.GetOr(encoded))
  {
    BuildRequest(endpoint, token, WithVerb("POST", Some(encoded), options))
  }

  /** `put(endpoint, body, options)`, with `encoded` the `JSON.stringify(body)` text. */
  function PutRequest(endpoint: string, token: Option<string>, encoded: string, options: Options): (q: Request)
    ensures q.url == endpoint && q.verb == Some(options.verb.GetOr("PUT")) && q.body == Some(options.body.GetOr(encoded))
  {
    BuildRequest(endpoint, token, WithVerb("PUT", Some(encoded), options))
  }

  /** Each helper sends its own verb and body unless the caller's options name others. */
  lemma VerbsAndBodies(endpoint: string, token: Option<string>, encoded: string, options: Options)
    ensures GetRequest(endpoint, token, options).verb == Some(options.verb.GetOr("GET"))
    ensures PostRequest(endpoint, token, encoded, options).verb == Some(options.verb.GetOr("POST"))
    ensures PutRequest(endpoint, token, encoded, options).verb == Some(options.verb.GetOr("PUT"))
    ensures GetRequest(endpoint, token, options).body == options.body
    ensures PostRequest(endpoint, token, encoded, options).body == Some(options.body.GetOr(encoded))
    ensures PutRequest(endpoint, token, encoded, options).body == Some(options.body.GetOr(encoded))
    ensures GetRequest(endpoint, token, options).url == endpoint
  {
  }

  /** What `fetch` and `response.json()` gave: a throw, or the status flag and the parsed body. */
  datatype Reply = Threw(reason: string) | Answered(ok: bool, data: Json)

  /** What `apiCall` settles to: the parsed body, or a rejection carrying the error's message. */
  datatype Outcome = Returned(data: Json) | Raised(message: Json)

  const RequestFailed := "API request failed"

  /**
   * The response mapping: `data` on success, else `new Error(data.message ||
   * 'API request failed')`. A `null` body makes `data.message` itself throw
   * a `TypeError`, which is what the call then rejects with.
   */
  function OutcomeOf(reply: Reply): (o: Outcome)
    ensures reply.Answered? && reply.ok ==> o == Returned(reply.data)
    ensures reply.Answered? && !reply.ok ==> o.Raised?
    ensures reply.Answered? && !reply.ok && reply.data == JNull ==> o == Raised(JString(NullReadError("message")))
    ensures reply.Answered? && !reply.ok && Present(Get(reply.data, "message")) ==>
      o == Raised(Get(reply.data, "message").value)
    ensures reply.Answered? && !reply.ok && reply.data != JNull && !Present(Get(reply.data, "message")) ==>
      o == Raised(JString(RequestFailed))
    ensures reply.Threw? ==> o == Raised(JString(reply.reason))
  {
    match reply
    case Threw(reason) => Raised(JString(reason))
    case Answered(ok, data) =>
      if ok then Returned(data)
      else if data == JNull then Raised(JString(NullReadError("message")))
      else
        var message := Get(data, "message");
        if Present(message) then Raised(message.value) else Raised(JString(RequestFailed))
  }

  /**
   * `apiCall(endpoint, options)`: reads the stored token, builds the request
   * and maps the reply. It has no `modifies` clause: storage is only read.
   */
  method ApiCall(store: LocalStorage, endpoint: string, options: Options, reply: Reply)
    returns (request: Request, outcome: Outcome)
    ensures request == BuildRequest(endpoint, store.GetItem(TokenKey), options)
    ensures outcome == OutcomeOf(reply)
    ensures outcome.Returned? <==> reply.Answered? && reply.ok
  {
    var token := store.GetItem(TokenKey);
    request := BuildRequest(endpoint, token, options);
    outcome := OutcomeOf(reply);
  }
}
