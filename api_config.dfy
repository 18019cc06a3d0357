/** The app's request wrapper: it rewrites a request's url and headers in
    place, hands the request to the HTTP client and classifies failures. The
    client, storage, the environment and the browser location are outside
    the model: what the wrapper reads from them is a `ClientEnv`, and the
    client is a function from the prepared request to its settlement. */
module ApiConfig {
  import opened Wrappers
  import opened Js
  import Basename

  datatype HttpMethod = GET | POST | PUT | DELETE | PATCH

  type Headers = map<string, string>

  const ContentType := "Content-Type"
  const Accept := "Accept"
  const Authorization := "Authorization"
  const Json := "application/json"
  const Multipart := "multipart/form-data"
  const InvalidTokenMessage := "Unauthorized: Invalid token"

  /** What the wrapper reads from outside: the stored access token and
      basename (`null` when never stored) and the configured API url
      (`undefined` when not configured). */
  datatype ClientEnv = ClientEnv(token: Option<string>, basename: Option<string>, apiUrl: Option<string>)

  /** A request's options as a value (`verb` is the `method` option); a
      missing flag is `false`. */
  datatype RequestConfig = RequestConfig(
    url: string,
    verb: HttpMethod,
    data: Option<JsValue>,
    headers: Option<Headers>,
    secure: bool,
    files: bool,
    exact: bool)

  /** The options object the caller passes and the wrapper rewrites. */
  class HttpOptions {
    var url: string
    var verb: HttpMethod
    var data: Option<JsValue>
    var headers: Option<Headers>
    var secure: bool
    var files: bool
    var exact: bool

    constructor(c: RequestConfig)
      ensures Config() == c
    {
      url, verb, data, headers := c.url, c.verb, c.data, c.headers;
      secure, files, exact := c.secure, c.files, c.exact;
    }

    function Config(): RequestConfig
      reads this
    {
      RequestConfig(url, verb, data, headers, secure, files, exact)
    }
  }

  datatype HttpResponse = HttpResponse(status: int, data: Option<JsValue>)

  /** Why the client rejected: a response with an error status, a request
      that got no response, a request that could not be set up, or a value
      that is not a client error at all. */
  datatype RequestError =
    | ResponseError(response: HttpResponse)
    | NoResponse
    | SetupError(message: string)
    | OtherError

  /** The only user-visible reactions to a failed request. */
  datatype ErrorAction = RedirectToLogin | FileSizeToast | NoAction

  /** How the returned promise settles: with the response, or rejected with
      `error?.response` after the error has been classified. */
  datatype Outcome =
    | Resolved(response: HttpResponse)
    | Rejected(action: ErrorAction, reason: Option<HttpResponse>)

  /** How a missing value reads when concatenated or interpolated: an
      unconfigured environment value is `undefined`, a token never stored is
      `null`, and a missing stored basename falls back (`|| ''`) to `''`. */
  const UndefinedString := "undefined"
  const NullString := "null"

  /** The url a non-exact request is sent to. */
  function PrefixedUrl(basename: Option<string>, apiUrl: Option<string>, url: string): string {
    basename.GetOr("") + "/" + apiUrl.GetOr(UndefinedString) + "/" + url
  }

  /** The headers a request is sent with: the two defaults, then the
      caller's headers over them, then the bearer token over everything when
      the request is secure. */
  function MergedHeaders(caller: Option<Headers>, files: bool, secure: bool, token: Option<string>): (r: Headers)
    ensures ContentType in r && Accept in r
    ensures caller.Some? && ContentType in caller.value ==> r[ContentType] == caller.value[ContentType]
    ensures (caller.None? || ContentType !in caller.value) ==> r[ContentType] == (if files then Multipart else Json)
    ensures caller.Some? && Accept in caller.value ==> r[Accept] == caller.value[Accept]
    ensures (caller.None? || Accept !in caller.value) ==> r[Accept] == Json
    ensures Authorization in r <==> secure || (caller.Some? && Authorization in caller.value)
    ensures secure ==> r[Authorization] == "Bearer " + token.GetOr(NullString)
    ensures !secure && caller.Some? && Authorization in caller.value ==>
      r[Authorization] == caller.value[Authorization]
    ensures forall k :: k != ContentType && k != Accept && k != Authorization ==>
      (k in r <==> caller.Some? && k in caller.value)
    ensures forall k :: k in r && k != ContentType && k != Accept && k != Authorization ==>
      r[k] == caller.value[k]
  {
    var merged := map[ContentType := if files then Multipart else Json, Accept := Json] + caller.GetOr(map[]);
    if secure then merged[Authorization := "Bearer " + token.GetOr(NullString)] else merged
  }

  /** The options as the wrapper leaves them just before sending. */
  function Prepare(c: RequestConfig, env: ClientEnv): (r: RequestConfig)
    ensures r.url == (if c.exact then c.url else PrefixedUrl(env.basename, env.apiUrl, c.url))
    ensures r.headers == Some(MergedHeaders(c.headers, c.files, c.secure, env.token))
    ensures r.verb == c.verb && r.data == c.data
    ensures r.secure == c.secure && r.files == c.files && r.exact == c.exact
  {
    c.(url := if c.exact then c.url else PrefixedUrl(env.basename, env.apiUrl, c.url),
       headers := Some(MergedHeaders(c.headers, c.files, c.secure, env.token)))
  }

  /** The body carries exactly the invalid-token message (`data?.message`). */
  predicate IsInvalidToken(data: Option<JsValue>) {
    data.Some? && data.value.JObject? && Get(Some(data.value.props), "message") == Some(JStr(InvalidTokenMessage))
  }

  /** `handleRequestErrors`: only a response error can cause a reaction. */
  function HandleRequestErrors(e: RequestError): (r: ErrorAction)
    ensures r == RedirectToLogin <==>
      e.ResponseError? && e.response.status == 401 && IsInvalidToken(e.response.data)
    ensures r == FileSizeToast <==> e.ResponseError? && e.response.status == 413
    ensures !e.ResponseError? ==> r == NoAction
  {
    match e
    case ResponseError(resp) =>
      if resp.status == 401 && IsInvalidToken(resp.data) then RedirectToLogin
      else if resp.status == 413 then FileSizeToast
      else NoAction
    case _ => NoAction
  }

  /** `error?.response`: present only on a response error. */
  function RejectionReason(e: RequestError): (r: Option<HttpResponse>)
    ensures r.Some? <==> e.ResponseError?
    ensures r.Some? ==> r.value == e.response
  {
    if e.ResponseError? then Some(e.response) else None
  }

  function Settle(result: Result<HttpResponse, RequestError>): Outcome {
    match result
    case Success(resp) => Resolved(resp)
    case Failure(e) => Rejected(HandleRequestErrors(e), RejectionReason(e))
  }

  /** `Request`: prefixes the url unless `exact`, rewrites the headers,
      adds the bearer token when `secure`, sends, and settles. */
  method Request(o: HttpOptions, env: ClientEnv, send: RequestConfig -> Result<HttpResponse, RequestError>)
    returns (outcome: Outcome)
    modifies o
    ensures o.Config() == Prepare(old(o.Config()), env)
    ensures outcome == Settle(send(o.Config()))
  {
    var token := env.token;
    if !o.exact {
      var basename := env.basename.GetOr("");
      o.url := basename + "/" + env.apiUrl.GetOr(UndefinedString) + "/" + o.url;
    }
    var headers := map[ContentType := if o.files then Multipart else Json, Accept := Json] + o.headers.GetOr(map[]);
    o.headers := Some(headers);
    if o.secure {
      o.headers := Some(o.headers.value[Authorization := "Bearer " + token.GetOr(NullString)]);
    }
    var result := send(o.Config());
    match result {
      case Success(resp) =>
        outcome := Resolved(resp);
      case Failure(e) =>
        var action := HandleRequestErrors(e);
        outcome := Rejected(action, RejectionReason(e));
    }
  }

  /** A non-exact url keeps the caller's url as its last segment and starts
      with the stored basename, when there is one. */
  lemma PrefixedUrlShape(basename: Option<string>, apiUrl: Option<string>, url: string)
    ensures var r := PrefixedUrl(basename, apiUrl, url);
      && |r| > |url| && r[|r| - |url| - 1..] == "/" + url
      && (basename.Some? ==> r[..|basename.value|] == basename.value)
      && (basename.None? ==> r[..1] == "/")
  {
    var r := PrefixedUrl(basename, apiUrl, url);
    var head := basename.GetOr("") + "/" + apiUrl.GetOr(UndefinedString);
    assert r == head + ("/" + url);
  }

  /** A request sent at a root mount: `getBasename` stores `/`, so the url
      starts with `//` and the browser reads the API url as a host name. */
  lemma RootMountDoubleSlash(apiUrl: Option<string>, url: string)
    ensures Basename.CleanPath("/") == "/"
    ensures PrefixedUrl(Some(Basename.CleanPath("/")), apiUrl, url)[..2] == "//"
  {
    assert Basename.RoutePaths[1..] == [];
  }

  /** With the router's own basename stored instead, the API url always sits
      under the same mount point the router uses, and a root mount gives a
      single leading slash. */
  lemma CorrectedMountUrl(pathname: string, apiUrl: Option<string>, url: string)
    ensures PrefixedUrl(Some(Basename.StoredBasename(pathname)), apiUrl, url)
      == Basename.RouterBasename(Basename.CleanPath(pathname)) + "/" + apiUrl.GetOr(UndefinedString) + "/" + url
    ensures PrefixedUrl(Some(Basename.StoredBasename("/")), apiUrl, url) == "/" + apiUrl.GetOr(UndefinedString) + "/" + url
  {
    assert Basename.RoutePaths[1..] == [];
  }
}
