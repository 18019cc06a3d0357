/** The two calls the views make: the model list, and one page of a model's
    documents, whose query string is built from optional parameters. */
module ModelsService {
  import opened Wrappers
  import opened Js
  import opened ApiConfig

  /** The optional page parameters (`undefined` when `None`). */
  datatype PageParams = PageParams(limit: Option<int>, skip: Option<int>, sort: Option<string>)

  /** The name/value pairs of a query, in append order. */
  type Query = seq<(string, string)>

  /** Where each parameter may appear: limit, then skip, then sort. */
  function Rank(key: string): int {
    if key == "limit" then 0 else if key == "skip" then 1 else if key == "sort" then 2 else 3
  }

  predicate HasKey(q: Query, key: string) {
    exists i :: 0 <= i < |q| && q[i].0 == key
  }

  /** `params?.limit` is truthy: defined and non-zero. */
  predicate LimitSent(params: Option<PageParams>) {
    params.Some? && params.value.limit.Some? && params.value.limit.value != 0
  }

  /** `params?.skip !== undefined`. */
  predicate SkipSent(params: Option<PageParams>) {
    params.Some? && params.value.skip.Some?
  }

  /** `params?.sort` is truthy: defined and non-empty. */
  predicate SortSent(params: Option<PageParams>) {
    params.Some? && params.value.sort.Some? && params.value.sort.value != ""
  }

  /** The query the page parameters produce. */
  function QueryOf(params: Option<PageParams>): (q: Query)
    ensures |q| <= 3
    ensures HasKey(q, "limit") <==> LimitSent(params)
    ensures HasKey(q, "skip") <==> SkipSent(params)
    ensures HasKey(q, "sort") <==> SortSent(params)
    ensures forall i :: 0 <= i < |q| && q[i].0 == "limit" ==> q[i].1 == IntToString(params.value.limit.value)
    ensures forall i :: 0 <= i < |q| && q[i].0 == "skip" ==> q[i].1 == IntToString(params.value.skip.value)
    ensures forall i :: 0 <= i < |q| && q[i].0 == "sort" ==> q[i].1 == params.value.sort.value
    ensures forall i :: 0 <= i < |q| ==> Rank(q[i].0) < 3
    ensures forall i, j :: 0 <= i < j < |q| ==> Rank(q[i].0) < Rank(q[j].0)
  {
    var l := if LimitSent(params) then [("limit", IntToString(params.value.limit.value))] else [];
    var s := if SkipSent(params) then [("skip", IntToString(params.value.skip.value))] else [];
    var t := if SortSent(params) then [("sort", params.value.sort.value)] else [];
    var q := l + s + t;
    assert LimitSent(params) ==> q[0].0 == "limit";
    assert SkipSent(params) ==> q[|l|].0 == "skip";
    assert SortSent(params) ==> q[|l| + |s|].0 == "sort";
    q
  }

  /** The form-encoded query string: `name=value` pairs joined with `&`,
      each name and value passed through the form encoder. */
  function Serialize(q: Query, encode: string -> string): string {
    Join(seq(|q|, i requires 0 <= i < |q| => encode(q[i].0) + "=" + encode(q[i].1)), "&")
  }

  /** A query string is empty exactly when there are no pairs. */
  lemma SerializeEmptyIff(q: Query, encode: string -> string)
    ensures Serialize(q, encode) == "" <==> q == []
  {
    var parts := seq(|q|, i requires 0 <= i < |q| => encode(q[i].0) + "=" + encode(q[i].1));
    if q != [] {
      JoinStartsWithFirst(parts, "&");
      assert parts[0][|encode(q[0].0)|] == '=';
    }
  }

  /** A join starts with its first part. */
  lemma JoinStartsWithFirst(parts: seq<string>, sep: string)
    requires |parts| > 0
    ensures |parts[0]| <= |Join(parts, sep)| && Join(parts, sep)[..|parts[0]|] == parts[0]
  {
  }

  /** The path of a data request, before the request wrapper prefixes it. */
  function ModelDataPath(modelName: string, params: Option<PageParams>, encode: string -> string): string {
    var queryString := Serialize(QueryOf(params), encode);
    "models/" + modelName + "/data" + (if queryString != "" then "?" + queryString else "")
  }

  /** Without parameters the path has no `?`; otherwise the serialized query
      follows a `?`. */
  lemma ModelDataPathShape(modelName: string, params: Option<PageParams>, encode: string -> string)
    ensures QueryOf(params) == [] ==> ModelDataPath(modelName, params, encode) == "models/" + modelName + "/data"
    ensures QueryOf(params) != [] ==>
      ModelDataPath(modelName, params, encode) == "models/" + modelName + "/data?" + Serialize(QueryOf(params), encode)
  {
    SerializeEmptyIff(QueryOf(params), encode);
  }

  /** The options both calls send: a secure GET with no body and no caller
      headers. */
  function SecureGet(url: string): RequestConfig {
    RequestConfig(url, GET, None, None, true, false, false)
  }

  /** `GetAllModels`: a secure GET of `models`. */
  method GetAllModels(env: ClientEnv, send: RequestConfig -> Result<HttpResponse, RequestError>)
    returns (outcome: Outcome)
    ensures outcome == Settle(send(Prepare(SecureGet("models"), env)))
  {
    var options := new HttpOptions(SecureGet("models"));
    outcome := Request(options, env, send);
  }

  /** `GetModelData`: appends the parameters that are set, in order, builds
      the path and sends a secure GET of it. */
  method GetModelData(modelName: string, params: Option<PageParams>, encode: string -> string,
                      env: ClientEnv, send: RequestConfig -> Result<HttpResponse, RequestError>)
    returns (outcome: Outcome)
    ensures outcome == Settle(send(Prepare(SecureGet(ModelDataPath(modelName, params, encode)), env)))
  {
    var queryParams: Query := [];
    if LimitSent(params) {
      queryParams := queryParams + [("limit", IntToString(params.value.limit.value))];
    }
    if SkipSent(params) {
      queryParams := queryParams + [("skip", IntToString(params.value.skip.value))];
    }
    if SortSent(params) {
      queryParams := queryParams + [("sort", params.value.sort.value)];
    }
    assert queryParams == QueryOf(params);
    var queryString := Serialize(queryParams, encode);
    var url := "models/" + modelName + "/data" + (if queryString != "" then "?" + queryString else "");
    var options := new HttpOptions(SecureGet(url));
    outcome := Request(options, env, send);
  }

  /** Both calls are secure GETs: the prepared request carries the bearer
      token, JSON content negotiation, and the url under the API prefix. */
  lemma SecureGetPrepared(url: string, env: ClientEnv)
    ensures var r := Prepare(SecureGet(url), env);
      && r.verb == GET && r.secure
      && r.url == PrefixedUrl(env.basename, env.apiUrl, url)
      && r.headers == Some(map[ContentType := Json, Accept := Json, Authorization := "Bearer " + env.token.GetOr(NullString)])
  {
    var h := MergedHeaders(None, false, true, env.token);
    var expected := map[ContentType := Json, Accept := Json, Authorization := "Bearer " + env.token.GetOr(NullString)];
    assert h[ContentType] == Json && h[Accept] == Json && h[Authorization] == "Bearer " + env.token.GetOr(NullString);
    assert h.Keys == expected.Keys;
    assert forall k :: k in h ==> h[k] == expected[k];
    assert h == expected;
    assert Prepare(SecureGet(url), env).headers == Some(h);
  }
}
