/**
 * `src/utils/cors.ts`: the CORS helper. A handler turns an endpoint into a
 * URL (directly, through the development proxy, or behind a public CORS
 * proxy in production), builds the request headers and the request options,
 * and turns the fetch outcome into a response or an error message.
 */
module Cors {
  import opened Wrappers
  import opened Strings
  import opened Environment

  /** `CorsOptions`; an absent optional field is `None`. */
  datatype Options = Options(proxyUrl: Option<string>, apiBaseUrl: string, apiKey: Option<string>,
                             headers: Option<map<string, string>>)

  /** `getApiUrl(endpoint)`, with `process.env` as a parameter. */
  function ApiUrl(o: Options, env: Env, endpoint: string): (r: string)
    ensures EndsWith(r, endpoint)
    ensures IsDevelopment(env) && StartsWith(endpoint, "/api") ==> r == endpoint
    ensures !IsProduction(env) && !(IsDevelopment(env) && StartsWith(endpoint, "/api")) ==> r == o.apiBaseUrl + endpoint
    ensures !Truthy(o.proxyUrl) && !(IsDevelopment(env) && StartsWith(endpoint, "/api")) ==> r == o.apiBaseUrl + endpoint
  {
    if IsDevelopment(env) && StartsWith(endpoint, "/api") then
      assert endpoint[|endpoint| - |endpoint|..] == endpoint;
      endpoint
    else if Truthy(o.proxyUrl) && IsProduction(env) then
      var r := o.proxyUrl.value + "/" + o.apiBaseUrl + endpoint;
      assert r[|r| - |endpoint|..] == endpoint;
      r
    else
      var r := o.apiBaseUrl + endpoint;
      assert r[|r| - |endpoint|..] == endpoint;
      r
  }

  /**
   * In production a configured proxy only wraps the direct URL: the proxied
   * URL is the proxy, a slash, and what the handler without a proxy requests.
   */
  lemma ProxyWraps(o: Options, env: Env, endpoint: string)
    requires IsProduction(env) && Truthy(o.proxyUrl)
    ensures ApiUrl(o, env, endpoint) == o.proxyUrl.value + "/" + ApiUrl(o.(proxyUrl := None), env, endpoint)
  {
  }

  const ApiKeyHeader: string := "X-API-Key"

  const BaseHeaders: map<string, string> := map["Content-Type" := "application/json", "Accept" := "application/json"]

  /** The custom headers of the options, none when absent. */
  function Custom(o: Options): map<string, string> {
    if o.headers.Some? then o.headers.value else map[]
  }

  /**
   * `getHeaders()`: the two JSON headers, overwritten by the custom headers,
   * and the API key header on top whenever a key is set.
   */
  function Headers(o: Options): (h: map<string, string>)
    ensures forall k :: k in h <==> k in BaseHeaders || k in Custom(o) || (k == ApiKeyHeader && Truthy(o.apiKey))
    ensures Truthy(o.apiKey) ==> h[ApiKeyHeader] == o.apiKey.value
    ensures forall k :: k in Custom(o) && !(k == ApiKeyHeader && Truthy(o.apiKey)) ==> h[k] == Custom(o)[k]
    ensures forall k :: k in BaseHeaders && k !in Custom(o) ==> h[k] == BaseHeaders[k]
  {
    var merged := BaseHeaders + Custom(o);
    if Truthy(o.apiKey) then merged[ApiKeyHeader := o.apiKey.value] else merged
  }

  /**
   * Without a custom `X-API-Key`, the API key header is present exactly when a key
   * is set; a custom `X-API-Key` can only be replaced, never removed.
   */
  lemma ApiKeyHeaderPresence(o: Options)
    ensures ApiKeyHeader !in Custom(o) ==> (ApiKeyHeader in Headers(o) <==> Truthy(o.apiKey))
    ensures ApiKeyHeader in Custom(o) ==> ApiKeyHeader in Headers(o)
  {
    assert ApiKeyHeader !in BaseHeaders;
  }

  /** The fields of `RequestInit` the handler sets; `None` is a field the caller leaves out. */
  datatype RequestInit = RequestInit(httpMethod: Option<string>, headers: Option<map<string, string>>,
                                     mode: Option<string>, cache: Option<string>)

  const NoOptions: RequestInit := RequestInit(None, None, None, None)

  /** `{ ...defaults, ...overrides }`: every field the overrides give wins. */
  function Merge(defaults: RequestInit, overrides: RequestInit): (r: RequestInit)
    ensures r.httpMethod == if overrides.httpMethod.Some? then overrides.httpMethod else defaults.httpMethod
    ensures r.headers == if overrides.headers.Some? then overrides.headers else defaults.headers
    ensures r.mode == if overrides.mode.Some? then overrides.mode else defaults.mode
    ensures r.cache == if overrides.cache.Some? then overrides.cache else defaults.cache
  {
    RequestInit(
      if overrides.httpMethod.Some? then overrides.httpMethod else defaults.httpMethod,
      if overrides.headers.Some? then overrides.headers else defaults.headers,
      if overrides.mode.Some? then overrides.mode else defaults.mode,
      if overrides.cache.Some? then overrides.cache else defaults.cache)
  }

  /** Spreading nothing keeps the defaults. */
  lemma MergeNothing(defaults: RequestInit)
    ensures Merge(defaults, NoOptions) == defaults
  {
  }

  /** Spreading the same overrides twice is spreading them once. */
  lemma MergeIdempotent(defaults: RequestInit, overrides: RequestInit)
    ensures Merge(Merge(defaults, overrides), overrides) == Merge(defaults, overrides)
  {
  }

  /** Spreading one set of overrides after another is spreading their merge. */
  lemma MergeAssociative(defaults: RequestInit, first: RequestInit, second: RequestInit)
    ensures Merge(Merge(defaults, first), second) == Merge(defaults, Merge(first, second))
  {
  }

  /** `requestOptions` in `makeRequest`: `GET`, the handler's headers, `cors`, `default` cache, then the caller's. */
  function RequestOptions(o: Options, options: RequestInit): (r: RequestInit)
    ensures r.httpMethod.Some? && r.headers.Some? && r.mode.Some? && r.cache.Some?
    ensures options.httpMethod.None? ==> r.httpMethod == Some("GET")
    ensures options.headers.None? ==> r.headers == Some(Headers(o))
    ensures options.mode.None? ==> r.mode == Some("cors")
    ensures options.cache.None? ==> r.cache == Some("default")
    ensures Merge(r, options) == r
  {
    Merge(RequestInit(Some("GET"), Some(Headers(o)), Some("cors"), Some("default")), options)
  }

  /** A caller that gives every field gets exactly its own options. */
  lemma CallerOptionsWin(o: Options, options: RequestInit)
    requires options.httpMethod.Some? && options.headers.Some? && options.mode.Some? && options.cache.Some?
    ensures RequestOptions(o, options) == options
  {
  }

  /** What `fetch` does with a request: a response, or a thrown error. */
  datatype FetchOutcome =
    | Response(ok: bool, status: int, statusText: string)
    | Thrown(isTypeError: bool, message: string)

  const CorsErrorMessage: string :=
    "CORS error: " + "Unable to access the API. Consider using a CORS proxy or configuring server-side proxy."

  /** The error `makeRequest` raises for a response that is not `ok`. */
  function HttpStatusMessage(status: int, statusText: string): string {
    "HTTP " + IntToString(status) + ": " + statusText
  }

  /**
   * `makeRequest(endpoint, options)` with the network call as `fetch`, applied
   * to the URL and options the handler computes. A response that is not `ok`
   * raises an `Error`, which the handler's own `catch` passes on unchanged;
   * only a `TypeError` mentioning CORS is rewritten.
   */
  function MakeRequest(o: Options, env: Env, endpoint: string, options: RequestInit,
                       fetch: (string, RequestInit) -> FetchOutcome): (r: Result<FetchOutcome, string>)
    ensures var out := fetch(ApiUrl(o, env, endpoint), RequestOptions(o, options));
            && (r.Success? <==> out.Response? && out.ok)
            && (r.Success? ==> r.value == out)
            && (out.Response? && !out.ok ==> r == Failure(HttpStatusMessage(out.status, out.statusText)))
            && (out.Thrown? && out.isTypeError && Contains(out.message, "CORS") ==> r == Failure(CorsErrorMessage))
            && (out.Thrown? && !(out.isTypeError && Contains(out.message, "CORS")) ==> r == Failure(out.message))
  {
    var out := fetch(ApiUrl(o, env, endpoint), RequestOptions(o, options));
    match out
    case Response(ok, status, statusText) =>
      if ok then Success(out) else Failure(HttpStatusMessage(status, statusText))
    case Thrown(isTypeError, message) =>
      if isTypeError && Contains(message, "CORS") then Failure(CorsErrorMessage) else Failure(message)
  }

  /**
   * The CORS advice is reserved for a `TypeError` that mentions CORS: a
   * response that is not `ok`, or any other thrown error whose message is
   * not the advice itself, never produces it.
   */
  lemma CorsAdviceOnlyForCorsErrors(o: Options, env: Env, endpoint: string, options: RequestInit,
                                    fetch: (string, RequestInit) -> FetchOutcome)
    ensures var out := fetch(ApiUrl(o, env, endpoint), RequestOptions(o, options));
            MakeRequest(o, env, endpoint, options, fetch) == Failure(CorsErrorMessage) <==>
              out.Thrown? && ((out.isTypeError && Contains(out.message, "CORS")) || out.message == CorsErrorMessage)
  {
    var out := fetch(ApiUrl(o, env, endpoint), RequestOptions(o, options));
    if out.Response? {
      HttpStatusNotAdvice(out.status, out.statusText);
    }
  }

  /** An HTTP status message starts with `HTTP`, the advice with `CORS`. */
  lemma HttpStatusNotAdvice(status: int, statusText: string)
    ensures HttpStatusMessage(status, statusText) != CorsErrorMessage
  {
    assert HttpStatusMessage(status, statusText)[..4] == "HTTP";
    assert CorsErrorMessage[..4] == "CORS";
  }

  /** What `getCorsConfig()` reports. */
  datatype CorsConfig = CorsConfig(needsProxy: bool, proxyUrl: Option<string>, isDevelopment: bool)

  /** Whether the development server's own proxy is in use. */
  predicate HasDevProxy(env: Env) {
    IsDevelopment(env) && Get(env, "REACT_APP_PROXY_ENABLED") != Some("false")
  }

  /** `getCorsConfig()`: a public proxy is needed when one is configured and the development proxy is not in use. */
  function GetCorsConfig(env: Env): (c: CorsConfig)
    ensures c.needsProxy <==> Truthy(Get(env, "REACT_APP_CORS_PROXY_URL")) && !HasDevProxy(env)
    ensures c.proxyUrl == Get(env, "REACT_APP_CORS_PROXY_URL")
    ensures c.isDevelopment <==> IsDevelopment(env)
  {
    var proxy := Get(env, "REACT_APP_CORS_PROXY_URL");
    CorsConfig(!HasDevProxy(env) && Truthy(proxy), proxy, IsDevelopment(env))
  }

  /** In development a proxy is reported as needed only when the development proxy is switched off. */
  lemma DevelopmentNeedsProxyOnlyWhenDisabled(env: Env)
    requires IsDevelopment(env) && GetCorsConfig(env).needsProxy
    ensures Get(env, "REACT_APP_PROXY_ENABLED") == Some("false")
  {
  }

  const UserAgent: string := "NewsApp/1.0"
  const AcceptLanguage: string := "en-US,en;q=0.9"

  /** `createCorsHandler(apiBaseUrl, apiKey)`: the configured proxy and two identifying headers. */
  function CreateCorsHandler(env: Env, apiBaseUrl: string, apiKey: Option<string>): (o: Options)
    ensures o.apiBaseUrl == apiBaseUrl && o.apiKey == apiKey
    ensures o.proxyUrl == GetCorsConfig(env).proxyUrl
    ensures Custom(o) == map["User-Agent" := UserAgent, "Accept-Language" := AcceptLanguage]
  {
    Options(GetCorsConfig(env).proxyUrl, apiBaseUrl, apiKey,
            Some(map["User-Agent" := UserAgent, "Accept-Language" := AcceptLanguage]))
  }

  /**
   * In production a created handler goes through the proxy exactly when the
   * configuration says a proxy is needed.
   */
  lemma HandlerProxiesWhenNeeded(env: Env, apiBaseUrl: string, apiKey: Option<string>, endpoint: string)
    requires IsProduction(env)
    ensures var url := ApiUrl(CreateCorsHandler(env, apiBaseUrl, apiKey), env, endpoint);
            url == apiBaseUrl + endpoint <==> !GetCorsConfig(env).needsProxy
  {
    var o := CreateCorsHandler(env, apiBaseUrl, apiKey);
    assert !IsDevelopment(env);
    if Truthy(o.proxyUrl) {
      assert |ApiUrl(o, env, endpoint)| > |apiBaseUrl + endpoint|;
    }
  }

  /** The headers of a created handler: the two JSON ones, the two identifying ones, and the key when set. */
  lemma HandlerHeaders(env: Env, apiBaseUrl: string, apiKey: Option<string>)
    ensures var h := Headers(CreateCorsHandler(env, apiBaseUrl, apiKey));
            && h.Keys == {"Content-Type", "Accept", "User-Agent", "Accept-Language"} + (if Truthy(apiKey) then {ApiKeyHeader} else {})
            && h["User-Agent"] == UserAgent && h["Accept-Language"] == AcceptLanguage
            && h["Content-Type"] == "application/json" && h["Accept"] == "application/json"
  {
    var o := CreateCorsHandler(env, apiBaseUrl, apiKey);
    assert "Content-Type" !in Custom(o) && "Accept" !in Custom(o);
  }
}
