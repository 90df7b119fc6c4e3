/**
 * `src/services/apiService.ts`: the archive adapter. It resolves its
 * configuration from the environment, asks the NY Times Archive API for one
 * month (or generates a synthetic month in mock mode), checks the shape of
 * what came back, maps failures to user-facing messages and falls back to
 * synthetic data when the real archive cannot be reached.
 *
 * The network is the function `fetch`: it receives the exact URL the adapter
 * requests and says what happened. `Date.now()` is the parameter `now`, and
 * the random draws of the generator are the parameter `draws`.
 */
module ApiService {
  import opened Wrappers
  import opened Strings
  import opened Sorting
  import opened NewsTypes
  import opened Environment
  import opened MockNews
  import opened Sequences

  /** `ApiConfig`; an unset proxy is the empty string. */
  datatype Config = Config(baseUrl: string, apiKey: string, useMock: bool, corsProxy: string)

  const DefaultBaseUrl: string := "https://api.nytimes.com/svc"

  /** The constructor: each field read from `process.env` with its fallback. */
  function ResolveConfig(env: Env): (c: Config)
    ensures c.useMock <==> Get(env, "REACT_APP_MOCK_API") == Some("true") || c.apiKey == ""
    ensures c.apiKey == "" <==> !Truthy(Get(env, "REACT_APP_NY_TIMES_API_KEY"))
    ensures c.apiKey != "" ==> c.apiKey == env.vars["REACT_APP_NY_TIMES_API_KEY"]
    ensures c.baseUrl != "" && c.baseUrl == GetOr(env, "REACT_APP_API_BASE_URL", DefaultBaseUrl)
    ensures c.corsProxy == GetOr(env, "REACT_APP_CORS_PROXY_URL", "")
  {
    var key := GetOr(env, "REACT_APP_NY_TIMES_API_KEY", "");
    Config(
      GetOr(env, "REACT_APP_API_BASE_URL", DefaultBaseUrl),
      key,
      Get(env, "REACT_APP_MOCK_API") == Some("true") || !Truthy(Get(env, "REACT_APP_NY_TIMES_API_KEY")),
      GetOr(env, "REACT_APP_CORS_PROXY_URL", ""))
  }

  /** A freshly resolved configuration never asks the real archive without a key. */
  lemma RealModeHasKey(env: Env)
    ensures !ResolveConfig(env).useMock ==> ResolveConfig(env).apiKey != ""
    ensures !Truthy(Get(env, "REACT_APP_NY_TIMES_API_KEY")) ==> ResolveConfig(env).useMock
  {
  }

  /** `setMockMode(flag)`: the flag changes and nothing else does. */
  function SetMockMode(c: Config, flag: bool): (r: Config)
    ensures r.useMock == flag
    ensures r.baseUrl == c.baseUrl && r.apiKey == c.apiKey && r.corsProxy == c.corsProxy
  {
    c.(useMock := flag)
  }

  // ---------------------------------------------------------------------
  // Requests
  // ---------------------------------------------------------------------

  /** What one `fetch` of a URL produced. */
  datatype Transport =
    | Delivered(envelope: Envelope)    // a 2xx response whose body decoded as JSON
    | HttpFailure(status: int)         // a response that is not `ok`
    | Rejected(message: string)        // `fetch` or `response.json()` threw an `Error` with this message

  /** `/archive/v1/<year>/<MM>.json?api-key=<key>`. */
  function ArchivePath(year: int, month: Month, key: string): string {
    "/archive/v1/" + (IntToString(year) + "/" + MonthQuery(month, key))
  }

  /** `<MM>.json?api-key=<key>`. */
  function MonthQuery(month: Month, key: string): string {
    PadStart2(month) + ".json?api-key=" + key
  }

  /**
   * The URL `fetchRealNews` hands to `makeRequest`: the development server's
   * `/api` proxy route in development, the configured base URL otherwise.
   */
  function ArchiveRequest(c: Config, env: Env, year: int, month: Month): string {
    if IsDevelopment(env) then "/api" + ArchivePath(year, month, c.apiKey)
    else c.baseUrl + ArchivePath(year, month, c.apiKey)
  }

  /** `makeRequest`'s rewrite: a configured proxy prefixes every URL not already under `/api`. */
  function Proxied(c: Config, url: string): (r: string)
    ensures StartsWith(url, "/api") || c.corsProxy == "" ==> r == url
    ensures !StartsWith(url, "/api") && c.corsProxy != "" ==> r == c.corsProxy + "/" + url
  {
    if c.corsProxy != "" && !StartsWith(url, "/api") then c.corsProxy + "/" + url else url
  }

  /** The URL actually fetched for a month. */
  function RequestUrl(c: Config, env: Env, year: int, month: Month): (r: string)
    ensures IsDevelopment(env) ==> r == "/api" + ArchivePath(year, month, c.apiKey)
    ensures !IsDevelopment(env) && c.corsProxy == "" ==> r == c.baseUrl + ArchivePath(year, month, c.apiKey)
    ensures !IsDevelopment(env) ==> r == Proxied(c, c.baseUrl + ArchivePath(year, month, c.apiKey))
  {
    var url := ArchiveRequest(c, env, year, month);
    assert IsDevelopment(env) ==> url[..4] == "/api";
    Proxied(c, url)
  }

  const MissingKeyMessage: string := "NY Times API key is required for real API calls"
  const InvalidShapeMessage: string := "Invalid API " + "response structure"
  const HttpErrorPrefix: string := "HTTP error! status: "
  const InvalidKeyMessage: string := "Invalid API key or unauthorized access. Please check your NY Times API key."
  const RateLimitMessage: string := "Rate limit exceeded. Please wait before making more requests."
  const ForbiddenMessage: string := "Access forbidden. Please ensure the Archive API is enabled in your NY Times developer account."
  const FailurePrefix: string := "Failed to fetch news from NY Times API: "

  /** The message `makeRequest` throws for a response that is not `ok`. */
  function HttpErrorMessage(status: int): string {
    HttpErrorPrefix + IntToString(status)
  }

  /**
   * The body of the `try` in `fetchRealNews`: the request and the shape
   * check. A body whose `response` is not an object or has no `docs` is
   * rejected; `docs` that is not an array makes `.filter` throw.
   */
  function Settle(outcome: Transport): (r: Result<Envelope, string>)
    ensures r.Success? <==> outcome.Delivered? && DocsOf(outcome.envelope).Some?
    ensures r.Success? ==> r.value == outcome.envelope
    ensures outcome.HttpFailure? ==> r == Failure(HttpErrorMessage(outcome.status))
    ensures outcome.Rejected? ==> r == Failure(outcome.message)
  {
    match outcome
    case HttpFailure(status) => Failure(HttpErrorMessage(status))
    case Rejected(message) => Failure(message)
    case Delivered(e) =>
      if !e.Envelope? || !e.response.Body? || e.response.docs.DocsAbsent? then
        Failure(InvalidShapeMessage)
      else if e.response.docs.DocsNotAList? then
        Failure(e.response.docs.typeError)
      else
        Success(e)
  }

  /** The `catch` of `fetchRealNews`: status codes in the message are checked in the order 401, 429, 403. */
  function MapFailure(message: string): (r: string)
    ensures Contains(message, "401") ==> r == InvalidKeyMessage
    ensures !Contains(message, "401") && Contains(message, "429") ==> r == RateLimitMessage
    ensures !Contains(message, "401") && !Contains(message, "429") && Contains(message, "403") ==> r == ForbiddenMessage
    ensures !Contains(message, "401") && !Contains(message, "429") && !Contains(message, "403") ==>
              r == FailurePrefix + message
  {
    if Contains(message, "401") then InvalidKeyMessage
    else if Contains(message, "429") then RateLimitMessage
    else if Contains(message, "403") then ForbiddenMessage
    else FailurePrefix + message
  }

  /** A body without `docs` is reported under the generic prefix: its message names no status code. */
  lemma InvalidShapeMapped()
    ensures MapFailure(InvalidShapeMessage) == FailurePrefix + InvalidShapeMessage
  {
    NoDigitsAppend("Invalid API ", "response structure");
    NoNumeralWithoutDigits(InvalidShapeMessage, "401");
    NoNumeralWithoutDigits(InvalidShapeMessage, "429");
    NoNumeralWithoutDigits(InvalidShapeMessage, "403");
  }

  /**
   * An HTTP failure with a three-digit status is mapped by its status code
   * alone: the prefix of the message cannot contribute a "401", "429" or
   * "403".
   */
  lemma StatusMapping(status: nat)
    requires 100 <= status < 1000
    ensures MapFailure(HttpErrorMessage(status)) ==
              if status == 401 then InvalidKeyMessage
              else if status == 429 then RateLimitMessage
              else if status == 403 then ForbiddenMessage
              else FailurePrefix + HttpErrorPrefix + NatToString(status)
  {
    StatusCodesRecognised(status);
  }

  /** The message of an HTTP failure contains a code exactly when the status is that code. */
  lemma StatusCodesRecognised(status: nat)
    requires 100 <= status < 1000
    ensures Contains(HttpErrorMessage(status), "401") <==> status == 401
    ensures Contains(HttpErrorMessage(status), "429") <==> status == 429
    ensures Contains(HttpErrorMessage(status), "403") <==> status == 403
    ensures HttpErrorMessage(status) == HttpErrorPrefix + NatToString(status)
  {
    assert HttpErrorMessage(status) == HttpErrorPrefix + NatToString(status);
    HttpErrorPrefixHasNoDigits();
    CodeNumerals();
    NumeralAfterText(HttpErrorPrefix, status, 401);
    NumeralAfterText(HttpErrorPrefix, status, 429);
    NumeralAfterText(HttpErrorPrefix, status, 403);
  }

  lemma HttpErrorPrefixHasNoDigits()
    ensures NoDigits(HttpErrorPrefix)
  {
  }

  lemma CodeNumerals()
    ensures NatToString(401) == "401" && NatToString(429) == "429" && NatToString(403) == "403"
  {
    assert NatToString(40) == "40" && NatToString(42) == "42";
  }

  /**
   * `fetchRealNews(year, month)`. The missing-key check comes before the
   * `try`, so its message is not mapped; every other failure is.
   */
  function FetchReal(c: Config, env: Env, year: int, month: Month, fetch: string -> Transport): (r: Result<Envelope, string>)
    ensures c.apiKey == "" ==> r == Failure(MissingKeyMessage)
    ensures r.Success? <==> c.apiKey != "" && Settle(fetch(RequestUrl(c, env, year, month))).Success?
    ensures r.Success? ==> DocsOf(r.value).Some? && r.value == fetch(RequestUrl(c, env, year, month)).envelope
    ensures c.apiKey != "" && r.Failure? ==>
              r.error == MapFailure(Settle(fetch(RequestUrl(c, env, year, month))).error)
  {
    if c.apiKey == "" then
      Failure(MissingKeyMessage)
    else
      match Settle(fetch(RequestUrl(c, env, year, month)))
      case Success(e) => Success(e)
      case Failure(m) => Failure(MapFailure(m))
  }

  // ---------------------------------------------------------------------
  // getArchiveNews and testConnection
  // ---------------------------------------------------------------------

  const Copyright: string := "Copyright (c) 2024 The New York Times Company. All Rights Reserved."
  const FallbackCopyright: string := Copyright + " (Fallback Mode)"

  /** The envelope built around a generated month. */
  function MockEnvelope(docs: seq<Article>, copyright: string, now: int): (e: Envelope)
    ensures DocsOf(e) == Some(docs)
    ensures e.status == "OK" && e.copyright == copyright
    ensures e.response.meta.hits == |docs| && e.response.meta.offset == 0 && e.response.meta.time == now
  {
    Envelope("OK", copyright, Body(DocsList(docs), Meta(|docs|, 0, now)))
  }

  /** A generated month wrapped as an archive response. */
  function MockResponse(t: Templates, year: int, month: Month, draws: seq<seq<Pick>>, cal: Calendar,
                        now: int, copyright: string): (e: Envelope)
    requires TemplatesWellFormed(t)
    requires |draws| == DaysInMonth(year, month) - StartDay(year, month) + 1 && ValidDraws(draws)
    ensures DocsOf(e).Some? && e.copyright == copyright && GeneratedMonth(e, cal, now)
    ensures DocsOf(e).value == GenerateMockNews(t, year, month, draws, cal)
  {
    MockEnvelope(GenerateMockNews(t, year, month, draws, cal), copyright, now)
  }

  /** The shape every generated response has. */
  ghost predicate GeneratedMonth(e: Envelope, cal: Calendar, now: int)
    requires DocsOf(e).Some?
  {
    var docs := DocsOf(e).value;
    e.status == "OK" && e.response.meta.hits == |docs| && e.response.meta.offset == 0
    && e.response.meta.time == now
    && 30 <= |docs| <= 50
    && SortedDesc(docs, PubTime(cal))
    && DistinctBy(docs, IdOf)
    && forall a :: a in docs ==> Generated(a)
  }

  lemma FallbackMarked()
    ensures EndsWith(FallbackCopyright, "(Fallback Mode)")
  {
    assert FallbackCopyright[|FallbackCopyright| - 15..] == "(Fallback Mode)";
  }

  /**
   * `getArchiveNews(year, month)`. Mock mode answers with a generated month;
   * real mode answers with the archive's envelope, or with a generated month
   * marked "(Fallback Mode)" when the real fetch fails. Generation cannot
   * fail, so the rethrow at the end of the `catch` is never reached and the
   * result is always an envelope.
   */
  function GetArchiveNews(t: Templates, c: Config, env: Env, year: int, month: Month,
                          draws: seq<seq<Pick>>, cal: Calendar, now: int,
                          fetch: string -> Transport): (r: Envelope)
    requires TemplatesWellFormed(t)
    requires |draws| == DaysInMonth(year, month) - StartDay(year, month) + 1 && ValidDraws(draws)
    ensures DocsOf(r).Some?
    ensures c.useMock ==>
              r.copyright == Copyright && GeneratedMonth(r, cal, now)
              && DocsOf(r).value == GenerateMockNews(t, year, month, draws, cal)
    ensures !c.useMock && FetchReal(c, env, year, month, fetch).Failure? ==>
              r.copyright == FallbackCopyright && EndsWith(r.copyright, "(Fallback Mode)") && GeneratedMonth(r, cal, now)
              && DocsOf(r).value == GenerateMockNews(t, year, month, draws, cal)
    ensures !c.useMock && FetchReal(c, env, year, month, fetch).Success? ==>
              r == fetch(RequestUrl(c, env, year, month)).envelope
  {
    if c.useMock then
      MockResponse(t, year, month, draws, cal, now, Copyright)
    else
      match FetchReal(c, env, year, month, fetch)
      case Success(e) => e
      case Failure(_) =>
        FallbackMarked();
        MockResponse(t, year, month, draws, cal, now, FallbackCopyright)
  }

  /**
   * `testConnection()`, with the current year and month as parameters: true
   * in mock mode, otherwise true exactly when the archive delivers a
   * well-shaped body for that month.
   */
  function TestConnection(c: Config, env: Env, year: int, month: Month, fetch: string -> Transport): (r: bool)
    ensures r <==> c.useMock
                   || (c.apiKey != "" && fetch(RequestUrl(c, env, year, month)).Delivered?
                       && DocsOf(fetch(RequestUrl(c, env, year, month)).envelope).Some?)
  {
    c.useMock || FetchReal(c, env, year, month, fetch).Success?
  }

  /**
   * Outside mock mode the connection test and the fallback agree: when the
   * test fails `getArchiveNews` answers with fallback data, and when it
   * passes `getArchiveNews` answers with what the archive delivered.
   */
  lemma ConnectionTestPredictsFallback(t: Templates, c: Config, env: Env, year: int, month: Month,
                                       draws: seq<seq<Pick>>, cal: Calendar, now: int,
                                       fetch: string -> Transport)
    requires TemplatesWellFormed(t)
    requires |draws| == DaysInMonth(year, month) - StartDay(year, month) + 1 && ValidDraws(draws)
    requires !c.useMock
    ensures !TestConnection(c, env, year, month, fetch) ==>
              GetArchiveNews(t, c, env, year, month, draws, cal, now, fetch).copyright == FallbackCopyright
    ensures TestConnection(c, env, year, month, fetch) ==>
              GetArchiveNews(t, c, env, year, month, draws, cal, now, fetch) == fetch(RequestUrl(c, env, year, month)).envelope
  {
  }

  // ---------------------------------------------------------------------
  // The request URL identifies the month
  // ---------------------------------------------------------------------

  lemma IntToStringHasNoSlash(i: int)
    ensures '/' !in IntToString(i)
  {
    if i < 0 {
      NatToStringDigits(-i);
      assert IntToString(i)[1..] == NatToString(-i);
    } else {
      NatToStringDigits(i);
    }
  }

  /** Different months (or keys) are requested under different paths. */
  lemma ArchivePathInjective(y1: int, m1: Month, k1: string, y2: int, m2: Month, k2: string)
    requires ArchivePath(y1, m1, k1) == ArchivePath(y2, m2, k2)
    ensures y1 == y2 && m1 == m2 && k1 == k2
  {
    var head := "/archive/v1/";
    var rest1 := IntToString(y1) + "/" + MonthQuery(m1, k1);
    var rest2 := IntToString(y2) + "/" + MonthQuery(m2, k2);
    assert rest1 == ArchivePath(y1, m1, k1)[|head|..] == ArchivePath(y2, m2, k2)[|head|..] == rest2;
    YearSplits(y1, MonthQuery(m1, k1), y2, MonthQuery(m2, k2));
    MonthQuerySplits(m1, k1, m2, k2);
  }

  lemma YearSplits(y1: int, x1: string, y2: int, x2: string)
    requires IntToString(y1) + "/" + x1 == IntToString(y2) + "/" + x2
    ensures y1 == y2 && x1 == x2
  {
    IntToStringHasNoSlash(y1);
    IntToStringHasNoSlash(y2);
    SplitAtSeparator(IntToString(y1), x1, IntToString(y2), x2, '/');
    IntToStringInjective(y1, y2);
  }

  lemma MonthQuerySplits(m1: Month, k1: string, m2: Month, k2: string)
    requires MonthQuery(m1, k1) == MonthQuery(m2, k2)
    ensures m1 == m2 && k1 == k2
  {
    var q := ".json?api-key=";
    assert PadStart2(m1) == MonthQuery(m1, k1)[..2] == MonthQuery(m2, k2)[..2] == PadStart2(m2);
    PadStart2Injective(m1, m2);
    assert k1 == MonthQuery(m1, k1)[2 + |q|..] == k2;
  }
}
