/**
 * `src/utils/testApi.ts`: the developer's connection test. It asks the news
 * service for the current month and turns what comes back into a report:
 * success when some article links to the NY Times site, a warning when none
 * does, an invalid-structure report when there is no `docs`, and one of four
 * error reports, chosen by the error's text, when the service throws.
 */
module TestApi {
  import opened Wrappers
  import opened Strings
  import opened Sequences
  import opened NewsTypes
  import opened Environment
  import opened MockNews
  import ApiService
  import NewsService

  /** The `{ success, message }` the test resolves to; the attached data is not modelled. */
  datatype Report = Report(success: bool, message: string)

  /** An article the test counts as real: a truthy `web_url` that mentions the site. */
  predicate RealLink(a: Article) {
    a.webUrl != "" && Contains(a.webUrl, "nytimes.com")
  }

  const ConnectedPrefix: string := "\U{2705} Successfully connected to NY Times API! Found "

  /** The success message with the article count and the count of real links. */
  function ConnectedMessage(total: nat, valid: nat): string {
    ConnectedPrefix + NatToString(total) + " articles (" + NatToString(valid) + " with valid URLs)"
  }

  const NoValidUrlsMessage: string :=
    "\U{26A0}\U{FE0F} Connected to API but no articles with valid NY Times URLs found. This might be normal for recent dates."
  const InvalidStructureMessage: string := "\U{274C} Invalid response structure from NY Times API"
  const KeyErrorMessage: string := "\U{1F511} API Key Error: Please check your NY Times API key configuration"
  const AuthErrorMessage: string := "\U{1F511} Authentication Error: Invalid API key or unauthorized access"
  const RateLimitErrorMessage: string := "\U{23F1}\U{FE0F} Rate Limit Error: Too many requests. Please wait and try again."
  const ApiErrorPrefix: string := "\U{274C} API Error: "

  const AuthPattern: string := "HTTP error! status: 401"
  const RateLimitPattern: string := "HTTP error! status: 429"

  /** The `catch` branch for an `Error` with the given message: the first matching text decides. */
  function ClassifyError(message: string): (r: Report)
    ensures !r.success
    ensures Contains(message, "API key") ==> r.message == KeyErrorMessage
    ensures !Contains(message, "API key") && Contains(message, AuthPattern) ==> r.message == AuthErrorMessage
    ensures !Contains(message, "API key") && !Contains(message, AuthPattern) && Contains(message, RateLimitPattern) ==>
              r.message == RateLimitErrorMessage
    ensures !Contains(message, "API key") && !Contains(message, AuthPattern) && !Contains(message, RateLimitPattern) ==>
              r.message == ApiErrorPrefix + message
  {
    if Contains(message, "API key") then Report(false, KeyErrorMessage)
    else if Contains(message, AuthPattern) then Report(false, AuthErrorMessage)
    else if Contains(message, RateLimitPattern) then Report(false, RateLimitErrorMessage)
    else Report(false, ApiErrorPrefix + message)
  }

  /** The report for a `docs` list: success exactly when some article has a real link. */
  function DocsReport(docs: seq<Article>): (r: Report)
    ensures r.success <==> exists i :: 0 <= i < |docs| && RealLink(docs[i])
    ensures r.success ==> r.message == ConnectedMessage(|docs|, CountIf(docs, RealLink))
    ensures !r.success ==> r.message == NoValidUrlsMessage
  {
    var linked := Filter(docs, RealLink);
    FilterCount(docs, RealLink);
    if |linked| > 0 then
      assert linked[0] in docs;
      Report(true, ConnectedMessage(|docs|, |linked|))
    else
      Report(false, NoValidUrlsMessage)
  }

  /**
   * `testNYTimesConnection()` over what `newsService.getArchiveNews` gives
   * for the current month: a resolved envelope or the message of the error it
   * throws. A `docs` that is truthy but not a list fails inside the `try`, so
   * its `TypeError` is classified like a thrown error.
   */
  function TestConnection(response: Result<Envelope, string>): (r: Report)
    ensures r.success <==> response.Success? && DocsOf(response.value).Some?
                           && exists i :: 0 <= i < |DocsOf(response.value).value| && RealLink(DocsOf(response.value).value[i])
    ensures response.Success? && DocsOf(response.value).Some? ==> r == DocsReport(DocsOf(response.value).value)
    ensures response.Success? && DocsOf(response.value).None? ==>
              if response.value.Envelope? && response.value.response.Body? && response.value.response.docs.DocsNotAList?
                 && response.value.response.docs.truthy
              then r == ClassifyError(response.value.response.docs.typeError)
              else r == Report(false, InvalidStructureMessage)
    ensures response.Failure? ==> r == ClassifyError(response.error)
  {
    match response
    case Failure(message) => ClassifyError(message)
    case Success(e) =>
      if e.NotAnObject? || e.response.BodyNotAnObject? then Report(false, InvalidStructureMessage)
      else
        match e.response.docs
        case DocsAbsent => Report(false, InvalidStructureMessage)
        case DocsNotAList(truthy, typeError) =>
          if truthy then ClassifyError(typeError) else Report(false, InvalidStructureMessage)
        case DocsList(docs) => DocsReport(docs)
  }

  /**
   * The adapter's HTTP failure message for a three-digit status is classified
   * as an authentication error exactly for 401 and as a rate-limit error
   * exactly for 429; every other status is a plain API error.
   */
  lemma HttpErrorsClassified(status: nat)
    requires 100 <= status < 1000
    ensures ClassifyError(ApiService.HttpErrorMessage(status)).message == AuthErrorMessage <==> status == 401
    ensures ClassifyError(ApiService.HttpErrorMessage(status)).message == RateLimitErrorMessage <==> status == 429
    ensures status != 401 && status != 429 ==>
              ClassifyError(ApiService.HttpErrorMessage(status)).message == ApiErrorPrefix + ApiService.HttpErrorMessage(status)
  {
    ThreeDigits(status);
    NoKeyWordInHttpError(status);
    PatternsAreStatusMessages();
    PatternMatches(status, 401, AuthPattern);
    PatternMatches(status, 429, RateLimitPattern);
    ErrorReportsDiffer(ApiService.HttpErrorMessage(status));
  }

  /** The two patterns are the adapter's messages for 401 and 429. */
  lemma PatternsAreStatusMessages()
    ensures AuthPattern == ApiService.HttpErrorPrefix + NatToString(401)
    ensures RateLimitPattern == ApiService.HttpErrorPrefix + NatToString(429)
  {
    assert NatToString(401) == "401" && NatToString(429) == "429";
  }

  /** The three reports an HTTP failure can get are told apart by their messages. */
  lemma ErrorReportsDiffer(m: string)
    requires |m| < 30
    ensures AuthErrorMessage != RateLimitErrorMessage
    ensures ApiErrorPrefix + m != AuthErrorMessage && ApiErrorPrefix + m != RateLimitErrorMessage
  {
    assert |AuthErrorMessage| == 62 && |RateLimitErrorMessage| == 66;
  }

  /** An HTTP failure message never mentions the API key. */
  lemma NoKeyWordInHttpError(status: nat)
    requires 100 <= status < 1000
    ensures !Contains(ApiService.HttpErrorMessage(status), "API key")
  {
    NatToStringDigits(status);
    assert 'A' !in ApiService.HttpErrorPrefix;
    ContainsAfterPrefix(ApiService.HttpErrorPrefix, NatToString(status), "API key");
    ContainsAfterPrefix(NatToString(status), "", "API key");
    assert NatToString(status) + "" == NatToString(status);
  }

  /** The full pattern `HTTP error! status: <code>` occurs in an HTTP failure message only for that code. */
  lemma PatternMatches(status: nat, code: nat, pattern: string)
    requires 100 <= status < 1000 && 100 <= code < 1000
    requires pattern == ApiService.HttpErrorPrefix + NatToString(code)
    ensures Contains(ApiService.HttpErrorMessage(status), pattern) <==> status == code
  {
    ThreeDigits(status);
    ThreeDigits(code);
    ContainsSameLength(ApiService.HttpErrorMessage(status), pattern);
    if ApiService.HttpErrorMessage(status) == pattern {
      var p := ApiService.HttpErrorPrefix;
      assert NatToString(status) == ApiService.HttpErrorMessage(status)[|p|..] == pattern[|p|..] == NatToString(code);
      NatToStringInjective(status, code);
    }
  }

  /** `validateApiKey(apiKey)`: a key is valid when it is non-empty and not the placeholder. */
  function ValidateApiKey(apiKey: string): (r: bool)
    ensures r ==> apiKey != ""
    ensures r <==> apiKey != "" && apiKey != "your_api_key_here"
  {
    apiKey != "" && |apiKey| > 0 && apiKey != "your_api_key_here"
  }

  /**
   * A key that passes validation, without a mock request, puts the adapter
   * in real mode; the placeholder fails validation yet puts it in real mode too.
   */
  lemma ValidKeySelectsRealMode(env: Env, key: string)
    requires Get(env, "REACT_APP_NY_TIMES_API_KEY") == Some(key)
    requires Get(env, "REACT_APP_MOCK_API") != Some("true")
    ensures ValidateApiKey(key) ==> !ApiService.ResolveConfig(env).useMock
    ensures key == "your_api_key_here" ==> !ValidateApiKey(key) && !ApiService.ResolveConfig(env).useMock
  {
  }

  /** Every generated article has a real link. */
  lemma GeneratedLinksAreReal(a: Article)
    requires Generated(a)
    ensures RealLink(a)
  {
    assert StartsWith(ArticleLink[12..], "nytimes.com");
  }

  /**
   * Through the service the test never reaches its `catch` and never sees a
   * missing `docs`: it reports success or the no-valid-links warning.
   */
  lemma ServiceReportsSuccessOrWarning(t: Templates, c: ApiService.Config, env: Env, year: int, month: Month,
                                       draws: seq<seq<Pick>>, cal: Calendar, now: int,
                                       fetch: string -> ApiService.Transport)
    requires TemplatesWellFormed(t)
    requires |draws| == DaysInMonth(year, month) - StartDay(year, month) + 1 && ValidDraws(draws)
    ensures var r := TestConnection(NewsService.GetArchiveNews(t, c, env, year, month, draws, cal, now, fetch));
            r.success || r.message == NoValidUrlsMessage
  {
  }

  /**
   * When the real archive fails, the adapter's fallback month still reports
   * a successful connection, since every generated article links to the
   * site; in mock mode the test succeeds as well.
   */
  lemma FallbackReportsSuccess(t: Templates, c: ApiService.Config, env: Env, year: int, month: Month,
                               draws: seq<seq<Pick>>, cal: Calendar, now: int,
                               fetch: string -> ApiService.Transport)
    requires TemplatesWellFormed(t)
    requires |draws| == DaysInMonth(year, month) - StartDay(year, month) + 1 && ValidDraws(draws)
    requires c.useMock || ApiService.FetchReal(c, env, year, month, fetch).Failure?
    ensures TestConnection(NewsService.GetArchiveNews(t, c, env, year, month, draws, cal, now, fetch)).success
  {
    var e := ApiService.GetArchiveNews(t, c, env, year, month, draws, cal, now, fetch);
    var docs := DocsOf(e).value;
    assert docs[0] in docs;
    GeneratedLinksAreReal(docs[0]);
  }
}
