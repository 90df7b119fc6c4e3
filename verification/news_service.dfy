/**
 * `src/services/newsService.ts`: the thin service the hook talks to. It
 * forwards to the archive adapter and replaces any error the adapter throws
 * by one fixed message.
 */
module NewsService {
  import opened Wrappers
  import opened NewsTypes
  import opened Environment
  import opened MockNews
  import ApiService

  const LoadFailedMessage: string := "Failed to load news data"

  /**
   * The `try`/`catch` of `getArchiveNews` around any adapter outcome: a
   * result passes unchanged, an error of any text becomes the fixed one.
   */
  function Mask(adapter: Result<Envelope, string>): (r: Result<Envelope, string>)
    ensures r.Success? <==> adapter.Success?
    ensures adapter.Success? ==> r == adapter
    ensures adapter.Failure? ==> r == Failure(LoadFailedMessage)
  {
    match adapter
    case Success(e) => Success(e)
    case Failure(_) => Failure(LoadFailedMessage)
  }

  /** Masking hides the cause: any two adapter failures look the same to the caller. */
  lemma MaskHidesCause(m1: string, m2: string)
    ensures Mask(Failure(m1)) == Mask(Failure(m2))
  {
  }

  /** Masking twice is masking once. */
  lemma MaskIdempotent(adapter: Result<Envelope, string>)
    ensures Mask(Mask(adapter)) == Mask(adapter)
  {
  }

  /**
   * `newsService.getArchiveNews(year, month)` over the application's
   * adapter. The adapter always answers, so the service always succeeds,
   * with the adapter's envelope, whose `docs` is a list.
   */
  function GetArchiveNews(t: Templates, c: ApiService.Config, env: Env, year: int, month: Month,
                          draws: seq<seq<Pick>>, cal: Calendar, now: int,
                          fetch: string -> ApiService.Transport): (r: Result<Envelope, string>)
    requires TemplatesWellFormed(t)
    requires |draws| == DaysInMonth(year, month) - StartDay(year, month) + 1 && ValidDraws(draws)
    ensures r.Success? && DocsOf(r.value).Some?
    ensures r.value == ApiService.GetArchiveNews(t, c, env, year, month, draws, cal, now, fetch)
  {
    Mask(Success(ApiService.GetArchiveNews(t, c, env, year, month, draws, cal, now, fetch)))
  }

  /** `setMockMode(flag)`: forwarded to the adapter's configuration, nothing else changes. */
  function SetMockMode(c: ApiService.Config, flag: bool): (r: ApiService.Config)
    ensures r.useMock == flag && r == c.(useMock := flag)
  {
    ApiService.SetMockMode(c, flag)
  }

  /** `testConnection()`: exactly the adapter's answer. */
  function TestConnection(c: ApiService.Config, env: Env, year: int, month: Month,
                          fetch: string -> ApiService.Transport): (r: bool)
    ensures r == ApiService.TestConnection(c, env, year, month, fetch)
    ensures c.useMock ==> r
  {
    ApiService.TestConnection(c, env, year, month, fetch)
  }
}
