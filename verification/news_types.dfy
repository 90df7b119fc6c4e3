/**
 * The records of `src/types/news.ts`, cut down to the fields the logic reads,
 * plus the abstract calendar that stands in for dayjs / `Date` parsing.
 *
 * JavaScript lets a field be missing, `null` or `""`; every check in the
 * application tests such fields for truthiness, so a missing or empty string
 * field is the empty string here.
 */
module NewsTypes {
  import opened Wrappers

  /** One `multimedia` entry: its URL, `type` and `subtype`. */
  datatype Media = Media(url: string, mediaType: string, subtype: string)

  /** A `NewsArticle`; `abstractText` is `abstract` and `headline` is `headline.main`. */
  datatype Article = Article(
    id: string,
    abstractText: string,
    webUrl: string,
    snippet: string,
    pubDate: string,
    headline: string,
    multimedia: seq<Media>,
    source: string)

  /** The `meta` block of an archive response. */
  datatype Meta = Meta(hits: int, offset: int, time: int)

  /**
   * The `docs` member of a response body: missing, present but not an array
   * (`truthy` records its JavaScript truthiness; reading `.length` or
   * `.filter` of it raises a TypeError whose text the JavaScript engine
   * chooses), or an array of articles.
   */
  datatype Docs = DocsAbsent | DocsNotAList(truthy: bool, typeError: string) | DocsList(articles: seq<Article>)

  /** The `response` member: anything that is not a non-null object, or a body. */
  datatype Body = BodyNotAnObject | Body(docs: Docs, meta: Meta)

  /** A decoded JSON payload, shaped like `NYTimesArchiveResponse` when it is an object. */
  datatype Envelope = NotAnObject | Envelope(status: string, copyright: string, response: Body)

  /** `GroupedNews`: articles by `YYYY-MM-DD` date key. */
  type GroupedNews = map<string, seq<Article>>

  /**
   * Time as the application sees it through dayjs: `instant` parses a
   * `pub_date` to epoch milliseconds, `dayOf` formats an instant as the local
   * `YYYY-MM-DD`, and `dayStart` parses such a key back to milliseconds.
   */
  datatype Calendar = Calendar(instant: string -> int, dayOf: int -> string, dayStart: string -> int)

  /** The grouping key of an article: the local calendar day of its publication instant. */
  function DateKey(cal: Calendar, a: Article): string {
    cal.dayOf(cal.instant(a.pubDate))
  }

  /** The sort key `dayjs(a.pub_date).valueOf()`. */
  function PubTime(cal: Calendar): Article -> int {
    (a: Article) => cal.instant(a.pubDate)
  }

  function IdOf(a: Article): string {
    a.id
  }

  /** The store's admission test: abstract, link, publication date and headline all present. */
  predicate Admissible(a: Article) {
    a.abstractText != "" && a.webUrl != "" && a.pubDate != "" && a.headline != ""
  }

  /**
   * `response.response.docs` when it is an array. The callers' guards
   * (`!response || !response.response || !response.response.docs`) reject
   * every other shape.
   */
  function DocsOf(e: Envelope): (r: Option<seq<Article>>)
    ensures r.Some? <==> e.Envelope? && e.response.Body? && e.response.docs.DocsList?
  {
    if e.Envelope? && e.response.Body? && e.response.docs.DocsList? then
      Some(e.response.docs.articles)
    else
      None
  }

  type Month = m: int | 1 <= m <= 12 witness 1

  /** A calendar month, as `dayjs().year()` and `dayjs().month() + 1` give it. */
  datatype YearMonth = YearMonth(year: int, month: Month)

  /** Months since January of year 0; consecutive months differ by one. */
  function MonthIndex(ym: YearMonth): int {
    ym.year * 12 + ym.month - 1
  }
}
