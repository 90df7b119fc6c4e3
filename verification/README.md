# News reader core, modelled in Dafny

A model of the data path of a browser news reader built on the New York Times
Archive API, together with proofs about it. The path runs as follows:

- **`apiService`** resolves its configuration from the environment and builds the
  archive request URL. It fetches and shape-checks the month, maps failures to
  messages, and falls back to a generated month when the real archive fails.
- **`newsService`** forwards to the adapter and masks its errors.
- **The `useNews` hook** holds articles grouped by day. It loads the current month,
  pages backward one month at a time, and polls every 30 seconds for fresh
  articles.
- **The list and item components** project the store into date sections, a view
  and per-article images and titles.
- **The CORS helper and the developer's connection test** complete the path.

Each source file is one module:

| module | file | models |
|---|---|---|
| `Wrappers`, `Strings`, `Sequences`, `Sorting` | wrappers.dfy, strings.dfy, sequences.dfy, sorting.dfy | `Option`/`Result`, number formatting and `includes`, `filter`, and the stable "newest first" sort |
| `Environment` | environment.dfy | `process.env` as a map, with JavaScript truthiness |
| `NewsTypes` | news_types.dfy | `src/types/news.ts`: articles, the archive envelope and the calendar |
| `MockNews` | mock_news.dfy | `generateMockArticle` / `generateMockNews` |
| `ApiService` | api_service.dfy | the rest of `src/services/apiService.ts` |
| `NewsService` | news_service.dfy | `src/services/newsService.ts` |
| `UseNews` | use_news.dfy | `src/hooks/useNews.ts` |
| `NewsList` | news_list.dfy | `src/components/news-list/news-list.tsx` |
| `NewsItem` | news_item.dfy | `src/components/news-item/news-item.tsx` |
| `Cors` | cors.dfy | `src/utils/cors.ts` |
| `TestApi` | test_api.dfy | `src/utils/testApi.ts` |

Everything outside the program becomes an explicit parameter:
- **The network:** `fetch: string -> Transport`. It is applied to the exact URL the adapter builds.
- **`Math.random`:** `draws`, one list of picks (category, hour, minute) per generated day.
- **dayjs:** a `Calendar` (parse a `pub_date`, format an instant as a day key, parse a day key).
- **`Date.now()`:** `now`.
- **`process.env`:** an `Env`.

React state setters become pure transitions over a `State` record. A transition that starts a fetch returns the month it requests. The poll always asks for the current month (`UseNews.PollRequest`), not the cursor's. The service's answer is the input of the settling transition.

Behaviour of the code worth knowing, which the model keeps:
- **Later pages:** a later page is spread over the store (`{...prev, ...grouped}`), so a later page's bucket replaces the existing bucket for that date. It is not merged, deduplicated or re-sorted (`UseNews.ApplyPage`).
- **Poll deduplication:** the poll removes duplicate `_id`s only within the date bucket it prepends to (`UseNews.PollMerge`). Nothing prevents the same `_id` from appearing under two dates.
- **Poll window:** the window is "published after now minus 30 seconds", with no upper bound, so future-dated articles pass (`UseNews.Recent`).
- **The `X-API-Key` header:** it is set whenever a key is configured. Without a key it is present exactly when the custom headers carry it (`Cors.ApiKeyHeaderPresence`).

## Model

| member | source | states |
|---|---|---|
| Environment.GetOr | src/services/apiService.ts:15-17 | `process.env.X \|\| fallback`: a truthy variable's value, otherwise the fallback |
| NewsTypes.DocsOf | src/hooks/useNews.ts:37-41 | `Some` exactly when `docs` is an array, so the guard `!response \|\| !response.response \|\| !response.response.docs` passes and `.filter` can run. A truthy non-array passes the guard but gives `None`, and `.filter` throws (see `UseNews.PageDocs`) |
| Strings.IntToString | src/services/apiService.ts:223 | the decimal rendering of a year in a template string: a leading `-` exactly for negative numbers, otherwise the natural-number digits |
| Strings.PadStart2 | src/services/apiService.ts:222 | `String(month).padStart(2, "0")` gives two digits for months and days and at least the digits otherwise |
| Strings.Contains | src/services/apiService.ts:264 | `includes`: true exactly when some position starts an occurrence |
| Strings.NumeralAfterText | src/services/apiService.ts:264-272 | behind digit-free text, a three-digit status contains another code's numeral only when it is that code |
| Sequences.Filter | src/hooks/useNews.ts:41-47 | `Array.prototype.filter`: never longer than its input, keeps exactly the elements that pass, each taken from the input |
| Sequences.FilterMultiplicity | src/hooks/useNews.ts:41-47 | filtering keeps every copy of a passing element and none of a failing one |
| Sorting.SortDesc | src/services/apiService.ts:209-211 | the newest-first sort returns a permutation of its input, ordered by non-increasing key |
| Sorting.SortDescStable | src/components/news-list/news-list.tsx:26-28 | the sort is stable: elements with equal keys keep their input order |
| Sorting.SortDescCount | src/services/apiService.ts:209-211 | sorting changes no count of elements satisfying a test |
| Sorting.SortDescDistinct | src/services/apiService.ts:209-211 | sorting keeps identifiers distinct |
| MockNews.SourceHeadlinesWellFormed | src/services/apiService.ts:56-92 | the headline table has five non-empty headlines for each of the five categories and no other key |
| MockNews.TechnologyAbstractsWellFormed | src/services/apiService.ts:95-101 | five non-empty technology abstracts |
| MockNews.BusinessAbstractsWellFormed | src/services/apiService.ts:102-108 | five non-empty business abstracts |
| MockNews.HealthAbstractsWellFormed | src/services/apiService.ts:109-115 | five non-empty health abstracts |
| MockNews.ScienceAbstractsWellFormed | src/services/apiService.ts:116-122 | five non-empty science abstracts |
| MockNews.SportsAbstractsWellFormed | src/services/apiService.ts:123-129 | five non-empty sports abstracts |
| MockNews.SourceTemplatesWellFormed | src/services/apiService.ts:56-130 | the application's headline and abstract tables meet everything the generator asks of its templates: a `technology` entry, and five non-empty texts under every category |
| MockNews.TextsOf | src/services/apiService.ts:132-135 | a category outside the table reads the technology texts (see Left out for names inherited from `Object.prototype`); the list read always has five non-empty texts |
| MockNews.TextAt | src/services/apiService.ts:137-138 | the text chosen by `id % length` is never empty |
| MockNews.MockIdEndsWithDate | src/services/apiService.ts:141 | a generated `_id` ends with `-` and its date |
| MockNews.MockIdInjective | src/services/apiService.ts:141 | for dash-free categories, `mock-<category>-<id>-<date>` determines category, serial and date |
| MockNews.MockIdCategory | src/services/apiService.ts:141 | with the same serial and date, the identifier determines the category |
| MockNews.CategoriesHaveNoDash | src/services/apiService.ts:186-192 | no category name contains a dash |
| MockNews.MockRecord | src/services/apiService.ts:140-181 | a generated article passes the store's admission test, links to the site root, and has the given headline and abstract. Its `pub_date` starts with `<date>T`. Its snippet is `abstract.substring(0, 100)` followed by `...`: the first 100 characters of the abstract, or all of a shorter one |
| MockNews.MockArticle | src/services/apiService.ts:132-181 | the generated article's headline and abstract come from its category's table at `id % 5`, and its `_id` encodes category, serial and date |
| MockNews.UnknownCategoryReadsTechnology | src/services/apiService.ts:132-135 | a category outside the table, other than a name inherited from `Object.prototype`, gives the technology article except for an `_id` that keeps the given category |
| MockNews.DaysInMonth | src/services/apiService.ts:194 | `new Date(year, month, 0).getDate()`: 29 exactly for February of a leap year (years 0-99 read as 1900-1999), 28 for other Februaries, 30 for April, June, September and November, 31 otherwise |
| MockNews.StartDay | src/services/apiService.ts:195 | the first generated day leaves exactly the last ten days of the month |
| MockNews.MockDateSeparates | src/services/apiService.ts:198 | a `pub_date` written on one day of a month starts with another day's date only when the days are equal |
| MockNews.SerialsDistinct | src/services/apiService.ts:201-205 | the serial numbers `day * 10 + i` give one day's articles distinct `_id`s |
| MockNews.MockDay | src/services/apiService.ts:201-206 | a generated day has one article per pick, with distinct `_id`s, each dated on that day |
| MockNews.MockBlocks | src/services/apiService.ts:197-207 | the outer loop produces one block per day, each block being that day's articles |
| MockNews.MockMonth | src/services/apiService.ts:194-207 | before sorting: 30 to 50 distinct admissible articles, each dated in the last ten days, with as many on each date as were drawn for it |
| MockNews.MonthCounts | src/services/apiService.ts:197-206 | each generated date carries exactly the number of articles drawn for it |
| MockNews.GenerateMockNews | src/services/apiService.ts:184-212 | the generated month has 30 to 50 articles, sorted newest first, with distinct `_id`s, all admissible and linking to the site. Each is dated within the month's last ten days, and each date carries as many articles as were drawn for it |
| ApiService.ResolveConfig | src/services/apiService.ts:13-23 | mock mode exactly when `REACT_APP_MOCK_API` is `"true"` or the key variable is falsy; an empty key exactly when the variable is falsy; a non-empty base URL, defaulting to the public archive; the CORS proxy is `REACT_APP_CORS_PROXY_URL`, or empty when unset |
| ApiService.RealModeHasKey | src/services/apiService.ts:17-20 | a freshly resolved configuration never uses real mode without a key |
| ApiService.SetMockMode | src/services/apiService.ts:337-339 | only the mock flag changes |
| ApiService.Proxied | src/services/apiService.ts:30-34 | a configured proxy prefixes, with a slash, every URL not under `/api`; every other URL is unchanged |
| ApiService.RequestUrl | src/services/apiService.ts:222-228 | development requests go to `/api/archive/v1/<year>/<MM>.json?api-key=<key>`. Other requests go to the base URL plus that path, passed through the proxy rewrite: prefixed by the proxy and a slash when one is configured, unchanged otherwise |
| ApiService.ArchivePathInjective | src/services/apiService.ts:222-223 | different months or keys never share a request path: the path determines year, month and key |
| ApiService.Settle | src/services/apiService.ts:232-253 | the fetch succeeds exactly when the body is an object whose `response` holds a `docs` array, and the body is returned unchanged. A non-ok response fails with `HTTP error! status: <status>`. A thrown error keeps its message |
| ApiService.MapFailure | src/services/apiService.ts:260-282 | failures are rewritten by the first code the message mentions, in the order 401, 429, 403; any other message gets the generic prefix |
| ApiService.InvalidShapeMapped | src/services/apiService.ts:236-247 | a body without a `docs` array is reported as `Failed to fetch news from NY Times API: Invalid API response structure`, since that message names no status code |
| ApiService.StatusMapping | src/services/apiService.ts:263-281 | a non-ok three-digit status is mapped by its code alone: 401 to the invalid-key message, 429 to rate limit, 403 to forbidden, others to the prefixed HTTP message |
| ApiService.StatusCodesRecognised | src/services/apiService.ts:264-272 | the HTTP error message mentions 401, 429 or 403 exactly when the status is that code |
| ApiService.FetchReal | src/services/apiService.ts:214-283 | without a key the call fails with the unmapped missing-key message. With a key it succeeds exactly when the fetched envelope has a `docs` array, and returns that envelope. Otherwise it fails with the mapped message |
| ApiService.MockEnvelope | src/services/apiService.ts:294-306 | the generated envelope carries status `OK`, the given copyright, the articles as `docs`, and `hits` equal to their number, offset 0 and the current time |
| ApiService.MockResponse | src/services/apiService.ts:292-306 | a generated month wrapped as an archive response has a `docs` array that is exactly the generated month, under the given copyright, with `hits` equal to the number of articles, offset 0 and the current time |
| ApiService.FallbackMarked | src/services/apiService.ts:320-321 | the fallback copyright ends with `(Fallback Mode)` |
| ApiService.GetArchiveNews | src/services/apiService.ts:285-335 | the adapter always answers with a `docs` array. In mock mode its `docs` are exactly the generated month, under the plain copyright. In real mode a failed fetch gives exactly the generated month under the copyright marked `(Fallback Mode)`, and a successful fetch gives the delivered envelope unchanged |
| ApiService.TestConnection | src/services/apiService.ts:345-364 | true in mock mode; otherwise true exactly when a key is set and the archive delivers an envelope with a `docs` array |
| ApiService.ConnectionTestPredictsFallback | src/services/apiService.ts:307-331 | outside mock mode a failed connection test means `getArchiveNews` answers with fallback data, and a passed one means it answers with the delivered data |
| NewsService.Mask | src/services/newsService.ts:9-14 | a result passes unchanged, and every error becomes `Failed to load news data` |
| NewsService.MaskHidesCause | src/services/newsService.ts:11-13 | any two adapter errors look the same to the caller |
| NewsService.MaskIdempotent | src/services/newsService.ts:9-14 | masking twice is masking once |
| NewsService.GetArchiveNews | src/services/newsService.ts:5-15 | the service always succeeds, with the adapter's envelope, which has a `docs` array |
| NewsService.SetMockMode | src/services/newsService.ts:17-19 | forwards the flag to the adapter's configuration and changes nothing else |
| NewsService.TestConnection | src/services/newsService.ts:21-23 | the adapter's answer, true in mock mode |
| UseNews.GroupByDate | src/hooks/useNews.ts:14-23 | no bucket of the grouping is empty |
| UseNews.GroupKeys | src/hooks/useNews.ts:14-23 | a key has a bucket exactly when some article has that date key |
| UseNews.GroupBuckets | src/hooks/useNews.ts:14-23 | each bucket is the input filtered by its key, in input order with repetitions; an absent key has no articles |
| UseNews.GroupMember | src/hooks/useNews.ts:15-21 | every bucketed article comes from the input and sits under its own date key |
| UseNews.GroupPartitions | src/hooks/useNews.ts:14-23 | the buckets partition the input: each article, with all its copies, is in its own date's bucket and in no other |
| UseNews.Admitted | src/hooks/useNews.ts:41-47 | exactly the articles with abstract, link, publication date and headline are kept |
| UseNews.ApplyPage | src/hooks/useNews.ts:51-56 | the initial page replaces the map; a later page adds its dates and replaces their buckets, keeping every other bucket |
| UseNews.ApplyPageIdempotent | src/hooks/useNews.ts:51-56 | applying the same page twice equals applying it once |
| UseNews.PageDocs | src/hooks/useNews.ts:35-41 | a page is readable exactly when the answer has a `docs` array. A missing or falsy `docs` gives `Invalid API response`. A truthy non-array gives the `TypeError` of `.filter`. A service error passes through |
| UseNews.Init | src/hooks/useNews.ts:7-12 | the initial state: an empty map, initial loading, no error, more to load, the cursor at today's month |
| UseNews.Begin | src/hooks/useNews.ts:27-32 | starting a fetch raises the flag matching the page kind, clears the error and keeps everything else |
| UseNews.Mount | src/hooks/useNews.ts:133-136 | the mount effect requests the current month as the initial page |
| UseNews.Settle | src/hooks/useNews.ts:34-69 | both loading flags drop and the cursor stays. A failure keeps the articles and sets `Failed to load news: <message>`. A success applies the grouped admitted articles, and `hasMore` closes exactly when the page admits nothing |
| UseNews.SettleAdmits | src/hooks/useNews.ts:41-56 | the store never holds an article that fails the admission test |
| UseNews.FetchCycleIdempotent | src/hooks/useNews.ts:25-72 | repeating a fetch cycle with the same answer leaves the store as one cycle left it |
| UseNews.PrevMonth | src/hooks/useNews.ts:76 | stepping back one month, January to December of the previous year |
| UseNews.LoadMore | src/hooks/useNews.ts:74-80 | when not loading and more may come, the cursor moves one month back and that month is fetched as a later page; otherwise nothing happens |
| UseNews.LoadMoreGuarded | src/hooks/useNews.ts:75 | while a page loads, no second page is requested |
| UseNews.Fresh | src/hooks/useNews.ts:112-117 | exactly the polled articles whose `_id` the existing bucket lacks |
| UseNews.PollMerge | src/hooks/useNews.ts:108-126 | an existing bucket gets its unseen articles in front, a new date gets the polled group, and every other bucket is kept |
| UseNews.PollCovers | src/hooks/useNews.ts:108-126 | after a poll every polled `_id` is present in its bucket |
| UseNews.PollMergeIdempotent | src/hooks/useNews.ts:108-126 | a repeated poll with the same answer adds nothing |
| UseNews.PollKeepsIdsDistinct | src/hooks/useNews.ts:112-119 | prepending only unseen articles keeps a bucket free of repeated `_id`s |
| UseNews.FreshDistinct | src/hooks/useNews.ts:115-117 | the unseen articles of a distinct group are distinct |
| UseNews.Poll | src/hooks/useNews.ts:82-131 | nothing happens during initial loading, on failure, or without `docs`. Otherwise only the news changes: nothing when no article is recent, else the recent admitted articles are grouped and merged |
| UseNews.PollRequest | src/hooks/useNews.ts:83-90 | no request while the initial page loads; otherwise the current month, `now.year()` and `now.month() + 1` |
| UseNews.PollRequestIgnoresCursor | src/hooks/useNews.ts:86-90 | the poll's month does not depend on the cursor, so it stays the current month after earlier pages are loaded |
| UseNews.PollAddsOnlyRecent | src/hooks/useNews.ts:96-103 | every article a poll adds is admissible and published within the last 30 seconds |
| UseNews.SortedDates | src/hooks/useNews.ts:145-147 | the date keys, newest day first, each key exactly once |
| UseNews.InsertKey | src/hooks/useNews.ts:145-147 | inserting a new key keeps the list sorted, complete and free of repeats |
| NewsList.SectionArticles | src/components/news-list/news-list.tsx:24-28 | a section shows exactly the bucket's articles that have an abstract and a link, newest first, with equal times in bucket order |
| NewsList.SortedNews | src/components/news-list/news-list.tsx:21-30 | one section per sorted date, in that order, each holding that date's shown articles |
| NewsList.DisplayedCount | src/components/news-list/news-list.tsx:106 | a date header's count is the number of the bucket's articles with abstract and link |
| NewsList.StoreArticlesAllShown | src/components/news-list/news-list.tsx:25 | the list's filter drops nothing from a store that only holds admitted articles |
| NewsList.TriggerPassesGuard | src/components/news-list/news-list.tsx:39-46 | whenever the intersection callback calls `loadMoreNews`, the hook's guard lets the request through |
| NewsList.ViewOf | src/components/news-list/news-list.tsx:62-129 | the initial loader exactly while the first page loads. Then the error view exactly for an error with no sections, and the empty view exactly for no error, no sections and nothing loading. Otherwise the list shows its banner for an error, its bottom loader while loading with sections, its trigger while more may come, and its end message when nothing more will |
| NewsList.EmptyListWhileLoading | src/components/news-list/news-list.tsx:82-122 | a list without sections appears only while a later page loads without error, and shows at most the trigger |
| NewsList.SettledNeverShowsInitialLoader | src/components/news-list/news-list.tsx:62-68 | after any settled fetch the initial loader is gone |
| NewsItem.FindPreferred | src/components/news-item/news-item.tsx:11-17 | the position of the first image in the `xlarge`, `mediumThreeByTwo210` or `popup` rendition, if any |
| NewsItem.ChosenMedia | src/components/news-item/news-item.tsx:11-18 | `find` picks the first preferred media entry, the one before which no entry is preferred; without a preferred entry the first entry is used |
| NewsItem.PreferredWins | src/components/news-item/news-item.tsx:11-18 | a preferred entry that follows only plain entries is the picture shown, at any position in the list |
| NewsItem.Absolute | src/components/news-item/news-item.tsx:20-23 | a URL starting with `http` is kept; any other is prefixed with `https://www.nytimes.com/`; the result always starts with `http` |
| NewsItem.AbsoluteIdempotent | src/components/news-item/news-item.tsx:20-23 | making a URL absolute twice is making it absolute once |
| NewsItem.ImageUrl | src/components/news-item/news-item.tsx:9-26 | no image exactly when there is no media; otherwise the absolute URL of the chosen entry |
| NewsItem.Title | src/components/news-item/news-item.tsx:51 | the headline when non-empty, otherwise the abstract |
| NewsItem.AdmittedTitle | src/components/news-item/news-item.tsx:51 | an article in the store is titled by its headline, never by an empty string |
| Cors.ApiUrl | src/utils/cors.ts:15-26 | the URL always ends with the endpoint. In development an `/api` endpoint is used as given. Any other endpoint outside production, and any endpoint but that one without a proxy, becomes base plus endpoint |
| Cors.ProxyWraps | src/utils/cors.ts:22-25 | in production a proxy only wraps the direct URL: proxy, slash, then the unproxied URL |
| Cors.Headers | src/utils/cors.ts:28-44 | the header names are the two JSON ones, the custom ones, and `X-API-Key` when a key is set. The key value wins, custom values override the JSON defaults, and the defaults stay otherwise |
| Cors.ApiKeyHeaderPresence | src/utils/cors.ts:38-41 | without a custom `X-API-Key`, the header is present exactly when a key is set |
| Cors.Merge | src/utils/cors.ts:53-59 | object spread over request options: each field the caller gives wins, the default stays otherwise |
| Cors.MergeNothing | src/utils/cors.ts:53-59 | spreading no options keeps the defaults |
| Cors.MergeIdempotent | src/utils/cors.ts:53-59 | spreading the same options twice is spreading them once |
| Cors.MergeAssociative | src/utils/cors.ts:53-59 | spreading two option sets in turn is spreading their merge |
| Cors.RequestOptions | src/utils/cors.ts:53-59 | every field is set: `GET`, the handler's headers, `cors` and `default` cache unless the caller gives its own; re-spreading the caller's options changes nothing |
| Cors.CallerOptionsWin | src/utils/cors.ts:53-59 | a caller giving every field gets exactly its own options |
| Cors.MakeRequest | src/utils/cors.ts:46-77 | success exactly for an ok response, returned as is. A non-ok response fails with `HTTP <status>: <text>`. A CORS `TypeError` is rewritten to the CORS advice. Every other error passes through |
| Cors.CorsAdviceOnlyForCorsErrors | src/utils/cors.ts:61-76 | the request fails with the CORS advice exactly when the network call throws a `TypeError` mentioning CORS, or an error whose message already is the advice; a response that is not ok never yields it |
| Cors.GetCorsConfig | src/utils/cors.ts:103-118 | a proxy is needed exactly when one is configured and the development proxy is not in use; the proxy URL and development flag are reported as read |
| Cors.DevelopmentNeedsProxyOnlyWhenDisabled | src/utils/cors.ts:108-114 | in development a proxy is needed only when `REACT_APP_PROXY_ENABLED` is `"false"` |
| Cors.CreateCorsHandler | src/utils/cors.ts:120-135 | the handler gets the base URL, the key, the configured proxy, and the `User-Agent` and `Accept-Language` headers |
| Cors.HandlerProxiesWhenNeeded | src/utils/cors.ts:103-135 | in production a created handler requests the direct URL exactly when the configuration says no proxy is needed |
| Cors.HandlerHeaders | src/utils/cors.ts:126-134 | a created handler sends exactly the two JSON headers, the two identifying headers, and the key header when a key is set |
| TestApi.ClassifyError | src/utils/testApi.ts:51-72 | the error reports, checked in order: a message mentioning `API key`, then `HTTP error! status: 401`, then `...429`, otherwise `API Error` with the message; never a success |
| TestApi.DocsReport | src/utils/testApi.ts:18-40 | success exactly when some article's `web_url` mentions `nytimes.com`, reporting the total and the number of such articles; otherwise the no-valid-URLs warning |
| TestApi.TestConnection | src/utils/testApi.ts:8-79 | success exactly for a `docs` array with a real link. Missing or falsy `docs` reports an invalid structure. A truthy non-array and a thrown error are classified as errors |
| TestApi.HttpErrorsClassified | src/utils/testApi.ts:57-71 | an HTTP failure message is an authentication error exactly for 401, a rate-limit error exactly for 429, and a plain API error otherwise |
| TestApi.PatternMatches | src/utils/testApi.ts:57-62 | the pattern `HTTP error! status: <code>` occurs in an HTTP failure message only for that code |
| TestApi.NoKeyWordInHttpError | src/utils/testApi.ts:52 | an HTTP failure message never counts as an API key error |
| TestApi.ValidateApiKey | src/utils/testApi.ts:82-84 | a key is valid exactly when it is non-empty and not `your_api_key_here` |
| TestApi.ValidKeySelectsRealMode | src/utils/testApi.ts:82-84 | a valid key without a mock request puts the adapter in real mode, and so does the placeholder, which fails validation |
| TestApi.GeneratedLinksAreReal | src/utils/testApi.ts:20-22 | every generated article counts as having a real link |
| TestApi.ServiceReportsSuccessOrWarning | src/utils/testApi.ts:16-47 | through the service the test reports success or the no-valid-URLs warning, never an error or an invalid structure |
| TestApi.FallbackReportsSuccess | src/utils/testApi.ts:16-33 | in mock mode, and when the real archive fails, the test still reports a successful connection, because the generated links point at the site |

## Left out

- Network I/O, `console` logging and the artificial request delay in `makeRequest` are left out. The network is the `fetch` parameter, and logging and the delay do not affect any result.
- `Math.random`, `Date.now()` and dayjs are parameters (`draws`, `now`, `Calendar`). The model does not fix how dates are parsed or formatted, or the local time zone.
- `setInterval` and its 30-second cadence, the effects' dependency lists and `IntersectionObserver` are left out. Each event is a transition the caller applies; the observer becomes the predicate `NewsList.TriggersLoad`.
- `ApiService.ResolveConfig` reads `REACT_APP_API_DELAY_MS` nowhere, because the delay is not modelled.
- `updateConfig` is left out: nothing in the repository calls it.
- `willHaveCorsIssue` and `testCorsConnectivity` are left out: they need the URL parser, `window.location` and the network.
- `CORS_PROXIES` is left out: nothing in the core reads it.
- `getApiSetupInstructions` is left out: it returns fixed text.
- `src/setupProxy.js` is not part of this model, and neither are the presentational components (header, footer, sidebar, loader, api-status) or the styling.
- Article fields the core never reads (keywords, byline, word count, kicker and the like) are not modelled.
- A thrown value that is not an `Error` is not modelled. Every error raised in the core is an `Error`, and `Rejected` carries its message.
- `MockNews.DaysInMonth` follows `new Date(year, month, 0)` for years read as 1900-1999 when between 0 and 99. Years outside the JavaScript `Date` range are not modelled.
- `UseNews.Poll`: one `now` is used for the whole recency window. The source takes a fresh `dayjs()` for each article, which can differ by the time the filter takes.
- `UseNews.SortedDates`: for keys whose days parse to the same instant, their relative order depends on `Object.keys` insertion order and is left unspecified.
- Unparseable publication dates are not modelled. A `Calendar` maps every `pub_date` to an integer instant, while dayjs gives `NaN` for a date it cannot parse. So `Sorting.SortDesc`, `UseNews.Recent` and `NewsList.SectionArticles` assume every `pub_date` parses. For such a date the source's comparators return `NaN`, which `sort` treats as a tie; `isAfter` is false; and the day key is `"Invalid Date"`.
- `MockNews.TextsOf` and `MockNews.UnknownCategoryReadsTechnology` do not cover category names inherited from `Object.prototype` (`constructor`, `toString`, `hasOwnProperty`, `__proto__` and the like). For those the lookup in the source finds a function or object instead of falling back, and `abstract.substring` then throws. `generateMockNews` only passes the five table categories, so this path is unreachable from it.
- `TestApi.TestConnection` takes the service's answer as its parameter. The month it asks for is the current month from `new Date()`, the same `today` that `UseNews.Mount` and `UseNews.PollRequest` take, and is not stated by a member of its own.
- `TestApi.ValidateApiKey` returns a boolean. The source returns the empty string itself for an empty key, which is falsy wherever it is used.
- `Cors.RequestOptions` models four `RequestInit` fields. A caller option that is present but `undefined` counts as absent here, whereas the spread would keep it.
- `Cors.Headers` treats header names as case-sensitive map keys, as the plain object in the source does; the `Headers` normalisation of `fetch` is not modelled.
