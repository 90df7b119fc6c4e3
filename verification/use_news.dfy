/**
 * `src/hooks/useNews.ts`: the store behind the news list. It holds the
 * articles grouped by publication day, the loading and error flags, the
 * month cursor of the infinite scroll and the `hasMore` latch, and it is
 * driven by four events: the initial fetch, a settled fetch, a request for
 * the previous month and the 30-second poll.
 *
 * React's state setters become pure transitions over `State`. A transition
 * that starts a fetch returns the month it requests; the outcome of the
 * request (the `newsService` result) is the input of the settling
 * transition. The clock is the parameter `now`, in epoch milliseconds.
 */
module UseNews {
  import opened Wrappers
  import opened Sequences
  import opened Sorting
  import opened NewsTypes

  datatype State = State(
    news: GroupedNews,
    loading: bool,
    initialLoading: bool,
    error: Option<string>,
    cursor: YearMonth,
    hasMore: bool)

  /** A transition together with the month it asks the service for, if any. */
  datatype Step = Step(state: State, request: Option<YearMonth>)

  // ---------------------------------------------------------------------
  // Grouping
  // ---------------------------------------------------------------------

  /** The articles whose date key is `key`. */
  function OnKey(cal: Calendar, key: string): Article -> bool {
    (a: Article) => DateKey(cal, a) == key
  }

  /**
   * `groupNewsByDate`: a left fold that appends each article to the bucket
   * of its date key, creating the bucket on first use.
   */
  function GroupByDate(articles: seq<Article>, cal: Calendar): (g: GroupedNews)
    ensures forall key :: key in g ==> |g[key]| > 0
    decreases |articles|
  {
    if |articles| == 0 then
      map[]
    else
      var acc := GroupByDate(articles[..|articles| - 1], cal);
      var a := articles[|articles| - 1];
      var key := DateKey(cal, a);
      acc[key := (if key in acc then acc[key] else []) + [a]]
  }

  /** The keys of the grouping are exactly the date keys of the input. */
  lemma GroupKeys(articles: seq<Article>, cal: Calendar, key: string)
    ensures key in GroupByDate(articles, cal) <==> exists i :: 0 <= i < |articles| && DateKey(cal, articles[i]) == key
  {
    GroupBuckets(articles, cal, key);
    var f := Filter(articles, OnKey(cal, key));
    if key in GroupByDate(articles, cal) {
      assert f[0] in articles && OnKey(cal, key)(f[0]);
    }
    if exists i :: 0 <= i < |articles| && DateKey(cal, articles[i]) == key {
      var i :| 0 <= i < |articles| && DateKey(cal, articles[i]) == key;
      assert articles[i] in f;
    }
  }

  /**
   * Each bucket is the input filtered by its key: the articles of that date,
   * in input order, with their repetitions.
   */
  lemma {:induction false} GroupBuckets(articles: seq<Article>, cal: Calendar, key: string)
    ensures key in GroupByDate(articles, cal) ==> GroupByDate(articles, cal)[key] == Filter(articles, OnKey(cal, key))
    ensures key !in GroupByDate(articles, cal) ==> Filter(articles, OnKey(cal, key)) == []
  {
    if |articles| > 0 {
      var init := articles[..|articles| - 1];
      var a := articles[|articles| - 1];
      var p := OnKey(cal, key);
      assert articles == init + [a];
      GroupBuckets(init, cal, key);
      FilterAppend(init, [a], p);
      assert [a][1..] == [];
      assert Filter([a], p) == if p(a) then [a] else [];
    }
  }

  /** A bucket holds articles of the input, each under its own date key. */
  lemma GroupMember(articles: seq<Article>, cal: Calendar, key: string, i: nat)
    requires key in GroupByDate(articles, cal) && i < |GroupByDate(articles, cal)[key]|
    ensures GroupByDate(articles, cal)[key][i] in articles
    ensures DateKey(cal, GroupByDate(articles, cal)[key][i]) == key
  {
    GroupBuckets(articles, cal, key);
  }

  /**
   * The buckets partition the input: each article sits, with all its
   * copies, in the bucket of its own date key, and every bucket holds only
   * articles of its key.
   */
  lemma GroupPartitions(articles: seq<Article>, cal: Calendar, a: Article)
    ensures var g := GroupByDate(articles, cal);
            a in articles ==> (DateKey(cal, a) in g && multiset(g[DateKey(cal, a)])[a] == multiset(articles)[a])
    ensures var g := GroupByDate(articles, cal);
            forall key :: key in g && key != DateKey(cal, a) ==> a !in g[key]
  {
    var g := GroupByDate(articles, cal);
    if a in articles {
      var i :| 0 <= i < |articles| && articles[i] == a;
      GroupBuckets(articles, cal, DateKey(cal, a));
      FilterMultiplicity(articles, OnKey(cal, DateKey(cal, a)), a);
    }
    forall key | key in g && key != DateKey(cal, a) ensures a !in g[key] {
      GroupBuckets(articles, cal, key);
    }
  }

  // ---------------------------------------------------------------------
  // Merging pages
  // ---------------------------------------------------------------------

  /** The store's admission test, applied to page loads and polls alike. */
  function Admitted(docs: seq<Article>): (r: seq<Article>)
    ensures forall i :: 0 <= i < |r| ==> Admissible(r[i]) && r[i] in docs
    ensures forall i :: 0 <= i < |docs| && Admissible(docs[i]) ==> docs[i] in r
  {
    Filter(docs, Admissible)
  }

  /**
   * The update `setNews` applies for a page: the initial page replaces the
   * whole map, a later one is spread over it (`{...prev, ...grouped}`).
   */
  function ApplyPage(prev: GroupedNews, grouped: GroupedNews, isInitial: bool): (r: GroupedNews)
    ensures isInitial ==> r == grouped
    ensures !isInitial ==> r.Keys == prev.Keys + grouped.Keys
    ensures !isInitial ==> forall d :: d in grouped ==> r[d] == grouped[d]
    ensures !isInitial ==> forall d :: d in prev && d !in grouped ==> r[d] == prev[d]
  {
    if isInitial then grouped else prev + grouped
  }

  /** Applying the same page twice gives what applying it once gives. */
  lemma ApplyPageIdempotent(prev: GroupedNews, grouped: GroupedNews, isInitial: bool)
    ensures ApplyPage(ApplyPage(prev, grouped, isInitial), grouped, isInitial) == ApplyPage(prev, grouped, isInitial)
  {
  }

  // ---------------------------------------------------------------------
  // Fetch lifecycle
  // ---------------------------------------------------------------------

  const InvalidResponseMessage: string := "Invalid API response"
  const LoadErrorPrefix: string := "Failed to load news: "

  /**
   * The `try` of `fetchNews` up to the filter: a missing or falsy `response`
   * or `docs` is an invalid response; truthy `docs` that is not an array
   * makes `.filter` throw.
   */
  function PageDocs(outcome: Result<Envelope, string>): (r: Result<seq<Article>, string>)
    ensures r.Success? <==> outcome.Success? && DocsOf(outcome.value).Some?
    ensures r.Success? ==> r.value == DocsOf(outcome.value).value
    ensures outcome.Failure? ==> r == Failure(outcome.error)
  {
    match outcome
    case Failure(message) => Failure(message)
    case Success(e) =>
      if !e.Envelope? || !e.response.Body? || e.response.docs.DocsAbsent? then
        Failure(InvalidResponseMessage)
      else if e.response.docs.DocsNotAList? then
        if e.response.docs.truthy then Failure(e.response.docs.typeError) else Failure(InvalidResponseMessage)
      else
        Success(e.response.docs.articles)
  }

  /** The state before the first render's effect: an empty map, loading the initial page. */
  function Init(today: YearMonth): (s: State)
    ensures s.news == map[] && s.initialLoading && !s.loading && s.error.None? && s.hasMore
    ensures s.cursor == today
  {
    State(map[], false, true, None, today, true)
  }

  /** The start of `fetchNews`: raise the matching loading flag and clear the error. */
  function Begin(s: State, isInitial: bool): (r: State)
    ensures r.error.None?
    ensures isInitial ==> r.initialLoading && r.loading == s.loading
    ensures !isInitial ==> r.loading && r.initialLoading == s.initialLoading
    ensures r.news == s.news && r.cursor == s.cursor && r.hasMore == s.hasMore
  {
    var raised := if isInitial then s.(initialLoading := true) else s.(loading := true);
    raised.(error := None)
  }

  /** The mount effect: fetch the current month as the initial page. */
  function Mount(today: YearMonth): (r: Step)
    ensures r.request == Some(today) && r.state.cursor == today
    ensures r.state.initialLoading && r.state.news == map[]
  {
    Step(Begin(Init(today), true), Some(today))
  }

  /**
   * The rest of `fetchNews` once the service has answered: on success the
   * admitted articles are grouped and applied, and an empty page closes the
   * `hasMore` latch; on failure only `error` is set. Both loading flags drop
   * in every case.
   */
  function Settle(s: State, isInitial: bool, outcome: Result<Envelope, string>, cal: Calendar): (r: State)
    ensures !r.loading && !r.initialLoading
    ensures r.cursor == s.cursor
    ensures r.hasMore ==> s.hasMore
    ensures PageDocs(outcome).Failure? ==>
              r.news == s.news && r.hasMore == s.hasMore && r.error == Some(LoadErrorPrefix + PageDocs(outcome).error)
    ensures PageDocs(outcome).Success? ==>
              var admitted := Admitted(PageDocs(outcome).value);
              r.news == ApplyPage(s.news, GroupByDate(admitted, cal), isInitial)
              && r.error == s.error
              && (r.hasMore <==> s.hasMore && |admitted| > 0)
  {
    var done := s.(loading := false, initialLoading := false);
    match PageDocs(outcome)
    case Failure(message) => done.(error := Some(LoadErrorPrefix + message))
    case Success(docs) =>
      var admitted := Admitted(docs);
      done.(news := ApplyPage(s.news, GroupByDate(admitted, cal), isInitial),
            hasMore := s.hasMore && |admitted| != 0)
  }

  /** Every article of the store passed the admission test. */
  ghost predicate AllAdmissible(news: GroupedNews) {
    forall d, i :: d in news && 0 <= i < |news[d]| ==> Admissible(news[d][i])
  }

  /** A settled page keeps the store free of inadmissible articles. */
  lemma SettleAdmits(s: State, isInitial: bool, outcome: Result<Envelope, string>, cal: Calendar)
    requires AllAdmissible(s.news)
    ensures AllAdmissible(Settle(s, isInitial, outcome, cal).news)
  {
    var r := Settle(s, isInitial, outcome, cal);
    if PageDocs(outcome).Success? {
      var admitted := Admitted(PageDocs(outcome).value);
      var g := GroupByDate(admitted, cal);
      forall d, i | d in g && 0 <= i < |g[d]| ensures Admissible(g[d][i]) {
        GroupMember(admitted, cal, d, i);
      }
    }
  }

  /**
   * A whole fetch cycle (begin, then settle) with the same answer, repeated,
   * leaves the store as one cycle left it.
   */
  lemma FetchCycleIdempotent(s: State, isInitial: bool, outcome: Result<Envelope, string>, cal: Calendar)
    ensures var once := Settle(Begin(s, isInitial), isInitial, outcome, cal);
            Settle(Begin(once, isInitial), isInitial, outcome, cal) == once
  {
    var once := Settle(Begin(s, isInitial), isInitial, outcome, cal);
    if PageDocs(outcome).Success? {
      var g := GroupByDate(Admitted(PageDocs(outcome).value), cal);
      ApplyPageIdempotent(s.news, g, isInitial);
    }
  }

  // ---------------------------------------------------------------------
  // Pagination
  // ---------------------------------------------------------------------

  /** `currentDate.subtract(1, "month")`, seen through its year and month. */
  function PrevMonth(ym: YearMonth): (r: YearMonth)
    ensures MonthIndex(r) == MonthIndex(ym) - 1
  {
    if ym.month == 1 then YearMonth(ym.year - 1, 12) else YearMonth(ym.year, ym.month - 1)
  }

  /** The re-entrancy guard of `loadMoreNews`. */
  predicate CanLoadMore(s: State) {
    !s.loading && !s.initialLoading && s.hasMore
  }

  /**
   * `loadMoreNews`: when allowed, move the cursor one month back before
   * anything settles and fetch that month as a later page.
   */
  function LoadMore(s: State): (r: Step)
    ensures !CanLoadMore(s) ==> r == Step(s, None)
    ensures CanLoadMore(s) ==>
              MonthIndex(r.state.cursor) == MonthIndex(s.cursor) - 1
              && r.request == Some(r.state.cursor)
              && r.state == s.(cursor := r.state.cursor, loading := true, error := None)
  {
    if CanLoadMore(s) then
      var prev := PrevMonth(s.cursor);
      Step(Begin(s.(cursor := prev), false), Some(prev))
    else
      Step(s, None)
  }

  /** While a fetch is in flight no further page is requested. */
  lemma LoadMoreGuarded(s: State)
    requires CanLoadMore(s)
    ensures LoadMore(LoadMore(s).state) == Step(LoadMore(s).state, None)
  {
  }

  // ---------------------------------------------------------------------
  // The poll
  // ---------------------------------------------------------------------

  /** The poll's window: admissible and published strictly after `now - 30 s`. */
  function Recent(cal: Calendar, now: int): Article -> bool {
    (a: Article) => Admissible(a) && cal.instant(a.pubDate) > now - 30000
  }

  function Ids(bucket: seq<Article>): set<string> {
    set a | a in bucket :: a.id
  }

  /** The new articles of a date whose `_id` the existing bucket does not hold. */
  function Fresh(incoming: seq<Article>, existing: seq<Article>): (r: seq<Article>)
    ensures forall i :: 0 <= i < |r| ==> r[i] in incoming && r[i].id !in Ids(existing)
    ensures forall i :: 0 <= i < |incoming| && incoming[i].id !in Ids(existing) ==> incoming[i] in r
  {
    Filter(incoming, (a: Article) => a.id !in Ids(existing))
  }

  /**
   * The `setNews` updater of `checkForNewNews`: for each polled date, an
   * existing bucket gets the unseen articles in front of it and a new date
   * gets the polled group; every other bucket is kept.
   */
  function PollMerge(prev: GroupedNews, grouped: GroupedNews): (r: GroupedNews)
    ensures r.Keys == prev.Keys + grouped.Keys
    ensures forall d :: d in prev && d !in grouped ==> r[d] == prev[d]
    ensures forall d :: d in grouped && d !in prev ==> r[d] == grouped[d]
    ensures forall d :: d in prev && d in grouped ==> r[d] == Fresh(grouped[d], prev[d]) + prev[d]
  {
    map d | d in prev.Keys + grouped.Keys ::
      if d !in grouped then prev[d]
      else if d !in prev then grouped[d]
      else Fresh(grouped[d], prev[d]) + prev[d]
  }

  /** After a poll every polled `_id` is present in its bucket. */
  lemma PollCovers(prev: GroupedNews, grouped: GroupedNews, d: string)
    requires d in grouped
    ensures Ids(grouped[d]) <= Ids(PollMerge(prev, grouped)[d])
  {
    var r := PollMerge(prev, grouped);
    if d in prev {
      forall x | x in Ids(grouped[d]) ensures x in Ids(r[d]) {
        var a :| a in grouped[d] && a.id == x;
        if x !in Ids(prev[d]) {
          var i :| 0 <= i < |grouped[d]| && grouped[d][i] == a;
          assert a in Fresh(grouped[d], prev[d]);
          assert a in r[d];
        } else {
          var b :| b in prev[d] && b.id == x;
          assert b in r[d];
        }
      }
    }
  }

  /** A repeated poll with the same answer adds nothing. */
  lemma PollMergeIdempotent(prev: GroupedNews, grouped: GroupedNews)
    ensures PollMerge(PollMerge(prev, grouped), grouped) == PollMerge(prev, grouped)
  {
    var once := PollMerge(prev, grouped);
    var twice := PollMerge(once, grouped);
    forall d | d in grouped ensures twice[d] == once[d] {
      PollCovers(prev, grouped, d);
      FilterNone(grouped[d], (a: Article) => a.id !in Ids(once[d]));
      assert Fresh(grouped[d], once[d]) == [] by {
        forall i | 0 <= i < |grouped[d]| ensures grouped[d][i].id in Ids(once[d]) {
          assert grouped[d][i].id in Ids(grouped[d]);
        }
      }
    }
  }

  /** Prepending only unseen articles keeps a bucket free of repeated `_id`s. */
  lemma PollKeepsIdsDistinct(prev: GroupedNews, grouped: GroupedNews, d: string)
    requires d in prev && d in grouped
    requires DistinctBy(prev[d], IdOf) && DistinctBy(grouped[d], IdOf)
    ensures DistinctBy(PollMerge(prev, grouped)[d], IdOf)
  {
    var unseen := Fresh(grouped[d], prev[d]);
    var b := unseen + prev[d];
    FreshDistinct(grouped[d], prev[d]);
    forall i, j | 0 <= i < j < |b| ensures IdOf(b[i]) != IdOf(b[j]) {
      if i < |unseen| && j >= |unseen| {
        assert b[j] == prev[d][j - |unseen|];
        assert b[j].id in Ids(prev[d]);
      } else if i >= |unseen| {
        assert b[i] == prev[d][i - |unseen|] && b[j] == prev[d][j - |unseen|];
      }
    }
  }

  lemma {:induction false} FreshDistinct(incoming: seq<Article>, existing: seq<Article>)
    requires DistinctBy(incoming, IdOf)
    ensures DistinctBy(Fresh(incoming, existing), IdOf)
  {
    FilterDistinct(incoming, (a: Article) => a.id !in Ids(existing), IdOf);
  }

  /**
   * `checkForNewNews`, run by the 30-second interval: nothing while the
   * initial page loads, nothing when the service fails or answers without
   * `docs`, nothing when no article is recent; otherwise the recent
   * articles are grouped and merged by `PollMerge`.
   */
  function Poll(s: State, outcome: Result<Envelope, string>, now: int, cal: Calendar): (r: State)
    ensures s.initialLoading || PageDocs(outcome).Failure? ==> r == s
    ensures r == s.(news := r.news)
    ensures !s.initialLoading && PageDocs(outcome).Success? ==>
              var latest := Filter(PageDocs(outcome).value, Recent(cal, now));
              r.news == if |latest| == 0 then s.news else PollMerge(s.news, GroupByDate(latest, cal))
  {
    if s.initialLoading then s
    else match PageDocs(outcome)
      case Failure(_) => s
      case Success(docs) =>
        var latest := Filter(docs, Recent(cal, now));
        if |latest| == 0 then s else s.(news := PollMerge(s.news, GroupByDate(latest, cal)))
  }

  /**
   * The month `checkForNewNews` asks the service for: nothing while the
   * initial page loads, otherwise the current month, whatever month the
   * cursor has been moved back to.
   */
  function PollRequest(s: State, today: YearMonth): (r: Option<YearMonth>)
    ensures r.Some? <==> !s.initialLoading
    ensures r.Some? ==> r.value == today
  {
    if s.initialLoading then None else Some(today)
  }

  /** Loading earlier pages moves the cursor, but the poll keeps asking for the current month. */
  lemma PollRequestIgnoresCursor(s: State, today: YearMonth, c: YearMonth)
    ensures PollRequest(s.(cursor := c), today) == PollRequest(s, today)
    ensures !s.initialLoading ==> PollRequest(LoadMore(s).state, today) == Some(today)
  {
  }

  /** The poll admits only recent articles: what it adds was published in the last 30 seconds. */
  lemma PollAddsOnlyRecent(s: State, outcome: Result<Envelope, string>, now: int, cal: Calendar, d: string, a: Article)
    requires d in Poll(s, outcome, now, cal).news && a in Poll(s, outcome, now, cal).news[d]
    requires d !in s.news || a !in s.news[d]
    ensures Admissible(a) && cal.instant(a.pubDate) > now - 30000
  {
    var r := Poll(s, outcome, now, cal);
    var latest := Filter(PageDocs(outcome).value, Recent(cal, now));
    var g := GroupByDate(latest, cal);
    assert d in g;
    if d in s.news {
      var b := Fresh(g[d], s.news[d]) + s.news[d];
      var i :| 0 <= i < |b| && b[i] == a;
      assert a in g[d];
    }
    var k :| 0 <= k < |g[d]| && g[d][k] == a;
    GroupMember(latest, cal, d, k);
    var m :| 0 <= m < |latest| && latest[m] == a;
    assert Recent(cal, now)(latest[m]);
  }

  // ---------------------------------------------------------------------
  // sortedDates
  // ---------------------------------------------------------------------

  /** `dates` lists each key of `keys` exactly once, newest day first. */
  ghost predicate ListsExactly(dates: seq<string>, keys: set<string>, dayStart: string -> int) {
    && SortedDesc(dates, dayStart)
    && (forall d :: d in dates <==> d in keys)
    && |dates| == |keys|
    && (forall i, j :: 0 <= i < j < |dates| ==> dates[i] != dates[j])
  }

  /** `sortedDates`: the date keys, newest day first; each key of the map appears exactly once. */
  method SortedDates(news: GroupedNews, cal: Calendar) returns (dates: seq<string>)
    ensures ListsExactly(dates, news.Keys, cal.dayStart)
  {
    dates := [];
    var done: set<string> := {};
    while done != news.Keys
      invariant done <= news.Keys
      invariant ListsExactly(dates, done, cal.dayStart)
      decreases |news.Keys - done|
    {
      var d :| d in news.Keys - done;
      dates := InsertKey(dates, d, done, cal.dayStart);
      done := done + {d};
    }
  }

  /** One step of `SortedDates`: inserting a new key keeps the list sorted, complete and unrepeated. */
  function InsertKey(dates: seq<string>, d: string, done: set<string>, dayStart: string -> int): (next: seq<string>)
    requires ListsExactly(dates, done, dayStart) && d !in done
    ensures ListsExactly(next, done + {d}, dayStart)
  {
    var next := Insert(d, dates, dayStart);
    assert |next| == |multiset(next)| == |dates| + 1;
    forall x ensures x in next <==> x in done + {d} {
      assert x in next <==> x in multiset(next);
    }
    InsertDistinct(d, dates, dayStart, (x: string) => x);
    next
  }
}
