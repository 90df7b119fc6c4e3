/**
 * `src/components/news-list/news-list.tsx`: what the list shows for a store
 * state. The per-date projection filters and sorts each bucket, the
 * intersection callback decides when to ask for the previous month, and a
 * priority of conditions picks one of four views.
 */
module NewsList {
  import opened Wrappers
  import opened Sequences
  import opened Sorting
  import opened NewsTypes
  import opened Environment
  import UseNews

  /** One date section: the key and the articles shown under it. */
  datatype Section = Section(date: string, articles: seq<Article>)

  /** The list's own filter: an abstract and a link. */
  predicate Shown(a: Article) {
    a.abstractText != "" && a.webUrl != ""
  }

  /** The articles of one bucket as shown: filtered, newest first, ties in bucket order. */
  function SectionArticles(bucket: seq<Article>, cal: Calendar): (r: seq<Article>)
    ensures SortedDesc(r, PubTime(cal))
    ensures multiset(r) == multiset(Filter(bucket, Shown))
    ensures forall t :: Ties(r, PubTime(cal), t) == Ties(Filter(bucket, Shown), PubTime(cal), t)
  {
    var shown := Filter(bucket, Shown);
    forall t ensures Ties(SortDesc(shown, PubTime(cal)), PubTime(cal), t) == Ties(shown, PubTime(cal), t) {
      SortDescStable(shown, PubTime(cal), t);
    }
    SortDesc(shown, PubTime(cal))
  }

  /**
   * `sortedNews`: one section per entry of `sortedDates`, in that order.
   * Every date comes from the store's keys, so its bucket exists.
   */
  function SortedNews(news: GroupedNews, dates: seq<string>, cal: Calendar): (r: seq<Section>)
    requires forall i :: 0 <= i < |dates| ==> dates[i] in news
    ensures |r| == |dates|
    ensures forall i :: 0 <= i < |r| ==> (r[i].date == dates[i] && r[i].articles == SectionArticles(news[dates[i]], cal))
  {
    seq(|dates|, i requires 0 <= i < |dates| => Section(dates[i], SectionArticles(news[dates[i]], cal)))
  }

  /** The count in a date header is the number of the bucket's articles that pass the list's filter. */
  lemma DisplayedCount(news: GroupedNews, dates: seq<string>, cal: Calendar, i: nat)
    requires forall k :: 0 <= k < |dates| ==> dates[k] in news
    requires i < |dates|
    ensures |SortedNews(news, dates, cal)[i].articles| == CountIf(news[dates[i]], Shown)
  {
    var a := SortedNews(news, dates, cal)[i].articles;
    assert |a| == |multiset(a)| == |Filter(news[dates[i]], Shown)|;
    FilterCount(news[dates[i]], Shown);
  }

  /** The store admits only articles the list would show, so the list filter drops nothing from it. */
  lemma StoreArticlesAllShown(news: GroupedNews, dates: seq<string>, cal: Calendar, i: nat)
    requires forall k :: 0 <= k < |dates| ==> dates[k] in news
    requires UseNews.AllAdmissible(news)
    requires i < |dates|
    ensures multiset(SortedNews(news, dates, cal)[i].articles) == multiset(news[dates[i]])
  {
    var bucket := news[dates[i]];
    FilterAll(bucket, Shown);
  }

  /** The intersection callback's condition for calling `loadMoreNews`. */
  predicate TriggersLoad(intersecting: bool, s: UseNews.State) {
    intersecting && s.hasMore && !s.loading && !s.initialLoading
  }

  /** Whenever the list triggers a load, the hook's own guard lets it through. */
  lemma TriggerPassesGuard(intersecting: bool, s: UseNews.State)
    requires TriggersLoad(intersecting, s)
    ensures UseNews.LoadMore(s).request.Some?
  {
  }

  /** What the list renders. */
  datatype View =
    | InitialLoader
    | ErrorView
    | EmptyView
    | ListView(banner: bool, bottomLoader: bool, trigger: bool, endMessage: bool)

  /**
   * The render decision: the initial loader first, then the error view when
   * there is an error and nothing to show, then the empty view when nothing
   * is shown and nothing is loading, otherwise the list with its banner,
   * bottom loader, load trigger and end message.
   */
  function ViewOf(s: UseNews.State, sections: nat): (v: View)
    ensures s.initialLoading <==> v == InitialLoader
    ensures v == ErrorView <==> !s.initialLoading && Truthy(s.error) && sections == 0
    ensures v == EmptyView <==> !s.initialLoading && !Truthy(s.error) && sections == 0 && !s.loading
    ensures v.ListView? ==>
              (v.banner <==> Truthy(s.error))
              && (v.bottomLoader <==> s.loading && sections > 0)
              && (v.trigger <==> s.hasMore)
              && (v.endMessage <==> !s.hasMore && sections > 0)
  {
    if s.initialLoading then InitialLoader
    else if Truthy(s.error) && sections == 0 then ErrorView
    else if sections == 0 && !s.loading then EmptyView
    else ListView(Truthy(s.error), s.loading && sections > 0, s.hasMore, !s.hasMore && sections > 0)
  }

  /**
   * A list with no sections appears only while a later page loads without
   * an error: it shows no banner, no bottom loader and no end message, only
   * the trigger when more may come.
   */
  lemma EmptyListWhileLoading(s: UseNews.State)
    requires ViewOf(s, 0).ListView?
    ensures s.loading && !Truthy(s.error)
    ensures ViewOf(s, 0) == ListView(false, false, s.hasMore, false)
  {
  }

  /** After any settled fetch the initial loader is gone. */
  lemma SettledNeverShowsInitialLoader(s: UseNews.State, isInitial: bool, outcome: Result<Envelope, string>,
                                       cal: Calendar, sections: nat)
    ensures ViewOf(UseNews.Settle(s, isInitial, outcome, cal), sections) != InitialLoader
  {
  }
}
