/**
 * The synthetic archive month of `ApiService` (`generateMockArticle` and
 * `generateMockNews`). The `Math.random()` draws become a `Draws` argument:
 * for each generated day, the list of picks (category index, hour, minute),
 * whose length is that day's article count.
 */
module MockNews {
  import opened Strings
  import opened Sequences
  import opened Sorting
  import opened NewsTypes

  const Categories: seq<string> := ["technology", "business", "health", "science", "sports"]

  /** One article's random draws: `Math.floor(Math.random() * n)` for category, hour and minute. */
  datatype Pick = Pick(category: nat, hour: nat, minute: nat)

  predicate ValidPick(p: Pick) {
    p.category < |Categories| && p.hour < 24 && p.minute < 60
  }

  /** One day's draws: `Math.floor(Math.random() * 3) + 3` articles, each with its picks. */
  predicate ValidDay(picks: seq<Pick>) {
    3 <= |picks| <= 5 && forall i :: 0 <= i < |picks| ==> ValidPick(picks[i])
  }

  predicate ValidDraws(draws: seq<seq<Pick>>) {
    forall d :: 0 <= d < |draws| ==> ValidDay(draws[d])
  }

  // The template texts, one table per category, in the order of the source arrays.

  const TechnologyHeadlines: seq<string> := [
    "Technology Revolution Transforms Healthcare Industry",
    "Quantum Computing Breakthrough Announced",
    "Tech Giants Face New Regulations",
    "Cryptocurrency Market Shows Volatility",
    "Space Technology Reaches New Milestones" ]

  const BusinessHeadlines: seq<string> := [
    "Global Markets React to Economic News",
    "Startup Funding Reaches Record Highs",
    "Supply Chain Innovations Drive Growth",
    "Green Energy Investments Surge",
    "Retail Giants Embrace Digital Transformation" ]

  const HealthHeadlines: seq<string> := [
    "Medical Breakthrough Offers Hope",
    "Mental Health Awareness Grows",
    "Vaccine Development Shows Progress",
    "Nutrition Research Reveals Insights",
    "Healthcare Technology Advances" ]

  const ScienceHeadlines: seq<string> := [
    "Climate Research Provides New Data",
    "Archaeological Discovery Stuns Experts",
    "Ocean Exploration Yields Surprises",
    "Genetic Research Makes Progress",
    "Environmental Studies Show Impact" ]

  const SportsHeadlines: seq<string> := [
    "Championship Games Draw Millions",
    "Athletes Break Long-Standing Records",
    "New Training Methods Show Results",
    "Sports Technology Enhances Performance",
    "International Competitions Begin" ]

  const TechnologyAbstracts: seq<string> := [
    "Advanced systems are revolutionizing patient care and medical diagnostics, offering unprecedented accuracy and efficiency in treatment protocols.",
    "Scientists have achieved a major milestone in quantum computing, bringing us closer to solving complex problems that are impossible for classical computers.",
    "Technology companies are facing increased scrutiny from regulators worldwide as governments seek to address privacy and competition concerns.",
    "Digital currencies continue to experience significant price fluctuations as investors weigh adoption against regulatory uncertainty.",
    "Private space companies are pushing the boundaries of what's possible, with new missions and technologies reaching unprecedented achievements." ]

  const BusinessAbstracts: seq<string> := [
    "International stock markets are responding to recent economic indicators, with investors closely monitoring inflation and growth projections.",
    "Venture capital firms are investing record amounts in emerging technologies, particularly in automation and clean energy sectors.",
    "Companies are reimagining their supply chains with innovative technologies that improve efficiency and reduce environmental impact.",
    "Investment in renewable energy projects has reached new heights as governments and corporations commit to sustainability goals.",
    "Major retailers are accelerating their digital transformation efforts to meet changing consumer expectations and shopping behaviors." ]

  const HealthAbstracts: seq<string> := [
    "Researchers have made significant progress in developing new treatments that could improve outcomes for patients with chronic conditions.",
    "Public awareness of mental health issues is increasing, leading to better support systems and reduced stigma around seeking help.",
    "Scientists continue to develop innovative vaccine technologies that could provide broader protection against emerging health threats.",
    "New nutritional studies are revealing important connections between diet and long-term health outcomes across different populations.",
    "Medical technology advances are enabling more precise diagnoses and personalized treatment approaches for various conditions." ]

  const ScienceAbstracts: seq<string> := [
    "Climate scientists have gathered new evidence about environmental changes that could inform future policy decisions and conservation efforts.",
    "Recent archaeological findings are providing fresh insights into ancient civilizations and their impact on modern understanding of history.",
    "Marine biologists have discovered previously unknown species and ecosystems in the deep ocean, expanding our knowledge of marine life.",
    "Genetic researchers are making breakthroughs that could lead to new treatments for inherited diseases and improved understanding of human biology.",
    "Environmental studies are documenting the effects of human activity on ecosystems, providing crucial data for conservation planning." ]

  const SportsAbstracts: seq<string> := [
    "Major sporting events are attracting record viewership as fans return to stadiums and engage with new digital experiences.",
    "Professional athletes are achieving remarkable feats that showcase the limits of human performance and dedication to their sports.",
    "Innovative training techniques incorporating technology and data analysis are helping athletes optimize their performance and prevent injuries.",
    "Advances in sports equipment and analytics are providing athletes with new tools to enhance their competitive edge and safety.",
    "International sporting competitions are bringing together athletes from around the world to compete at the highest levels of their disciplines." ]

  /** The `headlines` and `abstracts` objects: template texts by category. */
  datatype Templates = Templates(headlines: map<string, seq<string>>, abstracts: map<string, seq<string>>)

  /** Five texts, none empty: the shape of every list in the application's tables. */
  predicate FiveTexts(s: seq<string>) {
    |s| == 5 && forall i :: 0 <= i < 5 ==> s[i] != ""
  }

  /** A table has a `technology` entry, and every entry holds five non-empty texts. */
  predicate TableWellFormed(m: map<string, seq<string>>) {
    "technology" in m && forall c :: c in m ==> FiveTexts(m[c])
  }

  predicate TemplatesWellFormed(t: Templates) {
    TableWellFormed(t.headlines) && TableWellFormed(t.abstracts)
  }

  const SourceHeadlines: map<string, seq<string>> := map[
    "technology" := TechnologyHeadlines,
    "business" := BusinessHeadlines,
    "health" := HealthHeadlines,
    "science" := ScienceHeadlines,
    "sports" := SportsHeadlines]

  const SourceAbstracts: map<string, seq<string>> := map[
    "technology" := TechnologyAbstracts,
    "business" := BusinessAbstracts,
    "health" := HealthAbstracts,
    "science" := ScienceAbstracts,
    "sports" := SportsAbstracts]

  /** The application's tables. */
  const SourceTemplates: Templates := Templates(SourceHeadlines, SourceAbstracts)

  /** The application's tables satisfy what the generator asks of its templates. */
  lemma SourceTemplatesWellFormed()
    ensures TemplatesWellFormed(SourceTemplates)
  {
    SourceHeadlinesWellFormed();
    TechnologyAbstractsWellFormed();
    BusinessAbstractsWellFormed();
    HealthAbstractsWellFormed();
    ScienceAbstractsWellFormed();
    SportsAbstractsWellFormed();
    TableOfFive(TechnologyAbstracts, BusinessAbstracts, HealthAbstracts, ScienceAbstracts, SportsAbstracts);
  }

  /** A table over the five categories is well formed when each of its lists is. */
  lemma TableOfFive(tech: seq<string>, business: seq<string>, health: seq<string>, science: seq<string>, sports: seq<string>)
    requires FiveTexts(tech) && FiveTexts(business) && FiveTexts(health) && FiveTexts(science) && FiveTexts(sports)
    ensures TableWellFormed(map["technology" := tech, "business" := business, "health" := health,
                                "science" := science, "sports" := sports])
  {
  }

  /** The headline table covers exactly the five categories, with five non-empty texts each. */
  lemma SourceHeadlinesWellFormed()
    ensures TableWellFormed(SourceHeadlines)
    ensures forall c :: c in SourceHeadlines <==> c in Categories
  {
  }

  // Each abstract list holds five non-empty texts.

  lemma TechnologyAbstractsWellFormed()
    ensures FiveTexts(TechnologyAbstracts)
  {
  }

  lemma BusinessAbstractsWellFormed()
    ensures FiveTexts(BusinessAbstracts)
  {
  }

  lemma HealthAbstractsWellFormed()
    ensures FiveTexts(HealthAbstracts)
  {
  }

  lemma ScienceAbstractsWellFormed()
    ensures FiveTexts(ScienceAbstracts)
  {
  }

  lemma SportsAbstractsWellFormed()
    ensures FiveTexts(SportsAbstracts)
  {
  }

  /** `table[category] || table.technology`: a category without an entry reads the technology texts. */
  function TextsOf(m: map<string, seq<string>>, category: string): (r: seq<string>)
    requires TableWellFormed(m)
    ensures FiveTexts(r)
    ensures category in m ==> r == m[category]
    ensures category !in m ==> r == m["technology"]
  {
    if category in m then m[category] else m["technology"]
  }

  /** `texts[id % texts.length]`, every table holding five texts. */
  function TextAt(m: map<string, seq<string>>, category: string, serial: nat): (r: string)
    requires TableWellFormed(m)
    ensures r != "" && r in TextsOf(m, category)
  {
    TextsOf(m, category)[serial % 5]
  }

  /** `mock-<category>-<id>-<date>`. */
  function MockId(category: string, serial: nat, date: string): string {
    "mock-" + category + "-" + NatToString(serial) + "-" + date
  }

  /** An identifier ends with `-` and the date it was made for. */
  lemma MockIdEndsWithDate(category: string, serial: nat, date: string)
    ensures EndsWith(MockId(category, serial, date), "-" + date)
  {
    var r := MockId(category, serial, date);
    assert r == ("mock-" + category + "-" + NatToString(serial)) + ("-" + date);
  }

  /** `<date>T<HH>:<MM>:00+0000`. */
  function MockPubDate(date: string, hour: nat, minute: nat): string {
    date + "T" + PadStart2(hour) + ":" + PadStart2(minute) + ":00+0000"
  }

  /** The link every generated article carries: the site's front page. */
  const ArticleLink: string := "https://www.nytimes.com/"

  /** What every generated article satisfies: the store admits it and it links to the site. */
  predicate Generated(a: Article) {
    Admissible(a) && a.webUrl == ArticleLink
  }

  /** The record `generateMockArticle` builds around its headline and abstract. */
  function MockRecord(serial: nat, date: string, category: string, hour: nat, minute: nat,
                      headline: string, abstractText: string): (a: Article)
    requires headline != "" && abstractText != ""
    ensures Generated(a)
    ensures a.id == MockId(category, serial, date)
    ensures StartsWith(a.pubDate, date + "T")
    ensures a.headline == headline && a.abstractText == abstractText
    ensures 3 <= |a.snippet| <= 103 && a.snippet[|a.snippet| - 3..] == "..."
    ensures StartsWith(a.abstractText, a.snippet[..|a.snippet| - 3])
    ensures |a.snippet| - 3 == if |abstractText| < 100 then |abstractText| else 100
  {
    var snippet := Take(abstractText, 100) + "...";
    assert snippet[..|snippet| - 3] == Take(abstractText, 100);
    var pubDate := MockPubDate(date, hour, minute);
    assert pubDate[..|date + "T"|] == date + "T";
    Article(
      MockId(category, serial, date),
      abstractText,
      ArticleLink,
      snippet,
      pubDate,
      headline,
      [Media("https://picsum.photos/400/300?random=" + NatToString(serial), "image", "mediumThreeByTwo210")],
      "The New York Times")
  }

  /** `generateMockArticle(id, date, category)` with the hour and minute draws made explicit. */
  function MockArticle(t: Templates, serial: nat, date: string, category: string, hour: nat, minute: nat): (a: Article)
    requires TemplatesWellFormed(t)
    ensures Generated(a)
    ensures a.id == MockId(category, serial, date)
    ensures StartsWith(a.pubDate, date + "T")
    ensures a.headline == TextAt(t.headlines, category, serial)
    ensures a.abstractText == TextAt(t.abstracts, category, serial)
  {
    MockRecord(serial, date, category, hour, minute, TextAt(t.headlines, category, serial), TextAt(t.abstracts, category, serial))
  }

  /**
   * A category without template texts reads the technology ones: the article
   * equals the technology article except for the identifier, which keeps the
   * category string it was given.
   */
  lemma UnknownCategoryReadsTechnology(t: Templates, serial: nat, date: string, category: string, hour: nat, minute: nat)
    requires TemplatesWellFormed(t) && category !in t.headlines && category !in t.abstracts
    ensures var a := MockArticle(t, serial, date, category, hour, minute);
            var tech := MockArticle(t, serial, date, "technology", hour, minute);
            a == tech.(id := a.id) && a.id != tech.id
  {
    var a := MockArticle(t, serial, date, category, hour, minute);
    var tech := MockArticle(t, serial, date, "technology", hour, minute);
    if a.id == tech.id {
      MockIdCategory(category, "technology", serial, date);
    }
  }

  /** With the same serial number and date, the identifier determines the category. */
  lemma MockIdCategory(c1: string, c2: string, serial: nat, date: string)
    requires MockId(c1, serial, date) == MockId(c2, serial, date)
    ensures c1 == c2
  {
    var x := "-" + NatToString(serial) + "-" + date;
    var id := MockId(c1, serial, date);
    assert id == "mock-" + c1 + x;
    assert MockId(c2, serial, date) == "mock-" + c2 + x;
    assert c1 == id[5..5 + |c1|] == c2;
  }

  /** `year` as `new Date(year, ...)` reads it: years 0 to 99 mean 1900 to 1999. */
  function JsFullYear(year: int): int {
    if 0 <= year <= 99 then 1900 + year else year
  }

  predicate IsLeapYear(y: int) {
    y % 4 == 0 && (y % 100 != 0 || y % 400 == 0)
  }

  /** `new Date(year, month, 0).getDate()`: the last day of the 1-based `month`. */
  function DaysInMonth(year: int, month: Month): (d: nat)
    ensures 28 <= d <= 31
    ensures d == 29 <==> month == 2 && IsLeapYear(JsFullYear(year))
    ensures d == 28 <==> month == 2 && !IsLeapYear(JsFullYear(year))
    ensures d == 30 <==> month in {4, 6, 9, 11}
  {
    if month == 2 then
      (if IsLeapYear(JsFullYear(year)) then 29 else 28)
    else if month in {4, 6, 9, 11} then
      30
    else
      31
  }

  /** `Math.max(1, daysInMonth - 9)`. */
  function StartDay(year: int, month: Month): (d: int)
    ensures 1 <= d <= DaysInMonth(year, month)
    ensures DaysInMonth(year, month) - d + 1 == 10
  {
    Max(1, DaysInMonth(year, month) - 9)
  }

  function Max(a: int, b: int): int {
    if a < b then b else a
  }

  /** `${year}-${MM}-${DD}`. */
  function MockDate(year: int, month: Month, day: nat): (r: string)
    ensures day < 100 ==> |r| == |IntToString(year)| + 6
  {
    IntToString(year) + "-" + PadStart2(month) + "-" + PadStart2(day)
  }

  /** The category drawn by a pick. */
  function CategoryOf(p: Pick): string
    requires ValidPick(p)
  {
    Categories[p.category]
  }

  /** Article `k` of a generated day: serial number `day * 10 + k`, drawn by the `k`-th pick. */
  function DayArticle(t: Templates, day: nat, date: string, picks: seq<Pick>, k: nat): (a: Article)
    requires TemplatesWellFormed(t) && ValidDay(picks) && k < |picks|
    ensures Generated(a) && StartsWith(a.pubDate, date + "T")
    ensures a.id == MockId(CategoryOf(picks[k]), day * 10 + k, date)
  {
    MockArticle(t, day * 10 + k, date, CategoryOf(picks[k]), picks[k].hour, picks[k].minute)
  }

  /** The articles of one generated day before the facts about them are gathered. */
  function DayArticles(t: Templates, day: nat, date: string, picks: seq<Pick>): (r: seq<Article>)
    requires TemplatesWellFormed(t) && ValidDay(picks)
    ensures |r| == |picks|
    ensures forall k :: 0 <= k < |r| ==> Generated(r[k]) && StartsWith(r[k].pubDate, date + "T")
    ensures forall k :: 0 <= k < |r| ==> r[k].id == MockId(CategoryOf(picks[k]), day * 10 + k, date)
  {
    seq(|picks|, k requires 0 <= k < |picks| => DayArticle(t, day, date, picks, k))
  }

  /** What the month needs to know of a generated day whose date string is `date`. */
  ghost predicate DayFacts(r: seq<Article>, date: string) {
    DayIds(r, date) && DayDates(r, date)
  }

  /** The content part of `DayFacts`: each article is generated and dated on the day. */
  ghost predicate DayDates(r: seq<Article>, date: string) {
    forall a :: a in r ==> Generated(a) && StartsWith(a.pubDate, date + "T")
  }

  /** The identifier part of `DayFacts`: distinct, and each ends with the day's date. */
  ghost predicate DayIds(r: seq<Article>, date: string) {
    && DistinctBy(r, IdOf)
    && (forall a :: a in r ==> EndsWith(a.id, "-" + date))
  }

  /** The articles of one generated day, in the order of the inner loop. */
  function MockDay(t: Templates, day: nat, date: string, picks: seq<Pick>): (r: seq<Article>)
    requires TemplatesWellFormed(t) && ValidDay(picks)
    ensures |r| == |picks|
    ensures DayFacts(r, date)
  {
    var r := DayArticles(t, day, date, picks);
    SerialsDistinct(r, day, date, picks);
    SerialsMembers(r, day, date, picks);
    r
  }

  /**
   * The blocks of days `first`, `first + 1`, ..., one per entry of `draws`:
   * the outer loop of `generateMockNews`.
   */
  function MockBlocks(t: Templates, year: int, month: Month, first: nat, draws: seq<seq<Pick>>): (r: seq<seq<Article>>)
    requires TemplatesWellFormed(t) && ValidDraws(draws)
    ensures |r| == |draws|
    ensures forall i :: 0 <= i < |r| ==> r[i] == MockDay(t, first + i, MockDate(year, month, first + i), draws[i])
    ensures forall i :: 0 <= i < |r| ==> |r[i]| == |draws[i]| && DayFacts(r[i], MockDate(year, month, first + i))
  {
    seq(|draws|, i requires 0 <= i < |draws| => MockDay(t, first + i, MockDate(year, month, first + i), draws[i]))
  }

  /** The articles of `pub_date` on the given generated date. */
  function OnDate(date: string): Article -> bool {
    (a: Article) => StartsWith(a.pubDate, date)
  }

  /**
   * The unsorted month: the days from `StartDay` to the end of the month in
   * order, with the facts the sorted result inherits.
   */
  function MockMonth(t: Templates, year: int, month: Month, draws: seq<seq<Pick>>): (r: seq<Article>)
    requires TemplatesWellFormed(t)
    requires |draws| == DaysInMonth(year, month) - StartDay(year, month) + 1 && ValidDraws(draws)
    ensures 30 <= |r| <= 50
    ensures DistinctBy(r, IdOf)
    ensures forall a :: a in r ==> Generated(a)
    ensures forall a :: a in r ==> exists d :: StartDay(year, month) <= d <= DaysInMonth(year, month)
                                             && StartsWith(a.pubDate, MockDate(year, month, d) + "T")
    ensures forall d :: StartDay(year, month) <= d <= DaysInMonth(year, month) ==>
              CountIf(r, OnDate(MockDate(year, month, d))) == |draws[d - StartDay(year, month)]|
  {
    var blocks := MockBlocks(t, year, month, StartDay(year, month), draws);
    MonthFacts(blocks, year, month);
    MonthCounts(blocks, year, month, draws);
    Concat(blocks)
  }


  /**
   * `generateMockNews(year, month)`: the last ten days of the month, three to
   * five articles per day, sorted newest first by parsed `pub_date`.
   */
  function GenerateMockNews(t: Templates, year: int, month: Month, draws: seq<seq<Pick>>, cal: Calendar): (r: seq<Article>)
    requires TemplatesWellFormed(t)
    requires |draws| == DaysInMonth(year, month) - StartDay(year, month) + 1 && ValidDraws(draws)
    ensures 30 <= |r| <= 50
    ensures SortedDesc(r, PubTime(cal))
    ensures DistinctBy(r, IdOf)
    ensures forall a :: a in r ==> Generated(a)
    ensures forall a :: a in r ==> exists d :: StartDay(year, month) <= d <= DaysInMonth(year, month)
                                             && StartsWith(a.pubDate, MockDate(year, month, d) + "T")
    ensures forall d :: StartDay(year, month) <= d <= DaysInMonth(year, month) ==>
              CountIf(r, OnDate(MockDate(year, month, d))) == |draws[d - StartDay(year, month)]|
  {
    var unsorted := MockMonth(t, year, month, draws);
    var r := SortDesc(unsorted, PubTime(cal));
    SortDescDistinct(unsorted, PubTime(cal), IdOf);
    assert forall a :: a in r ==> a in unsorted by {
      forall a | a in r ensures a in unsorted {
        assert a in multiset(r);
      }
    }
    forall d | StartDay(year, month) <= d <= DaysInMonth(year, month)
      ensures CountIf(r, OnDate(MockDate(year, month, d))) == |draws[d - StartDay(year, month)]|
    {
      SortDescCount(unsorted, PubTime(cal), OnDate(MockDate(year, month, d)));
    }
    r
  }

  // ---------------------------------------------------------------------
  // Facts about one generated day
  // ---------------------------------------------------------------------

  /** Articles of one day differ in their serial numbers, and so in their identifiers. */
  lemma SerialsDistinct(r: seq<Article>, day: nat, date: string, picks: seq<Pick>)
    requires ValidDay(picks) && |r| == |picks|
    requires forall k :: 0 <= k < |r| ==> r[k].id == MockId(CategoryOf(picks[k]), day * 10 + k, date)
    ensures DistinctBy(r, IdOf)
  {
    forall i, j | 0 <= i < j < |r| ensures IdOf(r[i]) != IdOf(r[j]) {
      SerialsApart(CategoryOf(picks[i]), day * 10 + i, CategoryOf(picks[j]), day * 10 + j, date);
    }
  }

  lemma SerialsApart(c1: string, n1: nat, c2: string, n2: nat, date: string)
    requires c1 in Categories && c2 in Categories && n1 != n2
    ensures MockId(c1, n1, date) != MockId(c2, n2, date)
  {
    CategoriesHaveNoDash(c1);
    CategoriesHaveNoDash(c2);
    if MockId(c1, n1, date) == MockId(c2, n2, date) {
      MockIdInjective(c1, n1, date, c2, n2, date);
    }
  }

  lemma SerialsMembers(r: seq<Article>, day: nat, date: string, picks: seq<Pick>)
    requires ValidDay(picks) && |r| == |picks|
    requires forall k :: 0 <= k < |r| ==> r[k].id == MockId(CategoryOf(picks[k]), day * 10 + k, date)
    ensures forall a :: a in r ==> EndsWith(a.id, "-" + date)
  {
    forall a | a in r ensures EndsWith(a.id, "-" + date) {
      var k :| 0 <= k < |r| && r[k] == a;
      MockIdEndsWithDate(CategoryOf(picks[k]), day * 10 + k, date);
    }
  }

  /** Identifiers determine category, serial number and date, because neither of the first two contains `-`. */
  lemma MockIdInjective(c1: string, n1: nat, d1: string, c2: string, n2: nat, d2: string)
    requires '-' !in c1 && '-' !in c2
    requires MockId(c1, n1, d1) == MockId(c2, n2, d2)
    ensures c1 == c2 && n1 == n2 && d1 == d2
  {
    var s1 := NatToString(n1) + "-" + d1;
    var s2 := NatToString(n2) + "-" + d2;
    assert MockId(c1, n1, d1) == "mock-" + (c1 + "-" + s1);
    assert MockId(c2, n2, d2) == "mock-" + (c2 + "-" + s2);
    assert c1 + "-" + s1 == MockId(c1, n1, d1)[5..] == c2 + "-" + s2;
    SplitAtSeparator(c1, s1, c2, s2, '-');
    assert '-' !in NatToString(n1) && '-' !in NatToString(n2) by {
      NatToStringDigits(n1);
      NatToStringDigits(n2);
      assert !IsDigit('-');
    }
    SplitAtSeparator(NatToString(n1), d1, NatToString(n2), d2, '-');
    NatToStringInjective(n1, n2);
  }

  lemma CategoriesHaveNoDash(c: string)
    requires c in Categories
    ensures '-' !in c
  {
  }

  /** A `pub_date` written on day `d` of a month starts with the date of day `e` only when `e` is `d`. */
  lemma MockDateSeparates(year: int, month: Month, d: nat, e: nat, s: string)
    requires d < 100 && e < 100
    requires StartsWith(s, MockDate(year, month, d))
    ensures StartsWith(s, MockDate(year, month, e)) <==> d == e
  {
    var p := IntToString(year) + "-" + PadStart2(month) + "-";
    assert MockDate(year, month, d) == p + PadStart2(d);
    assert MockDate(year, month, e) == p + PadStart2(e);
    if StartsWith(s, MockDate(year, month, e)) {
      assert PadStart2(d) == MockDate(year, month, d)[|p|..] == MockDate(year, month, e)[|p|..] == PadStart2(e);
      PadStart2Injective(d, e);
    }
  }

  // ---------------------------------------------------------------------
  // The month from its days
  // ---------------------------------------------------------------------

  /** Articles of two different days never share an identifier: the date is part of it. */
  lemma DaysApart(year: int, month: Month, d: nat, e: nat, x: Article, y: Article)
    requires d < e < 100
    requires EndsWith(x.id, "-" + MockDate(year, month, d))
    requires EndsWith(y.id, "-" + MockDate(year, month, e))
    ensures x.id != y.id
  {
    if x.id == y.id {
      var s := x.id;
      assert "-" + MockDate(year, month, d) == s[|s| - |MockDate(year, month, d)| - 1..] == "-" + MockDate(year, month, e);
      assert MockDate(year, month, d) == ("-" + MockDate(year, month, d))[1..];
      MockDateSeparates(year, month, d, e, MockDate(year, month, d));
    }
  }

  /** The size, identifier and date facts `MockMonth` states, for blocks of the month's last ten days. */
  lemma MonthFacts(blocks: seq<seq<Article>>, year: int, month: Month)
    requires |blocks| == DaysInMonth(year, month) - StartDay(year, month) + 1
    requires forall i :: 0 <= i < |blocks| ==>
               3 <= |blocks[i]| <= 5 && DayFacts(blocks[i], MockDate(year, month, StartDay(year, month) + i))
    ensures var r := Concat(blocks);
            && 30 <= |r| <= 50
            && DistinctBy(r, IdOf)
            && (forall a :: a in r ==> Generated(a))
            && (forall a :: a in r ==> exists d :: StartDay(year, month) <= d <= DaysInMonth(year, month)
                                             && StartsWith(a.pubDate, MockDate(year, month, d) + "T"))
  {
    MonthShape(blocks, year, month, StartDay(year, month));
  }

  /** Each generated date carries exactly as many articles as were drawn for it. */
  lemma MonthCounts(blocks: seq<seq<Article>>, year: int, month: Month, draws: seq<seq<Pick>>)
    requires |draws| == DaysInMonth(year, month) - StartDay(year, month) + 1
    requires |blocks| == |draws|
    requires forall i :: 0 <= i < |blocks| ==>
               |blocks[i]| == |draws[i]| && DayFacts(blocks[i], MockDate(year, month, StartDay(year, month) + i))
    ensures forall d :: StartDay(year, month) <= d <= DaysInMonth(year, month) ==>
              CountIf(Concat(blocks), OnDate(MockDate(year, month, d))) == |draws[d - StartDay(year, month)]|
  {
    BlocksCounts(blocks, year, month, draws, StartDay(year, month));
  }

  lemma BlocksCounts(blocks: seq<seq<Article>>, year: int, month: Month, draws: seq<seq<Pick>>, first: nat)
    requires first + |blocks| <= 100 && |blocks| == |draws|
    requires forall i :: 0 <= i < |blocks| ==> |blocks[i]| == |draws[i]| && DayFacts(blocks[i], MockDate(year, month, first + i))
    ensures forall d :: first <= d < first + |blocks| ==>
              CountIf(Concat(blocks), OnDate(MockDate(year, month, d))) == |draws[d - first]|
  {
    forall d | first <= d < first + |blocks|
      ensures CountIf(Concat(blocks), OnDate(MockDate(year, month, d))) == |draws[d - first]|
    {
      BlocksPerDate(blocks, year, month, first, d);
    }
  }

  lemma MonthShape(blocks: seq<seq<Article>>, year: int, month: Month, first: nat)
    requires first + |blocks| <= 100
    requires forall i :: 0 <= i < |blocks| ==> 3 <= |blocks[i]| <= 5 && DayFacts(blocks[i], MockDate(year, month, first + i))
    ensures var r := Concat(blocks);
            && 3 * |blocks| <= |r| <= 5 * |blocks|
            && DistinctBy(r, IdOf)
            && (forall a :: a in r ==> Generated(a))
            && (forall a :: a in r ==> exists d :: first <= d < first + |blocks| && StartsWith(a.pubDate, MockDate(year, month, d) + "T"))
  {
    ConcatLengthBounds(blocks, 3, 5);
    BlocksDistinct(blocks, year, month, first);
    BlocksMembers(blocks, year, month, first);
  }

  lemma BlocksDistinct(blocks: seq<seq<Article>>, year: int, month: Month, first: nat)
    requires first + |blocks| <= 100
    requires forall i :: 0 <= i < |blocks| ==> DayIds(blocks[i], MockDate(year, month, first + i))
    ensures DistinctBy(Concat(blocks), IdOf)
  {
    BlocksApart(blocks, year, month, first);
    ConcatDistinct(blocks, IdOf);
  }

  lemma BlocksApart(blocks: seq<seq<Article>>, year: int, month: Month, first: nat)
    requires first + |blocks| <= 100
    requires forall i :: 0 <= i < |blocks| ==> DayIds(blocks[i], MockDate(year, month, first + i))
    ensures forall i, j, x, y :: 0 <= i < j < |blocks| && x in blocks[i] && y in blocks[j] ==> IdOf(x) != IdOf(y)
  {
    forall i, j, x, y | 0 <= i < j < |blocks| && x in blocks[i] && y in blocks[j] ensures IdOf(x) != IdOf(y) {
      DaysApart(year, month, first + i, first + j, x, y);
    }
  }

  lemma BlocksMembers(blocks: seq<seq<Article>>, year: int, month: Month, first: nat)
    requires forall i :: 0 <= i < |blocks| ==> DayDates(blocks[i], MockDate(year, month, first + i))
    ensures forall a :: a in Concat(blocks) ==>
              Generated(a) && exists d :: first <= d < first + |blocks| && StartsWith(a.pubDate, MockDate(year, month, d) + "T")
  {
    forall a | a in Concat(blocks)
      ensures Generated(a) && exists d :: first <= d < first + |blocks| && StartsWith(a.pubDate, MockDate(year, month, d) + "T")
    {
      BlockMember(blocks, year, month, first, a);
    }
  }

  lemma BlockMember(blocks: seq<seq<Article>>, year: int, month: Month, first: nat, a: Article)
    requires forall i :: 0 <= i < |blocks| ==> DayDates(blocks[i], MockDate(year, month, first + i))
    requires a in Concat(blocks)
    ensures Generated(a) && exists d :: first <= d < first + |blocks| && StartsWith(a.pubDate, MockDate(year, month, d) + "T")
  {
    ConcatMember(blocks, a);
    var i :| 0 <= i < |blocks| && a in blocks[i];
    assert StartsWith(a.pubDate, MockDate(year, month, first + i) + "T");
  }

  /** Exactly the articles of a day are dated on that day. */
  lemma DayOnDate(r: seq<Article>, year: int, month: Month, day: nat, d: nat)
    requires day < 100 && d < 100
    requires forall a :: a in r ==> StartsWith(a.pubDate, MockDate(year, month, day) + "T")
    ensures CountIf(r, OnDate(MockDate(year, month, d))) == if d == day then |r| else 0
  {
    var p := OnDate(MockDate(year, month, d));
    var date := MockDate(year, month, day);
    forall k | 0 <= k < |r| ensures p(r[k]) <==> d == day {
      assert r[k] in r;
      assert StartsWith(r[k].pubDate, date) by {
        assert r[k].pubDate[..|date|] == (date + "T")[..|date|];
      }
      MockDateSeparates(year, month, day, d, r[k].pubDate);
    }
    if d == day {
      CountIfAll(r, p);
    } else {
      CountIfNone(r, p);
    }
  }

  lemma BlocksPerDate(blocks: seq<seq<Article>>, year: int, month: Month, first: nat, d: nat)
    requires first <= d < first + |blocks| <= 100
    requires forall i :: 0 <= i < |blocks| ==> DayFacts(blocks[i], MockDate(year, month, first + i))
    ensures CountIf(Concat(blocks), OnDate(MockDate(year, month, d))) == |blocks[d - first]|
  {
    var p := OnDate(MockDate(year, month, d));
    forall i | 0 <= i < |blocks| ensures CountIf(blocks[i], p) == if i == d - first then |blocks[d - first]| else 0 {
      DayOnDate(blocks[i], year, month, first + i, d);
    }
    ConcatCountOneBlock(blocks, p, d - first, |blocks[d - first]|);
  }
}
