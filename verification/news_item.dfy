/**
 * `src/components/news-item/news-item.tsx`: which picture an article card
 * shows, how a relative media path becomes an absolute URL, and the card's
 * title.
 */
module NewsItem {
  import opened Wrappers
  import opened Strings
  import opened NewsTypes

  const SiteRoot: string := "https://www.nytimes.com/"

  /** The media `getImageUrl` looks for first: an image in one of three renditions. */
  predicate Preferred(m: Media) {
    m.mediaType == "image" && (m.subtype == "xlarge" || m.subtype == "mediumThreeByTwo210" || m.subtype == "popup")
  }

  /** `multimedia.find(Preferred)`: the position of the first preferred entry, if any. */
  function FindPreferred(ms: seq<Media>): (r: Option<nat>)
    ensures r.Some? ==> r.value < |ms| && Preferred(ms[r.value])
                        && forall j :: 0 <= j < r.value ==> !Preferred(ms[j])
    ensures r.None? ==> forall j :: 0 <= j < |ms| ==> !Preferred(ms[j])
  {
    if |ms| == 0 then None
    else if Preferred(ms[0]) then Some(0)
    else match FindPreferred(ms[1..])
      case None => None
      case Some(k) => Some(k + 1)
  }

  /** The entry the card uses: the first preferred one, else the first one. */
  function ChosenMedia(ms: seq<Media>): (m: Media)
    requires |ms| > 0
    ensures m in ms
    ensures (exists j :: 0 <= j < |ms| && Preferred(ms[j])) ==> Preferred(m)
    ensures (forall j :: 0 <= j < |ms| ==> !Preferred(ms[j])) ==> m == ms[0]
    ensures forall k :: 0 <= k < |ms| && Preferred(ms[k]) && (forall j :: 0 <= j < k ==> !Preferred(ms[j])) ==> m == ms[k]
  {
    match FindPreferred(ms)
    case Some(k) => ms[k]
    case None => ms[0]
  }

  /** An absolute URL is kept; anything else is taken relative to the site root. */
  function Absolute(url: string): (r: string)
    ensures StartsWith(r, "http")
    ensures StartsWith(url, "http") ==> r == url
    ensures !StartsWith(url, "http") ==> r == SiteRoot + url
  {
    if StartsWith(url, "http") then url
    else
      assert (SiteRoot + url)[..4] == "http";
      SiteRoot + url
  }

  /** Making a URL absolute twice is making it absolute once. */
  lemma AbsoluteIdempotent(url: string)
    ensures Absolute(Absolute(url)) == Absolute(url)
  {
  }

  /** `getImageUrl()`: no picture without media, otherwise the chosen entry's absolute URL. */
  function ImageUrl(a: Article): (r: Option<string>)
    ensures r.None? <==> |a.multimedia| == 0
    ensures r.Some? ==> StartsWith(r.value, "http")
    ensures r.Some? ==> exists m :: m in a.multimedia && r.value == Absolute(m.url)
    ensures |a.multimedia| > 0 ==> r == Some(Absolute(ChosenMedia(a.multimedia).url))
  {
    if |a.multimedia| > 0 then
      var m := ChosenMedia(a.multimedia);
      Some(Absolute(m.url))
    else
      None
  }

  /** A preferred entry that follows only plain ones is the picture shown, wherever it sits. */
  lemma PreferredWins(a: Article, k: nat)
    requires k < |a.multimedia| && Preferred(a.multimedia[k])
    requires forall j :: 0 <= j < k ==> !Preferred(a.multimedia[j])
    ensures ImageUrl(a) == Some(Absolute(a.multimedia[k].url))
  {
  }

  /** The card title: the main headline when present, the abstract otherwise. */
  function Title(a: Article): (r: string)
    ensures a.headline != "" ==> r == a.headline
    ensures a.headline == "" ==> r == a.abstractText
  {
    if a.headline != "" then a.headline else a.abstractText
  }

  /** Every article the store admits has a non-empty title, its headline. */
  lemma AdmittedTitle(a: Article)
    requires Admissible(a)
    ensures Title(a) == a.headline && Title(a) != ""
  {
  }
}
