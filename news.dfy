/** The news page: the `fetchNews` lookup that keeps the previous list,
    and the derived card values (featured image, badge number, excerpt). */
module News {
  import opened Wrappers
  import opened Text

  const FeedUrl := "https://techcrunch.com/wp-json/wp/v2/posts?per_page=3&_embed"
  const FetchError := "Error al cargar las noticias. Intenta de nuevo."
  const ExcerptLength := 150

  datatype Media = Media(sourceUrl: Option<string>)

  /** `_embedded`, of which only `wp:featuredmedia` is read. */
  datatype Embedded = Embedded(featuredMedia: Option<seq<Media>>)

  /** A WordPress post; `title` and `excerpt` are the `rendered` HTML. */
  datatype NewsItem = NewsItem(
    id: int,
    title: string,
    excerpt: string,
    link: string,
    date: string,
    embedded: Option<Embedded>)

  /** `item._embedded?.['wp:featuredmedia']?.[0]?.source_url`, when truthy. */
  function FeaturedImage(item: NewsItem): Option<string> {
    match item.embedded
    case None => None
    case Some(e) =>
      match e.featuredMedia
      case None => None
      case Some(media) =>
        if |media| == 0 then None
        else match media[0].sourceUrl
          case None => None
          case Some(url) => if url == "" then None else Some(url)
  }

  /** `stripHtml(item.excerpt.rendered).substring(0, 150)` followed by "...". */
  function Excerpt(stripped: string): (r: string)
    ensures |r| <= ExcerptLength + 3
    ensures |r| >= 3 && r[|r| - 3..] == "..."
    ensures r[..|r| - 3] <= stripped
    ensures |r| - 3 == if |stripped| < ExcerptLength then |stripped| else ExcerptLength
  {
    var cut := if |stripped| < ExcerptLength then |stripped| else ExcerptLength;
    var r := stripped[..cut] + "...";
    assert r[..|r| - 3] == stripped[..cut];
    r
  }

  /** The values one card derives from its post and its position. */
  datatype CardView = CardView(image: Option<string>, badge: Option<nat>, title: string, excerpt: string, link: string)

  /** The card for `item` at `index`; `strip` stands for the DOM-based
      `stripHtml`. The badge lives inside the image block. */
  function Card(item: NewsItem, index: nat, strip: string -> string): CardView {
    var image := FeaturedImage(item);
    CardView(
      image,
      if image.Some? then Some(index + 1) else None,
      strip(item.title),
      Excerpt(strip(item.excerpt)),
      item.link)
  }

  function Cards(news: seq<NewsItem>, strip: string -> string): (cards: seq<CardView>)
    ensures |cards| == |news|
    ensures forall i :: 0 <= i < |news| ==> cards[i] == Card(news[i], i, strip)
  {
    seq(|news|, i requires 0 <= i < |news| => Card(news[i], i, strip))
  }

  /** Over the rendered list: a card has a badge exactly when it has an
      image, badges number the cards from 1 in list order, every image URL
      is non-empty and every excerpt is at most 153 characters. */
  lemma CardsSpec(news: seq<NewsItem>, strip: string -> string)
    ensures var cards := Cards(news, strip);
      forall i :: 0 <= i < |cards| ==>
        && (cards[i].badge.Some? <==> cards[i].image.Some?)
        && (cards[i].badge.Some? ==> cards[i].badge.value == i + 1)
        && (cards[i].image.Some? ==> cards[i].image.value != "")
        && |cards[i].excerpt| <= ExcerptLength + 3
  {
  }

  /** A post whose excerpt is short enough keeps it whole before the "...". */
  lemma ShortExcerptWhole(stripped: string)
    requires |stripped| <= ExcerptLength
    ensures Excerpt(stripped) == stripped + "..."
  {
  }

  /** `!loading && news.length > 0`. */
  predicate ListVisible(loading: bool, news: seq<NewsItem>) {
    !loading && |news| > 0
  }

  class NewsPage {
    var news: seq<NewsItem>
    var loading: bool
    var error: string
    ghost var inFlight: multiset<string>

    /** The page as first rendered, before the mount effect runs. */
    constructor ()
      ensures news == [] && loading && error == "" && inFlight == multiset{}
    {
      news, loading, error := [], true, "";
      inFlight := multiset{};
    }

    /** `fetchNews` up to its `await`: the old list is kept, hidden. */
    method Begin() returns (request: string)
      modifies this
      ensures request == FeedUrl
      ensures loading && error == "" && news == old(news) && !ListVisible(loading, news)
      ensures inFlight == old(inFlight) + multiset{FeedUrl}
    {
      loading := true;
      error := "";
      request := FeedUrl;
      inFlight := inFlight + multiset{request};
    }

    /** The request resolved: the list is replaced wholesale. */
    method CompleteOk(url: string, items: seq<NewsItem>)
      requires url in inFlight
      modifies this
      ensures news == items && !loading && error == old(error)
      ensures ListVisible(loading, news) <==> |items| > 0
      ensures inFlight == old(inFlight) - multiset{url}
    {
      news := items;
      loading := false;
      inFlight := inFlight - multiset{url};
    }

    /** The request failed: the error is set and the old list kept. */
    method CompleteErr(url: string)
      requires url in inFlight
      modifies this
      ensures error == FetchError && !loading && news == old(news)
      ensures inFlight == old(inFlight) - multiset{url}
    {
      error := FetchError;
      loading := false;
      inFlight := inFlight - multiset{url};
    }
  }

  /** A failed refresh after a successful load shows the error card above
      the previous list. */
  method RefreshFailureKeepsList(items: seq<NewsItem>)
    returns (listed: seq<NewsItem>, message: string, visible: bool)
    requires |items| > 0
    ensures listed == items && message == FetchError && visible
  {
    var page := new NewsPage();
    var r1 := page.Begin();
    page.CompleteOk(r1, items);
    var r2 := page.Begin();
    page.CompleteErr(r2);
    listed, message, visible := page.news, page.error, ListVisible(page.loading, page.news);
  }
}
