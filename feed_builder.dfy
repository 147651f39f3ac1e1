/**
 * The item-building part of `generateRss`: the first ten manifest entries, each turned
 * into a feed item that links to its resolved article. The fetched manifest and article
 * listing arrive as the parameters `versions` and `articles`.
 */
module FeedBuilder {
  import opened Wrappers
  import opened Classifier
  import opened Resolver

  /** `RECENT_COUNT`: how many of the newest manifest entries become items. */
  const RecentCount: nat := 10

  /** The site the article listing's relative paths belong to. */
  const Origin: string := "https://minecraft.net"

  /** One entry of the manifest's `versions` list. */
  datatype VersionEntry = VersionEntry(id: string, kind: VersionType, url: string, time: string, releaseTime: string)

  /** The fields passed to `feed.addItem`; `date` keeps `releaseTime` as the manifest gives it. */
  datatype FeedItem = FeedItem(date: string, link: string, title: string, id: Option<string>, image: Option<string>)

  /** `fixOrigin`: a site-relative path made absolute. */
  function FixOrigin(relative: string): (r: string)
    ensures |r| == |Origin| + |relative|
    ensures r[..|Origin|] == Origin && r[|Origin|..] == relative
  {
    Origin + relative
  }

  /** Two paths made absolute are equal only if the paths were. */
  lemma FixOriginInjective(a: string, b: string)
    requires FixOrigin(a) == FixOrigin(b)
    ensures a == b
  {
  }

  /** `versions.slice(0, RECENT_COUNT)`. */
  function Recent(versions: seq<VersionEntry>): (r: seq<VersionEntry>)
    ensures |r| == if |versions| < RecentCount then |versions| else RecentCount
    ensures forall i :: 0 <= i < |r| ==> r[i] == versions[i]
  {
    versions[..if |versions| < RecentCount then |versions| else RecentCount]
  }

  /** `article.preferred_tile ?? article.default_tile`. */
  function DisplayTile(article: Article): (t: Tile)
    ensures article.preferredTile.Some? ==> t == article.preferredTile.value
    ensures article.preferredTile.None? ==> t == article.defaultTile
  {
    match article.preferredTile
    case Some(t) => t
    case None => article.defaultTile
  }

  /** The item `addItem` receives for entry v when the resolver gave `article`. */
  function MakeItem(v: VersionEntry, article: Option<Article>): (item: FeedItem)
    ensures item.title == v.id && item.date == v.releaseTime
    ensures item.link == "" <==> article.None?
    ensures article.None? ==> item.id.None? && item.image.None?
    ensures article.Some? ==>
              && item.id == Some(FixOrigin(article.value.articleUrl))
              && item.link == item.id.value
              && item.image == Some(FixOrigin(DisplayTile(article.value).imageUrl))
  {
    match article
    case Some(a) =>
      var url := FixOrigin(a.articleUrl);
      FeedItem(v.releaseTime, url, v.id, Some(url), Some(FixOrigin(DisplayTile(a).imageUrl)))
    case None =>
      FeedItem(v.releaseTime, "", v.id, None, None)
  }

  /**
   * The item for entry v: titled with the id; when the entry's article is found, linked
   * to it and illustrated with its display tile, both made absolute; otherwise an
   * empty link and neither id nor image.
   */
  function ItemFor(v: VersionEntry, articles: seq<Article>): (item: FeedItem)
    ensures item.title == v.id && item.date == v.releaseTime
    ensures item.id.Some? <==> ArticleFor(ExtractType(v.id, v.kind), articles).Some?
    ensures item.link == "" <==> item.id.None?
    ensures item.id.Some? ==> item.link == item.id.value
    ensures item.image.Some? <==> item.id.Some?
    ensures ArticleFor(ExtractType(v.id, v.kind), articles).Some? ==>
              var a := ArticleFor(ExtractType(v.id, v.kind), articles).value;
              && a in articles
              && item.id == Some(FixOrigin(a.articleUrl))
              && item.image == Some(FixOrigin(DisplayTile(a).imageUrl))
  {
    MakeItem(v, ArticleFor(ExtractType(v.id, v.kind), articles))
  }

  /**
   * The loop of `generateRss` that adds one item per recent entry, in manifest order.
   * The `Feed` object is reduced to the sequence of items added to it.
   */
  method GenerateItems(versions: seq<VersionEntry>, articles: seq<Article>) returns (items: seq<FeedItem>)
    ensures |items| == if |versions| < RecentCount then |versions| else RecentCount
    ensures forall i :: 0 <= i < |items| ==> items[i] == ItemFor(versions[i], articles)
  {
    var recent := Recent(versions);
    items := [];
    var n := 0;
    while n < |recent|
      invariant n <= |recent| && |items| == n
      invariant forall i :: 0 <= i < n ==> items[i] == ItemFor(recent[i], articles)
    {
      var v := recent[n];
      var data := ExtractType(v.id, v.kind);
      var article := FindArticle(data, articles);
      var item := MakeItem(v, article);
      assert item == ItemFor(v, articles);
      items := items + [item];
      n := n + 1;
    }
  }

  /** A release or snapshot entry whose expected path is in the listing is linked to that path. */
  lemma NamedEntryLinked(v: VersionEntry, articles: seq<Article>, a: Article)
    requires !ExtractType(v.id, v.kind).IsNumbered()
    requires a in articles && a.articleUrl == NamedSlug(ExtractType(v.id, v.kind))
    ensures ItemFor(v, articles).link == FixOrigin(a.articleUrl)
    ensures ItemFor(v, articles).image.Some?
  {
  }
}
