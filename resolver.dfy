/**
 * The article resolver (`findArticle`): the news article for a classified version,
 * looked up by its expected path in the listing of news articles.
 */
module Resolver {
  import opened Wrappers
  import Decimal
  import opened Classifier

  /** The thumbnail card of an article (`tile_size` is not modelled). */
  datatype Tile = Tile(subHeader: string, imageUrl: string, alt: string, title: string)

  /** One entry of the article listing; only the fields the feed reads are kept. */
  datatype Article = Article(articleUrl: string, defaultTile: Tile, preferredTile: Option<Tile>)

  const ArticleRoot: string := "/en-us/article/"

  /** `s.replaceAll('.', '-')`. */
  function ReplaceDots(s: string): (r: string)
    ensures |r| == |s|
    ensures forall i :: 0 <= i < |s| ==> r[i] == (if s[i] == '.' then '-' else s[i])
  {
    if s == [] then [] else [if s[0] == '.' then '-' else s[0]] + ReplaceDots(s[1..])
  }

  /** The stems of a release's and a snapshot's article path. */
  const ReleaseStem: string := ArticleRoot + "minecraft-java-edition-"
  const SnapshotStem: string := ArticleRoot + "minecraft-snapshot-"

  /** The one path a release's or a snapshot's article can have. */
  function NamedSlug(data: VersionData): (r: string)
    requires !data.IsNumbered()
    ensures var stem := if data.ReleaseVersion? then ReleaseStem else SnapshotStem;
            |r| == |stem| + |data.id| && r[..|stem|] == stem && r[|stem|..] == ReplaceDots(data.id)
  {
    (if data.ReleaseVersion? then ReleaseStem else SnapshotStem) + ReplaceDots(data.id)
  }

  /** A release's article path is never a snapshot's, whatever the two ids. */
  lemma NamedSlugKindsDiffer(release: string, snapshot: string)
    ensures NamedSlug(ReleaseVersion(release)) != NamedSlug(SnapshotVersion(snapshot))
  {
    var i := |ArticleRoot| + 10;
    assert NamedSlug(ReleaseVersion(release))[i] == ReleaseStem[i] == 'j';
    assert NamedSlug(SnapshotVersion(snapshot))[i] == SnapshotStem[i] == 's';
  }

  /** The path of the article for build number k of a pre-release or release candidate. */
  function CandidateSlug(data: VersionData, k: nat): string
    requires data.IsNumbered()
  {
    ArticleRoot + "minecraft-" + ReplaceDots(data.release)
    + "-" + (if data.PreRelease? then "pre-release" else "release-candidate")
    + "-" + Decimal.Render(k)
  }

  /**
   * A probed path names the release, dots as dashes, right after the root, then the
   * kind of build (`pre-release-` or `release-candidate-`), and ends with the build
   * number in decimal.
   */
  lemma CandidateSlugShape(data: VersionData, k: nat)
    requires data.IsNumbered()
    ensures var r := CandidateSlug(data, k);
            var stem := ArticleRoot + "minecraft-" + ReplaceDots(data.release) + "-";
            var kind := (if data.PreRelease? then "pre-release" else "release-candidate") + "-";
            && |r| == |stem| + |kind| + |Decimal.Render(k)|
            && r[..|stem|] == stem
            && r[|stem|..|r| - |Decimal.Render(k)|] == kind
            && r[|r| - |Decimal.Render(k)|..] == Decimal.Render(k)
  {
    var r := CandidateSlug(data, k);
    var stem := ArticleRoot + "minecraft-" + ReplaceDots(data.release) + "-";
    var kind := if data.PreRelease? then "pre-release" else "release-candidate";
    assert r == stem + (kind + "-" + Decimal.Render(k));
    assert r == (stem + kind + "-") + Decimal.Render(k);
  }

  /** A pre-release's probed path is never a release candidate's, whatever the builds. */
  lemma CandidateSlugKindsDiffer(release: string, n: nat, m: nat, j: nat, k: nat)
    ensures CandidateSlug(PreRelease(release, n), j) != CandidateSlug(ReleaseCandidate(release, m), k)
  {
    var stem := ArticleRoot + "minecraft-" + ReplaceDots(release) + "-";
    CandidateSlugShape(PreRelease(release, n), j);
    CandidateSlugShape(ReleaseCandidate(release, m), k);
    var i := |stem|;
    assert CandidateSlug(PreRelease(release, n), j)[i] == 'p';
    assert CandidateSlug(ReleaseCandidate(release, m), k)[i] == 'r';
  }

  /** Different build numbers give different paths, so no path is probed twice. */
  lemma CandidateSlugInjective(data: VersionData, j: nat, k: nat)
    requires data.IsNumbered() && CandidateSlug(data, j) == CandidateSlug(data, k)
    ensures j == k
  {
    var stem := ArticleRoot + "minecraft-" + ReplaceDots(data.release)
                + "-" + (if data.PreRelease? then "pre-release" else "release-candidate") + "-";
    assert CandidateSlug(data, j) == stem + Decimal.Render(j);
    assert CandidateSlug(data, k) == stem + Decimal.Render(k);
    assert Decimal.Render(j) == CandidateSlug(data, j)[|stem|..];
    assert Decimal.Render(k) == CandidateSlug(data, k)[|stem|..];
    Decimal.RenderInjective(j, k);
  }

  /** `articles.find(({article_url}) => article_url === url)`. */
  function FindByUrl(articles: seq<Article>, url: string): (r: Option<Article>)
    ensures r.Some? ==> r.value in articles && r.value.articleUrl == url
    ensures r.None? <==> forall i :: 0 <= i < |articles| ==> articles[i].articleUrl != url
  {
    if articles == [] then None
    else if articles[0].articleUrl == url then Some(articles[0])
    else
      var r := FindByUrl(articles[1..], url);
      assert forall i :: 0 < i < |articles| ==> articles[i] == articles[1..][i - 1];
      r
  }

  /** `find` returns the first article in list order that has the path. */
  lemma {:induction false} FindByUrlIsFirst(articles: seq<Article>, url: string)
    requires FindByUrl(articles, url).Some?
    ensures exists i :: 0 <= i < |articles| && articles[i] == FindByUrl(articles, url).value
                        && forall j :: 0 <= j < i ==> articles[j].articleUrl != url
  {
    if articles[0].articleUrl != url {
      var tail := articles[1..];
      FindByUrlIsFirst(tail, url);
      var i :| 0 <= i < |tail| && tail[i] == FindByUrl(tail, url).value
               && forall j :: 0 <= j < i ==> tail[j].articleUrl != url;
      assert articles[i + 1] == tail[i];
      assert forall j :: 0 < j <= i ==> articles[j] == tail[j - 1];
    }
  }

  /** What probing build number k finds. */
  function ProbeAt(data: VersionData, articles: seq<Article>, k: nat): Option<Article>
    requires data.IsNumbered()
  {
    FindByUrl(articles, CandidateSlug(data, k))
  }

  /**
   * Probing build k finds an article of the listing with that build's path, and finds
   * nothing exactly when no article has it.
   */
  lemma ProbeAtIsLookup(data: VersionData, articles: seq<Article>, k: nat)
    requires data.IsNumbered()
    ensures var r := ProbeAt(data, articles, k);
            r.Some? ==> r.value in articles && r.value.articleUrl == CandidateSlug(data, k)
    ensures ProbeAt(data, articles, k).None? <==>
              forall a :: a in articles ==> a.articleUrl != CandidateSlug(data, k)
  {
    if ProbeAt(data, articles, k).None? {
      forall a | a in articles ensures a.articleUrl != CandidateSlug(data, k) {
        var i :| 0 <= i < |articles| && articles[i] == a;
      }
    }
  }

  /**
   * The downward probe from build number k: the first of builds k, k - 1, ..., 1
   * whose path some article has.
   */
  function Probe(data: VersionData, articles: seq<Article>, k: nat): (r: Option<Article>)
    requires data.IsNumbered()
    ensures r.Some? ==> r.value in articles
    decreases k
  {
    if k == 0 then None
    else if ProbeAt(data, articles, k).Some? then ProbeAt(data, articles, k)
    else Probe(data, articles, k - 1)
  }

  /** The build whose article the probe from k returns: the highest one with an article. */
  lemma {:induction false} ProbeHit(data: VersionData, articles: seq<Article>, k: nat) returns (j: nat)
    requires data.IsNumbered() && Probe(data, articles, k).Some?
    ensures 1 <= j <= k && Probe(data, articles, k) == ProbeAt(data, articles, j)
    ensures forall i :: j < i <= k ==> ProbeAt(data, articles, i).None?
  {
    if ProbeAt(data, articles, k).None? {
      j := ProbeHit(data, articles, k - 1);
    } else {
      j := k;
    }
  }

  /**
   * The highest build number wins: a found article is the first one whose path is that
   * of some build j with 1 <= j <= k, and no build above j up to k has an article.
   */
  lemma {:induction false} ProbeFindsHighest(data: VersionData, articles: seq<Article>, k: nat)
    requires data.IsNumbered() && Probe(data, articles, k).Some?
    ensures exists j :: 1 <= j <= k && Probe(data, articles, k) == ProbeAt(data, articles, j)
                        && forall i :: j < i <= k ==> ProbeAt(data, articles, i).None?
  {
    var j := ProbeHit(data, articles, k);
  }

  /** The probe comes back empty exactly when no build from k down to 1 has an article. */
  lemma {:induction false} ProbeNoneIff(data: VersionData, articles: seq<Article>, k: nat)
    requires data.IsNumbered()
    ensures Probe(data, articles, k).None? <==> forall j :: 1 <= j <= k ==> ProbeAt(data, articles, j).None?
  {
    if k > 0 && ProbeAt(data, articles, k).None? {
      ProbeNoneIff(data, articles, k - 1);
    }
  }

  /** `findArticle(data, articles)`. */
  function ArticleFor(data: VersionData, articles: seq<Article>): (r: Option<Article>)
    ensures r.Some? ==> r.value in articles
  {
    if data.IsNumbered() then Probe(data, articles, data.number)
    else FindByUrl(articles, NamedSlug(data))
  }

  /**
   * The probe loop of `findArticle` for a pre-release or release candidate. The ghost
   * `probed` lists the paths tried, in order.
   */
  method ProbeDownward(data: VersionData, articles: seq<Article>)
    returns (r: Option<Article>, ghost probed: seq<string>)
    requires data.IsNumbered()
    ensures r == Probe(data, articles, data.number)
    ensures |probed| <= data.number
    ensures forall i :: 0 <= i < |probed| ==> probed[i] == CandidateSlug(data, data.number - i)
    ensures r.None? ==> |probed| == data.number
    ensures r.Some? ==> |probed| > 0 && r == FindByUrl(articles, probed[|probed| - 1])
  {
    var number: nat := data.number;
    probed := [];
    while number > 0
      invariant number <= data.number
      invariant |probed| == data.number - number
                && forall i :: 0 <= i < |probed| ==> probed[i] == CandidateSlug(data, data.number - i)
      invariant Probe(data, articles, data.number) == Probe(data, articles, number)
      decreases number
    {
      var link := CandidateSlug(data, number);
      probed := probed + [link];
      var result := FindByUrl(articles, link);
      assert result == ProbeAt(data, articles, number);
      if result.Some? {
        r := result;
        return;
      }
      assert Probe(data, articles, number) == Probe(data, articles, number - 1);
      number := number - 1;
    }
    r := None;
  }

  /** `findArticle`: one lookup for a release or snapshot, the downward probe otherwise. */
  method FindArticle(data: VersionData, articles: seq<Article>) returns (r: Option<Article>)
    ensures r == ArticleFor(data, articles)
    ensures r.Some? ==> r.value in articles
  {
    if data.IsNumbered() {
      ghost var probed;
      r, probed := ProbeDownward(data, articles);
    } else {
      r := FindByUrl(articles, NamedSlug(data));
    }
  }
}
