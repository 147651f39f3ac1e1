/**
 * Worked examples of the feed: the article paths of a release, of pre-releases and of
 * release candidates, and three end-to-end cases: a release with its article, a
 * pre-release whose own article is missing but whose previous one exists, and a
 * pre-release with no article at all.
 */
module Scenarios {
  import opened Wrappers
  import Decimal
  import Pattern
  import opened Classifier
  import opened Resolver
  import opened FeedBuilder

  lemma DashedVersions()
    ensures ReplaceDots("1.20.1") == "1-20-1"
    ensures ReplaceDots("1.20") == "1-20"
  {
    var r := ReplaceDots("1.20.1");
    assert r[0] == '1' && r[1] == '-' && r[2] == '2' && r[3] == '0' && r[4] == '-' && r[5] == '1';
    var q := ReplaceDots("1.20");
    assert q[0] == '1' && q[1] == '-' && q[2] == '2' && q[3] == '0';
  }

  lemma ReleaseStemSpelled()
    ensures ReleaseStem == "/en-us/article/minecraft-java-edition-"
  {
    assert ArticleRoot == "/en-us/article/";
  }

  lemma ReleaseSlug()
    ensures NamedSlug(ReleaseVersion("1.20.1")) == "/en-us/article/minecraft-java-edition-1-20-1"
  {
    DashedVersions();
    ReleaseStemSpelled();
  }

  /** Release 1.20.1 links to the Java Edition article whose path spells the version with dashes. */
  lemma ReleaseLinksToItsArticle(v: VersionEntry, articles: seq<Article>, a: Article)
    requires v.id == "1.20.1" && v.kind == Release
    requires a in articles && a.articleUrl == "/en-us/article/minecraft-java-edition-1-20-1"
    ensures var item := ItemFor(v, articles);
            && item.title == "1.20.1"
            && item.link == Origin + "/en-us/article/minecraft-java-edition-1-20-1"
            && item.image.Some?
  {
    ReleaseSlug();
    NamedEntryLinked(v, articles, a);
  }

  /** Non-release ids 1.20-pre1 and 1.20-pre2 are pre-releases 1 and 2 of 1.20. */
  lemma PreReleasesOf120(id: string, kind: VersionType, d: string, n: nat)
    requires kind != Release && (d, n) in {("1", 1), ("2", 2)} && id == "1.20" + PreTag + d
    ensures ExtractType(id, kind) == PreRelease("1.20", n)
  {
    assert Pattern.DotsOnly("1.20", 0, 4);
    PreReleaseOfId("1.20", d, kind);
    assert Decimal.Value(d) == 10 * Decimal.Value([]) + Decimal.DigitValue(d[0]);
  }

  lemma PreReleaseSlug(n: nat, k: nat)
    requires 1 <= k <= 2
    ensures CandidateSlug(PreRelease("1.20", n), k) == "/en-us/article/minecraft-1-20-pre-release-" + Decimal.Render(k)
  {
    DashedVersions();
  }

  lemma ReleaseCandidateTailSpelled()
    ensures "minecraft-" + "1-20" + "-" + "release-candidate" + "-" == "minecraft-1-20-release-candidate-"
  {
  }

  /** Release candidates of 1.20 are probed under `/en-us/article/minecraft-1-20-release-candidate-<k>`. */
  lemma ReleaseCandidateSlug(n: nat, k: nat)
    ensures CandidateSlug(ReleaseCandidate("1.20", n), k)
            == ArticleRoot + "minecraft-1-20-release-candidate-" + Decimal.Render(k)
  {
    DashedVersions();
    ReleaseCandidateTailSpelled();
    var tail := "minecraft-" + "1-20" + "-" + "release-candidate" + "-";
    assert CandidateSlug(ReleaseCandidate("1.20", n), k) == ArticleRoot + tail + Decimal.Render(k);
  }

  lemma PreReleaseSlugs()
    ensures CandidateSlug(PreRelease("1.20", 2), 2) == "/en-us/article/minecraft-1-20-pre-release-2"
    ensures CandidateSlug(PreRelease("1.20", 2), 1) == "/en-us/article/minecraft-1-20-pre-release-1"
    ensures CandidateSlug(PreRelease("1.20", 1), 1) == "/en-us/article/minecraft-1-20-pre-release-1"
  {
    PreReleaseSlug(2, 2);
    PreReleaseSlug(2, 1);
    PreReleaseSlug(1, 1);
    assert Decimal.Render(1) == "1" && Decimal.Render(2) == "2";
  }

  /** 1.20-pre2 has no article of its own, so the probe falls back to pre-release 1's. */
  lemma PreReleaseFallsBack(v: VersionEntry, articles: seq<Article>, a: Article)
    requires v.id == "1.20-pre2" && v.kind == Snapshot
    requires a in articles && a.articleUrl == "/en-us/article/minecraft-1-20-pre-release-1"
    requires forall b :: b in articles ==> b.articleUrl != "/en-us/article/minecraft-1-20-pre-release-2"
    ensures ItemFor(v, articles).link == Origin + "/en-us/article/minecraft-1-20-pre-release-1"
    ensures ProbeAt(PreRelease("1.20", 2), articles, 2).None?
    ensures ProbeAt(PreRelease("1.20", 2), articles, 1).Some?
  {
    PreReleasesOf120(v.id, v.kind, "2", 2);
    PreReleaseSlugs();
    var data := PreRelease("1.20", 2);
    assert ProbeAt(data, articles, 2).None?;
    var found := ProbeAt(data, articles, 1);
    assert found.Some? && found.value.articleUrl == a.articleUrl;
    assert ArticleFor(data, articles) == found;
  }

  /** 1.20-pre1 with no article at all gets an item with an empty link and no image. */
  lemma PreReleaseWithoutArticle(v: VersionEntry, articles: seq<Article>)
    requires v.id == "1.20-pre1" && v.kind == Snapshot
    requires forall b :: b in articles ==> b.articleUrl != "/en-us/article/minecraft-1-20-pre-release-1"
    ensures var item := ItemFor(v, articles);
            item.link == "" && item.id.None? && item.image.None? && item.title == "1.20-pre1"
  {
    PreReleasesOf120(v.id, v.kind, "1", 1);
    PreReleaseSlugs();
    var data := PreRelease("1.20", 1);
    assert ProbeAt(data, articles, 1).None?;
    assert ArticleFor(data, articles).None?;
  }
}
