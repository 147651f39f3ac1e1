/**
 * The version classifier (`extractType`): a manifest entry's id and type become a
 * release, a snapshot, a numbered pre-release or a numbered release candidate.
 */
module Classifier {
  import opened Wrappers
  import Decimal
  import Pattern

  /** The `type` field of a manifest entry. */
  datatype VersionType = Release | Snapshot | OldAlpha | OldBeta

  /** What a version is, as far as finding its article goes. */
  datatype VersionData =
    | ReleaseVersion(id: string)
    | SnapshotVersion(id: string)
    | PreRelease(release: string, number: nat)
    | ReleaseCandidate(release: string, number: nat)
  {
    predicate IsNumbered() {
      PreRelease? || ReleaseCandidate?
    }
  }

  /** The literal parts of `/(.+)-pre(\d+)/` and `/(.+)-rc(\d+)/`. */
  const PreTag: string := "-pre"
  const RcTag: string := "-rc"

  /**
   * `extractType(id, type)`. The type decides only whether the entry is a release;
   * every other entry is a pre-release if the pre pattern matches, else a release
   * candidate if the rc pattern matches, else a snapshot.
   */
  function ExtractType(id: string, kind: VersionType): (r: VersionData)
    ensures r.ReleaseVersion? <==> kind == Release
    ensures !r.IsNumbered() ==> r.id == id
    ensures r.IsNumbered() ==> |r.release| > 0 && |r.release| < |id|
  {
    if kind == Release then
      ReleaseVersion(id)
    else
      match Pattern.Exec(id, PreTag)
      case Some(g) => PreRelease(g.prefix, Decimal.Value(g.digits))
      case None =>
        match Pattern.Exec(id, RcTag)
        case Some(g) => ReleaseCandidate(g.prefix, Decimal.Value(g.digits))
        case None => SnapshotVersion(id)
  }

  /**
   * For every entry that is not typed as a release, the result is decided by the two
   * patterns in order: the pre pattern's leftmost-longest match if it has one (even if
   * the rc pattern would match too), else the rc pattern's, else a snapshot with the
   * id unchanged.
   */
  lemma ExtractTypeFollowsPatterns(id: string, kind: VersionType)
    requires kind != Release
    ensures !Pattern.NoMatch(id, PreTag) ==>
              exists st: nat, p: nat ::
                && Pattern.FirstLongest(id, PreTag, st, p)
                && var g := Pattern.GroupsAt(id, PreTag, st, p);
                   ExtractType(id, kind) == PreRelease(g.prefix, Decimal.Value(g.digits))
    ensures Pattern.NoMatch(id, PreTag) && !Pattern.NoMatch(id, RcTag) ==>
              exists st: nat, p: nat ::
                && Pattern.FirstLongest(id, RcTag, st, p)
                && var g := Pattern.GroupsAt(id, RcTag, st, p);
                   ExtractType(id, kind) == ReleaseCandidate(g.prefix, Decimal.Value(g.digits))
    ensures Pattern.NoMatch(id, PreTag) && Pattern.NoMatch(id, RcTag) ==>
              ExtractType(id, kind) == SnapshotVersion(id)
  {
    Pattern.ExecIsFirstLongest(id, PreTag);
    Pattern.ExecIsFirstLongest(id, RcTag);
  }

  /** A non-release id of the form x + "-pre" + d classifies as pre-release number d of x. */
  lemma PreReleaseOfId(x: string, d: string, kind: VersionType)
    requires kind != Release
    requires |x| > 0 && Pattern.DotsOnly(x, 0, |x|)
    requires |d| > 0 && Decimal.AllDigits(d)
    ensures ExtractType(x + PreTag + d, kind) == PreRelease(x, Decimal.Value(d))
  {
    Pattern.ExecOfSuffix(x, PreTag, d);
  }

  /** Appending "-rc" and digits to an id that has no pre match does not create one. */
  lemma NoPreMatchAcrossRc(x: string, d: string)
    requires Pattern.NoMatch(x, PreTag) && Decimal.AllDigits(d)
    ensures Pattern.NoMatch(x + RcTag + d, PreTag)
  {
    var s := x + RcTag + d;
    forall st: nat, q: nat ensures !Pattern.MatchAt(s, PreTag, st, q) {
      if q + |PreTag| < |x| {
        assert s[q..q + |PreTag|] == x[q..q + |PreTag|];
        assert s[q + |PreTag|] == x[q + |PreTag|];
        assert forall i :: 0 <= i < |x| ==> s[i] == x[i];
        assert !Pattern.MatchAt(x, PreTag, st, q);
      } else if q + |PreTag| < |s| {
        var w := s[q..q + |PreTag|];
        if q > |x| {
          assert w[0] == s[q];
          if q < |x| + |RcTag| {
            assert s[q] == RcTag[q - |x|];
          } else {
            assert s[q] == d[q - |x| - |RcTag|];
          }
        } else if q == |x| {
          assert w[1] == s[q + 1] == RcTag[1] != PreTag[1];
        } else if |x| < q + |PreTag| {
          assert w[|x| - q] == s[|x|] == RcTag[0];
        } else {
          assert s[q + |PreTag|] == s[|x|] == RcTag[0];
        }
      }
    }
  }

  /**
   * A non-release id of the form x + "-rc" + d, where x has no pre match of its own,
   * classifies as release candidate number d of x.
   */
  lemma ReleaseCandidateOfId(x: string, d: string, kind: VersionType)
    requires kind != Release
    requires |x| > 0 && Pattern.DotsOnly(x, 0, |x|) && Pattern.NoMatch(x, PreTag)
    requires |d| > 0 && Decimal.AllDigits(d)
    ensures ExtractType(x + RcTag + d, kind) == ReleaseCandidate(x, Decimal.Value(d))
  {
    NoPreMatchAcrossRc(x, d);
    Pattern.ExecIsFirstLongest(x + RcTag + d, PreTag);
    Pattern.ExecOfSuffix(x, RcTag, d);
  }
}
