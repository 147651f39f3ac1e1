/**
 * What `RegExp.prototype.exec` reports for the two patterns the classifier uses,
 * `/(.+)-pre(\d+)/` and `/(.+)-rc(\d+)/`, written once for a literal `tag`:
 * `(.+)` + tag + `(\d+)`, unanchored, no flags.
 *
 * The engine tries start positions from the left; at a start it gives `(.+)` as
 * many characters as it can and backs off one at a time until the tag and at least
 * one digit follow; `(\d+)` then takes every digit it can. `.` does not match a line
 * terminator, so group 1 never spans one.
 */
module Pattern {
  import opened Wrappers
  import Decimal

  /** The characters `.` does not match when the `s` flag is absent. */
  predicate IsLineTerminator(c: char) {
    c == '\n' || c == '\r' || c == '\U{2028}' || c == '\U{2029}'
  }

  /** `.` matches every character of s[lo..hi]. */
  predicate DotsOnly(s: string, lo: nat, hi: nat) {
    lo <= hi <= |s| && forall i :: lo <= i < hi ==> !IsLineTerminator(s[i])
  }

  /** The literal `tag` starts at position p and a digit follows it. */
  predicate TagAt(s: string, tag: string, p: nat) {
    p + |tag| < |s| && s[p..p + |tag|] == tag && Decimal.IsDigit(s[p + |tag|])
  }

  /** The pattern matches from `start` with group 1 equal to s[start..p]. */
  predicate MatchAt(s: string, tag: string, start: nat, p: nat) {
    start < p && DotsOnly(s, start, p) && TagAt(s, tag, p)
  }

  ghost predicate NoMatch(s: string, tag: string) {
    forall start: nat, p: nat :: !MatchAt(s, tag, start, p)
  }

  /** The match the engine reports: the leftmost start, and at that start the longest group 1. */
  ghost predicate FirstLongest(s: string, tag: string, start: nat, p: nat) {
    && MatchAt(s, tag, start, p)
    && (forall st: nat, q: nat :: st < start ==> !MatchAt(s, tag, st, q))
    && (forall q: nat :: p < q ==> !MatchAt(s, tag, start, q))
  }

  /** The capture groups of a successful `exec`. */
  datatype Groups = Groups(prefix: string, digits: string)

  /** The end of the run of digits that starts at i (the greedy `\d+`). */
  function DigitRunEnd(s: string, i: nat): (e: nat)
    requires i <= |s|
    ensures i <= e <= |s| && Decimal.AllDigits(s[i..e])
    ensures e < |s| ==> !Decimal.IsDigit(s[e])
    decreases |s| - i
  {
    if i < |s| && Decimal.IsDigit(s[i]) then
      var e := DigitRunEnd(s, i + 1);
      assert s[i..e] == [s[i]] + s[i + 1..e];
      e
    else
      i
  }

  function GroupsAt(s: string, tag: string, start: nat, p: nat): Groups
    requires start < p && p + |tag| < |s|
  {
    Groups(s[start..p], s[p + |tag|..DigitRunEnd(s, p + |tag|)])
  }

  /** The first index at or after i that holds a line terminator, or |s| if there is none. */
  function LineEnd(s: string, i: nat): (e: nat)
    requires i <= |s|
    ensures i <= e <= |s| && DotsOnly(s, i, e)
    ensures e < |s| ==> IsLineTerminator(s[e])
    decreases |s| - i
  {
    if i == |s| || IsLineTerminator(s[i]) then i else LineEnd(s, i + 1)
  }

  /** The largest p with lo < p <= hi at which the tag and a digit start. */
  function LastTag(s: string, tag: string, lo: nat, hi: nat): (r: Option<nat>)
    ensures r.Some? ==> lo < r.value <= hi && TagAt(s, tag, r.value)
    ensures r.Some? ==> forall q :: r.value < q <= hi ==> !TagAt(s, tag, q)
    ensures r.None? ==> forall q :: lo < q <= hi ==> !TagAt(s, tag, q)
    decreases hi
  {
    if hi <= lo then None
    else if TagAt(s, tag, hi) then Some(hi)
    else LastTag(s, tag, lo, hi - 1)
  }

  /** Scans line by line from `start`, which begins a line; the first line holding the
      tag somewhere after its first character gives the match. */
  function Search(s: string, tag: string, start: nat): (r: Option<(nat, nat)>)
    requires start <= |s|
    ensures r.Some? ==> start <= r.value.0 < r.value.1 && TagAt(s, tag, r.value.1)
    decreases |s| - start
  {
    var e := LineEnd(s, start);
    match LastTag(s, tag, start, e)
    case Some(p) => Some((start, p))
    case None => if e < |s| then Search(s, tag, e + 1) else None
  }

  /** `/(.+)<tag>(\d+)/.exec(s)`: the two capture groups, or None for `null`. */
  function Exec(s: string, tag: string): (r: Option<Groups>)
    ensures r.Some? ==> |r.value.prefix| > 0
    ensures r.Some? ==> |r.value.digits| > 0 && Decimal.AllDigits(r.value.digits)
  {
    match Search(s, tag, 0)
    case Some((start, p)) => Some(GroupsAt(s, tag, start, p))
    case None => None
  }

  /** A line without the tag after its first character holds no match. */
  lemma NoMatchInLine(s: string, tag: string, line: nat)
    requires line <= |s| && LastTag(s, tag, line, LineEnd(s, line)).None?
    ensures forall st: nat, q: nat :: line <= st <= LineEnd(s, line) ==> !MatchAt(s, tag, st, q)
  {
  }

  /** In a line that holds the tag, the last occurrence gives the longest group 1. */
  lemma LongestInLine(s: string, tag: string, line: nat, p: nat)
    requires line <= |s| && LastTag(s, tag, line, LineEnd(s, line)) == Some(p)
    ensures MatchAt(s, tag, line, p)
    ensures forall q: nat :: p < q ==> !MatchAt(s, tag, line, q)
  {
  }

  /** Search reports the leftmost start and, there, the longest group 1. */
  lemma {:induction false} SearchFindsFirstLongest(s: string, tag: string, start: nat)
    requires start <= |s|
    ensures match Search(s, tag, start)
            case Some(m) =>
              && MatchAt(s, tag, m.0, m.1)
              && (forall st: nat, q: nat :: start <= st < m.0 ==> !MatchAt(s, tag, st, q))
              && (forall q: nat :: m.1 < q ==> !MatchAt(s, tag, m.0, q))
            case None => forall st: nat, q: nat :: start <= st ==> !MatchAt(s, tag, st, q)
    decreases |s| - start
  {
    var e := LineEnd(s, start);
    match LastTag(s, tag, start, e)
    case Some(p) =>
      LongestInLine(s, tag, start, p);
    case None =>
      NoMatchInLine(s, tag, start);
      if e < |s| {
        SearchFindsFirstLongest(s, tag, e + 1);
      }
  }

  /** There is at most one first-longest match. */
  lemma FirstLongestUnique(s: string, tag: string, a: nat, p: nat, b: nat, q: nat)
    requires FirstLongest(s, tag, a, p) && FirstLongest(s, tag, b, q)
    ensures a == b && p == q
  {
  }

  /**
   * `exec` returns null exactly when nothing matches, and otherwise the groups of the
   * leftmost, longest match.
   */
  lemma ExecIsFirstLongest(s: string, tag: string)
    ensures Exec(s, tag).None? <==> NoMatch(s, tag)
    ensures Exec(s, tag).Some? ==>
              exists start: nat, p: nat :: FirstLongest(s, tag, start, p) && Exec(s, tag).value == GroupsAt(s, tag, start, p)
  {
    SearchFindsFirstLongest(s, tag, 0);
  }

  /** The groups of a known first-longest match are what `exec` returns. */
  lemma ExecOfFirstLongest(s: string, tag: string, start: nat, p: nat)
    requires FirstLongest(s, tag, start, p)
    ensures Exec(s, tag) == Some(GroupsAt(s, tag, start, p))
  {
    ExecIsFirstLongest(s, tag);
    var a: nat, q: nat :| FirstLongest(s, tag, a, q) && Exec(s, tag).value == GroupsAt(s, tag, a, q);
    FirstLongestUnique(s, tag, start, p, a, q);
  }

  /** In x + tag + d, with the tag holding `-` only at its front and d all digits, the
      tag at |x| is the last place the tag and a digit start. */
  lemma NoTagAfterSuffix(x: string, tag: string, d: string)
    requires |tag| > 0 && tag[0] == '-' && forall i :: 0 < i < |tag| ==> tag[i] != '-'
    requires Decimal.AllDigits(d)
    ensures forall q: nat :: |x| < q ==> !TagAt(x + tag + d, tag, q)
  {
    var s := x + tag + d;
    var p := |x|;
    forall q: nat | p < q ensures !TagAt(s, tag, q) {
      if q + |tag| < |s| {
        assert s[q..q + |tag|][0] == s[q];
        if q < p + |tag| {
          assert s[q] == tag[q - p];
        } else {
          assert s[q] == d[q - p - |tag|];
        }
      }
    }
  }

  /** In x + tag + d, the match that starts at 0 and ends group 1 at |x| is the first, longest one. */
  lemma SuffixIsFirstLongest(x: string, tag: string, d: string)
    requires |x| > 0 && DotsOnly(x, 0, |x|)
    requires |tag| > 0 && tag[0] == '-' && forall i :: 0 < i < |tag| ==> tag[i] != '-'
    requires |d| > 0 && Decimal.AllDigits(d)
    ensures FirstLongest(x + tag + d, tag, 0, |x|)
  {
    var s := x + tag + d;
    var p := |x|;
    assert s[p..p + |tag|] == tag;
    assert s[p + |tag|] == d[0];
    assert DotsOnly(s, 0, p) by {
      assert forall i :: 0 <= i < p ==> s[i] == x[i];
    }
    NoTagAfterSuffix(x, tag, d);
  }

  /** In x + tag + d with d all digits, the digit run after the tag is exactly d. */
  lemma SuffixDigits(x: string, tag: string, d: string)
    requires Decimal.AllDigits(d)
    ensures DigitRunEnd(x + tag + d, |x| + |tag|) == |x + tag + d|
    ensures (x + tag + d)[|x| + |tag|..] == d
  {
    var s := x + tag + d;
    var p := |x| + |tag|;
    forall q | p <= q < |s| ensures Decimal.IsDigit(s[q]) {
      assert s[q] == d[q - p];
    }
  }

  /**
   * When s is x + tag + d with x a non-empty run of characters `.` matches and d a
   * non-empty run of digits, and the tag holds a `-` only at its front, `exec`
   * splits s back into x and d.
   */
  lemma ExecOfSuffix(x: string, tag: string, d: string)
    requires |x| > 0 && DotsOnly(x, 0, |x|)
    requires |tag| > 0 && tag[0] == '-' && forall i :: 0 < i < |tag| ==> tag[i] != '-'
    requires |d| > 0 && Decimal.AllDigits(d)
    ensures Exec(x + tag + d, tag) == Some(Groups(x, d))
  {
    var s := x + tag + d;
    SuffixIsFirstLongest(x, tag, d);
    ExecOfFirstLongest(s, tag, 0, |x|);
    SuffixDigits(x, tag, d);
    assert s[0..|x|] == x;
    assert s[|x| + |tag|..|s|] == d;
    assert GroupsAt(s, tag, 0, |x|) == Groups(x, d);
  }
}
