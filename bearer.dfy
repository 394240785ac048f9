/**
 * The split of an `Authorization` header by the fixed pattern
 * `^([a-zA-Z0-9]+)\s+(.*)$` under Go RE2 semantics: `\s` is the Perl class,
 * `.` excludes only the newline and `$` is the end of the text. This is the
 * `<scheme> <credentials>` form of the `Bearer` scheme of section 2.1 of
 * RFC 6750.
 */
module BearerHeader {
  import opened Wrappers
  import opened Ascii

  /** The two sub-matches of the pattern. */
  datatype Credentials = Credentials(scheme: string, credential: string)

  /**
   * The whole header matches the pattern with the first group ending at `i`
   * and the `\s+` run ending at `j`.
   */
  ghost predicate MatchesAt(h: string, i: int, j: int) {
    && 0 < i < j <= |h|
    && (forall k :: 0 <= k < i ==> IsAlnum(h[k]))
    && (forall k :: i <= k < j ==> IsSpace(h[k]))
    && (forall k :: j <= k < |h| ==> h[k] != '\n')
  }

  /** Length of the longest prefix of `s` made of `[a-zA-Z0-9]`. */
  function AlnumRun(s: string): (n: nat)
    ensures n <= |s|
    ensures forall k :: 0 <= k < n ==> IsAlnum(s[k])
    ensures n < |s| ==> !IsAlnum(s[n])
  {
    if s == [] || !IsAlnum(s[0]) then 0 else 1 + AlnumRun(s[1..])
  }

  /** Length of the longest prefix of `s` made of `\s`. */
  function SpaceRun(s: string): (n: nat)
    ensures n <= |s|
    ensures forall k :: 0 <= k < n ==> IsSpace(s[k])
    ensures n < |s| ==> !IsSpace(s[n])
  {
    if s == [] || !IsSpace(s[0]) then 0 else 1 + SpaceRun(s[1..])
  }

  /** `.*$`: the rest contains no newline. */
  function NewlineFree(s: string): (r: bool)
    ensures r <==> forall k :: 0 <= k < |s| ==> s[k] != '\n'
  {
    s == [] || (s[0] != '\n' && NewlineFree(s[1..]))
  }

  /**
   * `bearerRE.FindStringSubmatch`: greedy groups taken in leftmost-first
   * order. The scheme is the maximal alphanumeric prefix, the whitespace run
   * after it is maximal, and the credential is what is left. The result
   * describes a match of the pattern, and the credential does not start with
   * whitespace.
   */
  function Split(h: string): (r: Option<Credentials>)
    ensures r.Some? ==>
      && MatchesAt(h, |r.value.scheme|, |h| - |r.value.credential|)
      && h == r.value.scheme + h[|r.value.scheme|..|h| - |r.value.credential|] + r.value.credential
      && (r.value.credential == [] || !IsSpace(r.value.credential[0]))
  {
    var i := AlnumRun(h);
    var j := i + SpaceRun(h[i..]);
    if i == 0 || j == i || !NewlineFree(h[j..]) then None
    else Some(Credentials(h[..i], h[j..]))
  }

  /**
   * Every match of the pattern is found: when the header matches with the
   * scheme ending at `i` and some whitespace run ending at `j`, `Split`
   * succeeds with exactly that scheme and with the credential that follows
   * the longest whitespace run, which ends at or after `j`.
   */
  lemma SplitFindsEveryMatch(h: string, i: int, j: int)
    requires MatchesAt(h, i, j)
    ensures Split(h).Some?
    ensures Split(h).value.scheme == h[..i]
    ensures j <= |h| - |Split(h).value.credential|
    ensures Split(h).value.credential == h[|h| - |Split(h).value.credential|..]
  {
    AlnumRunStopsAt(h, i);
    SpaceRunCovers(h[i..], j - i);
  }

  /** The alphanumeric run ends at the first character outside the class. */
  lemma AlnumRunStopsAt(s: string, i: nat)
    requires i < |s| && !IsAlnum(s[i])
    requires forall k :: 0 <= k < i ==> IsAlnum(s[k])
    ensures AlnumRun(s) == i
  {
  }

  /** A whitespace prefix of length `m` lies inside the maximal run. */
  lemma SpaceRunCovers(s: string, m: nat)
    requires m <= |s|
    requires forall k :: 0 <= k < m ==> IsSpace(s[k])
    ensures SpaceRun(s) >= m
  {
    if m > 0 {
      SpaceRunCovers(s[1..], m - 1);
    }
  }

  /** The header matches the pattern exactly when `Split` succeeds. */
  lemma SplitSucceedsIffMatch(h: string)
    ensures Split(h).Some? <==> exists i, j :: MatchesAt(h, i, j)
  {
    if Split(h).Some? {
      var c := Split(h).value;
      assert MatchesAt(h, |c.scheme|, |h| - |c.credential|);
    }
    if exists i, j :: MatchesAt(h, i, j) {
      var i, j :| MatchesAt(h, i, j);
      SplitFindsEveryMatch(h, i, j);
    }
  }
}
