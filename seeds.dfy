/**
 * The two seed patterns of a match row, as `re.match` applies them: tied to
 * the start of the seed, greedy, and free to ignore whatever follows.
 *
 * - AlphaNum, `([a-zA-Z]+)-*([0-9]+)`: a winner or loser reference such as
 *   `W49` or `RU-61`; group 1 is the prefix, group 2 the match number.
 * - NumAlpha, `([0-9]+)-*([a-zA-Z]+)`: a group placing such as `1A` or `3CDE`;
 *   group 2 names the groups.
 *
 * The current database allows dashes between the two runs; the older one
 * (`([a-zA-Z]+)([0-9]+)` and `([0-9]+)([a-zA-Z]+)`) does not.
 */
module Seeds {
  import opened Wrappers
  import opened Text

  datatype Kind = Letters | Digits | Dashes

  predicate IsKind(c: char, k: Kind)
  {
    match k
    case Letters => IsLetter(c)
    case Digits => IsDigit(c)
    case Dashes => c == '-'
  }

  predicate AllKind(s: string, lo: nat, hi: nat, k: Kind)
    requires lo <= hi <= |s|
  {
    forall m :: lo <= m < hi ==> IsKind(s[m], k)
  }

  /** The end of the longest run of `k` characters starting at `lo`. */
  function Span(s: string, lo: nat, k: Kind): (hi: nat)
    requires lo <= |s|
    decreases |s| - lo
    ensures lo <= hi <= |s| && AllKind(s, lo, hi, k)
    ensures hi == |s| || !IsKind(s[hi], k)
  {
    if lo < |s| && IsKind(s[lo], k) then Span(s, lo + 1, k) else lo
  }

  /**
   * `s` starts with a run `a` of `first` characters (indices `0 <= .. < i`),
   * then dashes (`i <= .. < j`, none when `dashes` is false), then a run of
   * `second` characters (`j <= .. < k`); both runs non-empty.
   */
  predicate Shaped(s: string, first: Kind, second: Kind, dashes: bool, i: nat, j: nat, k: nat)
  {
    0 < i <= j < k <= |s| &&
    AllKind(s, 0, i, first) && AllKind(s, i, j, Dashes) && AllKind(s, j, k, second) &&
    (!dashes ==> i == j)
  }

  /**
   * The match of `(first)+-*(second)+` (or of `(first)+(second)+` when
   * `dashes` is false) at the start of `s`: the two groups, or `None`.
   */
  function MatchPrefix(s: string, first: Kind, second: Kind, dashes: bool): (r: Option<(string, string)>)
    requires first != Dashes && second != Dashes && first != second
    ensures r.Some? <==> exists i: nat, j: nat, k: nat :: Shaped(s, first, second, dashes, i, j, k)
    ensures r.Some? ==> exists i: nat, j: nat, k: nat ::
      && Shaped(s, first, second, dashes, i, j, k)
      && r.value == (s[..i], s[j..k])
      && (i == |s| || !IsKind(s[i], first))
      && (k == |s| || !IsKind(s[k], second))
  {
    var i := Span(s, 0, first);
    var j := if dashes then Span(s, i, Dashes) else i;
    var k := Span(s, j, second);
    assert forall i': nat, j': nat, k': nat :: Shaped(s, first, second, dashes, i', j', k') ==> 0 < i && j < k by {
      forall i': nat, j': nat, k': nat | Shaped(s, first, second, dashes, i', j', k') ensures 0 < i && j < k {
        UniqueShape(s, first, second, dashes, i', j', k');
      }
    }
    if 0 < i && j < k then
      assert Shaped(s, first, second, dashes, i, j, k);
      Some((s[..i], s[j..k]))
    else
      None
  }

  /** A shaped prefix is the one found by taking each run as long as possible. */
  lemma UniqueShape(s: string, first: Kind, second: Kind, dashes: bool, i: nat, j: nat, k: nat)
    requires first != Dashes && second != Dashes && first != second
    requires Shaped(s, first, second, dashes, i, j, k)
    ensures i == Span(s, 0, first)
    ensures j == if dashes then Span(s, i, Dashes) else i
    ensures j < Span(s, j, second)
  {
    assert IsKind(s[j], second);
    assert IsKind(s[i], Dashes) || IsKind(s[i], second);
    assert !IsKind(s[i], first);
    var i0 := Span(s, 0, first);
    assert i0 < |s| ==> !IsKind(s[i0], first);
    if dashes {
      var j0 := Span(s, i, Dashes);
      assert !IsKind(s[j], Dashes);
      assert j0 < |s| ==> !IsKind(s[j0], Dashes);
    }
  }

  /** A match starts with a character of the first run. */
  lemma MatchStartsWith(s: string, first: Kind, second: Kind, dashes: bool)
    requires first != Dashes && second != Dashes && first != second
    ensures MatchPrefix(s, first, second, dashes).Some? ==> |s| > 0 && IsKind(s[0], first)
  {
  }

  function AlphaNum(s: string, dashes: bool): Option<(string, string)>
  {
    MatchPrefix(s, Letters, Digits, dashes)
  }

  function NumAlpha(s: string, dashes: bool): Option<(string, string)>
  {
    MatchPrefix(s, Digits, Letters, dashes)
  }

  /** The groups of `AlphaNum`: a non-empty letter prefix and a non-empty digit run. */
  lemma AlphaNumGroups(s: string, dashes: bool)
    requires AlphaNum(s, dashes).Some?
    ensures var (a, n) := AlphaNum(s, dashes).value;
      |a| > 0 && AllLetters(a) && |n| > 0 && AllDigits(n) && a <= s
  {
    var (a, n) := AlphaNum(s, dashes).value;
    var i: nat, j: nat, k: nat :| Shaped(s, Letters, Digits, dashes, i, j, k) && (a, n) == (s[..i], s[j..k]);
    assert forall m :: 0 <= m < |n| ==> n[m] == s[j + m];
  }

  /** The groups of `NumAlpha`: a non-empty digit prefix and a non-empty letter run. */
  lemma NumAlphaGroups(s: string, dashes: bool)
    requires NumAlpha(s, dashes).Some?
    ensures var (n, a) := NumAlpha(s, dashes).value;
      |n| > 0 && AllDigits(n) && |a| > 0 && AllLetters(a) && n <= s
  {
    var (n, a) := NumAlpha(s, dashes).value;
    var i: nat, j: nat, k: nat :| Shaped(s, Digits, Letters, dashes, i, j, k) && (n, a) == (s[..i], s[j..k]);
    assert forall m :: 0 <= m < |a| ==> a[m] == s[j + m];
  }

  /** The two patterns exclude each other: a seed starts with a letter or with a digit. */
  lemma PatternsExclusive(s: string, dashes: bool)
    ensures !(AlphaNum(s, dashes).Some? && NumAlpha(s, dashes).Some?)
  {
    MatchStartsWith(s, Letters, Digits, dashes);
    MatchStartsWith(s, Digits, Letters, dashes);
  }

  /** A pattern without dashes only matches where the pattern with dashes does, with the same groups. */
  lemma DashesWiden(s: string, first: Kind, second: Kind)
    requires first != Dashes && second != Dashes && first != second
    requires MatchPrefix(s, first, second, false).Some?
    ensures MatchPrefix(s, first, second, true) == MatchPrefix(s, first, second, false)
  {
    var i: nat, j: nat, k: nat :| Shaped(s, first, second, false, i, j, k);
    UniqueShape(s, first, second, false, i, j, k);
    assert Shaped(s, first, second, true, i, j, k);
    UniqueShape(s, first, second, true, i, j, k);
  }
}
