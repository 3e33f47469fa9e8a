/**
 * A match row and its classification by seed (`CMatch.__init__` of both
 * database versions). Fields that only feed drawing (venue, teams, scores,
 * start time) are not part of this model.
 */
module Matches {
  import opened Wrappers
  import opened Text
  import opened Stages
  import opened Seeds

  /**
   * A match of the bracket arena. `groups` is `lStrGroup`; the older
   * database keeps its two feeder ids in a list that is either empty or
   * holds both, which is `feederHome`/`feederAway` here. `feeding` and
   * `sortElim` exist only in the current database and stay `None`/0 in the
   * older one.
   */
  datatype Match = Match(
    id: int,
    seedHome: string,
    seedAway: string,
    stage: Option<Stage>,
    groups: seq<string>,
    feederHome: Option<int>,
    feederAway: Option<int>,
    feeding: Option<int>,
    sortElim: nat)

  /** `[ch for ch in s]`: each character as a one-character string. */
  function Chars(s: string): (r: seq<string>)
    ensures |r| == |s|
    ensures forall i :: 0 <= i < |s| ==> r[i] == [s[i]]
  {
    if s == [] then [] else [[s[0]]] + Chars(s[1..])
  }

  function NewMatch(id: int, home: string, away: string, stage: Option<Stage>, groups: seq<string>,
                    feederHome: Option<int>, feederAway: Option<int>): Match
  {
    Match(id, home, away, stage, groups, feederHome, feederAway, None, 0)
  }

  /**
   * `CMatch.__init__` of the current database. `seeds` is the key set of
   * the seed-to-team map and `first` the tournament's first elimination
   * stage.
   */
  function ParseMatch(id: int, home: string, away: string, seeds: set<string>, first: Stage): (r: Result<Match>)
    ensures r.Ok? ==> r.value.id == id && r.value.seedHome == home && r.value.seedAway == away
    ensures r.Ok? ==> r.value.feeding.None? && r.value.sortElim == 0
    // both seeds are seeded teams: a group match of the group both seeds start with
    ensures home in seeds && away in seeds ==>
      && (r.Ok? <==> |home| > 0 && |away| > 0 && home[0] == away[0])
      && (r.Ok? ==> r.value.stage == Some(Group) && r.value.groups == [[home[0]]])
      && (r.Ok? ==> r.value.feederHome.None? && r.value.feederAway.None?)
    // a group placing such as "1A" or "3CDE": a first-round elimination match
    ensures !(home in seeds && away in seeds) && NumAlpha(home, true).Some? ==>
      && (r.Ok? <==> NumAlpha(away, true).Some?)
      && (r.Ok? ==> r.value.stage == Some(first))
      && (r.Ok? ==> r.value.groups == Chars(NumAlpha(home, true).value.1) + Chars(NumAlpha(away, true).value.1))
      && (r.Ok? ==> r.value.feederHome.None? && r.value.feederAway.None?)
    // a feeder reference such as "W49", "RU61" or "L61"
    ensures !(home in seeds && away in seeds) && NumAlpha(home, true).None? && AlphaNum(home, true).Some? ==>
      var prefix := AlphaNum(home, true).value.0;
      && (r.Ok? <==> AlphaNum(away, true).Some? && AlphaNum(away, true).value.0 == prefix && prefix in {"W", "RU", "L"})
      && (r.Ok? ==> r.value.feederHome == Some(DigitsValue(AlphaNum(home, true).value.1)))
      && (r.Ok? ==> r.value.feederAway == Some(DigitsValue(AlphaNum(away, true).value.1)))
      && (r.Ok? ==> r.value.stage == (if prefix == "W" then None else Some(Third)) && r.value.groups == [])
    // anything else fails
    ensures !(home in seeds && away in seeds) && NumAlpha(home, true).None? && AlphaNum(home, true).None? ==> r.Err?
  {
    if home in seeds && away in seeds then
      if |home| > 0 && |away| > 0 && home[0] == away[0] then
        Ok(NewMatch(id, home, away, Some(Group), [[home[0]]], None, None))
      else
        Err("AssertionError: group seeds of one group")
    else if NumAlpha(home, true).Some? then
      match NumAlpha(away, true)
      case None => Err("AssertionError: away seed is not a group placing")
      case Some(a) =>
        Ok(NewMatch(id, home, away, Some(first), Chars(NumAlpha(home, true).value.1) + Chars(a.1), None, None))
    else if AlphaNum(home, true).Some? then
      var (prefix, number) := AlphaNum(home, true).value;
      match AlphaNum(away, true)
      case None => Err("AssertionError: away seed is not a feeder reference")
      case Some(a) =>
        if a.0 != prefix then Err("AssertionError: feeder prefixes differ")
        else if prefix != "W" && prefix != "RU" && prefix != "L" then Err("AssertionError: unknown feeder prefix")
        else
          Ok(NewMatch(id, home, away, if prefix == "W" then None else Some(Third), [],
                      Some(DigitsValue(number)), Some(DigitsValue(a.1))))
    else
      Err("AssertionError: unknown seed")
  }

  /**
   * `CMatch.__init__` of the older database: placings make first-round
   * matches, a letter prefix that names a group makes a group match, and
   * "RU"/"L"/"W" make feeder references. `groupSet` is `setStrGroup`.
   */
  function ParseMatchLegacy(id: int, home: string, away: string, groupSet: set<string>): (r: Result<Match>)
    ensures r.Ok? ==> r.value.id == id && r.value.seedHome == home && r.value.seedAway == away
    ensures r.Ok? ==> r.value.feeding.None? && r.value.sortElim == 0
    ensures NumAlpha(home, false).Some? ==>
      && (r.Ok? <==> NumAlpha(away, false).Some?)
      && (r.Ok? ==> r.value.stage == Some(Round64))
      && (r.Ok? ==> r.value.groups == [NumAlpha(home, false).value.1, NumAlpha(away, false).value.1])
      && (r.Ok? ==> r.value.feederHome.None? && r.value.feederAway.None?)
    ensures NumAlpha(home, false).None? && AlphaNum(home, false).Some? ==>
      var prefix := AlphaNum(home, false).value.0;
      && (r.Ok? <==> AlphaNum(away, false).Some? && AlphaNum(away, false).value.0 == prefix &&
                     (prefix in groupSet || prefix in {"W", "RU", "L"}))
      && (r.Ok? && prefix in groupSet ==>
            r.value.stage == Some(Group) && r.value.groups == [prefix] &&
            r.value.feederHome.None? && r.value.feederAway.None?)
      && (r.Ok? && prefix !in groupSet ==>
            && r.value.stage == (if prefix == "W" then None else Some(Third))
            && r.value.groups == []
            && r.value.feederHome == Some(DigitsValue(AlphaNum(home, false).value.1))
            && r.value.feederAway == Some(DigitsValue(AlphaNum(away, false).value.1)))
    ensures NumAlpha(home, false).None? && AlphaNum(home, false).None? ==> r.Err?
  {
    if NumAlpha(home, false).Some? then
      match NumAlpha(away, false)
      case None => Err("AssertionError: away seed is not a group placing")
      case Some(a) => Ok(NewMatch(id, home, away, Some(Round64), [NumAlpha(home, false).value.1, a.1], None, None))
    else if AlphaNum(home, false).Some? then
      var (prefix, number) := AlphaNum(home, false).value;
      match AlphaNum(away, false)
      case None => Err("AssertionError: away seed is not a feeder reference")
      case Some(a) =>
        if a.0 != prefix then Err("AssertionError: seed prefixes differ")
        else if prefix in groupSet then Ok(NewMatch(id, home, away, Some(Group), [prefix], None, None))
        else if prefix == "RU" || prefix == "L" then
          Ok(NewMatch(id, home, away, Some(Third), [], Some(DigitsValue(number)), Some(DigitsValue(a.1))))
        else if prefix == "W" then
          Ok(NewMatch(id, home, away, None, [], Some(DigitsValue(number)), Some(DigitsValue(a.1))))
        else Err("AssertionError: unknown seed prefix")
    else
      Err("AssertionError: unknown seed")
  }

  /** A match whose stage the seeds leave open always has both feeders. */
  lemma UnstagedHasFeeders(id: int, home: string, away: string, seeds: set<string>, first: Stage, groupSet: set<string>)
    ensures ParseMatch(id, home, away, seeds, first).Ok? && ParseMatch(id, home, away, seeds, first).value.stage.None? ==>
      ParseMatch(id, home, away, seeds, first).value.feederHome.Some? &&
      ParseMatch(id, home, away, seeds, first).value.feederAway.Some?
    ensures ParseMatchLegacy(id, home, away, groupSet).Ok? && ParseMatchLegacy(id, home, away, groupSet).value.stage.None? ==>
      ParseMatchLegacy(id, home, away, groupSet).value.feederHome.Some? &&
      ParseMatchLegacy(id, home, away, groupSet).value.feederAway.Some?
  {
  }

  /** A winner seed pair `W<a>`/`W<b>` parses to an open match fed by matches `a` and `b`. */
  lemma WinnerSeedsRoundTrip(id: int, a: nat, b: nat, seeds: set<string>, first: Stage)
    requires !("W" + NatToString(a) in seeds && "W" + NatToString(b) in seeds)
    ensures var r := ParseMatch(id, "W" + NatToString(a), "W" + NatToString(b), seeds, first);
      r.Ok? && r.value.stage.None? && r.value.feederHome == Some(a) && r.value.feederAway == Some(b)
  {
    WinnerSeed(a);
    WinnerSeed(b);
    var s := "W" + NatToString(a);
    MatchStartsWith(s, Digits, Letters, true);
  }

  lemma WinnerSeed(n: nat)
    ensures AlphaNum("W" + NatToString(n), true) == Some(("W", NatToString(n)))
    ensures DigitsValue(AlphaNum("W" + NatToString(n), true).value.1) == n
  {
    var s := "W" + NatToString(n);
    assert Shaped(s, Letters, Digits, true, 1, 1, |s|);
    var i: nat, j: nat, k: nat :| Shaped(s, Letters, Digits, true, i, j, k) && AlphaNum(s, true).value == (s[..i], s[j..k])
      && (k == |s| || !IsKind(s[k], Digits));
    UniqueShape(s, Letters, Digits, true, i, j, k);
    UniqueShape(s, Letters, Digits, true, 1, 1, |s|);
    assert forall m :: 1 <= m < |s| ==> IsDigit(s[m]);
    assert k == |s| && i == 1 && j == 1;
    assert s[..1] == "W";
    assert s[1..|s|] == NatToString(n);
    assert AlphaNum(s, true).value == ("W", NatToString(n));
    NatToStringRoundTrip(n);
  }
}
