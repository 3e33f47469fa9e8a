/**
 * `FTrySetStage` as a function of the arena: a match without a stage takes
 * `next` when both of its feeders are at `prev`, and inherits their group
 * lists merged in first-seen order.
 */
module Promotion {
  import opened Wrappers
  import opened Stages
  import opened Matches
  import opened Groups

  /**
   * The promoted match once both feeders are known to be at `prev`. In the
   * first elimination round after `first` the merged list is taken as it is
   * (the older database also asserts it has four names); later it is
   * replaced by the tournament's full `allGroups` once it is as long.
   * Before `first` the list is left alone.
   */
  function Promote(m: Match, home: Match, away: Match, prev: Stage, next: Stage,
                   first: Stage, legacy: bool, allGroups: seq<string>): Result<Match>
  {
    var merged := Merged(home.groups + away.groups);
    if prev == first then
      if m.groups != [] then Err("AssertionError: groups already set")
      else if legacy && |merged| != 4 then Err("AssertionError: four groups after the first round")
      else Ok(m.(stage := Some(next), groups := merged))
    else if Before(first, prev) then
      if m.groups != [] then Err("AssertionError: groups already set")
      else Ok(m.(stage := Some(next), groups := if |merged| < |allGroups| then merged else allGroups))
    else
      Ok(m.(stage := Some(next)))
  }

  /**
   * The whole of `FTrySetStage`: an error for a failed assertion or a
   * missing feeder, `Ok(None)` for `return False`, `Ok(Some(m'))` for the
   * promoted match. The home feeder is looked at first.
   */
  function TryStage(arena: map<int, Match>, id: int, prev: Stage, next: Stage,
                    first: Stage, legacy: bool, allGroups: seq<string>): Result<Option<Match>>
    requires id in arena
  {
    var m := arena[id];
    if m.stage.Some? then Err("AssertionError: stage already set")
    else if m.feederHome.None? || m.feederAway.None? then Err("AssertionError: feeders missing")
    else if m.feederHome.value !in arena then Err("KeyError: home feeder")
    else if arena[m.feederHome.value].stage != Some(prev) then Ok(None)
    else if m.feederAway.value !in arena then Err("KeyError: away feeder")
    else if arena[m.feederAway.value].stage != Some(prev) then Ok(None)
    else
      match Promote(m, arena[m.feederHome.value], arena[m.feederAway.value], prev, next, first, legacy, allGroups)
      case Err(e) => Err(e)
      case Ok(m') => Ok(Some(m'))
  }

  /** An open match with both feeders present declines exactly when one feeder is not at `prev`. */
  lemma TryStageDeclines(arena: map<int, Match>, id: int, prev: Stage, next: Stage,
                         first: Stage, legacy: bool, allGroups: seq<string>)
    requires id in arena && arena[id].stage.None?
    requires arena[id].feederHome.Some? && arena[id].feederHome.value in arena
    requires arena[id].feederAway.Some? && arena[id].feederAway.value in arena
    ensures TryStage(arena, id, prev, next, first, legacy, allGroups) == Ok(None) <==>
      arena[arena[id].feederHome.value].stage != Some(prev) ||
      arena[arena[id].feederAway.value].stage != Some(prev)
  {
  }

  /**
   * A promotion sets the stage to `next`, changes nothing but the stage and
   * the group list, and requires both feeders to be at `prev`.
   */
  lemma TryStagePromotes(arena: map<int, Match>, id: int, prev: Stage, next: Stage,
                         first: Stage, legacy: bool, allGroups: seq<string>)
    requires id in arena
    requires TryStage(arena, id, prev, next, first, legacy, allGroups).Ok?
    requires TryStage(arena, id, prev, next, first, legacy, allGroups).value.Some?
    ensures var m := arena[id];
      var m' := TryStage(arena, id, prev, next, first, legacy, allGroups).value.value;
      && m.stage.None? && m.feederHome.Some? && m.feederAway.Some?
      && m.feederHome.value in arena && arena[m.feederHome.value].stage == Some(prev)
      && m.feederAway.value in arena && arena[m.feederAway.value].stage == Some(prev)
      && m' == m.(stage := Some(next), groups := m'.groups)
  {
  }

  /**
   * The group list a promotion produces in the current database, where
   * every group name is one letter: in the first round after `first` the
   * feeders' names without repeats in first-seen order; later the same
   * list while it is shorter than the tournament's, and the tournament's
   * full sorted list once it is not.
   */
  lemma PromotedGroups(m: Match, home: Match, away: Match, prev: Stage, next: Stage,
                       first: Stage, allGroups: seq<string>)
    requires AllSingle(home.groups + away.groups)
    requires Promote(m, home, away, prev, next, first, false, allGroups).Ok?
    requires prev == first || Before(first, prev)
    ensures var g := Promote(m, home, away, prev, next, first, false, allGroups).value.groups;
      var merged := Merged(home.groups + away.groups);
      && NoDuplicates(merged)
      && (forall x :: x in merged <==> x in home.groups || x in away.groups)
      && (prev == first ==> g == merged)
      && (Before(first, prev) ==> g == if |merged| < |allGroups| then merged else allGroups)
  {
    MergedNoDuplicates(home.groups + away.groups);
  }

  /** In the older database a promotion out of the first round needs exactly four group names. */
  lemma LegacyFirstRoundHasFour(m: Match, home: Match, away: Match, next: Stage, allGroups: seq<string>)
    ensures Promote(m, home, away, Round64, next, Round64, true, allGroups).Ok? <==>
      m.groups == [] && |Merged(home.groups + away.groups)| == 4
  {
  }
}
