/**
 * The tournament database (`CTournamentDataBase`) as an object over the
 * arena of matches keyed by match id: linking feeders, resolving stages,
 * numbering the bracket and collecting its halves. Both database versions
 * are covered; `legacy` selects the older one's rules, where they differ.
 * A Python exception (a failed `assert`, a `KeyError`) is an `Err` result
 * or a `false` flag, with the arena left as it was at that point.
 */
module Tournaments {
  import opened Wrappers
  import opened Stages
  import opened Matches
  import opened Groups
  import opened Linking
  import opened Promotion
  import opened Traversal
  import opened Worklists

  /**
   * `id` was given a stage by the stage loop: it had none in `orig`, both
   * its feeders were at `p` when it was promoted, and it is what `Promote`
   * makes of it from those feeders (whose entries no longer change once
   * staged). `first`, `legacy` and `allGroups` are the tournament's.
   */
  ghost predicate PromotedAt(arena: map<int, Match>, orig: map<int, Match>, id: int, p: Stage,
                             first: Stage, legacy: bool, allGroups: seq<string>)
  {
    && id in arena && id in orig
    && orig[id].stage.None? && arena[id].stage.Some?
    && orig[id].feederHome.Some? && orig[id].feederAway.Some?
    && orig[id].feederHome.value in arena && arena[orig[id].feederHome.value].stage == Some(p)
    && orig[id].feederAway.value in arena && arena[orig[id].feederAway.value].stage == Some(p)
    && Promote(orig[id], arena[orig[id].feederHome.value], arena[orig[id].feederAway.value],
               p, arena[id].stage.value, first, legacy, allGroups) == Ok(arena[id])
  }

  /** Both feeders of `id` are matches of the arena at stage `p`: the test `FTrySetStage` makes. */
  ghost predicate FeedersAt(arena: map<int, Match>, id: int, p: Stage)
  {
    && id in arena && arena[id].feederHome.Some? && arena[id].feederAway.Some?
    && arena[id].feederHome.value in arena && arena[arena[id].feederHome.value].stage == Some(p)
    && arena[id].feederAway.value in arena && arena[arena[id].feederAway.value].stage == Some(p)
  }

  /** Changing a match that has no stage leaves every recorded promotion as it was. */
  lemma PromotedFrame(arena: map<int, Match>, orig: map<int, Match>, x: int, p: Stage,
                      first: Stage, legacy: bool, allGroups: seq<string>, id: int, m': Match)
    requires PromotedAt(arena, orig, x, p, first, legacy, allGroups)
    requires id in arena && arena[id].stage.None?
    ensures PromotedAt(arena[id := m'], orig, x, p, first, legacy, allGroups)
  {
  }

  class Tournament {
    /** `mpIdMatch` */
    var matches: map<int, Match>
    /** `stageElimFirst`; the older database always starts from `Round1` (here `Round64`). */
    const first: Stage
    /** Whether the older database's rules apply. */
    const legacy: bool
    /** `lStrGroup`, the sorted group names. */
    const allGroups: seq<string>

    constructor (arena: map<int, Match>, first: Stage, legacy: bool, allGroups: seq<string>)
      ensures matches == arena && this.first == first && this.legacy == legacy && this.allGroups == allGroups
    {
      matches := arena;
      this.first := first;
      this.legacy := legacy;
      this.allGroups := allGroups;
    }

    /**
     * `LinkFeeders` of match `id`: each feeder it names (home first) gets
     * the match's id as its `feeding`; the third-place match links nothing.
     */
    method LinkFeeders(id: int) returns (ok: bool)
      requires id in matches
      modifies this
      ensures (matches, ok) == Link(old(matches), ClaimsOf(old(matches)[id]))
    {
      var m := matches[id];
      if m.stage == Some(Third) {
        return true;
      }
      var fs := [m.feederHome, m.feederAway];
      var i := 0;
      while i < |fs|
        invariant 0 <= i <= |fs|
        invariant Link(old(matches), ClaimsOf(m)) == Link(matches, ClaimsFrom(fs[i..], m.id))
      {
        if fs[i].Some? {
          var f := fs[i].value;
          if f !in matches {
            return false;
          }
          if matches[f].feeding.Some? {
            return false;
          }
          matches := matches[f := matches[f].(feeding := Some(m.id))];
        }
        assert fs[i..][1..] == fs[i + 1..];
        i := i + 1;
      }
      return true;
    }

    /** The linking pass over all matches in row order. */
    method LinkAll(order: seq<int>) returns (ok: bool)
      requires forall i :: 0 <= i < |order| ==> order[i] in matches
      modifies this
      ensures (matches, ok) == Link(old(matches), AllClaims(old(matches), order))
    {
      var i := 0;
      while i < |order|
        invariant 0 <= i <= |order|
        invariant (matches, true) == Link(old(matches), AllClaims(old(matches), order[..i]))
      {
        LinkNext(old(matches), order, i);
        var linked := LinkFeeders(order[i]);
        assert (matches, linked) == Link(old(matches), AllClaims(old(matches), order[..i + 1]));
        if !linked {
          LinkPrefix(old(matches), order, i + 1);
          return false;
        }
        i := i + 1;
      }
      assert order[..|order|] == order;
      return true;
    }

    /**
     * `FTrySetStage`: promotes match `id` to `next` when both feeders are
     * at `prev`, merging their group lists in first-seen order; what the
     * promoted match's group list becomes is `Promote`.
     * `Ok(false)` is `return False`.
     */
    method TrySetStage(id: int, prev: Stage, next: Stage) returns (r: Result<bool>)
      requires id in matches
      modifies this
      ensures match TryStage(old(matches), id, prev, next, first, legacy, allGroups)
        case Err(_) => r.Err? && matches == old(matches)
        case Ok(None) => r == Ok(false) && matches == old(matches)
        case Ok(Some(m')) => r == Ok(true) && matches == old(matches)[id := m']
    {
      var m := matches[id];
      if m.stage.Some? {
        return Err("AssertionError: stage already set");
      }
      if m.feederHome.None? || m.feederAway.None? {
        return Err("AssertionError: feeders missing");
      }
      var feeders := [m.feederHome.value, m.feederAway.value];
      var seen: set<string> := {};
      var merged: seq<string> := [];
      ghost var read: seq<string> := [];
      var i := 0;
      while i < |feeders|
        invariant 0 <= i <= |feeders|
        invariant matches == old(matches)
        invariant forall k :: 0 <= k < i ==> feeders[k] in matches && matches[feeders[k]].stage == Some(prev)
        invariant i == 0 ==> read == []
        invariant i == 1 ==> read == matches[feeders[0]].groups
        invariant i == 2 ==> read == matches[feeders[0]].groups + matches[feeders[1]].groups
        invariant (seen, merged) == MergeState(read)
      {
        var f := feeders[i];
        if f !in matches {
          return Err(if i == 0 then "KeyError: home feeder" else "KeyError: away feeder");
        }
        var feeder := matches[f];
        if feeder.stage != Some(prev) {
          return Ok(false);
        }
        seen, merged := MergeGroups(seen, merged, read, feeder.groups);
        read := read + feeder.groups;
        i := i + 1;
      }
      assert feeders[0] == m.feederHome.value && feeders[1] == m.feederAway.value;
      assert merged == Merged(matches[m.feederHome.value].groups + matches[m.feederAway.value].groups);
      // the group list the promoted match takes, and its new stage
      var promoted := Promote(m, matches[feeders[0]], matches[feeders[1]], prev, next, first, legacy, allGroups);
      if promoted.Err? {
        return Err(promoted.msg);
      }
      matches := matches[id := promoted.value];
      return Ok(true);
    }

    /**
     * The first loop of `MpStageSetMatch`: every match that has a stage is
     * filed under it, the others are collected as open.
     */
    method Classify() returns (stageMap: map<Stage, set<int>>, noStage: set<int>)
      ensures noStage <= matches.Keys
      ensures forall id :: id in matches ==> (id in noStage <==> matches[id].stage.None?)
      ensures SoundStageMap(stageMap, matches)
      ensures forall id :: id in matches && matches[id].stage.Some? ==>
        matches[id].stage.value in stageMap && id in stageMap[matches[id].stage.value]
    {
      stageMap := map[];
      noStage := {};
      var rows := matches.Keys;
      while rows != {}
        invariant rows <= matches.Keys
        invariant forall id :: id in matches ==> (id in noStage <==> id !in rows && matches[id].stage.None?)
        invariant noStage <= matches.Keys
        invariant SoundStageMap(stageMap, matches)
        invariant forall id :: id in matches && id !in rows && matches[id].stage.Some? ==>
          matches[id].stage.value in stageMap && id in stageMap[matches[id].stage.value]
        decreases |rows|
      {
        NonEmptySet(rows);
        var id :| id in rows;
        rows := rows - {id};
        var m := matches[id];
        if m.stage.Some? {
          var s := m.stage.value;
          stageMap := stageMap[s := (if s in stageMap then stageMap[s] else {}) + {id}];
        } else {
          noStage := noStage + {id};
        }
      }
    }

    /**
     * One round of `MpStageSetMatch`: tries every open match against
     * `prev`/`next` and answers the set promoted.
     */
    method PromoteRound(noStage: set<int>, prev: Stage, next: Stage, ghost orig: map<int, Match>,
                        ghost prevOf: map<int, Stage>, ghost stageMap: map<Stage, set<int>>)
      returns (r: Result<set<int>>, ghost prevOf': map<int, Stage>)
      requires noStage <= matches.Keys
      requires forall id :: id in matches ==> (id in noStage <==> matches[id].stage.None?)
      requires Resolving(matches, orig, prevOf, stageMap, first, legacy, allGroups)
      modifies this
      ensures r.Ok? ==> Resolving(matches, orig, prevOf', stageMap, first, legacy, allGroups)
      ensures r.Ok? ==> r.value <= noStage
      ensures r.Ok? ==> forall id :: id in matches ==> (matches[id].stage.None? <==> id in noStage && id !in r.value)
      ensures r.Ok? ==> forall id :: id in r.value ==> matches[id].stage == Some(next)
      ensures r.Ok? ==> forall id :: id in r.value ==> id in prevOf' && prevOf'[id] == prev
      ensures r.Ok? ==> forall id :: id in old(matches) && old(matches)[id].stage.Some? ==> matches[id] == old(matches)[id]
      ensures r.Ok? && prev != next ==>
        forall id :: id in noStage ==> (id in r.value <==> FeedersAt(old(matches), id, prev))
    {
      prevOf' := prevOf;
      var nextSet: set<int> := {};
      var todo := noStage;
      while todo != {}
        invariant Round(matches, orig, noStage, todo, nextSet, prev, next, prevOf', stageMap, first, legacy, allGroups)
        invariant Exact(matches, old(matches), noStage, todo, nextSet, prev, next)
        decreases |todo|
      {
        NonEmptySet(todo);
        var id :| id in todo;
        var promoted, p := TryOne(id, noStage, todo, nextSet, prev, next, orig, old(matches), prevOf', stageMap);
        if promoted.Err? {
          return Err(promoted.msg), prevOf';
        }
        todo := todo - {id};
        prevOf' := p;
        if promoted.value {
          nextSet := nextSet + {id};
        }
      }
      return Ok(nextSet), prevOf';
    }

    /**
     * One turn of the round's loop: `FTrySetStage` on one open match, which
     * keeps the round's invariant and its exact account whether the match is
     * promoted or declines.
     */
    method TryOne(id: int, noStage: set<int>, todo: set<int>, nextSet: set<int>, prev: Stage, next: Stage,
                  ghost orig: map<int, Match>, ghost start: map<int, Match>, ghost prevOf: map<int, Stage>,
                  ghost stageMap: map<Stage, set<int>>)
      returns (r: Result<bool>, ghost prevOf': map<int, Stage>)
      requires id in todo
      requires Round(matches, orig, noStage, todo, nextSet, prev, next, prevOf, stageMap, first, legacy, allGroups)
      requires Exact(matches, start, noStage, todo, nextSet, prev, next)
      modifies this
      ensures r.Ok? ==> var nextSet' := if r.value then nextSet + {id} else nextSet;
        && Round(matches, orig, noStage, todo - {id}, nextSet', prev, next, prevOf', stageMap, first, legacy, allGroups)
        && Exact(matches, start, noStage, todo - {id}, nextSet', prev, next)
    {
      ghost var before := matches;
      prevOf' := prevOf;
      r := TrySetStage(id, prev, next);
      if r.Err? {
        return;
      }
      ExactStep(before, start, noStage, todo, nextSet, id, prev, next, first, legacy, allGroups);
      if r.value {
        var m' := TryStage(before, id, prev, next, first, legacy, allGroups).value.value;
        RoundPromote(before, orig, noStage, todo, nextSet, prev, next, prevOf, stageMap, first, legacy, allGroups, id, m');
        prevOf' := prevOf[id := prev];
      } else {
        RoundDecline(before, orig, noStage, todo, nextSet, prev, next, prevOf, stageMap, first, legacy, allGroups, id);
      }
    }

    /**
     * `MpStageSetMatch`: files the matches that have a stage under it, then
     * promotes the rest round by round. Each round's next stage follows
     * from the previous round's size (`NextStage`), every open match is
     * tried, and a round that promotes nothing is an error, so the open set
     * shrinks every round. The ghost results record the run: round `k`
     * moves from `stages[k]`, which holds `rounds[k]`, with `opens[k]` still
     * open (`RoundRecord`). A round's set is filed under its stage and
     * replaces what was filed there before, so a stage that recurs keeps
     * only its last round, and a match that was given that stage beforehand
     * is no longer listed.
     */
    method StageAll() returns (r: Result<map<Stage, set<int>>>, ghost stages: seq<Stage>,
                               ghost rounds: seq<set<int>>, ghost opens: seq<set<int>>)
      modifies this
      ensures r.Ok? ==> matches.Keys == old(matches).Keys
      ensures r.Ok? ==> forall id :: id in matches ==> matches[id].stage.Some?
      ensures r.Ok? ==> forall id :: id in old(matches) && old(matches)[id].stage.Some? ==> matches[id] == old(matches)[id]
      ensures r.Ok? ==> forall id :: id in old(matches) && old(matches)[id].stage.None? ==>
        exists p :: PromotedAt(matches, old(matches), id, p, first, legacy, allGroups)
      ensures r.Ok? ==> SoundStageMap(r.value, matches)
      ensures r.Ok? ==> |stages| >= 1 && |rounds| == |stages| && |opens| == |stages| && stages[0] == first
      ensures r.Ok? ==> rounds[0] == StagedAt(old(matches), first) && opens[0] == OpenIds(old(matches))
      ensures r.Ok? ==> opens[|opens| - 1] == {}
      ensures r.Ok? ==> Records(old(matches), matches, stages, rounds, opens, |stages| - 1, first, legacy, allGroups)
      ensures r.Ok? ==> MapRecord(old(matches), stages, rounds, r.value)
    {
      var stageMap, noStage := Classify();
      HistoryStart(matches, stageMap, noStage, first, legacy, allGroups);
      ghost var prevOf, prev;
      r, stages, rounds, opens, prevOf, prev := StageRounds(stageMap, noStage, old(matches));
      if r.Ok? {
        StagingDone(matches, old(matches), prevOf, r.value, first, legacy, allGroups);
      }
    }

    /**
     * The stage loop of `MpStageSetMatch`, from the classified arena with
     * `noStage` open: one `NextRound` per pass until no match is open. The
     * loop keeps `Staging` and `History`; the ghost results are the run's
     * record, the promotions of the open matches and the last stage.
     */
    method StageRounds(stageMap0: map<Stage, set<int>>, noStage0: set<int>, ghost orig: map<int, Match>)
      returns (r: Result<map<Stage, set<int>>>, ghost stages: seq<Stage>, ghost rounds: seq<set<int>>,
               ghost opens: seq<set<int>>, ghost prevOf: map<int, Stage>, ghost prev: Stage)
      requires Staging(matches, orig, noStage0, map[], stageMap0, first, legacy, allGroups)
      requires History(orig, matches, noStage0, first, [first], [StagedAt(orig, first)], [noStage0], stageMap0,
                       first, legacy, allGroups)
      modifies this
      ensures r.Ok? ==> Staging(matches, orig, {}, prevOf, r.value, first, legacy, allGroups)
      ensures r.Ok? ==> History(orig, matches, {}, prev, stages, rounds, opens, r.value, first, legacy, allGroups)
    {
      var stageMap, noStage := stageMap0, noStage0;
      var last := first;
      prevOf := map[];
      stages, rounds, opens := [first], [StagedAt(orig, first)], [noStage];
      while noStage != {}
        invariant Staging(matches, orig, noStage, prevOf, stageMap, first, legacy, allGroups)
        invariant History(orig, matches, noStage, last, stages, rounds, opens, stageMap, first, legacy, allGroups)
        decreases |noStage|
      {
        var round;
        round, prevOf := NextRound(noStage, last, stageMap, orig, prevOf, stages, rounds, opens);
        if round.Err? {
          return Err(round.msg), stages, rounds, opens, prevOf, last;
        }
        var (next, nextSet) := round.value;
        noStage := noStage - nextSet;
        stageMap := stageMap[next := nextSet];
        last := next;
        stages, rounds, opens := stages + [next], rounds + [nextSet], opens + [noStage];
      }
      return Ok(stageMap), stages, rounds, opens, prevOf, last;
    }

    /**
     * One pass of the stage loop of `MpStageSetMatch`: the next stage from
     * the matches at `prev` (a `KeyError` when there are none), then one
     * round of promotions, which must promote something. Answers the next
     * stage and the set promoted to it, and keeps the loop's record.
     */
    method NextRound(noStage: set<int>, prev: Stage, stageMap: map<Stage, set<int>>, ghost orig: map<int, Match>,
                     ghost prevOf: map<int, Stage>, ghost stages: seq<Stage>, ghost rounds: seq<set<int>>,
                     ghost opens: seq<set<int>>)
      returns (r: Result<(Stage, set<int>)>, ghost prevOf': map<int, Stage>)
      requires noStage != {}
      requires Staging(matches, orig, noStage, prevOf, stageMap, first, legacy, allGroups)
      requires History(orig, matches, noStage, prev, stages, rounds, opens, stageMap, first, legacy, allGroups)
      modifies this
      ensures prev !in stageMap ==> r == Err("KeyError: no matches at the previous stage")
      ensures prev in stageMap && NextStage(|stageMap[prev]|, prev, |noStage|).Err? ==>
        r == Err(NextStage(|stageMap[prev]|, prev, |noStage|).msg)
      ensures r.Ok? ==> prev in stageMap && NextStage(|stageMap[prev]|, prev, |noStage|) == Ok(r.value.0)
      ensures r.Ok? ==> r.value.1 != {} && r.value.1 <= noStage
      ensures r.Ok? ==> var (next, nextSet) := r.value;
        && Staging(matches, orig, noStage - nextSet, prevOf', stageMap[next := nextSet], first, legacy, allGroups)
        && History(orig, matches, noStage - nextSet, next, stages + [next], rounds + [nextSet], opens + [noStage - nextSet],
                   stageMap[next := nextSet], first, legacy, allGroups)
    {
      prevOf' := prevOf;
      if prev !in stageMap {
        return Err("KeyError: no matches at the previous stage"), prevOf';
      }
      var stepped := NextStage(|stageMap[prev]|, prev, |noStage|);
      if stepped.Err? {
        return Err(stepped.msg), prevOf';
      }
      var next := stepped.value;
      ghost var before := matches;
      OpenUntouched(matches, orig, noStage, prevOf, stageMap, first, legacy, allGroups);
      var round;
      round, prevOf' := PromoteRound(noStage, prev, next, orig, prevOf, stageMap);
      if round.Err? {
        return Err(round.msg), prevOf';
      }
      var nextSet := round.value;
      if nextSet == {} {
        return Err("AssertionError: no match promoted"), prevOf';
      }
      HistoryStep(orig, before, matches, noStage, prev, next, nextSet, stages, rounds, opens, stageMap,
                  prevOf', first, legacy, allGroups);
      StagingRound(matches, orig, noStage, nextSet, next, prevOf', stageMap, first, legacy, allGroups);
      return Ok((next, nextSet)), prevOf';
    }

    /**
     * `AssignSortElim`: numbers the bracket below `final` in order, home
     * side first, by a stack of ids and a visited set. On a proper bracket
     * (`Bracket`) it succeeds and gives each match its place in `InOrder`,
     * counting from 1. It fails (`false`) on a missing id (`KeyError`) or on
     * a match already numbered (the `assert`), with the arena as it is then.
     * Only `sortElim` ever changes.
     */
    method AssignSortElim(final: int, ghost rank: map<int, nat>) returns (ok: bool)
      modifies this
      ensures exists numbered :: matches == Renumbered(old(matches), numbered)
      ensures Bracket(old(matches), rank, final) ==> ok && matches == Renumbered(old(matches), InOrder(old(matches), rank, final))
    {
      ghost var orig := matches;
      ghost var b := Bracket(orig, rank, final);
      ghost var numbered: seq<int> := [];
      var next := 1;
      var stack := [final];
      var visited: set<int> := {};
      if b {
        NumberingStart(orig, rank, final);
      }
      while stack != []
        invariant matches == Renumbered(orig, numbered)
        invariant next == |numbered| + 1
        invariant b ==> Numbering(orig, rank, final, numbered, stack, visited)
        decreases |orig.Keys - visited|, |stack|
      {
        var e := stack[|stack| - 1];
        if b {
          NumberingStep(orig, rank, final, numbered, stack, visited);
        }
        if e !in matches {
          return false;
        }
        var m := matches[e];
        if m.sortElim != 0 {
          return false;
        }
        if e in visited {
          RenumberedNext(orig, numbered, e);
          matches := matches[e := m.(sortElim := next)];
          next := next + 1;
          numbered := numbered + [e];
          stack := stack[..|stack| - 1];
        } else {
          ghost var unvisited := orig.Keys - visited;
          assert unvisited == (orig.Keys - (visited + {e})) + {e};
          visited := visited + {e};
          // away feeder, the match itself, home feeder: the home side is popped first
          stack := Pushed(stack[..|stack| - 1], m, e);
        }
      }
      if b {
        NumberingDone(orig, rank, final, numbered, visited);
      }
      return true;
    }

    /**
     * `SetMatchElimFeeding`: the ids of the matches below `id`, collected
     * by a visit set that is popped in any order; a feeder is queued again
     * even when it was already collected. On success the result is the set
     * of the bracket listing below `id`; it fails with a `KeyError` exactly
     * when some match of that listing is missing from the arena. The ghost
     * `rank` stands for the acyclic feeder graph the loop needs to stop.
     */
    method SetMatchElimFeeding(id: int, ghost rank: map<int, nat>) returns (r: Result<set<int>>)
      requires Ranked(matches, rank) && id in rank
      ensures r.Ok? <==> forall y :: y in InOrder(matches, rank, id) ==> y in matches
      ensures r.Ok? ==> r.value == set y | y in InOrder(matches, rank, id)
    {
      GatheringStart(matches, rank, id);
      var feeding := {id};
      var visit := {id};
      while visit != {}
        invariant Gathering(matches, rank, id, feeding, visit)
        decreases Weight(rank, visit)
      {
        NonEmptySet(visit);
        var x :| x in visit;
        if x !in matches {
          assert x in InOrder(matches, rank, id);
          return Err("KeyError: feeder is not a match");
        }
        var m := matches[x];
        GatheringStep(matches, rank, id, feeding, visit, x);
        ghost var feeding', visit' := feeding + OptionSet(m.feederHome) + OptionSet(m.feederAway),
                                      visit - {x} + OptionSet(m.feederHome) + OptionSet(m.feederAway);
        visit := visit - {x};
        if m.feederHome.Some? {
          feeding := feeding + {m.feederHome.value};
          visit := visit + {m.feederHome.value};
        }
        if m.feederAway.Some? {
          feeding := feeding + {m.feederAway.value};
          visit := visit + {m.feederAway.value};
        }
        assert feeding == feeding' && visit == visit';
      }
      GatheringDone(matches, rank, id, feeding);
      return Ok(feeding);
    }

    /** `SetMatchElimHalfHome`: the matches below the final's home feeder; the final must have one. */
    method SetMatchElimHalfHome(final: int, ghost rank: map<int, nat>) returns (r: Result<set<int>>)
      requires Ranked(matches, rank) && final in rank && final in matches
      ensures matches[final].feederHome.None? ==> r.Err?
      ensures r.Ok? ==> r.value == set y | y in HomeSide(matches, rank, final)
    {
      var h := matches[final].feederHome;
      if h.None? {
        return Err("AssertionError: the final has no home feeder");
      }
      r := SetMatchElimFeeding(h.value, rank);
    }

    /** `SetMatchElimHalfAway`: the matches below the final's away feeder; the final must have one. */
    method SetMatchElimHalfAway(final: int, ghost rank: map<int, nat>) returns (r: Result<set<int>>)
      requires Ranked(matches, rank) && final in rank && final in matches
      ensures matches[final].feederAway.None? ==> r.Err?
      ensures r.Ok? ==> r.value == set y | y in AwaySide(matches, rank, final)
    {
      var a := matches[final].feederAway;
      if a.None? {
        return Err("AssertionError: the final has no away feeder");
      }
      r := SetMatchElimFeeding(a.value, rank);
    }
  }

  /** Every id the stage map files under `s` is a match of the arena at stage `s`. */
  ghost predicate SoundStageMap(stageMap: map<Stage, set<int>>, arena: map<int, Match>)
  {
    forall s :: s in stageMap ==> forall id :: id in stageMap[s] ==> id in arena && arena[id].stage == Some(s)
  }

  /** Changing a match that has no stage keeps the stage map sound. */
  lemma SoundStageMapFrame(stageMap: map<Stage, set<int>>, arena: map<int, Match>, id: int, m': Match)
    requires SoundStageMap(stageMap, arena)
    requires id in arena && arena[id].stage.None?
    ensures SoundStageMap(stageMap, arena[id := m'])
  {
  }

  /** A promotion by `TryStage` is a `PromotedAt` record, at stage `next`. */
  lemma PromotedNow(arena: map<int, Match>, orig: map<int, Match>, id: int, prev: Stage, next: Stage,
                    first: Stage, legacy: bool, allGroups: seq<string>, m': Match)
    requires id in arena && id in orig && orig[id] == arena[id]
    requires TryStage(arena, id, prev, next, first, legacy, allGroups) == Ok(Some(m'))
    ensures m'.stage == Some(next)
    ensures PromotedAt(arena[id := m'], orig, id, prev, first, legacy, allGroups)
  {
  }

  /**
   * What the stage loop keeps while it runs: the same ids, matches that
   * had a stage untouched, every other match either untouched or recorded
   * in `prevOf` with the stage its feeders were at, and a sound stage map.
   */
  ghost predicate Resolving(arena: map<int, Match>, orig: map<int, Match>, prevOf: map<int, Stage>,
                            stageMap: map<Stage, set<int>>, first: Stage, legacy: bool, allGroups: seq<string>)
  {
    && arena.Keys == orig.Keys
    && (forall id :: id in orig && orig[id].stage.Some? ==> arena[id] == orig[id])
    && (forall id :: id in arena ==> id in prevOf || arena[id] == orig[id])
    && (forall id :: id in prevOf ==> PromotedAt(arena, orig, id, prevOf[id], first, legacy, allGroups))
    && SoundStageMap(stageMap, arena)
  }

  /** A promotion by `TryStage` of an open match keeps `Resolving`, with the promotion recorded. */
  lemma ResolvingStep(arena: map<int, Match>, orig: map<int, Match>, prevOf: map<int, Stage>,
                      stageMap: map<Stage, set<int>>, first: Stage, legacy: bool, allGroups: seq<string>,
                      id: int, prev: Stage, next: Stage, m': Match)
    requires Resolving(arena, orig, prevOf, stageMap, first, legacy, allGroups)
    requires id in arena && arena[id].stage.None?
    requires TryStage(arena, id, prev, next, first, legacy, allGroups) == Ok(Some(m'))
    ensures m'.stage == Some(next)
    ensures Resolving(arena[id := m'], orig, prevOf[id := prev], stageMap, first, legacy, allGroups)
  {
    assert id !in prevOf;
    PromotedNow(arena, orig, id, prev, next, first, legacy, allGroups, m');
    forall x | x in prevOf
      ensures PromotedAt(arena[id := m'], orig, x, prevOf[x], first, legacy, allGroups)
    {
      PromotedFrame(arena, orig, x, prevOf[x], first, legacy, allGroups, id, m');
    }
    SoundStageMapFrame(stageMap, arena, id, m');
  }

  /**
   * What one round of the stage loop keeps: the open matches still to try
   * (`todo`) are open, the promoted ones (`nextSet`) are at `next` and
   * recorded as promoted from `prev`, a match is open exactly when it was
   * open at the start of the round and has not been promoted, and the stage
   * loop's own record is kept.
   */
  ghost predicate Round(arena: map<int, Match>, orig: map<int, Match>, noStage: set<int>, todo: set<int>,
                        nextSet: set<int>, prev: Stage, next: Stage, prevOf: map<int, Stage>, stageMap: map<Stage, set<int>>,
                        first: Stage, legacy: bool, allGroups: seq<string>)
  {
    && todo <= noStage && nextSet <= noStage && todo !! nextSet
    && (forall id :: id in todo ==> id in arena && arena[id].stage.None?)
    && (forall id :: id in arena ==> (arena[id].stage.None? <==> id in noStage && id !in nextSet))
    && (forall id :: id in nextSet ==> id in arena && arena[id].stage == Some(next))
    && (forall id :: id in nextSet ==> id in prevOf && prevOf[id] == prev)
    && Resolving(arena, orig, prevOf, stageMap, first, legacy, allGroups)
  }

  /** Promoting an open match from `todo` moves it to `nextSet`. */
  lemma RoundPromote(arena: map<int, Match>, orig: map<int, Match>, noStage: set<int>, todo: set<int>,
                     nextSet: set<int>, prev: Stage, next: Stage, prevOf: map<int, Stage>, stageMap: map<Stage, set<int>>,
                     first: Stage, legacy: bool, allGroups: seq<string>, id: int, m': Match)
    requires Round(arena, orig, noStage, todo, nextSet, prev, next, prevOf, stageMap, first, legacy, allGroups)
    requires id in todo && TryStage(arena, id, prev, next, first, legacy, allGroups) == Ok(Some(m'))
    ensures Round(arena[id := m'], orig, noStage, todo - {id}, nextSet + {id}, prev, next, prevOf[id := prev], stageMap,
                  first, legacy, allGroups)
  {
    ResolvingStep(arena, orig, prevOf, stageMap, first, legacy, allGroups, id, prev, next, m');
  }

  /**
   * Within a round, trying a match against the arena as it now is gives the
   * same answer as against the arena at the start of the round: the only
   * matches changed since are the promoted ones, which were open then and
   * are at `next`, not `prev`, now.
   */
  lemma TryStageAgainst(arena: map<int, Match>, start: map<int, Match>, nextSet: set<int>, id: int,
                        prev: Stage, next: Stage, first: Stage, legacy: bool, allGroups: seq<string>)
    requires arena.Keys == start.Keys && id in arena && id !in nextSet && prev != next
    requires forall x :: x in arena && x !in nextSet ==> arena[x] == start[x]
    requires forall x :: x in nextSet ==> x in arena && arena[x].stage == Some(next) && start[x].stage.None?
    requires TryStage(arena, id, prev, next, first, legacy, allGroups).Ok?
    ensures TryStage(arena, id, prev, next, first, legacy, allGroups).value.Some? <==> FeedersAt(start, id, prev)
  {
    var m := arena[id];
    assert m == start[id];
    if m.feederHome.Some? && m.feederHome.value in arena {
      var h := m.feederHome.value;
      assert arena[h].stage == Some(prev) <==> start[h].stage == Some(prev) by {
        if h in nextSet {} else {}
      }
    }
    if m.feederAway.Some? && m.feederAway.value in arena {
      var a := m.feederAway.value;
      assert arena[a].stage == Some(prev) <==> start[a].stage == Some(prev) by {
        if a in nextSet {} else {}
      }
    }
  }

  /**
   * What a round keeps about its answer: only promoted matches have changed
   * since the start of the round, and every match already tried was
   * promoted exactly when both its feeders were at `prev` at the start
   * (when `next` differs from `prev`).
   */
  ghost predicate Exact(arena: map<int, Match>, start: map<int, Match>, noStage: set<int>, todo: set<int>,
                        nextSet: set<int>, prev: Stage, next: Stage)
  {
    && arena.Keys == start.Keys && todo <= noStage && todo <= arena.Keys && todo !! nextSet
    && (forall x :: x in nextSet ==> x in arena && arena[x].stage == Some(next) && start[x].stage.None?)
    && (forall x :: x in arena && x !in nextSet ==> arena[x] == start[x])
    && (prev != next ==> forall x :: x in noStage && x !in todo ==> (x in nextSet <==> FeedersAt(start, x, prev)))
  }

  /** Trying one more match of `todo` keeps `Exact`, whether it is promoted or declines. */
  lemma ExactStep(arena: map<int, Match>, start: map<int, Match>, noStage: set<int>, todo: set<int>,
                  nextSet: set<int>, id: int, prev: Stage, next: Stage, first: Stage, legacy: bool, allGroups: seq<string>)
    requires Exact(arena, start, noStage, todo, nextSet, prev, next) && id in todo
    requires TryStage(arena, id, prev, next, first, legacy, allGroups).Ok?
    ensures var t := TryStage(arena, id, prev, next, first, legacy, allGroups).value;
      t.Some? ==> Exact(arena[id := t.value], start, noStage, todo - {id}, nextSet + {id}, prev, next)
    ensures TryStage(arena, id, prev, next, first, legacy, allGroups).value.None? ==>
      Exact(arena, start, noStage, todo - {id}, nextSet, prev, next)
  {
    if prev != next {
      TryStageAgainst(arena, start, nextSet, id, prev, next, first, legacy, allGroups);
    }
  }

  /** A match of `todo` that declines leaves the round as it was, one match fewer to try. */
  lemma RoundDecline(arena: map<int, Match>, orig: map<int, Match>, noStage: set<int>, todo: set<int>,
                     nextSet: set<int>, prev: Stage, next: Stage, prevOf: map<int, Stage>, stageMap: map<Stage, set<int>>,
                     first: Stage, legacy: bool, allGroups: seq<string>, id: int)
    requires Round(arena, orig, noStage, todo, nextSet, prev, next, prevOf, stageMap, first, legacy, allGroups)
    ensures Round(arena, orig, noStage, todo - {id}, nextSet, prev, next, prevOf, stageMap, first, legacy, allGroups)
  {
  }

  /**
   * What the stage loop keeps: a match is open exactly when it is in
   * `noStage`, and everything promoted so far is recorded (`Resolving`).
   */
  ghost predicate Staging(arena: map<int, Match>, orig: map<int, Match>, noStage: set<int>, prevOf: map<int, Stage>,
                          stageMap: map<Stage, set<int>>, first: Stage, legacy: bool, allGroups: seq<string>)
  {
    && noStage <= arena.Keys
    && (forall id :: id in arena ==> (id in noStage <==> arena[id].stage.None?))
    && Resolving(arena, orig, prevOf, stageMap, first, legacy, allGroups)
  }

  /** A finished round closes its promoted matches and records them as the next stage. */
  lemma StagingRound(arena: map<int, Match>, orig: map<int, Match>, noStage: set<int>, nextSet: set<int>, next: Stage,
                     prevOf: map<int, Stage>, stageMap: map<Stage, set<int>>,
                     first: Stage, legacy: bool, allGroups: seq<string>)
    requires Resolving(arena, orig, prevOf, stageMap, first, legacy, allGroups)
    requires nextSet <= noStage && noStage <= arena.Keys
    requires forall id :: id in arena ==> (arena[id].stage.None? <==> id in noStage && id !in nextSet)
    requires forall id :: id in nextSet ==> arena[id].stage == Some(next)
    ensures Staging(arena, orig, noStage - nextSet, prevOf, stageMap[next := nextSet], first, legacy, allGroups)
  {
  }

  /** When no match is open, every originally open match has a recorded promotion. */
  lemma StagingDone(arena: map<int, Match>, orig: map<int, Match>, prevOf: map<int, Stage>,
                    stageMap: map<Stage, set<int>>, first: Stage, legacy: bool, allGroups: seq<string>)
    requires Staging(arena, orig, {}, prevOf, stageMap, first, legacy, allGroups)
    ensures arena.Keys == orig.Keys
    ensures forall id :: id in arena ==> arena[id].stage.Some?
    ensures forall id :: id in orig && orig[id].stage.Some? ==> arena[id] == orig[id]
    ensures forall id :: id in orig && orig[id].stage.None? ==>
      exists p :: PromotedAt(arena, orig, id, p, first, legacy, allGroups)
    ensures SoundStageMap(stageMap, arena)
  {
    forall id | id in orig && orig[id].stage.None?
      ensures exists p :: PromotedAt(arena, orig, id, p, first, legacy, allGroups)
    {
      assert id in prevOf;
      assert PromotedAt(arena, orig, id, prevOf[id], first, legacy, allGroups);
    }
  }

  /** The ids of the arena at stage `s`. */
  ghost function StagedAt(arena: map<int, Match>, s: Stage): set<int>
  {
    set id | id in arena && arena[id].stage == Some(s)
  }

  /** The ids of the arena without a stage. */
  ghost function OpenIds(arena: map<int, Match>): set<int>
  {
    set id | id in arena && arena[id].stage.None?
  }

  /**
   * Both feeders that `orig` names for `id` were staged by the time `open`
   * was the open set (neither is in it), and are at `p` in `arena`.
   */
  ghost predicate ReadyAt(orig: map<int, Match>, arena: map<int, Match>, open: set<int>, id: int, p: Stage)
  {
    && id in orig && orig[id].feederHome.Some? && orig[id].feederAway.Some?
    && orig[id].feederHome.value in arena && orig[id].feederHome.value !in open
    && arena[orig[id].feederHome.value].stage == Some(p)
    && orig[id].feederAway.value in arena && orig[id].feederAway.value !in open
    && arena[orig[id].feederAway.value].stage == Some(p)
  }

  /**
   * Round `k` of the stage loop, as the run recorded it: it moved from
   * `stages[k]`, which held `rounds[k]`, to `stages[k + 1]` by `NextStage`
   * with `opens[k]` still open; it promoted `rounds[k + 1]`, a non-empty part
   * of `opens[k]`, each match to `stages[k + 1]` from feeders at `stages[k]`,
   * leaving the rest open; and, when the stage changed, the matches it
   * promoted are exactly the open ones whose feeders were both staged and
   * at `stages[k]`.
   */
  ghost predicate RoundRecord(orig: map<int, Match>, arena: map<int, Match>, stages: seq<Stage>,
                              rounds: seq<set<int>>, opens: seq<set<int>>, k: int,
                              first: Stage, legacy: bool, allGroups: seq<string>)
  {
    && 0 <= k && k + 1 < |stages| && |rounds| == |stages| && |opens| == |stages|
    && NextStage(|rounds[k]|, stages[k], |opens[k]|) == Ok(stages[k + 1])
    && rounds[k + 1] != {} && rounds[k + 1] <= opens[k] && opens[k + 1] == opens[k] - rounds[k + 1]
    && (forall id :: id in rounds[k + 1] ==>
          PromotedAt(arena, orig, id, stages[k], first, legacy, allGroups) && arena[id].stage == Some(stages[k + 1]))
    && (stages[k] != stages[k + 1] ==>
          forall id :: id in opens[k] ==> (id in rounds[k + 1] <==> ReadyAt(orig, arena, opens[k], id, stages[k])))
  }

  /**
   * What the stage loop keeps about the rounds run so far: they start at
   * `first` with the matches filed there and every open match, they end at
   * `prev` with `noStage` open, each is recorded by `RoundRecord`, and the
   * stage map holds each round's set unless its stage recurs later, and
   * every match staged beforehand at a stage no round reached.
   */
  ghost predicate History(orig: map<int, Match>, arena: map<int, Match>, noStage: set<int>, prev: Stage,
                          stages: seq<Stage>, rounds: seq<set<int>>, opens: seq<set<int>>,
                          stageMap: map<Stage, set<int>>, first: Stage, legacy: bool, allGroups: seq<string>)
  {
    && |stages| >= 1 && |rounds| == |stages| && |opens| == |stages|
    && stages[0] == first && rounds[0] == StagedAt(orig, first) && opens[0] == OpenIds(orig)
    && prev == stages[|stages| - 1] && noStage == opens[|opens| - 1]
    && (prev in stageMap ==> stageMap[prev] == rounds[|rounds| - 1])
    && (forall k :: 0 <= k < |opens| ==> noStage <= opens[k])
    && Records(orig, arena, stages, rounds, opens, |stages| - 1, first, legacy, allGroups)
    && MapRecord(orig, stages, rounds, stageMap)
  }

  /** The first n rounds of the run are each recorded faithfully. */
  ghost predicate Records(orig: map<int, Match>, arena: map<int, Match>, stages: seq<Stage>, rounds: seq<set<int>>,
                          opens: seq<set<int>>, n: int, first: Stage, legacy: bool, allGroups: seq<string>)
  {
    forall k :: 0 <= k < n ==> RoundRecord(orig, arena, stages, rounds, opens, k, first, legacy, allGroups)
  }

  /**
   * The stage map files every promoted round under its stage (the last round wins when a stage recurs), and
   * every match staged beforehand under its own stage unless a later round reused that stage.
   */
  ghost predicate MapRecord(orig: map<int, Match>, stages: seq<Stage>, rounds: seq<set<int>>, stageMap: map<Stage, set<int>>)
    requires |stages| >= 1 && |rounds| == |stages|
  {
    && (forall k :: 1 <= k < |stages| ==>
          stages[k] in stageMap && (stages[k] !in stages[k + 1..] ==> stageMap[stages[k]] == rounds[k]))
    && (forall id :: id in orig && orig[id].stage.Some? && orig[id].stage.value !in stages[1..] ==>
          orig[id].stage.value in stageMap && id in stageMap[orig[id].stage.value])
  }

  /** Before the first round, the history is the classified arena. */
  lemma HistoryStart(orig: map<int, Match>, stageMap: map<Stage, set<int>>, noStage: set<int>,
                     first: Stage, legacy: bool, allGroups: seq<string>)
    requires noStage <= orig.Keys
    requires forall id :: id in orig ==> (id in noStage <==> orig[id].stage.None?)
    requires SoundStageMap(stageMap, orig)
    requires forall id :: id in orig && orig[id].stage.Some? ==>
      orig[id].stage.value in stageMap && id in stageMap[orig[id].stage.value]
    ensures History(orig, orig, noStage, first, [first], [StagedAt(orig, first)], [noStage], stageMap, first, legacy, allGroups)
  {
    forall id ensures id in noStage <==> id in OpenIds(orig) {
    }
    if first in stageMap {
      forall id ensures id in stageMap[first] <==> id in StagedAt(orig, first) {
      }
    }
  }

  /** A match still open at the start of a round is as it was at the start of the stage loop. */
  lemma OpenUntouched(arena: map<int, Match>, orig: map<int, Match>, noStage: set<int>, prevOf: map<int, Stage>,
                      stageMap: map<Stage, set<int>>, first: Stage, legacy: bool, allGroups: seq<string>)
    requires Staging(arena, orig, noStage, prevOf, stageMap, first, legacy, allGroups)
    ensures forall id :: id in noStage ==> arena[id] == orig[id]
  {
    forall id | id in noStage ensures arena[id] == orig[id] {
      assert id !in prevOf;
    }
  }

  /** A record that only reads staged matches survives a round, which changes only open ones. */
  lemma PromotedKept(a: map<int, Match>, b: map<int, Match>, orig: map<int, Match>, id: int, p: Stage,
                     first: Stage, legacy: bool, allGroups: seq<string>)
    requires forall x :: x in a && a[x].stage.Some? ==> x in b && b[x] == a[x]
    requires PromotedAt(a, orig, id, p, first, legacy, allGroups)
    ensures PromotedAt(b, orig, id, p, first, legacy, allGroups)
  {
    var h, w := orig[id].feederHome.value, orig[id].feederAway.value;
    assert b[id] == a[id] && b[h] == a[h] && b[w] == a[w];
  }

  /** `ReadyAt` reads only matches outside `open`, so arenas that agree there agree on it. */
  lemma ReadyKept(a: map<int, Match>, b: map<int, Match>, orig: map<int, Match>, open: set<int>, id: int, p: Stage)
    requires a.Keys == b.Keys
    requires forall x :: x in a && x !in open ==> b[x] == a[x]
    ensures ReadyAt(orig, a, open, id, p) <==> ReadyAt(orig, b, open, id, p)
  {
    if id in orig && orig[id].feederHome.Some? && orig[id].feederAway.Some? {
      var h, w := orig[id].feederHome.value, orig[id].feederAway.value;
      if h in a && h !in open {
        assert b[h] == a[h];
      }
      if w in a && w !in open {
        assert b[w] == a[w];
      }
    }
  }

  /** A round recorded earlier survives a later round. */
  lemma RecordKept(orig: map<int, Match>, a: map<int, Match>, b: map<int, Match>, noStage: set<int>,
                   stages: seq<Stage>, rounds: seq<set<int>>, opens: seq<set<int>>, k: int,
                   next: Stage, nextSet: set<int>, first: Stage, legacy: bool, allGroups: seq<string>)
    requires RoundRecord(orig, a, stages, rounds, opens, k, first, legacy, allGroups)
    requires a.Keys == b.Keys && noStage <= opens[k]
    requires forall x :: x in a ==> (x in noStage <==> a[x].stage.None?)
    requires forall x :: x in a && a[x].stage.Some? ==> b[x] == a[x]
    ensures RoundRecord(orig, b, stages + [next], rounds + [nextSet], opens + [noStage - nextSet], k,
                        first, legacy, allGroups)
  {
    var stages', rounds', opens' := stages + [next], rounds + [nextSet], opens + [noStage - nextSet];
    assert stages'[k] == stages[k] && stages'[k + 1] == stages[k + 1];
    assert rounds'[k] == rounds[k] && rounds'[k + 1] == rounds[k + 1];
    assert opens'[k] == opens[k] && opens'[k + 1] == opens[k + 1];
    forall id | id in rounds[k + 1]
      ensures PromotedAt(b, orig, id, stages[k], first, legacy, allGroups) && b[id].stage == Some(stages[k + 1])
    {
      PromotedKept(a, b, orig, id, stages[k], first, legacy, allGroups);
    }
    forall id ensures ReadyAt(orig, a, opens[k], id, stages[k]) <==> ReadyAt(orig, b, opens[k], id, stages[k]) {
      ReadyKept(a, b, orig, opens[k], id, stages[k]);
    }
  }

  /**
   * The round just run, recorded: `PromoteRound` answered `nextSet` against
   * the arena `a` of the start of the round, which `ReadyAt` reads back
   * from the arena `b` it left.
   */
  lemma RecordNew(orig: map<int, Match>, a: map<int, Match>, b: map<int, Match>, noStage: set<int>,
                  prev: Stage, next: Stage, nextSet: set<int>,
                  stages: seq<Stage>, rounds: seq<set<int>>, opens: seq<set<int>>,
                  first: Stage, legacy: bool, allGroups: seq<string>)
    requires |stages| >= 1 && |rounds| == |stages| && |opens| == |stages|
    requires prev == stages[|stages| - 1] && noStage == opens[|opens| - 1]
    requires NextStage(|rounds[|rounds| - 1]|, prev, |noStage|) == Ok(next)
    requires a.Keys == orig.Keys && b.Keys == a.Keys
    requires forall x :: x in a ==> (x in noStage <==> a[x].stage.None?)
    requires forall x :: x in noStage ==> x in a && a[x] == orig[x]
    requires forall x :: x in a && a[x].stage.Some? ==> b[x] == a[x]
    requires nextSet != {} && nextSet <= noStage
    requires forall id :: id in nextSet ==> PromotedAt(b, orig, id, prev, first, legacy, allGroups) && b[id].stage == Some(next)
    requires prev != next ==> forall id :: id in noStage ==> (id in nextSet <==> FeedersAt(a, id, prev))
    ensures RoundRecord(orig, b, stages + [next], rounds + [nextSet], opens + [noStage - nextSet], |stages| - 1,
                        first, legacy, allGroups)
  {
    var k := |stages| - 1;
    var stages', rounds', opens' := stages + [next], rounds + [nextSet], opens + [noStage - nextSet];
    assert stages'[k] == prev && stages'[k + 1] == next;
    assert rounds'[k] == rounds[k] && rounds'[k + 1] == nextSet;
    assert opens'[k] == noStage && opens'[k + 1] == noStage - nextSet;
    if prev != next {
      forall id | id in noStage ensures FeedersAt(a, id, prev) <==> ReadyAt(orig, b, noStage, id, prev) {
        assert a[id] == orig[id];
        var m := a[id];
        if m.feederHome.Some? && m.feederHome.value in a {
          var h := m.feederHome.value;
          assert a[h].stage == Some(prev) <==> h !in noStage && b[h].stage == Some(prev);
        }
        if m.feederAway.Some? && m.feederAway.value in a {
          var w := m.feederAway.value;
          assert a[w].stage == Some(prev) <==> w !in noStage && b[w].stage == Some(prev);
        }
      }
    }
  }

  /** One more round extends the history. */
  lemma HistoryStep(orig: map<int, Match>, a: map<int, Match>, b: map<int, Match>, noStage: set<int>,
                    prev: Stage, next: Stage, nextSet: set<int>,
                    stages: seq<Stage>, rounds: seq<set<int>>, opens: seq<set<int>>, stageMap: map<Stage, set<int>>,
                    prevOf: map<int, Stage>, first: Stage, legacy: bool, allGroups: seq<string>)
    requires History(orig, a, noStage, prev, stages, rounds, opens, stageMap, first, legacy, allGroups)
    requires a.Keys == orig.Keys && b.Keys == a.Keys
    requires forall x :: x in a ==> (x in noStage <==> a[x].stage.None?)
    requires forall x :: x in noStage ==> x in a && a[x] == orig[x]
    requires forall x :: x in a && a[x].stage.Some? ==> b[x] == a[x]
    requires prev in stageMap && NextStage(|stageMap[prev]|, prev, |noStage|) == Ok(next)
    requires nextSet != {} && nextSet <= noStage
    requires forall id :: id in nextSet ==> b[id].stage == Some(next) && id in prevOf && prevOf[id] == prev
    requires forall id :: id in prevOf ==> PromotedAt(b, orig, id, prevOf[id], first, legacy, allGroups)
    requires prev != next ==> forall id :: id in noStage ==> (id in nextSet <==> FeedersAt(a, id, prev))
    ensures History(orig, b, noStage - nextSet, next, stages + [next], rounds + [nextSet], opens + [noStage - nextSet],
                    stageMap[next := nextSet], first, legacy, allGroups)
  {
    RecordsStep(orig, a, b, noStage, prev, next, nextSet, stages, rounds, opens, stageMap, prevOf, first, legacy, allGroups);
    MapStep(orig, stages, rounds, stageMap, next, nextSet);
    var opens' := opens + [noStage - nextSet];
    assert forall k :: 0 <= k < |opens'| ==> noStage - nextSet <= opens'[k];
  }

  /** The rounds recorded so far survive one more round, which is recorded too. */
  lemma RecordsStep(orig: map<int, Match>, a: map<int, Match>, b: map<int, Match>, noStage: set<int>,
                    prev: Stage, next: Stage, nextSet: set<int>,
                    stages: seq<Stage>, rounds: seq<set<int>>, opens: seq<set<int>>, stageMap: map<Stage, set<int>>,
                    prevOf: map<int, Stage>, first: Stage, legacy: bool, allGroups: seq<string>)
    requires History(orig, a, noStage, prev, stages, rounds, opens, stageMap, first, legacy, allGroups)
    requires a.Keys == orig.Keys && b.Keys == a.Keys
    requires forall x :: x in a ==> (x in noStage <==> a[x].stage.None?)
    requires forall x :: x in noStage ==> x in a && a[x] == orig[x]
    requires forall x :: x in a && a[x].stage.Some? ==> b[x] == a[x]
    requires prev in stageMap && NextStage(|stageMap[prev]|, prev, |noStage|) == Ok(next)
    requires nextSet != {} && nextSet <= noStage
    requires forall id :: id in nextSet ==> b[id].stage == Some(next) && id in prevOf && prevOf[id] == prev
    requires forall id :: id in prevOf ==> PromotedAt(b, orig, id, prevOf[id], first, legacy, allGroups)
    requires prev != next ==> forall id :: id in noStage ==> (id in nextSet <==> FeedersAt(a, id, prev))
    ensures Records(orig, b, stages + [next], rounds + [nextSet], opens + [noStage - nextSet], |stages|, first, legacy, allGroups)
  {
    var stages', rounds', opens' := stages + [next], rounds + [nextSet], opens + [noStage - nextSet];
    var n := |stages|;
    forall k | 0 <= k < n - 1
      ensures RoundRecord(orig, b, stages', rounds', opens', k, first, legacy, allGroups)
    {
      assert RoundRecord(orig, a, stages, rounds, opens, k, first, legacy, allGroups);
      RecordKept(orig, a, b, noStage, stages, rounds, opens, k, next, nextSet, first, legacy, allGroups);
    }
    forall id | id in nextSet ensures PromotedAt(b, orig, id, prev, first, legacy, allGroups) {
      assert PromotedAt(b, orig, id, prevOf[id], first, legacy, allGroups);
    }
    RecordNew(orig, a, b, noStage, prev, next, nextSet, stages, rounds, opens, first, legacy, allGroups);
  }

  /** The stage map's account of the rounds and of the matches staged beforehand survives filing one more round. */
  lemma MapStep(orig: map<int, Match>, stages: seq<Stage>, rounds: seq<set<int>>, stageMap: map<Stage, set<int>>,
                next: Stage, nextSet: set<int>)
    requires |stages| >= 1 && |rounds| == |stages|
    requires MapRecord(orig, stages, rounds, stageMap)
    ensures MapRecord(orig, stages + [next], rounds + [nextSet], stageMap[next := nextSet])
  {
    var stages', rounds', stageMap' := stages + [next], rounds + [nextSet], stageMap[next := nextSet];
    var n := |stages|;
    assert stages'[1..] == stages[1..] + [next];
    forall k | 1 <= k < n
      ensures stages'[k] in stageMap'
      ensures stages'[k] !in stages'[k + 1..] ==> stageMap'[stages'[k]] == rounds'[k]
    {
      assert stages'[k + 1..] == stages[k + 1..] + [next];
    }
    assert stages'[n] == next && rounds'[n] == nextSet;
  }

  /** The open sets of a recorded run only shrink. */
  lemma {:induction false} OpensShrink(orig: map<int, Match>, arena: map<int, Match>, stages: seq<Stage>,
                                       rounds: seq<set<int>>, opens: seq<set<int>>, j: int, k: int,
                                       first: Stage, legacy: bool, allGroups: seq<string>)
    requires |rounds| == |stages| && |opens| == |stages|
    requires forall i :: 0 <= i < |stages| - 1 ==> RoundRecord(orig, arena, stages, rounds, opens, i, first, legacy, allGroups)
    requires 0 <= j <= k < |stages|
    decreases k - j
    ensures opens[k] <= opens[j]
  {
    if j < k {
      OpensShrink(orig, arena, stages, rounds, opens, j, k - 1, first, legacy, allGroups);
      assert RoundRecord(orig, arena, stages, rounds, opens, k - 1, first, legacy, allGroups);
    }
  }

  /** A match open before round `k` of a run that ends with nothing open is promoted in a round from `k` on. */
  lemma {:induction false} PromotedFrom(orig: map<int, Match>, arena: map<int, Match>, stages: seq<Stage>,
                                        rounds: seq<set<int>>, opens: seq<set<int>>, id: int, k: int,
                                        first: Stage, legacy: bool, allGroups: seq<string>) returns (j: int)
    requires |stages| >= 1 && |rounds| == |stages| && |opens| == |stages| && opens[|opens| - 1] == {}
    requires forall i :: 0 <= i < |stages| - 1 ==> RoundRecord(orig, arena, stages, rounds, opens, i, first, legacy, allGroups)
    requires 0 <= k < |stages| && id in opens[k]
    decreases |stages| - k
    ensures k <= j < |stages| - 1 && id in opens[j] && id in rounds[j + 1]
  {
    assert k < |stages| - 1;
    assert RoundRecord(orig, arena, stages, rounds, opens, k, first, legacy, allGroups);
    if id in rounds[k + 1] {
      j := k;
    } else {
      j := PromotedFrom(orig, arena, stages, rounds, opens, id, k + 1, first, legacy, allGroups);
    }
  }

  /**
   * In a finished run of the stage loop every match that was open is
   * promoted in exactly one round, and it ends at that round's stage.
   */
  lemma StagedOnce(orig: map<int, Match>, arena: map<int, Match>, stages: seq<Stage>,
                   rounds: seq<set<int>>, opens: seq<set<int>>, id: int,
                   first: Stage, legacy: bool, allGroups: seq<string>)
    requires |stages| >= 1 && |rounds| == |stages| && |opens| == |stages| && opens[|opens| - 1] == {}
    requires forall i :: 0 <= i < |stages| - 1 ==> RoundRecord(orig, arena, stages, rounds, opens, i, first, legacy, allGroups)
    requires id in opens[0]
    ensures exists k :: 1 <= k < |stages| && id in rounds[k] && id in arena && arena[id].stage == Some(stages[k])
    ensures forall j, k :: 1 <= j < k < |stages| && id in rounds[j] ==> id !in rounds[k]
  {
    var k := PromotedFrom(orig, arena, stages, rounds, opens, id, 0, first, legacy, allGroups);
    assert RoundRecord(orig, arena, stages, rounds, opens, k, first, legacy, allGroups);
    assert id in rounds[k + 1];
    assert PromotedAt(arena, orig, id, stages[k], first, legacy, allGroups);
    assert arena[id].stage == Some(stages[k + 1]);
    forall j, k' | 1 <= j < k' < |stages| && id in rounds[j] ensures id !in rounds[k'] {
      assert RoundRecord(orig, arena, stages, rounds, opens, j - 1, first, legacy, allGroups);
      assert RoundRecord(orig, arena, stages, rounds, opens, k' - 1, first, legacy, allGroups);
      OpensShrink(orig, arena, stages, rounds, opens, j, k' - 1, first, legacy, allGroups);
    }
  }

  /**
   * When no stage recurs among the rounds and no match was given one of
   * the rounds' stages beforehand, the stage map of a finished run lists
   * every match under its stage.
   */
  lemma StageMapComplete(orig: map<int, Match>, arena: map<int, Match>, stages: seq<Stage>,
                         rounds: seq<set<int>>, opens: seq<set<int>>, stageMap: map<Stage, set<int>>,
                         first: Stage, legacy: bool, allGroups: seq<string>)
    requires arena.Keys == orig.Keys
    requires forall id :: id in orig && orig[id].stage.Some? ==> arena[id] == orig[id]
    requires |stages| >= 1 && History(orig, arena, {}, stages[|stages| - 1], stages, rounds, opens, stageMap, first, legacy, allGroups)
    requires forall i, j :: 1 <= i < j < |stages| ==> stages[i] != stages[j]
    requires forall id :: id in orig && orig[id].stage.Some? ==> orig[id].stage.value !in stages[1..]
    ensures forall id :: id in arena ==>
      arena[id].stage.Some? && arena[id].stage.value in stageMap && id in stageMap[arena[id].stage.value]
  {
    forall id | id in arena
      ensures arena[id].stage.Some? && arena[id].stage.value in stageMap && id in stageMap[arena[id].stage.value]
    {
      if orig[id].stage.None? {
        assert id in OpenIds(orig);
        var k := PromotedFrom(orig, arena, stages, rounds, opens, id, 0, first, legacy, allGroups);
        assert RoundRecord(orig, arena, stages, rounds, opens, k, first, legacy, allGroups);
        assert stages[k + 1] !in stages[k + 2..] by {
          forall i | k + 2 <= i < |stages| ensures stages[i] != stages[k + 1] {
          }
        }
      }
    }
  }

  /**
   * What the loop of `SetMatchElimFeeding` keeps: everything gathered is
   * below `id`, and every gathered match no longer waiting to be visited is
   * a match whose feeders are gathered too.
   */
  ghost predicate Gathering(arena: map<int, Match>, rank: map<int, nat>, id: int, feeding: set<int>, visit: set<int>)
  {
    && Ranked(arena, rank) && id in rank && id in feeding && visit <= feeding <= rank.Keys
    && (forall y :: y in feeding ==> y in InOrder(arena, rank, id))
    && (forall x :: x in feeding - visit ==> x in arena && FeederSet(arena[x]) <= feeding)
  }

  lemma GatheringStart(arena: map<int, Match>, rank: map<int, nat>, id: int)
    requires Ranked(arena, rank) && id in rank
    ensures Gathering(arena, rank, id, {id}, {id})
  {
  }

  /** Visiting a match gathers its feeders and queues them; the visit set's weight drops. */
  lemma GatheringStep(arena: map<int, Match>, rank: map<int, nat>, id: int, feeding: set<int>, visit: set<int>, x: int)
    requires Gathering(arena, rank, id, feeding, visit) && x in visit && x in arena
    ensures var h, a := arena[x].feederHome, arena[x].feederAway;
      && Gathering(arena, rank, id, feeding + OptionSet(h) + OptionSet(a), visit - {x} + OptionSet(h) + OptionSet(a))
      && Weight(rank, visit - {x} + OptionSet(h) + OptionSet(a)) < Weight(rank, visit)
  {
    var m := arena[x];
    var add := OptionSet(m.feederHome) + OptionSet(m.feederAway);
    var feeding', visit' := feeding + OptionSet(m.feederHome) + OptionSet(m.feederAway),
                            visit - {x} + OptionSet(m.feederHome) + OptionSet(m.feederAway);
    assert FeederSet(m) == add;
    assert feeding' == feeding + add && visit' == visit - {x} + add;
    forall f | f in add ensures f in rank && f in InOrder(arena, rank, id) {
      ReachStep(arena, rank, id, x, f);
    }
    forall y | y in feeding' - visit' ensures y in arena && FeederSet(arena[y]) <= feeding' {
      if y != x {
        assert y in feeding - visit;
      }
    }
    assert FeedersBelow(rank, m, rank[x]);
    WeightDrops(rank, visit, x, m.feederHome, m.feederAway);
  }

  /** When nothing is left to visit, the gathered set is exactly the listing below `id`, all of it matches. */
  lemma GatheringDone(arena: map<int, Match>, rank: map<int, nat>, id: int, feeding: set<int>)
    requires Gathering(arena, rank, id, feeding, {})
    ensures forall y :: y in InOrder(arena, rank, id) ==> y in arena
    ensures feeding == set y | y in InOrder(arena, rank, id)
  {
    assert Closed(arena, feeding);
    InOrderLeastClosed(arena, rank, id, feeding);
    forall y ensures y in feeding <==> y in InOrder(arena, rank, id) {
    }
  }

  /**
   * The inner loop of `FTrySetStage`: reads one feeder's group entries into
   * the `seen` set and the merged list, continuing a merge of `read`.
   */
  method MergeGroups(seen: set<string>, merged: seq<string>, ghost read: seq<string>, gs: seq<string>)
    returns (seen': set<string>, merged': seq<string>)
    requires (seen, merged) == MergeState(read)
    ensures (seen', merged') == MergeState(read + gs)
  {
    seen', merged' := seen, merged;
    var j := 0;
    assert read + gs[..0] == read;
    while j < |gs|
      invariant 0 <= j <= |gs|
      invariant (seen', merged') == MergeState(read + gs[..j])
    {
      var g := gs[j];
      assert (read + gs[..j + 1])[..|read| + j] == read + gs[..j];
      if g !in seen' {
        seen' := seen' + {g};
        merged' := merged' + Chars(g);
      }
      j := j + 1;
    }
    assert gs[..j] == gs;
  }

  /** Linking one more row continues from the arena the previous rows left. */
  lemma LinkNext(arena: map<int, Match>, order: seq<int>, i: nat)
    requires i < |order| && order[i] in arena && Link(arena, AllClaims(arena, order[..i])).1
    ensures var cur := Link(arena, AllClaims(arena, order[..i])).0;
      order[i] in cur && Link(arena, AllClaims(arena, order[..i + 1])) == Link(cur, ClaimsOf(cur[order[i]]))
  {
    var cur := Link(arena, AllClaims(arena, order[..i])).0;
    LinkKeepsShape(arena, AllClaims(arena, order[..i]));
    var id := order[i];
    assert id in arena;
    assert cur[id] == arena[id].(feeding := cur[id].feeding);
    assert order[..i + 1][..i] == order[..i];
    LinkAppend(arena, AllClaims(arena, order[..i]), ClaimsOf(arena[order[i]]));
  }

  /** Linking all rows fails at the first row that fails, and later rows change nothing. */
  lemma {:induction false} LinkPrefix(arena: map<int, Match>, order: seq<int>, n: nat)
    requires 0 < n <= |order|
    requires !Link(arena, AllClaims(arena, order[..n])).1
    decreases |order| - n
    ensures Link(arena, AllClaims(arena, order)) == Link(arena, AllClaims(arena, order[..n]))
  {
    if n < |order| {
      assert order[..n + 1][..n] == order[..n];
      LinkAppend(arena, AllClaims(arena, order[..n]), if order[n] in arena then ClaimsOf(arena[order[n]]) else []);
      LinkPrefix(arena, order, n + 1);
    } else {
      assert order[..n] == order;
    }
  }
}
