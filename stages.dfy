/**
 * Tournament stages (`STAGE` in both database versions) and the rules that
 * name the stage that follows another one.
 *
 * The older database names the three rounds before the quarter-finals
 * Round1, Round2 and Round3; they take the same places (values 2, 3 and 4)
 * as Round64, Round32 and Round16 here.
 */
module Stages {
  import opened Wrappers

  datatype Stage = Group | Round64 | Round32 | Round16 | Quarters | Semis | Third | Final

  /** The enumeration value of a stage; `STAGE` is an `IntEnum` starting at 1. */
  function Ord(s: Stage): (n: nat)
    ensures 1 <= n <= 8
  {
    match s
    case Group => 1
    case Round64 => 2
    case Round32 => 3
    case Round16 => 4
    case Quarters => 5
    case Semis => 6
    case Third => 7
    case Final => 8
  }

  predicate Before(a: Stage, b: Stage) { Ord(a) < Ord(b) }

  /** `STAGE(n)`: the stage with enumeration value `n`, a `ValueError` otherwise. */
  function FromOrd(n: int): (r: Result<Stage>)
    ensures r.Ok? <==> 1 <= n <= 8
    ensures r.Ok? ==> Ord(r.value) == n
  {
    if n == 1 then Ok(Group)
    else if n == 2 then Ok(Round64)
    else if n == 3 then Ok(Round32)
    else if n == 4 then Ok(Round16)
    else if n == 5 then Ok(Quarters)
    else if n == 6 then Ok(Semis)
    else if n == 7 then Ok(Third)
    else if n == 8 then Ok(Final)
    else Err("ValueError: not a STAGE")
  }

  /** Distinct stages have distinct values, so `FromOrd` inverts `Ord`. */
  lemma OrdInjective(a: Stage, b: Stage)
    ensures Ord(a) == Ord(b) ==> a == b
    ensures FromOrd(Ord(a)) == Ok(a)
  {
  }

  /**
   * The first elimination stage chosen from the number of seeded teams
   * (`s_mpCSeedStageElimFirst`); any other team count is a `KeyError`.
   */
  function FirstElimStage(cSeed: int): (r: Result<Stage>)
    ensures r.Ok? <==> cSeed in {8, 12, 16, 24, 32, 48, 64}
    ensures r.Ok? ==> r.value in {Semis, Quarters, Round16, Round32}
    ensures r.Ok? ==> (r.value == Semis <==> cSeed == 8)
    ensures r.Ok? ==> (r.value == Quarters <==> cSeed in {12, 16})
    ensures r.Ok? ==> (r.value == Round16 <==> cSeed in {24, 32})
    ensures r.Ok? ==> (r.value == Round32 <==> cSeed in {48, 64})
  {
    if cSeed == 8 then Ok(Semis)
    else if cSeed == 12 || cSeed == 16 then Ok(Quarters)
    else if cSeed == 24 || cSeed == 32 then Ok(Round16)
    else if cSeed == 48 || cSeed == 64 then Ok(Round32)
    else Err("KeyError: team count")
  }

  /**
   * The stage the stage loop of `MpStageSetMatch` moves to, given how many
   * matches the previous stage holds (`cPrev`), the previous stage, and how
   * many matches are still without a stage (`cNoStage`). Eight matches are
   * followed by the quarter-finals, four by the semi-finals and two by the
   * final; each of these checks the previous stage and what is left with an
   * `assert`. Any other count moves to the next enumeration value.
   */
  function NextStage(cPrev: nat, prev: Stage, cNoStage: nat): (r: Result<Stage>)
    ensures cPrev == 8 ==> (r.Ok? <==> cNoStage == 7) && (r.Ok? ==> r.value == Quarters)
    ensures cPrev == 4 ==> (r.Ok? <==> prev == Quarters && cNoStage == 3) && (r.Ok? ==> r.value == Semis)
    ensures cPrev == 2 ==> (r.Ok? <==> prev == Semis && cNoStage == 1) && (r.Ok? ==> r.value == Final)
    ensures cPrev !in {2, 4, 8} ==> (r.Ok? <==> prev != Final) && (r.Ok? ==> Ord(r.value) == Ord(prev) + 1)
  {
    if cPrev == 8 then
      if cNoStage == 7 then Ok(Quarters) else Err("AssertionError: seven matches after eight")
    else if cPrev == 4 then
      if prev == Quarters && cNoStage == 3 then Ok(Semis) else Err("AssertionError: semi-finals after quarter-finals")
    else if cPrev == 2 then
      if prev == Semis && cNoStage == 1 then Ok(Final) else Err("AssertionError: final after semi-finals")
    else FromOrd(Ord(prev) + 1)
  }

  /** The stage that holds `c` matches in a full knockout bracket. */
  function KnockoutStage(c: nat): Option<Stage>
  {
    if c == 32 then Some(Round64)
    else if c == 16 then Some(Round32)
    else if c == 8 then Some(Round16)
    else if c == 4 then Some(Quarters)
    else if c == 2 then Some(Semis)
    else if c == 1 then Some(Final)
    else None
  }

  /**
   * In a full knockout bracket, where after a round of `c` matches exactly
   * `c - 1` others are still to be placed, the rule moves from the stage of
   * `c` matches to the stage of `c / 2` matches.
   */
  lemma NextStageHalves(c: nat)
    requires c in {2, 4, 8, 16, 32}
    ensures KnockoutStage(c).Some? && KnockoutStage(c / 2).Some?
    ensures NextStage(c, KnockoutStage(c).value, c - 1) == Ok(KnockoutStage(c / 2).value)
  {
  }
}
