/**
 * Walks over the feeder edges of the bracket arena: feeder-closed sets
 * (what `SetMatchElimFeeding` collects), the in-order listing of a bracket
 * (what `AssignSortElim` numbers), and the ranking that makes the feeder
 * graph acyclic.
 */
module Traversal {
  import opened Wrappers
  import opened Matches
  import opened Groups

  function FeederSet(m: Match): set<int>
  {
    (if m.feederHome.Some? then {m.feederHome.value} else {}) +
    (if m.feederAway.Some? then {m.feederAway.value} else {})
  }

  /** Every member is a match of the arena and its feeders are members. */
  predicate Closed(arena: map<int, Match>, s: set<int>)
  {
    forall y :: y in s ==> y in arena && FeederSet(arena[y]) <= s
  }

  /** A rank that strictly drops along every feeder edge: the feeder graph has no cycle. */
  predicate Ranked(arena: map<int, Match>, rank: map<int, nat>)
  {
    forall x {:trigger arena[x]} :: x in arena && x in rank ==> FeedersBelow(rank, arena[x], rank[x])
  }

  /** Both feeders `m` names are ranked below `r`. */
  predicate FeedersBelow(rank: map<int, nat>, m: Match, r: nat)
  {
    && (m.feederHome.Some? ==> m.feederHome.value in rank && rank[m.feederHome.value] < r)
    && (m.feederAway.Some? ==> m.feederAway.value in rank && rank[m.feederAway.value] < r)
  }

  /** The matches of the bracket below `x`: home side, `x`, away side. */
  function InOrder(arena: map<int, Match>, rank: map<int, nat>, x: int): (r: seq<int>)
    requires Ranked(arena, rank) && x in rank
    decreases rank[x]
    ensures x in r
  {
    if x !in arena then [x]
    else
      var m := arena[x];
      (if m.feederHome.Some? then InOrder(arena, rank, m.feederHome.value) else []) + [x] +
      (if m.feederAway.Some? then InOrder(arena, rank, m.feederAway.value) else [])
  }

  /**
   * `x` heads a proper bracket: the matches below it are all in the arena,
   * none appears twice (no match feeds two others) and none is numbered yet.
   */
  predicate Bracket(arena: map<int, Match>, rank: map<int, nat>, x: int)
  {
    Ranked(arena, rank) && x in rank &&
    NoDuplicates(InOrder(arena, rank, x)) &&
    forall y :: y in InOrder(arena, rank, x) ==> y in arena && arena[y].sortElim == 0
  }

  /**
   * The matches below `x` form the least closed set that holds `x`:
   * closed, and inside every closed set that holds `x`.
   */
  lemma {:induction false} InOrderLeastClosed(arena: map<int, Match>, rank: map<int, nat>, x: int, s: set<int>)
    requires Ranked(arena, rank) && x in rank
    requires x in s && Closed(arena, s)
    decreases rank[x]
    ensures forall y :: y in InOrder(arena, rank, x) ==> y in s
  {
    var m := arena[x];
    if m.feederHome.Some? { InOrderLeastClosed(arena, rank, m.feederHome.value, s); }
    if m.feederAway.Some? { InOrderLeastClosed(arena, rank, m.feederAway.value, s); }
  }

  lemma {:induction false} InOrderClosed(arena: map<int, Match>, rank: map<int, nat>, x: int)
    requires Ranked(arena, rank) && x in rank
    requires forall y :: y in InOrder(arena, rank, x) ==> y in arena
    decreases rank[x]
    ensures Closed(arena, set y | y in InOrder(arena, rank, x))
  {
    var m := arena[x];
    var l := if m.feederHome.Some? then InOrder(arena, rank, m.feederHome.value) else [];
    var r := if m.feederAway.Some? then InOrder(arena, rank, m.feederAway.value) else [];
    assert InOrder(arena, rank, x) == l + [x] + r;
    if m.feederHome.Some? { InOrderClosed(arena, rank, m.feederHome.value); }
    if m.feederAway.Some? { InOrderClosed(arena, rank, m.feederAway.value); }
  }

  /** A feeder of a match below `root` is itself below `root`. */
  lemma {:induction false} ReachStep(arena: map<int, Match>, rank: map<int, nat>, root: int, x: int, f: int)
    requires Ranked(arena, rank) && root in rank
    requires x in InOrder(arena, rank, root) && x in arena && x in rank
    requires f in FeederSet(arena[x])
    decreases rank[root]
    ensures f in rank && f in InOrder(arena, rank, root)
  {
    var s := InOrder(arena, rank, root);
    assert root !in arena ==> s == [root];
    var m := arena[root];
    var l := if m.feederHome.Some? then InOrder(arena, rank, m.feederHome.value) else [];
    var r := if m.feederAway.Some? then InOrder(arena, rank, m.feederAway.value) else [];
    assert s == l + [root] + r;
    if x == root {
      if m.feederHome.Some? && f == m.feederHome.value {
        assert f in l;
      } else {
        assert f in r;
      }
    } else if x in l {
      ReachStep(arena, rank, m.feederHome.value, x, f);
    } else {
      assert x in r;
      ReachStep(arena, rank, m.feederAway.value, x, f);
    }
  }

  /** Every match below `root` is ranked. */
  lemma {:induction false} InOrderRanked(arena: map<int, Match>, rank: map<int, nat>, root: int)
    requires Ranked(arena, rank) && root in rank
    decreases rank[root]
    ensures forall y :: y in InOrder(arena, rank, root) ==> y in rank
  {
    if root in arena {
      var m := arena[root];
      if m.feederHome.Some? { InOrderRanked(arena, rank, m.feederHome.value); }
      if m.feederAway.Some? { InOrderRanked(arena, rank, m.feederAway.value); }
      assert InOrder(arena, rank, root) ==
        (if m.feederHome.Some? then InOrder(arena, rank, m.feederHome.value) else []) + [root] +
        (if m.feederAway.Some? then InOrder(arena, rank, m.feederAway.value) else []);
    }
  }

  /**
   * The two halves of a bracket: below a final whose listing repeats
   * nothing, the matches are the home half, the final and the away half,
   * and no match is in both halves.
   */
  lemma HalvesPartition(arena: map<int, Match>, rank: map<int, nat>, final: int)
    requires Ranked(arena, rank) && final in rank && final in arena
    requires NoDuplicates(InOrder(arena, rank, final))
    ensures var home := set y | y in HomeSide(arena, rank, final);
      var away := set y | y in AwaySide(arena, rank, final);
      && (set y | y in InOrder(arena, rank, final)) == home + {final} + away
      && home !! away && final !in home && final !in away
  {
    Split3(arena, rank, final);
    var l := HomeSide(arena, rank, final);
    var r := AwaySide(arena, rank, final);
    var s := InOrder(arena, rank, final);
    forall y | y in l ensures y !in r && y != final {
      var i :| 0 <= i < |l| && l[i] == y;
      assert s[i] == y;
      assert s[|l|] == final;
      forall j | 0 <= j < |r| ensures r[j] != y {
        assert s[|l| + 1 + j] == r[j];
      }
    }
    forall y | y in r ensures y != final {
      var j :| 0 <= j < |r| && r[j] == y;
      assert s[|l| + 1 + j] == y;
      assert s[|l|] == final;
    }
  }

  /** The position of `y` in a list without repeats. */
  function IndexOf(s: seq<int>, y: int): (k: nat)
    requires y in s
    ensures k < |s| && s[k] == y
  {
    FirstIndex(s, y)
  }

  function HomeSide(arena: map<int, Match>, rank: map<int, nat>, x: int): seq<int>
    requires Ranked(arena, rank) && x in rank && x in arena
  {
    if arena[x].feederHome.Some? then InOrder(arena, rank, arena[x].feederHome.value) else []
  }

  function AwaySide(arena: map<int, Match>, rank: map<int, nat>, x: int): seq<int>
    requires Ranked(arena, rank) && x in rank && x in arena
  {
    if arena[x].feederAway.Some? then InOrder(arena, rank, arena[x].feederAway.value) else []
  }

  /** The listing below a match of the arena splits into its home side, itself and its away side. */
  lemma {:induction false} Split3(arena: map<int, Match>, rank: map<int, nat>, x: int)
    requires Ranked(arena, rank) && x in rank
    requires NoDuplicates(InOrder(arena, rank, x))
    requires x in arena
    ensures InOrder(arena, rank, x) == HomeSide(arena, rank, x) + [x] + AwaySide(arena, rank, x)
    ensures NoDuplicates(HomeSide(arena, rank, x)) && NoDuplicates(AwaySide(arena, rank, x))
  {
    var s := InOrder(arena, rank, x);
    var l := HomeSide(arena, rank, x);
    var r := AwaySide(arena, rank, x);
    assert s == l + [x] + r;
    forall i, j | 0 <= i < j < |l| ensures l[i] != l[j] { assert s[i] == l[i] && s[j] == l[j]; }
    forall i, j | 0 <= i < j < |r| ensures r[i] != r[j] { assert s[|l| + 1 + i] == r[i] && s[|l| + 1 + j] == r[j]; }
  }

  /**
   * In-order, home side: in a proper bracket every match below the home
   * feeder of a match `x` comes before `x`.
   */
  lemma {:induction false} HomeSideBefore(arena: map<int, Match>, rank: map<int, nat>, root: int, x: int, y: int)
    requires Ranked(arena, rank) && root in rank
    requires NoDuplicates(InOrder(arena, rank, root))
    requires x in InOrder(arena, rank, root) && x in arena && x in rank
    requires y in HomeSide(arena, rank, x)
    decreases rank[root]
    ensures y in InOrder(arena, rank, root)
    ensures IndexOf(InOrder(arena, rank, root), y) < IndexOf(InOrder(arena, rank, root), x)
  {
    var s := InOrder(arena, rank, root);
    assert root !in arena ==> s == [root];
    Split3(arena, rank, root);
    var l := HomeSide(arena, rank, root);
    var r := AwaySide(arena, rank, root);
    if x == root {
      RootAfterLeft(l, root, r, s, y);
    } else if x in l {
      HomeSideBefore(arena, rank, arena[root].feederHome.value, x, y);
      OrderInLeft(l, root, r, s, y, x);
    } else {
      HomeSideBefore(arena, rank, arena[root].feederAway.value, x, y);
      OrderInRight(l, root, r, s, y, x);
    }
  }

  /**
   * In-order, away side: in a proper bracket every match below the away
   * feeder of a match `x` comes after `x`.
   */
  lemma {:induction false} AwaySideAfter(arena: map<int, Match>, rank: map<int, nat>, root: int, x: int, y: int)
    requires Ranked(arena, rank) && root in rank
    requires NoDuplicates(InOrder(arena, rank, root))
    requires x in InOrder(arena, rank, root) && x in arena && x in rank
    requires y in AwaySide(arena, rank, x)
    decreases rank[root]
    ensures y in InOrder(arena, rank, root)
    ensures IndexOf(InOrder(arena, rank, root), x) < IndexOf(InOrder(arena, rank, root), y)
  {
    var s := InOrder(arena, rank, root);
    assert root !in arena ==> s == [root];
    Split3(arena, rank, root);
    var l := HomeSide(arena, rank, root);
    var r := AwaySide(arena, rank, root);
    if x == root {
      RootBeforeRight(l, root, r, s, y);
    } else if x in l {
      AwaySideAfter(arena, rank, arena[root].feederHome.value, x, y);
      OrderInLeft(l, root, r, s, x, y);
    } else {
      AwaySideAfter(arena, rank, arena[root].feederAway.value, x, y);
      OrderInRight(l, root, r, s, x, y);
    }
  }

  lemma {:induction false} RootAfterLeft(l: seq<int>, m: int, r: seq<int>, s: seq<int>, y: int)
    requires s == l + [m] + r && NoDuplicates(s) && y in l
    ensures y in s && m in s && IndexOf(s, y) < IndexOf(s, m)
  {
    assert s[|l|] == m;
    UniqueIndex(s, m);
    var i :| 0 <= i < |l| && l[i] == y;
    assert s[i] == y;
    UniqueIndex(s, y);
  }

  lemma {:induction false} RootBeforeRight(l: seq<int>, m: int, r: seq<int>, s: seq<int>, y: int)
    requires s == l + [m] + r && NoDuplicates(s) && y in r
    ensures y in s && m in s && IndexOf(s, m) < IndexOf(s, y)
  {
    assert s[|l|] == m;
    UniqueIndex(s, m);
    var i :| 0 <= i < |r| && r[i] == y;
    assert s[|l| + 1 + i] == y;
    UniqueIndex(s, y);
  }

  /** Order inside the left part carries over to the whole listing. */
  lemma {:induction false} OrderInLeft(l: seq<int>, m: int, r: seq<int>, s: seq<int>, a: int, b: int)
    requires s == l + [m] + r && NoDuplicates(s) && NoDuplicates(l)
    requires a in l && b in l && IndexOf(l, a) < IndexOf(l, b)
    ensures a in s && b in s && IndexOf(s, a) < IndexOf(s, b)
  {
    ShiftIndex(l, [m] + r, s, a);
    ShiftIndex(l, [m] + r, s, b);
  }

  /** Order inside the right part carries over to the whole listing. */
  lemma {:induction false} OrderInRight(l: seq<int>, m: int, r: seq<int>, s: seq<int>, a: int, b: int)
    requires s == l + [m] + r && NoDuplicates(s) && NoDuplicates(r)
    requires a in r && b in r && IndexOf(r, a) < IndexOf(r, b)
    ensures a in s && b in s && IndexOf(s, a) < IndexOf(s, b)
  {
    OffsetIndex(l + [m], r, s, a);
    OffsetIndex(l + [m], r, s, b);
  }

  lemma {:induction false} UniqueIndex(s: seq<int>, y: int)
    requires NoDuplicates(s) && y in s
    ensures forall i :: 0 <= i < |s| && s[i] == y ==> i == IndexOf(s, y)
  {
  }

  lemma {:induction false} ShiftIndex(a: seq<int>, b: seq<int>, s: seq<int>, y: int)
    requires s == a + b && NoDuplicates(s) && y in a
    ensures y in s && IndexOf(s, y) == IndexOf(a, y)
  {
    var k := IndexOf(a, y);
    assert s[k] == y;
    UniqueIndex(s, y);
  }

  lemma {:induction false} OffsetIndex(a: seq<int>, b: seq<int>, s: seq<int>, y: int)
    requires s == a + b && NoDuplicates(s) && y in b
    requires NoDuplicates(b)
    ensures y in s && IndexOf(s, y) == |a| + IndexOf(b, y)
  {
    var k := IndexOf(b, y);
    assert s[|a| + k] == y;
    UniqueIndex(s, y);
  }
}
