/**
 * Proof tools for the two worklist loops over the bracket: the stack of
 * `AssignSortElim`, whose pending work spells out the rest of the in-order
 * listing, and the visit set of `SetMatchElimFeeding`, which a weighted
 * count over the rank shows to run out.
 */
module Worklists {
  import opened Wrappers
  import opened Matches
  import opened Groups
  import opened Traversal

  // ---- the numbering stack ---------------------------------------------------

  /**
   * What the stack still has to number, top first: an entry already
   * visited stands for itself, any other entry for the listing below it.
   * (An unranked entry also stands for itself; the numbering loop keeps
   * every entry ranked.)
   */
  ghost function Pending(arena: map<int, Match>, rank: map<int, nat>, stack: seq<int>, visited: set<int>): seq<int>
    requires Ranked(arena, rank)
    decreases |stack|
  {
    if stack == [] then []
    else
      var e := stack[|stack| - 1];
      (if e in visited || e !in rank then [e] else InOrder(arena, rank, e)) +
      Pending(arena, rank, stack[..|stack| - 1], visited)
  }

  /** Every entry of `stack` is ranked. */
  predicate AllRanked(rank: map<int, nat>, stack: seq<int>)
  {
    forall i :: 0 <= i < |stack| ==> stack[i] in rank
  }

  /** Popping the top entry peels off its share of the pending work. */
  lemma {:induction false} PendingPop(arena: map<int, Match>, rank: map<int, nat>, rest: seq<int>, e: int, visited: set<int>)
    requires Ranked(arena, rank) && e in rank
    ensures Pending(arena, rank, rest + [e], visited) ==
      (if e in visited then [e] else InOrder(arena, rank, e)) + Pending(arena, rank, rest, visited)
  {
    assert (rest + [e])[..|rest|] == rest;
  }

  /** Every stack entry occurs in the pending work. */
  lemma {:induction false} PendingEntries(arena: map<int, Match>, rank: map<int, nat>, stack: seq<int>, visited: set<int>)
    requires Ranked(arena, rank)
    decreases |stack|
    ensures forall i :: 0 <= i < |stack| ==> stack[i] in Pending(arena, rank, stack, visited)
  {
    if stack != [] {
      var rest := stack[..|stack| - 1];
      var e := stack[|stack| - 1];
      PendingEntries(arena, rank, rest, visited);
      assert stack == rest + [e];
      assert e in (if e in visited || e !in rank then [e] else InOrder(arena, rank, e));
      forall i | 0 <= i < |stack| ensures stack[i] in Pending(arena, rank, stack, visited) {
        if i < |rest| {
          assert stack[i] == rest[i];
        }
      }
    }
  }

  /** Marking a match visited that the pending work does not mention changes nothing. */
  lemma {:induction false} PendingFrame(arena: map<int, Match>, rank: map<int, nat>, stack: seq<int>, visited: set<int>, e: int)
    requires Ranked(arena, rank)
    requires e !in Pending(arena, rank, stack, visited)
    decreases |stack|
    ensures Pending(arena, rank, stack, visited + {e}) == Pending(arena, rank, stack, visited)
  {
    if stack != [] {
      var rest := stack[..|stack| - 1];
      var z := stack[|stack| - 1];
      assert z in (if z in visited || z !in rank then [z] else InOrder(arena, rank, z));
      PendingFrame(arena, rank, rest, visited, e);
    }
  }

  /** A list without repeats splits into two lists without repeats that share nothing. */
  lemma {:induction false} NoDupSplit(a: seq<int>, b: seq<int>)
    requires NoDuplicates(a + b)
    ensures NoDuplicates(a) && NoDuplicates(b)
    ensures forall x :: x in a ==> x !in b
  {
    forall i, j | 0 <= i < j < |a| ensures a[i] != a[j] {
      assert (a + b)[i] == a[i] && (a + b)[j] == a[j];
    }
    forall i, j | 0 <= i < j < |b| ensures b[i] != b[j] {
      assert (a + b)[|a| + i] == b[i] && (a + b)[|a| + j] == b[j];
    }
    forall x | x in a ensures x !in b {
      var i :| 0 <= i < |a| && a[i] == x;
      assert (a + b)[i] == x;
      forall j | 0 <= j < |b| ensures b[j] != x {
        assert (a + b)[|a| + j] == b[j];
      }
    }
  }

  /** The id an option holds, as a list of zero or one entries. */
  function OptionSeq(o: Option<int>): seq<int>
  {
    if o.Some? then [o.value] else []
  }

  /** The stack after expanding `e`: away feeder, `e` itself, home feeder on top. */
  function Pushed(rest: seq<int>, m: Match, e: int): seq<int>
  {
    rest + OptionSeq(m.feederAway) + [e] + OptionSeq(m.feederHome)
  }

  /** The listing below an optional ranked feeder: empty when there is none. */
  function Below(arena: map<int, Match>, rank: map<int, nat>, o: Option<int>): seq<int>
    requires Ranked(arena, rank)
  {
    if o.Some? && o.value in rank then InOrder(arena, rank, o.value) else []
  }

  /** Pushing an unvisited ranked feeder, if there is one, puts the listing below it on top. */
  lemma {:induction false} PushFeeder(arena: map<int, Match>, rank: map<int, nat>, stack: seq<int>, visited: set<int>, o: Option<int>)
    requires Ranked(arena, rank)
    requires o.Some? ==> o.value in rank && o.value !in visited
    ensures Pending(arena, rank, stack + OptionSeq(o), visited) == Below(arena, rank, o) + Pending(arena, rank, stack, visited)
  {
    if o.Some? {
      PendingPop(arena, rank, stack, o.value, visited);
    } else {
      assert stack + OptionSeq(o) == stack;
    }
  }

  /** The expanded stack keeps the rest of the stack at its bottom, with `e` above it. */
  lemma {:induction false} PushedPrefix(rest: seq<int>, m: Match, e: int)
    ensures |rest| < |Pushed(rest, m, e)| && Pushed(rest, m, e)[..|rest|] == rest && e in Pushed(rest, m, e)
  {
    var ns := Pushed(rest, m, e);
    assert ns == rest + (OptionSeq(m.feederAway) + [e] + OptionSeq(m.feederHome));
    assert ns[|rest| + |OptionSeq(m.feederAway)|] == e;
  }

  /** Expanding `e` keeps every stack entry ranked. */
  lemma {:induction false} PushedRanked(arena: map<int, Match>, rank: map<int, nat>, rest: seq<int>, e: int)
    requires Ranked(arena, rank) && AllRanked(rank, rest) && e in rank && e in arena
    ensures FeedersBelow(rank, arena[e], rank[e])
    ensures AllRanked(rank, Pushed(rest, arena[e], e))
  {
  }

  /**
   * The pending work of the expanded stack, given that `e` is now visited
   * and neither of its feeders is: the home side, `e`, the away side, then
   * what was pending below.
   */
  lemma {:induction false} PushedPending(arena: map<int, Match>, rank: map<int, nat>, rest: seq<int>, visited: set<int>, e: int)
    requires Ranked(arena, rank) && e in rank
    requires e in arena && e in visited
    requires arena[e].feederHome.Some? ==> arena[e].feederHome.value in rank && arena[e].feederHome.value !in visited
    requires arena[e].feederAway.Some? ==> arena[e].feederAway.value in rank && arena[e].feederAway.value !in visited
    ensures Pending(arena, rank, Pushed(rest, arena[e], e), visited) ==
      Below(arena, rank, arena[e].feederHome) + ([e] + (Below(arena, rank, arena[e].feederAway) + Pending(arena, rank, rest, visited)))
  {
    var m := arena[e];
    var s1 := rest + OptionSeq(m.feederAway);
    PushFeeder(arena, rank, rest, visited, m.feederAway);
    PendingPop(arena, rank, s1, e, visited);
    PushFeeder(arena, rank, s1 + [e], visited, m.feederHome);
  }

  /** A list without repeats keeps the members of its middle part out of the other two. */
  lemma {:induction false} NoDupApart(a: seq<int>, b: seq<int>, c: seq<int>, x: int)
    requires NoDuplicates(a + b + c) && x in b
    ensures x !in a && x !in c
  {
    var i :| 0 <= i < |b| && b[i] == x;
    assert (a + b + c)[|a| + i] == x;
    forall j | 0 <= j < |a| ensures a[j] != x {
      assert (a + b + c)[j] == a[j];
    }
    forall j | 0 <= j < |c| ensures c[j] != x {
      assert (a + b + c)[|a| + |b| + j] == c[j];
    }
  }

  /** The middle part of a list without repeats has no repeats. */
  lemma {:induction false} NoDupMiddle(a: seq<int>, b: seq<int>, c: seq<int>)
    requires NoDuplicates(a + b + c)
    ensures NoDuplicates(b)
  {
    forall i, j | 0 <= i < j < |b| ensures b[i] != b[j] {
      assert (a + b + c)[|a| + i] == b[i] && (a + b + c)[|a| + j] == b[j];
    }
  }

  /** A stack entry occurs in the pending work. */
  lemma {:induction false} PendingHas(arena: map<int, Match>, rank: map<int, nat>, stack: seq<int>, visited: set<int>, x: int)
    requires Ranked(arena, rank) && x in stack
    ensures x in Pending(arena, rank, stack, visited)
  {
    PendingEntries(arena, rank, stack, visited);
  }

  /**
   * With no repeats in the whole listing, and every visited match either
   * numbered (in `done`) or on the stack, a match `f` of the listing `t`
   * that sits between them is neither visited nor pending below.
   */
  lemma {:induction false} Fresh(arena: map<int, Match>, rank: map<int, nat>, done: seq<int>, t: seq<int>,
                                 rest: seq<int>, visited: set<int>, f: int)
    requires Ranked(arena, rank)
    requires NoDuplicates(done + t + Pending(arena, rank, rest, visited))
    requires forall v :: v in visited ==> v in done || v in rest
    requires f in t
    ensures f !in visited && f !in Pending(arena, rank, rest, visited)
  {
    NoDupApart(done, t, Pending(arena, rank, rest, visited), f);
    if f in rest {
      PendingHas(arena, rank, rest, visited, f);
    }
  }

  /**
   * Before expanding `e`: neither `e` nor a feeder of it is visited or
   * pending below, and the feeders are not `e` itself.
   */
  lemma {:induction false} FeedersFresh(arena: map<int, Match>, rank: map<int, nat>, done: seq<int>, rest: seq<int>, visited: set<int>, e: int)
    requires Ranked(arena, rank) && e in rank && e in arena
    requires NoDuplicates(done + InOrder(arena, rank, e) + Pending(arena, rank, rest, visited))
    requires forall v :: v in visited ==> v in done || v in rest
    ensures e !in Pending(arena, rank, rest, visited)
    ensures arena[e].feederHome.Some? ==> arena[e].feederHome.value in rank && arena[e].feederHome.value !in visited + {e}
    ensures arena[e].feederAway.Some? ==> arena[e].feederAway.value in rank && arena[e].feederAway.value !in visited + {e}
    ensures InOrder(arena, rank, e) == Below(arena, rank, arena[e].feederHome) + [e] + Below(arena, rank, arena[e].feederAway)
  {
    var m := arena[e];
    var t := InOrder(arena, rank, e);
    var h := Below(arena, rank, m.feederHome);
    var a := Below(arena, rank, m.feederAway);
    assert FeedersBelow(rank, m, rank[e]);
    assert t == h + [e] + a;
    Fresh(arena, rank, done, t, rest, visited, e);
    NoDupMiddle(done, t, Pending(arena, rank, rest, visited));
    NoDupApart(h, [e], a, e);
    if m.feederHome.Some? {
      Fresh(arena, rank, done, t, rest, visited, m.feederHome.value);
    }
    if m.feederAway.Some? {
      Fresh(arena, rank, done, t, rest, visited, m.feederAway.value);
    }
  }

  /** `(h + [e] + a) + p`, regrouped from the right. */
  lemma {:induction false} Regroup(h: seq<int>, e: int, a: seq<int>, p: seq<int>)
    ensures h + [e] + a + p == h + ([e] + (a + p))
  {
  }

  /**
   * Expanding an unvisited entry `e` replaces the listing below it by its
   * home side, a marker for `e` and its away side: the pending work is
   * the same, provided no match repeats in the whole listing and every
   * visited match is already numbered (in `done`) or still on the stack.
   */
  lemma {:induction false} PushStep(arena: map<int, Match>, rank: map<int, nat>, done: seq<int>, rest: seq<int>, visited: set<int>, e: int)
    requires Ranked(arena, rank) && e in rank
    requires e in arena && e !in visited
    requires NoDuplicates(done + InOrder(arena, rank, e) + Pending(arena, rank, rest, visited))
    requires forall v :: v in visited ==> v in done || v in rest
    ensures Pending(arena, rank, Pushed(rest, arena[e], e), visited + {e}) == InOrder(arena, rank, e) + Pending(arena, rank, rest, visited)
  {
    var m := arena[e];
    FeedersFresh(arena, rank, done, rest, visited, e);
    PendingFrame(arena, rank, rest, visited, e);
    PushedPending(arena, rank, rest, visited + {e}, e);
    Regroup(Below(arena, rank, m.feederHome), e, Below(arena, rank, m.feederAway), Pending(arena, rank, rest, visited));
  }

  /**
   * The arena after numbering the ids of `ns` in turn: the k-th gets
   * `sortElim` k + 1; an id missing from the arena is passed over.
   */
  function Renumbered(orig: map<int, Match>, ns: seq<int>): (r: map<int, Match>)
    ensures r.Keys == orig.Keys
  {
    if ns == [] then orig
    else
      var cur := Renumbered(orig, ns[..|ns| - 1]);
      var e := ns[|ns| - 1];
      if e in cur then cur[e := cur[e].(sortElim := |ns|)] else cur
  }

  /** Numbering changes nothing but `sortElim`. */
  lemma {:induction false} RenumberedShape(orig: map<int, Match>, ns: seq<int>)
    ensures forall y :: y in orig ==> Renumbered(orig, ns)[y] == orig[y].(sortElim := Renumbered(orig, ns)[y].sortElim)
  {
    if ns != [] {
      RenumberedShape(orig, ns[..|ns| - 1]);
    }
  }

  /** An id missing from the list keeps its entry. */
  lemma {:induction false} RenumberedOff(orig: map<int, Match>, ns: seq<int>, y: int)
    requires y in orig && y !in ns
    ensures Renumbered(orig, ns)[y] == orig[y]
  {
    if ns != [] {
      var front := ns[..|ns| - 1];
      assert y !in front by {
        assert forall i :: 0 <= i < |front| ==> front[i] == ns[i];
      }
      RenumberedOff(orig, front, y);
    }
  }

  /** In a list without repeats of ids of the arena, the k-th id gets the number k + 1. */
  lemma {:induction false} RenumberedAt(orig: map<int, Match>, ns: seq<int>, k: nat)
    requires NoDuplicates(ns) && (forall i :: 0 <= i < |ns| ==> ns[i] in orig) && k < |ns|
    ensures Renumbered(orig, ns)[ns[k]].sortElim == k + 1
  {
    var front := ns[..|ns| - 1];
    if k < |front| {
      assert forall i :: 0 <= i < |front| ==> front[i] == ns[i];
      assert ns[k] != ns[|ns| - 1];
      RenumberedAt(orig, front, k);
    }
  }

  /**
   * Numbering a list without repeats gives the k-th id the number k + 1
   * and leaves every id not in the list as it was.
   */
  lemma {:induction false} RenumberedValues(orig: map<int, Match>, ns: seq<int>)
    requires NoDuplicates(ns) && forall i :: 0 <= i < |ns| ==> ns[i] in orig
    ensures forall k :: 0 <= k < |ns| ==> Renumbered(orig, ns)[ns[k]].sortElim == k + 1
    ensures forall y :: y in orig && y !in ns ==> Renumbered(orig, ns)[y] == orig[y]
  {
    forall k | 0 <= k < |ns| ensures Renumbered(orig, ns)[ns[k]].sortElim == k + 1 {
      RenumberedAt(orig, ns, k);
    }
    forall y | y in orig && y !in ns ensures Renumbered(orig, ns)[y] == orig[y] {
      RenumberedOff(orig, ns, y);
    }
  }

  /** Numbering one more id. */
  lemma {:induction false} RenumberedNext(orig: map<int, Match>, ns: seq<int>, e: int)
    requires e in orig
    ensures Renumbered(orig, ns + [e]) ==
      Renumbered(orig, ns)[e := Renumbered(orig, ns)[e].(sortElim := |ns| + 1)]
  {
    assert (ns + [e])[..|ns|] == ns;
  }

  /**
   * The state of the numbering loop over a proper bracket below `final`:
   * the ids numbered so far, then the stack's pending work, spell out the
   * in-order listing, and every visited id is numbered or on the stack.
   */
  ghost predicate Numbering(orig: map<int, Match>, rank: map<int, nat>, final: int,
                            numbered: seq<int>, stack: seq<int>, visited: set<int>)
  {
    && Bracket(orig, rank, final) && AllRanked(rank, stack)
    && numbered + Pending(orig, rank, stack, visited) == InOrder(orig, rank, final)
    && (forall v :: v in visited ==> v in numbered || v in stack)
  }

  lemma {:induction false} NumberingStart(orig: map<int, Match>, rank: map<int, nat>, final: int)
    requires Bracket(orig, rank, final)
    ensures Numbering(orig, rank, final, [], [final], {})
  {
    PendingPop(orig, rank, [], final, {});
    assert [] + [final] == [final];
  }

  /** The numbered ids are matches of the bracket, none twice. */
  lemma {:induction false} NumberedPrefix(orig: map<int, Match>, rank: map<int, nat>, final: int,
                                          numbered: seq<int>, rest: seq<int>)
    requires Bracket(orig, rank, final) && numbered + rest == InOrder(orig, rank, final)
    ensures NoDuplicates(numbered) && forall i :: 0 <= i < |numbered| ==> numbered[i] in orig
  {
    var t := InOrder(orig, rank, final);
    NoDupSplit(numbered, rest);
    forall i | 0 <= i < |numbered| ensures numbered[i] in orig {
      assert t[i] == numbered[i];
    }
  }

  /** The top of the stack is a match of the bracket that is not numbered yet. */
  lemma {:induction false} NumberingTop(orig: map<int, Match>, rank: map<int, nat>, final: int,
                                        numbered: seq<int>, stack: seq<int>, visited: set<int>)
    requires Numbering(orig, rank, final, numbered, stack, visited) && stack != []
    ensures var e := stack[|stack| - 1];
      && e in orig && e in rank && e !in numbered && orig[e].sortElim == 0
  {
    var e := stack[|stack| - 1];
    var rest := stack[..|stack| - 1];
    assert stack == rest + [e];
    var top := if e in visited then [e] else InOrder(orig, rank, e);
    PendingPop(orig, rank, rest, e, visited);
    var t := InOrder(orig, rank, final);
    assert t == numbered + (top + Pending(orig, rank, rest, visited));
    NoDupSplit(numbered, top + Pending(orig, rank, rest, visited));
    assert e in top;
  }

  /** Numbering the visited top of the stack. */
  lemma {:induction false} NumberingMark(orig: map<int, Match>, rank: map<int, nat>, final: int,
                                         numbered: seq<int>, stack: seq<int>, visited: set<int>)
    requires Numbering(orig, rank, final, numbered, stack, visited) && stack != []
    requires stack[|stack| - 1] in visited
    ensures var e := stack[|stack| - 1];
      Numbering(orig, rank, final, numbered + [e], stack[..|stack| - 1], visited)
  {
    var e := stack[|stack| - 1];
    var rest := stack[..|stack| - 1];
    assert stack == rest + [e];
    PendingPop(orig, rank, rest, e, visited);
    assert numbered + [e] + Pending(orig, rank, rest, visited) == numbered + ([e] + Pending(orig, rank, rest, visited));
  }

  /** The ids of `rest` stay on a stack that keeps `rest` as its bottom. */
  lemma {:induction false} VisitedKept(numbered: seq<int>, rest: seq<int>, e: int, ns: seq<int>, visited: set<int>)
    requires forall v :: v in visited ==> v in numbered || v in rest + [e]
    requires |rest| < |ns| && ns[..|rest|] == rest && e in ns
    ensures forall v :: v in visited + {e} ==> v in numbered || v in ns
  {
    forall v | v in visited + {e} ensures v in numbered || v in ns {
      if v != e && v !in numbered {
        assert v in rest + [e];
        var i :| 0 <= i < |rest| + 1 && (rest + [e])[i] == v;
        assert i < |rest| && ns[i] == v;
      }
    }
  }

  /** The pending work stays the listing's remainder when the top is expanded. */
  lemma {:induction false} ExpandPending(orig: map<int, Match>, rank: map<int, nat>, final: int,
                                         numbered: seq<int>, rest: seq<int>, e: int, visited: set<int>)
    requires Numbering(orig, rank, final, numbered, rest + [e], visited)
    requires e !in visited && e in orig && e in rank
    ensures numbered + Pending(orig, rank, Pushed(rest, orig[e], e), visited + {e}) == InOrder(orig, rank, final)
  {
    PendingPop(orig, rank, rest, e, visited);
    var t := InOrder(orig, rank, final);
    var p := Pending(orig, rank, rest, visited);
    assert numbered + (InOrder(orig, rank, e) + p) == t;
    assert numbered + InOrder(orig, rank, e) + p == t;
    PushStep(orig, rank, numbered, rest, visited, e);
  }

  /** Expanding the unvisited top of the stack into feeders and a marker. */
  lemma {:induction false} NumberingExpand(orig: map<int, Match>, rank: map<int, nat>, final: int,
                                           numbered: seq<int>, stack: seq<int>, visited: set<int>)
    requires Numbering(orig, rank, final, numbered, stack, visited) && stack != []
    requires stack[|stack| - 1] !in visited
    ensures stack[|stack| - 1] in orig
    ensures var e := stack[|stack| - 1];
      Numbering(orig, rank, final, numbered, Pushed(stack[..|stack| - 1], orig[e], e), visited + {e})
  {
    var e := stack[|stack| - 1];
    var rest := stack[..|stack| - 1];
    assert stack == rest + [e];
    NumberingTop(orig, rank, final, numbered, stack, visited);
    ExpandPending(orig, rank, final, numbered, rest, e, visited);
    PushedRanked(orig, rank, rest, e);
    PushedPrefix(rest, orig[e], e);
    VisitedKept(numbered, rest, e, Pushed(rest, orig[e], e), visited);
  }

  /**
   * One turn of the numbering loop, with the arena numbered so far as
   * `cur`: the top of the stack is a match whose `sortElim` is still 0,
   * and numbering it (when visited) or expanding it (when not) keeps the
   * loop's state.
   */
  lemma {:induction false} NumberingStep(orig: map<int, Match>, rank: map<int, nat>, final: int,
                                         numbered: seq<int>, stack: seq<int>, visited: set<int>)
    requires Numbering(orig, rank, final, numbered, stack, visited) && stack != []
    ensures var e := stack[|stack| - 1]; var cur := Renumbered(orig, numbered);
      && e in cur && cur[e] == orig[e] && cur[e].sortElim == 0
      && Renumbered(orig, numbered + [e]) == cur[e := cur[e].(sortElim := |numbered| + 1)]
      && (e in visited ==> Numbering(orig, rank, final, numbered + [e], stack[..|stack| - 1], visited))
      && (e !in visited ==> Numbering(orig, rank, final, numbered, Pushed(stack[..|stack| - 1], cur[e], e), visited + {e}))
  {
    var e := stack[|stack| - 1];
    NumberingTop(orig, rank, final, numbered, stack, visited);
    var rest := stack[..|stack| - 1];
    assert stack == rest + [e];
    PendingPop(orig, rank, rest, e, visited);
    assert numbered + Pending(orig, rank, stack, visited) == numbered + ((if e in visited then [e] else InOrder(orig, rank, e)) + Pending(orig, rank, rest, visited));
    NumberedPrefix(orig, rank, final, numbered, Pending(orig, rank, stack, visited));
    RenumberedValues(orig, numbered);
    RenumberedNext(orig, numbered, e);
    if e in visited {
      NumberingMark(orig, rank, final, numbered, stack, visited);
    } else {
      NumberingExpand(orig, rank, final, numbered, stack, visited);
    }
  }

  /** With the stack empty, the numbered ids are the whole listing. */
  lemma {:induction false} NumberingDone(orig: map<int, Match>, rank: map<int, nat>, final: int,
                                         numbered: seq<int>, visited: set<int>)
    requires Numbering(orig, rank, final, numbered, [], visited)
    ensures numbered == InOrder(orig, rank, final)
  {
    assert numbered + [] == numbered;
  }

  // ---- the visit set ---------------------------------------------------------

  function Pow3(n: nat): (r: nat)
    ensures r >= 1
  {
    if n == 0 then 1 else 3 * Pow3(n - 1)
  }

  lemma {:induction false} Pow3Monotone(a: nat, b: nat)
    requires a <= b
    decreases b
    ensures Pow3(a) <= Pow3(b)
  {
    if a < b {
      Pow3Monotone(a, b - 1);
    }
  }

  /** A set that is not empty has a member to pick. */
  lemma {:induction false} NonEmptySet(s: set<int>)
    requires s != {}
    ensures exists x :: x in s
  {
    assert (forall x :: x !in s) ==> s == {};
  }

  /** The sum of `3^rank` over the ids of `s`. */
  ghost function Weight(rank: map<int, nat>, s: set<int>): nat
    requires s <= rank.Keys
    decreases |s|
  {
    if s == {} then 0
    else
      NonEmptySet(s);
      var y :| y in s;
      Pow3(rank[y]) + Weight(rank, s - {y})
  }

  /** Taking any one id out of the set takes its share out of the weight. */
  lemma {:induction false} WeightRemove(rank: map<int, nat>, s: set<int>, x: int)
    requires s <= rank.Keys && x in s
    decreases |s|
    ensures Weight(rank, s) == Pow3(rank[x]) + Weight(rank, s - {x})
  {
    var y :| y in s && Weight(rank, s) == Pow3(rank[y]) + Weight(rank, s - {y});
    if y != x {
      WeightRemove(rank, s - {y}, x);
      WeightRemove(rank, s - {x}, y);
      assert s - {y} - {x} == s - {x} - {y};
    }
  }

  /** Adding an id adds at most its share. */
  lemma {:induction false} WeightAdd(rank: map<int, nat>, s: set<int>, x: int)
    requires s <= rank.Keys && x in rank
    ensures Weight(rank, s + {x}) <= Weight(rank, s) + Pow3(rank[x])
  {
    if x !in s {
      WeightRemove(rank, s + {x}, x);
      assert s + {x} - {x} == s;
    } else {
      assert s + {x} == s;
    }
  }

  function OptionSet(o: Option<int>): set<int>
  {
    if o.Some? then {o.value} else {}
  }

  /** Adding the id an option holds, if any, ranked below `r`, adds at most `3^(r-1)`. */
  lemma {:induction false} WeightAddBelow(rank: map<int, nat>, s: set<int>, o: Option<int>, r: nat)
    requires s <= rank.Keys && r >= 1
    requires o.Some? ==> o.value in rank && rank[o.value] < r
    ensures s + OptionSet(o) <= rank.Keys
    ensures Weight(rank, s + OptionSet(o)) <= Weight(rank, s) + Pow3(r - 1)
  {
    if o.Some? {
      WeightAdd(rank, s, o.value);
      Pow3Monotone(rank[o.value], r - 1);
    } else {
      assert s + OptionSet(o) == s;
    }
  }

  /**
   * Visiting `x` and queueing its feeders, each ranked below it, makes the
   * weight of the visit set drop.
   */
  lemma {:induction false} WeightDrops(rank: map<int, nat>, visit: set<int>, x: int, home: Option<int>, away: Option<int>)
    requires visit <= rank.Keys && x in visit
    requires home.Some? ==> home.value in rank && rank[home.value] < rank[x]
    requires away.Some? ==> away.value in rank && rank[away.value] < rank[x]
    ensures visit - {x} + OptionSet(home) + OptionSet(away) <= rank.Keys
    ensures Weight(rank, visit - {x} + OptionSet(home) + OptionSet(away)) < Weight(rank, visit)
  {
    WeightRemove(rank, visit, x);
    var rest := visit - {x};
    if home.None? && away.None? {
      assert rest + OptionSet(home) + OptionSet(away) == rest;
    } else {
      var r := rank[x];
      assert r >= 1;
      WeightAddBelow(rank, rest, home, r);
      WeightAddBelow(rank, rest + OptionSet(home), away, r);
    }
  }
}
