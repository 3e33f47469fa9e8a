/**
 * Group lists: the set of groups named by the seeds (`MpStrGroupGroup`) and
 * the order-keeping merge of two feeders' group lists that `FTrySetStage`
 * performs with a `seen` set and a growing list.
 */
module Groups {
  import opened Wrappers
  import opened Matches

  const GroupAlphabet: string := "ABCDEFGHIJKLMNOP"

  /** `strSeed[:1]` */
  function Head(s: string): string
  {
    if |s| == 0 then "" else s[..1]
  }

  /** The group names of the first `n` groups, `["A", "B", ...]`. */
  function FirstGroups(n: nat): (r: seq<string>)
    requires n <= 16
    ensures |r| == n
    ensures forall i :: 0 <= i < n ==> r[i] == [GroupAlphabet[i]]
  {
    if n == 0 then [] else FirstGroups(n - 1) + [[GroupAlphabet[n - 1]]]
  }

  /**
   * `MpStrGroupGroup` and the sorted `lStrGroup` built from it: the groups
   * are the first characters of the seeds, at most sixteen, and they must
   * be exactly the first letters of the alphabet ("the sorted set joined is
   * a prefix of ABCDEFGHIJKLMNOP"). The list is the sorted group names.
   */
  function GroupList(seeds: set<string>): (r: Result<seq<string>>)
    ensures var heads := set s | s in seeds :: Head(s);
      r.Ok? <==> |heads| <= 16 && heads == (set i | 0 <= i < |heads| :: [GroupAlphabet[i]])
    ensures r.Ok? ==> |r.value| <= 16 && r.value == FirstGroups(|r.value|)
    ensures r.Ok? ==> forall g :: g in r.value <==> exists s :: s in seeds && Head(s) == g
  {
    var heads := set s | s in seeds :: Head(s);
    if |heads| <= 16 && heads == (set i | 0 <= i < |heads| :: [GroupAlphabet[i]]) then
      var l := FirstGroups(|heads|);
      assert forall g :: g in l <==> g in heads by {
        forall g ensures g in l <==> g in heads {
          if g in l {
            var i :| 0 <= i < |l| && l[i] == g;
            assert g == [GroupAlphabet[i]];
          }
        }
      }
      Ok(l)
    else
      Err("AssertionError: groups are not A, B, C, ...")
  }

  // ---- the merge of feeder group lists -------------------------------------

  /**
   * The merge state after the group entries `gs` (the home feeder's list
   * followed by the away feeder's): the names seen so far and the list
   * built. An unseen name is recorded and its characters appended
   * (`lStrGroup += strGroup` extends a list by the characters of a string).
   */
  function MergeState(gs: seq<string>): (set<string>, seq<string>)
  {
    if gs == [] then ({}, [])
    else
      var (seen, out) := MergeState(gs[..|gs| - 1]);
      var g := gs[|gs| - 1];
      if g in seen then (seen, out) else (seen + {g}, out + Chars(g))
  }

  function Merged(gs: seq<string>): seq<string>
  {
    MergeState(gs).1
  }

  /** Every group entry has exactly one character. */
  predicate AllSingle(gs: seq<string>)
  {
    forall i :: 0 <= i < |gs| ==> |gs[i]| == 1
  }

  predicate NoDuplicates<T(==)>(s: seq<T>)
  {
    forall i, j :: 0 <= i < j < |s| ==> s[i] != s[j]
  }

  /** Some entry of `gs` contains the character `c`. */
  predicate Mentions(gs: seq<string>, c: char)
  {
    exists i, m :: 0 <= i < |gs| && 0 <= m < |gs[i]| && gs[i][m] == c
  }

  /** The `seen` set is the set of entries read so far. */
  lemma {:induction false} MergeSeen(gs: seq<string>)
    ensures MergeState(gs).0 == set g | g in gs
  {
    if gs != [] {
      var front := gs[..|gs| - 1];
      MergeSeen(front);
      assert gs == front + [gs[|gs| - 1]];
    }
  }

  /** Everything in the merged list is one character some entry mentions. */
  lemma {:induction false} MergedSound(gs: seq<string>, x: string)
    requires x in Merged(gs)
    ensures |x| == 1 && Mentions(gs, x[0])
  {
    var front := gs[..|gs| - 1];
    var g := gs[|gs| - 1];
    if x in Merged(front) {
      MergedSound(front, x);
      var i, m :| 0 <= i < |front| && 0 <= m < |front[i]| && front[i][m] == x[0];
      assert gs[i] == front[i];
    } else {
      var k :| 0 <= k < |Chars(g)| && Chars(g)[k] == x;
      assert gs[|gs| - 1][k] == x[0];
    }
  }

  /** Every character some entry mentions is in the merged list. */
  lemma {:induction false} MergedComplete(gs: seq<string>, c: char)
    requires Mentions(gs, c)
    ensures [c] in Merged(gs)
  {
    var front := gs[..|gs| - 1];
    var g := gs[|gs| - 1];
    var i, m :| 0 <= i < |gs| && 0 <= m < |gs[i]| && gs[i][m] == c;
    MergeSeen(front);
    if i < |front| {
      assert front[i] == gs[i];
      MergedComplete(front, c);
    } else if g in MergeState(front).0 {
      var i' :| 0 <= i' < |front| && front[i'] == g;
      assert front[i'][m] == c;
      MergedComplete(front, c);
    } else {
      assert Chars(g)[m] == [c];
    }
  }

  /**
   * The merged list holds exactly the characters the feeders' entries
   * mention, each as a one-character name.
   */
  lemma {:induction false} MergedMembers(gs: seq<string>)
    ensures forall x :: x in Merged(gs) <==> |x| == 1 && Mentions(gs, x[0])
  {
    forall x ensures x in Merged(gs) <==> |x| == 1 && Mentions(gs, x[0]) {
      if x in Merged(gs) {
        MergedSound(gs, x);
      }
      if |x| == 1 && Mentions(gs, x[0]) {
        MergedComplete(gs, x[0]);
        assert x == [x[0]];
      }
    }
  }

  /** With one-character entries the merged list repeats nothing. */
  lemma {:induction false} MergedNoDuplicates(gs: seq<string>)
    requires AllSingle(gs)
    ensures NoDuplicates(Merged(gs))
    ensures forall x :: x in Merged(gs) <==> x in gs
  {
    if gs != [] {
      var front := gs[..|gs| - 1];
      var g := gs[|gs| - 1];
      MergedNoDuplicates(front);
      MergeSeen(front);
      assert Chars(g) == [g] by { assert g == [g[0]]; }
      assert gs == front + [g];
    }
  }

  /** The index of the first occurrence of `x` in `s`. */
  function FirstIndex<T(==)>(s: seq<T>, x: T): (k: nat)
    requires x in s
    ensures k < |s| && s[k] == x && x !in s[..k]
  {
    if s[0] == x then 0 else 1 + FirstIndex(s[1..], x)
  }

  lemma FirstIndexPrefix<T>(s: seq<T>, x: T, y: T)
    requires x in s
    ensures FirstIndex(s + [y], x) == FirstIndex(s, x)
  {
    if s[0] != x {
      assert (s + [y])[1..] == s[1..] + [y];
      FirstIndexPrefix(s[1..], x, y);
    }
  }

  lemma FirstIndexLast<T>(s: seq<T>, y: T)
    requires y !in s
    ensures FirstIndex(s + [y], y) == |s|
  {
    if s != [] {
      assert (s + [y])[1..] == s[1..] + [y];
      FirstIndexLast(s[1..], y);
    }
  }

  /**
   * With one-character entries the merged list keeps first-seen order: a
   * name comes before another exactly when its first occurrence among the
   * feeders' entries does.
   */
  lemma {:induction false} MergedFirstSeenOrder(gs: seq<string>)
    requires AllSingle(gs)
    ensures forall i, j :: 0 <= i < j < |Merged(gs)| ==>
      Merged(gs)[i] in gs && Merged(gs)[j] in gs &&
      FirstIndex(gs, Merged(gs)[i]) < FirstIndex(gs, Merged(gs)[j])
  {
    MergedNoDuplicates(gs);
    if gs != [] {
      var front := gs[..|gs| - 1];
      var g := gs[|gs| - 1];
      assert gs == front + [g];
      MergedFirstSeenOrder(front);
      MergedNoDuplicates(front);
      MergeSeen(front);
      var m := Merged(gs);
      forall i, j | 0 <= i < j < |m|
        ensures FirstIndex(gs, m[i]) < FirstIndex(gs, m[j])
      {
        assert m[i] in front by {
          assert i < |Merged(front)|;
          assert m[i] == Merged(front)[i];
        }
        FirstIndexPrefix(front, m[i], g);
        if j < |Merged(front)| {
          assert m[j] == Merged(front)[j];
          FirstIndexPrefix(front, m[j], g);
        } else {
          assert g !in front;
          assert Chars(g) == [g] by { assert g == [g[0]]; }
          assert m[j] == g;
          FirstIndexLast(front, g);
        }
      }
    }
  }
}
