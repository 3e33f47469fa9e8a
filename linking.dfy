/**
 * Feeder back-references (`LinkFeeders`): every match other than the
 * third-place match claims its feeders by writing its own id into their
 * `idFeeding`; a feeder that is missing (`KeyError`) or already claimed
 * (`assert matchFeeder.idFeeding is None`) stops the run.
 */
module Linking {
  import opened Wrappers
  import opened Stages
  import opened Matches
  import opened Groups

  /** A claim: (feeder id, claiming match id). */
  type Claim = (int, int)

  /** The claims `c` makes on the feeders `fs` it has, in order; absent feeders are skipped. */
  function ClaimsFrom(fs: seq<Option<int>>, c: int): (r: seq<Claim>)
    ensures |r| <= |fs|
    ensures forall k :: 0 <= k < |r| ==> r[k].1 == c && Some(r[k].0) in fs
  {
    if fs == [] then []
    else (if fs[0].Some? then [(fs[0].value, c)] else []) + ClaimsFrom(fs[1..], c)
  }

  /** The claims one match makes, home feeder first; the third-place match makes none. */
  function ClaimsOf(m: Match): seq<Claim>
  {
    if m.stage == Some(Third) then [] else ClaimsFrom([m.feederHome, m.feederAway], m.id)
  }

  /** The claims of the matches `order` names, in that order (an id that is no match claims nothing). */
  function AllClaims(arena: map<int, Match>, order: seq<int>): seq<Claim>
  {
    if order == [] then []
    else
      var last := order[|order| - 1];
      AllClaims(arena, order[..|order| - 1]) + (if last in arena then ClaimsOf(arena[last]) else [])
  }

  /**
   * The arena after applying `claims` one by one, and whether all of them
   * succeeded; on the first failure the arena is left as it was then.
   */
  function Link(arena: map<int, Match>, claims: seq<Claim>): (map<int, Match>, bool)
  {
    if claims == [] then (arena, true)
    else
      var (f, c) := claims[0];
      if f !in arena then (arena, false)
      else if arena[f].feeding.Some? then (arena, false)
      else Link(arena[f := arena[f].(feeding := Some(c))], claims[1..])
  }

  function Feeders(claims: seq<Claim>): (r: seq<int>)
    ensures |r| == |claims| && forall k :: 0 <= k < |claims| ==> r[k] == claims[k].0
  {
    if claims == [] then [] else [claims[0].0] + Feeders(claims[1..])
  }

  /** Linking only ever writes `feeding`: the keys and every other field stay. */
  lemma {:induction false} LinkKeepsShape(arena: map<int, Match>, claims: seq<Claim>)
    ensures var a' := Link(arena, claims).0;
      a'.Keys == arena.Keys &&
      forall id :: id in arena ==> a'[id] == arena[id].(feeding := a'[id].feeding)
  {
    if claims != [] {
      var (f, c) := claims[0];
      if f in arena && arena[f].feeding.None? {
        LinkKeepsShape(arena[f := arena[f].(feeding := Some(c))], claims[1..]);
      }
    }
  }

  /**
   * Linking succeeds exactly when every claimed feeder exists, was not
   * claimed before, and no feeder is claimed twice.
   */
  lemma {:induction false} LinkSucceeds(arena: map<int, Match>, claims: seq<Claim>)
    ensures Link(arena, claims).1 <==>
      (forall k :: 0 <= k < |claims| ==> claims[k].0 in arena && arena[claims[k].0].feeding.None?) &&
      NoDuplicates(Feeders(claims))
  {
    if claims != [] {
      var (f, c) := claims[0];
      var rest := claims[1..];
      assert Feeders(claims) == [f] + Feeders(rest);
      if f in arena && arena[f].feeding.None? {
        var a1 := arena[f := arena[f].(feeding := Some(c))];
        LinkSucceeds(a1, rest);
        if Link(arena, claims).1 {
          forall k | 0 <= k < |claims| ensures claims[k].0 in arena && arena[claims[k].0].feeding.None? {
            if k > 0 { assert rest[k - 1] == claims[k]; }
          }
          forall i, j | 0 <= i < j < |Feeders(claims)| ensures Feeders(claims)[i] != Feeders(claims)[j] {
            if i == 0 {
              assert rest[j - 1] == claims[j];
              assert a1[claims[j].0].feeding.None?;
            } else {
              assert Feeders(rest)[i - 1] != Feeders(rest)[j - 1];
            }
          }
        }
        if (forall k :: 0 <= k < |claims| ==> claims[k].0 in arena && arena[claims[k].0].feeding.None?) &&
           NoDuplicates(Feeders(claims)) {
          forall k | 0 <= k < |rest| ensures rest[k].0 in a1 && a1[rest[k].0].feeding.None? {
            assert claims[k + 1] == rest[k];
            assert Feeders(claims)[0] != Feeders(claims)[k + 1];
          }
          assert NoDuplicates(Feeders(rest)) by {
            forall i, j | 0 <= i < j < |Feeders(rest)| ensures Feeders(rest)[i] != Feeders(rest)[j] {
              assert Feeders(claims)[i + 1] != Feeders(claims)[j + 1];
            }
          }
        }
      } else {
        assert !(claims[0].0 in arena && arena[claims[0].0].feeding.None?);
      }
    }
  }

  /**
   * After a successful run every claimed feeder points at the match that
   * claimed it, and every match nobody claimed is unchanged.
   */
  lemma {:induction false} LinkResult(arena: map<int, Match>, claims: seq<Claim>)
    requires Link(arena, claims).1
    ensures forall k :: 0 <= k < |claims| ==>
      claims[k].0 in Link(arena, claims).0 && Link(arena, claims).0[claims[k].0].feeding == Some(claims[k].1)
    ensures forall id :: id in arena && id !in Feeders(claims) ==>
      id in Link(arena, claims).0 && Link(arena, claims).0[id] == arena[id]
  {
    if claims != [] {
      var (f, c) := claims[0];
      var rest := claims[1..];
      var a1 := arena[f := arena[f].(feeding := Some(c))];
      LinkResult(a1, rest);
      LinkSucceeds(arena, claims);
      LinkKeepsShape(a1, rest);
      assert Feeders(claims) == [f] + Feeders(rest);
      forall k | 0 <= k < |claims|
        ensures claims[k].0 in Link(arena, claims).0 && Link(arena, claims).0[claims[k].0].feeding == Some(claims[k].1)
      {
        if k == 0 {
          assert f !in Feeders(rest) by {
            forall j | 0 <= j < |rest| ensures Feeders(rest)[j] != f {
              assert Feeders(claims)[0] != Feeders(claims)[j + 1];
            }
          }
        } else {
          assert rest[k - 1] == claims[k];
        }
      }
    }
  }

  /** Claims made in two batches link like one batch: the run stops at the first failure. */
  lemma {:induction false} LinkAppend(arena: map<int, Match>, a: seq<Claim>, b: seq<Claim>)
    ensures Link(arena, a + b) == if Link(arena, a).1 then Link(Link(arena, a).0, b) else Link(arena, a)
  {
    if a != [] {
      assert (a + b)[0] == a[0];
      assert (a + b)[1..] == a[1..] + b;
      var (f, c) := a[0];
      if f in arena && arena[f].feeding.None? {
        LinkAppend(arena[f := arena[f].(feeding := Some(c))], a[1..], b);
      }
    } else {
      assert a + b == b;
    }
  }

  /** Linking never changes what `ClaimsOf` reads, so the claims of all matches stay the same. */
  lemma {:induction false} AllClaimsStable(arena: map<int, Match>, arena': map<int, Match>, order: seq<int>)
    requires arena'.Keys == arena.Keys
    requires forall id :: id in arena ==> arena'[id] == arena[id].(feeding := arena'[id].feeding)
    ensures AllClaims(arena', order) == AllClaims(arena, order)
  {
    if order != [] {
      AllClaimsStable(arena, arena', order[..|order| - 1]);
      var last := order[|order| - 1];
      assert last in arena ==> ClaimsOf(arena'[last]) == ClaimsOf(arena[last]);
    }
  }
}
