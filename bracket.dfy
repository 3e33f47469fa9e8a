/**
 * The elimination bracket (`CBracketBlot`): each elimination stage takes a
 * column on the left and the mirrored column on the right, its rows spread
 * and centred in the height of the busiest stage; the third-place match
 * goes below the middle; each stage's label box covers its matches.
 *
 * The stages arrive sorted, each with the number of its matches in the
 * bracket (`sorted(set(...))` and `mpStageCRow` of the code).
 */
module Brackets {
  import opened Wrappers
  import opened Stages
  import opened Rects
  import opened Days

  /** `s_dXStageGap`, `s_dYStageGap` and the newer `s_dYStageLabel` (`CElimBlot.s_dYDate * 2`). */
  const GapX: real := ElimWidth / 8.0
  const GapY: real := ElimHeight / 8.0
  const Label: real := FontTime * 2.0

  /** One stage of the bracket and how many of its matches the bracket holds. */
  datatype StageCount = StageCount(stage: Stage, matches: nat)

  /** Strictly ascending stages, as `sorted(set(...))` gives them. */
  predicate Ascending(e: seq<StageCount>)
  {
    forall i, j :: 0 <= i < j < |e| ==> Before(e[i].stage, e[j].stage)
  }

  /** A stage's rows: half its matches on each side. */
  function Rows(e: seq<StageCount>, i: nat): nat
    requires i < |e|
  {
    e[i].matches / 2
  }

  /** The rows of every stage, in order. */
  function RowCounts(e: seq<StageCount>): (r: seq<nat>)
    ensures |r| == |e| && forall i :: 0 <= i < |e| ==> r[i] == Rows(e, i)
  {
    seq(|e|, i requires 0 <= i < |e| => Rows(e, i))
  }

  /** `cRow`: the rows of the busiest stage. */
  function MaxRows(e: seq<StageCount>): (m: nat)
    requires |e| > 0
    ensures (exists i :: 0 <= i < |e| && Rows(e, i) == m) && forall i :: 0 <= i < |e| ==> Rows(e, i) <= m
  {
    MaxOf(RowCounts(e))
  }

  /** `k` steps of `step`. */
  function Stride(k: nat, step: real): real
  {
    k as real * step
  }

  /** `c` blots of `size` with a gap between each two. */
  function GridLen(c: nat, size: real, gap: real): real
  {
    Stride(c, size) + (c as real - 1.0) * gap
  }

  /** The columns and rows of the grid and its two lengths. */
  datatype Dims = Dims(cCol: nat, cRow: nat, dXGrid: real, dYGrid: real)

  /** `cCol`, `cRow`, `dXGrid` and `dYGrid`; `max` of no stages raises `ValueError`. */
  function BracketDims(e: seq<StageCount>): (r: Result<Dims>)
    ensures r.Ok? <==> |e| > 0
    ensures r.Ok? ==> r.value.cCol == 2 * |e| && r.value.cRow == MaxRows(e)
  {
    if |e| == 0 then Err("ValueError: max() arg is an empty sequence")
    else
      var cCol, cRow := 2 * |e|, MaxRows(e);
      Ok(Dims(cCol, cRow, GridLen(cCol, ElimWidth, GapX), GridLen(cRow, ElimHeight, GapY)))
  }

  /** The newer height: the earliest stage's label above the grid; the older one is the grid alone. */
  function BracketHeight(d: Dims, legacy: bool): real
  {
    if legacy then d.dYGrid else Label + d.dYGrid
  }

  // ---- rows ----------------------------------------------------------------

  /**
   * Where stage `i`'s rows start below the grid's top, and how far apart
   * they are: the busiest stages fill the grid a cell apart; any other
   * stage starts a share further down for each stage before it, and spreads
   * its rows to leave as much below as above.
   */
  function StageSpacing(e: seq<StageCount>, i: nat, cRow: nat, dYGrid: real): (real, real)
    requires i < |e| && |e| > 1
  {
    var perStage := ((dYGrid - ElimHeight) / 2.0) / (|e| - 1) as real;
    var c := Rows(e, i);
    if c >= cRow then (0.0, ElimHeight + GapY)
    else
      var dYStageMin := Stride(i, perStage);
      if c > 1 then (dYStageMin, (dYGrid - (Stride(c, ElimHeight) + 2.0 * dYStageMin)) / (c - 1) as real + ElimHeight)
      else (dYStageMin, 0.0)
  }

  /** The top of row `row` of stage `i`, from the top of the bracket (`top` is the label's height, or 0 in the older code). */
  function RowY(e: seq<StageCount>, i: nat, row: nat, cRow: nat, dYGrid: real, top: real): real
    requires i < |e| && |e| > 1
  {
    var (dYStageMin, step) := StageSpacing(e, i, cRow, dYGrid);
    top + dYStageMin + Stride(row, step)
  }

  /** The rows of the stages before `i`, and of stage `i` before `row`. */
  function RowKeys(e: seq<StageCount>, i: nat, row: nat): set<(Stage, nat)>
    requires i <= |e|
  {
    (set k, r | 0 <= k < i && 0 <= r < Rows(e, k) :: (e[k].stage, r)) +
    (if i < |e| then set r | 0 <= r < row :: (e[i].stage, r) else {})
  }

  /** Every row entered so far is at its place. */
  predicate RowsPlaced(e: seq<StageCount>, m: map<(Stage, nat), real>, cRow: nat, dYGrid: real, top: real)
    requires |e| > 1
  {
    forall k, r :: 0 <= k < |e| && 0 <= r < Rows(e, k) && (e[k].stage, r) in m ==>
      m[(e[k].stage, r)] == RowY(e, k, r, cRow, dYGrid, top)
  }

  /**
   * The row loop of `CBracketBlot.__init__` (`mpStageRowY`): a `ValueError`
   * for no stages, a `ZeroDivisionError` for one (the share per stage
   * divides by the number of stages less one); otherwise every row of every
   * stage, each at its place.
   */
  method StageRowY(e: seq<StageCount>, top: real) returns (r: Result<map<(Stage, nat), real>>)
    requires Ascending(e)
    ensures r.Ok? <==> |e| > 1
    ensures r.Ok? ==> r.value.Keys == RowKeys(e, |e|, 0)
    ensures r.Ok? ==> RowsPlaced(e, r.value, MaxRows(e), GridLen(MaxRows(e), ElimHeight, GapY), top)
  {
    if |e| == 0 {
      return Err("ValueError: max() arg is an empty sequence");
    }
    var cRow := MaxRows(e);
    var dYGrid := GridLen(cRow, ElimHeight, GapY);
    if |e| == 1 {
      return Err("ZeroDivisionError: float division by zero");
    }
    var m: map<(Stage, nat), real> := map[];
    var i := 0;
    while i < |e|
      invariant i <= |e| && m.Keys == RowKeys(e, i, 0)
      invariant RowsPlaced(e, m, cRow, dYGrid, top)
    {
      var (dYStageMin, step) := StageSpacing(e, i, cRow, dYGrid);
      var row := 0;
      while row < Rows(e, i)
        invariant row <= Rows(e, i) && m.Keys == RowKeys(e, i, row)
        invariant RowsPlaced(e, m, cRow, dYGrid, top)
      {
        RowKeyFresh(e, i, row);
        m := m[(e[i].stage, row) := top + dYStageMin + Stride(row, step)];
        RowKeysStep(e, i, row);
        row := row + 1;
      }
      RowKeysNext(e, i);
      i := i + 1;
    }
    return Ok(m);
  }

  /** The key of a new row is not among the rows entered before it. */
  lemma RowKeyFresh(e: seq<StageCount>, i: nat, row: nat)
    requires Ascending(e) && i < |e|
    ensures (e[i].stage, row) !in RowKeys(e, i, row)
  {
    forall k, r | 0 <= k < i && 0 <= r < Rows(e, k)
      ensures (e[k].stage, r) != (e[i].stage, row)
    {
      assert Before(e[k].stage, e[i].stage);
    }
  }

  lemma RowKeysStep(e: seq<StageCount>, i: nat, row: nat)
    requires i < |e|
    ensures RowKeys(e, i, row + 1) == RowKeys(e, i, row) + {(e[i].stage, row)}
  {
  }

  lemma RowKeysNext(e: seq<StageCount>, i: nat)
    requires i < |e|
    ensures RowKeys(e, i + 1, 0) == RowKeys(e, i, Rows(e, i))
  {
    var lhs := RowKeys(e, i + 1, 0);
    var rhs := RowKeys(e, i, Rows(e, i));
    forall x | x in lhs ensures x in rhs {
      var k, r :| 0 <= k < i + 1 && 0 <= r < Rows(e, k) && x == (e[k].stage, r);
    }
  }

  lemma StrideSplit(k: nat, step: real)
    ensures Stride(k + 1, step) == Stride(k, step) + step
  {
  }

  /** `k` equal parts of `x / k` make `x` again, with `k` times `size` added. */
  lemma StrideOfShare(k: nat, x: real, size: real)
    requires k > 0
    ensures Stride(k, x / k as real + size) == x + Stride(k, size)
  {
    assert k as real * (x / k as real + size) == k as real * (x / k as real) + k as real * size;
  }

  /**
   * A stage spread over several rows but fewer than the busiest stage's
   * leaves the same space below its last row as above its first.
   */
  lemma SpreadStageCentred(e: seq<StageCount>, i: nat)
    requires |e| > 1 && i < |e| && 1 < Rows(e, i) < MaxRows(e)
    ensures var dYGrid := GridLen(MaxRows(e), ElimHeight, GapY);
      var (dYStageMin, step) := StageSpacing(e, i, MaxRows(e), dYGrid);
      dYGrid - (dYStageMin + Stride(Rows(e, i) - 1, step) + ElimHeight) == dYStageMin
  {
    var c := Rows(e, i);
    var dYGrid := GridLen(MaxRows(e), ElimHeight, GapY);
    var (dYStageMin, step) := StageSpacing(e, i, MaxRows(e), dYGrid);
    var x := dYGrid - (Stride(c, ElimHeight) + 2.0 * dYStageMin);
    StrideOfShare(c - 1, x, ElimHeight);
    StrideSplit(c - 1, ElimHeight);
  }

  /** The busiest stages fill the grid: their first row at its top, their last at its bottom. */
  lemma FullStageFills(e: seq<StageCount>, i: nat)
    requires |e| > 1 && i < |e| && Rows(e, i) == MaxRows(e) > 0
    ensures var dYGrid := GridLen(MaxRows(e), ElimHeight, GapY);
      var (dYStageMin, step) := StageSpacing(e, i, MaxRows(e), dYGrid);
      dYStageMin == 0.0 && Stride(Rows(e, i) - 1, step) + ElimHeight == dYGrid
  {
    var c := Rows(e, i);
    StrideSplit(c - 1, ElimHeight);
    StrideSum(c - 1, ElimHeight, GapY);
  }

  lemma StrideSum(k: nat, a: real, b: real)
    ensures Stride(k, a + b) == Stride(k, a) + (k as real) * b
  {
  }

  /**
   * The last stage, when it has a single row on each side and is not the
   * busiest, sits in the middle of the grid.
   */
  lemma LastSingleRowCentred(e: seq<StageCount>)
    requires |e| > 1 && Rows(e, |e| - 1) == 1 < MaxRows(e)
    ensures var dYGrid := GridLen(MaxRows(e), ElimHeight, GapY);
      var (dYStageMin, step) := StageSpacing(e, |e| - 1, MaxRows(e), dYGrid);
      dYStageMin + ElimHeight + dYStageMin == dYGrid
  {
    var dYGrid := GridLen(MaxRows(e), ElimHeight, GapY);
    StrideOfShare(|e| - 1, (dYGrid - ElimHeight) / 2.0, 0.0);
    assert Stride(|e| - 1, 0.0) == 0.0;
  }

  // ---- columns -------------------------------------------------------------

  /** Stage `k` of `n`: column `k` on the left, the mirrored column `2n - 1 - k` on the right. */
  function Columns(n: nat, k: nat): (nat, nat)
    requires k < n
  {
    (k, 2 * n - (1 + k))
  }

  /** Every stage side has its own column, within the grid, the right mirroring the left. */
  lemma ColumnsDistinct(n: nat, k: nat, k': nat)
    requires k < n && k' < n
    ensures Columns(n, k).0 < n <= Columns(n, k).1 < 2 * n
    ensures Columns(n, k).0 + Columns(n, k).1 == 2 * n - 1
    ensures k != k' ==> Columns(n, k).0 != Columns(n, k').0 && Columns(n, k).1 != Columns(n, k').1
  {
  }

  /** `mpColX`: column `col` one blot and one gap per column before it. */
  function ColX(col: nat): real
  {
    Stride(col, ElimWidth + GapX)
  }

  /** Every column lies inside the grid's width, a gap clear of the next. */
  lemma ColumnsInside(cCol: nat, col: nat)
    requires col < cCol
    ensures 0.0 <= ColX(col) && ColX(col) + ElimWidth <= GridLen(cCol, ElimWidth, GapX)
    ensures ColX(col) + ElimWidth + GapX == ColX(col + 1)
  {
    StrideSplit(col, ElimWidth + GapX);
    assert Stride(cCol, ElimWidth + GapX) == Stride(col + 1, ElimWidth + GapX) + (cCol - col - 1) as real * (ElimWidth + GapX);
    assert GridLen(cCol, ElimWidth, GapX) == Stride(cCol, ElimWidth + GapX) - GapX;
  }

  /** A match's cell: its column's `x` and its row's `y`; a row the stage does not have is a `KeyError`. */
  function ElimCell(rowY: map<(Stage, nat), real>, stage: Stage, col: nat, row: nat): (r: Result<(real, real)>)
    ensures r.Ok? <==> (stage, row) in rowY
    ensures r.Ok? ==> r.value == (ColX(col), rowY[(stage, row)])
  {
    if (stage, row) in rowY then Ok((ColX(col), rowY[(stage, row)])) else Err("KeyError: no such bracket row")
  }

  // ---- the third-place match ------------------------------------------------

  /** Where the third-place match goes and the bracket's height after it. */
  datatype ThirdPlace = ThirdPlace(x: real, y: real, dY: real)

  /**
   * The newer rule: centred across the grid; its middle level with the
   * bottom of the second quarter-final row, but no higher than the label
   * room below the first semi-final row; the height grows to hold it.
   * Either row missing is a `KeyError`.
   */
  function ThirdPlaceAt(rowY: map<(Stage, nat), real>, dXGrid: real, dY: real): (r: Result<ThirdPlace>)
    ensures r.Ok? <==> (Quarters, 1) in rowY && (Semis, 0) in rowY
  {
    if (Quarters, 1) !in rowY then Err("KeyError: (Quarters, 1)")
    else if (Semis, 0) !in rowY then Err("KeyError: (Semis, 0)")
    else
      var y0 := rowY[(Quarters, 1)] + ElimHeight / 2.0;
      var yMin := rowY[(Semis, 0)] + ElimHeight + 2.0 * Label;
      var y := if y0 >= yMin then y0 else yMin;
      ThirdPlaceHeight(dXGrid, y, dY)
  }

  function ThirdPlaceHeight(dXGrid: real, y: real, dY: real): (r: Result<ThirdPlace>)
  {
    Ok(ThirdPlace((dXGrid - ElimWidth) / 2.0, y, if dY >= y + ElimHeight then dY else y + ElimHeight))
  }

  /**
   * The newer third-place match is centred across the grid, clears the
   * first semi-final row and its label, has its middle no higher than the
   * bottom of the second quarter-final row, and lies within the height.
   */
  lemma ThirdPlaceClear(rowY: map<(Stage, nat), real>, dXGrid: real, dY: real)
    requires (Quarters, 1) in rowY && (Semis, 0) in rowY
    ensures var t := ThirdPlaceAt(rowY, dXGrid, dY).value;
      && t.x + ElimWidth / 2.0 == dXGrid / 2.0
      && t.y >= rowY[(Semis, 0)] + ElimHeight + 2.0 * Label
      && t.y + ElimHeight / 2.0 >= rowY[(Quarters, 1)] + ElimHeight
      && t.y + ElimHeight <= t.dY && dY <= t.dY
  {
  }

  /**
   * The older rule: centred across the grid; below the grid, which grows
   * by one blot, when the bracket starts at the quarter-finals; otherwise
   * in the bottom blot's row.
   */
  function LegacyThirdPlace(first: Stage, dX: real, dY: real): (r: ThirdPlace)
    ensures r.x + ElimWidth / 2.0 == dX / 2.0 && r.y + ElimHeight == r.dY
    ensures first == Quarters ==> r.y == dY && r.dY == dY + ElimHeight
    ensures first != Quarters ==> r.dY == dY
  {
    if first == Quarters then ThirdPlace((dX - ElimWidth) / 2.0, dY, dY + ElimHeight)
    else ThirdPlace((dX - ElimWidth) / 2.0, dY - ElimHeight, dY)
  }

  // ---- stage boxes ---------------------------------------------------------

  function MinR(a: real, b: real): real { if a <= b then a else b }
  function MaxR(a: real, b: real): real { if a >= b then a else b }

  /** The smallest box holding `a` and `b`. */
  function Join(a: Box, b: Box): Box
  {
    Box(MinR(a.xMin, b.xMin), MinR(a.yMin, b.yMin), MaxR(a.xMax, b.xMax), MaxR(a.yMax, b.yMax))
  }

  /** The first box grown by each later one in turn. */
  function Cover(boxes: seq<Box>): Box
    requires |boxes| > 0
  {
    if |boxes| == 1 then boxes[0] else Join(Cover(boxes[..|boxes| - 1]), boxes[|boxes| - 1])
  }

  predicate Holds(outer: Box, inner: Box)
  {
    outer.xMin <= inner.xMin && outer.yMin <= inner.yMin && inner.xMax <= outer.xMax && inner.yMax <= outer.yMax
  }

  /** The cover holds every box, and each of its sides is a side of some box. */
  lemma {:induction false} CoverIsBoundingBox(boxes: seq<Box>)
    requires |boxes| > 0
    ensures forall j :: 0 <= j < |boxes| ==> Holds(Cover(boxes), boxes[j])
    ensures exists j :: 0 <= j < |boxes| && Cover(boxes).xMin == boxes[j].xMin
    ensures exists j :: 0 <= j < |boxes| && Cover(boxes).yMin == boxes[j].yMin
    ensures exists j :: 0 <= j < |boxes| && Cover(boxes).xMax == boxes[j].xMax
    ensures exists j :: 0 <= j < |boxes| && Cover(boxes).yMax == boxes[j].yMax
  {
    CoverHolds(boxes);
    var k0, k1, k2, k3 := CoverSides(boxes);
  }

  lemma {:induction false} CoverHolds(boxes: seq<Box>)
    requires |boxes| > 0
    ensures forall j :: 0 <= j < |boxes| ==> Holds(Cover(boxes), boxes[j])
  {
    if |boxes| > 1 {
      var front, last := boxes[..|boxes| - 1], boxes[|boxes| - 1];
      CoverHolds(front);
      assert Cover(boxes) == Join(Cover(front), last);
      forall j | 0 <= j < |boxes|
        ensures Holds(Cover(boxes), boxes[j])
      {
        if j < |front| {
          assert boxes[j] == front[j];
        }
      }
    }
  }

  /** The boxes whose sides the cover's four sides are. */
  lemma {:induction false} CoverSides(boxes: seq<Box>) returns (k0: nat, k1: nat, k2: nat, k3: nat)
    requires |boxes| > 0
    ensures k0 < |boxes| && Cover(boxes).xMin == boxes[k0].xMin
    ensures k1 < |boxes| && Cover(boxes).yMin == boxes[k1].yMin
    ensures k2 < |boxes| && Cover(boxes).xMax == boxes[k2].xMax
    ensures k3 < |boxes| && Cover(boxes).yMax == boxes[k3].yMax
  {
    if |boxes| == 1 {
      k0, k1, k2, k3 := 0, 0, 0, 0;
    } else {
      var n := |boxes| - 1;
      var front, last := boxes[..n], boxes[n];
      var j0, j1, j2, j3 := CoverSides(front);
      var c := Cover(front);
      assert Cover(boxes) == Join(c, last);
      assert boxes[j0] == front[j0] && boxes[j1] == front[j1] && boxes[j2] == front[j2] && boxes[j3] == front[j3];
      k0 := if c.xMin <= last.xMin then j0 else n;
      k1 := if c.yMin <= last.yMin then j1 else n;
      k2 := if c.xMax >= last.xMax then j2 else n;
      k3 := if c.yMax >= last.yMax then j3 else n;
    }
  }

  function Corners(rects: seq<Rect>): seq<Box>
    reads set r | r in rects
  {
    seq(|rects|, j reads set r | r in rects requires 0 <= j < |rects| => rects[j].Corners())
  }

  /**
   * The older stage box: the first match's rectangle of the stage, grown in
   * place to cover the others (`rectStage = lRect[0]`, then its corners
   * widened by `min` and `max`). The rectangles are distinct objects, each
   * made for its own match.
   */
  method GrowToCover(rects: seq<Rect>)
    requires |rects| > 0
    requires forall j :: 1 <= j < |rects| ==> rects[j] != rects[0]
    modifies rects[0]
    ensures rects[0].Corners() == Cover(old(Corners(rects)))
    ensures forall j :: 1 <= j < |rects| ==> rects[j].Corners() == old(rects[j].Corners())
  {
    ghost var boxes := Corners(rects);
    var stage := rects[0];
    var j := 1;
    while j < |rects|
      invariant 1 <= j <= |rects|
      invariant forall k :: 1 <= k < |rects| ==> rects[k].Corners() == boxes[k]
      invariant stage.Corners() == Cover(boxes[..j])
    {
      var rect := rects[j];
      assert boxes[..j + 1][..j] == boxes[..j];
      stage.xMin := MinR(stage.xMin, rect.xMin);
      stage.yMin := MinR(stage.yMin, rect.yMin);
      stage.xMax := MaxR(stage.xMax, rect.xMax);
      stage.yMax := MaxR(stage.yMax, rect.yMax);
      j := j + 1;
    }
    assert boxes[..|rects|] == boxes;
  }
}
