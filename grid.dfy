/**
 * The grid of group tables (`CGroupSetBlot`): how many columns and rows,
 * the gaps between them clamped to a range, the extent of the whole
 * grid, and where `Draw` puts each group. The newer version fits the gaps
 * to a canvas; the older one uses a fixed gap and draws one column.
 */
module GroupGrids {
  import opened Rects

  /** `CGroupBlot.s_dX` and `s_dY` (a 16:9 table). */
  const GroupWidth: real := 4.5
  const GroupHeight: real := GroupWidth / (16.0 / 9.0)

  /** `s_dSGridGapMin` and `s_dSGridGapMax`: a sixth and a half of the shorter side. */
  const GapMin: real := (if GroupWidth <= GroupHeight then GroupWidth else GroupHeight) / 6.0
  const GapMax: real := (if GroupWidth <= GroupHeight then GroupWidth else GroupHeight) / 2.0

  /** The older fixed gap, `CGroupBlot.s_dY / 2`. */
  const LegacyGap: real := GroupHeight / 2.0

  function Min(a: real, b: real): real { if a <= b then a else b }
  function Max(a: real, b: real): real { if a >= b then a else b }

  /**
   * `round(math.sqrt(n))` for a whole number: the nearest whole number to
   * the square root (never a tie, since `n` is whole).
   */
  function RoundSqrt(n: nat): (k: nat)
    ensures n <= k * k + k
    ensures k > 0 ==> k * k - k < n
  {
    RoundSqrtFrom(n, 0)
  }

  function RoundSqrtFrom(n: nat, k: nat): (r: nat)
    requires k == 0 || k * k - k < n
    decreases n - k
    ensures k <= r && n <= r * r + r
    ensures r > 0 ==> r * r - r < n
  {
    if n <= k * k + k then k else RoundSqrtFrom(n, k + 1)
  }

  /** `(n + c - 1) // c`: the fewest lines of `c` that hold `n`. */
  function CeilDiv(n: nat, c: nat): (r: nat)
    requires c > 0
    ensures r * c >= n && (r > 0 ==> (r - 1) * c < n)
  {
    (n + c - 1) / c
  }

  /**
   * The columns and rows of the grid as the code computes them: a count
   * left 0 is derived from the other, and with both left 0 the columns are
   * `round(sqrt(n)) + 1` but the rows are set to the passed `cCol`, 0.
   */
  function GridCountsAsWritten(n: nat, cCol: nat, cRow: nat): (nat, nat)
  {
    if cCol == 0 && cRow == 0 then (RoundSqrt(n) + 1, cCol)
    else if cCol == 0 then (CeilDiv(n, cRow), cRow)
    else if cRow == 0 then (cCol, CeilDiv(n, cCol))
    else (cCol, cRow)
  }

  /**
   * The counts as written: a count that is given is kept, a count derived
   * from the other is the fewest lines that hold all `n` groups, and with
   * both left 0 the columns are `round(sqrt(n)) + 1` and there is no row.
   */
  lemma {:induction false} GridCountsAsWrittenHold(n: nat, cCol: nat, cRow: nat)
    ensures var (c, r) := GridCountsAsWritten(n, cCol, cRow);
      && (cCol > 0 ==> c == cCol) && (cRow > 0 ==> r == cRow)
      && ((cCol == 0) != (cRow == 0) ==> c * r >= n)
      && (cCol == 0 && cRow > 0 && c > 0 ==> (c - 1) * r < n)
      && (cRow == 0 && cCol > 0 && r > 0 ==> c * (r - 1) < n)
      && (cCol == 0 && cRow == 0 ==> c == RoundSqrt(n) + 1 && r == 0)
      && (n > 0 && (cCol > 0 || cRow > 0) ==> c > 0)
  {
    var (c, r) := GridCountsAsWritten(n, cCol, cRow);
    if cCol == 0 && cRow > 0 {
      assert c * r >= n;
    } else if cRow == 0 && cCol > 0 {
      assert r * c >= n;
      assert c * (r - 1) == (r - 1) * c;
    }
  }

  /** With both counts left 0, the grid as written has no row at all, whatever the number of groups. */
  lemma GridCountsAsWrittenHasNoRows(n: nat)
    requires n > 0
    ensures GridCountsAsWritten(n, 0, 0).1 == 0
    ensures GridCountsAsWritten(n, 0, 0).0 * GridCountsAsWritten(n, 0, 0).1 < n
  {
  }

  /** The grid counts with the evident intent for both counts left 0: a square of `round(sqrt(n)) + 1`. */
  function GridCounts(n: nat, cCol: nat, cRow: nat): (nat, nat)
  {
    if cCol == 0 && cRow == 0 then (RoundSqrt(n) + 1, RoundSqrt(n) + 1)
    else if cCol == 0 then (CeilDiv(n, cRow), cRow)
    else if cRow == 0 then (cCol, CeilDiv(n, cCol))
    else (cCol, cRow)
  }

  /**
   * The corrected counts: a count that is given is kept; a derived count is
   * the fewest that holds all `n` groups; with both derived the square
   * holds them. Only with both counts given can the grid be too small.
   */
  lemma {:induction false} GridCountsHold(n: nat, cCol: nat, cRow: nat)
    ensures var (c, r) := GridCounts(n, cCol, cRow);
      && (cCol > 0 ==> c == cCol) && (cRow > 0 ==> r == cRow)
      && ((cCol == 0 || cRow == 0) ==> c * r >= n)
      && (cCol == 0 && cRow > 0 && c > 0 ==> (c - 1) * r < n)
      && (cRow == 0 && cCol > 0 && r > 0 ==> c * (r - 1) < n)
      && (n > 0 ==> c > 0)
  {
    var (c, r) := GridCounts(n, cCol, cRow);
    if cCol == 0 && cRow == 0 {
      var k := RoundSqrt(n);
      assert c * r == (k + 1) * (k + 1) == k * k + 2 * k + 1;
    } else if cCol == 0 {
      assert c * r >= n;
    } else if cRow == 0 {
      assert r * c >= n;
      assert c * (r - 1) == (r - 1) * c;
    }
  }

  /**
   * The corrected counts differ from the counts as written only when both
   * are left 0; every caller gives one column.
   */
  lemma GridCountsAgree(n: nat, cCol: nat, cRow: nat)
    ensures cCol > 0 || cRow > 0 <==> GridCounts(n, cCol, cRow) == GridCountsAsWritten(n, cCol, cRow)
  {
  }

  /**
   * One axis's gap: first fitted to the canvas (`extent`) around the groups
   * (`groups` long), dividing what is left by the count with outer margins
   * or by the count less one without; then 0 for a single line and
   * otherwise clamped into [`GapMin`, `GapMax`].
   */
  function GridGap(count: nat, extent: real, groups: real, outer: bool): real
  {
    var fitted :=
      if outer then (if count <= 1 then 0.0 else (extent - groups) / count as real)
      else (if count <= 2 then 0.0 else (extent - groups) / (count - 1) as real);
    if count <= 1 then 0.0 else Min(Max(GapMin, fitted), GapMax)
  }

  /** A gap is 0 for a single line and otherwise within the clamp range, equal to the fitted gap when that is in range. */
  lemma GridGapClamped(count: nat, extent: real, groups: real, outer: bool)
    ensures count <= 1 ==> GridGap(count, extent, groups, outer) == 0.0
    ensures count > 1 ==> GapMin <= GridGap(count, extent, groups, outer) <= GapMax
    ensures count > 2 && GapMin <= (extent - groups) / (if outer then count else count - 1) as real <= GapMax ==>
      GridGap(count, extent, groups, outer) == (extent - groups) / (if outer then count else count - 1) as real
    ensures GridGap(count, extent, groups, outer) >= 0.0
  {
  }

  /** The length of `count` tables of `size` with their gaps: one gap per table with outer margins, one fewer without. */
  function Extent(count: nat, size: real, gap: real, outer: bool): real
  {
    if outer then count as real * size + count as real * gap
    else count as real * size + Max(0.0, (count as real - 1.0) * gap)
  }

  /** What `Layout` assigns: columns, rows, the two gaps and the two extents. */
  datatype Grid = Grid(cCol: nat, cRow: nat, dXGap: real, dYGap: real, dX: real, dY: real)

  function GridLayout(n: nat, canvas: Box, cCol: nat, cRow: nat, outer: bool): Grid
  {
    var (c, r) := GridCountsAsWritten(n, cCol, cRow);
    var dXGap := GridGap(c, Width(canvas), c as real * GroupWidth, outer);
    var dYGap := GridGap(r, Height(canvas), r as real * GroupHeight, outer);
    Grid(c, r, dXGap, dYGap, Extent(c, GroupWidth, dXGap, outer), Extent(r, GroupHeight, dYGap, outer))
  }

  /** Where `Draw` puts group `i`: row-major, offset by half a gap when there are outer margins. */
  function GroupBox(l: Grid, outer: bool, px: real, py: real, i: nat): Box
    requires l.cCol > 0
  {
    MakeBox(px + LinePos(i % l.cCol, GroupWidth, l.dXGap, outer), py + LinePos(i / l.cCol, GroupHeight, l.dYGap, outer),
            GroupWidth, GroupHeight)
  }

  /** The offset of line `k` from the grid's edge: half a gap with outer margins, then a line and a gap per line before it. */
  function LinePos(k: nat, size: real, gap: real, outer: bool): real
  {
    (if outer then gap / 2.0 else 0.0) + k as real * (size + gap)
  }

  predicate Inside(inner: Box, outer: Box)
  {
    outer.xMin <= inner.xMin && inner.xMax <= outer.xMax && outer.yMin <= inner.yMin && inner.yMax <= outer.yMax
  }

  predicate Disjoint(a: Box, b: Box)
  {
    a.xMax <= b.xMin || b.xMax <= a.xMin || a.yMax <= b.yMin || b.yMax <= a.yMin
  }

  lemma Scale(a: nat, b: nat, s: real)
    requires a <= b && s >= 0.0
    ensures a as real * s <= b as real * s
  {
    assert b as real * s == a as real * s + (b - a) as real * s;
  }

  /** Line `k` of `count` lines of `size` spaced by `gap` ends within the extent. */
  lemma LineInside(k: nat, count: nat, size: real, gap: real, outer: bool)
    requires k < count && size >= 0.0 && gap >= 0.0
    ensures 0.0 <= LinePos(k, size, gap, outer) && LinePos(k, size, gap, outer) + size <= Extent(count, size, gap, outer)
  {
    var t := size + gap;
    var kt, ct := k as real * t, (count - 1) as real * t;
    Scale(0, k, t);
    Scale(k, count - 1, t);
    assert 0.0 <= kt <= ct;
    assert ct == count as real * size + count as real * gap - size - gap by {
      assert (count - 1) as real == count as real - 1.0;
    }
    assert LinePos(k, size, gap, outer) == (if outer then gap / 2.0 else 0.0) + kt;
    if !outer {
      assert (count as real - 1.0) * gap == count as real * gap - gap;
    }
  }

  /** Lines `j < k` are at least a line and a gap apart. */
  lemma LinesApart(j: nat, k: nat, size: real, gap: real, outer: bool)
    requires j < k && size >= 0.0 && gap >= 0.0
    ensures LinePos(j, size, gap, outer) + size <= LinePos(k, size, gap, outer)
  {
    Scale(j + 1, k, size + gap);
  }

  /** A grid whose gaps are not negative and whose extents are those of its lines. */
  predicate WellSpaced(l: Grid, outer: bool)
  {
    l.dXGap >= 0.0 && l.dYGap >= 0.0 &&
    l.dX == Extent(l.cCol, GroupWidth, l.dXGap, outer) && l.dY == Extent(l.cRow, GroupHeight, l.dYGap, outer)
  }

  /** The row of an index below `c * r` is below `r`. */
  lemma RowInRange(i: nat, c: nat, r: nat)
    requires c > 0 && i < c * r
    ensures i / c < r
  {
  }

  /** Different indices differ in column or in row. */
  lemma CellsDiffer(i: nat, j: nat, c: nat)
    requires c > 0 && i != j
    ensures i % c != j % c || i / c != j / c
  {
    assert i == (i / c) * c + i % c && j == (j / c) * c + j % c;
  }

  lemma GroupInside(l: Grid, outer: bool, px: real, py: real, i: nat)
    requires l.cCol > 0 && i < l.cCol * l.cRow && WellSpaced(l, outer)
    ensures Inside(GroupBox(l, outer, px, py, i), MakeBox(px, py, l.dX, l.dY))
  {
    RowInRange(i, l.cCol, l.cRow);
    LineInside(i % l.cCol, l.cCol, GroupWidth, l.dXGap, outer);
    LineInside(i / l.cCol, l.cRow, GroupHeight, l.dYGap, outer);
  }

  lemma GroupsApart(l: Grid, outer: bool, px: real, py: real, i: nat, j: nat)
    requires l.cCol > 0 && i != j && WellSpaced(l, outer)
    ensures Disjoint(GroupBox(l, outer, px, py, i), GroupBox(l, outer, px, py, j))
  {
    var c := l.cCol;
    CellsDiffer(i, j, c);
    if i % c < j % c {
      LinesApart(i % c, j % c, GroupWidth, l.dXGap, outer);
    } else if j % c < i % c {
      LinesApart(j % c, i % c, GroupWidth, l.dXGap, outer);
    } else if i / c < j / c {
      LinesApart(i / c, j / c, GroupHeight, l.dYGap, outer);
    } else {
      LinesApart(j / c, i / c, GroupHeight, l.dYGap, outer);
    }
  }

  /** The layout's gaps are not negative and its extents are those of its lines. */
  lemma GridLayoutWellSpaced(n: nat, canvas: Box, cCol: nat, cRow: nat, outer: bool)
    ensures WellSpaced(GridLayout(n, canvas, cCol, cRow, outer), outer)
  {
    var (c, r) := GridCountsAsWritten(n, cCol, cRow);
    GridGapClamped(c, Width(canvas), c as real * GroupWidth, outer);
    GridGapClamped(r, Height(canvas), r as real * GroupHeight, outer);
  }

  /**
   * When the grid holds every group, `Draw` puts each group inside the
   * grid's extent at the drawing position, and no two groups overlap.
   */
  lemma DrawFits(n: nat, canvas: Box, cCol: nat, cRow: nat, outer: bool, px: real, py: real, i: nat, j: nat)
    requires i < n && j < n && i != j
    requires var l := GridLayout(n, canvas, cCol, cRow, outer); l.cCol * l.cRow >= n
    ensures var l := GridLayout(n, canvas, cCol, cRow, outer);
      l.cCol > 0 &&
      Inside(GroupBox(l, outer, px, py, i), MakeBox(px, py, l.dX, l.dY)) &&
      Disjoint(GroupBox(l, outer, px, py, i), GroupBox(l, outer, px, py, j))
  {
    var l := GridLayout(n, canvas, cCol, cRow, outer);
    assert l.cCol == 0 ==> l.cCol * l.cRow == 0;
    GridLayoutWellSpaced(n, canvas, cCol, cRow, outer);
    GroupInside(l, outer, px, py, i);
    GroupsApart(l, outer, px, py, i, j);
  }

  /** The newer `CGroupSetBlot`: the groups' count is fixed, `Layout` reassigns the rest. */
  class GroupSet {
    const count: nat
    var cCol: nat
    var cRow: nat
    var outer: bool
    var dXGap: real
    var dYGap: real
    var dX: real
    var dY: real

    function Current(): Grid
      reads this
    {
      Grid(cCol, cRow, dXGap, dYGap, dX, dY)
    }

    /** An empty set of groups keeps everything at 0; otherwise it is laid out on the canvas. */
    constructor(n: nat, canvas: Box, cCol: nat, cRow: nat, outer: bool)
      ensures count == n && this.outer == outer
      ensures n == 0 ==> Current() == Grid(0, 0, 0.0, 0.0, 0.0, 0.0)
      ensures n > 0 ==> Current() == GridLayout(n, canvas, cCol, cRow, outer)
    {
      count := n;
      this.cCol, this.cRow, this.outer := 0, 0, outer;
      dXGap, dYGap, dX, dY := 0.0, 0.0, 0.0, 0.0;
      new;
      if n > 0 {
        Layout(canvas, cCol, cRow, outer);
      }
    }

    method Layout(canvas: Box, cCol: nat, cRow: nat, outer: bool)
      modifies this
      ensures this.outer == outer
      ensures Current() == GridLayout(count, canvas, cCol, cRow, outer)
    {
      this.outer := outer;
      var (c, r) := GridCountsAsWritten(count, cCol, cRow);
      this.cCol, this.cRow := c, r;
      dXGap := GridGap(c, Width(canvas), c as real * GroupWidth, outer);
      dYGap := GridGap(r, Height(canvas), r as real * GroupHeight, outer);
      dX := Extent(c, GroupWidth, dXGap, outer);
      dY := Extent(r, GroupHeight, dYGap, outer);
    }

    /** `Draw`: the box of every group, in list order. */
    method Draw(px: real, py: real) returns (boxes: seq<Box>)
      requires count > 0 ==> cCol > 0
      ensures |boxes| == count
      ensures forall i :: 0 <= i < count ==> boxes[i] == GroupBox(Current(), outer, px, py, i)
    {
      var l := Current();
      boxes := [];
      var i := 0;
      while i < count
        invariant i <= count && |boxes| == i
        invariant forall k :: 0 <= k < i ==> boxes[k] == GroupBox(l, outer, px, py, k)
      {
        var row, col := i / cCol, i % cCol;
        var x0 := px + (if outer then dXGap / 2.0 else 0.0);
        var y0 := py + (if outer then dYGap / 2.0 else 0.0);
        var box := MakeBox(x0 + col as real * (GroupWidth + dXGap), y0 + row as real * (GroupHeight + dYGap), GroupWidth, GroupHeight);
        DrawnBox(l, outer, px, py, i);
        boxes := boxes + [box];
        i := i + 1;
      }
    }
  }

  /** The box `Draw` computes for group `i` is its grid cell. */
  lemma DrawnBox(l: Grid, outer: bool, px: real, py: real, i: nat)
    requires l.cCol > 0
    ensures MakeBox(px + (if outer then l.dXGap / 2.0 else 0.0) + (i % l.cCol) as real * (GroupWidth + l.dXGap),
                    py + (if outer then l.dYGap / 2.0 else 0.0) + (i / l.cCol) as real * (GroupHeight + l.dYGap),
                    GroupWidth, GroupHeight) == GroupBox(l, outer, px, py, i)
  {
  }

  /** The older extent: `count` tables and one fixed gap fewer than tables. */
  function LegacyExtent(count: nat, size: real): real
  {
    count as real * size + (count as real - 1.0) * LegacyGap
  }

  /** The older `CGroupSetBlot.__init__`: the same counts, and extents with the fixed gap. */
  function LegacyLayout(n: nat, cCol: nat, cRow: nat): Grid
  {
    var (c, r) := GridCountsAsWritten(n, cCol, cRow);
    Grid(c, r, LegacyGap, LegacyGap, LegacyExtent(c, GroupWidth), LegacyExtent(r, GroupHeight))
  }

  /** The older `Draw`: one column, group `i` a table and a gap below group `i - 1`. */
  function LegacyGroupBox(px: real, py: real, i: nat): Box
  {
    MakeBox(px, py + i as real * (GroupHeight + LegacyGap), GroupWidth, GroupHeight)
  }

  /**
   * In the one-column layout every caller asks for, the older `Draw` puts
   * each group inside the extent, one below the other without overlap.
   */
  lemma {:induction false} LegacyDrawFits(n: nat, px: real, py: real, i: nat, j: nat)
    requires i < j < n
    ensures var l := LegacyLayout(n, 1, 0);
      l.cCol == 1 && l.cRow == n &&
      Inside(LegacyGroupBox(px, py, i), MakeBox(px, py, l.dX, l.dY)) &&
      LegacyGroupBox(px, py, i).yMax + LegacyGap <= LegacyGroupBox(px, py, j).yMin
  {
    assert GridCountsAsWritten(n, 1, 0).1 == n by {
      assert CeilDiv(n, 1) == n;
    }
    Scale(i, n - 1, GroupHeight + LegacyGap);
    assert (n - 1) as real * (GroupHeight + LegacyGap) == n as real * GroupHeight + (n as real - 1.0) * LegacyGap - GroupHeight;
    Scale(i + 1, j, GroupHeight + LegacyGap);
  }
}
