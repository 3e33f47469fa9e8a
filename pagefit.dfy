/**
 * The calendar-and-elimination page (`CCalElimPage`): the groups in one
 * column on either side of a centred stack of calendar, bracket and final,
 * with equal gaps; when the columns are too wide for the paper, the groups
 * slide below the calendar beside the bracket; when even that does not
 * fit, the run stops with a message.
 *
 * The blots' own sizes are inputs; the group columns are laid out by
 * `GroupGrids`.
 */
module Pages {
  import opened Wrappers
  import opened Rects
  import opened GroupGrids

  /** The sizes of the calendar, of the bracket (with the height of its grid's middle) and of the final. */
  datatype Blots = Blots(calX: real, calY: real, bracketX: real, bracketY: real, bracketMid: real, finalX: real, finalY: real)

  /** The arrangement: the group columns' grid, the gaps, and where each blot is drawn. */
  datatype Plan = Plan(
    groups: Grid, narrow: bool, dXGap: real, dYGap: real, dYGapFinal: real,
    xGroupsLeft: real, xGroupsRight: real, yGroups: real,
    xCalendar: real, yCalendar: real, xBracket: real, yBracket: real, xFinal: real, yFinal: real)

  /** One side's groups: a single column with outer margins, or nothing at all for no groups. */
  function SideGrid(n: nat, canvas: Box): Grid
  {
    if n == 0 then Grid(0, 0, 0.0, 0.0, 0.0, 0.0) else GridLayout(n, canvas, 1, 0, true)
  }

  /** The same groups laid out again on a canvas of no height and without outer margins: the tightest column. */
  function TightGrid(n: nat, canvas: Box): Grid
  {
    GridLayout(n, WithHeight(canvas, 0.0), 1, 0, false)
  }

  function Max3(a: real, b: real, c: real): real
  {
    Max(Max(a, b), c)
  }

  /** The width of the side-by-side arrangement: the widest of the stack and both group columns. */
  function WideWidth(b: Blots, g: Grid): real
  {
    Max3(b.calX, b.bracketX, b.finalX) + 2.0 * g.dX
  }

  /** The width with the groups slid below the calendar: the calendar no longer counts. */
  function NarrowWidth(b: Blots, g: Grid): real
  {
    Max(b.bracketX, b.finalX) + 2.0 * g.dX
  }

  /** The height with the groups between calendar and final. */
  function NarrowHeight(b: Blots, g: Grid): real
  {
    b.calY + g.dY + b.finalY
  }

  /** The positions once the gaps and the groups' top are known. */
  function Placed(canvas: Box, b: Blots, g: Grid, narrow: bool, dXGap: real, dYGap: real, dYGapFinal: real, yGroups: real): Plan
  {
    var yCalendar := canvas.yMin + dYGap;
    Plan(g, narrow, dXGap, dYGap, dYGapFinal,
      canvas.xMin + dXGap, canvas.xMax - (g.dX + dXGap), yGroups,
      canvas.xMin + (Width(canvas) - b.calX) / 2.0, yCalendar,
      canvas.xMin + (Width(canvas) - b.bracketX) / 2.0,
      if narrow then yGroups + g.dY / 2.0 - b.bracketMid else yCalendar + b.calY + dYGap,
      canvas.xMin + (Width(canvas) - b.finalX) / 2.0, canvas.yMax - (b.finalY + dYGapFinal))
  }

  /** The four-way vertical gap: above the calendar, between the three blots, and below the final. */
  function StackGap(canvas: Box, b: Blots): real
  {
    (Height(canvas) - (b.calY + b.bracketY + b.finalY)) / 4.0
  }

  /**
   * The page's arrangement for `nGroups` groups, half on each side (an odd
   * count fails the code's assertion):
   *  - the vertical gap is a quarter of the height left by the stack; when
   *    that is negative, the final gives up its gap and the gap is a third
   *    of what calendar and bracket leave, but never negative;
   *  - the horizontal gap is a quarter of the width left by the widest of
   *    the stack and the two columns;
   *  - when that is negative, the groups go below the calendar: the width
   *    left ignores the calendar, the height left counts the calendar, the
   *    groups and the final, and if that height is short the groups are
   *    laid out again as tightly as possible and the final loses its gap;
   *    the page then fails when width or height is still short, and
   *    otherwise the gaps are a quarter of that width and a third of that
   *    height.
   */
  function CalElimPlan(canvas: Box, nGroups: nat, b: Blots): (r: Result<Plan>)
  {
    if nGroups % 2 != 0 then Err("AssertionError: the groups do not split in two")
    else
      var g := SideGrid(nGroups / 2, canvas);
      var gap4 := StackGap(canvas, b);
      var dYGap := if gap4 < 0.0 then Max(0.0, (Height(canvas) - (b.calY + b.bracketY)) / 3.0) else gap4;
      var dYGapFinal := if gap4 < 0.0 then 0.0 else gap4;
      var dXGap := (Width(canvas) - WideWidth(b, g)) / 4.0;
      if dXGap >= 0.0 then
        Ok(Placed(canvas, b, g, false, dXGap, dYGap, dYGapFinal, canvas.yMin + (Height(canvas) - g.dY) / 2.0))
      else
        var dXUnused := Width(canvas) - NarrowWidth(b, g);
        var retry := Height(canvas) - NarrowHeight(b, g) < 0.0;
        var g' := if retry then TightGrid(nGroups / 2, canvas) else g;
        var dYUnused := Height(canvas) - NarrowHeight(b, g');
        if dXUnused < 0.0 && dYUnused < 0.0 then Err("groups don't fit")
        else if dXUnused < 0.0 then Err("groups too wide")
        else if dYUnused < 0.0 then Err("groups too tall")
        else
          var dYGap' := dYUnused / 3.0;
          Ok(Placed(canvas, b, g', true, dXUnused / 4.0, dYGap', if retry then 0.0 else dYGapFinal,
            canvas.yMin + b.calY + 2.0 * dYGap'))
  }

  lemma ScaleGap(k: nat, s: real, t: real)
    requires s <= t
    ensures k as real * s <= k as real * t
  {
    assert k as real * t == k as real * s + k as real * (t - s);
  }

  /** The tight column is one column of all the groups, and never taller than the column with margins. */
  lemma TightNoTaller(n: nat, canvas: Box)
    ensures TightGrid(n, canvas).cCol == 1 && TightGrid(n, canvas).cRow == n
    ensures 0.0 <= TightGrid(n, canvas).dY <= SideGrid(n, canvas).dY
  {
    var dYGroups := n as real * GroupHeight;
    var gap := GridGap(n, Height(canvas), dYGroups, true);
    var tight := GridGap(n, 0.0, dYGroups, false);
    assert TightGrid(n, canvas).cCol == 1 && TightGrid(n, canvas).cRow == n
        && TightGrid(n, canvas).dY == Extent(n, GroupHeight, tight, false) by {
      assert GridCountsAsWritten(n, 1, 0) == (1, n);
      assert Height(WithHeight(canvas, 0.0)) == 0.0;
    }
    assert SideGrid(n, canvas).dY == Extent(n, GroupHeight, gap, true) by {
      assert GridCountsAsWritten(n, 1, 0) == (1, n);
    }
    assert 0.0 <= tight <= gap by {
      GridGapClamped(n, Height(canvas), dYGroups, true);
      TightGapIsLeast(n);
    }
    ExtentTightBelow(n, GroupHeight, tight, gap);
  }

  /** With no height to share, the gap between lines is the least one. */
  lemma TightGapIsLeast(n: nat)
    ensures GridGap(n, 0.0, n as real * GroupHeight, false) == if n <= 1 then 0.0 else GapMin
  {
    if n > 2 {
      var fitted := (0.0 - n as real * GroupHeight) / (n - 1) as real;
      assert fitted <= 0.0;
    }
  }

  /** The lines of a column without outer margins and a smaller gap never take more room. */
  lemma ExtentTightBelow(n: nat, size: real, tight: real, gap: real)
    requires size >= 0.0 && 0.0 <= tight <= gap
    ensures 0.0 <= Extent(n, size, tight, false) <= Extent(n, size, gap, true)
  {
    if n > 0 {
      ScaleGap(n - 1, tight, gap);
      Scale(n - 1, n, gap);
      assert (n as real - 1.0) * tight == (n - 1) as real * tight;
    }
  }

  /** Laid out again, a column of groups keeps its width (one table wide); a column of no groups becomes one table wide. */
  lemma TightSameWidth(n: nat, canvas: Box)
    ensures TightGrid(n, canvas).dX == GroupWidth
    ensures SideGrid(n, canvas).dX == if n == 0 then 0.0 else GroupWidth
  {
    assert GridCountsAsWritten(n, 1, 0) == (1, n);
  }

  /** The width and height that decide failure, for the groups of one side. */
  predicate SideBySideFits(canvas: Box, nGroups: nat, b: Blots)
  {
    WideWidth(b, SideGrid(nGroups / 2, canvas)) <= Width(canvas)
  }

  predicate TooWide(canvas: Box, nGroups: nat, b: Blots)
  {
    Width(canvas) < NarrowWidth(b, SideGrid(nGroups / 2, canvas))
  }

  predicate TooTall(canvas: Box, nGroups: nat, b: Blots)
  {
    Height(canvas) < NarrowHeight(b, TightGrid(nGroups / 2, canvas))
  }

  /**
   * The page fails exactly when the groups do not split in two, or when the
   * side-by-side arrangement is too wide and even the narrow one with the
   * tightest group columns is too wide or too tall; the message says which.
   */
  lemma CalElimFailures(canvas: Box, nGroups: nat, b: Blots)
    ensures var r := CalElimPlan(canvas, nGroups, b);
      r.Err? <==> nGroups % 2 != 0 || (!SideBySideFits(canvas, nGroups, b) && (TooWide(canvas, nGroups, b) || TooTall(canvas, nGroups, b)))
    ensures var r := CalElimPlan(canvas, nGroups, b);
      nGroups % 2 == 0 && r.Err? ==>
        && (r.msg == "groups don't fit" <==> TooWide(canvas, nGroups, b) && TooTall(canvas, nGroups, b))
        && (r.msg == "groups too wide" <==> TooWide(canvas, nGroups, b) && !TooTall(canvas, nGroups, b))
        && (r.msg == "groups too tall" <==> !TooWide(canvas, nGroups, b) && TooTall(canvas, nGroups, b))
  {
    TightNoTaller(nGroups / 2, canvas);
  }

  /**
   * On a page that fits, no gap is negative; the final loses its gap
   * whenever the stack is too tall for four gaps, and side by side with
   * four gaps it keeps the same gap as the others.
   */
  lemma CalElimGaps(canvas: Box, nGroups: nat, b: Blots)
    ensures var r := CalElimPlan(canvas, nGroups, b);
      r.Ok? ==> r.value.dXGap >= 0.0 && r.value.dYGap >= 0.0 && r.value.dYGapFinal >= 0.0
    ensures var r := CalElimPlan(canvas, nGroups, b);
      r.Ok? && StackGap(canvas, b) < 0.0 ==> r.value.dYGapFinal == 0.0
    ensures var r := CalElimPlan(canvas, nGroups, b);
      r.Ok? && !r.value.narrow && StackGap(canvas, b) >= 0.0 ==> r.value.dYGapFinal == r.value.dYGap
    ensures var r := CalElimPlan(canvas, nGroups, b);
      r.Ok? ==> (r.value.narrow <==> !SideBySideFits(canvas, nGroups, b))
  {
  }

  /**
   * Side by side: each group column is one gap in from the paper's edge
   * and at least one gap away from every blot of the centred stack, the
   * columns are centred vertically, and with four gaps the stack is spaced
   * evenly from top to bottom; with three, calendar and bracket are, and
   * the final sits on the bottom edge.
   */
  lemma SideBySideArrangement(canvas: Box, nGroups: nat, b: Blots)
    requires var r := CalElimPlan(canvas, nGroups, b); r.Ok? && !r.value.narrow
    ensures var p := CalElimPlan(canvas, nGroups, b).value;
      && p.xGroupsLeft == canvas.xMin + p.dXGap
      && p.xGroupsRight + p.groups.dX + p.dXGap == canvas.xMax
      && p.xGroupsLeft + p.groups.dX + p.dXGap <= p.xCalendar
      && p.xGroupsLeft + p.groups.dX + p.dXGap <= p.xBracket
      && p.xGroupsLeft + p.groups.dX + p.dXGap <= p.xFinal
      && p.xCalendar + b.calX + p.dXGap <= p.xGroupsRight
      && p.xBracket + b.bracketX + p.dXGap <= p.xGroupsRight
      && p.xFinal + b.finalX + p.dXGap <= p.xGroupsRight
      && p.yGroups - canvas.yMin == canvas.yMax - (p.yGroups + p.groups.dY)
      && p.yCalendar == canvas.yMin + p.dYGap
      && p.yBracket == p.yCalendar + b.calY + p.dYGap
    ensures var p := CalElimPlan(canvas, nGroups, b).value;
      StackGap(canvas, b) >= 0.0 ==> p.yBracket + b.bracketY + p.dYGap == p.yFinal && p.yFinal + b.finalY + p.dYGap == canvas.yMax
    ensures var p := CalElimPlan(canvas, nGroups, b).value;
      StackGap(canvas, b) < 0.0 ==> (p.yFinal + b.finalY == canvas.yMax &&
        (b.calY + b.bracketY <= Height(canvas) ==> p.yBracket + b.bracketY + p.dYGap == canvas.yMax))
  {
    var g := SideGrid(nGroups / 2, canvas);
    var m := Max3(b.calX, b.bracketX, b.finalX);
    assert b.calX <= m && b.bracketX <= m && b.finalX <= m;
  }

  /**
   * Groups below the calendar: the calendar is one gap from the top and
   * one gap above the group columns, the columns end one gap above the
   * final's band at the bottom, the bracket's middle is level with the
   * columns' middle, and horizontally the columns stay a gap clear of the
   * bracket and of the final.
   */
  lemma NarrowArrangement(canvas: Box, nGroups: nat, b: Blots)
    requires var r := CalElimPlan(canvas, nGroups, b); r.Ok? && r.value.narrow
    ensures var p := CalElimPlan(canvas, nGroups, b).value;
      && p.yCalendar == canvas.yMin + p.dYGap
      && p.yCalendar + b.calY + p.dYGap == p.yGroups
      && p.yGroups + p.groups.dY + p.dYGap + b.finalY == canvas.yMax
      && p.yFinal + b.finalY <= canvas.yMax
      && p.yBracket + b.bracketMid == p.yGroups + p.groups.dY / 2.0
      && p.xGroupsLeft == canvas.xMin + p.dXGap
      && p.xGroupsLeft + p.groups.dX + p.dXGap <= p.xBracket
      && p.xGroupsLeft + p.groups.dX + p.dXGap <= p.xFinal
      && p.xBracket + b.bracketX + p.dXGap <= p.xGroupsRight
      && p.xFinal + b.finalX + p.dXGap <= p.xGroupsRight
  {
    TightNoTaller(nGroups / 2, canvas);
    var m := Max(b.bracketX, b.finalX);
    assert b.bracketX <= m && b.finalX <= m;
  }

  /**
   * `CCalElimPage`'s layout with the group columns as objects: both are
   * built one column wide on the canvas, and when the narrow arrangement
   * is too tall both are laid out again, tight, on a copy of the canvas
   * with no height.
   */
  method CalElimPage(canvas: Box, nGroups: nat, b: Blots) returns (r: Result<Plan>)
    ensures r == CalElimPlan(canvas, nGroups, b)
  {
    if nGroups % 2 != 0 {
      return Err("AssertionError: the groups do not split in two");
    }
    var half := nGroups / 2;
    var left := new GroupSet(half, canvas, 1, 0, true);
    var right := new GroupSet(half, canvas, 1, 0, true);
    assert left.Current() == right.Current() == SideGrid(half, canvas);

    var dYUnused := Height(canvas) - (b.calY + b.bracketY + b.finalY);
    var dYGap := dYUnused / 4.0;
    var dYGapFinal;
    if dYGap < 0.0 {
      dYUnused := Height(canvas) - (b.calY + b.bracketY);
      dYGap := Max(0.0, dYUnused / 3.0);
      dYGapFinal := 0.0;
    } else {
      dYGapFinal := dYGap;
    }

    var dXColumns := Max3(b.calX, b.bracketX, b.finalX) + left.dX + right.dX;
    var dXUnused := Width(canvas) - dXColumns;
    var dXGap := dXUnused / 4.0;
    var narrow := dXGap < 0.0;
    var yGroups;
    if narrow {
      dXColumns := Max(b.bracketX, b.finalX) + left.dX + right.dX;
      dXUnused := Width(canvas) - dXColumns;
      dYUnused := Height(canvas) - (b.calY + left.dY + b.finalY);
      if dYUnused < 0.0 {
        var tight := WithHeight(canvas, 0.0);
        left.Layout(tight, 1, 0, false);
        right.Layout(tight, 1, 0, false);
        dYUnused := Height(canvas) - (b.calY + left.dY + b.finalY);
        dYGapFinal := 0.0;
      }
      if dXUnused < 0.0 && dYUnused < 0.0 {
        return Err("groups don't fit");
      }
      if dXUnused < 0.0 {
        return Err("groups too wide");
      }
      if dYUnused < 0.0 {
        return Err("groups too tall");
      }
      dXGap := dXUnused / 4.0;
      dYGap := dYUnused / 3.0;
      yGroups := canvas.yMin + b.calY + 2.0 * dYGap;
    } else {
      yGroups := canvas.yMin + (Height(canvas) - left.dY) / 2.0;
    }
    r := Ok(Placed(canvas, b, left.Current(), narrow, dXGap, dYGap, dYGapFinal, yGroups));
  }

  /**
   * The older `CCalElimPage`: the left column, the calendar and the right
   * column side by side with four equal horizontal gaps, and calendar,
   * bracket and final stacked with four equal vertical gaps; the columns
   * use the older fixed-gap layout, and no gap is checked for sign.
   */
  function LegacyCalElimPlan(canvas: Box, nGroups: nat, b: Blots): (r: Result<Plan>)
  {
    if nGroups % 2 != 0 then Err("AssertionError: the groups do not split in two")
    else
      var g := LegacyLayout(nGroups / 2, 1, 0);
      var dXGap := (Width(canvas) - (b.calX + 2.0 * g.dX)) / 4.0;
      var dYGap := StackGap(canvas, b);
      var xLeft := canvas.xMin + dXGap;
      var xCalendar := xLeft + g.dX + dXGap;
      var yCalendar := canvas.yMin + dYGap;
      var yBracket := yCalendar + b.calY + dYGap;
      Ok(Plan(g, false, dXGap, dYGap, dYGap,
        xLeft, xCalendar + b.calX + dXGap, canvas.yMin + (Height(canvas) - g.dY) / 2.0,
        xCalendar, yCalendar, canvas.xMin + (Width(canvas) - b.bracketX) / 2.0, yBracket,
        canvas.xMin + (Width(canvas) - b.finalX) / 2.0, yBracket + b.bracketY + dYGap))
  }

  /**
   * The older page fails only on an odd group count; otherwise its two
   * columns are one table wide and half the groups tall, and the row of
   * column, calendar and column, with its four gaps, spans the paper's
   * width exactly, as the stack with its four gaps spans the height; the
   * columns are centred vertically and bracket and final horizontally.
   */
  lemma LegacyArrangement(canvas: Box, nGroups: nat, b: Blots)
    ensures LegacyCalElimPlan(canvas, nGroups, b).Err? <==> nGroups % 2 != 0
    ensures var r := LegacyCalElimPlan(canvas, nGroups, b);
      r.Ok? ==> var p := r.value;
        && p.groups.cCol == 1 && p.groups.cRow == nGroups / 2 && p.groups.dX == GroupWidth
        && p.xGroupsLeft - canvas.xMin == p.xCalendar - (p.xGroupsLeft + p.groups.dX) == p.dXGap
        && p.xGroupsRight - (p.xCalendar + b.calX) == canvas.xMax - (p.xGroupsRight + p.groups.dX) == p.dXGap
        && p.yCalendar - canvas.yMin == p.yBracket - (p.yCalendar + b.calY) == p.dYGap
        && p.yFinal - (p.yBracket + b.bracketY) == canvas.yMax - (p.yFinal + b.finalY) == p.dYGap
        && p.yGroups - canvas.yMin == canvas.yMax - (p.yGroups + p.groups.dY)
        && p.xBracket - canvas.xMin == canvas.xMax - (p.xBracket + b.bracketX)
        && p.xFinal - canvas.xMin == canvas.xMax - (p.xFinal + b.finalX)
  {
    GridCountsAsWrittenHold(nGroups / 2, 1, 0);
    assert CeilDiv(nGroups / 2, 1) == nGroups / 2;
  }

  /**
   * Where the newer page keeps the groups beside the stack and the stack
   * has room for four gaps, it places calendar, bracket and final at the
   * same heights as the older page.
   */
  lemma LegacyStackAgrees(canvas: Box, nGroups: nat, b: Blots)
    requires nGroups % 2 == 0 && StackGap(canvas, b) >= 0.0 && SideBySideFits(canvas, nGroups, b)
    ensures CalElimPlan(canvas, nGroups, b).Ok? && LegacyCalElimPlan(canvas, nGroups, b).Ok?
    ensures var p, q := CalElimPlan(canvas, nGroups, b).value, LegacyCalElimPlan(canvas, nGroups, b).value;
      p.dYGap == q.dYGap && p.yCalendar == q.yCalendar && p.yBracket == q.yBracket && p.yFinal == q.yFinal
  {
  }
}
