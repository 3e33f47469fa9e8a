/**
 * The month-style calendar of days (`CCalendarBlot`): the span of dates
 * widened to whole weeks starting on the locale's first weekday, the size
 * of the calendar, and the position of every day cell, mirrored for
 * right-to-left locales.
 *
 * A date is a day number; day 0 is a Monday, so `d % 7` is Python's
 * `date.weekday()` (Monday 0 to Sunday 6).
 */
module Calendars {
  import opened Wrappers
  import opened Days

  function Weekday(d: int): (w: int)
    ensures 0 <= w < 7
  {
    d % 7
  }

  /** arrow's `shift(weekday=w)`: forward to the next day that is a `w`, staying on a day that already is. */
  function ShiftToWeekday(d: int, w: int): (r: int)
    requires 0 <= w < 7
    ensures d <= r < d + 7 && Weekday(r) == w
  {
    d + (w - Weekday(d)) % 7
  }

  /** The first day shown: `dateMin`, or the day a week back then forward to the first weekday. */
  function WeekStart(d: int, first: int): int
    requires 0 <= first < 7
  {
    if Weekday(d) != first then ShiftToWeekday(d - 7, first) else d
  }

  /** The last day shown: `dateMax` forward to the last weekday. */
  function WeekEnd(d: int, first: int): int
    requires 0 <= first < 7
  {
    var last := (first + 6) % 7;
    if Weekday(d) != last then ShiftToWeekday(d, last) else d
  }

  /** The first day shown is the latest day on or before `d` that is a `first`. */
  lemma WeekStartLatest(d: int, first: int)
    requires 0 <= first < 7
    ensures var s := WeekStart(d, first); s <= d < s + 7 && Weekday(s) == first
  {
  }

  /** The last day shown is the earliest day on or after `d` that ends a week. */
  lemma WeekEndEarliest(d: int, first: int)
    requires 0 <= first < 7
    ensures var e := WeekEnd(d, first); d <= e < d + 7 && Weekday(e) == (first + 6) % 7
  {
  }

  function MinOf(s: seq<int>): (m: int)
    requires |s| > 0
    ensures m in s && forall i :: 0 <= i < |s| ==> m <= s[i]
  {
    if |s| == 1 then s[0] else if s[0] <= MinOf(s[1..]) then s[0] else MinOf(s[1..])
  }

  /** The days shown: the first, and how many weeks. */
  datatype Span = Span(first: int, weeks: nat)

  /**
   * The span of `CCalendarBlot.__init__` for the display dates of its
   * matches: `min` of no dates raises `ValueError`; otherwise the dates are
   * widened to whole weeks and `cDay // 7` weeks are shown (the code
   * asserts that `cDay` is a multiple of 7).
   */
  function CalendarSpan(dates: seq<int>, first: int): (r: Result<Span>)
    requires 0 <= first < 7
  {
    if |dates| == 0 then Err("ValueError: min() arg is an empty sequence")
    else
      var lo, hi := WeekStart(MinOf(dates), first), WeekEnd(MaxOf(dates), first);
      var cDay := hi - lo + 1;
      if cDay % 7 != 0 || cDay < 0 then Err("AssertionError: days are not whole weeks")
      else Ok(Span(lo, cDay / 7))
  }

  /**
   * The assertion in the code always holds: the span is whole weeks, starts
   * on the first weekday, holds every date, and starts less than a week
   * before the earliest date and ends less than a week after the latest.
   */
  lemma CalendarSpanCovers(dates: seq<int>, first: int)
    requires 0 <= first < 7 && |dates| > 0
    ensures var r := CalendarSpan(dates, first);
      && r.Ok? && Weekday(r.value.first) == first && r.value.weeks > 0
      && (forall i :: 0 <= i < |dates| ==> r.value.first <= dates[i] < r.value.first + 7 * r.value.weeks)
      && MinOf(dates) - 7 < r.value.first
      && r.value.first + 7 * r.value.weeks - 1 < MaxOf(dates) + 7
  {
    var lo, weeks := SpanBounds(dates, first);
    SpanHolds(dates, lo, lo + 7 * weeks - 1, weeks);
  }

  /** The span's first day and its weeks, with what the week boundaries say about them. */
  lemma SpanBounds(dates: seq<int>, first: int) returns (lo: int, weeks: nat)
    requires 0 <= first < 7 && |dates| > 0
    ensures CalendarSpan(dates, first) == Ok(Span(lo, weeks))
    ensures lo <= MinOf(dates) < lo + 7 && Weekday(lo) == first
    ensures MaxOf(dates) <= lo + 7 * weeks - 1 < MaxOf(dates) + 7
  {
    lo := WeekStart(MinOf(dates), first);
    var hi := WeekEnd(MaxOf(dates), first);
    WeekStartLatest(MinOf(dates), first);
    WeekEndEarliest(MaxOf(dates), first);
    WholeWeeks(lo, hi, first);
    weeks := (hi - lo + 1) / 7;
  }

  /** Days from `lo` to `hi`, whole weeks of them, hold every date between the least and the greatest. */
  lemma SpanHolds(dates: seq<int>, lo: int, hi: int, weeks: nat)
    requires |dates| > 0 && lo <= MinOf(dates) && MaxOf(dates) <= hi && 7 * weeks == hi - lo + 1
    ensures forall i :: 0 <= i < |dates| ==> lo <= dates[i] < lo + 7 * weeks
  {
  }

  /** From a `first` to a day before one, inclusive, is a whole number of weeks. */
  lemma WholeWeeks(lo: int, hi: int, first: int)
    requires 0 <= first < 7 && lo % 7 == first && hi % 7 == (first + 6) % 7
    ensures (hi - lo + 1) % 7 == 0 && 7 * ((hi - lo + 1) / 7) == hi - lo + 1
  {
    var q, p := lo / 7, hi / 7;
    assert lo == 7 * q + first;
    if first == 0 {
      assert hi == 7 * p + 6;
      assert hi - lo + 1 == 7 * (p - q + 1);
    } else {
      assert hi == 7 * p + first - 1;
      assert hi - lo + 1 == 7 * (p - q);
    }
  }

  /** The column of day `i` of the span: its place in the week, mirrored right to left. */
  function Column(i: nat, leftToRight: bool): (c: nat)
    ensures c < 7
  {
    if leftToRight then i % 7 else 6 - i % 7
  }

  /** Each day has its own cell; the column shows the same weekday in every week. */
  lemma CellsDistinct(i: nat, j: nat, leftToRight: bool)
    requires i != j
    ensures Column(i, leftToRight) != Column(j, leftToRight) || i / 7 != j / 7
  {
  }

  /** The day in column `c` of the span is weekday `first + c` left to right, `first + 6 - c` right to left. */
  lemma ColumnWeekday(s: Span, i: nat, leftToRight: bool)
    requires 0 <= Weekday(s.first) < 7
    ensures Weekday(s.first + i) ==
      (Weekday(s.first) + (if leftToRight then Column(i, leftToRight) else 6 - Column(i, leftToRight))) % 7
  {
  }

  /** `s_dYDayOfWeek`, `s_dYFontStage` and `s_dYStageLabel`. */
  const DayOfWeekHeight: real := DateHeight * 2.0
  const StageLabelHeight: real := FontTime * 2.0

  /** The newer size: seven cells wide; the stage label, the day names, and a row of cells per week. */
  function CalendarSize(weeks: nat, dayWidth: real, dayHeight: real): (real, real)
  {
    (7.0 * dayWidth, StageLabelHeight + DayOfWeekHeight + weeks as real * dayHeight)
  }

  /** The older size: fixed square cells and no stage label. */
  function LegacyCalendarSize(weeks: nat): (real, real)
  {
    (7.0 * DayMin, DayOfWeekHeight + weeks as real * DayMin)
  }

  /** The distance from the first line to line `k` of lines `size` apart. */
  function Offset(k: nat, size: real): real
  {
    k as real * size
  }

  /** The offset of day `i`'s cell from the left of the days, and from their top. */
  function CellX(i: nat, leftToRight: bool, dayWidth: real): real
  {
    Offset(Column(i, leftToRight), dayWidth)
  }

  function CellY(i: nat, dayHeight: real): real
  {
    Offset(i / 7, dayHeight)
  }

  /**
   * The position loop of `CCalendarBlot.__init__`: one offset per day of
   * the span, in date order.
   */
  method CellOffsets(s: Span, leftToRight: bool, dayWidth: real, dayHeight: real) returns (offsets: seq<(real, real)>)
    ensures |offsets| == 7 * s.weeks
    ensures forall i :: 0 <= i < |offsets| ==> offsets[i] == (CellX(i, leftToRight, dayWidth), CellY(i, dayHeight))
  {
    offsets := [];
    var i := 0;
    while i < 7 * s.weeks
      invariant i <= 7 * s.weeks && |offsets| == i
      invariant forall k :: 0 <= k < i ==> offsets[k] == (CellX(k, leftToRight, dayWidth), CellY(k, dayHeight))
    {
      var weekday: nat := i % 7;
      if !leftToRight {
        weekday := 6 - weekday;
      }
      offsets := offsets + [(Offset(weekday, dayWidth), Offset(i / 7, dayHeight))];
      i := i + 1;
    }
  }

  /** Line `k` of `n` starts after the first and ends by the end of line `n - 1`. */
  lemma LineWithin(k: nat, n: nat, size: real)
    requires k < n && size >= 0.0
    ensures 0.0 <= Offset(k, size) && Offset(k, size) + size <= Offset(n, size)
  {
    assert Offset(n, size) == Offset(k, size) + (n - k) as real * size;
    assert (n - k) as real * size >= size;
  }

  /** Line `j` ends by the start of a later line `k`. */
  lemma LinesApart(j: nat, k: nat, size: real)
    requires j < k && size >= 0.0
    ensures Offset(j, size) + size <= Offset(k, size)
  {
    LineWithin(j, k, size);
  }

  /** Every day's cell lies inside the calendar, below its stage label and day names. */
  lemma CellInside(s: Span, i: nat, leftToRight: bool, dayWidth: real, dayHeight: real)
    requires i < 7 * s.weeks && dayWidth >= 0.0 && dayHeight >= 0.0
    ensures 0.0 <= CellX(i, leftToRight, dayWidth) && CellX(i, leftToRight, dayWidth) + dayWidth <= CalendarSize(s.weeks, dayWidth, dayHeight).0
    ensures 0.0 <= CellY(i, dayHeight) &&
      StageLabelHeight + DayOfWeekHeight + CellY(i, dayHeight) + dayHeight <= CalendarSize(s.weeks, dayWidth, dayHeight).1
  {
    LineWithin(Column(i, leftToRight), 7, dayWidth);
    LineWithin(i / 7, s.weeks, dayHeight);
  }

  /** Two days' cells do not overlap. */
  lemma CellsApart(i: nat, j: nat, leftToRight: bool, dayWidth: real, dayHeight: real)
    requires i != j && dayWidth >= 0.0 && dayHeight >= 0.0
    ensures var x, y, x', y' := CellX(i, leftToRight, dayWidth), CellY(i, dayHeight), CellX(j, leftToRight, dayWidth), CellY(j, dayHeight);
      x + dayWidth <= x' || x' + dayWidth <= x || y + dayHeight <= y' || y' + dayHeight <= y
  {
    CellsDistinct(i, j, leftToRight);
    var c, c' := Column(i, leftToRight), Column(j, leftToRight);
    if c < c' {
      LinesApart(c, c', dayWidth);
    } else if c' < c {
      LinesApart(c', c, dayWidth);
    } else if i / 7 < j / 7 {
      LinesApart(i / 7, j / 7, dayHeight);
    } else {
      LinesApart(j / 7, i / 7, dayHeight);
    }
  }
}
