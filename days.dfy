/**
 * Day cells of the calendar (`CDayBlot`, `CMatchBlot`, `CDayBlotList`):
 * the cell size chosen from the busiest day, the split of a match's slot
 * into its gaps, the slots stacked below the date line, and the coalescing
 * of adjacent matches that start at the same time into one time line.
 *
 * The cap height of the time font comes from font metrics and is an input
 * (`timeHeight`).
 */
module Days {
  import opened Wrappers
  import opened Rects

  /** `CDayBlot.s_dXMin`; the cell is square at its smallest. */
  const DayMin: real := 2.25
  const LineOuter: real := 0.02
  const DateHeight: real := DayMin * 0.06
  const FontTime: real := DayMin * 0.075
  const TimeGapMax: real := FontTime / 2.0
  const Score: real := DayMin * 0.147
  const Pens: real := Score / 2.0
  const PensNudge: real := 0.02
  const FontLabel: real := FontTime * 1.3

  /** `CElimBlot.s_dX` and `s_dY`: a bracket cell is half a day high plus two time gaps. */
  const ElimWidth: real := DayMin
  const ElimHeight: real := DayMin / 2.0 + TimeGapMax * 2.0

  // ---- the cell size -------------------------------------------------------

  /** The greatest of some numbers: one of them, and none is above it. */
  function MaxOf(s: seq<int>): (m: int)
    requires |s| > 0
    ensures m in s && forall i :: 0 <= i < |s| ==> s[i] <= m
  {
    if |s| == 1 then s[0] else if s[0] >= MaxOf(s[1..]) then s[0] else MaxOf(s[1..])
  }

  /** The cell size for a busiest day of `m` matches. */
  function Tier(m: nat): (real, real)
  {
    if m >= 5 then (DayMin * 1.1, DayMin * 1.3)
    else if m <= 2 then (DayMin, DayMin * 0.6)
    else (DayMin, DayMin)
  }

  /**
   * `CDayBlotList`: the size of every day cell, from the largest number of
   * matches on one day (`max` of an empty list raises `ValueError`).
   */
  function DaySize(counts: seq<nat>): (r: Result<(real, real)>)
    ensures r.Ok? <==> |counts| > 0
    ensures r.Ok? ==> r.value == Tier(MaxOf(counts))
  {
    if |counts| == 0 then Err("ValueError: max() arg is an empty sequence")
    else Ok(Tier(MaxOf(counts)))
  }

  /**
   * A busier busiest day never gets a smaller cell; a day of five or more
   * matches gets a wider and taller cell, and one of two or fewer a shorter
   * one, than the square cell between.
   */
  lemma DaySizeMonotone(counts: seq<nat>, counts': seq<nat>)
    requires |counts| > 0 && |counts'| > 0
    requires forall i :: 0 <= i < |counts| ==> counts[i] <= MaxOf(counts')
    ensures DaySize(counts).value.0 <= DaySize(counts').value.0
    ensures DaySize(counts).value.1 <= DaySize(counts').value.1
    ensures MaxOf(counts) >= 5 ==> DaySize(counts).value.0 > DayMin && DaySize(counts).value.1 > DayMin
    ensures MaxOf(counts) <= 2 ==> DaySize(counts).value.0 == DayMin && DaySize(counts).value.1 < DayMin
  {
  }

  // ---- a match's slot ------------------------------------------------------

  /** `dYInfo`: the time and the score, plus the label and half the penalties for an elimination match without results. */
  function InfoHeight(timeHeight: real, elimination: bool, results: bool): real
  {
    timeHeight + Score + (if elimination && !results then FontLabel + Pens / 2.0 - PensNudge else 0.0)
  }

  /** The gaps of a slot `slotHeight` high: the outer gap and the time line with its gap. */
  datatype Gaps = Gaps(outer: real, timeAndGap: real)

  function SlotGaps(slotHeight: real, timeHeight: real, elimination: bool, results: bool): Gaps
  {
    var gaps := slotHeight - InfoHeight(timeHeight, elimination, results);
    var timeGap := if TimeGapMax <= gaps / 3.0 then TimeGapMax else gaps / 3.0;
    Gaps((gaps - timeGap) / 2.0, timeHeight + timeGap)
  }

  /**
   * The two outer gaps, the time gap and the information fill the slot
   * exactly; the time gap is at most `TimeGapMax`, and when there is room
   * it is no larger than an outer gap; in a tight slot the three gaps are
   * equal.
   */
  lemma SlotGapsFill(slotHeight: real, timeHeight: real, elimination: bool, results: bool)
    ensures var g, info := SlotGaps(slotHeight, timeHeight, elimination, results), InfoHeight(timeHeight, elimination, results);
      && 2.0 * g.outer + (g.timeAndGap - timeHeight) + info == slotHeight
      && g.timeAndGap - timeHeight <= TimeGapMax
      && (slotHeight >= info ==> 0.0 <= g.timeAndGap - timeHeight <= g.outer)
      && ((slotHeight - info) / 3.0 <= TimeGapMax ==> g.outer == g.timeAndGap - timeHeight == (slotHeight - info) / 3.0)
  {
  }

  // ---- the slots of a day --------------------------------------------------

  /** A match's slot: its rectangle, its gaps, and what coalescing looks at. */
  datatype Slot = Slot(rect: Box, outer: real, timeAndGap: real, start: int, hasResults: bool)

  /** One match of a day, in the day's order (by start, then home seed). */
  datatype DayMatch = DayMatch(start: int, elimination: bool, hasResults: bool)

  /** The area below the date line, inside the border's line. */
  function MatchArea(border: Box): (r: Box)
    ensures r.xMin == border.xMin + LineOuter / 2.0 && r.xMax == border.xMax - LineOuter / 2.0
    ensures r.yMin == border.yMin + LineOuter / 2.0 + DateHeight && r.yMax == border.yMax - LineOuter / 2.0
  {
    Stretched(InsetBy(border, LineOuter / 2.0), 0.0, DateHeight, 0.0, 0.0)
  }

  /** Slot `i` of `n` equal slots stacked down `area`. */
  function SlotBox(area: Box, n: nat, i: nat): Box
    requires n > 0
  {
    MakeBox(area.xMin, area.yMin + i as real * (Height(area) / n as real), Width(area), Height(area) / n as real)
  }

  predicate Contiguous(s: seq<Slot>)
  {
    forall i :: 0 <= i < |s| - 1 ==> s[i].rect.yMax == s[i + 1].rect.yMin
  }

  /** The slots stack without gap or overlap from the top of `area` to its bottom. */
  lemma SlotsTile(area: Box, n: nat, i: nat)
    requires 0 < n && i < n
    ensures i == 0 ==> SlotBox(area, n, i).yMin == area.yMin
    ensures i + 1 < n ==> SlotBox(area, n, i).yMax == SlotBox(area, n, i + 1).yMin
    ensures i + 1 == n ==> SlotBox(area, n, i).yMax == area.yMax
    ensures SlotBox(area, n, i).xMin == area.xMin && SlotBox(area, n, i).xMax == area.xMax
  {
    var h := Height(area) / n as real;
    assert (i + 1) as real * h == i as real * h + h;
    if i + 1 == n {
      assert n as real * h == Height(area);
    }
  }

  /**
   * The part of `CDayBlot.Draw` that lays out the matches: each gets a
   * slot of an equal share of the area below the date line, each slot a
   * copy of the previous one shifted down by its height. A day without
   * matches has no slots.
   */
  method LayoutSlots(border: Box, matches: seq<DayMatch>, timeHeight: real, results: bool) returns (s: seq<Slot>)
    ensures |s| == |matches|
    ensures forall i :: 0 <= i < |s| ==>
      && s[i].rect == SlotBox(MatchArea(border), |matches|, i)
      && Gaps(s[i].outer, s[i].timeAndGap) == SlotGaps(Height(s[i].rect), timeHeight, matches[i].elimination, results)
      && s[i].start == matches[i].start && s[i].hasResults == matches[i].hasResults
  {
    s := [];
    if |matches| == 0 {
      return;
    }
    var area := MatchArea(border);
    var dY := Height(area) / |matches| as real;
    var rect := MakeBox(area.xMin, area.yMin, Width(area), dY);
    var i := 0;
    while i < |matches|
      invariant i <= |matches| && |s| == i
      invariant rect == SlotBox(area, |matches|, i)
      invariant forall k :: 0 <= k < i ==>
        && s[k].rect == SlotBox(area, |matches|, k)
        && Gaps(s[k].outer, s[k].timeAndGap) == SlotGaps(Height(s[k].rect), timeHeight, matches[k].elimination, results)
        && s[k].start == matches[k].start && s[k].hasResults == matches[k].hasResults
    {
      var m := matches[i];
      var g := SlotGaps(Height(rect), timeHeight, m.elimination, results);
      s := s + [Slot(rect, g.outer, g.timeAndGap, m.start, m.hasResults)];
      assert (i + 1) as real * dY == i as real * dY + dY;
      rect := Shifted(rect, 0.0, Height(rect));
      i := i + 1;
    }
  }

  // ---- coalescing ----------------------------------------------------------

  /** The results test of the newer code, with its second operand on the bottom match as evidently intended. */
  predicate SkipForResults(results: bool, top: Slot, bottom: Slot)
  {
    results && top.hasResults && bottom.hasResults
  }

  /** The results test as written: the top match is checked twice and the bottom match not at all. */
  predicate SkipForResultsAsWritten(results: bool, top: Slot, bottom: Slot)
  {
    results && top.hasResults && top.hasResults
  }

  /**
   * As written, a pair whose top match has results but whose bottom
   * match has none is not coalesced; with the evident test it is.
   */
  lemma SkipForResultsDiffers(top: Slot, bottom: Slot)
    requires top.hasResults && !bottom.hasResults
    ensures SkipForResultsAsWritten(true, top, bottom)
    ensures !SkipForResults(true, top, bottom)
  {
  }

  /**
   * Which results test the coalescing loop makes: the older code has none,
   * the newer code the test as written; `BothResults` is the evidently
   * intended one.
   */
  datatype ResultsTest = NoTest | AsWritten | BothResults

  /** Whether the results test stops a pair from being coalesced. */
  predicate Skips(test: ResultsTest, results: bool, top: Slot, bottom: Slot)
  {
    match test
    case NoTest => false
    case AsWritten => SkipForResultsAsWritten(results, top, bottom)
    case BothResults => SkipForResults(results, top, bottom)
  }

  /**
   * A pair is coalesced when the results test does not stop it, the top
   * match still shows its time, and both start together.
   */
  predicate Joins(test: ResultsTest, results: bool, top: Slot, bottom: Slot)
  {
    !Skips(test, results, top, bottom) && top.timeAndGap != 0.0 && top.start == bottom.start
  }

  /**
   * One coalescing: the bottom match's time line and gap are split in
   * three; the bottom keeps a third as its outer gap and shows no time, the
   * top gains a third on its outer gap and on its time line, and the
   * boundary between their rectangles moves down by two thirds.
   */
  function JoinPair(top: Slot, bottom: Slot): (Slot, Slot)
  {
    var d := bottom.timeAndGap / 3.0;
    (top.(outer := top.outer + d, timeAndGap := top.timeAndGap + d, rect := Stretched(top.rect, 0.0, 0.0, 0.0, 2.0 * d)),
     bottom.(outer := d, timeAndGap := 0.0, rect := Stretched(bottom.rect, 0.0, 2.0 * d, 0.0, 0.0)))
  }

  function StepAt(s: seq<Slot>, i: nat, test: ResultsTest, results: bool): (r: seq<Slot>)
    requires i + 1 < |s|
    ensures |r| == |s|
  {
    if Joins(test, results, s[i], s[i + 1]) then
      var (top, bottom) := JoinPair(s[i], s[i + 1]);
      s[i := top][i + 1 := bottom]
    else s
  }

  /**
   * On a day of two matches at the same time where only the upper one has
   * results, the loop as written leaves both slots alone while the
   * evidently intended test coalesces them.
   */
  lemma CoalescedTestsDiffer(top: Slot, bottom: Slot)
    requires top.start == bottom.start && top.timeAndGap != 0.0 && top.hasResults && !bottom.hasResults
    ensures Coalesced([top, bottom], 1, AsWritten, true) == [top, bottom]
    ensures Coalesced([top, bottom], 1, BothResults, true)[1].timeAndGap == 0.0
  {
    assert Coalesced([top, bottom], 0, AsWritten, true) == [top, bottom];
    assert Coalesced([top, bottom], 0, BothResults, true) == [top, bottom];
  }

  /** The slots after the first `k` adjacent pairs have been considered, in order. */
  function Coalesced(s: seq<Slot>, k: nat, test: ResultsTest, results: bool): (r: seq<Slot>)
    requires k < |s| || k == 0
    ensures |r| == |s|
  {
    if k == 0 then s else StepAt(Coalesced(s, k - 1, test, results), k - 1, test, results)
  }

  function PairCount(n: nat): nat
  {
    if n == 0 then 0 else n - 1
  }

  /**
   * The coalescing loop of `CDayBlot.Draw`, over the slots in place, with
   * the results test `test` (`AsWritten` in the newer code, `NoTest` in
   * the older).
   */
  method Coalesce(a: array<Slot>, test: ResultsTest, results: bool)
    modifies a
    ensures a[..] == Coalesced(old(a[..]), PairCount(a.Length), test, results)
  {
    var i := 0;
    while i + 1 < a.Length
      invariant i == 0 || i < a.Length
      invariant a[..] == Coalesced(old(a[..]), i, test, results)
    {
      var top, bottom := a[i], a[i + 1];
      if Joins(test, results, top, bottom) {
        var d := bottom.timeAndGap / 3.0;
        a[i + 1] := bottom.(outer := d, timeAndGap := 0.0, rect := Stretched(bottom.rect, 0.0, 2.0 * d, 0.0, 0.0));
        a[i] := top.(outer := top.outer + d, timeAndGap := top.timeAndGap + d, rect := Stretched(top.rect, 0.0, 0.0, 0.0, 2.0 * d));
      }
      i := i + 1;
    }
  }

  /**
   * Coalescing keeps every match's start, results and horizontal extent,
   * the top of the first slot and the bottom of the last, and the slots
   * contiguous; and a pair gives the top what it takes from the bottom.
   */
  lemma {:induction false} CoalescedFrame(s: seq<Slot>, k: nat, test: ResultsTest, results: bool)
    requires k < |s|
    ensures var r := Coalesced(s, k, test, results);
      && (forall i :: 0 <= i < |s| ==>
            r[i].start == s[i].start && r[i].hasResults == s[i].hasResults &&
            r[i].rect.xMin == s[i].rect.xMin && r[i].rect.xMax == s[i].rect.xMax)
      && r[0].rect.yMin == s[0].rect.yMin
      && r[|s| - 1].rect.yMax == s[|s| - 1].rect.yMax
      && (Contiguous(s) ==> Contiguous(r))
      && (forall i :: k < i < |s| ==> r[i] == s[i])
  {
    if k > 0 {
      CoalescedFrame(s, k - 1, test, results);
    }
  }

  /** Slot `i` starts at another time than the slots above and below it. */
  predicate StartsAlone(s: seq<Slot>, i: nat)
    requires i < |s|
  {
    (i == 0 || s[i - 1].start != s[i].start) && (i + 1 == |s| || s[i].start != s[i + 1].start)
  }

  /** A match whose start differs from both neighbours' is left exactly as it was. */
  lemma {:induction false} CoalescedOnlySameStart(s: seq<Slot>, k: nat, test: ResultsTest, results: bool)
    requires k < |s|
    ensures var r := Coalesced(s, k, test, results);
      forall i :: 0 <= i < |s| && StartsAlone(s, i) ==> r[i] == s[i]
  {
    if k > 0 {
      var p := Coalesced(s, k - 1, test, results);
      CoalescedOnlySameStart(s, k - 1, test, results);
      CoalescedStarts(s, k - 1, test, results);
      StepAtTouches(p, k - 1, test, results);
      var r := Coalesced(s, k, test, results);
      assert r == StepAt(p, k - 1, test, results);
      forall i | 0 <= i < |s| && StartsAlone(s, i)
        ensures r[i] == s[i]
      {
        assert p[i] == s[i];
        if i == k - 1 || i == k {
          assert p[k - 1].start != p[k].start;
        }
      }
    }
  }

  /** One step changes at most the pair it looks at, and only a pair that starts together and joins. */
  lemma StepAtTouches(p: seq<Slot>, j: nat, test: ResultsTest, results: bool)
    requires j + 1 < |p|
    ensures forall i :: 0 <= i < |p| && i != j && i != j + 1 ==> StepAt(p, j, test, results)[i] == p[i]
    ensures !Joins(test, results, p[j], p[j + 1]) ==> StepAt(p, j, test, results) == p
    ensures Joins(test, results, p[j], p[j + 1]) ==>
      && p[j].start == p[j + 1].start
      && StepAt(p, j, test, results)[j] == JoinPair(p[j], p[j + 1]).0
      && StepAt(p, j, test, results)[j + 1] == JoinPair(p[j], p[j + 1]).1
  {
  }

  /** Coalescing keeps every start and leaves the slots past the pairs considered alone. */
  lemma {:induction false} CoalescedStarts(s: seq<Slot>, k: nat, test: ResultsTest, results: bool)
    requires k < |s|
    ensures forall i :: 0 <= i < |s| ==> Coalesced(s, k, test, results)[i].start == s[i].start
    ensures forall i :: k < i < |s| ==> Coalesced(s, k, test, results)[i] == s[i]
  {
    if k > 0 {
      CoalescedStarts(s, k - 1, test, results);
      StepAtTouches(Coalesced(s, k - 1, test, results), k - 1, test, results);
    }
  }

  predicate PositiveTimes(s: seq<Slot>)
  {
    forall i :: 0 <= i < |s| ==> s[i].timeAndGap > 0.0
  }

  /**
   * When every match starts out showing its time (a positive time line
   * and gap), a match stops showing it only by joining the match above,
   * which starts at the same time and still shows its own.
   */
  lemma {:induction false} CoalescedFolds(s: seq<Slot>, k: nat, test: ResultsTest, results: bool)
    requires k < |s| && PositiveTimes(s)
    ensures var r := Coalesced(s, k, test, results);
      && (forall i :: 0 <= i < |s| ==> r[i].timeAndGap >= 0.0)
      && (forall i :: 0 <= i < |s| && r[i].timeAndGap == 0.0 ==>
            0 < i && s[i - 1].start == s[i].start && r[i - 1].timeAndGap > 0.0)
  {
    if k > 0 {
      var p := Coalesced(s, k - 1, test, results);
      CoalescedFolds(s, k - 1, test, results);
      CoalescedStarts(s, k - 1, test, results);
      StepAtTouches(p, k - 1, test, results);
      var r := Coalesced(s, k, test, results);
      assert r == StepAt(p, k - 1, test, results);
      if Joins(test, results, p[k - 1], p[k]) {
        assert p[k] == s[k];
        assert r[k - 1].timeAndGap > 0.0 && r[k].timeAndGap == 0.0;
        forall i | 0 <= i < |s|
          ensures r[i].timeAndGap >= 0.0
          ensures r[i].timeAndGap == 0.0 ==> 0 < i && s[i - 1].start == s[i].start && r[i - 1].timeAndGap > 0.0
        {
          if i != k - 1 && i != k {
            assert r[i] == p[i];
            if i > 0 && i - 1 != k - 1 && i - 1 != k {
              assert r[i - 1] == p[i - 1];
            }
          }
        }
      }
    }
  }

  /**
   * Two matches that start together, where the upper one still shows its
   * time and the results test does not stop them, are coalesced: the lower
   * one stops showing its time and the boundary moves down by two thirds
   * of its time line and gap.
   */
  lemma {:induction false} CoalescedJoins(s: seq<Slot>, k: nat, test: ResultsTest, results: bool)
    requires 0 < k < |s| && Contiguous(s)
    requires var p := Coalesced(s, k - 1, test, results);
      p[k - 1].timeAndGap != 0.0 && s[k - 1].start == s[k].start &&
      !Skips(test, results, s[k - 1], s[k])
    ensures var r := Coalesced(s, k, test, results);
      && r[k].timeAndGap == 0.0
      && r[k].outer == s[k].timeAndGap / 3.0
      && r[k - 1].rect.yMax == r[k].rect.yMin == s[k].rect.yMin + 2.0 * (s[k].timeAndGap / 3.0)
      && Height(r[k - 1].rect) + Height(r[k].rect) == Height(Coalesced(s, k - 1, test, results)[k - 1].rect) + Height(s[k].rect)
  {
    CoalescedFrame(s, k - 1, test, results);
  }
}
