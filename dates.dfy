/**
 * The display dates and times of a page (`CPage.BuildDisplayDatesTimes`).
 * A match's day is its day in the tournament's own time zone, so that
 * matches played on one day share a calendar cell on every page; if every
 * group match's day is off its day in the page's zone, all days move one
 * forward; a group match shown on a day other than its local one has the
 * hour of its written time moved past 24. Every time is then lower-cased
 * and stripped of its spaces.
 *
 * Time-zone conversion and formatting are inputs: each match carries its
 * date in the tournament's zone, its date and hour in the page's zone and
 * its time as the locale writes it (`babel.dates.format_time(..., 'short')`);
 * `dayOfMonth` is the calendar's day of the month of a date.
 */
module DisplayDates {
  import opened Wrappers
  import opened Text

  /** A match as a page sees it. */
  datatype Kickoff = Kickoff(group: bool, tourneyDate: int, localDate: int, hour: nat, time: string)

  /** What the page shows for a match: its date and its time. */
  datatype Shown = Shown(date: int, time: string)

  // ---- the time string -----------------------------------------------------

  /** The characters `translate` removes: space, no-break space, thin space and narrow no-break space. */
  predicate TimeSpace(c: char)
  {
    c == ' ' || c == '\U{00A0}' || c == '\U{2009}' || c == '\U{202F}'
  }

  /** `translate` deleting the spaces: the characters of `s` that are not spaces, in order. */
  function DropSpaces(s: string): (r: string)
    ensures |r| <= |s|
    ensures forall i :: 0 <= i < |r| ==> !TimeSpace(r[i])
  {
    if s == [] then [] else (if TimeSpace(s[0]) then [] else [s[0]]) + DropSpaces(s[1..])
  }

  /** Removing spaces from a concatenation removes them from each part. */
  lemma {:induction false} DropSpacesAppend(a: string, b: string)
    ensures DropSpaces(a + b) == DropSpaces(a) + DropSpaces(b)
  {
    if a != [] {
      var x := if TimeSpace(a[0]) then [] else [a[0]];
      assert (a + b)[0] == a[0] && (a + b)[1..] == a[1..] + b;
      DropSpacesAppend(a[1..], b);
      assert DropSpaces(a + b) == x + (DropSpaces(a[1..]) + DropSpaces(b));
      assert x + (DropSpaces(a[1..]) + DropSpaces(b)) == (x + DropSpaces(a[1..])) + DropSpaces(b);
    } else {
      assert a + b == b;
    }
  }

  /** A string without spaces is left as it is. */
  lemma {:induction false} DropSpacesKeeps(s: string)
    requires forall i :: 0 <= i < |s| ==> !TimeSpace(s[i])
    ensures DropSpaces(s) == s
  {
    if s != [] {
      DropSpacesKeeps(s[1..]);
    }
  }

  /** The clean-up every time gets: `lower()`, then the spaces removed. */
  function Tidy(s: string): string
  {
    DropSpaces(Lower(s))
  }

  /** An `int()` field: one or more decimal digits. */
  predicate Numeric(s: string)
  {
    |s| > 0 && AllDigits(s)
  }

  /** The hour a moved time is given: 24 at local midnight, otherwise the written hour plus 24. */
  function MovedHour(time: string, hour: nat): nat
    requires ':' in time
  {
    if hour == 0 then 24 else DigitsValue(SplitOnce(time, ':').value.0) + 24
  }

  /** A written time whose hour cannot be moved: no colon, or a field before it that `int()` rejects where it is read. */
  predicate Unreadable(time: string, hour: nat)
  {
    ':' !in time || (hour != 0 && !Numeric(SplitOnce(time, ':').value.0))
  }

  /**
   * The hour moved past 24: the written time is split at its first `:`
   * (a `ValueError` without one), and the hour before it becomes 24 for a
   * kick-off at local midnight and otherwise its value plus 24; only in
   * that second case is it read with `int()`, a `ValueError` when it is
   * not a number.
   */
  function PastMidnight(time: string, hour: nat): (r: Result<string>)
    ensures r.Err? <==> Unreadable(time, hour)
    ensures r.Ok? ==> r.value == NatToString(MovedHour(time, hour)) + ":" + SplitOnce(time, ':').value.1
  {
    match SplitOnce(time, ':')
    case None => Err("ValueError: not enough values to unpack")
    case Some((h, rest)) =>
      if hour == 0 then Ok(NatToString(24) + ":" + rest)
      else if Numeric(h) then Ok(NatToString(DigitsValue(h) + 24) + ":" + rest)
      else Err("ValueError: invalid literal for int()")
  }

  /** The clean-up leaves a number and its colon alone and tidies the rest. */
  lemma TidyHour(n: nat, rest: string)
    ensures Tidy(NatToString(n) + ":" + rest) == NatToString(n) + ":" + Tidy(rest)
  {
    var d := NatToString(n) + ":";
    assert Lower(d + rest) == Lower(d) + Lower(rest);
    LowerKeeps(d);
    DropSpacesAppend(d, Lower(rest));
    DropSpacesKeeps(d);
  }

  /** A tidied hour past midnight splits back into the number and the tidied rest. */
  lemma TidyHourSplits(n: nat, rest: string)
    ensures SplitOnce(Tidy(NatToString(n) + ":" + rest), ':') == Some((NatToString(n), Tidy(rest)))
  {
    TidyHour(n, rest);
    assert ':' !in NatToString(n) by {
      assert AllDigits(NatToString(n));
    }
    SplitOnceJoin(NatToString(n), ':', Tidy(rest));
  }

  /**
   * A time moved past midnight reads back: its hour field, before the first
   * colon, is the number written, at least 24, and the rest follows it.
   */
  lemma PastMidnightReadsBack(time: string, hour: nat)
    requires PastMidnight(time, hour).Ok?
    ensures ':' in time && MovedHour(time, hour) >= 24
    ensures SplitOnce(Tidy(PastMidnight(time, hour).value), ':') == Some((NatToString(MovedHour(time, hour)), Tidy(SplitOnce(time, ':').value.1)))
    ensures DigitsValue(NatToString(MovedHour(time, hour))) == MovedHour(time, hour)
  {
    var n, rest := MovedHour(time, hour), SplitOnce(time, ':').value.1;
    assert PastMidnight(time, hour).value == NatToString(n) + ":" + rest;
    TidyHourSplits(n, rest);
    NatToStringRoundTrip(n);
  }

  // ---- the display rule ----------------------------------------------------

  /** No group match falls on the same day of the month in both zones (`fAllGroupMatchesAhead`). */
  predicate AllGroupsAhead(ms: seq<Kickoff>, dayOfMonth: int -> int)
  {
    forall i :: 0 <= i < |ms| && ms[i].group ==> dayOfMonth(ms[i].tourneyDate) != dayOfMonth(ms[i].localDate)
  }

  /** A group match shows its tournament day, moved one forward when all are ahead; any other match its local day. */
  function ShownDate(m: Kickoff, ahead: bool): int
  {
    if m.group then m.tourneyDate + (if ahead then 1 else 0) else m.localDate
  }

  /** A group match shown on another day of the month than its local one. */
  predicate Moved(m: Kickoff, ahead: bool, dayOfMonth: int -> int)
  {
    m.group && dayOfMonth(ShownDate(m, ahead)) != dayOfMonth(m.localDate)
  }

  /** What the page shows for one match, or the error reading its time raises. */
  function ShownAt(m: Kickoff, ahead: bool, dayOfMonth: int -> int): Result<Shown>
  {
    if Moved(m, ahead, dayOfMonth) then
      match PastMidnight(m.time, m.hour)
      case Err(e) => Err(e)
      case Ok(t) => Ok(Shown(ShownDate(m, ahead), Tidy(t)))
    else Ok(Shown(ShownDate(m, ahead), Tidy(m.time)))
  }

  /**
   * The first error of a list of results, or all their values in order: the
   * result is an error exactly when some entry is, and then it is that of
   * the first such entry.
   */
  function Collect<T>(rs: seq<Result<T>>): (r: Result<seq<T>>)
    ensures r.Ok? <==> forall i :: 0 <= i < |rs| ==> rs[i].Ok?
    ensures r.Ok? ==> |r.value| == |rs| && forall i :: 0 <= i < |rs| ==> r.value[i] == rs[i].value
    ensures r.Err? ==> exists i :: 0 <= i < |rs| && rs[i] == Err(r.msg) && forall k :: 0 <= k < i ==> rs[k].Ok?
  {
    if rs == [] then Ok([])
    else
      var init := rs[..|rs| - 1];
      assert forall k :: 0 <= k < |init| ==> init[k] == rs[k];
      match Collect(init)
      case Err(e) => Err(e)
      case Ok(p) =>
        match rs[|rs| - 1]
        case Err(e) => Err(e)
        case Ok(x) => Ok(p + [x])
  }

  /** Once a prefix of the results fails, the whole list fails with its error. */
  lemma {:induction false} CollectPrefixErr<T>(rs: seq<Result<T>>, n: nat)
    requires n <= |rs| && Collect(rs[..n]).Err?
    decreases |rs| - n
    ensures Collect(rs) == Collect(rs[..n])
  {
    if n < |rs| {
      var p := rs[..n + 1];
      assert p[..|p| - 1] == rs[..n];
      assert Collect(p) == Collect(rs[..n]);
      CollectPrefixErr(rs, n + 1);
    } else {
      assert rs[..n] == rs;
    }
  }

  /** One more result: the list so far fails with its error, or this result's error, or adds its value. */
  lemma CollectStep<T>(rs: seq<Result<T>>, j: nat)
    requires j < |rs|
    ensures Collect(rs[..j + 1]) ==
      if Collect(rs[..j]).Err? then Collect(rs[..j])
      else if rs[j].Err? then Err(rs[j].msg)
      else Ok(Collect(rs[..j]).value + [rs[j].value])
  {
    var p := rs[..j + 1];
    assert p[..|p| - 1] == rs[..j] && p[|p| - 1] == rs[j];
  }

  /** What a page shows for each of its matches, in order. */
  function ShownEach(ms: seq<Kickoff>, dayOfMonth: int -> int): (r: seq<Result<Shown>>)
    ensures |r| == |ms|
  {
    var ahead := AllGroupsAhead(ms, dayOfMonth);
    seq(|ms|, i requires 0 <= i < |ms| => ShownAt(ms[i], ahead, dayOfMonth))
  }

  /** The page's dates and times, or the error of the first match whose time cannot be read. */
  function Display(ms: seq<Kickoff>, dayOfMonth: int -> int): Result<seq<Shown>>
  {
    Collect(ShownEach(ms, dayOfMonth))
  }

  /** Each shown entry is that match's own. */
  lemma DisplayAt(ms: seq<Kickoff>, dayOfMonth: int -> int, i: nat)
    requires i < |ms| && Display(ms, dayOfMonth).Ok?
    ensures ShownAt(ms[i], AllGroupsAhead(ms, dayOfMonth), dayOfMonth).Ok?
    ensures |Display(ms, dayOfMonth).value| == |ms|
    ensures Display(ms, dayOfMonth).value[i] == ShownAt(ms[i], AllGroupsAhead(ms, dayOfMonth), dayOfMonth).value
  {
    assert ShownEach(ms, dayOfMonth)[i] == ShownAt(ms[i], AllGroupsAhead(ms, dayOfMonth), dayOfMonth);
  }

  /** Moving one time past midnight as the loop does it: split at the first colon, read the hour, write it back plus 24. */
  method MoveHour(time: string, hour: nat) returns (r: Result<string>)
    ensures r == PastMidnight(time, hour)
  {
    var split := SplitOnce(time, ':');
    if split.None? {
      return Err("ValueError: not enough values to unpack");
    }
    var strHour, strRest := split.value.0, split.value.1;
    var hourNew;
    if hour == 0 {
      hourNew := 24;
    } else {
      if !Numeric(strHour) {
        return Err("ValueError: invalid literal for int()");
      }
      hourNew := DigitsValue(strHour) + 24;
    }
    r := Ok(NatToString(hourNew) + ":" + strRest);
  }

  /** The second loop's body for one match: its date, and its time moved past midnight where the day moved. */
  method ShowMatch(m: Kickoff, ahead: bool, dayOfMonth: int -> int) returns (r: Result<Shown>)
    ensures r == ShownAt(m, ahead, dayOfMonth)
  {
    var date, time;
    if m.group {
      date := if ahead then m.tourneyDate + 1 else m.tourneyDate;
      time := m.time;
      if dayOfMonth(date) != dayOfMonth(m.localDate) {
        var moved := MoveHour(m.time, m.hour);
        if moved.Err? {
          return Err(moved.msg);
        }
        time := moved.value;
      }
    } else {
      date := m.localDate;
      time := m.time;
    }
    r := Ok(Shown(date, Tidy(time)));
  }

  /** The first loop: looks for a group match on the same day of the month in both zones and stops at the first. */
  method GroupsAhead(ms: seq<Kickoff>, dayOfMonth: int -> int) returns (ahead: bool)
    ensures ahead == AllGroupsAhead(ms, dayOfMonth)
  {
    ahead := true;
    var i := 0;
    while i < |ms|
      invariant 0 <= i <= |ms|
      invariant ahead
      invariant forall k :: 0 <= k < i && ms[k].group ==> dayOfMonth(ms[k].tourneyDate) != dayOfMonth(ms[k].localDate)
    {
      if ms[i].group && dayOfMonth(ms[i].tourneyDate) == dayOfMonth(ms[i].localDate) {
        ahead := false;
        break;
      }
      i := i + 1;
    }
  }

  /**
   * The two loops of `BuildDisplayDatesTimes`: the first looks for a group
   * match on the same day of the month in both zones and stops at the
   * first; the second sets each match's date and time, failing at the first
   * time it cannot read.
   */
  method BuildDisplayDates(ms: seq<Kickoff>, dayOfMonth: int -> int) returns (r: Result<seq<Shown>>)
    ensures r == Display(ms, dayOfMonth)
  {
    var ahead := GroupsAhead(ms, dayOfMonth);

    ghost var rs := ShownEach(ms, dayOfMonth);
    var shown := [];
    var j := 0;
    assert rs[..0] == [];
    while j < |ms|
      invariant 0 <= j <= |ms|
      invariant Collect(rs[..j]) == Ok(shown)
    {
      var x := ShowMatch(ms[j], ahead, dayOfMonth);
      assert rs[j] == x;
      CollectStep(rs, j);
      if x.Err? {
        r := Err(x.msg);
        CollectPrefixErr(rs, j + 1);
        return;
      }
      shown := shown + [x.value];
      j := j + 1;
    }
    assert rs[..j] == rs;
    r := Ok(shown);
  }

  /** Displaying fails exactly when a moved match's time has no colon, or an hour other than midnight that is not a number. */
  lemma DisplayFails(ms: seq<Kickoff>, dayOfMonth: int -> int)
    ensures var ahead := AllGroupsAhead(ms, dayOfMonth);
      Display(ms, dayOfMonth).Err? <==>
        exists i :: 0 <= i < |ms| && Moved(ms[i], ahead, dayOfMonth) && Unreadable(ms[i].time, ms[i].hour)
  {
    var ahead, rs := AllGroupsAhead(ms, dayOfMonth), ShownEach(ms, dayOfMonth);
    forall i | 0 <= i < |ms|
      ensures rs[i].Err? <==> Moved(ms[i], ahead, dayOfMonth) && Unreadable(ms[i].time, ms[i].hour)
    {
    }
  }

  /**
   * The move is the same for every group match: it is one day exactly when
   * every group match is ahead, and none otherwise; a match of a later
   * stage shows its local day.
   */
  lemma DisplayShift(ms: seq<Kickoff>, dayOfMonth: int -> int, i: nat)
    requires i < |ms|
    ensures Display(ms, dayOfMonth).Ok? ==> var d := Display(ms, dayOfMonth).value[i].date;
      && (ms[i].group && AllGroupsAhead(ms, dayOfMonth) ==> d == ms[i].tourneyDate + 1)
      && (ms[i].group && !AllGroupsAhead(ms, dayOfMonth) ==> d == ms[i].tourneyDate)
      && (!ms[i].group ==> d == ms[i].localDate)
  {
    if Display(ms, dayOfMonth).Ok? {
      DisplayAt(ms, dayOfMonth, i);
    }
  }

  /**
   * Group matches on one tournament day share a shown day, and the shown
   * days keep the tournament days' order and distances.
   */
  lemma SameDaySameCell(ms: seq<Kickoff>, dayOfMonth: int -> int, i: nat, j: nat)
    requires i < |ms| && j < |ms| && ms[i].group && ms[j].group
    ensures Display(ms, dayOfMonth).Ok? ==>
      Display(ms, dayOfMonth).value[j].date - Display(ms, dayOfMonth).value[i].date == ms[j].tourneyDate - ms[i].tourneyDate
  {
    if Display(ms, dayOfMonth).Ok? {
      DisplayAt(ms, dayOfMonth, i);
      DisplayAt(ms, dayOfMonth, j);
    }
  }

  /**
   * One group match on the same day of the month in both zones is enough
   * to keep every date where the tournament's zone puts it: no day moves.
   */
  lemma OneAlignedKeepsDays(ms: seq<Kickoff>, dayOfMonth: int -> int, a: nat, i: nat)
    requires a < |ms| && i < |ms| && ms[a].group && ms[i].group
    requires dayOfMonth(ms[a].tourneyDate) == dayOfMonth(ms[a].localDate)
    ensures Display(ms, dayOfMonth).Ok? ==> Display(ms, dayOfMonth).value[i].date == ms[i].tourneyDate
  {
    if Display(ms, dayOfMonth).Ok? {
      DisplayAt(ms, dayOfMonth, i);
    }
  }

  /**
   * The time: a group match shown on a day of the month other than its
   * local one has its hour field rewritten to a number of at least 24 (24
   * for local midnight, the written hour plus 24 otherwise) before the rest
   * of its time, tidied; any other match shows its written time, tidied.
   */
  lemma DisplayTime(ms: seq<Kickoff>, dayOfMonth: int -> int, i: nat)
    requires i < |ms| && Display(ms, dayOfMonth).Ok?
    ensures var ahead, s := AllGroupsAhead(ms, dayOfMonth), Display(ms, dayOfMonth).value[i];
      && (Moved(ms[i], ahead, dayOfMonth) ==>
            && ':' in ms[i].time && MovedHour(ms[i].time, ms[i].hour) >= 24
            && SplitOnce(s.time, ':') == Some((NatToString(MovedHour(ms[i].time, ms[i].hour)), Tidy(SplitOnce(ms[i].time, ':').value.1)))
            && DigitsValue(NatToString(MovedHour(ms[i].time, ms[i].hour))) == MovedHour(ms[i].time, ms[i].hour))
      && (!Moved(ms[i], ahead, dayOfMonth) ==> s.time == Tidy(ms[i].time))
  {
    var ahead := AllGroupsAhead(ms, dayOfMonth);
    DisplayAt(ms, dayOfMonth, i);
    if Moved(ms[i], ahead, dayOfMonth) {
      PastMidnightReadsBack(ms[i].time, ms[i].hour);
    }
  }

  /**
   * A group match shown one day before its local day, whose written hour is
   * its local hour, has an hour past 24 that names that local hour.
   */
  lemma DisplaySameHour(ms: seq<Kickoff>, dayOfMonth: int -> int, i: nat)
    requires i < |ms| && Display(ms, dayOfMonth).Ok? && ms[i].group
    requires var d := Display(ms, dayOfMonth).value[i].date; d + 1 == ms[i].localDate && dayOfMonth(d) != dayOfMonth(ms[i].localDate)
    requires ':' in ms[i].time && (ms[i].hour != 0 ==> DigitsValue(SplitOnce(ms[i].time, ':').value.0) == ms[i].hour)
    ensures var s := Display(ms, dayOfMonth).value[i];
      SplitOnce(s.time, ':').Some? && 24 * s.date + DigitsValue(SplitOnce(s.time, ':').value.0) == 24 * ms[i].localDate + ms[i].hour
  {
    DisplayTime(ms, dayOfMonth, i);
  }

  // ---- the older rule ------------------------------------------------------

  /**
   * The older `BuildDisplayDatesTimes`, match by match: a group match whose
   * start falls on another day of the month in the page's zone than in UTC,
   * in a zone ahead of UTC, is shown on its UTC date with its hour past 24;
   * every other match is shown on its local date with the written time.
   */
  datatype LegacyKickoff = LegacyKickoff(group: bool, utcDate: int, localDate: int, offsetSeconds: int, hour: nat, time: string)

  predicate LegacyMoved(m: LegacyKickoff, dayOfMonth: int -> int)
  {
    m.group && dayOfMonth(m.utcDate) != dayOfMonth(m.localDate) && m.offsetSeconds > 0
  }

  function LegacyShown(m: LegacyKickoff, dayOfMonth: int -> int): Result<Shown>
  {
    if LegacyMoved(m, dayOfMonth) then
      match PastMidnight(m.time, m.hour)
      case Err(e) => Err(e)
      case Ok(t) => Ok(Shown(m.utcDate, Tidy(t)))
    else Ok(Shown(m.localDate, Tidy(m.time)))
  }

  /**
   * Where the older code moves a match, the shown date and hour still name
   * the kick-off's local hour: a match that starts on the next local day
   * is shown on its UTC day at that many hours past that day's midnight,
   * when the locale writes the 24-hour hour.
   */
  lemma LegacySameHour(m: LegacyKickoff, dayOfMonth: int -> int)
    requires m.group && m.offsetSeconds > 0 && m.localDate == m.utcDate + 1
    requires dayOfMonth(m.utcDate) != dayOfMonth(m.localDate) && ':' in m.time
    requires m.hour != 0 ==> Numeric(SplitOnce(m.time, ':').value.0) && DigitsValue(SplitOnce(m.time, ':').value.0) == m.hour
    ensures LegacyShown(m, dayOfMonth).Ok?
    ensures var s := LegacyShown(m, dayOfMonth).value;
      && s.date == m.localDate - 1 && SplitOnce(s.time, ':').Some?
      && DigitsValue(SplitOnce(s.time, ':').value.0) >= 24
      && 24 * s.date + DigitsValue(SplitOnce(s.time, ':').value.0) == 24 * m.localDate + m.hour
  {
    PastMidnightReadsBack(m.time, m.hour);
  }

  /**
   * The older rule moves nothing in a zone at or behind UTC, and never a
   * match of a later stage: those are shown on their local date with the
   * written time, tidied, and never fail.
   */
  lemma LegacyBehindKeepsLocal(m: LegacyKickoff, dayOfMonth: int -> int)
    requires m.offsetSeconds <= 0 || !m.group || dayOfMonth(m.utcDate) == dayOfMonth(m.localDate)
    ensures LegacyShown(m, dayOfMonth) == Ok(Shown(m.localDate, Tidy(m.time)))
  {
  }

  /** The older rule fails exactly where the newer one does: a moved match's time without a colon or with an unreadable hour. */
  lemma LegacyFails(m: LegacyKickoff, dayOfMonth: int -> int)
    ensures LegacyShown(m, dayOfMonth).Err? <==> LegacyMoved(m, dayOfMonth) && Unreadable(m.time, m.hour)
  {
  }
}
