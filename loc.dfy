/**
 * Locale-dependent choices of the poster: ISO or US paper, the paper
 * format that best fits a tournament, and the label of a time zone.
 *
 * The locale's territory, the paper sizes of the PDF library
 * (`CPdf.s_mpStrFormatWH`, in points) and what `datetime` says about a
 * moment (its DST and UTC offsets in seconds, its `%Z` abbreviation) are
 * inputs.
 */
module Locales {
  import opened Wrappers
  import opened Text

  /** The territories that use US letter paper. */
  const UsLetterTerritories: set<string> := {"us", "ca", "mx", "cl", "co", "cr", "gt", "pa", "ph", "pr", "ve", "sv"}

  /** `FUsesIsoPaperSizes`: ISO paper unless the locale has a territory that, lower-cased, uses US letter. */
  function UsesIsoPaperSizes(territory: Option<string>): bool
  {
    territory.None? || territory.value == "" || Lower(territory.value) !in UsLetterTerritories
  }

  /**
   * The letter case of the territory does not matter, every US-letter
   * territory (in any case, such as `US`) chooses US paper, and an absent
   * territory chooses ISO.
   */
  lemma PaperSizesByTerritory(t: string)
    ensures UsesIsoPaperSizes(Some(t)) == UsesIsoPaperSizes(Some(Lower(t)))
    ensures Lower(t) in UsLetterTerritories ==> !UsesIsoPaperSizes(Some(t))
    ensures t in UsLetterTerritories ==> !UsesIsoPaperSizes(Some(t))
    ensures UsesIsoPaperSizes(None)
  {
    LowerIdempotent(t);
    if t in UsLetterTerritories {
      TerritoriesLowerCase(t);
    }
  }

  predicate LowerCaseWord(s: string)
  {
    forall i :: 0 <= i < |s| ==> 'a' <= s[i] <= 'z'
  }

  lemma TerritoriesLowerCaseWords(t: string)
    requires t in UsLetterTerritories
    ensures LowerCaseWord(t)
  {
  }

  /** The listed territories are written in lower case. */
  lemma TerritoriesLowerCase(t: string)
    requires t in UsLetterTerritories
    ensures Lower(t) == t
  {
    TerritoriesLowerCaseWords(t);
    LowerKeeps(t);
  }

  /** `mpCTeamSizeMin`: the least paper width and height, in inches, for a number of teams. */
  const TeamSizeMin: map<int, (real, real)> := map[16 := (14.035, 19.844), 24 := (18.068, 25.750), 32 := (18.068, 25.750), 48 := (22.665, 29.969)]

  /** `lFmtIso` */
  const IsoFormats: seq<string> := [
    "a0", "a1", "a2", "a3", "a4", "a5", "a6", "a7", "a8", "a9", "a10",
    "b0", "b1", "b2", "b3", "b4", "b5", "b6", "b7", "b8", "b9", "b10",
    "c0", "c1", "c2", "c3", "c4", "c5", "c6", "c7", "c8", "c9", "c10"]

  /** `lFmtUS`: the sizes the poster printers offer, each once, sorted by name. */
  const UsFormats: seq<string> := ["12x18", "16x20", "18x24", "22x28", "24x36", "36x48", "40x60"]

  /** A paper of `size` holds the poster when neither side is below the least. */
  predicate Fits(size: (real, real), least: (real, real))
  {
    !(size.0 < least.0 || size.1 < least.1)
  }

  /** The paper area left over around the least area. */
  function Waste(size: (real, real), area: real): real
  {
    size.0 * size.1 - area
  }

  predicate Sized(formats: seq<string>, wh: map<string, (real, real)>, k: nat)
  {
    k <= |formats| && forall j :: 0 <= j < k ==> formats[j] in wh
  }

  /** The best of the first `k` formats: the first with the least waste among those that fit. */
  function Best(formats: seq<string>, wh: map<string, (real, real)>, least: (real, real), area: real, k: nat): (b: Option<nat>)
    requires Sized(formats, wh, k)
    ensures b.Some? ==> b.value < k
  {
    if k == 0 then None
    else
      var b := Best(formats, wh, least, area, k - 1);
      var size := wh[formats[k - 1]];
      if !Fits(size, least) then b
      else if b.None? || Waste(size, area) < Waste(wh[formats[b.value]], area) then Some(k - 1)
      else b
  }

  /**
   * The best format fits, wastes no more than any format that fits, and
   * wastes strictly less than every earlier one that fits, so the first of
   * equals wins; there is none exactly when no format fits.
   */
  lemma {:induction false} BestIsFirstLeast(formats: seq<string>, wh: map<string, (real, real)>, least: (real, real), area: real, k: nat)
    requires Sized(formats, wh, k)
    ensures var b := Best(formats, wh, least, area, k);
      && (b.None? <==> forall j :: 0 <= j < k ==> !Fits(wh[formats[j]], least))
      && (b.Some? ==> b.value < k && Fits(wh[formats[b.value]], least))
      && (b.Some? ==> forall j :: 0 <= j < k && Fits(wh[formats[j]], least) ==>
            Waste(wh[formats[b.value]], area) <= Waste(wh[formats[j]], area))
      && (b.Some? ==> forall j :: 0 <= j < b.value && Fits(wh[formats[j]], least) ==>
            Waste(wh[formats[b.value]], area) < Waste(wh[formats[j]], area))
  {
    if k > 0 {
      BestIsFirstLeast(formats, wh, least, area, k - 1);
    }
  }

  /** The least paper in points and its area. */
  function LeastPoints(cTeam: int): (real, real)
    requires cTeam in TeamSizeMin
  {
    (TeamSizeMin[cTeam].0 * 72.0, TeamSizeMin[cTeam].1 * 72.0)
  }

  function Area(size: (real, real)): real
  {
    size.0 * size.1
  }

  /** The format list of the territory. */
  function FormatsFor(territory: Option<string>): seq<string>
  {
    if UsesIsoPaperSizes(territory) then IsoFormats else UsFormats
  }

  /**
   * `StrFmtBestFit`: a team count without a least size, or a format the
   * PDF library has no size for, raises `KeyError`; otherwise the best
   * format of the territory's list, or "unknown" when none fits.
   */
  function BestFitOf(cTeam: int, territory: Option<string>, wh: map<string, (real, real)>): Result<string>
  {
    var formats := FormatsFor(territory);
    if cTeam !in TeamSizeMin || !Sized(formats, wh, |formats|) then Err("KeyError")
    else
      match Best(formats, wh, LeastPoints(cTeam), Area(LeastPoints(cTeam)), |formats|)
      case None => Ok("unknown")
      case Some(i) => Ok(formats[i])
  }

  /** The loop of `StrFmtBestFit`, keeping the least waste so far and its format. */
  method BestOf(formats: seq<string>, wh: map<string, (real, real)>, dXPtMin: real, dYPtMin: real) returns (r: Result<string>)
    ensures !Sized(formats, wh, |formats|) ==> r == Err("KeyError")
    ensures Sized(formats, wh, |formats|) ==>
      r == Ok(match Best(formats, wh, (dXPtMin, dYPtMin), Area((dXPtMin, dYPtMin)), |formats|)
              case None => "unknown"
              case Some(i) => formats[i])
  {
    var areaMin := dXPtMin * dYPtMin;
    var wastedBest: Option<real> := None;
    var fmtBest := "unknown";
    ghost var least := (dXPtMin, dYPtMin);
    assert areaMin == Area(least);
    var k := 0;
    while k < |formats|
      invariant Sized(formats, wh, k)
      invariant Best(formats, wh, least, areaMin, k).None? ==> wastedBest.None? && fmtBest == "unknown"
      invariant Best(formats, wh, least, areaMin, k).Some? ==>
        var b := Best(formats, wh, least, areaMin, k).value;
        wastedBest == Some(Waste(wh[formats[b]], areaMin)) && fmtBest == formats[b]
    {
      if formats[k] !in wh {
        return Err("KeyError");
      }
      var (dXPt, dYPt) := wh[formats[k]];
      if !(dXPt < dXPtMin || dYPt < dYPtMin) {
        var wasted := dXPt * dYPt - areaMin;
        assert wasted == Waste(wh[formats[k]], areaMin);
        if wastedBest.None? || wasted < wastedBest.value {
          wastedBest := Some(wasted);
          fmtBest := formats[k];
        }
      }
      k := k + 1;
    }
    r := Ok(fmtBest);
  }

  /** `StrFmtBestFit`: the least size of the team count, in points, and the search over the territory's list. */
  method BestFit(cTeam: int, territory: Option<string>, wh: map<string, (real, real)>) returns (r: Result<string>)
    ensures r == BestFitOf(cTeam, territory, wh)
  {
    if cTeam !in TeamSizeMin {
      return Err("KeyError");
    }
    var (dXMin, dYMin) := TeamSizeMin[cTeam];
    var formats := if UsesIsoPaperSizes(territory) then IsoFormats else UsFormats;
    assert formats == FormatsFor(territory);
    r := BestOf(formats, wh, dXMin * 72.0, dYMin * 72.0);
  }

  lemma UnknownIsNoFormat(territory: Option<string>)
    ensures "unknown" !in FormatsFor(territory)
  {
  }

  /**
   * What the search promises: a team count or a format without a size
   * fails; "unknown" comes back exactly when no format of the list fits;
   * otherwise the format returned fits, and no format of the list that
   * fits wastes less, nor as little and comes earlier.
   */
  lemma BestFitChoice(cTeam: int, territory: Option<string>, wh: map<string, (real, real)>)
    ensures var r, formats := BestFitOf(cTeam, territory, wh), FormatsFor(territory);
      r.Err? <==> cTeam !in TeamSizeMin || exists j :: 0 <= j < |formats| && formats[j] !in wh
    ensures var r, formats := BestFitOf(cTeam, territory, wh), FormatsFor(territory);
      r.Ok? ==>
        var least := LeastPoints(cTeam);
        (r.value == "unknown" <==> forall j :: 0 <= j < |formats| ==> !Fits(wh[formats[j]], least))
    ensures var r, formats := BestFitOf(cTeam, territory, wh), FormatsFor(territory);
      r.Ok? && r.value != "unknown" ==>
        var least, area := LeastPoints(cTeam), Area(LeastPoints(cTeam));
        exists i :: 0 <= i < |formats| && formats[i] == r.value && Fits(wh[formats[i]], least)
          && (forall j :: 0 <= j < |formats| && Fits(wh[formats[j]], least) ==> Waste(wh[formats[i]], area) <= Waste(wh[formats[j]], area))
          && (forall j :: 0 <= j < i && Fits(wh[formats[j]], least) ==> Waste(wh[formats[i]], area) < Waste(wh[formats[j]], area))
  {
    var formats := FormatsFor(territory);
    UnknownIsNoFormat(territory);
    if cTeam in TeamSizeMin && Sized(formats, wh, |formats|) {
      var least := LeastPoints(cTeam);
      BestIsFirstLeast(formats, wh, least, Area(least), |formats|);
      var b := Best(formats, wh, least, Area(least), |formats|);
      if b.Some? {
        var i := b.value;
        assert formats[i] != "unknown";
      }
    }
  }

  /** A zone's standard and daylight-saving abbreviations. */
  datatype ZoneNames = ZoneNames(std: string, dst: string)

  /** `g_mpStrTzTzs` of the newer code. */
  const Zones: map<string, ZoneNames> := map[
    "Pacific/Auckland" := ZoneNames("NZST", "NZDT"),
    "Pacific/Fiji" := ZoneNames("FJT", "FJST"),
    "Pacific/Honolulu" := ZoneNames("HST", "HDT"),
    "Asia/Tehran" := ZoneNames("IRST", "IRDT"),
    "Asia/Dubai" := ZoneNames("GST", "GST"),
    "Asia/Shanghai" := ZoneNames("CHST", "CHST"),
    "Asia/Tokyo" := ZoneNames("JST", "JST"),
    "Asia/Kolkata" := ZoneNames("IST", "IST"),
    "America/New_York" := ZoneNames("EST", "EDT"),
    "America/Chicago" := ZoneNames("CST", "CDT"),
    "America/Denver" := ZoneNames("MST", "MDT"),
    "America/Los_Angeles" := ZoneNames("PST", "PDT"),
    "America/Sao_Paulo" := ZoneNames("BRT", "BRST"),
    "US/Eastern" := ZoneNames("EST", "EDT"),
    "US/Central" := ZoneNames("CST", "CDT"),
    "US/Mountain" := ZoneNames("MST", "MDT"),
    "US/Pacific" := ZoneNames("PST", "PDT"),
    "Europe/London" := ZoneNames("GMT", "BST"),
    "Europe/Paris" := ZoneNames("CET", "CEST"),
    "Europe/Rome" := ZoneNames("CET", "CEST"),
    "Europe/Berlin" := ZoneNames("CET", "CEST"),
    "Europe/Madrid" := ZoneNames("CET", "CEST"),
    "Europe/Amsterdam" := ZoneNames("CET", "CEST"),
    "Europe/Athens" := ZoneNames("EET", "EEST"),
    "Europe/Moscow" := ZoneNames("MSK", "MSK"),
    "Africa/Cairo" := ZoneNames("EET", "EEST"),
    "Africa/Johannesburg" := ZoneNames("SAST", "SAST"),
    "Australia/Sydney" := ZoneNames("AEST", "AEDT"),
    "Australia/Perth" := ZoneNames("AWST", "AWST")]

  /** `g_mpStrTimezoneToAbbrevs` of the older code. */
  const LegacyZones: map<string, ZoneNames> := map[
    "Pacific/Auckland" := ZoneNames("NZST", "NZDT"),
    "Pacific/Fiji" := ZoneNames("FJT", "FJST"),
    "Pacific/Honolulu" := ZoneNames("HST", "HDT"),
    "Asia/Tehran" := ZoneNames("IRST", "IRDT"),
    "Asia/Dubai" := ZoneNames("GST", "GST"),
    "Asia/Shanghai" := ZoneNames("CST", "CST"),
    "Asia/Tokyo" := ZoneNames("JST", "JST"),
    "Asia/Kolkata" := ZoneNames("IST", "IST"),
    "America/New_York" := ZoneNames("EST", "EDT"),
    "America/Chicago" := ZoneNames("CST", "CDT"),
    "America/Denver" := ZoneNames("MST", "MDT"),
    "America/Los_Angeles" := ZoneNames("PST", "PDT"),
    "America/Sao_Paulo" := ZoneNames("BRT", "BRST"),
    "Europe/London" := ZoneNames("GMT", "BST"),
    "Europe/Paris" := ZoneNames("CET", "CEST"),
    "Europe/Athens" := ZoneNames("EET", "EEST"),
    "Europe/Moscow" := ZoneNames("MSK", "MSK"),
    "Africa/Cairo" := ZoneNames("EET", "EEST"),
    "Africa/Johannesburg" := ZoneNames("SAST", "SAST"),
    "Australia/Sydney" := ZoneNames("AEST", "AEDT"),
    "Australia/Perth" := ZoneNames("AWST", "AWST")]

  /** The abbreviation of a mapped zone: daylight-saving exactly when the DST offset is positive (`None` counts as 0). */
  function ZoneAbbrev(names: ZoneNames, dstSeconds: int): string
  {
    if dstSeconds > 0 then names.dst else names.std
  }

  /** The newer `StrTzAbbrev`: a mapped zone's name, else `%Z` as it is. */
  function TzAbbrev(zone: string, dstSeconds: int, abbrev: string): string
  {
    if zone in Zones then ZoneAbbrev(Zones[zone], dstSeconds) else abbrev
  }

  /**
   * A mapped zone's label is one of its two names, the daylight-saving one
   * exactly when the DST offset is positive (for zones whose names differ),
   * and never the system's abbreviation; an unmapped zone's label is the
   * system's abbreviation whatever the DST offset.
   */
  lemma TzAbbrevChoice(zone: string, dstSeconds: int, abbrev: string, abbrev': string, dst': int)
    ensures zone in Zones ==> TzAbbrev(zone, dstSeconds, abbrev) in {Zones[zone].std, Zones[zone].dst}
    ensures zone in Zones && Zones[zone].std != Zones[zone].dst ==>
      (TzAbbrev(zone, dstSeconds, abbrev) == Zones[zone].dst <==> dstSeconds > 0)
    ensures zone in Zones ==> TzAbbrev(zone, dstSeconds, abbrev) == TzAbbrev(zone, dstSeconds, abbrev')
    ensures zone !in Zones ==> TzAbbrev(zone, dstSeconds, abbrev) == abbrev == TzAbbrev(zone, dst', abbrev)
  {
  }

  /**
   * The newer table keeps every zone of the older one with the same names,
   * except China's, renamed from CST (which clashes with US Central) to
   * CHST; it adds the US aliases and four more European capitals.
   */
  lemma ZoneTablesAgree()
    ensures forall z :: z in LegacyZones && z != "Asia/Shanghai" ==> z in Zones && Zones[z] == LegacyZones[z]
  {
    forall z | z in LegacyZones && z != "Asia/Shanghai"
      ensures z in Zones && Zones[z] == LegacyZones[z]
    {
    }
  }

  /** China's name in the older table is the one of US Central; in the newer one it is not. */
  lemma ChinaRenamed()
    ensures "Asia/Shanghai" in Zones && "Asia/Shanghai" in LegacyZones
    ensures LegacyZones["Asia/Shanghai"].std == LegacyZones["America/Chicago"].std
    ensures Zones["Asia/Shanghai"].std != Zones["America/Chicago"].std
  {
  }

  /** An offset taken apart for display: its sign, whole hours and minutes. */
  datatype HoursMinutes = HoursMinutes(negative: bool, hours: nat, minutes: nat)

  /** The offset a reader takes `UTC-h:mm` or `UTC+h:mm` to mean, in seconds. */
  function Meaning(p: HoursMinutes): int
  {
    (if p.negative then -1 else 1) * (p.hours * 3600 + p.minutes * 60)
  }

  /** The older code's split: floor division and remainder, as Python's `//` and `%` with a positive divisor. */
  function SplitFloored(cSec: int): HoursMinutes
  {
    var h := cSec / 3600;
    HoursMinutes(h < 0, if h < 0 then -h else h, (cSec % 3600) / 60)
  }

  /** The evident intent: the sign, then the hours and minutes of the offset's size. */
  function SplitOffset(cSec: int): HoursMinutes
  {
    var size := if cSec < 0 then -cSec else cSec;
    HoursMinutes(cSec < 0, size / 3600, (size % 3600) / 60)
  }

  /** Split with its sign, a whole-minute offset reads back as itself. */
  lemma SplitOffsetRoundTrip(cSec: int)
    requires cSec % 60 == 0
    ensures Meaning(SplitOffset(cSec)) == cSec && SplitOffset(cSec).minutes < 60
  {
    var size := if cSec < 0 then -cSec else cSec;
    assert size == size / 3600 * 3600 + size % 3600;
    assert size % 3600 == (size % 3600) / 60 * 60 + (size % 3600) % 60;
    assert (size % 3600) % 60 == 0 by {
      assert size % 60 == 0;
      assert size == (size / 3600) * 3600 + size % 3600;
      ModSixty(size / 3600, size % 3600);
    }
  }

  lemma ModSixty(q: int, r: int)
    requires (q * 3600 + r) % 60 == 0
    ensures r % 60 == 0
  {
    assert q * 3600 + r == 60 * (q * 60) + r;
  }

  /**
   * Floored, a negative offset that is not whole hours reads as one hour
   * too many west, less its minutes: for `-12600` (three and a half hours
   * west) the code writes `UTC-4:30`.
   */
  lemma SplitFlooredMisreads(cSec: int)
    requires cSec < 0 && cSec % 3600 != 0
    ensures SplitFloored(cSec).hours == SplitOffset(cSec).hours + 1
    ensures Meaning(SplitFloored(cSec)) < cSec
  {
    var size := -cSec;
    var q, r := size / 3600, size % 3600;
    assert size == q * 3600 + r && 0 < r < 3600;
    assert cSec == (-q - 1) * 3600 + (3600 - r);
    assert cSec / 3600 == -q - 1 && cSec % 3600 == 3600 - r;
  }

  /** The two split the same way wherever the offset is not negative, or is whole hours. */
  lemma SplitsAgree(cSec: int)
    requires cSec >= 0 || cSec % 3600 == 0
    ensures SplitFloored(cSec).negative == SplitOffset(cSec).negative && SplitFloored(cSec).hours == SplitOffset(cSec).hours
  {
    if cSec < 0 {
      var q := cSec / 3600;
      assert cSec == q * 3600;
      assert -cSec == (-q) * 3600;
    }
  }

  /** The `(UTC...)` text of an offset taken apart, whole hours without minutes. */
  function OffsetText(p: HoursMinutes, wholeHours: bool): string
  {
    " (UTC" + (if p.negative then "-" else "+") + NatToString(p.hours) +
      (if wholeHours then "" else ":" + TwoDigits(p.minutes)) + ")"
  }

  /**
   * The older fallback's suffix as written: a zero offset fails the
   * `assert(dT)` (a zero `timedelta` is false), so the branch for a zero
   * offset is never reached; otherwise floor division splits hours and
   * minutes.
   */
  function UtcSuffixAsWritten(cSec: int): Result<string>
  {
    if cSec == 0 then Err("AssertionError: zero UTC offset")
    else if cSec % 3600 == 0 then Ok(" (UTC" + SignedToString(cSec / 3600) + ")")
    else Ok(" (UTC" + SignedToString(cSec / 3600) + ":" + TwoDigits((cSec % 3600) / 60) + ")")
  }

  /** The evident intent: nothing for a zero offset, and otherwise the sign and the size's hours and minutes. */
  function UtcSuffix(cSec: int): string
  {
    if cSec == 0 then "" else OffsetText(SplitOffset(cSec), cSec % 3600 == 0)
  }

  /** As written, the suffix is the floored split's text, and fails on a zero offset. */
  lemma UtcSuffixAsWrittenFloors(cSec: int)
    ensures UtcSuffixAsWritten(cSec).Err? <==> cSec == 0
    ensures cSec != 0 ==> UtcSuffixAsWritten(cSec) == Ok(OffsetText(SplitFloored(cSec), cSec % 3600 == 0))
  {
    if cSec != 0 {
      var h := cSec / 3600;
      var p := SplitFloored(cSec);
      var sign: string := if p.negative then "-" else "+";
      assert SignedToString(h) == sign + NatToString(p.hours);
      if cSec % 3600 == 0 {
        assert " (UTC" + SignedToString(h) + ")" == " (UTC" + sign + NatToString(p.hours) + "" + ")";
      } else {
        assert " (UTC" + SignedToString(h) + ":" + TwoDigits(p.minutes) + ")"
          == " (UTC" + sign + NatToString(p.hours) + (":" + TwoDigits(p.minutes)) + ")";
      }
    }
  }

  /**
   * With the intent, the text names the offset's sign and its hours and
   * minutes, which read back as the offset for any whole-minute offset,
   * and a zero offset adds nothing.
   */
  lemma UtcSuffixReadsBack(cSec: int)
    requires cSec % 60 == 0
    ensures cSec == 0 ==> UtcSuffix(cSec) == ""
    ensures cSec != 0 ==> UtcSuffix(cSec) == OffsetText(SplitOffset(cSec), cSec % 3600 == 0)
    ensures Meaning(SplitOffset(cSec)) == cSec
    ensures cSec % 3600 == 0 ==> SplitOffset(cSec).minutes == 0
  {
    SplitOffsetRoundTrip(cSec);
    if cSec % 3600 == 0 {
      WholeHoursNoMinutes(cSec);
    }
  }

  /** A whole-hour offset, east or west, splits with no minutes. */
  lemma WholeHoursNoMinutes(cSec: int)
    requires cSec % 3600 == 0
    ensures SplitOffset(cSec).minutes == 0
  {
    if cSec < 0 {
      var q := cSec / 3600;
      assert cSec == q * 3600;
      assert -cSec == (-q) * 3600;
    }
  }

  /** Newfoundland's offset, three and a half hours west: written `UTC-4:30`, intended `UTC-3:30`. */
  lemma UtcSuffixExample()
    ensures UtcSuffixAsWritten(-12600) == Ok(" (UTC-4:30)")
    ensures UtcSuffix(-12600) == " (UTC-3:30)"
  {
    assert -12600 / 3600 == -4 && -12600 % 3600 == 1800;
    assert NatToString(4) == "4" && NatToString(3) == "3";
    assert TwoDigits(30) == "30" by {
      assert NatToString(30) == NatToString(3) + [DigitChar(0)];
    }
    assert SignedToString(-4) == "-4";
    assert OffsetText(HoursMinutes(true, 4, 30), false) == " (UTC" + "-" + "4" + (":" + "30") + ")" == " (UTC-4:30)";
    assert OffsetText(HoursMinutes(true, 3, 30), false) == " (UTC" + "-" + "3" + (":" + "30") + ")" == " (UTC-3:30)";
    UtcSuffixAsWrittenFloors(-12600);
    assert SplitFloored(-12600) == HoursMinutes(true, 4, 30);
    assert SplitOffset(-12600) == HoursMinutes(true, 3, 30);
  }

  /**
   * The older `StrTzAbbrev` as written: a mapped zone's name; else `%Z`,
   * with "UTC" put before it when it is an offset starting with '+', or
   * followed by the offset suffix.
   */
  function TzAbbrevLegacyAsWritten(zone: string, dstSeconds: int, abbrev: string, cSec: int): Result<string>
  {
    if zone in LegacyZones then Ok(ZoneAbbrev(LegacyZones[zone], dstSeconds))
    else if |abbrev| > 0 && abbrev[0] == '+' then Ok("UTC" + abbrev)
    else
      match UtcSuffixAsWritten(cSec)
      case Err(e) => Err(e)
      case Ok(suffix) => Ok(abbrev + suffix)
  }

  /** The older `StrTzAbbrev` with the intended suffix. */
  function TzAbbrevLegacy(zone: string, dstSeconds: int, abbrev: string, cSec: int): string
  {
    if zone in LegacyZones then ZoneAbbrev(LegacyZones[zone], dstSeconds)
    else if |abbrev| > 0 && abbrev[0] == '+' then "UTC" + abbrev
    else abbrev + UtcSuffix(cSec)
  }

  /**
   * The fallbacks: an abbreviation that is a '+' offset only gains the
   * "UTC" prefix; any other keeps its text and gains the suffix, nothing
   * at all for a zero offset (where the code as written fails, as for the
   * zone "UTC", whose `%Z` is "UTC"); the two versions agree wherever the
   * code does not fail and the offset is not negative or is whole hours.
   */
  lemma TzAbbrevLegacyFallback(zone: string, dstSeconds: int, abbrev: string, cSec: int)
    requires zone !in LegacyZones
    ensures |abbrev| > 0 && abbrev[0] == '+' ==> TzAbbrevLegacy(zone, dstSeconds, abbrev, cSec) == "UTC" + abbrev
    ensures !(|abbrev| > 0 && abbrev[0] == '+') ==>
      && TzAbbrevLegacy(zone, dstSeconds, abbrev, cSec)[..|abbrev|] == abbrev
      && (cSec == 0 ==> TzAbbrevLegacy(zone, dstSeconds, abbrev, cSec) == abbrev)
      && (cSec == 0 <==> TzAbbrevLegacyAsWritten(zone, dstSeconds, abbrev, cSec).Err?)
    ensures cSec != 0 && (cSec >= 0 || cSec % 3600 == 0) ==>
      TzAbbrevLegacyAsWritten(zone, dstSeconds, abbrev, cSec) == Ok(TzAbbrevLegacy(zone, dstSeconds, abbrev, cSec))
  {
    UtcSuffixAsWrittenFloors(cSec);
    if cSec != 0 && (cSec >= 0 || cSec % 3600 == 0) {
      SplitsAgree(cSec);
      if cSec % 3600 == 0 {
        UtcSuffixReadsBack(cSec);
        assert SplitFloored(cSec) == SplitOffset(cSec) by {
          var q := cSec / 3600;
          assert cSec == q * 3600;
        }
      } else {
        assert (cSec % 3600) / 60 == ((if cSec < 0 then -cSec else cSec) % 3600) / 60;
      }
    }
  }
}
