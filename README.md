# soccer-tourney-poster, modelled in Dafny

The poster generator reads a tournament (its seeds and its matches) and
draws it on one page. The page holds the group tables, a month calendar of
the group matches, the elimination bracket and the final, and the page
size is chosen for the locale. This project models the core of the
program, in both its current version (`src/stp/`) and its older top-level
version, and proves what that core promises.

- **Bracket inference** (`database.py`):
  - parsing the seed strings of a match (`1A`, `W49`, `RU3`, `A1`);
  - linking each match to the match it feeds;
  - giving every unstaged match its stage, round by round from the first elimination stage;
  - merging group lists along the bracket;
  - numbering the bracket in order;
  - the halves of the bracket;
  - translation look-up with its locale, language and English fallbacks.
- **Layout** (`main.py` and `SRect` in `pdf.py`):
  - the rectangle type and its setters;
  - the group grid;
  - a day cell's size and its match slots, with the coalescing of matches that start together;
  - the calendar's week span and cells;
  - the bracket's rows, columns and third-place match;
  - the calendar-and-elimination page arrangement, with its failure messages;
  - the "form" labels;
  - the long date pattern;
  - the display dates and hours.
- **Paper and time zones** (`loc.py`, `pdf.py`):
  - ISO or US paper by territory;
  - the best-fitting format for a team count;
  - page size from orientation;
  - time-zone abbreviations, with the UTC-offset fallback.

Plain computations are functions with lemmas. The tournament's match
store (`mpIdMatch`, whose matches are updated in place) is the class
`Tournaments.Tournament`, and its loops are methods proved against the
functions. `SRect` is the class `Rects.Rect`. A group set is the class
`GroupGrids.GroupSet`. Coalescing is a method over an array of slots. The
best-fit loop, the calendar offsets, the bracket rows and the display
dates are methods with loop invariants.

Lengths are `real` (the code's float constants are exact decimals here).
Dates are day numbers, with weekday `d % 7` (0 is Monday, as in Python).
Integers are unbounded, as in Python. Python's `//` and `%` with a
positive divisor are Dafny's Euclidean `/` and `%`.

## Model

| member | source | states |
|---|---|---|
| Stages.FromOrd | src/stp/database.py:114-122 | The ordinals 1 to 8 name exactly one stage each, in the enum's order; any other number is an error. |
| Stages.Ord | src/stp/database.py:114-122 | Every stage's ordinal lies between 1 and 8, the range `FromOrd` reads back. |
| Stages.OrdInjective | src/stp/database.py:114-122 | Different stages have different ordinals, and a stage's ordinal leads back to that stage. |
| Stages.FirstElimStage | src/stp/database.py:260-268 | The first elimination stage exists exactly for 8, 12, 16, 24, 32, 48 or 64 seeds: semis for 8, quarters for 12 or 16, round of 16 for 24 or 32, round of 32 for 48 or 64. Any other count is the look-up's error. |
| Stages.NextStage | src/stp/database.py:371-383 | After a stage of 8 matches come the quarters, only when 7 matches are left. After 4, the semis, only from the quarters with 3 left. After 2, the final, only from the semis with 1 left. Otherwise it is the next stage by ordinal, and there is none after the final. |
| Stages.NextStageHalves | src/stp/database.py:371-383 | In a full knockout, a round of c matches (32 down to 2) with c-1 matches left leads to the round of c/2. |
| Seeds.MatchPrefix | src/stp/database.py:149-150 | A pattern match succeeds exactly when the seed begins with a maximal run of the first kind, optional dashes, then a run of the second kind. The two groups it returns are those maximal runs. |
| Seeds.UniqueShape | src/stp/database.py:149-150 | The split points of a match are forced: each run ends where the greedy match ends it. |
| Seeds.AlphaNumGroups | src/stp/database.py:149 | A letters-then-digits match gives a non-empty run of letters, which is a prefix of the seed, and a non-empty run of digits. |
| Seeds.NumAlphaGroups | src/stp/database.py:150 | A digits-then-letters match gives a non-empty run of digits, which is a prefix of the seed, and a non-empty run of letters. |
| Seeds.PatternsExclusive | src/stp/database.py:149-150 | No seed matches both patterns. |
| Seeds.DashesWiden | database.py:130-131 | Where the older pattern without dashes matches, the newer pattern with dashes matches with the same groups. |
| Matches.ParseMatch | src/stp/database.py:180-205 | Two known seeds make a group match. It succeeds only when both seeds start with the same letter, and its group is that letter. Digit-letter seeds make a first-elimination-stage match; it succeeds only when the away seed has the same shape, and its groups are the characters of both letter runs. Letter-digit seeds need the same prefix, one of W, RU or L. Their feeders are the numbers. W leaves the stage open; RU and L make the third-place match. Anything else is an error. |
| Matches.ParseMatchLegacy | database.py:154-176 | Digit-letter seeds make a round-one match whose groups are the two letter runs. Letter-digit seeds with a group's name make a group match. W, RU and L seeds are parsed as in the newer version. Unequal prefixes or unknown shapes are errors. |
| Matches.UnstagedHasFeeders | src/stp/database.py:190-203 | In both versions, a match left without a stage always has both feeders. |
| Matches.WinnerSeedsRoundTrip | src/stp/database.py:190-203 | The seeds `W<a>` and `W<b>` parse to an unstaged match fed by matches a and b. |
| Text.NatToStringRoundTrip | src/stp/database.py:195-196 | Reading back the decimal digits of n gives n. |
| Groups.GroupList | src/stp/database.py:341-352 | It succeeds exactly when the seeds' first letters are at most 16 and are the first letters of `ABCDEFGHIJKLMNOP`. The result is those letters in order, and it holds exactly the seeds' first letters. |
| Groups.MergedMembers | src/stp/database.py:228-240 | Merging the feeders' group lists (`Merged`, through the loop state `MergeState`) holds exactly the characters mentioned, each as a one-character string (`+=` on a list adds a string's characters). |
| Groups.MergedNoDuplicates | src/stp/database.py:228-240 | When every group is one character, the merged list has no duplicates and the same members as its input. With longer groups it can repeat a character: `["AB", "A"]` gives `["A", "B", "A"]`. |
| Groups.MergedFirstSeenOrder | src/stp/database.py:228-240 | When every group is one character, the merged list keeps the order in which groups were first seen. |
| Tournaments.MergeGroups | src/stp/database.py:237-240 | The loop's set and list are the merge of everything read so far. |
| Linking.LinkKeepsShape | src/stp/database.py:207-219 | Linking changes no match's fields other than the one recording which match it feeds, and it keeps the keys. |
| Linking.LinkSucceeds | src/stp/database.py:214-219 | Linking (`Link`, over the feeder claims `ClaimsOf` lists) succeeds exactly when every feeder exists and is not yet claimed, and no feeder is claimed twice. The missing key and the failed assertion are the two error cases. |
| Linking.LinkResult | src/stp/database.py:214-219 | After linking, each feeder points at the match it feeds, and every other match is unchanged. |
| Linking.LinkAppend | src/stp/database.py:313-314 | Linking the claims of a list of matches equals linking the first part and then the rest, stopping at the first failure. |
| Tournaments.Tournament.LinkFeeders | src/stp/database.py:207-219 | The store and the outcome after the method are those of linking the match's claims. A third-place match claims nothing. |
| Tournaments.Tournament.LinkAll | src/stp/database.py:313-314 | The store and the outcome after linking every match in turn are those of linking all their claims. |
| Tournaments.LinkPrefix | src/stp/database.py:313-314 | Once linking some first matches fails, linking all of them fails with the same store. |
| Promotion.TryStageDeclines | src/stp/database.py:231-235 | `TryStage` (the model of `FTrySetStage`) declines, and nothing changes, exactly when one of the match's feeders is not in the previous stage. |
| Promotion.TryStagePromotes | src/stp/database.py:221-253 | A match `TryStage` promotes was unstaged, and both its feeders were in the previous stage. Only its stage and its groups change, to those `Promote` gives it. |
| Promotion.PromotedGroups | src/stp/database.py:242-249 | From the first elimination stage, the new groups are the merged feeders' groups. From later stages they are the merged groups too, unless those hold every group; then they are the tournament's sorted list. The merged list has no duplicates. |
| Promotion.LegacyFirstRoundHasFour | database.py:198-201 | In the older version, promoting from round one succeeds exactly when the match has no groups yet and the merged list has four. |
| Tournaments.Tournament.TrySetStage | src/stp/database.py:221-253 | After an error the store is unchanged. After a decline the result is false and the store is unchanged. After a promotion the result is true and exactly that match is replaced. |
| Tournaments.Tournament.Classify | src/stp/database.py:360-364 | The unstaged set is exactly the matches without a stage. Every staged match is filed under its own stage, and under no other. |
| Tournaments.Tournament.PromoteRound | src/stp/database.py:385-394 | The promoted matches are unstaged matches that now have the next stage, each tried against the previous stage. When the next stage differs from the previous one, an unstaged match is promoted exactly when both its feeders were at the previous stage at the start of the round. Matches staged before are unchanged, every other match's stage is unchanged, and the staging invariant is kept. |
| Tournaments.Tournament.TryOne | src/stp/database.py:387-389 | Trying one open match keeps the round's invariant and its exact account: it joins the promoted set exactly when `FTrySetStage` promotes it. |
| Tournaments.Tournament.StageAll | src/stp/database.py:354-398 | On success every match has a stage. Matches staged when read are untouched, and each unstaged one was promoted from a stage its feeders had. Every match the stage map files is at that stage (`StageMapComplete` gives when it files every match). The ghost record of the run starts at the first elimination stage with the matches staged there and the open ones, and ends with none open. Each round's stage is the `NextStage` of the one before, given the round's size and the open count. Each round takes from the open matches exactly those ready, with both feeders promoted out of the open set into the previous stage (when the stages differ). The map's entry for a round's stage is that round, unless the stage recurs later. A pre-staged match whose stage no round reuses is filed under it. |
| Tournaments.Tournament.StageRounds | src/stp/database.py:366-396 | The stage loop, from the classified store: on success no match is open, every open match has a recorded promotion, and the run record (`History`) holds with the final stage map. |
| Tournaments.Tournament.NextRound | src/stp/database.py:366-396 | One turn of the loop: it fails with the `KeyError` when the previous stage has no entry in the map, and with `NextStage`'s error when that fails. A success takes the next stage from `NextStage` and promotes a non-empty set of open matches; then the staging invariant and the run record both hold one round further, with the round removed from the open set and filed under its stage. |
| Tournaments.TryStageAgainst | src/stp/database.py:231-235 | Within a round, trying a match against the store as it now is gives the same answer as against the store at the start of the round, since the matches changed since then were open and are at the next stage. |
| Tournaments.ExactStep | src/stp/database.py:387-389 | Trying one more match keeps the round's exact account: the promoted set is exactly the tried matches whose feeders were at the previous stage. |
| Tournaments.HistoryStep | src/stp/database.py:390-396 | A round that promotes some open matches extends the run record by one round, and keeps every earlier round's record. |
| Tournaments.RecordsStep | src/stp/database.py:387-393 | Filing one more round keeps every earlier round's record (`Records`) and records the new one. |
| Tournaments.MapStep | src/stp/database.py:394 | Filing a round's set under its stage keeps the stage map's account (`MapRecord`): each round's entry unless the stage recurs later, and each pre-staged match whose stage no round reuses. |
| Tournaments.OpensShrink | src/stp/database.py:393 | The open sets of a recorded run only shrink. |
| Tournaments.PromotedFrom | src/stp/database.py:366-396 | In a run that ends with nothing open, a match open before round k is promoted in some round from k on. |
| Tournaments.StagedOnce | src/stp/database.py:366-396 | In a finished run, every match that was open is promoted in exactly one round and ends at that round's stage. |
| Tournaments.StageMapComplete | src/stp/database.py:394 | When no stage recurs among the rounds and no pre-staged match has a round's stage, the final stage map files every match under its stage. |
| Traversal.InOrderLeastClosed | src/stp/database.py:430-446 | The in-order walk from a match stays inside every feeder-closed set that contains the match. |
| Traversal.InOrderClosed | src/stp/database.py:430-446 | The set the walk visits is closed under feeders. |
| Tournaments.Tournament.SetMatchElimFeeding | src/stp/database.py:430-446 | It succeeds exactly when every match reachable through feeders exists. It returns exactly the reachable set, the match included. |
| Tournaments.Tournament.SetMatchElimHalfHome | src/stp/database.py:422-424 | It fails when the final has no home feeder. Otherwise it returns the final's home side. |
| Tournaments.Tournament.SetMatchElimHalfAway | src/stp/database.py:426-428 | It fails when the final has no away feeder. Otherwise it returns the final's away side. |
| Traversal.HalvesPartition | src/stp/database.py:422-428 | The home half, the final and the away half split the bracket without overlap. |
| Traversal.HomeSideBefore | src/stp/database.py:175-176 | Every match on a match's home side comes before it in the bracket order. |
| Traversal.AwaySideAfter | src/stp/database.py:175-176 | Every match on a match's away side comes after it in the bracket order. |
| Tournaments.Tournament.AssignSortElim | src/stp/database.py:400-420 | The stack walk always renumbers matches. On a tree-shaped bracket it succeeds, and the numbers 1, 2, … follow the in-order walk from the final. |
| Translations.Translate | src/stp/database.py:67-86 | Look-up succeeds exactly when the lower-cased key exists and has a non-empty text for the locale or for its language, or has an English entry. The result is one of the key's texts. |
| Translations.TranslateFallback | src/stp/database.py:72-86 | The locale's text comes first, then the language's, then English. An empty result means the English text is empty. |
| Translations.TranslateIgnoresCase | src/stp/database.py:68 | Keys are looked up without regard to case. |
| Translations.RoutingSeparates | database.py:343-349 | Routed keys are answered from the tournament's own table and do not depend on the localization table's texts. Other keys are answered from the localization table alone. |
| Translations.RoutedKeys | database.py:213 | A key is routed exactly when it starts with `tournament.` or `colors.`. |
| Rects.MakeBox | pdf.py:174-176 | A new rectangle has its corner at (x, y) and the given width and height. |
| Rects.Shifted | pdf.py:265-268 | Shifting moves the corner by (dX, dY) and keeps the size. |
| Rects.InsetBy | pdf.py:270-273 | Insetting shrinks each side by 2d and keeps the centre. |
| Rects.OutsetBy | pdf.py:275-277 | Outsetting grows each side by 2d and keeps the centre. |
| Rects.Stretched | pdf.py:279-282 | Stretching moves the corner by (left, top) and changes the size by the difference of the two moves. |
| Rects.SetBoxResult | pdf.py:178-187 | `Set` gives each given value to its property and keeps every property it is not given. |
| Rects.SetBoxNothing | pdf.py:178-187 | `Set` with no arguments changes nothing. |
| Rects.InsetOutsetRoundTrip | pdf.py:270-277 | Inset and outset by the same amount undo each other, in either order. |
| Rects.ShiftRoundTrip | pdf.py:265-268 | Shifting back undoes a shift, and two shifts make one. |
| Rects.SettersRoundTrip | pdf.py:236-263 | Setting x or y moves the rectangle and keeps its size. Setting dX or dY resizes it and keeps its corner. |
| Rects.Rect.constructor | pdf.py:174-176 | The new rectangle is the box at (x, y) of size (dX, dY). |
| Rects.Rect.SetXMin | pdf.py:210-212 | Only the left edge changes. |
| Rects.Rect.SetYMin | pdf.py:217-219 | Only the top edge changes. |
| Rects.Rect.SetXMax | pdf.py:224-226 | Only the right edge changes. |
| Rects.Rect.SetYMax | pdf.py:231-233 | Only the bottom edge changes. |
| Rects.Rect.SetX | pdf.py:238-241 | The rectangle moves so that its left edge is at x, and its size is kept. |
| Rects.Rect.SetY | pdf.py:246-249 | The rectangle moves so that its top edge is at y, and its size is kept. |
| Rects.Rect.SetDX | pdf.py:254-256 | The width becomes dX and the corner is kept. |
| Rects.Rect.SetDY | pdf.py:261-263 | The height becomes dY and the corner is kept. |
| Rects.Rect.Shift | pdf.py:265-268 | The rectangle becomes its shifted box, with the same size. |
| Rects.Rect.Set | pdf.py:178-187 | The rectangle becomes the box `Set` describes. |
| Rects.Rect.Copy | pdf.py:189-192 | It returns a fresh rectangle, the set copy of this one, and leaves this one unchanged. |
| Rects.Rect.Inset | pdf.py:270-273 | The rectangle becomes its inset box. |
| Rects.Rect.Outset | pdf.py:275-277 | The rectangle becomes its outset box. |
| Rects.Rect.Stretch | pdf.py:279-282 | The rectangle becomes its stretched box. |
| PdfPages.PageSize | pdf.py:89-103 | No format gives no size. Otherwise the orientation, read without regard to case, decides: portrait gives (width, height), landscape gives (height, width), and any other orientation fails the assertion. |
| PdfPages.LandscapeSwapsPortrait | pdf.py:98-103 | Landscape succeeds exactly when portrait does, and it gives portrait's size with the sides swapped. |
| PdfPages.OrientationSpellings | pdf.py:98-103 | Upper-case `L` and `P` read as `l` and `p`. |
| PdfPages.FontKey | pdf.py:19-20 | A font key is the font name lower-cased, followed by the style as given. |
| PdfPages.FontKeyIgnoresCase | pdf.py:19-20 | The case of the font name does not change the key. |
| Text.LowerIdempotent | src/stp/database.py:68 | Lower-casing leaves no upper-case letter and is idempotent. |
| GroupGrids.RoundSqrt | src/stp/main.py:1159 | The rounded square root of n is the k with k*k - k < n <= k*k + k, so no tie arises. |
| GroupGrids.CeilDiv | src/stp/main.py:1162 | The count of rows or columns is the least one whose product with the other count covers n. |
| GroupGrids.GridCountsAsWrittenHasNoRows | src/stp/main.py:1158-1160 | As written, no counts given means zero rows, so the grid holds no group. |
| GroupGrids.GridCountsHold | src/stp/main.py:1158-1169 | The corrected counts (`GridCounts`, with `self.cRow = self.cCol`): requested counts are kept. The grid holds every group, and a derived count is the least that does. A set with groups has columns. |
| GroupGrids.GridCountsAsWrittenHold | src/stp/main.py:1158-1169 | The counts as written (`GridCountsAsWritten`): requested counts are kept. With one count given, the grid holds every group and the derived count is the least that does. With none given, the columns are the rounded square root plus one and the rows zero. A set with groups and a requested count has columns. |
| GroupGrids.GridCountsAgree | src/stp/main.py:1158-1160 | The counts as written and the corrected counts agree exactly when a count is given, which every call does (`cCol=1`). |
| GroupGrids.GridGapClamped | src/stp/main.py:1174-1184 | A single line has no gap. Otherwise the gap lies between the minimum and the maximum, and it is the fitted gap when that fitted gap lies between them. |
| GroupGrids.GridLayoutWellSpaced | src/stp/main.py:1171-1191 | The laid-out grid (`GridLayout`, with the clamped gap `GridGap` on each axis) has gaps that are not negative, and its extents hold every line. |
| GroupGrids.DrawFits | src/stp/main.py:1193-1204 | Each drawn group lies inside the set's extent, and no two groups overlap. |
| GroupGrids.GroupSet.constructor | src/stp/main.py:1133-1152 | An empty set has zero size. Otherwise the set's state is the grid layout, with the counts as written. |
| GroupGrids.GroupSet.Layout | src/stp/main.py:1154-1191 | The set's state becomes the grid layout for the new canvas and counts, with the counts as written. |
| GroupGrids.GroupSet.Draw | src/stp/main.py:1193-1204 | Group i is drawn at its cell of the current grid. It asks only that a set with groups has columns. |
| GroupGrids.LegacyDrawFits | main.py:1044-1050 | In the older one-column set (`LegacyLayout`, with the counts as written), each group lies inside the extent, a fixed gap above the next. |
| Days.DaySize | src/stp/main.py:592-605 | The cell size exists exactly when there is a day. It is taken from the busiest day. |
| Days.DaySizeMonotone | src/stp/main.py:599-605 | A busier calendar never gets smaller cells. From five matches a day, cells are wider and taller than the minimum; up to two, they have the minimum width and are shorter. |
| Days.SlotGapsFill | src/stp/main.py:221-230 | The two outer gaps, the time gap and the information fill the slot exactly. The time gap never exceeds its maximum and never exceeds the outer gap when the slot has room. All three gaps are equal when a third of the room is within the maximum. |
| Days.SlotsTile | src/stp/main.py:546-555 | The match slots split the area below the date top to bottom, without gaps or overlap, over the full width. |
| Days.LayoutSlots | src/stp/main.py:542-555 | Each slot is its share of the match area, its gaps are the slot gaps, and it keeps its match's start and results. |
| Days.SkipForResultsDiffers | src/stp/main.py:560 | As written (`SkipForResultsAsWritten`), a top match with results is skipped even when the match below has none; the evident test (`SkipForResults`) is not. |
| Days.Coalesce | src/stp/main.py:559-577 | The slots afterwards are the coalescing of the slots before, under the results test given: the test as written for the newer code, none for the older (main.py:512-527). |
| Days.Coalesced | src/stp/main.py:559-577 | Coalescing keeps the number of slots. |
| Days.CoalescedTestsDiffer | src/stp/main.py:560 | A top slot with results above a slot at the same start without them is left alone by the test as written and joined by the evident test. |
| Days.CoalescedFrame | src/stp/main.py:559-577 | Coalescing keeps every slot's start, its results and its side edges. It keeps the day's top and bottom, keeps the slots contiguous and leaves later slots alone. |
| Days.CoalescedOnlySameStart | src/stp/main.py:566-567 | A slot that shares its start with neither neighbour is left as it was. |
| Days.CoalescedFolds | src/stp/main.py:563-575 | No time gap becomes negative. A slot whose time is cleared follows a slot with the same start that still shows its time. |
| Days.CoalescedJoins | src/stp/main.py:569-577 | Where a pair joins (`Joins`: not skipped by the test, the top slot showing its time, the same start), joining clears the lower slot's time and sets its outer gap to a third of what it gave up. The boundary moves down by two thirds, and the pair keeps its total height. |
| Calendars.ShiftToWeekday | src/stp/main.py:1353-1360 | Shifting to a weekday gives the first day on or after the date with that weekday. |
| Calendars.WeekStartLatest | src/stp/main.py:1353-1355 | The calendar starts on the latest day, on or before the first date, that is the locale's first weekday. |
| Calendars.WeekEndEarliest | src/stp/main.py:1359-1360 | The calendar ends on the earliest day, on or after the last date, that is the last weekday. |
| Calendars.CalendarSpanCovers | src/stp/main.py:1343-1364 | For any non-empty list of dates and any first weekday, the span starts on the first weekday, has whole weeks, covers every date and adds no week at either end. |
| Calendars.CellsDistinct | src/stp/main.py:1381-1386 | Different days get different cells. |
| Calendars.ColumnWeekday | src/stp/main.py:1381-1386 | Left to right, the columns are the weekdays in order from the first; right to left, they are mirrored. |
| Calendars.CellOffsets | src/stp/main.py:1379-1389 | Day i's offset is its column times the cell width and its week times the cell height. |
| Calendars.CellInside | src/stp/main.py:1374-1389 | Each cell lies inside the calendar's size, below the stage and weekday labels. |
| Calendars.CellsApart | src/stp/main.py:1379-1389 | No two cells overlap. |
| Brackets.MaxRows | src/stp/main.py:1476-1479 | The row count is the largest of the stages' row counts. |
| Brackets.BracketDims | src/stp/main.py:1475-1479 | The size exists exactly when there is a stage. It has two columns per stage and the largest row count as its rows. |
| Brackets.StageRowY | src/stp/main.py:1495-1515 | The rows exist exactly when there are two stages or more. The placed keys are exactly each stage's rows, each at its computed height. |
| Brackets.SpreadStageCentred | src/stp/main.py:1504-1510 | A stage with more than one row but fewer than the most is spread with equal margins above and below. |
| Brackets.FullStageFills | src/stp/main.py:1500-1502 | A stage with the most rows fills the grid from top to bottom. |
| Brackets.LastSingleRowCentred | src/stp/main.py:1496-1512 | A last stage of one row sits in the grid's middle. |
| Brackets.ColumnsDistinct | src/stp/main.py:1524-1528 | Stage k's left column lies in the left half and its right column is the mirror in the right half. Different stages use different columns. |
| Brackets.ColumnsInside | src/stp/main.py:1481-1493 | Each column lies inside the grid's width, one gap from the next. |
| Brackets.ElimCell | src/stp/main.py:1530-1532 | A match's cell exists exactly when its stage has that row. It is at that column's x and that row's y. |
| Brackets.ThirdPlaceAt | src/stp/main.py:1538-1554 | The third-place match can be placed exactly when the quarters' second row and the semis' row exist. |
| Brackets.ThirdPlaceClear | src/stp/main.py:1544-1554 | It is centred, at least a label clear below the semis and with its middle no higher than the quarters' second row's bottom. The bracket's height grows to hold it. |
| Brackets.LegacyThirdPlace | main.py:1380-1391 | In the older version it is centred at the bottom. A bracket starting in the quarters grows by one match to hold it. |
| Brackets.CoverIsBoundingBox | src/stp/main.py:1563-1564 | The stage's rectangle holds every match and touches the extreme one on each side. This assumes that `RectBoundingBox`, from the `bolay` library (src/stp/main.py:21), returns the bounding box. |
| Brackets.GrowToCover | main.py:1400-1411 | Growing the first rectangle in place makes it the bounding box of all of them and leaves the others unchanged. |
| Pages.TightNoTaller | src/stp/main.py:1749-1753 | Laid out again tight, a column holds all its groups and is never taller than before. |
| Pages.TightSameWidth | src/stp/main.py:1749-1753 | Laid out again tight, a column is one table wide. |
| Pages.CalElimFailures | src/stp/main.py:1697-1762 | The page fails exactly on an odd group count, or when side by side is too wide and the narrow arrangement is too wide or too tall. The message says which. |
| Pages.CalElimGaps | src/stp/main.py:1726-1765 | On a page that fits, no gap is negative. The final loses its gap when the stack is too tall. Side by side, the groups stay beside the stack exactly when they fit. |
| Pages.SideBySideArrangement | src/stp/main.py:1769-1799 | The columns are one gap from the edges and clear of every blot of the stack, and they are centred vertically. Calendar, bracket and final are one gap apart. |
| Pages.NarrowArrangement | src/stp/main.py:1742-1799 | The groups sit between the calendar and the final, one gap from each. The bracket's middle is level with theirs, and the columns stay clear of the bracket and the final. |
| Pages.CalElimPage | src/stp/main.py:1679-1801 | The page method, with its group-set objects, yields the arrangement or the message. |
| Pages.LegacyArrangement | main.py:1518-1589 | The older page fails only on an odd group count. The row of column, calendar and column, with four equal gaps, spans the width exactly; the stack spans the height exactly. |
| Pages.LegacyStackAgrees | main.py:1561-1583 | When the groups stay beside the stack with four gaps, the newer page places the stack at the same heights as the older one. |
| Labels.Sorted | src/stp/main.py:407 | Joining a sorted set gives each character once, in ascending order. |
| Labels.LabelFormInverts | src/stp/main.py:396-408 | A label naming some groups, but more than half of them, is inverted: it lists between tildes, sorted, exactly the groups it leaves out. A label naming all groups is the dot. Every other label is kept. |
| Labels.PatternDateAsWrittenDropsQuotes | src/stp/main.py:830-841 | As written, the result holds no quote, so a quoted literal is left bare. |
| Labels.PatternDateExample | src/stp/main.py:821-841 | As written, `'de'` becomes `de`; with the quotes kept, it stays `'de'`. |
| Labels.PatternDateKeepsLiterals | src/stp/main.py:830-841 | With the quotes kept, the result splits back into the pattern's pieces. The quoted ones are unchanged and the others are lengthened. |
| Labels.PatternDateUnchanged | src/stp/main.py:833-841 | A pattern with no `E` and no `M` comes back unchanged. |
| Text.ReplaceFirst | src/stp/main.py:836-837 | Only the first occurrence is replaced; with none, the string is unchanged. |
| Text.SplitJoinRoundTrip | src/stp/main.py:830 | Joining the split pieces with the separator gives back the string. |
| Text.JoinSplitRoundTrip | src/stp/main.py:830-841 | Splitting pieces joined with a separator that none of them holds gives back the pieces. |
| Text.SplitOnce | src/stp/main.py:1030 | `s.split(':', 1)` unpacked into two: it fails exactly when there is no colon; otherwise the string is the part before, the colon and the rest, and the part before holds no colon. |
| Text.SplitOnceJoin | src/stp/main.py:1030 | A part without the colon, the colon and any rest split back into the part and the rest. |
| DisplayDates.DropSpaces | src/stp/main.py:1039 | Removing the spaces leaves no space (plain, no-break, thin or narrow no-break) and never lengthens the time. |
| DisplayDates.TidyHour | src/stp/main.py:1031-1039 | Lower-casing and removing spaces leave a number and its colon alone and tidy the rest. |
| DisplayDates.PastMidnight | src/stp/main.py:1030-1032 | Moving the hour fails exactly when the time has no colon, or when the hour is not midnight and the field before the colon is not a number. Otherwise the time becomes the moved hour (`MovedHour`: 24 at midnight, the written hour plus 24 otherwise), a colon and the rest. |
| DisplayDates.PastMidnightReadsBack | src/stp/main.py:1030-1039 | A moved and tidied time splits at its first colon into the moved hour, which reads back as a number of at least 24, and the tidied rest. |
| DisplayDates.MoveHour | src/stp/main.py:1030-1032 | The split, the `int()` and the rewrite of one time give `PastMidnight`, errors included. |
| DisplayDates.ShowMatch | src/stp/main.py:1022-1042 | One turn of the second loop gives the match's entry of the display rule (`ShownAt`), or its error. |
| DisplayDates.GroupsAhead | src/stp/main.py:1007-1016 | The first loop finds whether every group match is on another day of the month in the page's zone than in the tournament's. |
| DisplayDates.Collect | src/stp/main.py:1022-1042 | The list of entries fails exactly when one match fails, then with the first failing match's error. Otherwise it holds every match's entry in order. |
| DisplayDates.BuildDisplayDates | src/stp/main.py:1005-1042 | The two loops give the page's dates and times of the display rule (`Display`), or the first error. |
| DisplayDates.DisplayAt | src/stp/main.py:1022-1042 | When the page displays, it has an entry for each match, and each entry is that match's own. |
| DisplayDates.DisplayFails | src/stp/main.py:1026-1032 | The page fails exactly when some moved group match has a time with no colon, or an hour other than midnight whose field is not a number. |
| DisplayDates.DisplayShift | src/stp/main.py:1019-1034 | Group matches move one day exactly when every group match is ahead. Later stages keep their local day. |
| DisplayDates.SameDaySameCell | src/stp/main.py:997-1004 | Group matches keep the distances between their tournament days, so matches on one day share a cell. |
| DisplayDates.OneAlignedKeepsDays | src/stp/main.py:1010-1017 | One group match on the same day in both zones keeps every day in place. |
| DisplayDates.DisplayTime | src/stp/main.py:1027-1039 | A group match shown off its local day has its hour field rewritten to 24 at midnight or the written hour plus 24, then the tidied rest. Every other match shows its written time, tidied. |
| DisplayDates.DisplaySameHour | src/stp/main.py:1027-1032 | A match shown the day before its local day, with its hour past 24, still names its local hour. |
| DisplayDates.LegacySameHour | main.py:918-927 | In the older rule, a match moved to its UTC day, with its hour past 24, still names its local hour and does not fail. |
| DisplayDates.LegacyBehindKeepsLocal | main.py:913-933 | In the older rule, zones at or behind UTC, later stages and same-day matches keep the local date and the written time, tidied, and never fail. |
| DisplayDates.LegacyFails | main.py:918-926 | The older rule fails exactly where a moved match's time has no colon or an unreadable hour. |
| Locales.PaperSizesByTerritory | src/stp/loc.py:16-32 | US paper goes to the listed territories, read without regard to case (`UsesIsoPaperSizes` is false exactly there). No territory means ISO paper. |
| Locales.BestIsFirstLeast | src/stp/loc.py:40-51 | There is no choice (`Best`) exactly when no format fits. Otherwise the choice fits, wastes the least area, and wastes strictly less than every earlier format that fits. |
| Locales.Best | src/stp/loc.py:40-51 | The choice among the first k formats is the index of one of those k formats. |
| Locales.BestOf | src/stp/loc.py:40-51 | The loop fails when a format is missing from the size table. Otherwise it returns the best format's name, or `unknown`. |
| Locales.BestFit | src/stp/loc.py:34-51 | The method's result is the best fit for the team count and territory. |
| Locales.BestFitChoice | src/stp/loc.py:34-51 | The best fit (`BestFitOf`) fails exactly for an unknown team count or a missing format. It is `unknown` exactly when nothing fits. Otherwise it is a fitting format of minimal waste, the first one on a tie. |
| Locales.TzAbbrevChoice | src/stp/loc.py:103-128 | For `TzAbbrev`, a listed zone's abbreviation is one of its two names, the daylight one exactly when daylight time is in effect, and the system's own abbreviation does not matter. Any other zone gets the system's abbreviation. |
| Locales.ZoneTablesAgree | loc.py:53-86 | Every older entry other than Shanghai is in the newer table with the same names. |
| Locales.ChinaRenamed | loc.py:62 | The older table gives Shanghai Chicago's `CST`; the newer one does not. |
| Locales.SplitOffsetRoundTrip | loc.py:112-119 | The corrected split (`SplitOffset`): sign, hours and minutes read back to the offset, with minutes under 60. |
| Locales.SplitFlooredMisreads | loc.py:112-119 | As written (`SplitFloored`), a negative offset with part of an hour shows one hour too many and reads back earlier than it is. |
| Locales.UtcSuffixAsWrittenFloors | loc.py:110-119 | As written (`UtcSuffixAsWritten`), a zero offset fails the assertion. Any other offset is written from the floored hours. |
| Locales.UtcSuffixReadsBack | loc.py:110-119 | The corrected suffix (`UtcSuffix`) is empty for UTC. Otherwise it is written from sign, hours and minutes that read back to the offset. |
| Locales.UtcSuffixExample | loc.py:112-119 | An offset of -3 h 30 min is written `UTC-4:30` as written and `UTC-3:30` corrected. |
| Locales.TzAbbrevLegacyFallback | loc.py:105-121 | In `TzAbbrevLegacy`, an offset abbreviation gets `UTC` in front. Any other abbreviation is kept as a prefix, and stays alone at offset zero, where the as-written code fails. Both agree wherever floor and truncation agree. |

## Left out

- Drawing, fonts, colours, images, crop lines and the PDF library are left out. Only positions and sizes are modelled, and blot sizes are parameters.
- Reading the spreadsheets (the xlsx loading), the team-name, venue and colour key helpers, and the tournament cache are left out.
- The `arrow`, `babel` and `dateutil` libraries are not modelled. Converting a time to a zone, writing an hour in a locale's style, `strftime('%Z')`, the UTC offset and a date's day of the month are all inputs.
- The size table is a parameter of the page-size and best-fit members. The library's own table is not part of this model; `pdf.py`'s table lacks a9, a10, c7 to c10 and the US poster sizes that the lists name.
- The older top-level `config.py` does not define the team sizes or the format lists. Both versions use the newer values.
- Which half of the bracket a match is drawn in is left out. The newer `main.py` reads `setMatchFirst` and `tuIdFed`, which the newer `database.py` does not define. The bracket's rows and columns are modelled from per-stage counts.
- Tournaments.Tournament.SetMatchElimFeeding: the code loops forever on a cycle of feeders, so the method takes a ghost rank (feeders rank lower) to terminate.
- Tournaments.Tournament.AssignSortElim: the same ghost rank is used. Its exact numbering is stated only for tree-shaped brackets.
- GroupGrids.RoundSqrt: `round(math.sqrt(n))` on floats is modelled as the exact rounded square root.
- A failed `sys.exit` is an error carrying the message's fixed words, without the tournament's name or the amounts.
- The warning printed for an abbreviation with digits is left out.
- Text.Lower: `str.lower` is modelled on ASCII letters only; other letters keep their case.
- DisplayDates.PastMidnight: `int()` is modelled on ASCII digits only; the surrounding whitespace, sign, underscores and other Unicode digits it also accepts are read as errors. The error messages are the exception's fixed words.
- Tournaments.Tournament.PromoteRound: when the next stage equals the previous one (eight matches after the quarters), which matches a round promotes depends on the order of the set, so no exact membership is stated for that case.
- `t.dst()` returning nothing is taken as zero daylight seconds.
- Offsets are whole seconds, and the suffix models offsets in whole minutes.
- Labels.AllGroupsText keeps the code's literal as its two characters, `Â·`.
- Python's floats are exact reals, so rounding is not modelled.

## Findings

| source | as written | input that shows it | evidently intended | confidence | as-written member | corrected member |
|---|---|---|---|---|---|---|
| src/stp/main.py:1158-1160 | With no counts given, `self.cRow = cCol` copies the argument, which is 0. | Five groups with no counts give 0 rows, so nothing fits. | `self.cRow = self.cCol`: a square grid. The layout follows the code as written; every call passes `cCol=1`, where both agree (GroupGrids.GridCountsAgree). | not executed | GroupGrids.GridCountsAsWrittenHasNoRows | GroupGrids.GridCountsHold |
| src/stp/main.py:560 | The results test checks the top match twice. | A top match with results above one without them. | Test the top match and the bottom match. The newer code's coalescing uses the test as written. | not executed | Days.CoalescedTestsDiffer | Days.SkipForResults |
| src/stp/main.py:821-841 | The pieces split at quotes are joined with nothing between them. | A pattern with a quoted literal such as `d 'de' MMM`: `'de'` gives `de`, which reads as fields. | Join with `'`, so literals stay quoted. | not executed | Labels.PatternDateAsWrittenDropsQuotes | Labels.PatternDateKeepsLiterals |
| loc.py:110-112 | `assert(dT)` fails for a zero offset, since a zero `timedelta` is false. | An unlisted zone `UTC`, offset 0. | No suffix at offset zero. | not executed | Locales.UtcSuffixAsWrittenFloors | Locales.UtcSuffixReadsBack |
| loc.py:113-119 | Hours are taken with floor division of a negative offset. | -12600 s (Newfoundland) is written `UTC-4:30`. | `UTC-3:30`: sign, then hours and minutes of the magnitude. | not executed | Locales.UtcSuffixExample | Locales.SplitOffsetRoundTrip |
