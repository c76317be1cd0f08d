# Toll fee calculator — a Dafny model

This project models the toll engine of the TollFeeCalculator library and
proves properties of it. The engine charges a vehicle's passages through
road-toll gates.

- **Rule set.** A rule set (`TollRuleSet`) holds:
  - a `ValidFrom` date;
  - a daily cap (`MaxDailyTollSek`);
  - a toll-free window length;
  - a set of public holidays;
  - a set of exempt vehicle types;
  - an ordered list of time-of-day fee bands (`TollRule`).
- **Selection.** For a date, the engine uses the last configured rule set whose `ValidFrom` is on or before that date.
- **Exemptions.** An exempt vehicle, or a toll-free date, costs nothing. A toll-free date is a Saturday, a Sunday, any day in July, a listed holiday, or the day before one.
- **Single passage.** `CalculateTollForPassage` charges the fee of the first band that contains the time of day. It uses `TimeOnly.IsBetween`, whose ranges are half-open and wrap past midnight.
- **Daily total.** `CalculateTotalDailyToll` first removes duplicate times and sorts the rest. It then sweeps a fixed-start window over them:
  - a window opens at the first passage not yet covered and ends one window length later, modulo the day;
  - a passage at or before the window's end stays in it;
  - each window is charged its highest fee, floored at zero;
  - the sum of the window charges is clamped to the cap.
- **The 2025 rule set.** `Default2025RuleSet` is the concrete rule set for 2025.

Modules, one per concern:

- `Wrappers`: `Option`, `Result`, `Max` and `Min`.
- `Clock`: `TimeOnly` as a tick count below one day.
  - `Add` wraps modulo the day.
  - `IsBetween` is the half-open, wrapping range test.
- `Calendar`: `DateOnly` as a checked (year, month, day) triple, for years 1 to 9999.
  - A closed-form day number gives the order and `DayOfWeek`. Day 0 is Monday 0001-01-01.
  - `NextDay` is `AddDays(1)`, which fails after 9999-12-31.
- `RuleSets`: the `VehicleType`, `Vehicle`, `TollRule` and `RuleSet` records, and the all-defaults rule set.
- `Bands`: first-match band lookup (LINQ `First`) and disjointness of bands.
- `PassageOrder`: `Distinct().Order()`, specified as the unique strictly increasing sequence with the same members.
- `SlidingWindow`: the fee windows.
  - The windows are defined declaratively: `IsWindowing` says what a cut into windows must satisfy, and `Windows` is proved to be the only such cut.
  - The loop itself is a state machine (`Step`, `RunFrom`, `Sweep`), proved to compute the sum of the window charges.
- `TollCalculator`: the two entry points.
  - The daily total is a specification function `DailyToll`.
  - `CalculateTotalDailyToll` is a method proved equal to `DailyToll`. Its loop is the method `SweepPassages`, whose invariant ties each iteration to `RunFrom`.
- `TollProperties`: properties of both entry points for any configuration.
- `Default2025`: the 2025 constants and the fee scenarios they should produce. It also holds the band-gap finding below and the corrected bands.

Errors are values:

| source exception | model |
|---|---|
| `ArgumentNullException` (null vehicle) | `ArgumentNull("vehicle")` |
| `ArgumentNullException` (null passage times) | `ArgumentNull("passageTimes")` |
| `InvalidOperationException` from `Last` | `NoRuleSetInEffect` |
| `InvalidOperationException` from `First` | `NoTollRuleMatches` |
| `ArgumentOutOfRangeException` from `AddDays` | `DateOutOfRange` |

A null argument is `None`. The configuration (`TollCalculatorConfig.RuleSets`) is a sequence of rule sets.

## Model

| member | source | states |
|---|---|---|
| `Clock.At` | TollFeeCalculator/Default2025RuleSet.cs:43-52 | `new TimeOnly(h, m)` is the instant 60·h + m whole minutes after midnight |
| `Clock.Add` | TollFeeCalculator/TollCalculator.cs:53 | `TimeOnly.Add` lands on the time congruent to t + d modulo one day, and on t + d itself when that does not pass midnight |
| `Clock.Offset` | TollFeeCalculator/TollCalculator.cs:103 | the forward distance from one time of day to another, which `Add` turns back into the second time |
| `Clock.IsBetweenByOffset` | TollFeeCalculator/TollCalculator.cs:103 | `IsBetween(t, start, end)` holds exactly when, walking forward from `start`, `t` comes before `end`; this covers the ranges that wrap past midnight |
| `Clock.IsBetweenEmpty` | TollFeeCalculator/TollCalculator.cs:103 | a range whose start equals its end contains no instant |
| `Calendar.DayNumberOrder` | TollFeeCalculator/TollCalculator.cs:23 | comparing `DateOnly` values by day number is calendar order, and equal day numbers mean equal dates |
| `Calendar.DayNumber` | TollFeeCalculator/TollCalculator.cs:23 | `DateOnly.DayNumber`, the count of days since 0001-01-01; `DayNumberOrder` proves it orders dates as the calendar does and `NextDayNumber` that `AddDays(1)` adds one to it |
| `Calendar.DayOfWeekOf` | TollFeeCalculator/TollCalculator.cs:109 | `DateOnly.DayOfWeek`, with 0001-01-01 a Monday; `NextDayWeekday` proves consecutive dates have consecutive weekdays and `MaxDateFriday` that 9999-12-31 is a Friday |
| `Calendar.MaxDateFriday` | TollFeeCalculator/TollCalculator.cs:109 | 9999-12-31, the last date `DateOnly` can hold, is a Friday, so the weekend test does not spare it |
| `Calendar.NextDay` | TollFeeCalculator/TollCalculator.cs:126 | `AddDays(1)` fails exactly on 9999-12-31 |
| `Calendar.NextDayNumber` | TollFeeCalculator/TollCalculator.cs:126 | on every other date, `AddDays(1)` is the date one day number later |
| `Calendar.NextDayWeekday` | TollFeeCalculator/TollCalculator.cs:109-127 | the day after a date falls on the next day of the week |
| `Bands.FirstMatch` | TollFeeCalculator/TollCalculator.cs:102-104 | LINQ `First`: no index exactly when no band contains the time; otherwise the index of a containing band with no containing band before it |
| `Bands.Fee` | TollFeeCalculator/TollCalculator.cs:102-104 | a passage's fee is the `TollSek` of the first band containing its time |
| `Bands.FeeIsSomeBand` | TollFeeCalculator/TollCalculator.cs:102-104 | every fee is the fee of some band that contains the time |
| `Bands.FeeOfDisjoint` | TollFeeCalculator/TollCalculator.cs:102-104 | when no two bands overlap, the fee is that of whichever band contains the time, whatever its position |
| `Bands.InOrderDisjoint` | TollFeeCalculator/TollCalculator.cs:102-104 | bands laid out in order round the day, with only the last wrapping past midnight, never overlap under the half-open `IsBetween` |
| `PassageOrder.Insert` | TollFeeCalculator/TollCalculator.cs:35-37 | inserting into a strictly increasing sequence keeps it strictly increasing, and its members are the old ones plus the new time |
| `PassageOrder.SortedDistinct` | TollFeeCalculator/TollCalculator.cs:35-37 | `Distinct().Order()` is strictly increasing and has exactly the input's members |
| `PassageOrder.SortedUnique` | TollFeeCalculator/TollCalculator.cs:35-37 | two strictly increasing sequences with the same members are equal, so `Distinct().Order()` is determined by the set of times |
| `PassageOrder.SortedDistinctBySet` | TollFeeCalculator/TollCalculator.cs:35-37 | inputs with the same members give the same ordered sequence |
| `SlidingWindow.Within` | TollFeeCalculator/TollCalculator.cs:48 | counts the leading passages that are not strictly later than a window's end: all those counted are at or before it, and the next one is after it |
| `SlidingWindow.Windows` | TollFeeCalculator/TollCalculator.cs:46-55 | the windows cut the ordered passages, in order, into non-empty groups. Every passage is at most one window length after its window's first passage. Each window opens strictly after the previous window's end |
| `SlidingWindow.WindowingUnique` | TollFeeCalculator/TollCalculator.cs:46-55 | any cut with those three properties is `Windows`, so the window rule fixes the windows |
| `SlidingWindow.Charge` | TollFeeCalculator/TollCalculator.cs:54-58 | a window's charge is at least zero and at least each of its fees, and it is zero or one of those fees |
| `SlidingWindow.SumCharges` | TollFeeCalculator/TollCalculator.cs:51-62 | the running total is non-negative and includes the first window's charge |
| `SlidingWindow.SingleWindow` | TollFeeCalculator/TollCalculator.cs:46-62 | a lone passage forms one window, charged its fee floored at zero |
| `SlidingWindow.SeparateWindow` | TollFeeCalculator/TollCalculator.cs:48-54 | a passage strictly later than the first window's end opens a new window, so the first passage is charged alone |
| `SlidingWindow.SharedWindow` | TollFeeCalculator/TollCalculator.cs:48-58 | a second passage at or before the window's end, the end itself included, shares the window, and only the higher fee is charged |
| `SlidingWindow.WindowedTotalAgrees` | TollFeeCalculator/TollCalculator.cs:57 | the total depends on the bands only through the fees of the passages themselves |
| `SlidingWindow.SpreadWindows` | TollFeeCalculator/TollCalculator.cs:48-54 | passages each more than one window length after the previous one form one window each |
| `SlidingWindow.SpreadTotal` | TollFeeCalculator/TollCalculator.cs:46-62 | such passages are each charged their full fee |
| `SlidingWindow.RunFromOpen` | TollFeeCalculator/TollCalculator.cs:46-59 | the loop invariant: from an open window, the remaining loop iterations and the final flush add the open window's top fee and the charges of the windows still to come |
| `SlidingWindow.Step` | TollFeeCalculator/TollCalculator.cs:48-58 | one loop iteration: a passage strictly later than the window's end (or the first passage) flushes the window's top fee into the total and opens a window at that passage; then the top fee becomes the larger of it and the passage's fee. `RunFromOpen` proves what repeated steps add up to |
| `SlidingWindow.RunFrom` | TollFeeCalculator/TollCalculator.cs:46-59 | the loop completes exactly when every remaining passage has a band (otherwise `First` throws part-way) |
| `SlidingWindow.Sweep` | TollFeeCalculator/TollCalculator.cs:46-62 | the loop followed by the final flush; `SweepIsWindowedTotal` proves it is the sum of the window charges |
| `SlidingWindow.SweepIsWindowedTotal` | TollFeeCalculator/TollCalculator.cs:41-62 | the loop and the final flush complete exactly when every passage has a band, and then give the sum of the window charges |
| `TollCalculator.LastInEffect` | TollFeeCalculator/TollCalculator.cs:23 | LINQ `Last`: no index exactly when no rule set's `ValidFrom` is on or before the date; otherwise the index of one that is, with none after it that is |
| `TollCalculator.SelectRuleSet` | TollFeeCalculator/TollCalculator.cs:85 | selection fails with the `Last` error exactly when no rule set is in effect; otherwise it returns a rule set in effect with no later-configured rule set in effect |
| `TollCalculator.SelectLatest` | TollFeeCalculator/TollCalculator.cs:23 | when the rule sets are configured in `ValidFrom` order, the selected one has the latest `ValidFrom` on or before the date |
| `TollCalculator.IsTollFreeVehicle` | TollFeeCalculator/TollCalculator.cs:69-72 | a vehicle is exempt when its type is in the rule set's exempt types; `ExemptionsCostNothing` proves an exempt vehicle costs 0 at both entry points and `NoExemptTypes` that no vehicle is exempt under the default empty set |
| `TollCalculator.TollFreeDay` | TollFeeCalculator/TollCalculator.cs:107-134 | the toll-free date policy as a plain disjunction (weekend, July, holiday, day before a holiday), the reference `IsTollFreeDate` is proved against |
| `TollCalculator.DayBeforeHoliday` | TollFeeCalculator/TollCalculator.cs:126-127 | `date.AddDays(1)` is a listed holiday exactly when some listed holiday is one day number after the date |
| `TollCalculator.IsTollFreeDate` | TollFeeCalculator/TollCalculator.cs:107-134 | a date is toll-free exactly when it is a Saturday or a Sunday, in July, a listed holiday, or the day before one. The only failure is on 9999-12-31 when none of the earlier checks holds, because `AddDays` throws there |
| `TollCalculator.LastDateNotFree` | TollFeeCalculator/TollCalculator.cs:107-134 | on 9999-12-31, unless it is itself a listed holiday, the date check reaches `AddDays(1)` and throws |
| `TollCalculator.PassageToll` | TollFeeCalculator/TollCalculator.cs:100-105 | the private overload fails with the `First` error exactly when no band contains the time; otherwise it returns the first containing band's fee |
| `TollCalculator.CalculateTollForPassage` | TollFeeCalculator/TollCalculator.cs:80-98 | a null vehicle, and only that, gives the argument error; with a vehicle, the `Last` error comes exactly when no rule set is in effect; the `AddDays` error only on 9999-12-31; a non-zero fee is charged only to a non-exempt vehicle on a day that is not toll-free, and is the fee of a band of the selected rule set containing the time. `AbsentArguments`, `NoRuleSetFails`, `ExemptionsCostNothing`, `ChargedPassage` and `SinglePassageDay` state the rest |
| `TollCalculator.DailyToll` | TollFeeCalculator/TollCalculator.cs:19-67 | the daily total as a specification: the two argument errors in the source's order, the `Last` error exactly when no rule set is in effect, the `AddDays` error only on 9999-12-31, and a non-zero total only for a non-exempt vehicle on a day that is not toll-free; `ChargedDay` and `DailyTollCapped` give the windowed, capped amount |
| `TollCalculator.SweepPassages` | TollFeeCalculator/TollCalculator.cs:41-62 | the source's loop over the ordered passages, with its window state, early exit where `First` throws, and final flush, computes `Sweep`, which `SweepIsWindowedTotal` proves is the sum of the window charges |
| `TollCalculator.CalculateTotalDailyToll` | TollFeeCalculator/TollCalculator.cs:19-67 | the argument checks, selection, exemptions, ordering and loop of the source return `DailyToll`. `DailyToll` is the argument checks, rule-set selection and exemptions, then the sum of the window charges clamped to the cap |
| `TollProperties.AbsentArguments` | TollFeeCalculator/TollCalculator.cs:21-22 | a null vehicle fails with the argument error in both entry points (also line 82), and a null passage collection fails in the daily total, before anything else is looked at |
| `TollProperties.NoRuleSetFails` | TollFeeCalculator/TollCalculator.cs:23 | with no rule set in effect, both entry points fail with the `Last` error |
| `TollProperties.EmptyDayIsFree` | TollFeeCalculator/TollCalculator.cs:41-66 | an empty passage collection costs 0 when a rule set is in effect, its cap is not negative (the result is `min(0, cap)`) and the date is not 9999-12-31, where the toll-free date check throws |
| `TollProperties.ChargedPassage` | TollFeeCalculator/TollCalculator.cs:80-98 | for a vehicle that is not exempt, on a date that is not toll-free, a single passage costs the band fee of its time |
| `TollProperties.ChargedDay` | TollFeeCalculator/TollCalculator.cs:19-66 | on such a day, the total fails when some passage has no band; otherwise it is the windowed sum over the ordered passages, clamped to the cap |
| `TollProperties.ExemptionsCostNothing` | TollFeeCalculator/TollCalculator.cs:25-33 | an exempt vehicle type or a toll-free date gives 0 from both entry points, whatever the bands; no band is looked up (also lines 86-94) |
| `TollProperties.DailyTollCapped` | TollFeeCalculator/TollCalculator.cs:64-66 | a successful daily total is at most the cap, or 0, and never below `min(0, cap)` |
| `TollProperties.DailyTollCoversEachPassage` | TollFeeCalculator/TollCalculator.cs:57-66 | when the day succeeds, each of its passages succeeds on its own, and that fee, capped, is at most the daily total |
| `TollProperties.DailyTollBySet` | TollFeeCalculator/TollCalculator.cs:35-37 | the daily total depends only on which times occur |
| `TollProperties.DailyTollPermutation` | TollFeeCalculator/TollCalculator.cs:35-37 | reordering the passage times does not change the daily total |
| `TollProperties.DailyTollDuplicate` | TollFeeCalculator/TollCalculator.cs:35-36 | repeating a passage time does not change the daily total |
| `TollProperties.SinglePassageDay` | TollFeeCalculator/TollCalculator.cs:19-67 | a day of one passage fails exactly as that passage alone does. When the passage succeeds, so does the day, and with non-negative fees and cap the day costs `min(passage fee, cap)` |
| `TollProperties.LastDateFails` | TollFeeCalculator/TollCalculator.cs:126 | on 9999-12-31, not a listed holiday, both entry points fail with the `AddDays` error for a vehicle that is not exempt |
| `TollProperties.NoHolidaysPolicy` | TollFeeCalculator/TollRuleSet.cs:8 | with the default empty holiday set, only weekends and July are toll-free |
| `TollProperties.NoExemptTypes` | TollFeeCalculator/TollRuleSet.cs:9 | with the default empty exempt-type set, no vehicle is exempt |
| `TollProperties.NoBandsFail` | TollFeeCalculator/TollRuleSet.cs:10 | with the default empty band list, a chargeable passage has no band and both entry points fail |
| `TollProperties.EmptyRuleSetAlwaysInEffect` | TollFeeCalculator/TollRuleSet.cs:5-10 | the all-defaults rule set (`ValidFrom` 0001-01-01) is in effect, and selected, on every date |
| `TollProperties.LastInEffectByDates` | TollFeeCalculator/TollCalculator.cs:23 | selection looks only at each rule set's `ValidFrom` |
| `TollProperties.FilledPassage` | TollFeeCalculator/TollCalculator.cs:100-105 | replacing a rule set's bands with bands that price every instant, and agree wherever the old ones priced, keeps every successful single-passage result. The only change is that the missing-band error becomes a fee |
| `TollProperties.FilledDailyToll` | TollFeeCalculator/TollCalculator.cs:46-66 | the same for the daily total |
| `Default2025.Parameters2025` | TollFeeCalculator/Default2025RuleSet.cs:7-9 | `ValidFrom` is 2025-01-01, the cap is 60, the window is one hour, and no fee is negative |
| `Default2025.Exemptions2025` | TollFeeCalculator/Default2025RuleSet.cs:32-40 | `Motorbike`, `Tractor`, `Emergency`, `Diplomat`, `Foreign` and `Military` are exempt and `Car` is not; over the seven types the model knows, exactly `Car` pays |
| `Default2025.BandsDisjoint2025` | TollFeeCalculator/Default2025RuleSet.cs:43-52 | the ten bands are laid out in order round the day, so no two overlap and at most one matches any time |
| `Default2025.OnlyLastBandWraps2025` | TollFeeCalculator/Default2025RuleSet.cs:43-52 | the first nine bands start before they end; only the last (18:30 to 05:59) wraps past midnight |
| `Default2025.BandFeesBounded2025` | TollFeeCalculator/Default2025RuleSet.cs:43-52 | every band fee lies between 0 and 18 |
| `Default2025.WindowChargeAtMost18` | TollFeeCalculator/Default2025RuleSet.cs:43-52 | so no window is charged more than 18 |
| `Default2025.MondayIsChargeable` | TollFeeCalculator/Default2025RuleSet.cs:10-31 | 2025-03-17 is a Monday that is neither a listed holiday nor the day before one, and the 2025 rule set is in effect on it |
| `Default2025.Schedule2025` | TollFeeCalculator.Tests/TollCalculatorTests.cs:10-19 | a car on Monday 2025-03-17 pays 8 at 06:15, 13 at 06:45, 18 at 07:30, 13 at 08:10, 8 at 09:30, 13 at 15:10, 18 at 16:00, 13 at 17:30, 8 at 18:15 and 0 at 19:00 |
| `Default2025.FreePassages2025` | TollFeeCalculator.Tests/TollCalculatorTests.cs:34-75 | passages at 06:15 cost 0 on Saturday 2025-03-15, on Sunday 2025-03-16 and on 2025-07-01, and a motorbike's passage on the Monday costs 0 |
| `Default2025.Holidays2025Free` | TollFeeCalculator.Tests/TollCalculatorTests.cs:77-103 | 2025-12-25 (listed) and 2025-12-23 (the day before listed 2025-12-24) are toll-free, so a car's 06:15 passage costs 0 on both |
| `Default2025.AccumulatedFee2025` | TollFeeCalculator.Tests/TollCalculatorTests.cs:161-179 | passages at 06:15 (8) and 17:15 (13) are in separate windows; the day costs 21 |
| `Default2025.HighestInWindow2025` | TollFeeCalculator.Tests/TollCalculatorTests.cs:181-199 | passages at 06:15 (8) and 06:45 (13) share a window; the day costs 13 |
| `Default2025.WindowEndIncluded2025` | TollFeeCalculator/TollCalculator.cs:48 | a passage exactly one hour after the window opened is still in it: 06:15 (8) and 07:15 (18) cost 18 |
| `Default2025.CappedAt60` | TollFeeCalculator.Tests/TollCalculatorTests.cs:201-222 | passages at 06:10, 07:15, 08:20, 15:35 and 16:40 form five windows with uncapped sum 75, and the day costs 60 |
| `Default2025.EmptyDay2025` | TollFeeCalculator.Tests/TollCalculatorTests.cs:146-159 | a car with no passages on the Monday pays 0 |
| `Default2025.Gaps2025` | TollFeeCalculator/Default2025RuleSet.cs:43-52 | as configured, a time has no band exactly when it lies in the minute a band's end names |
| `Default2025.MissingMinute2025` | TollFeeCalculator/TollCalculator.cs:102-104 | a car at 06:29 on the Monday gets the `First` error, both alone and in a day that also has a passage at 06:15 |
| `Default2025.CorrectedEnds2025` | TollFeeCalculator/Default2025RuleSet.cs:43-52 | the corrected bands differ from the configured ones only in ending one minute later |
| `Default2025.CorrectedPartition2025` | TollFeeCalculator/Default2025RuleSet.cs:43-52 | the corrected bands partition the day: they do not overlap, and every instant has a band |
| `Default2025.CorrectedFillsGaps2025` | TollFeeCalculator/Default2025RuleSet.cs:43-52 | wherever the configured bands give a fee, the corrected bands give the same fee |
| `Default2025.Corrected2025` | TollFeeCalculator/Default2025RuleSet.cs:41-53 | the corrected rule set reproduces every successful result of the configured one, for single passages and daily totals. It only turns the missing-band error into a fee: 06:29 costs 8 |

## Left out

- Fees and caps are integers, not `decimal`. `TollRule.TollSek` and `MaxDailyTollSek` are `decimal`, and the engine accepts fractional values; the model does not admit them. The 2025 rule set uses whole numbers only, and the engine only adds, takes maxima and takes a minimum, so on whole-number configurations the results are the same.
- `TimeOnly` and `TimeSpan` are unbounded integers of ticks, not 64-bit ones. `TimeOnly.Add` reduces the sum modulo one day, and the model does the same with Euclidean remainder, so the width makes no difference to any result.
- Parsing of `DateTime` values, `DateOnly.FromDateTime`, `TimeOnly.FromDateTime` and time zones are left out. A `DateTime` is already the pair of its date and time of day.
- The source files defining `TollCalculatorConfig`, `Vehicle`, `VehicleType` and `TollRule` are not part of this model; `RuleSets` reconstructs them from their use: the configuration is a sequence of rule sets, a vehicle carries only its type, and a band is (start, end, fee). The constructor at `TollCalculator.cs:7-10` only stores the configuration, and it is the model's `config` parameter.
- LINQ is specified, not implemented.
  - `Distinct().Order()` is the unique strictly increasing sequence with the input's members. `SortedDistinct` builds it by insertion.
  - `First` and `Last` are searches for the first or last match.
  - Lazy enumeration and repeated enumeration of the `IEnumerable` are not modelled.
- The exception types and their messages are reduced to the `Error` values listed above.
- Immutability of rule sets (`init`-only properties, `TollRuleSet.cs:5-10`) holds by construction: rule sets are immutable datatypes, so no calculation can change one. There is no lemma for it.
- `VehicleType` is a closed enumeration of the seven types the source names (`Car` and the six exempt in 2025). The source's enum may have more members; `Default2025.Exemptions2025` states the six exemptions and `Car`'s charge separately from the closed-enum "only `Car` pays".
- Holidays and exempt types are Dafny sets (`HashSet` in the source). Only membership matters, and duplicates cannot arise, by construction.
- The test project is left out as code. Its parameterless `new TollCalculator()` does not exist in the source. Its scenarios are lemmas about the 2025 rule set as the only configured rule set.
- The tests for July, holidays and the day before a holiday are marked as failing. The code implements those rules, and the model follows the code.
- Selection takes the last rule set in configured order whose `ValidFrom` is on or before the date (`Last`). `SelectLatest` shows that this is the rule set with the latest such `ValidFrom` when the rule sets are configured in `ValidFrom` order.
- Concurrency does not arise: the engine is sequential and holds no mutable state.

## Findings

| source | as written | input that shows it | evidently intended | confidence | as-written member | corrected member |
|---|---|---|---|---|---|---|
| TollFeeCalculator/Default2025RuleSet.cs:43-52 | each band's end is the last minute meant to belong to it (06:00 to 06:29, and so on), but `IsBetween` at `TollCalculator.cs:103` excludes the end | a car passage on Monday 2025-03-17 at 06:29 (likewise 05:59, 06:59, 07:59, 08:29, 14:59, 15:29, 16:59, 17:59 and 18:29): no band matches and `First` throws, so the single passage and every day containing it fail | each end minute belongs to its band, so the bands partition the day and 06:29 costs 8, as the tests' band comments (06:00-06:29, ...) read | not executed | `Default2025.MissingMinute2025` | `Default2025.Corrected2025` |

- `Default2025.Gaps2025` shows the as-written bands are missing exactly those ten minutes.
- `Default2025.Bands2025Corrected` ends each band where the next begins. `Default2025.CorrectedPartition2025` proves that these bands cover every instant exactly once.
- `Default2025.Corrected2025` proves that the corrected rule set gives the same result as the configured one wherever the configured one succeeds. So every 2025 scenario above holds for the corrected rule set as well.
