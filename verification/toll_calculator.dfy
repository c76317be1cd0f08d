/** The toll engine: rule-set selection by date, vehicle and date exemptions,
    the single-passage fee and the capped daily total under the toll-free
    window rule. The configuration is the ordered sequence of rule sets. */
module TollCalculator {

  import opened Wrappers
  import opened Calendar
  import opened Clock
  import opened RuleSets
  import opened Bands
  import opened PassageOrder
  import opened SlidingWindow

  /** What the source throws. */
  datatype Error =
    | ArgumentNull(paramName: string)  // ArgumentNullException
    | NoRuleSetInEffect                // InvalidOperationException from `Last`
    | NoTollRuleMatches                // InvalidOperationException from `First`
    | DateOutOfRange                   // ArgumentOutOfRangeException from `AddDays`

  /** A `DateTime`, split as `DateOnly.FromDateTime` and `TimeOnly.FromDateTime` do. */
  datatype DateTime = DateTime(date: Date, time: Time)

  // ---- Rule-set selection -----------------------------------------------------

  predicate InEffect(rs: RuleSet, date: Date) {
    OnOrBefore(rs.validFrom, date)
  }

  /** The index of the last rule set, in configured order, in effect on `date`. */
  function LastInEffect(config: seq<RuleSet>, date: Date): (r: Option<nat>)
    ensures r.None? <==> forall i :: 0 <= i < |config| ==> !InEffect(config[i], date)
    ensures r.Some? ==> && r.value < |config|
                        && InEffect(config[r.value], date)
                        && forall j :: r.value < j < |config| ==> !InEffect(config[j], date)
    decreases |config|
  {
    if |config| == 0 then None
    else if InEffect(config[|config| - 1], date) then Some(|config| - 1)
    else LastInEffect(config[..|config| - 1], date)
  }

  /** `RuleSets.Last(x => x.ValidFrom <= date)`. */
  function SelectRuleSet(config: seq<RuleSet>, date: Date): (r: Result<RuleSet, Error>)
    ensures r.Failure? <==> forall i :: 0 <= i < |config| ==> !InEffect(config[i], date)
    ensures r.Failure? ==> r.error == NoRuleSetInEffect
    ensures r.Success? ==> exists i :: && 0 <= i < |config| && config[i] == r.value
                                      && InEffect(config[i], date)
                                      && forall j :: i < j < |config| ==> !InEffect(config[j], date)
  {
    match LastInEffect(config, date)
    case None => Failure(NoRuleSetInEffect)
    case Some(i) => Success(config[i])
  }

  /** When the rule sets are configured in order of `ValidFrom`, the one
      selected is the one with the latest `ValidFrom` not after the date. */
  lemma SelectLatest(config: seq<RuleSet>, date: Date, i: int)
    requires forall a, b :: 0 <= a < b < |config| ==> OnOrBefore(config[a].validFrom, config[b].validFrom)
    requires 0 <= i < |config| && InEffect(config[i], date)
    ensures SelectRuleSet(config, date).Success?
    ensures OnOrBefore(config[i].validFrom, SelectRuleSet(config, date).value.validFrom)
  {
    var k := LastInEffect(config, date).value;
    assert i <= k;
  }

  // ---- Exemptions -------------------------------------------------------------

  predicate IsTollFreeVehicle(vehicle: Vehicle, rs: RuleSet) {
    vehicle.vehicleType in rs.tollFreeVehicleTypes
  }

  predicate IsWeekend(d: Date) {
    DayOfWeekOf(d) == Saturday || DayOfWeekOf(d) == Sunday
  }

  /** The toll-free date policy: a weekend, any day of July, a public holiday,
      or the day before one. */
  ghost predicate TollFreeDay(d: Date, holidays: set<Date>) {
    || IsWeekend(d)
    || d.month == 7
    || d in holidays
    || exists h :: h in holidays && DayNumber(h) == DayNumber(d) + 1
  }

  /** The next day is a holiday exactly when some holiday's day number is one
      more than `d`'s. */
  lemma DayBeforeHoliday(d: Date, holidays: set<Date>)
    requires d != MaxDate
    ensures NextDay(d).value in holidays <==> exists h :: h in holidays && DayNumber(h) == DayNumber(d) + 1
  {
    NextDayNumber(d);
    DayNumberInjective();
  }

  /** The source's `IsTollFreeDate`, checks in its order; `AddDays(1)` throws
      on the last representable date. */
  function IsTollFreeDate(d: Date, rs: RuleSet): (r: Result<bool, Error>)
    ensures r.Success? ==> (r.value <==> TollFreeDay(d, rs.publicHolidays))
    ensures r.Failure? <==> d == MaxDate && !TollFreeDay(d, rs.publicHolidays)
    ensures r.Failure? ==> r.error == DateOutOfRange
  {
    if IsWeekend(d) then Success(true)
    else if d.month == 7 then Success(true)
    else if d in rs.publicHolidays then Success(true)
    else
      match NextDay(d)
      case None =>
        assert forall h: Date :: DayNumber(h) != DayNumber(d) + 1 by {
          forall h: Date
            ensures DayNumber(h) != DayNumber(d) + 1
          {
            MaxDateIsLast(h);
          }
        }
        Failure(DateOutOfRange)
      case Some(next) =>
        DayBeforeHoliday(d, rs.publicHolidays);
        Success(next in rs.publicHolidays)
  }

  /** Only a holiday on 9999-12-31 itself makes it toll-free; otherwise the
      date check throws. */
  lemma LastDateNotFree(rs: RuleSet)
    requires MaxDate !in rs.publicHolidays
    ensures IsTollFreeDate(MaxDate, rs) == Failure(DateOutOfRange)
  {
    MaxDateFriday();
    assert !IsWeekend(MaxDate);
  }

  // ---- Passage fees -----------------------------------------------------------

  /** The private `CalculateTollForPassage` overload: the fee of the first band
      containing `t`, or the error `First` throws when none does. */
  function PassageToll(rules: seq<TollRule>, t: Time): (r: Result<int, Error>)
    ensures r.Failure? <==> forall i :: 0 <= i < |rules| ==> !Matches(rules[i], t)
    ensures r.Failure? ==> r.error == NoTollRuleMatches
    ensures forall i :: && 0 <= i < |rules| && Matches(rules[i], t)
                        && (forall j :: 0 <= j < i ==> !Matches(rules[j], t))
                        ==> r == Success(rules[i].tollSek)
    ensures r.Success? ==> exists k :: 0 <= k < |rules| && Matches(rules[k], t) && r.value == rules[k].tollSek
  {
    if Priced(rules, t) then FeeIsSomeBand(rules, t); Success(Fee(rules, t)) else Failure(NoTollRuleMatches)
  }

  /** The public `CalculateTollForPassage(vehicle, passageDateTime)`. Each
      error has one cause, and a non-zero fee is that of a band of the
      selected rule set containing the time, for a non-exempt vehicle on a
      chargeable day. */
  function CalculateTollForPassage(config: seq<RuleSet>, vehicle: Option<Vehicle>, at: DateTime): (r: Result<int, Error>)
    ensures vehicle.None? <==> r == Failure(ArgumentNull("vehicle"))
    ensures vehicle.Some? ==> (r == Failure(NoRuleSetInEffect) <==> SelectRuleSet(config, at.date).Failure?)
    ensures r == Failure(DateOutOfRange) ==> at.date == MaxDate
    ensures r.Success? && r.value != 0 ==>
              && vehicle.Some? && SelectRuleSet(config, at.date).Success?
              && var rs := SelectRuleSet(config, at.date).value;
                 && !IsTollFreeVehicle(vehicle.value, rs)
                 && !TollFreeDay(at.date, rs.publicHolidays)
                 && exists k :: 0 <= k < |rs.tollRules| && Matches(rs.tollRules[k], at.time) && r.value == rs.tollRules[k].tollSek
  {
    if vehicle.None? then Failure(ArgumentNull("vehicle"))
    else
      var rs :- SelectRuleSet(config, at.date);
      if IsTollFreeVehicle(vehicle.value, rs) then Success(0)
      else
        var free :- IsTollFreeDate(at.date, rs);
        if free then Success(0)
        else PassageToll(rs.tollRules, at.time)
  }

  // ---- Daily total ------------------------------------------------------------

  /** What `CalculateTotalDailyToll` returns: after the argument checks, rule-set
      selection and exemptions, the sum of the window charges over the sorted
      distinct passage times, clamped to the daily cap. */
  function DailyToll(config: seq<RuleSet>, vehicle: Option<Vehicle>, date: Date, times: Option<seq<Time>>): (r: Result<int, Error>)
    ensures vehicle.None? <==> r == Failure(ArgumentNull("vehicle"))
    ensures vehicle.Some? ==> (times.None? <==> r == Failure(ArgumentNull("passageTimes")))
    ensures vehicle.Some? && times.Some? ==> (r == Failure(NoRuleSetInEffect) <==> SelectRuleSet(config, date).Failure?)
    ensures r == Failure(DateOutOfRange) ==> date == MaxDate
    ensures r.Success? && r.value != 0 ==>
              && vehicle.Some? && times.Some? && SelectRuleSet(config, date).Success?
              && var rs := SelectRuleSet(config, date).value;
                 !IsTollFreeVehicle(vehicle.value, rs) && !TollFreeDay(date, rs.publicHolidays)
  {
    if vehicle.None? then Failure(ArgumentNull("vehicle"))
    else if times.None? then Failure(ArgumentNull("passageTimes"))
    else
      var rs :- SelectRuleSet(config, date);
      if IsTollFreeVehicle(vehicle.value, rs) then Success(0)
      else
        var free :- IsTollFreeDate(date, rs);
        if free then Success(0)
        else
          var ordered := SortedDistinct(times.value);
          if !AllPriced(rs.tollRules, ordered) then Failure(NoTollRuleMatches)
          else Success(Min(WindowedTotal(rs.tollRules, rs.tollFreeWindowDuration, ordered), rs.maxDailyTollSek))
  }

  /** `CalculateTotalDailyToll`, with the source's single-pass sweep. */
  method CalculateTotalDailyToll(config: seq<RuleSet>, vehicle: Option<Vehicle>, date: Date, times: Option<seq<Time>>)
    returns (r: Result<int, Error>)
    ensures r == DailyToll(config, vehicle, date, times)
  {
    if vehicle.None? {
      return Failure(ArgumentNull("vehicle"));
    }
    if times.None? {
      return Failure(ArgumentNull("passageTimes"));
    }
    var selected := SelectRuleSet(config, date);
    if selected.Failure? {
      return Failure(selected.error);
    }
    var rs := selected.value;
    if IsTollFreeVehicle(vehicle.value, rs) {
      return Success(0);
    }
    var free := IsTollFreeDate(date, rs);
    if free.Failure? {
      return Failure(free.error);
    }
    if free.value {
      return Success(0);
    }
    var ordered := SortedDistinct(times.value);
    var rules, duration := rs.tollRules, rs.tollFreeWindowDuration;
    var swept := SweepPassages(rules, duration, ordered);
    SweepIsWindowedTotal(rules, duration, ordered);
    if swept.None? {
      return Failure(NoTollRuleMatches);
    }
    r := Success(Min(swept.value, rs.maxDailyTollSek));
  }

  /** The loop of `CalculateTotalDailyToll` over the ordered passages and the
      final flush of the last window; `None` where `First` throws. */
  method SweepPassages(rules: seq<TollRule>, duration: Duration, ordered: seq<Time>) returns (r: Option<int>)
    ensures r == Sweep(rules, duration, ordered)
  {
    var total := 0;
    var windowStart: Option<Time> := None;
    var windowEnd: Time := 0;
    var windowTop := 0;
    var i := 0;
    while i < |ordered|
      invariant 0 <= i <= |ordered|
      invariant RunFrom(rules, duration, ordered[i..], SweepState(total, windowStart, windowEnd, windowTop))
                == RunFrom(rules, duration, ordered, Initial)
    {
      ghost var before := SweepState(total, windowStart, windowEnd, windowTop);
      assert ordered[i..][1..] == ordered[i + 1..];
      var t := ordered[i];
      if windowStart.None? || t > windowEnd {
        total := total + windowTop;
        windowStart := Some(t);
        windowEnd := Add(t, duration);
        windowTop := 0;
      }
      var fee := PassageToll(rules, t);
      if fee.Failure? {
        return None;
      }
      windowTop := Max(fee.value, windowTop);
      assert Step(before, t, fee.value, duration) == SweepState(total, windowStart, windowEnd, windowTop);
      i := i + 1;
    }
    assert RunFrom(rules, duration, ordered, Initial) == Some(SweepState(total, windowStart, windowEnd, windowTop));
    // The last window is flushed after the loop.
    total := total + windowTop;
    r := Some(total);
  }
}
