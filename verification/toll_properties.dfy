/** Properties of the two entry points, for any configuration. */
module TollProperties {

  import opened Wrappers
  import opened Calendar
  import opened Clock
  import opened RuleSets
  import opened Bands
  import opened PassageOrder
  import opened SlidingWindow
  import opened TollCalculator

  /** An absent vehicle or passage collection is rejected before anything else. */
  lemma AbsentArguments(config: seq<RuleSet>, vehicle: Vehicle, date: Date, at: DateTime, times: Option<seq<Time>>)
    ensures CalculateTollForPassage(config, None, at) == Failure(ArgumentNull("vehicle"))
    ensures DailyToll(config, None, date, times) == Failure(ArgumentNull("vehicle"))
    ensures DailyToll(config, Some(vehicle), date, None) == Failure(ArgumentNull("passageTimes"))
  {
  }

  /** No rule set in effect: both entry points fail once the arguments are present. */
  lemma NoRuleSetFails(config: seq<RuleSet>, vehicle: Vehicle, at: DateTime, times: seq<Time>)
    requires forall i :: 0 <= i < |config| ==> !InEffect(config[i], at.date)
    ensures CalculateTollForPassage(config, Some(vehicle), at) == Failure(NoRuleSetInEffect)
    ensures DailyToll(config, Some(vehicle), at.date, Some(times)) == Failure(NoRuleSetInEffect)
  {
  }

  /** An empty day costs nothing, whenever the date itself can be evaluated. */
  lemma EmptyDayIsFree(config: seq<RuleSet>, vehicle: Vehicle, date: Date)
    requires SelectRuleSet(config, date).Success? && date != MaxDate
    requires SelectRuleSet(config, date).value.maxDailyTollSek >= 0
    ensures DailyToll(config, Some(vehicle), date, Some([])) == Success(0)
  {
    var rs := SelectRuleSet(config, date).value;
    if !IsTollFreeVehicle(vehicle, rs) && IsTollFreeDate(date, rs) == Success(false) {
      assert SortedDistinct([]) == [];
      assert Windows([], rs.tollFreeWindowDuration) == [];
      ChargedDay(config, vehicle, date, []);
    }
  }

  /** The single-passage fee on a chargeable day is the band lookup's. */
  lemma ChargedPassage(config: seq<RuleSet>, vehicle: Vehicle, at: DateTime)
    requires SelectRuleSet(config, at.date).Success?
    requires var rs := SelectRuleSet(config, at.date).value;
             !IsTollFreeVehicle(vehicle, rs) && IsTollFreeDate(at.date, rs) == Success(false)
    ensures CalculateTollForPassage(config, Some(vehicle), at)
            == PassageToll(SelectRuleSet(config, at.date).value.tollRules, at.time)
  {
  }

  /** The daily total on a chargeable day. */
  lemma ChargedDay(config: seq<RuleSet>, vehicle: Vehicle, date: Date, times: seq<Time>)
    requires SelectRuleSet(config, date).Success?
    requires var rs := SelectRuleSet(config, date).value;
             !IsTollFreeVehicle(vehicle, rs) && IsTollFreeDate(date, rs) == Success(false)
    ensures var rs := SelectRuleSet(config, date).value;
            var ordered := SortedDistinct(times);
            DailyToll(config, Some(vehicle), date, Some(times))
              == if !AllPriced(rs.tollRules, ordered) then Failure(NoTollRuleMatches)
                 else Success(Min(WindowedTotal(rs.tollRules, rs.tollFreeWindowDuration, ordered), rs.maxDailyTollSek))
  {
  }

  /** An exempt vehicle or a toll-free date costs nothing at either entry point,
      whatever the bands are: no band is looked up. */
  lemma ExemptionsCostNothing(config: seq<RuleSet>, vehicle: Vehicle, at: DateTime, times: seq<Time>)
    requires SelectRuleSet(config, at.date).Success?
    requires var rs := SelectRuleSet(config, at.date).value;
             IsTollFreeVehicle(vehicle, rs) || TollFreeDay(at.date, rs.publicHolidays)
    ensures CalculateTollForPassage(config, Some(vehicle), at) == Success(0)
    ensures DailyToll(config, Some(vehicle), at.date, Some(times)) == Success(0)
  {
  }

  /** A daily total is 0 (exempt or toll-free) or at most the cap, and never
      below zero unless the cap is. */
  lemma DailyTollCapped(config: seq<RuleSet>, vehicle: Vehicle, date: Date, times: seq<Time>)
    requires DailyToll(config, Some(vehicle), date, Some(times)).Success?
    ensures SelectRuleSet(config, date).Success?
    ensures var total := DailyToll(config, Some(vehicle), date, Some(times)).value;
            var cap := SelectRuleSet(config, date).value.maxDailyTollSek;
            && (total == 0 || total <= cap)
            && Min(0, cap) <= total
  {
  }

  /** The fee of a passage in one of the windows is at most the sum of the charges. */
  lemma {:induction false} FeeBelowSumCharges(rules: seq<TollRule>, ws: seq<seq<Time>>, t: Time)
    requires AllPriced(rules, Flatten(ws)) && t in Flatten(ws)
    ensures Priced(rules, t) && Fee(rules, t) <= SumCharges(rules, ws)
    decreases |ws|
  {
    assert Flatten(ws) == ws[0] + Flatten(ws[1..]);
    if t !in ws[0] {
      FeeBelowSumCharges(rules, ws[1..], t);
    }
  }

  /** A day costs at least each of its passages would on its own, up to the cap. */
  lemma DailyTollCoversEachPassage(config: seq<RuleSet>, vehicle: Vehicle, date: Date, times: seq<Time>, t: Time)
    requires t in times
    requires DailyToll(config, Some(vehicle), date, Some(times)).Success?
    ensures CalculateTollForPassage(config, Some(vehicle), DateTime(date, t)).Success?
    ensures Min(CalculateTollForPassage(config, Some(vehicle), DateTime(date, t)).value,
                SelectRuleSet(config, date).value.maxDailyTollSek)
            <= DailyToll(config, Some(vehicle), date, Some(times)).value
  {
    var rs := SelectRuleSet(config, date).value;
    var free := IsTollFreeDate(date, rs);
    if !IsTollFreeVehicle(vehicle, rs) && free.Success? && !free.value {
      var ordered := SortedDistinct(times);
      assert t in ordered;
      FeeBelowSumCharges(rs.tollRules, Windows(ordered, rs.tollFreeWindowDuration), t);
    }
  }

  /** Only which times occur matters: not their order, not their repetition. */
  lemma DailyTollBySet(config: seq<RuleSet>, vehicle: Option<Vehicle>, date: Date, a: seq<Time>, b: seq<Time>)
    requires forall t :: t in a <==> t in b
    ensures DailyToll(config, vehicle, date, Some(a)) == DailyToll(config, vehicle, date, Some(b))
  {
    SortedDistinctBySet(a, b);
  }

  /** Reordering the passage times does not change the daily total. */
  lemma DailyTollPermutation(config: seq<RuleSet>, vehicle: Option<Vehicle>, date: Date, a: seq<Time>, b: seq<Time>)
    requires multiset(a) == multiset(b)
    ensures DailyToll(config, vehicle, date, Some(a)) == DailyToll(config, vehicle, date, Some(b))
  {
    forall t
      ensures t in a <==> t in b
    {
      assert t in a <==> t in multiset(a);
      assert t in b <==> t in multiset(b);
    }
    DailyTollBySet(config, vehicle, date, a, b);
  }

  /** Repeating a passage time does not change the daily total. */
  lemma DailyTollDuplicate(config: seq<RuleSet>, vehicle: Option<Vehicle>, date: Date, a: seq<Time>, i: int)
    requires 0 <= i < |a|
    ensures DailyToll(config, vehicle, date, Some(a + [a[i]])) == DailyToll(config, vehicle, date, Some(a))
  {
    DailyTollBySet(config, vehicle, date, a + [a[i]], a);
  }

  /** One passage alone: the daily total fails as the single-passage fee does,
      and otherwise is that fee clamped to the cap (for non-negative fees). */
  lemma SinglePassageDay(config: seq<RuleSet>, vehicle: Option<Vehicle>, date: Date, t: Time)
    ensures var single := CalculateTollForPassage(config, vehicle, DateTime(date, t));
            var daily := DailyToll(config, vehicle, date, Some([t]));
            && (single.Failure? ==> daily == single)
            && (single.Success? ==> daily.Success?)
            && (single.Success? && (forall i :: 0 <= i < |config| ==> NonNegativeFees(config[i]))
                ==> daily.value == Min(single.value, SelectRuleSet(config, date).value.maxDailyTollSek))
  {
    if vehicle.Some? && SelectRuleSet(config, date).Success? {
      var rs := SelectRuleSet(config, date).value;
      if !IsTollFreeVehicle(vehicle.value, rs) && IsTollFreeDate(date, rs) == Success(false) {
        SinglePassageCharged(config, vehicle.value, date, t);
      }
    }
  }

  lemma SinglePassageCharged(config: seq<RuleSet>, vehicle: Vehicle, date: Date, t: Time)
    requires SelectRuleSet(config, date).Success?
    requires var rs := SelectRuleSet(config, date).value;
             !IsTollFreeVehicle(vehicle, rs) && IsTollFreeDate(date, rs) == Success(false)
    ensures var rs := SelectRuleSet(config, date).value;
            var single := CalculateTollForPassage(config, Some(vehicle), DateTime(date, t));
            && single == PassageToll(rs.tollRules, t)
            && DailyToll(config, Some(vehicle), date, Some([t]))
               == if single.Failure? then single else Success(Min(Max(single.value, 0), rs.maxDailyTollSek))
    ensures var rs := SelectRuleSet(config, date).value;
            var single := CalculateTollForPassage(config, Some(vehicle), DateTime(date, t));
            single.Success? && (forall i :: 0 <= i < |config| ==> NonNegativeFees(config[i])) ==> single.value >= 0
  {
    var rs := SelectRuleSet(config, date).value;
    SortedUnique(SortedDistinct([t]), [t]);
    ChargedDay(config, vehicle, date, [t]);
    SingleWindow(rs.tollRules, rs.tollFreeWindowDuration, t);
    if Priced(rs.tollRules, t) {
      if forall i :: 0 <= i < |config| ==> NonNegativeFees(config[i]) {
        var k := FirstMatch(rs.tollRules, t).value;
        var j :| 0 <= j < |config| && config[j] == rs;
        assert rs.tollRules[k].tollSek >= 0;
      }
    }
  }

  /** 9999-12-31 is a Friday with no day after it: unless it is itself a
      holiday, `AddDays(1)` throws, and both entry points fail for a vehicle
      that is not exempt. */
  lemma LastDateFails(config: seq<RuleSet>, vehicle: Vehicle, t: Time, times: seq<Time>)
    requires SelectRuleSet(config, MaxDate).Success?
    requires var rs := SelectRuleSet(config, MaxDate).value;
             !IsTollFreeVehicle(vehicle, rs) && MaxDate !in rs.publicHolidays
    ensures CalculateTollForPassage(config, Some(vehicle), DateTime(MaxDate, t)) == Failure(DateOutOfRange)
    ensures DailyToll(config, Some(vehicle), MaxDate, Some(times)) == Failure(DateOutOfRange)
  {
    LastDateNotFree(SelectRuleSet(config, MaxDate).value);
  }

  // ---- The defaults of an unconfigured rule set ------------------------------

  /** With no public holidays, only weekends and July are toll-free. */
  lemma NoHolidaysPolicy(d: Date, rs: RuleSet)
    requires rs.publicHolidays == {}
    ensures IsTollFreeDate(d, rs).Success? ==> (IsTollFreeDate(d, rs).value <==> IsWeekend(d) || d.month == 7)
  {
  }

  /** With no exempt types, no vehicle is exempt. */
  lemma NoExemptTypes(v: Vehicle, rs: RuleSet)
    requires rs.tollFreeVehicleTypes == {}
    ensures !IsTollFreeVehicle(v, rs)
  {
  }

  /** With no bands, a chargeable passage has no matching band and both entry
      points fail. */
  lemma NoBandsFail(config: seq<RuleSet>, vehicle: Vehicle, at: DateTime)
    requires SelectRuleSet(config, at.date).Success?
    requires var rs := SelectRuleSet(config, at.date).value;
             rs.tollRules == [] && !IsTollFreeVehicle(vehicle, rs) && IsTollFreeDate(at.date, rs) == Success(false)
    ensures CalculateTollForPassage(config, Some(vehicle), at) == Failure(NoTollRuleMatches)
    ensures DailyToll(config, Some(vehicle), at.date, Some([at.time])) == Failure(NoTollRuleMatches)
  {
    SortedUnique(SortedDistinct([at.time]), [at.time]);
  }

  /** The unconfigured rule set is in effect on every date. */
  lemma EmptyRuleSetAlwaysInEffect(d: Date)
    ensures SelectRuleSet([EmptyRuleSet], d) == Success(EmptyRuleSet)
  {
    DayNumberOrder(MinDate, d);
  }

  // ---- Replacing the bands -------------------------------------------------------

  /** `filled` prices every instant, and agrees with `rules` wherever `rules`
      prices one. */
  ghost predicate FillsGaps(rules: seq<TollRule>, filled: seq<TollRule>) {
    && (forall t :: Priced(filled, t))
    && (forall t :: Priced(rules, t) ==> Fee(filled, t) == Fee(rules, t))
  }

  /** `other` is `config` with some rule sets' bands replaced by gap-filling ones. */
  ghost predicate BandsFilled(config: seq<RuleSet>, other: seq<RuleSet>) {
    && |other| == |config|
    && forall i :: 0 <= i < |config| ==>
         && other[i].(tollRules := config[i].tollRules) == config[i]
         && FillsGaps(config[i].tollRules, other[i].tollRules)
  }

  /** Selection looks only at `ValidFrom`. */
  lemma {:induction false} LastInEffectByDates(config: seq<RuleSet>, other: seq<RuleSet>, date: Date)
    requires |other| == |config|
    requires forall i :: 0 <= i < |config| ==> other[i].validFrom == config[i].validFrom
    ensures LastInEffect(other, date) == LastInEffect(config, date)
    decreases |config|
  {
    if |config| > 0 {
      var n := |config| - 1;
      LastInEffectByDates(config[..n], other[..n], date);
    }
  }

  lemma SelectFilled(config: seq<RuleSet>, other: seq<RuleSet>, date: Date)
    requires BandsFilled(config, other)
    ensures SelectRuleSet(other, date).Success? <==> SelectRuleSet(config, date).Success?
    ensures SelectRuleSet(config, date).Failure? ==> SelectRuleSet(other, date) == SelectRuleSet(config, date)
    ensures SelectRuleSet(config, date).Success? ==>
              && SelectRuleSet(other, date).value.(tollRules := SelectRuleSet(config, date).value.tollRules)
                 == SelectRuleSet(config, date).value
              && FillsGaps(SelectRuleSet(config, date).value.tollRules, SelectRuleSet(other, date).value.tollRules)
  {
    assert forall i :: 0 <= i < |config| ==> other[i].validFrom == config[i].validFrom by {
      forall i | 0 <= i < |config|
        ensures other[i].validFrom == config[i].validFrom
      {
        assert other[i].(tollRules := config[i].tollRules).validFrom == config[i].validFrom;
      }
    }
    LastInEffectByDates(config, other, date);
  }

  /** Rule sets that differ only in their bands exempt the same vehicles and dates. */
  lemma SameButBands(rs: RuleSet, rs2: RuleSet, date: Date)
    requires rs2.(tollRules := rs.tollRules) == rs
    ensures rs2.tollFreeVehicleTypes == rs.tollFreeVehicleTypes
    ensures rs2.maxDailyTollSek == rs.maxDailyTollSek
    ensures rs2.tollFreeWindowDuration == rs.tollFreeWindowDuration
    ensures IsTollFreeDate(date, rs2) == IsTollFreeDate(date, rs)
  {
    assert rs2.publicHolidays == rs.publicHolidays;
  }

  /** With the gaps filled, a single passage is charged as before wherever it
      was charged at all; the only change is that the missing-band error
      gives way to a fee. */
  lemma FilledPassage(config: seq<RuleSet>, other: seq<RuleSet>, vehicle: Option<Vehicle>, at: DateTime)
    requires BandsFilled(config, other)
    ensures var before := CalculateTollForPassage(config, vehicle, at);
            var after := CalculateTollForPassage(other, vehicle, at);
            && (before.Success? ==> after == before)
            && (after != before ==> before == Failure(NoTollRuleMatches) && after.Success?)
  {
    SelectFilled(config, other, at.date);
    if vehicle.Some? && SelectRuleSet(config, at.date).Success? {
      var rs := SelectRuleSet(config, at.date).value;
      var rs2 := SelectRuleSet(other, at.date).value;
      SameButBands(rs, rs2, at.date);
      if !IsTollFreeVehicle(vehicle.value, rs) && IsTollFreeDate(at.date, rs) == Success(false) {
        ChargedPassage(config, vehicle.value, at);
        ChargedPassage(other, vehicle.value, at);
        assert Priced(rs2.tollRules, at.time);
      }
    }
  }

  /** The same for the daily total. */
  lemma FilledDailyToll(config: seq<RuleSet>, other: seq<RuleSet>, vehicle: Option<Vehicle>, date: Date,
                        times: Option<seq<Time>>)
    requires BandsFilled(config, other)
    ensures var before := DailyToll(config, vehicle, date, times);
            var after := DailyToll(other, vehicle, date, times);
            && (before.Success? ==> after == before)
            && (after != before ==> before == Failure(NoTollRuleMatches) && after.Success?)
  {
    SelectFilled(config, other, date);
    if vehicle.Some? && times.Some? && SelectRuleSet(config, date).Success? {
      var rs := SelectRuleSet(config, date).value;
      var rs2 := SelectRuleSet(other, date).value;
      SameButBands(rs, rs2, date);
      if !IsTollFreeVehicle(vehicle.value, rs) && IsTollFreeDate(date, rs) == Success(false) {
        ChargedDay(config, vehicle.value, date, times.value);
        ChargedDay(other, vehicle.value, date, times.value);
        var ordered := SortedDistinct(times.value);
        assert AllPriced(rs2.tollRules, ordered);
        if AllPriced(rs.tollRules, ordered) {
          WindowedTotalAgrees(rs.tollRules, rs2.tollRules, rs.tollFreeWindowDuration, ordered);
        }
      }
    }
  }
}
