/** The concrete 2025 rule set and the fee scenarios it is expected to give. */
module Default2025 {

  import opened Wrappers
  import opened Calendar
  import opened Clock
  import opened RuleSets
  import opened Bands
  import opened PassageOrder
  import opened SlidingWindow
  import opened TollCalculator
  import opened TollProperties

  const Holidays2025: set<Date> := {
    CivilDate(2025, 1, 1),   // New Year's Day
    CivilDate(2025, 1, 6),   // Epiphany
    CivilDate(2025, 4, 18),  // Good Friday
    CivilDate(2025, 4, 19),  // Holy Saturday
    CivilDate(2025, 4, 20),  // Easter Sunday
    CivilDate(2025, 4, 21),  // Easter Monday
    CivilDate(2025, 4, 30),  // Walpurgis Eve
    CivilDate(2025, 5, 1),   // May Day
    CivilDate(2025, 5, 29),  // Ascension Day
    CivilDate(2025, 6, 6),   // National Day
    CivilDate(2025, 6, 7),   // Whitsun Eve
    CivilDate(2025, 6, 8),   // Whitsunday
    CivilDate(2025, 6, 20),  // Midsummer Eve
    CivilDate(2025, 6, 21),  // Midsummer Day
    CivilDate(2025, 11, 1),  // All Saints' Day
    CivilDate(2025, 12, 24), // Christmas Eve
    CivilDate(2025, 12, 25), // Christmas Day
    CivilDate(2025, 12, 26), // Boxing Day
    CivilDate(2025, 12, 31)  // New Year's Eve
  }

  const Exempt2025: set<VehicleType> := {Motorbike, Tractor, Emergency, Diplomat, Foreign, Military}

  /** The ten bands as configured; each end is the last minute meant to be in
      the band, but `IsBetween` excludes it. */
  const Bands2025: seq<TollRule> := [
    TollRule(At(6, 0), At(6, 29), 8),
    TollRule(At(6, 30), At(6, 59), 13),
    TollRule(At(7, 0), At(7, 59), 18),
    TollRule(At(8, 0), At(8, 29), 13),
    TollRule(At(8, 30), At(14, 59), 8),
    TollRule(At(15, 0), At(15, 29), 13),
    TollRule(At(15, 30), At(16, 59), 18),
    TollRule(At(17, 0), At(17, 59), 13),
    TollRule(At(18, 0), At(18, 29), 8),
    TollRule(At(18, 30), At(5, 59), 0)
  ]

  const RuleSet2025: RuleSet := RuleSet(CivilDate(2025, 1, 1), 60, Hours(1), Holidays2025, Exempt2025, Bands2025)

  const Config2025: seq<RuleSet> := [RuleSet2025]

  const Car := Some(Vehicle(VehicleType.Car))

  // ---- The rule set's constants --------------------------------------------------

  lemma Parameters2025()
    ensures RuleSet2025.validFrom == CivilDate(2025, 1, 1)
    ensures RuleSet2025.maxDailyTollSek == 60
    ensures RuleSet2025.tollFreeWindowDuration == TicksPerHour
    ensures NonNegativeFees(RuleSet2025)
  {
  }

  /** Every vehicle type except `Car` is exempt. */
  lemma Exemptions2025(vt: VehicleType)
    ensures && IsTollFreeVehicle(Vehicle(VehicleType.Motorbike), RuleSet2025)
            && IsTollFreeVehicle(Vehicle(VehicleType.Tractor), RuleSet2025)
            && IsTollFreeVehicle(Vehicle(VehicleType.Emergency), RuleSet2025)
            && IsTollFreeVehicle(Vehicle(VehicleType.Diplomat), RuleSet2025)
            && IsTollFreeVehicle(Vehicle(VehicleType.Foreign), RuleSet2025)
            && IsTollFreeVehicle(Vehicle(VehicleType.Military), RuleSet2025)
    ensures !IsTollFreeVehicle(Vehicle(VehicleType.Car), RuleSet2025)
    ensures IsTollFreeVehicle(Vehicle(vt), RuleSet2025) <==> vt != VehicleType.Car
  {
  }

  /** No instant lies in two bands, so at most one band matches any time. */
  lemma BandsDisjoint2025()
    ensures InOrder(Bands2025) && Disjoint(Bands2025)
  {
    InOrderDisjoint(Bands2025);
  }

  /** Only the last band wraps past midnight. */
  lemma OnlyLastBandWraps2025()
    ensures forall i :: 0 <= i < 9 ==> Bands2025[i].validFrom < Bands2025[i].validTo
    ensures Bands2025[9].validFrom > Bands2025[9].validTo
  {
  }

  /** Band fees lie between 0 and 18 ... */
  lemma BandFeesBounded2025()
    ensures forall i :: 0 <= i < |Bands2025| ==> 0 <= Bands2025[i].tollSek <= 18
  {
  }

  /** ... so no window is charged more than 18. */
  lemma WindowChargeAtMost18(w: seq<Time>)
    requires AllPriced(Bands2025, w)
    ensures 0 <= Charge(Bands2025, w) <= 18
  {
    var c := Charge(Bands2025, w);
    if c != 0 {
      var t :| t in w && Fee(Bands2025, t) == c;
      FeeIsSomeBand(Bands2025, t);
      BandFeesBounded2025();
    }
  }

  // ---- Single passages on Monday 2025-03-17 -------------------------------------

  const Monday: Date := CivilDate(2025, 3, 17)

  lemma MondayIsChargeable()
    ensures DayOfWeekOf(Monday) == DayOfWeek.Monday
    ensures IsTollFreeDate(Monday, RuleSet2025) == Success(false)
    ensures SelectRuleSet(Config2025, Monday) == Success(RuleSet2025)
  {
  }

  function CarAt(d: Date, hour: int, minute: int): Result<int, Error>
    requires 0 <= hour < 24 && 0 <= minute < 60
  {
    CalculateTollForPassage(Config2025, Car, DateTime(d, At(hour, minute)))
  }

  /** On a chargeable Monday the fee is the band's. */
  lemma CarOnMonday(hour: int, minute: int)
    requires 0 <= hour < 24 && 0 <= minute < 60
    ensures CarAt(Monday, hour, minute) == PassageToll(Bands2025, At(hour, minute))
  {
    MondayIsChargeable();
    Exemptions2025(VehicleType.Car);
    ChargedPassage(Config2025, Car.value, DateTime(Monday, At(hour, minute)));
  }

  /** The fee at `hour:minute` is band `i`'s. */
  lemma BandFee(hour: int, minute: int, i: int)
    requires 0 <= hour < 24 && 0 <= minute < 60
    requires 0 <= i < |Bands2025| && Matches(Bands2025[i], At(hour, minute))
    ensures CarAt(Monday, hour, minute) == Success(Bands2025[i].tollSek)
  {
    CarOnMonday(hour, minute);
    BandsDisjoint2025();
    FeeOfDisjoint(Bands2025, At(hour, minute), i);
  }

  /** The fee schedule on a toll-eligible weekday. */
  lemma Schedule2025()
    ensures CarAt(Monday, 6, 15) == Success(8)
    ensures CarAt(Monday, 6, 45) == Success(13)
    ensures CarAt(Monday, 7, 30) == Success(18)
    ensures CarAt(Monday, 8, 10) == Success(13)
    ensures CarAt(Monday, 9, 30) == Success(8)
    ensures CarAt(Monday, 15, 10) == Success(13)
    ensures CarAt(Monday, 16, 0) == Success(18)
    ensures CarAt(Monday, 17, 30) == Success(13)
    ensures CarAt(Monday, 18, 15) == Success(8)
    ensures CarAt(Monday, 19, 0) == Success(0)
  {
    ScheduleMorning();
    ScheduleAfternoon();
  }

  lemma ScheduleMorning()
    ensures CarAt(Monday, 6, 15) == Success(8)
    ensures CarAt(Monday, 6, 45) == Success(13)
    ensures CarAt(Monday, 7, 30) == Success(18)
    ensures CarAt(Monday, 8, 10) == Success(13)
    ensures CarAt(Monday, 9, 30) == Success(8)
  {
    ScheduleEarly();
    BandFee(8, 10, 3);
    BandFee(9, 30, 4);
  }

  lemma ScheduleEarly()
    ensures CarAt(Monday, 6, 15) == Success(8)
    ensures CarAt(Monday, 6, 45) == Success(13)
    ensures CarAt(Monday, 7, 30) == Success(18)
  {
    BandFee(6, 15, 0);
    BandFee(6, 45, 1);
    BandFee(7, 30, 2);
  }

  lemma ScheduleAfternoon()
    ensures CarAt(Monday, 15, 10) == Success(13)
    ensures CarAt(Monday, 16, 0) == Success(18)
    ensures CarAt(Monday, 17, 30) == Success(13)
    ensures CarAt(Monday, 18, 15) == Success(8)
    ensures CarAt(Monday, 19, 0) == Success(0)
  {
    BandFee(15, 10, 5);
    BandFee(16, 0, 6);
    BandFee(17, 30, 7);
    BandFee(18, 15, 8);
    BandFee(19, 0, 9);
  }

  /** Weekends, July and an exempt vehicle cost nothing. */
  lemma FreePassages2025()
    ensures CarAt(CivilDate(2025, 3, 15), 6, 15) == Success(0)
    ensures CarAt(CivilDate(2025, 3, 16), 6, 15) == Success(0)
    ensures CarAt(CivilDate(2025, 7, 1), 6, 15) == Success(0)
    ensures CalculateTollForPassage(Config2025, Some(Vehicle(Motorbike)), DateTime(Monday, At(6, 15))) == Success(0)
  {
    assert DayOfWeekOf(CivilDate(2025, 3, 15)) == Saturday;
    assert DayOfWeekOf(CivilDate(2025, 3, 16)) == Sunday;
  }

  /** Christmas Day is a listed holiday; 2025-12-23, a Tuesday, is the day
      before the listed Christmas Eve. */
  lemma Holidays2025Free()
    ensures IsTollFreeDate(CivilDate(2025, 12, 25), RuleSet2025) == Success(true)
    ensures IsTollFreeDate(CivilDate(2025, 12, 23), RuleSet2025) == Success(true)
    ensures CarAt(CivilDate(2025, 12, 25), 6, 15) == Success(0)
    ensures CarAt(CivilDate(2025, 12, 23), 6, 15) == Success(0)
  {
    assert DayOfWeekOf(CivilDate(2025, 12, 23)) == Tuesday;
    assert DayOfWeekOf(CivilDate(2025, 12, 25)) == Thursday;
  }

  // ---- Daily totals on Monday 2025-03-17 -----------------------------------------

  lemma FeeAt2025(hour: int, minute: int, i: int)
    requires 0 <= hour < 24 && 0 <= minute < 60
    requires 0 <= i < |Bands2025| && Matches(Bands2025[i], At(hour, minute))
    ensures Priced(Bands2025, At(hour, minute)) && Fee(Bands2025, At(hour, minute)) == Bands2025[i].tollSek
  {
    BandsDisjoint2025();
    FeeOfDisjoint(Bands2025, At(hour, minute), i);
  }

  /** A car's day on the Monday, for passage times already in order. */
  lemma CarMonday(ts: seq<Time>)
    requires StrictlyIncreasing(ts)
    ensures DailyToll(Config2025, Car, Monday, Some(ts))
            == if !AllPriced(Bands2025, ts) then Failure(NoTollRuleMatches)
               else Success(Min(WindowedTotal(Bands2025, Hours(1), ts), 60))
  {
    MondayIsChargeable();
    Exemptions2025(VehicleType.Car);
    SortedUnique(SortedDistinct(ts), ts);
    ChargedDay(Config2025, Car.value, Monday, ts);
  }

  /** A car's day on the Monday whose windows are already summed. */
  lemma CarMondayTotal(ts: seq<Time>, total: int)
    requires StrictlyIncreasing(ts) && AllPriced(Bands2025, ts)
    requires WindowedTotal(Bands2025, Hours(1), ts) == total
    ensures DailyToll(Config2025, Car, Monday, Some(ts)) == Success(Min(total, 60))
  {
    CarMonday(ts);
  }

  lemma PricedPair(ha: int, ma: int, ia: int, hb: int, mb: int, ib: int)
    requires 0 <= ha < 24 && 0 <= ma < 60 && 0 <= hb < 24 && 0 <= mb < 60
    requires 0 <= ia < |Bands2025| && Matches(Bands2025[ia], At(ha, ma))
    requires 0 <= ib < |Bands2025| && Matches(Bands2025[ib], At(hb, mb))
    ensures AllPriced(Bands2025, [At(ha, ma), At(hb, mb)])
    ensures At(ha, ma) < At(hb, mb) ==> StrictlyIncreasing([At(ha, ma), At(hb, mb)])
    ensures Fee(Bands2025, At(ha, ma)) == Bands2025[ia].tollSek
    ensures Fee(Bands2025, At(hb, mb)) == Bands2025[ib].tollSek
  {
    FeeAt2025(ha, ma, ia);
    FeeAt2025(hb, mb, ib);
  }

  /** 06:15 (8) and 17:15 (13) are more than an hour apart: two windows, 21. */
  lemma AccumulatedFee2025()
    ensures DailyToll(Config2025, Car, Monday, Some([At(6, 15), At(17, 15)])) == Success(21)
  {
    PricedPair(6, 15, 0, 17, 15, 7);
    SeparatePair(At(6, 15), At(17, 15));
    CarMondayTotal([At(6, 15), At(17, 15)], 21);
  }

  /** Two passages more than an hour apart are charged separately. */
  lemma SeparatePair(a: Time, b: Time)
    requires b > Add(a, Hours(1)) && Priced(Bands2025, a) && Priced(Bands2025, b)
    ensures AllPriced(Bands2025, [a, b])
    ensures WindowedTotal(Bands2025, Hours(1), [a, b]) == Max(Fee(Bands2025, a), 0) + Max(Fee(Bands2025, b), 0)
  {
    var ts := [a, b];
    assert ts[1..] == [b];
    SeparateWindow(Bands2025, Hours(1), ts);
    SingleWindow(Bands2025, Hours(1), b);
  }

  /** 06:15 (8) and 06:45 (13) share a window: only the higher fee, 13. */
  lemma HighestInWindow2025()
    ensures DailyToll(Config2025, Car, Monday, Some([At(6, 15), At(6, 45)])) == Success(13)
  {
    PricedPair(6, 15, 0, 6, 45, 1);
    SharedWindow(Bands2025, Hours(1), At(6, 15), At(6, 45));
    CarMondayTotal([At(6, 15), At(6, 45)], 13);
  }

  /** A passage exactly one hour after the window opened is still in it:
      06:15 (8) and 07:15 (18) cost 18. */
  lemma WindowEndIncluded2025()
    ensures DailyToll(Config2025, Car, Monday, Some([At(6, 15), At(7, 15)])) == Success(18)
  {
    PricedPair(6, 15, 0, 7, 15, 2);
    SharedWindow(Bands2025, Hours(1), At(6, 15), At(7, 15));
    CarMondayTotal([At(6, 15), At(7, 15)], 18);
  }

  lemma FivePriced()
    ensures Priced(Bands2025, At(6, 10)) && Fee(Bands2025, At(6, 10)) == 8
    ensures Priced(Bands2025, At(7, 15)) && Fee(Bands2025, At(7, 15)) == 18
    ensures Priced(Bands2025, At(8, 20)) && Fee(Bands2025, At(8, 20)) == 13
    ensures Priced(Bands2025, At(15, 35)) && Fee(Bands2025, At(15, 35)) == 18
    ensures Priced(Bands2025, At(16, 40)) && Fee(Bands2025, At(16, 40)) == 18
  {
    FeeAt2025(6, 10, 0);
    FeeAt2025(7, 15, 2);
    FeeAt2025(8, 20, 3);
    FeeAt2025(15, 35, 6);
    FeeAt2025(16, 40, 6);
  }

  /** The full fees of five priced passages, added up. */
  lemma FiveFullFees(rules: seq<TollRule>, a: Time, b: Time, c: Time, d: Time, e: Time)
    requires Priced(rules, a) && Priced(rules, b) && Priced(rules, c)
    requires Priced(rules, d) && Priced(rules, e)
    ensures AllPriced(rules, [a, b, c, d, e])
    ensures FullFees(rules, [a, b, c, d, e])
            == Max(Fee(rules, a), 0) + Max(Fee(rules, b), 0) + Max(Fee(rules, c), 0)
               + Max(Fee(rules, d), 0) + Max(Fee(rules, e), 0)
  {
    assert [e][1..] == [];
    assert FullFees(rules, [e]) == Max(Fee(rules, e), 0);
    assert [d, e][1..] == [e];
    assert FullFees(rules, [d, e]) == Max(Fee(rules, d), 0) + FullFees(rules, [e]);
    assert [c, d, e][1..] == [d, e];
    assert FullFees(rules, [c, d, e]) == Max(Fee(rules, c), 0) + FullFees(rules, [d, e]);
    assert [b, c, d, e][1..] == [c, d, e];
    assert FullFees(rules, [b, c, d, e]) == Max(Fee(rules, b), 0) + FullFees(rules, [c, d, e]);
    assert [a, b, c, d, e][1..] == [b, c, d, e];
  }

  /** Five passages in order, each more than an hour after the one before. */
  lemma FiveApart(a: Time, b: Time, c: Time, d: Time, e: Time)
    requires b > Add(a, Hours(1)) && c > Add(b, Hours(1)) && d > Add(c, Hours(1)) && e > Add(d, Hours(1))
    requires a < b < c < d < e
    ensures Spread([a, b, c, d, e], Hours(1)) && StrictlyIncreasing([a, b, c, d, e])
  {
  }

  /** A car's Monday with five passages spread more than an hour apart. */
  lemma CarMondaySpread(a: Time, b: Time, c: Time, d: Time, e: Time)
    requires Spread([a, b, c, d, e], Hours(1)) && StrictlyIncreasing([a, b, c, d, e])
    requires Priced(Bands2025, a) && Priced(Bands2025, b) && Priced(Bands2025, c)
    requires Priced(Bands2025, d) && Priced(Bands2025, e)
    ensures |Windows([a, b, c, d, e], Hours(1))| == 5
    ensures AllPriced(Bands2025, [a, b, c, d, e])
    ensures WindowedTotal(Bands2025, Hours(1), [a, b, c, d, e])
            == Max(Fee(Bands2025, a), 0) + Max(Fee(Bands2025, b), 0) + Max(Fee(Bands2025, c), 0)
               + Max(Fee(Bands2025, d), 0) + Max(Fee(Bands2025, e), 0)
    ensures DailyToll(Config2025, Car, Monday, Some([a, b, c, d, e]))
            == Success(Min(Max(Fee(Bands2025, a), 0) + Max(Fee(Bands2025, b), 0) + Max(Fee(Bands2025, c), 0)
                           + Max(Fee(Bands2025, d), 0) + Max(Fee(Bands2025, e), 0), 60))
  {
    var ts := [a, b, c, d, e];
    FiveFullFees(Bands2025, a, b, c, d, e);
    SpreadWindows(Hours(1), ts);
    SpreadTotal(Bands2025, Hours(1), ts);
    CarMondayTotal(ts, FullFees(Bands2025, ts));
  }

  /** 06:10, 07:15, 08:20, 15:35 and 16:40 are each more than an hour after
      the one before: five windows, charged 8 + 18 + 13 + 18 + 18 = 75, and
      the day is capped at 60. */
  lemma CappedAt60()
    ensures |Windows([At(6, 10), At(7, 15), At(8, 20), At(15, 35), At(16, 40)], Hours(1))| == 5
    ensures AllPriced(Bands2025, [At(6, 10), At(7, 15), At(8, 20), At(15, 35), At(16, 40)])
    ensures WindowedTotal(Bands2025, Hours(1), [At(6, 10), At(7, 15), At(8, 20), At(15, 35), At(16, 40)]) == 75
    ensures DailyToll(Config2025, Car, Monday, Some([At(6, 10), At(7, 15), At(8, 20), At(15, 35), At(16, 40)]))
            == Success(60)
  {
    FivePriced();
    FiveApart(At(6, 10), At(7, 15), At(8, 20), At(15, 35), At(16, 40));
    CarMondaySpread(At(6, 10), At(7, 15), At(8, 20), At(15, 35), At(16, 40));
  }

  /** No passage on the Monday costs anything without passages. */
  lemma EmptyDay2025()
    ensures DailyToll(Config2025, Car, Monday, Some([])) == Success(0)
  {
    MondayIsChargeable();
    EmptyDayIsFree(Config2025, Car.value, Monday);
  }

  // ---- The last minute of every band ---------------------------------------------

  /** `t` lies in the minute a band's configured end names. */
  ghost predicate InGap2025(t: Time) {
    exists i :: 0 <= i < |Bands2025| && Bands2025[i].validTo <= t < Bands2025[i].validTo + TicksPerMinute
  }

  /** As configured, the bands price every instant except the last minute of
      each band (05:59, 06:29, 06:59, 07:59, 08:29, 14:59, 15:29, 16:59, 17:59
      and 18:29), where the half-open `IsBetween` excludes the end. */
  lemma Gaps2025(t: Time)
    ensures !Priced(Bands2025, t) <==> InGap2025(t)
  {
    if InGap2025(t) {
      var i :| 0 <= i < |Bands2025| && Bands2025[i].validTo <= t < Bands2025[i].validTo + TicksPerMinute;
      assert forall j :: 0 <= j < |Bands2025| ==> !Matches(Bands2025[j], t);
    } else {
      CoveredOrGap2025(t);
    }
  }

  /** Walking through the day: every instant is in a band or in a gap. */
  lemma CoveredOrGap2025(t: Time)
    ensures InGap2025(t) || exists j :: 0 <= j < |Bands2025| && Matches(Bands2025[j], t)
  {
    if t < At(5, 59) {
      assert Matches(Bands2025[9], t);
    } else if t < At(6, 0) {
      assert Bands2025[9].validTo <= t < Bands2025[9].validTo + TicksPerMinute;
    } else if t < At(6, 29) {
      assert Matches(Bands2025[0], t);
    } else if t < At(6, 30) {
      assert Bands2025[0].validTo <= t < Bands2025[0].validTo + TicksPerMinute;
    } else if t < At(6, 59) {
      assert Matches(Bands2025[1], t);
    } else if t < At(7, 0) {
      assert Bands2025[1].validTo <= t < Bands2025[1].validTo + TicksPerMinute;
    } else if t < At(7, 59) {
      assert Matches(Bands2025[2], t);
    } else if t < At(8, 0) {
      assert Bands2025[2].validTo <= t < Bands2025[2].validTo + TicksPerMinute;
    } else if t < At(8, 29) {
      assert Matches(Bands2025[3], t);
    } else if t < At(8, 30) {
      assert Bands2025[3].validTo <= t < Bands2025[3].validTo + TicksPerMinute;
    } else if t < At(14, 59) {
      assert Matches(Bands2025[4], t);
    } else if t < At(15, 0) {
      assert Bands2025[4].validTo <= t < Bands2025[4].validTo + TicksPerMinute;
    } else if t < At(15, 29) {
      assert Matches(Bands2025[5], t);
    } else if t < At(15, 30) {
      assert Bands2025[5].validTo <= t < Bands2025[5].validTo + TicksPerMinute;
    } else if t < At(16, 59) {
      assert Matches(Bands2025[6], t);
    } else if t < At(17, 0) {
      assert Bands2025[6].validTo <= t < Bands2025[6].validTo + TicksPerMinute;
    } else if t < At(17, 59) {
      assert Matches(Bands2025[7], t);
    } else if t < At(18, 0) {
      assert Bands2025[7].validTo <= t < Bands2025[7].validTo + TicksPerMinute;
    } else if t < At(18, 29) {
      assert Matches(Bands2025[8], t);
    } else if t < At(18, 30) {
      assert Bands2025[8].validTo <= t < Bands2025[8].validTo + TicksPerMinute;
    } else {
      assert Matches(Bands2025[9], t);
    }
  }

  /** A car at 06:29 on the Monday: no band matches and `First` throws, for a
      single passage and for a day containing that passage. */
  lemma MissingMinute2025()
    ensures CarAt(Monday, 6, 29) == Failure(NoTollRuleMatches)
    ensures DailyToll(Config2025, Car, Monday, Some([At(6, 15), At(6, 29)])) == Failure(NoTollRuleMatches)
  {
    MissingMinutePassage();
    MissingMinuteDay();
  }

  lemma MissingMinutePassage()
    ensures CarAt(Monday, 6, 29) == Failure(NoTollRuleMatches)
  {
    Unpriced0629();
    CarOnMonday(6, 29);
  }

  lemma MissingMinuteDay()
    ensures DailyToll(Config2025, Car, Monday, Some([At(6, 15), At(6, 29)])) == Failure(NoTollRuleMatches)
  {
    Unpriced0629();
    assert StrictlyIncreasing([At(6, 15), At(6, 29)]);
    CarMondayUnpriced([At(6, 15), At(6, 29)], At(6, 29));
  }

  /** One passage without a band makes the whole day fail. */
  lemma CarMondayUnpriced(ts: seq<Time>, t: Time)
    requires StrictlyIncreasing(ts) && t in ts && !Priced(Bands2025, t)
    ensures DailyToll(Config2025, Car, Monday, Some(ts)) == Failure(NoTollRuleMatches)
  {
    CarMonday(ts);
  }

  lemma Unpriced0629()
    ensures !Priced(Bands2025, At(6, 29))
  {
    Gaps2025(At(6, 29));
    assert Bands2025[0].validTo <= At(6, 29) < Bands2025[0].validTo + TicksPerMinute;
  }

  /** The bands as evidently meant: each ends where the next begins, so each
      configured end minute is inside its band. */
  const Bands2025Corrected: seq<TollRule> := [
    TollRule(At(6, 0), At(6, 30), 8),
    TollRule(At(6, 30), At(7, 0), 13),
    TollRule(At(7, 0), At(8, 0), 18),
    TollRule(At(8, 0), At(8, 30), 13),
    TollRule(At(8, 30), At(15, 0), 8),
    TollRule(At(15, 0), At(15, 30), 13),
    TollRule(At(15, 30), At(17, 0), 18),
    TollRule(At(17, 0), At(18, 0), 13),
    TollRule(At(18, 0), At(18, 30), 8),
    TollRule(At(18, 30), At(6, 0), 0)
  ]

  const RuleSet2025Corrected: RuleSet := RuleSet2025.(tollRules := Bands2025Corrected)

  const Config2025Corrected: seq<RuleSet> := [RuleSet2025Corrected]

  /** The correction moves every end one minute later and changes nothing else. */
  lemma CorrectedEnds2025()
    ensures |Bands2025Corrected| == |Bands2025|
    ensures forall i :: 0 <= i < |Bands2025| ==>
              && Bands2025Corrected[i].validFrom == Bands2025[i].validFrom
              && Bands2025Corrected[i].validTo == Add(Bands2025[i].validTo, TicksPerMinute)
              && Bands2025Corrected[i].tollSek == Bands2025[i].tollSek
  {
  }

  /** Walking through the day: every instant is in some corrected band. */
  lemma CorrectedCovers2025(t: Time)
    ensures exists j :: 0 <= j < |Bands2025Corrected| && Matches(Bands2025Corrected[j], t)
  {
    if t < At(6, 0) {
      assert Matches(Bands2025Corrected[9], t);
    } else if t < At(6, 30) {
      assert Matches(Bands2025Corrected[0], t);
    } else if t < At(7, 0) {
      assert Matches(Bands2025Corrected[1], t);
    } else if t < At(8, 0) {
      assert Matches(Bands2025Corrected[2], t);
    } else if t < At(8, 30) {
      assert Matches(Bands2025Corrected[3], t);
    } else if t < At(15, 0) {
      assert Matches(Bands2025Corrected[4], t);
    } else if t < At(15, 30) {
      assert Matches(Bands2025Corrected[5], t);
    } else if t < At(17, 0) {
      assert Matches(Bands2025Corrected[6], t);
    } else if t < At(18, 0) {
      assert Matches(Bands2025Corrected[7], t);
    } else if t < At(18, 30) {
      assert Matches(Bands2025Corrected[8], t);
    } else {
      assert Matches(Bands2025Corrected[9], t);
    }
  }

  /** The corrected bands partition the day: every instant lies in exactly one. */
  lemma CorrectedPartition2025()
    ensures InOrder(Bands2025Corrected) && Disjoint(Bands2025Corrected)
    ensures forall t :: Priced(Bands2025Corrected, t)
  {
    InOrderDisjoint(Bands2025Corrected);
    forall t: Time
      ensures Priced(Bands2025Corrected, t)
    {
      CorrectedCovers2025(t);
    }
  }

  lemma CorrectedWidens2025(i: int, t: Time)
    requires 0 <= i < |Bands2025| && Matches(Bands2025[i], t)
    ensures Matches(Bands2025Corrected[i], t)
  {
  }

  /** Wherever the configured bands give a fee, the corrected ones give the same. */
  lemma CorrectedFillsGaps2025()
    ensures FillsGaps(Bands2025, Bands2025Corrected)
  {
    CorrectedPartition2025();
    forall t | Priced(Bands2025, t)
      ensures Fee(Bands2025Corrected, t) == Fee(Bands2025, t)
    {
      var i := FirstMatch(Bands2025, t).value;
      CorrectedWidens2025(i, t);
      FeeOfDisjoint(Bands2025Corrected, t, i);
      CorrectedEnds2025();
    }
  }

  /** The corrected rule set charges every passage and every day the configured
      one charges exactly as before, and turns only the missing-band error into
      a fee: 06:29 costs 8, the fee of the 06:00-06:29 band. */
  lemma Corrected2025(vehicle: Option<Vehicle>, at: DateTime, date: Date, times: Option<seq<Time>>)
    ensures var before := CalculateTollForPassage(Config2025, vehicle, at);
            var after := CalculateTollForPassage(Config2025Corrected, vehicle, at);
            && (before.Success? ==> after == before)
            && (after != before ==> before == Failure(NoTollRuleMatches) && after.Success?)
    ensures var before := DailyToll(Config2025, vehicle, date, times);
            var after := DailyToll(Config2025Corrected, vehicle, date, times);
            && (before.Success? ==> after == before)
            && (after != before ==> before == Failure(NoTollRuleMatches) && after.Success?)
    ensures CalculateTollForPassage(Config2025Corrected, Car, DateTime(Monday, At(6, 29))) == Success(8)
  {
    CorrectedFillsGaps2025();
    assert RuleSet2025Corrected.(tollRules := RuleSet2025.tollRules) == RuleSet2025;
    assert BandsFilled(Config2025, Config2025Corrected);
    FilledPassage(Config2025, Config2025Corrected, vehicle, at);
    FilledDailyToll(Config2025, Config2025Corrected, vehicle, date, times);
    CorrectedMinute2025();
  }

  lemma CorrectedMinute2025()
    ensures CalculateTollForPassage(Config2025Corrected, Car, DateTime(Monday, At(6, 29))) == Success(8)
  {
    MondayIsChargeable();
    assert SelectRuleSet(Config2025Corrected, Monday) == Success(RuleSet2025Corrected);
    Exemptions2025(VehicleType.Car);
    assert IsTollFreeDate(Monday, RuleSet2025Corrected) == Success(false);
    ChargedPassage(Config2025Corrected, Car.value, DateTime(Monday, At(6, 29)));
    CorrectedPartition2025();
    FeeOfDisjoint(Bands2025Corrected, At(6, 29), 0);
  }
}
