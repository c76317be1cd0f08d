/** The configuration the engine runs on: vehicles, time-of-day fee bands and
    the rule set bundling them with holidays, exemptions, window and cap.
    Every field is immutable, as the source's init-only properties are. */
module RuleSets {

  import opened Calendar
  import opened Clock

  datatype VehicleType = Car | Motorbike | Tractor | Emergency | Diplomat | Foreign | Military

  datatype Vehicle = Vehicle(vehicleType: VehicleType)

  /** One fee band: `tollSek` is charged for times `IsBetween(validFrom, validTo)`. */
  datatype TollRule = TollRule(validFrom: Time, validTo: Time, tollSek: int)

  datatype RuleSet = RuleSet(
    validFrom: Date,
    maxDailyTollSek: int,
    tollFreeWindowDuration: Duration,
    publicHolidays: set<Date>,
    tollFreeVehicleTypes: set<VehicleType>,
    tollRules: seq<TollRule>)

  /** A rule set with every property left at its default: `default(DateOnly)`,
      zero cap and window, and empty holiday, exemption and band collections. */
  const EmptyRuleSet: RuleSet := RuleSet(MinDate, 0, 0, {}, {}, [])

  /** Configuration in which no cap or band fee is negative. */
  predicate NonNegativeFees(rs: RuleSet) {
    && rs.maxDailyTollSek >= 0
    && forall i :: 0 <= i < |rs.tollRules| ==> rs.tollRules[i].tollSek >= 0
  }
}
