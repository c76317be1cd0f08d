/** Fee-band lookup: the first `TollRule` whose range contains the time. */
module Bands {

  import opened Wrappers
  import opened Clock
  import opened RuleSets

  predicate Matches(rule: TollRule, t: Time) {
    IsBetween(t, rule.validFrom, rule.validTo)
  }

  /** The index of the first rule matching `t` (LINQ `First`), if any. */
  function FirstMatch(rules: seq<TollRule>, t: Time): (r: Option<nat>)
    ensures r.None? <==> forall j :: 0 <= j < |rules| ==> !Matches(rules[j], t)
    ensures r.Some? ==> && r.value < |rules|
                        && Matches(rules[r.value], t)
                        && forall j :: 0 <= j < r.value ==> !Matches(rules[j], t)
    decreases |rules|
  {
    if |rules| == 0 then None
    else if Matches(rules[0], t) then Some(0)
    else
      match FirstMatch(rules[1..], t)
      case None => None
      case Some(i) => Some(i + 1)
  }

  /** Some band covers `t`, so the lookup does not throw. */
  predicate Priced(rules: seq<TollRule>, t: Time) {
    FirstMatch(rules, t).Some?
  }

  predicate AllPriced(rules: seq<TollRule>, ts: seq<Time>) {
    forall t :: t in ts ==> Priced(rules, t)
  }

  /** The fee of the first band covering `t`. */
  function Fee(rules: seq<TollRule>, t: Time): (fee: int)
    requires Priced(rules, t)
    ensures forall i :: 0 <= i < |rules| && Matches(rules[i], t)
                        && (forall j :: 0 <= j < i ==> !Matches(rules[j], t))
                        ==> fee == rules[i].tollSek
  {
    rules[FirstMatch(rules, t).value].tollSek
  }

  /** A fee is always the fee of some band covering the time. */
  lemma FeeIsSomeBand(rules: seq<TollRule>, t: Time)
    requires Priced(rules, t)
    ensures exists i :: 0 <= i < |rules| && Matches(rules[i], t) && Fee(rules, t) == rules[i].tollSek
  {
    var k := FirstMatch(rules, t).value;
    assert Matches(rules[k], t) && Fee(rules, t) == rules[k].tollSek;
  }

  /** No instant lies in two bands. */
  predicate Disjoint(rules: seq<TollRule>) {
    forall i, j, t :: 0 <= i < j < |rules| && Matches(rules[i], t) ==> !Matches(rules[j], t)
  }

  /** With disjoint bands, first-match-wins is just "the band that matches". */
  lemma FeeOfDisjoint(rules: seq<TollRule>, t: Time, i: int)
    requires Disjoint(rules)
    requires 0 <= i < |rules| && Matches(rules[i], t)
    ensures Priced(rules, t) && Fee(rules, t) == rules[i].tollSek
  {
  }

  /** Bands laid out in order round the day: each ends no later than the
      next begins, and only the last may wrap past midnight, ending no later
      than the first begins. */
  predicate InOrder(rules: seq<TollRule>) {
    && |rules| > 0
    && (forall i :: 0 <= i < |rules| - 1 ==>
          rules[i].validFrom <= rules[i].validTo <= rules[i + 1].validFrom)
    && rules[|rules| - 1].validTo <= rules[0].validFrom
  }

  lemma {:induction false} InOrderEnds(rules: seq<TollRule>, i: int, j: int)
    requires InOrder(rules) && 0 <= i < j < |rules|
    ensures rules[i].validTo <= rules[j].validFrom
    decreases j - i
  {
    if i + 1 < j {
      InOrderEnds(rules, i + 1, j);
    }
  }

  lemma {:induction false} InOrderFirst(rules: seq<TollRule>, i: int)
    requires InOrder(rules) && 0 <= i < |rules|
    ensures rules[0].validFrom <= rules[i].validFrom
  {
    if i > 0 {
      InOrderEnds(rules, 0, i);
    }
  }

  /** Bands in order never overlap. */
  lemma InOrderDisjoint(rules: seq<TollRule>)
    requires InOrder(rules)
    ensures Disjoint(rules)
  {
    forall i, j, t | 0 <= i < j < |rules| && Matches(rules[i], t)
      ensures !Matches(rules[j], t)
    {
      InOrderEnds(rules, i, j);
      InOrderFirst(rules, i);
      if j == |rules| - 1 {
        assert rules[0].validFrom <= t;
      }
    }
  }
}
