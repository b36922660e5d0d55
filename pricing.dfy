/**
 * The pricing engine: fares from a trip distance, a surge multiplier and a passenger
 * count, and the surge policy from demand and supply. Amounts are exact reals before
 * rounding and whole cents after it; the great-circle distance is not part of this module.
 */
module Pricing {

  const BaseRatePerKm: real := 2.0
  /** Start-up fee. */
  const BaseFare: real := 5.0
  /** Factor applied to a fare shared by more than one passenger. */
  const PoolingDiscount: real := 0.8
  /** Defaults of the fare's optional arguments. */
  const DefaultSurge: real := 1.0
  const DefaultPassengers: int := 1
  /** Surge when there is no supply at all. */
  const MaxSurge: real := 2.0

  /**
   * The fare before rounding: base plus distance rate, times surge, discounted when shared.
   * For a real trip and surge it is never negative, and sharing takes at most the 20% discount
   * off the solo amount and never adds to it.
   */
  function PreRoundFare(distanceKm: real, surgeMultiplier: real, passengersCount: int): (amount: real)
    ensures distanceKm >= 0.0 && surgeMultiplier >= 0.0 ==> amount >= 0.0
    ensures distanceKm >= 0.0 && surgeMultiplier >= 0.0 ==>
      PoolingDiscount * (BaseFare + distanceKm * BaseRatePerKm) * surgeMultiplier <= amount
        <= (BaseFare + distanceKm * BaseRatePerKm) * surgeMultiplier
  {
    var fare := (BaseFare + distanceKm * BaseRatePerKm) * surgeMultiplier;
    if passengersCount > 1 then fare * PoolingDiscount else fare
  }

  /** Rounds an amount to whole cents, halves upward, as Math.round(amount * 100) does. */
  function RoundToCents(amount: real): (cents: int)
    ensures cents as real - 0.5 <= amount * 100.0 < cents as real + 0.5
  {
    (amount * 100.0 + 0.5).Floor
  }

  /** The fare in cents: the pre-rounding fare to the nearest cent, halves upward. */
  function CalculateFare(distanceKm: real, surgeMultiplier: real, passengersCount: int): (cents: int)
    ensures cents as real - 0.5 <= PreRoundFare(distanceKm, surgeMultiplier, passengersCount) * 100.0
    ensures PreRoundFare(distanceKm, surgeMultiplier, passengersCount) * 100.0 < cents as real + 0.5
  {
    RoundToCents(PreRoundFare(distanceKm, surgeMultiplier, passengersCount))
  }

  /** With the default surge and count, a zero-distance trip costs the base fare, 5.00. */
  lemma ZeroDistanceCostsBaseFare()
    ensures CalculateFare(0.0, DefaultSurge, DefaultPassengers) == 500
  {
  }

  /** The discount applies exactly when more than one passenger shares the fare. */
  lemma PoolingDiscountApplies(distanceKm: real, surgeMultiplier: real, passengersCount: int)
    ensures passengersCount > 1 ==>
      PreRoundFare(distanceKm, surgeMultiplier, passengersCount) == PreRoundFare(distanceKm, surgeMultiplier, 1) * PoolingDiscount
    ensures passengersCount <= 1 ==>
      PreRoundFare(distanceKm, surgeMultiplier, passengersCount) == PreRoundFare(distanceKm, surgeMultiplier, 1)
  {
  }

  /** The pre-rounding fare grows linearly with distance, by the rate per km scaled by surge and discount. */
  lemma FareLinearInDistance(d1: real, d2: real, surgeMultiplier: real, passengersCount: int)
    ensures var factor := if passengersCount > 1 then PoolingDiscount else 1.0;
      PreRoundFare(d2, surgeMultiplier, passengersCount) - PreRoundFare(d1, surgeMultiplier, passengersCount)
        == (d2 - d1) * BaseRatePerKm * surgeMultiplier * factor
  {
  }

  /** Rounding to cents never reverses the order of two amounts. */
  lemma RoundingMonotone(a: real, b: real)
    requires a <= b
    ensures RoundToCents(a) <= RoundToCents(b)
  {
  }

  /** Under a non-negative surge a longer trip never costs less. */
  lemma FareMonotoneInDistance(d1: real, d2: real, surgeMultiplier: real, passengersCount: int)
    requires d1 <= d2 && surgeMultiplier >= 0.0
    ensures CalculateFare(d1, surgeMultiplier, passengersCount) <= CalculateFare(d2, surgeMultiplier, passengersCount)
  {
    var x1, x2 := BaseFare + d1 * BaseRatePerKm, BaseFare + d2 * BaseRatePerKm;
    assert x1 <= x2;
    assert x1 * surgeMultiplier <= x2 * surgeMultiplier;
    RoundingMonotone(PreRoundFare(d1, surgeMultiplier, passengersCount), PreRoundFare(d2, surgeMultiplier, passengersCount));
  }

  /** The surge for a demand/supply ratio: 1.5 above 2, 1.25 above 1.5, 1.0 otherwise. */
  function SurgeForRatio(ratio: real): (m: real)
    ensures m == 1.5 <==> ratio > 2.0
    ensures m == 1.25 <==> 1.5 < ratio <= 2.0
    ensures m == 1.0 <==> ratio <= 1.5
  {
    if ratio > 2.0 then 1.5
    else if ratio > 1.5 then 1.25
    else 1.0
  }

  /** The surge multiplier: the maximum without supply, otherwise the policy on demand / supply. */
  function GetSurgeMultiplier(demand: real, supply: real): (m: real)
    ensures m == 1.0 || m == 1.25 || m == 1.5 || m == 2.0
    ensures m == MaxSurge <==> supply == 0.0
    ensures supply != 0.0 ==> (m == 1.5 <==> demand / supply > 2.0)
    ensures supply != 0.0 ==> (m == 1.25 <==> 1.5 < demand / supply <= 2.0)
    ensures supply != 0.0 ==> (m == 1.0 <==> demand / supply <= 1.5)
  {
    if supply == 0.0 then MaxSurge else SurgeForRatio(demand / supply)
  }

  /** A higher ratio never gives a lower surge. */
  lemma SurgeMonotoneInRatio(r1: real, r2: real)
    requires r1 <= r2
    ensures SurgeForRatio(r1) <= SurgeForRatio(r2)
  {
  }

  /** With positive supply, more demand never gives a lower surge. */
  lemma SurgeMonotoneInDemand(d1: real, d2: real, supply: real)
    requires supply > 0.0 && d1 <= d2
    ensures GetSurgeMultiplier(d1, supply) <= GetSurgeMultiplier(d2, supply)
  {
    assert d1 / supply <= d2 / supply by {
      assert (d2 / supply - d1 / supply) * supply == d2 - d1;
    }
    SurgeMonotoneInRatio(d1 / supply, d2 / supply);
  }

  /** The surge always lies between the baseline and the no-supply maximum. */
  lemma SurgeBounded(demand: real, supply: real)
    ensures 1.0 <= GetSurgeMultiplier(demand, supply) <= MaxSurge
  {
  }
}
