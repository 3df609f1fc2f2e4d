/** The probabilistic stand-in for playing a hand: a house-edge base win
    probability, shifted linearly by the true count with a slope that
    depends on the dealer's upcard, and clamped to a plausible band. */
module WinModel {
  import opened Cards
  import opened Arith

  /** Win probability at a neutral count: the house edge is built in. */
  const BaseWinRate: real := 0.485
  const MinWinRate: real := 0.35
  const MaxWinRate: real := 0.65
  /** Slope used for an upcard missing from the table (or listed with slope 0). */
  const DefaultEffect: real := 0.02

  /** Per-upcard slope of the win probability in the true count. */
  const CountEffects: map<Rank, real> := map[
    Two := 0.015, Three := 0.018, Four := 0.020, Five := 0.023, Six := 0.025,
    Seven := 0.015, Eight := 0.012, Nine := 0.010,
    Ten := 0.008, Jack := 0.008, Queen := 0.008, King := 0.008, Ace := 0.012]

  /** The slope for an upcard: the table entry, or the default when the entry is
      absent or zero (JavaScript's `||` falls back on any falsy value). */
  function CountEffect(upcard: Card): (e: real)
    ensures 0.008 <= e <= 0.025
  {
    if upcard.rank in CountEffects && CountEffects[upcard.rank] != 0.0
    then CountEffects[upcard.rank] else DefaultEffect
  }

  /** The table covers every rank with a non-zero slope, so the default slope is never used. */
  lemma DefaultEffectUnused(upcard: Card)
    ensures upcard.rank in CountEffects && CountEffects[upcard.rank] != 0.0
    ensures CountEffect(upcard) == CountEffects[upcard.rank]
  {
    match upcard.rank
    case Two => case Three => case Four => case Five => case Six =>
    case Seven => case Eight => case Nine =>
    case Ten => case Jack => case Queen => case King => case Ace =>
  }

  /** Against a low upcard (Hi-Lo +1) the count matters more than against a high one (Hi-Lo -1). */
  lemma LowUpcardsRespondMore(low: Card, high: Card)
    requires low.Count() == 1 && high.Count() == -1
    ensures CountEffect(low) > CountEffect(high)
  {
  }

  /** The unclamped linear estimate. */
  function LinearWinRate(trueCount: real, upcard: Card): real
  {
    BaseWinRate + trueCount * CountEffect(upcard)
  }

  /** Probability that the player wins a hand dealt at `trueCount` against `upcard`. */
  function WinRate(trueCount: real, upcard: Card): (p: real)
    ensures MinWinRate <= p <= MaxWinRate
    ensures MinWinRate <= LinearWinRate(trueCount, upcard) <= MaxWinRate ==> p == LinearWinRate(trueCount, upcard)
    ensures LinearWinRate(trueCount, upcard) < MinWinRate ==> p == MinWinRate
    ensures LinearWinRate(trueCount, upcard) > MaxWinRate ==> p == MaxWinRate
  {
    Min(MaxWinRate, Max(MinWinRate, LinearWinRate(trueCount, upcard)))
  }

  /** At a neutral count the win probability is the base rate, whatever the upcard. */
  lemma NeutralCountWinRate(upcard: Card)
    ensures WinRate(0.0, upcard) == BaseWinRate
  {
  }

  /** A higher true count never lowers the win probability against the same upcard. */
  lemma WinRateMonotone(tc1: real, tc2: real, upcard: Card)
    requires tc1 <= tc2
    ensures WinRate(tc1, upcard) <= WinRate(tc2, upcard)
  {
    var e := CountEffect(upcard);
    assert tc1 * e <= tc2 * e by {
      assert (tc2 - tc1) * e >= 0.0;
    }
  }
}
