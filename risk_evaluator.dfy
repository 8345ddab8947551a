/**
 * The risk evaluator of the dashboard (`analyze_market` in app.py): it turns
 * the crash probability the classifier produced into a risk tier, a
 * recommendation sentence and a display colour.
 *
 * The probability is an input here. The call into the classifier that
 * produces it is outside this model. Python floats are modelled as `real`,
 * because the evaluator only compares the probability with two constants.
 */
module RiskEvaluator {

  datatype Tier = Low | Medium | High

  datatype Colour = Green | Yellow | Red

  /** The four values `analyze_market` returns: probability, tier, recommendation, colour. */
  datatype Assessment = Assessment(probability: real, tier: Tier, recommendation: string, colour: Colour)

  /** Below this probability the risk is LOW. */
  const LowCutoff: real := 0.3
  /** Below this probability (and not LOW) the risk is MEDIUM; from here on it is HIGH. */
  const HighCutoff: real := 0.6

  const MaintainExposure: string := "Consider maintaining full market exposure"
  const ReducePosition: string := "Consider reducing position size to 50%"
  const MoveToCash: string := "Consider moving to cash"

  /** The order LOW < MEDIUM < HIGH. */
  function Rank(t: Tier): nat {
    match t
    case Low => 0
    case Medium => 1
    case High => 2
  }

  /** The colour each tier is shown in. */
  function ColourOf(t: Tier): Colour {
    match t
    case Low => Green
    case Medium => Yellow
    case High => Red
  }

  /** The recommendation each tier carries. */
  function RecommendationOf(t: Tier): string {
    match t
    case Low => MaintainExposure
    case Medium => ReducePosition
    case High => MoveToCash
  }

  /**
   * The half-open probability bracket of each tier, lower bound inclusive.
   * The end brackets are open-ended, so every real falls in one of them.
   */
  ghost predicate InBracket(p: real, t: Tier) {
    match t
    case Low => p < LowCutoff
    case Medium => LowCutoff <= p < HighCutoff
    case High => HighCutoff <= p
  }

  /** `analyze_market` after the classifier call: the if/elif/else on the probability. */
  function AnalyzeMarket(p: real): (a: Assessment)
    ensures a.probability == p
    ensures InBracket(p, a.tier)
    ensures a.colour == ColourOf(a.tier)
    ensures a.recommendation == RecommendationOf(a.tier)
  {
    if p < LowCutoff then
      Assessment(p, Low, MaintainExposure, Green)
    else if p < HighCutoff then
      Assessment(p, Medium, ReducePosition, Yellow)
    else
      Assessment(p, High, MoveToCash, Red)
  }

  /** The brackets partition the reals: each probability lies in exactly one of them. */
  lemma BracketsPartition(p: real, t: Tier)
    ensures InBracket(p, t) <==> t == AnalyzeMarket(p).tier
  {
  }

  /** The result is always one of the three fixed (tier, recommendation, colour) triples. */
  lemma OneOfThreeOutcomes(p: real)
    ensures var a := AnalyzeMarket(p);
      || (a.tier, a.recommendation, a.colour) == (Low, MaintainExposure, Green)
      || (a.tier, a.recommendation, a.colour) == (Medium, ReducePosition, Yellow)
      || (a.tier, a.recommendation, a.colour) == (High, MoveToCash, Red)
  {
  }

  /** Colour and tier determine each other: LOW-green, MEDIUM-yellow, HIGH-red. */
  lemma ColourDeterminesTier(p: real, q: real)
    ensures AnalyzeMarket(p).colour == AnalyzeMarket(q).colour <==> AnalyzeMarket(p).tier == AnalyzeMarket(q).tier
  {
  }

  /** A higher probability never gives a lower tier. */
  lemma Monotone(p: real, q: real)
    requires p <= q
    ensures Rank(AnalyzeMarket(p).tier) <= Rank(AnalyzeMarket(q).tier)
  {
  }

  /** Each cutoff belongs to the upper tier; just below it the lower tier applies. */
  lemma CutoffsBelongToUpperTier()
    ensures AnalyzeMarket(0.2999).tier == Low
    ensures AnalyzeMarket(0.3).tier == Medium
    ensures AnalyzeMarket(0.5999).tier == Medium
    ensures AnalyzeMarket(0.6).tier == High
  {
  }

  /** Probabilities outside [0, 1] are not rejected: they extend the end brackets. */
  lemma OutOfRangeExtendsEnds(p: real)
    ensures p < 0.0 ==> AnalyzeMarket(p) == Assessment(p, Low, MaintainExposure, Green)
    ensures p > 1.0 ==> AnalyzeMarket(p) == Assessment(p, High, MoveToCash, Red)
  {
  }
}
