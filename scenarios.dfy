/**
 * Concrete cases of the dashboard's input assembly on feature names drawn
 * from the section tokens: which sections show a name, the order a section
 * keeps, which field's value a name shown twice ends up with, and the vector
 * or the `KeyError` the lookup produces.
 */
module Scenarios {
  import opened Substrings
  import opened IndicatorSections
  import opened FeatureInput
  import opened RiskEvaluator

  /**
   * No token occurs in `name` when each token has a letter (the matching
   * entry of `witnesses`) that `name` lacks.
   */
  lemma NoTokenOccurs(name: string, tokens: seq<string>, witnesses: string)
    requires |witnesses| == |tokens|
    requires forall k :: 0 <= k < |tokens| ==> witnesses[k] in tokens[k] && witnesses[k] !in name
    ensures !ContainsAny(name, tokens)
  {
    forall k | 0 <= k < |tokens| ensures !Contains(name, tokens[k]) {
      ContainedCharsOccur(name, tokens[k]);
    }
  }

  /** A 30-year Treasury yield is shown under Interest Rates only. */
  lemma TreasuryOnlyUnderRates(s: Section)
    ensures InSection("USGG30YR", s) <==> s == InterestRates
  {
    match s
    case MarketIndices => NoTokenOccurs("USGG30YR", Tokens(MarketIndices), "VDBMMM");
    case InterestRates => assert Contains("USGG30YR", Tokens(InterestRates)[0]);
    case ETFs => NoTokenOccurs("USGG30YR", Tokens(ETFs), "LLL");
    case CurrencyRates => NoTokenOccurs("USGG30YR", Tokens(CurrencyRates), "JE");
  }

  /**
   * A Japanese government bond yield contains both "GTJPY" and "JPY", so it is
   * shown under Interest Rates and again under Currency Rates.
   */
  lemma JapaneseBondShownTwice(s: Section)
    ensures InSection("GTJPY10YR", s) <==> s == InterestRates || s == CurrencyRates
  {
    match s
    case MarketIndices => NoTokenOccurs("GTJPY10YR", Tokens(MarketIndices), "VDBMMM");
    case InterestRates => assert Contains("GTJPY10YR", Tokens(InterestRates)[4]);
    case ETFs => NoTokenOccurs("GTJPY10YR", Tokens(ETFs), "LLL");
    case CurrencyRates => assert Contains("GTJPY10YR", Tokens(CurrencyRates)[0]);
  }

  /** A section showing the name, with no later section showing it, is its last section. */
  lemma LastSectionIs(name: string, s: Section)
    requires InSection(name, s)
    requires forall t :: Position(s) < Position(t) ==> !InSection(name, t)
    ensures InSomeSection(name) && LastSection(name) == s
  {
  }

  /** For the name shown twice, the Currency Rates field is the one whose value is kept. */
  lemma JapaneseBondKeepsCurrencyField()
    ensures InSomeSection("GTJPY10YR")
    ensures UniqueKey(LastSection("GTJPY10YR"), "GTJPY10YR") == "currency_rates_GTJPY10YR"
  {
    JapaneseBondShownTwice(CurrencyRates);
    LastSectionIs("GTJPY10YR", CurrencyRates);
  }

  /** The S&P 500 ticker matches no token, so no section shows it. */
  lemma IndexWithoutTokenShownNowhere(s: Section)
    ensures !InSection("SPX", s)
  {
    match s
    case MarketIndices => NoTokenOccurs("SPX", Tokens(MarketIndices), "VDBMMM");
    case InterestRates => NoTokenOccurs("SPX", Tokens(InterestRates), "UGUGGG");
    case ETFs => NoTokenOccurs("SPX", Tokens(ETFs), "LLL");
    case CurrencyRates => NoTokenOccurs("SPX", Tokens(CurrencyRates), "JE");
  }

  /** The volatility index is shown under Market Indices only. */
  lemma VolatilityOnlyUnderIndices(s: Section)
    ensures InSection("VIX", s) <==> s == MarketIndices
  {
    match s
    case MarketIndices => assert Contains("VIX", Tokens(MarketIndices)[0]);
    case InterestRates => NoTokenOccurs("VIX", Tokens(InterestRates), "UGUGGG");
    case ETFs => NoTokenOccurs("VIX", Tokens(ETFs), "LLL");
    case CurrencyRates => NoTokenOccurs("VIX", Tokens(CurrencyRates), "JE");
  }

  /** The yen rate is shown under Currency Rates only: it lacks the "GT" of "GTJPY". */
  lemma YenOnlyUnderCurrencies(s: Section)
    ensures InSection("JPY", s) <==> s == CurrencyRates
  {
    match s
    case MarketIndices => NoTokenOccurs("JPY", Tokens(MarketIndices), "VDBMMM");
    case InterestRates => NoTokenOccurs("JPY", Tokens(InterestRates), "UGUGGG");
    case ETFs => NoTokenOccurs("JPY", Tokens(ETFs), "LLL");
    case CurrencyRates => assert Contains("JPY", Tokens(CurrencyRates)[0]);
  }

  /** The field of the volatility index is the Market Indices one. */
  lemma VolatilityField()
    ensures InSomeSection("VIX") && UniqueKey(LastSection("VIX"), "VIX") == "market_indices_VIX"
  {
    forall t ensures InSection("VIX", t) <==> t == MarketIndices {
      VolatilityOnlyUnderIndices(t);
    }
    LastSectionIs("VIX", MarketIndices);
  }

  /** The field of the yen rate is the Currency Rates one. */
  lemma YenField()
    ensures InSomeSection("JPY") && UniqueKey(LastSection("JPY"), "JPY") == "currency_rates_JPY"
  {
    YenOnlyUnderCurrencies(CurrencyRates);
    LastSectionIs("JPY", CurrencyRates);
  }

  /** The field of the Treasury yield is the Interest Rates one. */
  lemma TreasuryField()
    ensures InSomeSection("USGG30YR") && UniqueKey(LastSection("USGG30YR"), "USGG30YR") == "interest_rates_USGG30YR"
  {
    forall t ensures InSection("USGG30YR", t) <==> t == InterestRates {
      TreasuryOnlyUnderRates(t);
    }
    LastSectionIs("USGG30YR", InterestRates);
  }

  /** The Baltic Dry Index and the dollar index are shown under Market Indices. */
  lemma FreightAndDollarUnderIndices()
    ensures InSection("BDIY", MarketIndices) && InSection("DXY", MarketIndices)
  {
    assert Contains("BDIY", Tokens(MarketIndices)[2]);
    assert Contains("DXY", Tokens(MarketIndices)[1]);
  }

  /** A section's list of a non-empty sequence: the first name if shown, then the rest's list. */
  lemma GroupCons(name: string, rest: seq<string>, s: Section)
    ensures Group([name] + rest, s) == (if InSection(name, s) then [name] else []) + Group(rest, s)
  {
    assert ([name] + rest)[1..] == rest;
  }

  /** A section keeps its names in the classifier's order and drops the others. */
  lemma IndicesKeepModelOrder()
    ensures Group(["VIX", "USGG30YR", "BDIY", "DXY"], MarketIndices) == ["VIX", "BDIY", "DXY"]
  {
    VolatilityOnlyUnderIndices(MarketIndices);
    TreasuryOnlyUnderRates(MarketIndices);
    FreightAndDollarUnderIndices();
    GroupCons("DXY", [], MarketIndices);
    GroupCons("BDIY", ["DXY"], MarketIndices);
    GroupCons("USGG30YR", ["BDIY", "DXY"], MarketIndices);
    GroupCons("VIX", ["USGG30YR", "BDIY", "DXY"], MarketIndices);
  }

  /** Three features with entries give the vector of their entries, in order. */
  lemma VectorOfThree(features: seq<string>, values: map<string, real>)
    requires |features| == 3 && features[0] in values && features[1] in values && features[2] in values
    ensures AssembleVector(features, values) == Vector([values[features[0]], values[features[1]], values[features[2]]])
  {
    var r := AssembleVector(features, values);
    assert r.Vector?;
    assert r.values == [r.values[0], r.values[1], r.values[2]];
  }

  /** With three shown features, the vector holds each one's field value in its last section. */
  lemma VectorOfThreeShown(features: seq<string>, entered: string -> real)
    requires |features| == 3
    requires InSomeSection(features[0]) && InSomeSection(features[1]) && InSomeSection(features[2])
    ensures AssembleVector(features, FeatureValues(features, entered)) == Vector([
      entered(UniqueKey(LastSection(features[0]), features[0])),
      entered(UniqueKey(LastSection(features[1]), features[1])),
      entered(UniqueKey(LastSection(features[2]), features[2]))])
  {
    var values := FeatureValues(features, entered);
    FeatureValueDomain(features, entered, features[0]);
    FeatureValueDomain(features, entered, features[1]);
    FeatureValueDomain(features, entered, features[2]);
    FeatureValueAt(features, entered, features[0]);
    FeatureValueAt(features, entered, features[1]);
    FeatureValueAt(features, entered, features[2]);
    VectorOfThree(features, values);
  }

  /**
   * From entered values to the vector: each of VIX, JPY and USGG30YR is read
   * from the field of its one section, in the classifier's order.
   */
  lemma VectorForThreeIndicators(entered: string -> real)
    ensures AssembleVector(["VIX", "JPY", "USGG30YR"], FeatureValues(["VIX", "JPY", "USGG30YR"], entered)) ==
      Vector([entered("market_indices_VIX"), entered("currency_rates_JPY"), entered("interest_rates_USGG30YR")])
  {
    VolatilityField();
    YenField();
    TreasuryField();
    VectorOfThreeShown(["VIX", "JPY", "USGG30YR"], entered);
  }

  /** A classifier feature no section shows makes the lookup fail, whatever was entered. */
  lemma UnshownIndexRaises(entered: string -> real)
    ensures AssembleVector(["VIX", "SPX"], FeatureValues(["VIX", "SPX"], entered)) == KeyError("SPX")
  {
    VolatilityOnlyUnderIndices(MarketIndices);
    forall s ensures !InSection("SPX", s) {
      IndexWithoutTokenShownNowhere(s);
    }
    UnshownFeatureRaises(["VIX", "SPX"], entered, 1);
  }

  /** A probability of 0.45 is MEDIUM risk, shown in yellow, with the advice to halve the position. */
  lemma MidRangeProbability()
    ensures AnalyzeMarket(0.45) == Assessment(0.45, Medium, "Consider reducing position size to 50%", Yellow)
  {
  }
}
