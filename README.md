# Cassandra market-risk dashboard: a Dafny model of its decision logic

Cassandra is a Streamlit dashboard. A trained classifier turns market
indicator values into a crash probability, and the dashboard shows that
probability with a risk tier and a recommendation. This project models the
two parts of `app.py` that hold logic and proves what they guarantee.

- **Risk evaluator** (`RiskEvaluator`, `risk_evaluator.dfy`). `analyze_market`
  maps the probability to LOW / MEDIUM / HIGH using the cutoffs 0.3 and 0.6.
  Each tier carries a fixed recommendation sentence and a colour. The proofs
  cover:
  - the three brackets partition the reals, and each cutoff belongs to the
    upper tier;
  - the tiering is monotone;
  - colour and tier determine each other;
  - the probability is returned unchanged.
- **Indicator sections** (`IndicatorSections`, `indicator_sections.dfy`, built
  on `Substrings`, `substrings.dfy`). Four list comprehensions sort the
  classifier's feature names into the sidebar sections Market Indices,
  Interest Rates, ETFs and Currency Rates. A name goes into a section when one
  of that section's tokens is a case-sensitive substring of it, as Python's
  `in` on two `str` values computes it. The proofs cover:
  - each section list is a stable selection from the features: same order,
    exactly the matching names;
  - sections are computed independently;
  - the widget key `<section title, lower-cased, spaces to underscores>_<feature>`
    is injective.
- **Input assembly** (`FeatureInput`, `feature_input.dfy`).
  - The nested loop over sections and their features is an imperative method.
    It fills the `feature_values` map in place and records each field's widget
    key.
  - The value a field returns is an input to the model: a function `entered`
    from widget key to value, because Streamlit looks up a field's state by its
    key.
  - The proofs state what the map holds after the loop. It holds exactly the
    features shown in some section. A name shown in several sections keeps the
    value of the last one, since later writes overwrite earlier ones. The
    widget keys are distinct.
  - The feature vector is then read back in the classifier's order. It exists
    exactly when every feature is shown in some section. Otherwise the lookup
    raises `KeyError` for the first feature that was never shown.
- **Scenarios** (`Scenarios`, `scenarios.dfy`). Concrete cases over real
  indicator names:
  - `GTJPY10YR` is shown twice and keeps its Currency Rates value;
  - `SPX` is shown nowhere, so a classifier that uses it fails at the lookup;
  - the vector for `VIX`, `JPY` and `USGG30YR` reads each value from the
    field of its own section.

A feature shown in no section never gets an entry in `feature_values`.
Line 100 of `app.py` indexes the dictionary directly, so such a feature raises
`KeyError`; there is no default value. See `FeatureInput.UnshownFeatureRaises`
and `Scenarios.UnshownIndexRaises`.

## Model

| member | source | states |
|---|---|---|
| RiskEvaluator.AnalyzeMarket | app.py:20-36 | the returned probability is the input; the tier's bracket contains it; the colour and recommendation are the tier's own |
| RiskEvaluator.ColourOf | app.py:24-34 | the colour table of the three branches: LOW green, MEDIUM yellow, HIGH red; `AnalyzeMarket` and `ColourDeterminesTier` state its use |
| RiskEvaluator.RecommendationOf | app.py:24-34 | the recommendation sentence of each branch, word for word; `AnalyzeMarket` and `OneOfThreeOutcomes` state its use |
| RiskEvaluator.BracketsPartition | app.py:23-34 | a tier is the one returned exactly when the probability lies in its bracket, so the three brackets partition the reals |
| RiskEvaluator.OneOfThreeOutcomes | app.py:23-36 | every probability yields one of the three (tier, recommendation, colour) triples LOW/maintain/green, MEDIUM/reduce to 50%/yellow, HIGH/move to cash/red |
| RiskEvaluator.ColourDeterminesTier | app.py:23-34 | two results have the same colour if and only if they have the same tier |
| RiskEvaluator.Monotone | app.py:23-34 | a higher probability never gives a lower tier in the order LOW < MEDIUM < HIGH |
| RiskEvaluator.CutoffsBelongToUpperTier | app.py:23-30 | 0.3 is MEDIUM and 0.6 is HIGH, while 0.2999 is LOW and 0.5999 is MEDIUM |
| RiskEvaluator.OutOfRangeExtendsEnds | app.py:23-34 | probabilities below 0 are LOW and above 1 are HIGH; nothing is rejected |
| Substrings.Contains | app.py:68-71 | `needle in hay` holds exactly when some index of `hay` starts a contiguous copy of `needle` |
| Substrings.ContainsTrans | app.py:68-71 | a token contained in a substring of a name is contained in the name |
| IndicatorSections.PositionInOrder | app.py:74-79 | the rank `Position` gives each section is its index in the sidebar list, and indexing the list by a section's rank gives that section |
| IndicatorSections.ContainsAny | app.py:68-71 | the condition `any(x in f for x in tokens)`: some token of the list is a substring of the name; `GroupMembership` states its use |
| IndicatorSections.InSection | app.py:68-71 | a section's condition is `ContainsAny` over that section's own token list and nothing else, so sections are decided independently |
| IndicatorSections.Group | app.py:68-71 | the four comprehensions, one per section; `GroupMembership` and `FilterIsStableSelection` state what they keep |
| IndicatorSections.GTJPYShownTwice | app.py:69-71 | every name containing `GTJPY` is shown under both Interest Rates and Currency Rates, since it also contains `JPY` |
| IndicatorSections.FilterMembership | app.py:68-71 | a name is in a filtered list exactly when it is one of the features and the predicate accepts it |
| IndicatorSections.GroupMembership | app.py:68-71 | a name is in a section's list exactly when it is a feature and one of the section's tokens is a substring of it |
| IndicatorSections.FilterIsStableSelection | app.py:68-71 | a section's list is the features at exactly the accepted positions, in increasing order: a subsequence in model order that misses no match |
| IndicatorSections.FilterKeepsDistinct | app.py:68-71 | distinct feature names give a section list without repeats |
| IndicatorSections.UniqueKey | app.py:85 | a key is one character longer than the section's prefix and the feature together, and ends with the feature name; `KeyPrefixFromTitle` and `UniqueKeyInjective` state the rest |
| IndicatorSections.Lower | app.py:85 | `lower()` on the ASCII titles: same length, each letter `A`-`Z` becomes its lower-case counterpart (code point plus 32), no upper-case letter is left, every other character is unchanged |
| IndicatorSections.SpacesToUnderscores | app.py:85 | `replace(' ', '_')`: same length, each space becomes `_`, no space is left, every other character is unchanged |
| IndicatorSections.KeyPrefixFromTitle | app.py:74-85 | each section's key prefix is its title lower-cased with spaces replaced by underscores |
| IndicatorSections.UniqueKeyInjective | app.py:85 | equal keys come from the same section and the same feature |
| FeatureInput.StoreSectionAt | app.py:83-92 | writing a section's features adds exactly those names, each with the value of its field in that section, and leaves every other entry unchanged |
| FeatureInput.StoreSection | app.py:83-92 | the in-place writes of one section's fields into the dictionary, in order; `StoreSectionAt` states their effect |
| FeatureInput.AddSectionFields | app.py:83-92 | the inner loop leaves the map as the section's writes in order and appends the section's keys in order |
| FeatureInput.CollectInputs | app.py:64-92 | the nested loop over the four sections leaves the map and the created keys as the section-by-section writes in sidebar order |
| FeatureInput.LastSection | app.py:74-92 | the section chosen for a shown name shows it, and no section after it in sidebar order does |
| FeatureInput.FeatureValuesUnrolled | app.py:74-92 | the loop's map is the Market Indices, Interest Rates, ETFs and Currency Rates writes applied in that order |
| FeatureInput.FeatureValues | app.py:81-92 | the dictionary once every section has been visited; `FeatureValuesSpec` states its keys and values |
| FeatureInput.FeatureValueDomain | app.py:68-92 | after the loop a name has an entry if and only if it is a feature shown in some section |
| FeatureInput.FeatureValueAt | app.py:81-92 | a stored name holds the value of its field in the last section that shows it, since later sections overwrite earlier ones |
| FeatureInput.FeatureValuesSpec | app.py:74-92 | a name is a key of the map if and only if it is in one of the four section lists, equivalently a feature shown in some section; each value comes from the name's last section |
| FeatureInput.GroupUnion | app.py:68-71 | being in one of the section lists is the same as being a feature shown in some section |
| FeatureInput.AssembleVector | app.py:100 | the lookup succeeds if and only if every feature has an entry; the vector then has the features' length and order with element i the entry of feature i; otherwise it raises `KeyError` for the first feature without one |
| FeatureInput.VectorDefinedIffAllShown | app.py:68-100 | after the loop the vector exists if and only if every feature is shown in some section |
| FeatureInput.VectorReadsEnteredValues | app.py:81-100 | when every feature is shown, element i is the value of the field of feature i in its last section |
| FeatureInput.FirstMissingRaises | app.py:100 | the lookup reports the first feature without an entry |
| FeatureInput.UnshownFeatureRaises | app.py:68-100 | the first feature no section shows makes the lookup raise `KeyError` for it, whatever values were entered; there is no default of 0.0 |
| FeatureInput.FreshInitial | app.py:74-85 | each section's keys start with a letter that no earlier section's keys start with |
| FeatureInput.SectionKeysDistinct | app.py:83-85 | within a section, distinct features get distinct keys, all starting with the section's letter |
| FeatureInput.KeysAfterDistinct | app.py:81-85 | the keys created by the first n sections are pairwise distinct |
| FeatureInput.WidgetKeysDistinct | app.py:64-92 | when the classifier's feature names are distinct, no two sidebar fields share a key |
| Scenarios.TreasuryOnlyUnderRates | app.py:68-71 | `USGG30YR` is shown under Interest Rates and under no other section |
| Scenarios.JapaneseBondShownTwice | app.py:69-71 | `GTJPY10YR` is shown under both Interest Rates and Currency Rates, and nowhere else |
| Scenarios.JapaneseBondKeepsCurrencyField | app.py:81-92 | the value kept for `GTJPY10YR` is the one in the field keyed `currency_rates_GTJPY10YR` |
| Scenarios.IndexWithoutTokenShownNowhere | app.py:68-71 | `SPX` contains no token and is shown in no section |
| Scenarios.VolatilityOnlyUnderIndices | app.py:68-71 | `VIX` is shown under Market Indices only |
| Scenarios.YenOnlyUnderCurrencies | app.py:68-71 | `JPY` is shown under Currency Rates only, since it lacks the `GT` of `GTJPY` |
| Scenarios.IndicesKeepModelOrder | app.py:68 | the Market Indices list of VIX, USGG30YR, BDIY and DXY is VIX, BDIY, DXY |
| Scenarios.VectorForThreeIndicators | app.py:64-100 | for VIX, JPY and USGG30YR the vector reads the fields `market_indices_VIX`, `currency_rates_JPY` and `interest_rates_USGG30YR`, in that order |
| Scenarios.UnshownIndexRaises | app.py:68-100 | for VIX and SPX the lookup raises `KeyError` on SPX |
| Scenarios.MidRangeProbability | app.py:23-30 | a probability of 0.45 gives MEDIUM, the advice to halve the position, and yellow |

## Left out

- `data_fetcher.py` is not part of this model. It wraps a network quote service and substitutes 0.0 on failure, and `app.py` does not call it.
- Loading the classifier and calling `predict_proba` are foreign calls. The probability and the classifier's feature-name list are inputs.
- Streamlit rendering is not modelled: page set-up, headers, the button, metrics and markdown. A number field is modelled only by the value it returns, the function `entered` of its widget key. The field's initial value of 0.0 (app.py line 89) is therefore not modelled.
- Streamlit's rejection of two fields with the same key is not modelled. `FeatureInput.WidgetKeysDistinct` shows that it cannot arise when the feature names are distinct.
- The matplotlib gauge and the percentage formatting of the probability are display only.
- Python floats are modelled as `real`. The risk evaluator only compares the probability with two constants, and the input values are only stored and read back. The probability and the cutoffs 0.3 and 0.6 are both read as exact decimals, not as binary doubles, and a NaN probability (HIGH in Python, since both comparisons are false) is not modelled.
- `IndicatorSections.Lower` lower-cases ASCII letters only, which covers the four fixed section titles. The key prefixes are written out per section, and `IndicatorSections.KeyPrefixFromTitle` ties them to the titles.
- The classifier's feature names (`model.feature_names_in_`, app.py line 65) are a `seq<string>`. Nothing in `app.py` guarantees they are distinct; the key-distinctness lemmas take it as an assumption. A repeated name would create two fields with the same key.
