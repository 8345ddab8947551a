/**
 * Input assembly in app.py: the loop over the four sidebar sections that
 * creates one input field per (section, feature) pair and records its value
 * in the `feature_values` dictionary, and the feature vector read back from
 * that dictionary in the classifier's feature order.
 *
 * A Streamlit input field returns whatever value its widget state holds, and
 * that state is looked up by the field's key. It is modelled as the function
 * `entered` from widget key to value.
 */
module FeatureInput {
  import opened IndicatorSections

  /** `feature_values` after writing each of `names`, in order, into `values`. */
  function StoreSection(values: map<string, real>, s: Section, names: seq<string>, entered: string -> real): map<string, real>
    decreases |names|
  {
    if names == [] then values
    else
      var last := names[|names| - 1];
      StoreSection(values, s, names[..|names| - 1], entered)[last := entered(UniqueKey(s, last))]
  }

  /**
   * Writing a section's names adds exactly those names; each holds the value
   * of its field in this section, and every other entry is left as it was.
   */
  lemma {:induction false} StoreSectionAt(values: map<string, real>, s: Section, names: seq<string>, entered: string -> real, name: string)
    ensures name in StoreSection(values, s, names, entered) <==> name in values || name in names
    ensures name in names ==> StoreSection(values, s, names, entered)[name] == entered(UniqueKey(s, name))
    ensures name in values && name !in names ==> StoreSection(values, s, names, entered)[name] == values[name]
    decreases |names|
  {
    if names != [] {
      var init := names[..|names| - 1];
      StoreSectionAt(values, s, init, entered, name);
      assert names == init + [names[|names| - 1]];
    }
  }

  /** The widget keys of one section's fields, in the order they are created. */
  function SectionKeys(s: Section, names: seq<string>): seq<string> {
    seq(|names|, i requires 0 <= i < |names| => UniqueKey(s, names[i]))
  }

  /** Creating one more field appends its key. */
  lemma SectionKeysAppend(s: Section, names: seq<string>, name: string)
    ensures SectionKeys(s, names + [name]) == SectionKeys(s, names) + [UniqueKey(s, name)]
  {
  }

  /** `feature_values` after the first `n` sections of `SectionOrder`. */
  function ValuesAfter(features: seq<string>, entered: string -> real, n: nat): map<string, real>
    requires n <= |SectionOrder|
  {
    if n == 0 then map[]
    else StoreSection(ValuesAfter(features, entered, n - 1), SectionOrder[n - 1], Group(features, SectionOrder[n - 1]), entered)
  }

  /** The widget keys created by the first `n` sections of `SectionOrder`. */
  function KeysAfter(features: seq<string>, n: nat): seq<string>
    requires n <= |SectionOrder|
  {
    if n == 0 then []
    else KeysAfter(features, n - 1) + SectionKeys(SectionOrder[n - 1], Group(features, SectionOrder[n - 1]))
  }

  /** `feature_values` once every section has been visited. */
  function FeatureValues(features: seq<string>, entered: string -> real): map<string, real> {
    ValuesAfter(features, entered, |SectionOrder|)
  }

  /** Every widget key the sidebar creates, in creation order. */
  function WidgetKeys(features: seq<string>): seq<string> {
    KeysAfter(features, |SectionOrder|)
  }

  /**
   * The sidebar loop (app.py lines 64-92): group the features, then for each
   * section and each of its features build the widget key and store the
   * field's value under the feature name, a later section overwriting an
   * earlier one. Returns the dictionary and the keys of the fields created.
   */
  method CollectInputs(features: seq<string>, entered: string -> real) returns (featureValues: map<string, real>, keys: seq<string>)
    ensures featureValues == FeatureValues(features, entered)
    ensures keys == WidgetKeys(features)
  {
    featureValues := map[];
    keys := [];
    // the (section, feature list) pairs the sidebar visits, in order
    var sections := seq(|SectionOrder|, k requires 0 <= k < |SectionOrder| => (SectionOrder[k], Group(features, SectionOrder[k])));
    var i := 0;
    while i < |sections|
      invariant 0 <= i <= |sections|
      invariant featureValues == ValuesAfter(features, entered, i)
      invariant keys == KeysAfter(features, i)
    {
      var (section, featureList) := sections[i];
      featureValues, keys := AddSectionFields(featureValues, keys, section, featureList, entered);
      i := i + 1;
    }
  }

  /**
   * The inner loop of the sidebar: one input field per feature of a section,
   * its value stored under the feature name and its key recorded.
   */
  method AddSectionFields(values: map<string, real>, keys: seq<string>, section: Section, featureList: seq<string>, entered: string -> real)
    returns (newValues: map<string, real>, newKeys: seq<string>)
    ensures newValues == StoreSection(values, section, featureList, entered)
    ensures newKeys == keys + SectionKeys(section, featureList)
  {
    newValues, newKeys := values, keys;
    var j := 0;
    while j < |featureList|
      invariant 0 <= j <= |featureList|
      invariant newValues == StoreSection(values, section, featureList[..j], entered)
      invariant newKeys == keys + SectionKeys(section, featureList[..j])
    {
      var feature := featureList[j];
      var uniqueKey := UniqueKey(section, feature);
      StoreSectionAppend(values, section, featureList[..j], feature, entered);
      SectionKeysAppend(section, featureList[..j], feature);
      assert (keys + SectionKeys(section, featureList[..j])) + [uniqueKey] == keys + (SectionKeys(section, featureList[..j]) + [uniqueKey]);
      assert featureList[..j + 1] == featureList[..j] + [feature];
      newValues := newValues[feature := entered(uniqueKey)];
      newKeys := newKeys + [uniqueKey];
      j := j + 1;
    }
    assert featureList[..|featureList|] == featureList;
  }

  /** Storing one more field's value updates that feature's entry. */
  lemma StoreSectionAppend(values: map<string, real>, s: Section, names: seq<string>, name: string, entered: string -> real)
    ensures StoreSection(values, s, names + [name], entered) == StoreSection(values, s, names, entered)[name := entered(UniqueKey(s, name))]
  {
    assert (names + [name])[..|names|] == names;
  }

  /**
   * The last section, in `SectionOrder`, that shows the name: the one whose
   * field's value ends up in `feature_values`.
   */
  function LastSection(name: string): (s: Section)
    requires InSomeSection(name)
    ensures InSection(name, s)
    ensures forall t :: InSection(name, t) ==> Position(t) <= Position(s)
  {
    if InSection(name, CurrencyRates) then CurrencyRates
    else if InSection(name, ETFs) then ETFs
    else if InSection(name, InterestRates) then InterestRates
    else MarketIndices
  }

  /** Being shown in some section is being shown in one of the four. */
  lemma SomeSectionCases(name: string)
    ensures InSomeSection(name) <==>
      InSection(name, MarketIndices) || InSection(name, InterestRates) || InSection(name, ETFs) || InSection(name, CurrencyRates)
  {
    if InSomeSection(name) {
      var s :| InSection(name, s);
    }
  }

  /** The four sections' stores, one after the other, are the whole loop. */
  lemma FeatureValuesUnrolled(features: seq<string>, entered: string -> real)
    ensures FeatureValues(features, entered) ==
      var v1 := StoreSection(map[], MarketIndices, Group(features, MarketIndices), entered);
      var v2 := StoreSection(v1, InterestRates, Group(features, InterestRates), entered);
      var v3 := StoreSection(v2, ETFs, Group(features, ETFs), entered);
      StoreSection(v3, CurrencyRates, Group(features, CurrencyRates), entered)
  {
    assert ValuesAfter(features, entered, 1) == StoreSection(map[], MarketIndices, Group(features, MarketIndices), entered);
    assert ValuesAfter(features, entered, 2) == StoreSection(ValuesAfter(features, entered, 1), InterestRates, Group(features, InterestRates), entered);
    assert ValuesAfter(features, entered, 3) == StoreSection(ValuesAfter(features, entered, 2), ETFs, Group(features, ETFs), entered);
  }

  /** After the loop, `feature_values` holds a name exactly when it is a feature shown in some section. */
  lemma FeatureValueDomain(features: seq<string>, entered: string -> real, name: string)
    ensures name in FeatureValues(features, entered) <==> name in features && InSomeSection(name)
  {
    var v0: map<string, real> := map[];
    var v1 := StoreSection(v0, MarketIndices, Group(features, MarketIndices), entered);
    var v2 := StoreSection(v1, InterestRates, Group(features, InterestRates), entered);
    var v3 := StoreSection(v2, ETFs, Group(features, ETFs), entered);
    FeatureValuesUnrolled(features, entered);
    StoreSectionAt(v0, MarketIndices, Group(features, MarketIndices), entered, name);
    StoreSectionAt(v1, InterestRates, Group(features, InterestRates), entered, name);
    StoreSectionAt(v2, ETFs, Group(features, ETFs), entered, name);
    StoreSectionAt(v3, CurrencyRates, Group(features, CurrencyRates), entered, name);
    GroupMembership(features, MarketIndices);
    GroupMembership(features, InterestRates);
    GroupMembership(features, ETFs);
    GroupMembership(features, CurrencyRates);
    SomeSectionCases(name);
  }

  /**
   * A stored feature holds the value of its field in the last section that
   * shows it: a later section overwrites an earlier one.
   */
  lemma FeatureValueAt(features: seq<string>, entered: string -> real, name: string)
    requires name in FeatureValues(features, entered)
    ensures InSomeSection(name)
    ensures FeatureValues(features, entered)[name] == entered(UniqueKey(LastSection(name), name))
  {
    FeatureValueDomain(features, entered, name);
    var v0: map<string, real> := map[];
    var v1 := StoreSection(v0, MarketIndices, Group(features, MarketIndices), entered);
    var v2 := StoreSection(v1, InterestRates, Group(features, InterestRates), entered);
    var v3 := StoreSection(v2, ETFs, Group(features, ETFs), entered);
    FeatureValuesUnrolled(features, entered);
    GroupMembership(features, MarketIndices);
    GroupMembership(features, InterestRates);
    GroupMembership(features, ETFs);
    GroupMembership(features, CurrencyRates);
    StoreSectionAt(v3, CurrencyRates, Group(features, CurrencyRates), entered, name);
    if !InSection(name, CurrencyRates) {
      StoreSectionAt(v2, ETFs, Group(features, ETFs), entered, name);
      if !InSection(name, ETFs) {
        StoreSectionAt(v1, InterestRates, Group(features, InterestRates), entered, name);
        if !InSection(name, InterestRates) {
          StoreSectionAt(v0, MarketIndices, Group(features, MarketIndices), entered, name);
        }
      }
    }
  }

  /**
   * After the loop, `feature_values` holds exactly the features shown in some
   * section, and each holds the value of its field in the last such section.
   */
  lemma FeatureValuesSpec(features: seq<string>, entered: string -> real)
    ensures forall name :: name in FeatureValues(features, entered) <==> name in features && InSomeSection(name)
    ensures forall name :: name in FeatureValues(features, entered) <==> exists s :: name in Group(features, s)
    ensures forall name :: name in FeatureValues(features, entered) ==>
      InSomeSection(name) && FeatureValues(features, entered)[name] == entered(UniqueKey(LastSection(name), name))
  {
    forall name {
      FeatureValueDomain(features, entered, name);
    }
    forall name ensures name in FeatureValues(features, entered) <==> exists s :: name in Group(features, s) {
      GroupUnion(features, name);
    }
    forall name | name in FeatureValues(features, entered) {
      FeatureValueAt(features, entered, name);
    }
  }

  /** A name is in one of the four section lists exactly when it is a feature shown in some section. */
  lemma GroupUnion(features: seq<string>, name: string)
    ensures (exists s :: name in Group(features, s)) <==> name in features && InSomeSection(name)
  {
    if exists s :: name in Group(features, s) {
      var s :| name in Group(features, s);
      GroupMembership(features, s);
    }
    if name in features && InSomeSection(name) {
      var s :| InSection(name, s);
      GroupMembership(features, s);
      assert name in Group(features, s);
    }
  }

  /** The result of `[feature_values[f] for f in features]`: the vector, or the `KeyError` raised. */
  datatype Lookup = Vector(values: seq<real>) | KeyError(key: string)

  /**
   * The feature vector (app.py line 100): the stored values in the
   * classifier's feature order, or a `KeyError` for the first feature that has
   * no entry. There is no default value.
   */
  function AssembleVector(features: seq<string>, values: map<string, real>): (r: Lookup)
    ensures r.Vector? <==> forall i :: 0 <= i < |features| ==> features[i] in values
    ensures r.Vector? ==> |r.values| == |features| && forall i :: 0 <= i < |features| ==> r.values[i] == values[features[i]]
    ensures r.KeyError? ==> exists i :: 0 <= i < |features| && features[i] == r.key && r.key !in values && forall j :: 0 <= j < i ==> features[j] in values
  {
    if features == [] then Vector([])
    else if features[0] !in values then KeyError(features[0])
    else match AssembleVector(features[1..], values)
      case Vector(v) => Vector([values[features[0]]] + v)
      case KeyError(k) =>
        assert forall i :: 0 <= i < |features| - 1 ==> features[1..][i] == features[i + 1];
        KeyError(k)
  }

  /**
   * The vector read back after the loop exists exactly when every feature is
   * shown in some section; a feature no section shows has no entry.
   */
  lemma VectorDefinedIffAllShown(features: seq<string>, entered: string -> real)
    ensures AssembleVector(features, FeatureValues(features, entered)).Vector? <==>
      forall i :: 0 <= i < |features| ==> InSomeSection(features[i])
  {
    FeatureValuesSpec(features, entered);
  }

  /**
   * When every feature is shown, element `i` of the vector is the value of the
   * field of `features[i]` in the last section that shows it.
   */
  lemma VectorReadsEnteredValues(features: seq<string>, entered: string -> real)
    requires forall i :: 0 <= i < |features| ==> InSomeSection(features[i])
    ensures var r := AssembleVector(features, FeatureValues(features, entered));
      && r.Vector? && |r.values| == |features|
      && forall i :: 0 <= i < |features| ==> r.values[i] == entered(UniqueKey(LastSection(features[i]), features[i]))
  {
    FeatureValuesSpec(features, entered);
  }

  /** The lookup fails on the first feature that has no entry, and reports that feature. */
  lemma FirstMissingRaises(features: seq<string>, values: map<string, real>, i: nat)
    requires i < |features| && features[i] !in values
    requires forall j :: 0 <= j < i ==> features[j] in values
    ensures AssembleVector(features, values) == KeyError(features[i])
  {
    var r := AssembleVector(features, values);
    var m :| 0 <= m < |features| && features[m] == r.key && r.key !in values && forall j :: 0 <= j < m ==> features[j] in values;
    assert !(m < i) && !(i < m);
  }

  /**
   * The lookup raises `KeyError` for the first feature that no section shows,
   * whatever values were entered: there is no default of 0.0.
   */
  lemma UnshownFeatureRaises(features: seq<string>, entered: string -> real, i: nat)
    requires i < |features| && !InSomeSection(features[i])
    requires forall j :: 0 <= j < i ==> InSomeSection(features[j])
    ensures AssembleVector(features, FeatureValues(features, entered)) == KeyError(features[i])
  {
    var values := FeatureValues(features, entered);
    FeatureValueDomain(features, entered, features[i]);
    forall j | 0 <= j < i ensures features[j] in values {
      FeatureValueDomain(features, entered, features[j]);
    }
    FirstMissingRaises(features, values, i);
  }

  /** Concatenating two duplicate-free sequences with no element in common keeps it duplicate-free. */
  lemma DistinctConcat<T>(a: seq<T>, b: seq<T>)
    requires Distinct(a) && Distinct(b)
    requires forall i, j :: 0 <= i < |a| && 0 <= j < |b| ==> a[i] != b[j]
    ensures Distinct(a + b)
  {
    forall i, j | 0 <= i < j < |a + b| ensures (a + b)[i] != (a + b)[j] {
      if j < |a| {
        assert (a + b)[i] == a[i] && (a + b)[j] == a[j];
      } else if i < |a| {
        assert (a + b)[i] == a[i] && (a + b)[j] == b[j - |a|];
      } else {
        assert (a + b)[i] == b[i - |a|] && (a + b)[j] == b[j - |a|];
      }
    }
  }

  /** The first letters of the keys of the first `n` sections. */
  function InitialsBefore(n: nat): set<char>
    requires n <= |SectionOrder|
  {
    if n == 0 then {} else InitialsBefore(n - 1) + {KeyPrefix(SectionOrder[n - 1])[0]}
  }

  /** Each section's keys start with a letter no earlier section's keys start with. */
  lemma FreshInitial(n: nat)
    requires 0 < n <= |SectionOrder|
    ensures KeyPrefix(SectionOrder[n - 1])[0] !in InitialsBefore(n - 1)
  {
    assert InitialsBefore(1) == {'m'};
    assert InitialsBefore(2) == {'m', 'i'};
    assert InitialsBefore(3) == {'m', 'i', 'e'};
  }

  /** Every key is non-empty and starts with one of `letters`. */
  ghost predicate StartWithOneOf(keys: seq<string>, letters: set<char>) {
    forall k :: 0 <= k < |keys| ==> |keys[k]| > 0 && keys[k][0] in letters
  }

  /** Within a section, distinct features get distinct keys, all starting with the section's letter. */
  lemma SectionKeysDistinct(s: Section, names: seq<string>)
    requires Distinct(names)
    ensures Distinct(SectionKeys(s, names))
    ensures StartWithOneOf(SectionKeys(s, names), {KeyPrefix(s)[0]})
  {
    var keys := SectionKeys(s, names);
    forall i, j | 0 <= i < j < |keys| ensures keys[i] != keys[j] {
      if keys[i] == keys[j] {
        UniqueKeyInjective(s, names[i], s, names[j]);
      }
    }
  }

  /** Keys starting with letters from two sets are keys starting with a letter of their union. */
  lemma StartWithConcat(a: seq<string>, b: seq<string>, la: set<char>, lb: set<char>)
    requires StartWithOneOf(a, la) && StartWithOneOf(b, lb)
    ensures StartWithOneOf(a + b, la + lb)
    ensures la !! lb ==> forall i, j :: 0 <= i < |a| && 0 <= j < |b| ==> a[i] != b[j]
  {
    forall k | 0 <= k < |a + b| ensures |(a + b)[k]| > 0 && (a + b)[k][0] in la + lb {
      if k >= |a| {
        assert (a + b)[k] == b[k - |a|];
      }
    }
  }

  /**
   * The keys of the first `n` sections are duplicate-free and each starts with
   * the letter of one of those sections.
   */
  lemma {:induction false} KeysAfterDistinct(features: seq<string>, n: nat)
    requires n <= |SectionOrder| && Distinct(features)
    ensures Distinct(KeysAfter(features, n))
    ensures StartWithOneOf(KeysAfter(features, n), InitialsBefore(n))
  {
    if n > 0 {
      var s := SectionOrder[n - 1];
      var earlier, group := KeysAfter(features, n - 1), Group(features, s);
      KeysAfterDistinct(features, n - 1);
      FilterKeepsDistinct(features, name => InSection(name, s));
      SectionKeysDistinct(s, group);
      var added := SectionKeys(s, group);
      FreshInitial(n);
      StartWithConcat(earlier, added, InitialsBefore(n - 1), {KeyPrefix(s)[0]});
      DistinctConcat(earlier, added);
    }
  }

  /**
   * Since the model's feature names are distinct, the sidebar never creates two
   * fields with the same key.
   */
  lemma WidgetKeysDistinct(features: seq<string>)
    requires Distinct(features)
    ensures Distinct(WidgetKeys(features))
  {
    KeysAfterDistinct(features, |SectionOrder|);
  }
}
