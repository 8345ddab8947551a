/**
 * The indicator classifier of the dashboard (app.py): the four list
 * comprehensions that sort the classifier's feature names into sidebar
 * sections by substring tokens, and the widget key built for each
 * (section, feature) pair.
 */
module IndicatorSections {
  import opened Substrings

  datatype Section = MarketIndices | InterestRates | ETFs | CurrencyRates

  /** The order in which the sidebar lists (and the input loop visits) the sections. */
  const SectionOrder: seq<Section> := [MarketIndices, InterestRates, ETFs, CurrencyRates]

  /** Index of a section in `SectionOrder`. */
  function Position(s: Section): nat {
    match s
    case MarketIndices => 0
    case InterestRates => 1
    case ETFs => 2
    case CurrencyRates => 3
  }

  /** `Position` is the index in `SectionOrder`. */
  lemma PositionInOrder()
    ensures forall k :: 0 <= k < |SectionOrder| ==> Position(SectionOrder[k]) == k
    ensures forall s: Section :: SectionOrder[Position(s)] == s
  {
  }

  /** The heading shown for each section. */
  function Title(s: Section): string {
    match s
    case MarketIndices => "Market Indices"
    case InterestRates => "Interest Rates"
    case ETFs => "ETFs"
    case CurrencyRates => "Currency Rates"
  }

  /** The substring tokens that put a feature name into each section. */
  function Tokens(s: Section): seq<string> {
    match s
    case MarketIndices => ["VIX", "DXY", "BDIY", "MXEU", "MXRU", "MXIN"]
    case InterestRates => ["USGG", "GTTL", "US0001M", "GTITL", "GTJPY", "GTGBP"]
    case ETFs => ["LF98TRUU", "LG30TRUU", "LP01TREU"]
    case CurrencyRates => ["JPY", "ECSURPUS"]
  }

  /** `any(x in name for x in tokens)`: some token is a substring of `name`. */
  predicate ContainsAny(name: string, tokens: seq<string>) {
    exists k | 0 <= k < |tokens| :: Contains(name, tokens[k])
  }

  /**
   * Any name containing "GTJPY" also contains "JPY", so the Interest Rates and
   * Currency Rates comprehensions both keep it.
   */
  lemma GTJPYShownTwice(name: string)
    requires Contains(name, "GTJPY")
    ensures InSection(name, InterestRates) && InSection(name, CurrencyRates)
  {
    assert Contains("GTJPY", "JPY");
    ContainsTrans("JPY", "GTJPY", name);
    assert Contains(name, Tokens(InterestRates)[4]);
    assert Contains(name, Tokens(CurrencyRates)[0]);
  }

  /** Section membership of a single name, independent of every other section. */
  predicate InSection(name: string, s: Section) {
    ContainsAny(name, Tokens(s))
  }

  /** The name is shown in at least one section. */
  predicate InSomeSection(name: string) {
    exists s: Section :: InSection(name, s)
  }

  /**
   * `[f for f in features if any(x in f for x in tokens)]`: the names that
   * contain one of the tokens, in their original order.
   */
  function Filter(features: seq<string>, keep: string -> bool): (r: seq<string>)
    ensures |r| <= |features|
  {
    if features == [] then []
    else (if keep(features[0]) then [features[0]] else []) + Filter(features[1..], keep)
  }

  /** A name is in the filtered list exactly when it is in `features` and `keep` accepts it. */
  lemma {:induction false} FilterMembership(features: seq<string>, keep: string -> bool)
    ensures forall x :: x in Filter(features, keep) <==> x in features && keep(x)
  {
    if features != [] {
      FilterMembership(features[1..], keep);
      assert features == [features[0]] + features[1..];
    }
  }

  /** The feature list of one section (one of the comprehensions on app.py lines 68-71). */
  function Group(features: seq<string>, s: Section): seq<string> {
    Filter(features, name => InSection(name, s))
  }

  /** A name is in a section's list exactly when it is a feature and the section shows it. */
  lemma GroupMembership(features: seq<string>, s: Section)
    ensures forall x :: x in Group(features, s) <==> x in features && InSection(x, s)
  {
    FilterMembership(features, name => InSection(name, s));
  }

  /** `idx` lists positions of `s` in increasing order. */
  ghost predicate IncreasingPositions(idx: seq<nat>, n: nat) {
    (forall k :: 0 <= k < |idx| ==> idx[k] < n) &&
    (forall k, l :: 0 <= k < l < |idx| ==> idx[k] < idx[l])
  }

  /**
   * `idx` selects from `features` exactly the positions whose name `keep`
   * accepts, in increasing order, and `r` lists the names at those positions.
   */
  ghost predicate StableSelection(r: seq<string>, features: seq<string>, keep: string -> bool, idx: seq<nat>) {
    && IncreasingPositions(idx, |features|)
    && |idx| == |r|
    && (forall k :: 0 <= k < |idx| ==> r[k] == features[idx[k]])
    && (forall p :: 0 <= p < |features| ==> (p in idx <==> keep(features[p])))
  }

  /**
   * The filter is stable and complete: its result is `features` restricted to
   * exactly the positions whose name `keep` accepts, kept in increasing order.
   * The positions are returned as a witness.
   */
  lemma {:induction false} FilterIsStableSelection(features: seq<string>, keep: string -> bool) returns (idx: seq<nat>)
    ensures StableSelection(Filter(features, keep), features, keep, idx)
  {
    if features == [] {
      idx := [];
    } else {
      var tail := FilterIsStableSelection(features[1..], keep);
      idx := ExtendSelection(features, keep, tail);
    }
  }

  /** The inductive step: a selection from the tail extends to one from the whole list. */
  lemma ExtendSelection(features: seq<string>, keep: string -> bool, tail: seq<nat>) returns (idx: seq<nat>)
    requires features != []
    requires StableSelection(Filter(features[1..], keep), features[1..], keep, tail)
    ensures StableSelection(Filter(features, keep), features, keep, idx)
  {
    var rest := Filter(features[1..], keep);
    var shifted := ShiftSelection(features, keep, rest, tail);
    if keep(features[0]) {
      idx := [0] + shifted;
      SelectFirst(features, keep, rest, shifted);
    } else {
      idx := shifted;
    }
  }

  /** The tail's positions, moved up by one, select the tail's names from the whole list. */
  lemma ShiftSelection(features: seq<string>, keep: string -> bool, rest: seq<string>, tail: seq<nat>) returns (shifted: seq<nat>)
    requires features != []
    requires StableSelection(rest, features[1..], keep, tail)
    ensures IncreasingPositions(shifted, |features|) && 0 !in shifted && |shifted| == |rest|
    ensures forall k :: 0 <= k < |shifted| ==> rest[k] == features[shifted[k]]
    ensures forall p :: 1 <= p < |features| ==> (p in shifted <==> keep(features[p]))
  {
    shifted := ShiftPositions(tail, |features| - 1);
    forall k | 0 <= k < |shifted| ensures rest[k] == features[shifted[k]] {
      assert features[1..][tail[k]] == features[shifted[k]];
    }
    forall p | 1 <= p < |features| ensures p in shifted <==> keep(features[p]) {
      assert features[1..][p - 1] == features[p];
    }
  }

  /** The inductive step when the first name is kept: position 0 goes in front. */
  lemma SelectFirst(features: seq<string>, keep: string -> bool, rest: seq<string>, shifted: seq<nat>)
    requires features != [] && keep(features[0])
    requires IncreasingPositions(shifted, |features|) && 0 !in shifted && |shifted| == |rest|
    requires forall k :: 0 <= k < |shifted| ==> rest[k] == features[shifted[k]]
    requires forall p :: 1 <= p < |features| ==> (p in shifted <==> keep(features[p]))
    ensures StableSelection([features[0]] + rest, features, keep, [0] + shifted)
  {
    var idx, r := [0] + shifted, [features[0]] + rest;
    forall p | 0 <= p < |features| ensures p in idx <==> keep(features[p]) {
      assert p in idx <==> p == 0 || p in shifted;
    }
    forall k, l | 0 <= k < l < |idx| ensures idx[k] < idx[l] {
      assert idx[l] == shifted[l - 1];
      if k > 0 { assert idx[k] == shifted[k - 1]; }
    }
    forall k | 0 <= k < |idx| ensures r[k] == features[idx[k]] {
      if k > 0 {
        assert r[k] == rest[k - 1] && idx[k] == shifted[k - 1];
      }
    }
  }

  /** Adding one to each position of a selection from a tail gives a selection avoiding 0. */
  lemma ShiftPositions(tail: seq<nat>, n: nat) returns (shifted: seq<nat>)
    requires IncreasingPositions(tail, n)
    ensures IncreasingPositions(shifted, n + 1) && 0 !in shifted
    ensures |shifted| == |tail| && forall k :: 0 <= k < |tail| ==> shifted[k] == tail[k] + 1
    ensures forall p :: 1 <= p <= n ==> (p in shifted <==> p - 1 in tail)
  {
    shifted := seq(|tail|, k requires 0 <= k < |tail| => tail[k] + 1);
    forall p | 1 <= p <= n ensures p in shifted <==> p - 1 in tail {
      if p - 1 in tail {
        var k :| 0 <= k < |tail| && tail[k] == p - 1;
        assert shifted[k] == p;
      }
    }
  }

  /** A section never holds a name twice when the model's names are distinct. */
  lemma FilterKeepsDistinct(features: seq<string>, keep: string -> bool)
    requires Distinct(features)
    ensures Distinct(Filter(features, keep))
  {
    var idx := FilterIsStableSelection(features, keep);
  }

  /** No element occurs twice. */
  ghost predicate Distinct<T>(s: seq<T>) {
    forall i, j :: 0 <= i < j < |s| ==> s[i] != s[j]
  }

  /** `s.lower()` for the ASCII section titles. */
  function Lower(s: string): (r: string)
    ensures |r| == |s|
    ensures forall i :: 0 <= i < |r| ==> !('A' <= r[i] <= 'Z')
    ensures forall i :: 0 <= i < |s| && !('A' <= s[i] <= 'Z') ==> r[i] == s[i]
    ensures forall i :: 0 <= i < |s| && 'A' <= s[i] <= 'Z' ==> r[i] == (s[i] as int + 32) as char
  {
    seq(|s|, i requires 0 <= i < |s| => if 'A' <= s[i] <= 'Z' then (s[i] as int + 32) as char else s[i])
  }

  /** `s.replace(' ', '_')`. */
  function SpacesToUnderscores(s: string): (r: string)
    ensures |r| == |s| && ' ' !in r
    ensures forall i :: 0 <= i < |s| && s[i] != ' ' ==> r[i] == s[i]
    ensures forall i :: 0 <= i < |s| && s[i] == ' ' ==> r[i] == '_'
  {
    seq(|s|, i requires 0 <= i < |s| => if s[i] == ' ' then '_' else s[i])
  }

  /** The section part of a widget key, written out per section. */
  function KeyPrefix(s: Section): string {
    match s
    case MarketIndices => "market_indices"
    case InterestRates => "interest_rates"
    case ETFs => "etfs"
    case CurrencyRates => "currency_rates"
  }

  /** The widget key of a feature's input field in a section (app.py line 85). */
  function UniqueKey(s: Section, feature: string): (r: string)
    ensures |r| == |KeyPrefix(s)| + 1 + |feature|
    ensures r[|r| - |feature|..] == feature
  {
    KeyPrefix(s) + "_" + feature
  }

  /**
   * The written-out prefixes are what app.py computes from the section title:
   * lower-cased, with spaces turned into underscores.
   */
  lemma KeyPrefixFromTitle(s: Section)
    ensures KeyPrefix(s) == SpacesToUnderscores(Lower(Title(s)))
  {
  }

  /**
   * Keys are unique across sections and features: the section prefixes start
   * with distinct letters and have fixed lengths, and the feature is the rest.
   */
  lemma UniqueKeyInjective(s1: Section, f1: string, s2: Section, f2: string)
    requires UniqueKey(s1, f1) == UniqueKey(s2, f2)
    ensures s1 == s2 && f1 == f2
  {
    var k := UniqueKey(s1, f1);
    assert k[0] == KeyPrefix(s1)[0] == KeyPrefix(s2)[0];
    assert |k| - |f1| == |KeyPrefix(s1)| + 1;
  }
}
