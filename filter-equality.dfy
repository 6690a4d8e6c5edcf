/**
 * `areFilterValuesEqual` and `areSelectedFiltersTheSame`: settings compare
 * equal when their key-sorted entries agree position by position on the key
 * and on the template-literal text of the filter's value.
 */
module FilterEquality {
  import opened JsValues
  import opened JsStrings
  import opened Filters

  /**
   * `${value}`. How JavaScript renders a number is supplied by the caller as
   * `numberText`; an array renders as its elements joined by commas.
   */
  function Stringify(v: Value, numberText: real -> string): string
  {
    match v
    case Undef => "undefined"
    case Str(s) => s
    case Num(n) => numberText(n)
    case Bool(b) => if b then "true" else "false"
    case Pair(lo, hi) => numberText(lo) + "," + numberText(hi)
  }

  /** `typeof` of a filter: every filter is an object literal `{ value }`. */
  function TypeOfFilter(f: Filter): string
  {
    "object"
  }

  /** `areFilterValuesEqual`. */
  predicate AreFilterValuesEqual(first: Filter, second: Filter, numberText: real -> string)
  {
    TypeOfFilter(first) == TypeOfFilter(second) &&
    Stringify(first.value, numberText) == Stringify(second.value, numberText)
  }

  /** The text the default `sort()` compares for an entry `[key, filter]`. */
  function EntryText(key: string): string
  {
    key + ",[object Object]"
  }

  /** Entry order of the default `sort()`: by the text of the entry. */
  predicate EntryBefore(a: string, b: string)
  {
    StrLess(EntryText(a), EntryText(b))
  }

  lemma EntryBeforeTotal(a: string, b: string)
    requires a != b
    ensures EntryBefore(a, b) || EntryBefore(b, a)
  {
    assert EntryText(a)[..|a|] == a && EntryText(b)[..|b|] == b;
    if |a| == |b| {
      assert EntryText(a) != EntryText(b);
    } else {
      assert |EntryText(a)| != |EntryText(b)|;
    }
    StrLessTotal(EntryText(a), EntryText(b));
  }

  /** The least key of a finite set in entry order. */
  predicate IsLeastEntry(k: string, keys: set<string>)
  {
    k in keys && forall j :: j in keys && j != k ==> EntryBefore(k, j)
  }

  lemma {:induction false} LeastEntryExists(keys: set<string>)
    requires keys != {}
    ensures exists k :: IsLeastEntry(k, keys)
    decreases |keys|
  {
    var x :| x in keys;
    var rest := keys - {x};
    if rest == {} {
      assert keys == {x};
      assert IsLeastEntry(x, keys);
    } else {
      LeastEntryExists(rest);
      var y :| IsLeastEntry(y, rest);
      EntryBeforeTotal(x, y);
      if EntryBefore(x, y) {
        forall j | j in keys && j != x ensures EntryBefore(x, j) {
          if j != y {
            assert j in rest;
            assert EntryBefore(y, j);
            StrLessTransitive(EntryText(x), EntryText(y), EntryText(j));
          }
        }
        assert IsLeastEntry(x, keys);
      } else {
        assert IsLeastEntry(y, keys);
      }
    }
  }

  lemma LeastEntryUnique(keys: set<string>)
    ensures forall k, k' :: IsLeastEntry(k, keys) && IsLeastEntry(k', keys) ==> k == k'
  {
    forall k, k' | IsLeastEntry(k, keys) && IsLeastEntry(k', keys) ensures k == k' {
      StrLessAsymmetric(EntryText(k), EntryText(k'));
    }
  }

  /** The keys in the order `Object.entries(...).sort()` puts their entries. */
  function SortedKeys(keys: set<string>): (sorted: seq<string>)
    ensures |sorted| == |keys|
    ensures forall k :: k in sorted <==> k in keys
    ensures forall i, j :: 0 <= i < j < |sorted| ==> EntryBefore(sorted[i], sorted[j])
    decreases |keys|
  {
    if keys == {} then []
    else
      LeastEntryExists(keys);
      LeastEntryUnique(keys);
      var k :| IsLeastEntry(k, keys);
      [k] + SortedKeys(keys - {k})
  }

  /** `Object.entries(settings).sort()`. */
  function SortedEntries(settings: Settings): (entries: seq<(string, Filter)>)
    ensures |entries| == |settings|
    ensures forall i :: 0 <= i < |entries| ==> entries[i].0 in settings && entries[i].1 == settings[entries[i].0]
    ensures forall i, j :: 0 <= i < j < |entries| ==> EntryBefore(entries[i].0, entries[j].0)
  {
    var keys := SortedKeys(settings.Keys);
    seq(|keys|, i requires 0 <= i < |keys| => (keys[i], settings[keys[i]]))
  }

  /** Every key of the settings has an entry. */
  lemma SortedEntriesCoverKeys(settings: Settings, k: string)
    requires k in settings
    ensures exists i :: 0 <= i < |SortedEntries(settings)| && SortedEntries(settings)[i] == (k, settings[k])
  {
    var keys := SortedKeys(settings.Keys);
    var i :| 0 <= i < |keys| && keys[i] == k;
    assert SortedEntries(settings)[i] == (k, settings[k]);
  }

  /** `areSelectedFiltersTheSame`. */
  predicate AreSelectedFiltersTheSame(first: Settings, second: Settings, numberText: real -> string)
  {
    var firstEntries := SortedEntries(first);
    var secondEntries := SortedEntries(second);
    |firstEntries| == |secondEntries| &&
    forall i :: 0 <= i < |firstEntries| ==>
      firstEntries[i].0 == secondEntries[i].0 &&
      AreFilterValuesEqual(firstEntries[i].1, secondEntries[i].1, numberText)
  }

  /** Same-position entries agree exactly when the key sequences do. */
  lemma SameFiltersSameKeys(first: Settings, second: Settings, numberText: real -> string)
    requires AreSelectedFiltersTheSame(first, second, numberText)
    ensures first.Keys == second.Keys
  {
    var ka, kb := SortedKeys(first.Keys), SortedKeys(second.Keys);
    var ea, eb := SortedEntries(first), SortedEntries(second);
    assert |ka| == |kb|;
    forall i | 0 <= i < |ka| ensures ka[i] == kb[i] {
      assert ea[i].0 == ka[i] && eb[i].0 == kb[i];
    }
    assert ka == kb;
  }

  /** Settings with the same keys and the same value text under each key are the same. */
  lemma SameFiltersFromAgreement(first: Settings, second: Settings, numberText: real -> string)
    requires first.Keys == second.Keys
    requires forall k :: k in first ==> Stringify(first[k].value, numberText) == Stringify(second[k].value, numberText)
    ensures AreSelectedFiltersTheSame(first, second, numberText)
  {
    var ka := SortedKeys(first.Keys);
    var ea, eb := SortedEntries(first), SortedEntries(second);
    assert SortedKeys(second.Keys) == ka;
    forall i | 0 <= i < |ea|
      ensures ea[i].0 == eb[i].0 && AreFilterValuesEqual(ea[i].1, eb[i].1, numberText)
    {
      assert ea[i] == (ka[i], first[ka[i]]) && eb[i] == (ka[i], second[ka[i]]);
    }
  }

  /**
   * Settings are "the same" exactly when they have the same keys and, under
   * every key, filter values with the same text.
   */
  lemma SameFiltersIff(first: Settings, second: Settings, numberText: real -> string)
    ensures AreSelectedFiltersTheSame(first, second, numberText) <==>
              first.Keys == second.Keys &&
              forall k :: k in first ==> Stringify(first[k].value, numberText) == Stringify(second[k].value, numberText)
  {
    if AreSelectedFiltersTheSame(first, second, numberText) {
      var ka := SortedKeys(first.Keys);
      var ea, eb := SortedEntries(first), SortedEntries(second);
      SameFiltersSameKeys(first, second, numberText);
      forall k | k in first
        ensures Stringify(first[k].value, numberText) == Stringify(second[k].value, numberText)
      {
        var i :| 0 <= i < |ka| && ka[i] == k;
        assert ea[i] == (k, first[k]) && eb[i] == (k, second[k]);
      }
    } else if first.Keys == second.Keys &&
              forall k :: k in first ==> Stringify(first[k].value, numberText) == Stringify(second[k].value, numberText) {
      SameFiltersFromAgreement(first, second, numberText);
    }
  }

  /** Every settings object is the same as itself. */
  lemma SameFiltersReflexive(settings: Settings, numberText: real -> string)
    ensures AreSelectedFiltersTheSame(settings, settings, numberText)
  {
    SameFiltersIff(settings, settings, numberText);
  }

  /** The comparison is symmetric. */
  lemma SameFiltersSymmetric(first: Settings, second: Settings, numberText: real -> string)
    ensures AreSelectedFiltersTheSame(first, second, numberText) <==> AreSelectedFiltersTheSame(second, first, numberText)
  {
    SameFiltersIff(first, second, numberText);
    SameFiltersIff(second, first, numberText);
  }

  /** Settings that differ in their number of entries are never the same. */
  lemma SameFiltersNeedSameCount(first: Settings, second: Settings, numberText: real -> string)
    requires |first| != |second|
    ensures !AreSelectedFiltersTheSame(first, second, numberText)
  {
  }

  /**
   * Only the text of a value is compared: a text filter `"true"` and the
   * boolean filter `true` are the same settings.
   */
  lemma TextComparisonConflatesKinds(key: string, numberText: real -> string)
    ensures AreSelectedFiltersTheSame(map[key := Filter(Str("true"))], map[key := Filter(Bool(true))], numberText)
  {
    SameFiltersIff(map[key := Filter(Str("true"))], map[key := Filter(Bool(true))], numberText);
  }
}
