/**
 * The bounds the filter screen derives from the loaded objects to seed a
 * range slider: the floor of the smallest and the ceiling of the largest
 * value under a numeric key, 0 when there is none.
 */
module RangeValues {
  import opened JsValues
  import opened FilterExtrema
  import Filters
  import Seqs

  /** `value ?? 0` for a number or `undefined`. */
  function NumberOrZero(v: Value): (r: real)
    requires v.Num? || v.Undef?
    ensures v.Undef? ==> r == 0.0
    ensures v.Num? ==> r == v.n
  {
    Coalesce(v, Num(0.0)).n
  }

  /** What `useRangeMinMaxValues` returns. */
  datatype RangeMinMax = RangeMinMax(minValue: real, maxValue: real, initialRangeFilter: (real, real))

  /** The three `useMemo` computations of `useRangeMinMaxValues`. */
  function RangeMinMaxValues(neoObjects: seq<Obj>, key: string): RangeMinMax
    requires NumericOrMissing(neoObjects, key)
  {
    var minValue := Floor(NumberOrZero(FindMinValueByKey(neoObjects, key)));
    var maxValue := Ceil(NumberOrZero(FindMaxValueByKey(neoObjects, key)));
    RangeMinMax(minValue, maxValue, (Floor(minValue), Ceil(maxValue)))
  }

  /** No objects: both bounds are 0 and so is the initial range. */
  lemma RangeOfNoObjects(key: string)
    ensures RangeMinMaxValues([], key) == RangeMinMax(0.0, 0.0, (0.0, 0.0))
  {
  }

  /**
   * The bounds enclose every object's value, and each is less than one away
   * from some object's value.
   */
  lemma RangeEnclosesValues(neoObjects: seq<Obj>, key: string)
    requires |neoObjects| > 0 && NumericAt(neoObjects, key)
    ensures var r := RangeMinMaxValues(neoObjects, key);
      (forall j :: 0 <= j < |neoObjects| ==> r.minValue <= Field(neoObjects[j], key).n <= r.maxValue) &&
      (exists j :: 0 <= j < |neoObjects| && Field(neoObjects[j], key).n < r.minValue + 1.0) &&
      (exists j :: 0 <= j < |neoObjects| && r.maxValue - 1.0 < Field(neoObjects[j], key).n)
  {
    FindValueByKeyBounds(neoObjects, key);
  }

  /** Both bounds are whole numbers, so the initial range is exactly `[minValue, maxValue]`. */
  lemma InitialRangeIsBounds(neoObjects: seq<Obj>, key: string)
    requires NumericOrMissing(neoObjects, key)
    ensures var r := RangeMinMaxValues(neoObjects, key);
      r.initialRangeFilter == (r.minValue, r.maxValue) &&
      r.minValue == r.minValue.Floor as real && r.maxValue == r.maxValue.Floor as real
  {
    var r := RangeMinMaxValues(neoObjects, key);
    assert Floor(r.minValue) == r.minValue by {
      assert (r.minValue.Floor as real).Floor == r.minValue.Floor;
    }
    var k := r.maxValue.Floor;
    assert r.maxValue == k as real;
    assert Ceil(k as real) == k as real by {
      assert (-(k as real)).Floor == -k;
    }
  }

  /** On a non-empty list of numbers the lower bound does not exceed the upper one. */
  lemma RangeOrdered(neoObjects: seq<Obj>, key: string)
    requires |neoObjects| > 0 && NumericAt(neoObjects, key)
    ensures RangeMinMaxValues(neoObjects, key).minValue <= RangeMinMaxValues(neoObjects, key).maxValue
  {
    RangeEnclosesValues(neoObjects, key);
    assert Field(neoObjects[0], key).Num?;
  }

  /** A range filter set to the initial range keeps every object. */
  lemma InitialRangeKeepsAll(neoObjects: seq<Obj>, key: string)
    requires NumericAt(neoObjects, key)
    ensures var r := RangeMinMaxValues(neoObjects, key);
      var filters := map[key := Filters.Filter(Pair(r.initialRangeFilter.0, r.initialRangeFilter.1))];
      Filters.Matching(neoObjects, filters) == neoObjects
  {
    var r := RangeMinMaxValues(neoObjects, key);
    var filters := map[key := Filters.Filter(Pair(r.initialRangeFilter.0, r.initialRangeFilter.1))];
    if |neoObjects| > 0 {
      RangeEnclosesValues(neoObjects, key);
      InitialRangeIsBounds(neoObjects, key);
      forall obj | obj in neoObjects
        ensures Filters.MatchesAllOf(filters)(obj)
      {
        var j :| 0 <= j < |neoObjects| && neoObjects[j] == obj;
        assert Filters.IsFilterMatch(obj, key, filters[key]);
      }
    }
    Seqs.FilterAll(neoObjects, Filters.MatchesAllOf(filters));
  }
}
