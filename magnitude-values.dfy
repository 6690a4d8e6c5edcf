/**
 * The magnitude slider's bounds, derived from the loaded objects under the
 * key `absolute_magnitude_h`: the smallest and largest magnitude (0 when
 * there is none), rounded for display and for the initial filter.
 */
module MagnitudeValues {
  import opened JsValues
  import opened FilterExtrema
  import RangeValues

  const MagnitudeKey := "absolute_magnitude_h"

  /** What `useMagnitudeRangeMinMaxValues` returns. */
  datatype MagnitudeRange = MagnitudeRange(
    minMagnitude: real,
    maxMagnitude: real,
    initialMagnitudeFilter: (real, real))

  /**
   * `useMagnitudeRangeMinMaxValues`: the raw extremes default to 0; the
   * initial filter is `[floor(min), ceil(max)]`, and both returned bounds
   * are rounded up.
   */
  function MagnitudeRangeValues(neoObjects: seq<Obj>): MagnitudeRange
    requires NumericOrMissing(neoObjects, MagnitudeKey)
  {
    var minMagnitude := RangeValues.NumberOrZero(FindMinValueByKey(neoObjects, MagnitudeKey));
    var maxMagnitude := RangeValues.NumberOrZero(FindMaxValueByKey(neoObjects, MagnitudeKey));
    MagnitudeRange(Ceil(minMagnitude), Ceil(maxMagnitude), (Floor(minMagnitude), Ceil(maxMagnitude)))
  }

  /** No objects: every returned number is 0. */
  lemma MagnitudeOfNoObjects()
    ensures MagnitudeRangeValues([]) == MagnitudeRange(0.0, 0.0, (0.0, 0.0))
  {
  }

  /**
   * The returned minimum is the ceiling, at or one above the initial filter's
   * floor; the returned maximum is the initial filter's upper end.
   */
  lemma MagnitudeBoundsAgainstFilter(neoObjects: seq<Obj>)
    requires NumericOrMissing(neoObjects, MagnitudeKey)
    ensures var r := MagnitudeRangeValues(neoObjects);
      r.initialMagnitudeFilter.0 <= r.minMagnitude <= r.initialMagnitudeFilter.0 + 1.0 &&
      r.maxMagnitude == r.initialMagnitudeFilter.1
  {
    var m := RangeValues.NumberOrZero(FindMinValueByKey(neoObjects, MagnitudeKey));
    assert Floor(m) <= m <= Ceil(m);
    assert Ceil(m) <= Floor(m) + 1.0 by {
      var f, c := m.Floor, Ceil(m).Floor;
      assert c as real - 1.0 < m < f as real + 1.0;
      assert c - 1 < f + 1;
    }
  }

  /** The initial filter encloses every object's magnitude. */
  lemma InitialFilterEnclosesMagnitudes(neoObjects: seq<Obj>)
    requires NumericAt(neoObjects, MagnitudeKey)
    ensures var r := MagnitudeRangeValues(neoObjects);
      forall j :: 0 <= j < |neoObjects| ==>
        r.initialMagnitudeFilter.0 <= Field(neoObjects[j], MagnitudeKey).n <= r.initialMagnitudeFilter.1
  {
    if |neoObjects| > 0 {
      FindValueByKeyBounds(neoObjects, MagnitudeKey);
    }
  }

  /**
   * Magnitudes 17.5 and 20.2: the initial filter is `[17, 21]` while the
   * returned minimum is 18, above the smallest magnitude.
   */
  lemma MinimumRoundedUp()
    ensures var objects := [map[MagnitudeKey := Num(17.5)], map[MagnitudeKey := Num(20.2)]];
      var r := MagnitudeRangeValues(objects);
      r.initialMagnitudeFilter == (17.0, 21.0) && r.minMagnitude == 18.0 && r.maxMagnitude == 21.0
  {
    var objects := [map[MagnitudeKey := Num(17.5)], map[MagnitudeKey := Num(20.2)]];
    var getValue := FieldOf(MagnitudeKey);
    assert getValue(objects[0]) == Num(17.5) && getValue(objects[1]) == Num(20.2);
    assert objects[..1] == [objects[0]];
    assert FirstMinIndex(objects, getValue) == 0;
    assert FirstMaxIndex(objects, getValue) == 1;
    assert (17.5).Floor == 17 && (-17.5).Floor == -18 && (-20.2).Floor == -21;
  }
}
