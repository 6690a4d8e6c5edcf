/**
 * `extractActiveNEOFilters` and `isActiveFilter`: which configured filters
 * really constrain the list. A range filter counts only under the literal key
 * `absolute_magnitude_h`, and only when it differs from the data's bounds.
 */
module ActiveFilters {
  import opened JsValues
  import opened JsStrings
  import opened Filters
  import opened FilterExtrema

  /** The one key under which a range filter can be active. */
  const MagnitudeKey: string := "absolute_magnitude_h"

  /**
   * `isActiveFilter`. For a range the test is
   * `!(min === (dataMin ?? 0) && (max === dataMax) ?? 0)`: the `?? 0` applies
   * to the boolean `max === dataMax`, which is never nullish, so `max` is
   * compared with the maximum found and gets no fallback.
   */
  predicate IsActiveFilter(key: string, filter: Filter, neoObjects: seq<Obj>)
  {
    var value := filter.value;
    if IsString(value) then Trim(value.s) != ""
    else if IsNumber(value) then value.n != 0.0
    else if IsBoolean(value) then true
    else if IsArray(value) then
      if key == MagnitudeKey then
        !(Num(value.lo) == Coalesce(FindMinValueByKey(neoObjects, MagnitudeKey), Num(0.0)) &&
          Num(value.hi) == FindMaxValueByKey(neoObjects, MagnitudeKey))
      else false
    else false
  }

  /** The entries of `filters` that are active, with their filters unchanged. */
  function ActiveFiltersOf(filters: Settings, neoObjects: seq<Obj>): (active: Settings)
    ensures active.Keys <= filters.Keys
    ensures forall k :: k in active ==> active[k] == filters[k]
    ensures forall k :: k in filters ==> (k in active <==> IsActiveFilter(k, filters[k], neoObjects))
  {
    map k | k in filters && IsActiveFilter(k, filters[k], neoObjects) :: filters[k]
  }

  /** `extractActiveNEOFilters`: copies each active entry into a fresh settings object. */
  method ExtractActiveNEOFilters(filters: Settings, neoObjects: seq<Obj>) returns (activeFilters: Settings)
    ensures activeFilters.Keys <= filters.Keys
    ensures forall k :: k in activeFilters ==> activeFilters[k] == filters[k]
    ensures forall k :: k in filters ==> (k in activeFilters <==> IsActiveFilter(k, filters[k], neoObjects))
    ensures activeFilters == ActiveFiltersOf(filters, neoObjects)
  {
    activeFilters := map[];
    var pending := filters.Keys;
    while pending != {}
      invariant pending <= filters.Keys
      invariant activeFilters.Keys == set k | k in filters.Keys - pending && IsActiveFilter(k, filters[k], neoObjects)
      invariant forall k :: k in activeFilters ==> activeFilters[k] == filters[k]
      decreases pending
    {
      var key :| key in pending;
      if IsActiveFilter(key, filters[key], neoObjects) {
        activeFilters := activeFilters[key := filters[key]];
      }
      pending := pending - {key};
    }
  }

  /** Extraction is idempotent: the active filters are all active. */
  lemma ActiveFiltersIdempotent(filters: Settings, neoObjects: seq<Obj>)
    ensures ActiveFiltersOf(ActiveFiltersOf(filters, neoObjects), neoObjects) == ActiveFiltersOf(filters, neoObjects)
  {
    var once := ActiveFiltersOf(filters, neoObjects);
    assert ActiveFiltersOf(once, neoObjects).Keys == once.Keys;
  }

  /** A text filter is active exactly when its string has a character that is not white space. */
  lemma ActiveText(key: string, s: string, neoObjects: seq<Obj>)
    ensures IsActiveFilter(key, Filter(Str(s)), neoObjects) <==> exists i :: 0 <= i < |s| && !IsWhitespace(s[i])
  {
    TrimEmptyIff(s);
  }

  /** A number is active when non-zero; a boolean filter is always active. */
  lemma ActiveNumberAndBoolean(key: string, n: real, b: bool, neoObjects: seq<Obj>)
    ensures IsActiveFilter(key, Filter(Num(n)), neoObjects) <==> n != 0.0
    ensures IsActiveFilter(key, Filter(Bool(b)), neoObjects)
    ensures !IsActiveFilter(key, Filter(Undef), neoObjects)
  {
  }

  /** A range filter under any key other than `absolute_magnitude_h` is never active. */
  lemma RangeActiveOnlyUnderMagnitude(key: string, lo: real, hi: real, neoObjects: seq<Obj>)
    requires key != MagnitudeKey
    ensures !IsActiveFilter(key, Filter(Pair(lo, hi)), neoObjects)
  {
  }

  /**
   * Over objects holding numeric magnitudes, a magnitude range is inactive
   * exactly when it spans the smallest to the largest magnitude found.
   */
  lemma RangeActiveIffNarrowed(lo: real, hi: real, neoObjects: seq<Obj>)
    requires |neoObjects| > 0 && NumericAt(neoObjects, MagnitudeKey)
    ensures FindMinValueByKey(neoObjects, MagnitudeKey).Num? && FindMaxValueByKey(neoObjects, MagnitudeKey).Num?
    ensures IsActiveFilter(MagnitudeKey, Filter(Pair(lo, hi)), neoObjects) <==>
              !(lo == FindMinValueByKey(neoObjects, MagnitudeKey).n && hi == FindMaxValueByKey(neoObjects, MagnitudeKey).n)
  {
    FindValueByKeyBounds(neoObjects, MagnitudeKey);
  }

  /**
   * With no objects the maximum is `undefined` and `max` gets no fallback, so
   * every magnitude range stays active, `[0, 0]` included.
   */
  lemma RangeAlwaysActiveWithoutObjects(lo: real, hi: real)
    ensures IsActiveFilter(MagnitudeKey, Filter(Pair(lo, hi)), [])
  {
  }

  /**
   * When no object holds the magnitude key (the minimum then falls back to 0
   * and the maximum stays `undefined`), every magnitude range stays active.
   */
  lemma RangeAlwaysActiveWithoutMagnitudes(lo: real, hi: real, neoObjects: seq<Obj>)
    requires forall j :: 0 <= j < |neoObjects| ==> MagnitudeKey !in neoObjects[j]
    ensures IsActiveFilter(MagnitudeKey, Filter(Pair(lo, hi)), neoObjects)
  {
    FindValueByMissingKey(neoObjects, MagnitudeKey);
  }

  /** A magnitude range spanning the data's bounds is dropped by extraction; the other entries are untouched. */
  lemma FullRangeIsDropped(filters: Settings, neoObjects: seq<Obj>)
    requires |neoObjects| > 0 && NumericAt(neoObjects, MagnitudeKey)
    requires MagnitudeKey in filters
    requires filters[MagnitudeKey].value ==
               Pair(FindMinValueByKey(neoObjects, MagnitudeKey).n, FindMaxValueByKey(neoObjects, MagnitudeKey).n)
    ensures MagnitudeKey !in ActiveFiltersOf(filters, neoObjects)
    ensures ActiveFiltersOf(filters, neoObjects) == ActiveFiltersOf(filters - {MagnitudeKey}, neoObjects)
  {
    FindValueByKeyBounds(neoObjects, MagnitudeKey);
    var lo, hi := filters[MagnitudeKey].value.lo, filters[MagnitudeKey].value.hi;
    RangeActiveIffNarrowed(lo, hi, neoObjects);
    assert ActiveFiltersOf(filters, neoObjects).Keys == ActiveFiltersOf(filters - {MagnitudeKey}, neoObjects).Keys;
  }
}
