/**
 * The filter model, the filter factory, the settings builder and the filter
 * engine of the NEO list: a filter is `{ value }`, settings map a field key to
 * a filter, and an object passes when every filter in the settings matches
 * the object's field under that key.
 */
module Filters {
  import opened Wrappers
  import opened JsValues
  import opened JsStrings
  import Seqs

  /**
   * `{ value }`. A TextFilter, a RangeFilter and a BooleanFilter differ only in
   * the runtime type of `value` (a string, a number pair, a boolean).
   */
  datatype Filter = Filter(value: Value)

  /** NEOFilterSettings: at most one filter per field key. */
  type Settings = map<string, Filter>

  /** `createFilterFunction<T>()`: wraps a value, unchanged, as a filter. */
  function CreateFilterFunction(value: Value): Filter
  {
    Filter(value)
  }

  /**
   * `createFilterByType`: no filter for `undefined`; otherwise the value is
   * wrapped as a text, boolean or (for anything else) range filter.
   */
  function CreateFilterByType(value: Value): (r: Option<Filter>)
    ensures r.None? <==> value.Undef?
    ensures r.Some? ==> r.value.value == value
    ensures r.Some? && IsString(value) ==> IsString(r.value.value)
    ensures r.Some? && IsBoolean(value) ==> IsBoolean(r.value.value)
  {
    if value.Undef? then None
    else if IsString(value) then Some(CreateFilterFunction(value))   // createTextFilter
    else if IsBoolean(value) then Some(CreateFilterFunction(value))  // createBooleanFilter
    else Some(CreateFilterFunction(value))                           // createRangeFilter
  }

  /**
   * `mapNEOFilters`: applies `transform` to every criterion and keeps the keys
   * whose transformed value is defined. The reduce over `Object.keys` visits
   * the keys in some order; which order does not change the result.
   */
  method MapNEOFilters<T, U>(criteria: map<string, T>, transform: T -> Option<U>)
    returns (transformed: map<string, U>)
    ensures transformed.Keys == set k | k in criteria && transform(criteria[k]).Some?
    ensures forall k :: k in transformed ==> transform(criteria[k]) == Some(transformed[k])
  {
    transformed := map[];
    var pending := criteria.Keys;
    while pending != {}
      invariant pending <= criteria.Keys
      invariant transformed.Keys == set k | k in criteria.Keys - pending && transform(criteria[k]).Some?
      invariant forall k :: k in transformed ==> transform(criteria[k]) == Some(transformed[k])
      decreases pending
    {
      var filterKey :| filterKey in pending;
      var transformedValue := transform(criteria[filterKey]);
      if transformedValue.Some? {
        transformed := transformed[filterKey := transformedValue.value];
      }
      pending := pending - {filterKey};
    }
  }

  /** The settings built from raw criteria: one filter per defined criterion. */
  function FilterSettingsOf(criteria: map<string, Value>): (settings: Settings)
    ensures settings.Keys == set k | k in criteria && !criteria[k].Undef?
    ensures forall k :: k in settings ==> CreateFilterByType(criteria[k]) == Some(settings[k])
  {
    map k | k in criteria && !criteria[k].Undef? :: Filter(criteria[k])
  }

  /** `createNEOFilterSettings`: `mapNEOFilters` with `createFilterByType`. */
  method CreateNEOFilterSettings(criteria: map<string, Value>) returns (settings: Settings)
    ensures settings.Keys == set k | k in criteria && !criteria[k].Undef?
    ensures forall k :: k in settings ==> settings[k] == Filter(criteria[k])
    ensures settings == FilterSettingsOf(criteria)
  {
    settings := MapNEOFilters(criteria, CreateFilterByType);
  }

  /**
   * `isFilterMatch`, dispatched on the runtime type of the object's field:
   * a string field against a string filter is a case-insensitive substring
   * test, a number against a pair the inclusive range test, a boolean against
   * a boolean equality; a missing field and every other pairing do not match.
   */
  predicate IsFilterMatch(obj: Obj, filterKey: string, filter: Filter)
  {
    var value := Field(obj, filterKey);
    if value.Undef? then false
    else if IsString(value) && IsString(filter.value) then
      Includes(LowerCase(value.s), LowerCase(filter.value.s))
    else if IsNumber(value) && IsArray(filter.value) then
      value.n >= filter.value.lo && value.n <= filter.value.hi
    else if IsBoolean(value) && IsBoolean(filter.value) then
      value.b == filter.value.b
    else false
  }

  /** The match, case by case, with the substring test stated as an occurrence. */
  lemma IsFilterMatchCases(obj: Obj, filterKey: string, filter: Filter)
    ensures Field(obj, filterKey).Undef? ==> !IsFilterMatch(obj, filterKey, filter)
    ensures (Field(obj, filterKey).Str? && filter.value.Str?) ==>
              (IsFilterMatch(obj, filterKey, filter) <==>
               exists i :: OccursAt(LowerCase(Field(obj, filterKey).s), LowerCase(filter.value.s), i))
    ensures (Field(obj, filterKey).Num? && filter.value.Pair?) ==>
              (IsFilterMatch(obj, filterKey, filter) <==>
               filter.value.lo <= Field(obj, filterKey).n <= filter.value.hi)
    ensures (Field(obj, filterKey).Bool? && filter.value.Bool?) ==>
              (IsFilterMatch(obj, filterKey, filter) <==> Field(obj, filterKey).b == filter.value.b)
    ensures (!(Field(obj, filterKey).Str? && filter.value.Str?) &&
             !(Field(obj, filterKey).Num? && filter.value.Pair?) &&
             !(Field(obj, filterKey).Bool? && filter.value.Bool?)) ==> !IsFilterMatch(obj, filterKey, filter)
  {
    var value := Field(obj, filterKey);
    if value.Str? && filter.value.Str? {
      IncludesIff(LowerCase(value.s), LowerCase(filter.value.s));
    }
  }

  /** An empty text filter matches every object whose field is a string. */
  lemma EmptyTextFilterMatchesStrings(obj: Obj, filterKey: string)
    requires Field(obj, filterKey).Str?
    ensures IsFilterMatch(obj, filterKey, Filter(Str("")))
  {
    IncludesEmpty(LowerCase(Field(obj, filterKey).s));
  }

  /** The object satisfies every filter of the settings. */
  predicate MatchesAll(obj: Obj, filters: Settings)
  {
    forall k :: k in filters ==> IsFilterMatch(obj, k, filters[k])
  }

  /** `MatchesAll` as the callback `filter` receives. */
  function MatchesAllOf(filters: Settings): Obj -> bool
  {
    obj => MatchesAll(obj, filters)
  }

  /** The objects `filterNeoObjects` keeps: those matching every filter, in order. */
  function Matching(objects: seq<Obj>, filters: Settings): seq<Obj>
  {
    Seqs.Filter(objects, MatchesAllOf(filters))
  }

  /** `isObjectMatchingFilters`: the loop over the entries returns false at the first failing filter. */
  method IsObjectMatchingFilters(obj: Obj, filters: Settings) returns (matches: bool)
    ensures matches <==> forall k :: k in filters ==> IsFilterMatch(obj, k, filters[k])
  {
    var pending := filters.Keys;
    while pending != {}
      invariant pending <= filters.Keys
      invariant forall k :: k in filters.Keys - pending ==> IsFilterMatch(obj, k, filters[k])
      decreases pending
    {
      var filterKey :| filterKey in pending;
      if !IsFilterMatch(obj, filterKey, filters[filterKey]) {
        return false;
      }
      pending := pending - {filterKey};
    }
    return true;
  }

  /** `filterNeoObjects`: `objects.filter(isObjectMatchingFilters)`. */
  method FilterNeoObjects(objects: seq<Obj>, filters: Settings) returns (matching: seq<Obj>)
    ensures matching == Matching(objects, filters)
  {
    matching := [];
    for i := 0 to |objects|
      invariant matching == Matching(objects[..i], filters)
    {
      var keep := IsObjectMatchingFilters(objects[i], filters);
      assert objects[..i + 1] == objects[..i] + [objects[i]];
      Seqs.FilterAppend(objects[..i], objects[i], MatchesAllOf(filters));
      if keep {
        matching := matching + [objects[i]];
      }
    }
    assert objects[..|objects|] == objects;
  }

  /** The result is an order-preserving subsequence of the input. */
  lemma MatchingIsSubsequence(objects: seq<Obj>, filters: Settings)
    ensures Seqs.IsSubsequence(Matching(objects, filters), objects)
  {
    Seqs.FilterIsSubsequence(objects, MatchesAllOf(filters));
  }

  /**
   * Exactly the objects satisfying every filter are kept, each as many times
   * as it occurs in the input.
   */
  lemma MatchingExactly(objects: seq<Obj>, filters: Settings, obj: Obj)
    ensures obj in Matching(objects, filters) <==> obj in objects && MatchesAll(obj, filters)
    ensures multiset(Matching(objects, filters))[obj] ==
              if MatchesAll(obj, filters) then multiset(objects)[obj] else 0
  {
    Seqs.FilterMultiplicity(objects, MatchesAllOf(filters), obj);
  }

  /** Empty settings keep the whole list. */
  lemma MatchingNoFilters(objects: seq<Obj>)
    ensures Matching(objects, map[]) == objects
  {
    Seqs.FilterAll(objects, MatchesAllOf(map[]));
  }

  /** Filtering by settings on disjoint keys one after the other is filtering by their union. */
  lemma MatchingDisjointUnion(objects: seq<Obj>, first: Settings, second: Settings)
    requires first.Keys !! second.Keys
    ensures Matching(Matching(objects, first), second) == Matching(objects, first + second)
  {
    forall obj ensures MatchesAllOf(first + second)(obj) == (MatchesAllOf(first)(obj) && MatchesAllOf(second)(obj)) {
      if MatchesAll(obj, first) && MatchesAll(obj, second) {
        forall k | k in first + second ensures IsFilterMatch(obj, k, (first + second)[k]) {
          if k in second { assert IsFilterMatch(obj, k, second[k]); }
          else { assert IsFilterMatch(obj, k, first[k]); }
        }
      }
      if MatchesAll(obj, first + second) {
        forall k | k in first ensures IsFilterMatch(obj, k, first[k]) {
          assert k !in second && (first + second)[k] == first[k];
        }
        forall k | k in second ensures IsFilterMatch(obj, k, second[k]) {
          assert (first + second)[k] == second[k];
        }
      }
    }
    Seqs.FilterTwice(objects, MatchesAllOf(first), MatchesAllOf(second), MatchesAllOf(first + second));
  }

  /** `getFilterValue`: the value of the filter under `name`, `undefined` when there is none. */
  function GetFilterValue(name: string, neoFilters: Settings): (v: Value)
    ensures name in neoFilters ==> v == neoFilters[name].value
    ensures name !in neoFilters ==> v == Undef
  {
    if name in neoFilters then neoFilters[name].value else Undef
  }

  /** Reading a filter value back from settings built from criteria yields the criterion. */
  lemma GetFilterValueOfSettings(name: string, criteria: map<string, Value>)
    ensures GetFilterValue(name, FilterSettingsOf(criteria)) == Field(criteria, name)
  {
  }
}
