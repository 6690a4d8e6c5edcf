/**
 * `mapNeoObjects`: the projection of feed entries onto the flattened list
 * entries, and the view of a list entry as the plain object the filter
 * engine reads.
 */
module NeoMapping {
  import opened NeoTypes
  import opened JsValues
  import Filters
  import FilterExtrema
  import MagnitudeValues

  /** The record built for one feed entry. */
  function MapNeo(neo: NearEarthObjectRaw): NearEarthObject
  {
    NearEarthObject(
      neo.id,
      neo.name,
      neo.isPotentiallyHazardousAsteroid,
      neo.absoluteMagnitudeH,
      neo.estimatedDiameter.meters.estimatedDiameterMin,
      neo.estimatedDiameter.meters.estimatedDiameterMax)
  }

  /** `mapNeoObjects`: `raw.map(...)`, one entry per feed entry, in order. */
  function MapNeoObjects(raw: seq<NearEarthObjectRaw>): (r: seq<NearEarthObject>)
    ensures |r| == |raw|
    ensures forall i :: 0 <= i < |raw| ==>
      r[i].id == raw[i].id && r[i].name == raw[i].name &&
      r[i].absoluteMagnitudeH == raw[i].absoluteMagnitudeH &&
      r[i].isPotentiallyHazardousAsteroid == raw[i].isPotentiallyHazardousAsteroid &&
      r[i].estimatedDiameterMinMeters == raw[i].estimatedDiameter.meters.estimatedDiameterMin &&
      r[i].estimatedDiameterMaxMeters == raw[i].estimatedDiameter.meters.estimatedDiameterMax
  {
    seq(|raw|, i requires 0 <= i < |raw| => MapNeo(raw[i]))
  }

  /** Mapping distributes over concatenation: entries are mapped one by one. */
  lemma MapNeoObjectsAppend(a: seq<NearEarthObjectRaw>, b: seq<NearEarthObjectRaw>)
    ensures MapNeoObjects(a + b) == MapNeoObjects(a) + MapNeoObjects(b)
  {
    var r := MapNeoObjects(a + b);
    forall i | 0 <= i < |a + b|
      ensures r[i] == (MapNeoObjects(a) + MapNeoObjects(b))[i]
    {
      if i < |a| {
        assert (a + b)[i] == a[i];
      } else {
        assert (a + b)[i] == b[i - |a|];
      }
    }
  }

  /** Only the metre ranges reach the result: the other units, the links and the approaches are dropped. */
  lemma MapNeoIgnoresDroppedFields(x: NearEarthObjectRaw, y: NearEarthObjectRaw)
    requires x.id == y.id && x.name == y.name && x.absoluteMagnitudeH == y.absoluteMagnitudeH
    requires x.isPotentiallyHazardousAsteroid == y.isPotentiallyHazardousAsteroid
    requires x.estimatedDiameter.meters == y.estimatedDiameter.meters
    ensures MapNeoObjects([x]) == MapNeoObjects([y])
  {
  }

  /** A list entry as the filter engine sees it: an object with the record's own field names. */
  function AsObject(n: NearEarthObject): (obj: Obj)
    ensures forall key :: key in obj <==> key in NeoObjectKeys
  {
    map[
      "id" := Str(n.id),
      "name" := Str(n.name),
      "isPotentiallyHazardousAsteroid" := Bool(n.isPotentiallyHazardousAsteroid),
      "absoluteMagnitudeH" := Num(n.absoluteMagnitudeH),
      "estimatedDiameterMinMeters" := Num(n.estimatedDiameterMinMeters),
      "estimatedDiameterMaxMeters" := Num(n.estimatedDiameterMaxMeters)]
  }

  const NeoObjectKeys: set<string> := {
    "id", "name", "isPotentiallyHazardousAsteroid", "absoluteMagnitudeH",
    "estimatedDiameterMinMeters", "estimatedDiameterMaxMeters"}

  function AsObjects(ns: seq<NearEarthObject>): (objs: seq<Obj>)
    ensures |objs| == |ns| && forall i :: 0 <= i < |ns| ==> objs[i] == AsObject(ns[i])
  {
    seq(|ns|, i requires 0 <= i < |ns| => AsObject(ns[i]))
  }

  /** Under the entry's own field name, a range filter tests the magnitude. */
  lemma CamelCaseRangeFilterTestsMagnitude(n: NearEarthObject, lo: real, hi: real)
    ensures Filters.IsFilterMatch(AsObject(n), "absoluteMagnitudeH", Filters.Filter(Pair(lo, hi))) <==>
              lo <= n.absoluteMagnitudeH <= hi
  {
  }

  /**
   * The criteria's snake-case keys `absolute_magnitude_h` and
   * `is_potentially_hazardous_asteroid` are not fields of a mapped entry,
   * so a filter under either key matches no mapped entry.
   */
  lemma SnakeCaseFiltersMatchNothing(raw: seq<NearEarthObjectRaw>, settings: Filters.Settings)
    requires MagnitudeValues.MagnitudeKey in settings || "is_potentially_hazardous_asteroid" in settings
    ensures Filters.Matching(AsObjects(MapNeoObjects(raw)), settings) == []
  {
    var objs := AsObjects(MapNeoObjects(raw));
    var key := if MagnitudeValues.MagnitudeKey in settings then MagnitudeValues.MagnitudeKey
               else "is_potentially_hazardous_asteroid";
    forall j | 0 <= j < |objs|
      ensures !Filters.MatchesAll(objs[j], settings)
    {
      assert key !in objs[j];
      assert !Filters.IsFilterMatch(objs[j], key, settings[key]);
    }
    var kept := Filters.Matching(objs, settings);
    if |kept| > 0 {
      Filters.MatchingExactly(objs, settings, kept[0]);
      assert false;
    }
  }

  /**
   * Over mapped entries the magnitude bounds read a key no entry has, so the
   * magnitude slider's bounds are all 0 whatever the magnitudes are.
   */
  lemma MagnitudeBoundsOfMappedAreZero(raw: seq<NearEarthObjectRaw>)
    ensures FilterExtrema.NumericOrMissing(AsObjects(MapNeoObjects(raw)), MagnitudeValues.MagnitudeKey)
    ensures MagnitudeValues.MagnitudeRangeValues(AsObjects(MapNeoObjects(raw)))
         == MagnitudeValues.MagnitudeRange(0.0, 0.0, (0.0, 0.0))
  {
    var objs := AsObjects(MapNeoObjects(raw));
    FilterExtrema.FindValueByMissingKey(objs, MagnitudeValues.MagnitudeKey);
  }
}
