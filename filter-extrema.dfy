/**
 * `findMinItem` / `findMaxItem` and the per-key finders built on them: a
 * linear scan that replaces the current candidate only on a strictly smaller
 * (larger) value, so the first of tied elements wins.
 */
module FilterExtrema {
  import opened Wrappers
  import opened JsValues

  /** The index the minimum scan ends on. */
  function FirstMinIndex<T>(items: seq<T>, getValue: T -> Value): (i: nat)
    requires |items| > 0
    ensures i < |items|
    decreases |items|
  {
    if |items| == 1 then 0
    else
      var k := FirstMinIndex(items[..|items| - 1], getValue);
      if Less(getValue(items[|items| - 1]), getValue(items[k])) then |items| - 1 else k
  }

  /** The index the maximum scan ends on. */
  function FirstMaxIndex<T>(items: seq<T>, getValue: T -> Value): (i: nat)
    requires |items| > 0
    ensures i < |items|
    decreases |items|
  {
    if |items| == 1 then 0
    else
      var k := FirstMaxIndex(items[..|items| - 1], getValue);
      if Greater(getValue(items[|items| - 1]), getValue(items[k])) then |items| - 1 else k
  }

  /** What `findMinItem` returns: `null` for no items, otherwise the item the scan ends on. */
  function MinItem<T>(items: seq<T>, getValue: T -> Value): Option<T>
  {
    if |items| == 0 then None else Some(items[FirstMinIndex(items, getValue)])
  }

  /** What `findMaxItem` returns. */
  function MaxItem<T>(items: seq<T>, getValue: T -> Value): Option<T>
  {
    if |items| == 0 then None else Some(items[FirstMaxIndex(items, getValue)])
  }

  /** `findMinItem`. */
  method FindMinItem<T>(items: seq<T>, getValue: T -> Value) returns (minItem: Option<T>)
    ensures minItem.None? <==> |items| == 0
    ensures minItem == MinItem(items, getValue)
  {
    if |items| == 0 {
      return None;
    }
    var minValue := getValue(items[0]);
    var item := items[0];
    ghost var index := 0;
    for i := 1 to |items|
      invariant index == FirstMinIndex(items[..i], getValue)
      invariant item == items[index] && minValue == getValue(item)
    {
      assert items[..i + 1][..i] == items[..i];
      var currentValue := getValue(items[i]);
      if Less(currentValue, minValue) {
        minValue := currentValue;
        item := items[i];
        index := i;
      }
    }
    assert items[..|items|] == items;
    return Some(item);
  }

  /** `findMaxItem`. */
  method FindMaxItem<T>(items: seq<T>, getValue: T -> Value) returns (maxItem: Option<T>)
    ensures maxItem.None? <==> |items| == 0
    ensures maxItem == MaxItem(items, getValue)
  {
    if |items| == 0 {
      return None;
    }
    var maxValue := getValue(items[0]);
    var item := items[0];
    ghost var index := 0;
    for i := 1 to |items|
      invariant index == FirstMaxIndex(items[..i], getValue)
      invariant item == items[index] && maxValue == getValue(item)
    {
      assert items[..i + 1][..i] == items[..i];
      var currentValue := getValue(items[i]);
      if Greater(currentValue, maxValue) {
        maxValue := currentValue;
        item := items[i];
        index := i;
      }
    }
    assert items[..|items|] == items;
    return Some(item);
  }

  /** Every item's value is a number. */
  predicate AllNumbers<T>(items: seq<T>, getValue: T -> Value)
  {
    forall j :: 0 <= j < |items| ==> getValue(items[j]).Num?
  }

  /**
   * Over numbers the minimum scan ends on a least value, and on the first
   * index holding it: every earlier value is strictly greater.
   */
  lemma {:induction false} FirstMinIndexIsFirstLeast<T>(items: seq<T>, getValue: T -> Value)
    requires |items| > 0 && AllNumbers(items, getValue)
    ensures forall j :: 0 <= j < |items| ==> getValue(items[FirstMinIndex(items, getValue)]).n <= getValue(items[j]).n
    ensures forall j :: 0 <= j < FirstMinIndex(items, getValue) ==>
              getValue(items[j]).n > getValue(items[FirstMinIndex(items, getValue)]).n
    decreases |items|
  {
    if |items| > 1 {
      var prefix := items[..|items| - 1];
      assert forall j :: 0 <= j < |prefix| ==> prefix[j] == items[j];
      FirstMinIndexIsFirstLeast(prefix, getValue);
    }
  }

  /** Over numbers the maximum scan ends on the first index holding a greatest value. */
  lemma {:induction false} FirstMaxIndexIsFirstGreatest<T>(items: seq<T>, getValue: T -> Value)
    requires |items| > 0 && AllNumbers(items, getValue)
    ensures forall j :: 0 <= j < |items| ==> getValue(items[FirstMaxIndex(items, getValue)]).n >= getValue(items[j]).n
    ensures forall j :: 0 <= j < FirstMaxIndex(items, getValue) ==>
              getValue(items[j]).n < getValue(items[FirstMaxIndex(items, getValue)]).n
    decreases |items|
  {
    if |items| > 1 {
      var prefix := items[..|items| - 1];
      assert forall j :: 0 <= j < |prefix| ==> prefix[j] == items[j];
      FirstMaxIndexIsFirstGreatest(prefix, getValue);
    }
  }

  /**
   * When the first item's value is not a number (a missing field reads as
   * `undefined`), no comparison succeeds and both scans end on the first item.
   */
  lemma {:induction false} NonNumberHeadWins<T>(items: seq<T>, getValue: T -> Value)
    requires |items| > 0 && !getValue(items[0]).Num?
    ensures FirstMinIndex(items, getValue) == 0 && FirstMaxIndex(items, getValue) == 0
    decreases |items|
  {
    if |items| > 1 {
      NonNumberHeadWins(items[..|items| - 1], getValue);
    }
  }

  /** The read of `key` that the per-key finders pass as value function. */
  function FieldOf(key: string): Obj -> Value
  {
    obj => Field(obj, key)
  }

  /** Every object holds a number, or nothing, under `key` (a NumericFilterKey). */
  predicate NumericOrMissing(objects: seq<Obj>, key: string)
  {
    forall j :: 0 <= j < |objects| ==> Field(objects[j], key).Num? || Field(objects[j], key).Undef?
  }

  /** Every object holds a number under `key`. */
  predicate NumericAt(objects: seq<Obj>, key: string)
  {
    forall j :: 0 <= j < |objects| ==> Field(objects[j], key).Num?
  }

  /** `findMinValueByKeyInNearEarthObjects`: `findMinItem(...)?.[key]`. */
  function FindMinValueByKey(neoObjects: seq<Obj>, key: string): (v: Value)
    ensures |neoObjects| == 0 ==> v == Undef
    ensures |neoObjects| > 0 ==> v == Field(neoObjects[FirstMinIndex(neoObjects, FieldOf(key))], key)
    ensures NumericOrMissing(neoObjects, key) ==> v.Num? || v.Undef?
  {
    match MinItem(neoObjects, FieldOf(key))
    case None => Undef
    case Some(item) => Field(item, key)
  }

  /** `findMaxValueByKeyInNearEarthObjects`: `findMaxItem(...)?.[key]`. */
  function FindMaxValueByKey(neoObjects: seq<Obj>, key: string): (v: Value)
    ensures |neoObjects| == 0 ==> v == Undef
    ensures |neoObjects| > 0 ==> v == Field(neoObjects[FirstMaxIndex(neoObjects, FieldOf(key))], key)
    ensures NumericOrMissing(neoObjects, key) ==> v.Num? || v.Undef?
  {
    match MaxItem(neoObjects, FieldOf(key))
    case None => Undef
    case Some(item) => Field(item, key)
  }

  /**
   * Over objects that all hold numbers under `key`, the finders return some
   * object's value that is at most (at least) every object's value.
   */
  lemma FindValueByKeyBounds(neoObjects: seq<Obj>, key: string)
    requires |neoObjects| > 0 && NumericAt(neoObjects, key)
    ensures FindMinValueByKey(neoObjects, key).Num? && FindMaxValueByKey(neoObjects, key).Num?
    ensures exists j :: 0 <= j < |neoObjects| && Field(neoObjects[j], key) == FindMinValueByKey(neoObjects, key)
    ensures exists j :: 0 <= j < |neoObjects| && Field(neoObjects[j], key) == FindMaxValueByKey(neoObjects, key)
    ensures forall j :: 0 <= j < |neoObjects| ==>
              FindMinValueByKey(neoObjects, key).n <= Field(neoObjects[j], key).n <= FindMaxValueByKey(neoObjects, key).n
  {
    var getValue := FieldOf(key);
    assert AllNumbers(neoObjects, getValue);
    FirstMinIndexIsFirstLeast(neoObjects, getValue);
    FirstMaxIndexIsFirstGreatest(neoObjects, getValue);
  }

  /** Under a key no object holds, both finders yield `undefined`, also on a non-empty list. */
  lemma FindValueByMissingKey(neoObjects: seq<Obj>, key: string)
    requires forall j :: 0 <= j < |neoObjects| ==> key !in neoObjects[j]
    ensures FindMinValueByKey(neoObjects, key) == Undef && FindMaxValueByKey(neoObjects, key) == Undef
  {
    if |neoObjects| > 0 {
      NonNumberHeadWins(neoObjects, FieldOf(key));
    }
  }
}
