/**
 * `deepEqual`: a structural comparison of JSON-like values. Both arguments
 * are objects (arrays among them); their own keys are compared one by one,
 * recursing into members that are both plain objects or both arrays, and
 * comparing every other pair of members with `!==`.
 */
module DeepEqual {

  /**
   * A JSON-like JavaScript value. An array's own keys are its indices
   * written in decimal, a plain object's keys its property names.
   */
  datatype Json =
    | JUndefined
    | JNull
    | JBool(b: bool)
    | JNum(n: real)
    | JStr(s: string)
    | JArray(items: seq<Json>)
    | JObject(props: map<string, Json>)

  /** `isObject`: a plain object, not an array and not `null`. */
  predicate IsObject(v: Json) { v.JObject? }

  /** `Array.isArray`. */
  predicate IsArray(v: Json) { v.JArray? }

  /** The values `deepEqual` accepts (`AnyObject`): plain objects and arrays. */
  predicate IsContainer(v: Json) { v.JObject? || v.JArray? }

  // ----- array indices as property names -----

  /** The character of a decimal digit. */
  function DigitChar(d: nat): char
    requires d < 10
  {
    ('0' as int + d) as char
  }

  /** The property name of array index `i`: its decimal numeral. */
  function IndexKey(i: nat): string
    decreases i
  {
    if i < 10 then [DigitChar(i)] else IndexKey(i / 10) + [DigitChar(i % 10)]
  }

  /** Reads a decimal numeral (the inverse of `IndexKey`). */
  function ParseIndex(k: string): int
    decreases |k|
  {
    if |k| == 0 then 0 else ParseIndex(k[..|k| - 1]) * 10 + (k[|k| - 1] as int - '0' as int)
  }

  /** `IndexKey` and `ParseIndex` form a round trip. */
  lemma {:induction false} ParseIndexKey(i: nat)
    ensures ParseIndex(IndexKey(i)) == i
    decreases i
  {
    var k := IndexKey(i);
    if i < 10 {
      assert k[..|k| - 1] == [];
    } else {
      assert k[..|k| - 1] == IndexKey(i / 10);
      ParseIndexKey(i / 10);
    }
  }

  /** Distinct indices have distinct property names. */
  lemma IndexKeyInjective()
    ensures forall i: nat, j: nat :: IndexKey(i) == IndexKey(j) ==> i == j
  {
    forall i: nat, j: nat | IndexKey(i) == IndexKey(j)
      ensures i == j
    {
      ParseIndexKey(i);
      ParseIndexKey(j);
    }
  }

  /** The keys and members of an array: index name to element. */
  function ArrayEntries(s: seq<Json>): (r: map<string, Json>)
    ensures forall i :: 0 <= i < |s| ==> IndexKey(i) in r && r[IndexKey(i)] == s[i]
    ensures forall k :: k in r ==> exists i :: 0 <= i < |s| && IndexKey(i) == k
  {
    IndexKeyInjective();
    map i | 0 <= i < |s| :: IndexKey(i) := s[i]
  }

  /** The names of the first `n` indices. */
  function IndexKeys(n: nat): set<string>
  {
    set i | 0 <= i < n :: IndexKey(i)
  }

  lemma {:induction false} IndexKeysCount(n: nat)
    ensures |IndexKeys(n)| == n
  {
    if n > 0 {
      IndexKeysCount(n - 1);
      IndexKeyInjective();
      assert IndexKeys(n) == IndexKeys(n - 1) + {IndexKey(n - 1)};
      assert IndexKey(n - 1) !in IndexKeys(n - 1);
    }
  }

  /** `Object.keys` of an array has one key per element. */
  lemma ArrayEntriesCount(s: seq<Json>)
    ensures |ArrayEntries(s)| == |s|
  {
    assert ArrayEntries(s).Keys == IndexKeys(|s|);
    IndexKeysCount(|s|);
  }

  // ----- the comparison -----

  /** The own keys of an object or array, with their members. */
  function Entries(v: Json): map<string, Json>
    requires IsContainer(v)
  {
    if v.JArray? then ArrayEntries(v.items) else v.props
  }

  /** `Object.keys(v).length`. */
  function KeyCount(v: Json): nat
    requires IsContainer(v)
  {
    |Entries(v).Keys|
  }

  /** `keys.includes(key)` on `Object.keys(v)`. */
  predicate HasKey(v: Json, key: string)
    requires IsContainer(v)
  {
    key in Entries(v)
  }

  /** `v[key]`: a missing key reads as `undefined`. */
  function Get(v: Json, key: string): Json
    requires IsContainer(v)
  {
    if key in Entries(v) then Entries(v)[key] else JUndefined
  }

  /**
   * `x === y` for a pair `deepEqual` does not recurse into: a container
   * reaches this test only beside a value of another kind, so only two
   * equal primitive values compare equal.
   */
  predicate StrictEquals(x: Json, y: Json)
  {
    !IsContainer(x) && !IsContainer(y) && x == y
  }

  /** `deepEqual(a, b)`: same key count, and every key of `a` passes. */
  function DeepEqual(a: Json, b: Json): bool
    requires IsContainer(a) && IsContainer(b)
    decreases a, 0
  {
    KeyCount(a) == KeyCount(b) &&
    match a
    case JObject(pa) =>
      forall k | k in pa :: HasKey(b, k) && MemberEqual(pa[k], Get(b, k))
    case JArray(sa) =>
      forall i | 0 <= i < |sa| :: HasKey(b, IndexKey(i)) && MemberEqual(sa[i], Get(b, IndexKey(i)))
  }

  /** The test applied to one pair of members (`valA`, `valB`). */
  function MemberEqual(x: Json, y: Json): bool
    decreases x, 1
  {
    if IsObject(x) && IsObject(y) then DeepEqual(x, y)
    else if IsArray(x) && IsArray(y) then DeepEqual(x, y)
    else StrictEquals(x, y)
  }

  // ----- what the comparison means -----

  /** Two values of the same kind with the same entries are the same value. */
  lemma EntriesDetermineValue(a: Json, b: Json)
    requires (IsObject(a) && IsObject(b)) || (IsArray(a) && IsArray(b))
    ensures Entries(a) == Entries(b) <==> a == b
  {
    if a.JArray? && Entries(a) == Entries(b) {
      ArrayEntriesCount(a.items);
      ArrayEntriesCount(b.items);
      assert |a.items| == |b.items|;
      forall i | 0 <= i < |a.items|
        ensures a.items[i] == b.items[i]
      {
        assert Entries(a)[IndexKey(i)] == a.items[i];
      }
      assert a.items == b.items;
    }
  }

  /** Members pass the test exactly when they are the same value. */
  lemma {:induction false} MemberEqualIsEquality(x: Json, y: Json)
    ensures MemberEqual(x, y) <==> x == y
    decreases x, 1
  {
    if (IsObject(x) && IsObject(y)) || (IsArray(x) && IsArray(y)) {
      DeepEqualIsEntryEquality(x, y);
      EntriesDetermineValue(x, y);
    }
  }

  /** Two finite maps agree when one's keys all map alike in the other and they have as many keys. */
  lemma SameEntries(ea: map<string, Json>, eb: map<string, Json>)
    requires |ea| == |eb|
    requires forall k | k in ea :: k in eb && ea[k] == eb[k]
    ensures ea == eb
  {
    assert ea.Keys <= eb.Keys;
    assert |eb.Keys - ea.Keys| == |eb.Keys| - |ea.Keys| == 0;
    assert ea.Keys == eb.Keys;
  }

  /**
   * `deepEqual(a, b)` holds exactly when `a` and `b` have the same own keys
   * with the same members under them.
   */
  lemma {:induction false} DeepEqualIsEntryEquality(a: Json, b: Json)
    requires IsContainer(a) && IsContainer(b)
    ensures DeepEqual(a, b) <==> Entries(a) == Entries(b)
    decreases a, 0
  {
    var ea, eb := Entries(a), Entries(b);
    if a.JObject? {
      forall k | k in ea {
        MemberEqualIsEquality(ea[k], Get(b, k));
      }
    } else {
      forall i | 0 <= i < |a.items| {
        MemberEqualIsEquality(a.items[i], Get(b, IndexKey(i)));
      }
      ArrayEntriesCount(a.items);
    }
    if DeepEqual(a, b) {
      forall k | k in ea
        ensures k in eb && ea[k] == eb[k]
      {
        if a.JArray? {
          var i :| 0 <= i < |a.items| && IndexKey(i) == k;
        }
      }
      SameEntries(ea, eb);
    }
  }

  /** Two plain objects, or two arrays, are deep-equal exactly when they are equal. */
  lemma DeepEqualSameKind(a: Json, b: Json)
    requires (IsObject(a) && IsObject(b)) || (IsArray(a) && IsArray(b))
    ensures DeepEqual(a, b) <==> a == b
  {
    DeepEqualIsEntryEquality(a, b);
    EntriesDetermineValue(a, b);
  }

  /** A different number of keys makes the result false. */
  lemma KeyCountsDiffer(a: Json, b: Json)
    requires IsContainer(a) && IsContainer(b) && KeyCount(a) != KeyCount(b)
    ensures !DeepEqual(a, b)
  {
  }

  /** A true result means `a` and `b` have the same key set. */
  lemma DeepEqualSameKeys(a: Json, b: Json)
    requires IsContainer(a) && IsContainer(b) && DeepEqual(a, b)
    ensures Entries(a).Keys == Entries(b).Keys
  {
    DeepEqualIsEntryEquality(a, b);
  }

  /** `deepEqual(a, a)` holds for every object and array. */
  lemma DeepEqualReflexive(a: Json)
    requires IsContainer(a)
    ensures DeepEqual(a, a)
  {
    DeepEqualIsEntryEquality(a, a);
  }

  /** `deepEqual` is symmetric. */
  lemma DeepEqualSymmetric(a: Json, b: Json)
    requires IsContainer(a) && IsContainer(b)
    ensures DeepEqual(a, b) <==> DeepEqual(b, a)
  {
    DeepEqualIsEntryEquality(a, b);
    DeepEqualIsEntryEquality(b, a);
  }

  /** A nested mismatch under a shared key makes the whole result false. */
  lemma NestedMismatch(a: Json, b: Json, k: string)
    requires IsContainer(a) && IsContainer(b)
    requires HasKey(a, k) && HasKey(b, k) && Get(a, k) != Get(b, k)
    ensures !DeepEqual(a, b)
  {
    DeepEqualIsEntryEquality(a, b);
  }

  /**
   * A plain object and an array are compared by their keys too: an object
   * whose keys are the indices of the array compares equal to it.
   */
  lemma ObjectMatchesArray(x: Json)
    ensures DeepEqual(JObject(map["0" := x]), JArray([x]))
  {
    var e := ArrayEntries([x]);
    assert IndexKey(0) == "0";
    assert e.Keys == {"0"} by {
      forall k | k in e ensures k == "0" {
        var i :| 0 <= i < 1 && IndexKey(i) == k;
      }
    }
    assert e == map["0" := x];
    DeepEqualIsEntryEquality(JObject(map["0" := x]), JArray([x]));
  }

  /** Members that are an object and an array are never equal, whatever their keys. */
  lemma MixedMembersDiffer(x: Json)
    ensures !DeepEqual(JObject(map["a" := JObject(map["0" := x])]), JObject(map["a" := JArray([x])]))
  {
    DeepEqualSameKind(JObject(map["a" := JObject(map["0" := x])]), JObject(map["a" := JArray([x])]));
  }

  /** The documented example: two objects with the same nested `details`. */
  lemma DocumentedExample()
    ensures
      var details := JObject(map["type" := JStr("Asteroid"), "discovered" := JNum(1898.0)]);
      DeepEqual(JObject(map["name" := JStr("Eros"), "details" := details]),
                JObject(map["name" := JStr("Eros"), "details" := details]))
  {
    var details := JObject(map["type" := JStr("Asteroid"), "discovered" := JNum(1898.0)]);
    DeepEqualReflexive(JObject(map["name" := JStr("Eros"), "details" := details]));
  }
}
