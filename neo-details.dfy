/**
 * `mapNeoObjectDetails`: turns the detail response for one object into the
 * record the details screen shows. The close approaches are sorted by date
 * in place; the latest approach before today and the earliest after it give
 * the previous and next approach dates, and the earliest approach overall
 * gives the orbiting body, velocity and miss distance.
 *
 * Dates are read through `timestamp`, one instant per date text, and
 * compared with `today`, both supplied by the caller.
 */
module NeoDetails {
  import opened Wrappers
  import opened NeoTypes
  import Seqs

  /** `orbital_data.orbit_class`. */
  datatype OrbitClass = OrbitClass(
    orbitClassType: string,
    orbitClassDescription: string,
    orbitClassRange: string)

  /** `orbital_data`: the parts the mapper reads. */
  datatype OrbitalData = OrbitalData(
    firstObservationDate: string,
    orbitalPeriod: string,
    orbitClass: OrbitClass)

  /** `NeoObjectDetailsResponse`: the parts the mapper reads; the approaches are a mutable array. */
  datatype NeoObjectDetailsResponse = NeoObjectDetailsResponse(
    id: string,
    name: string,
    absoluteMagnitudeH: real,
    estimatedDiameter: EstimatedDiameter,
    isPotentiallyHazardousAsteroid: bool,
    closeApproachData: array<CloseApproachData>,
    isSentryObject: bool,
    orbitalData: OrbitalData)

  /** `NeoObjectDetails`; an absent first approach leaves velocity and distance `None`. */
  datatype NeoObjectDetails = NeoObjectDetails(
    id: string,
    name: string,
    isPotentiallyHazardousAsteroid: bool,
    absoluteMagnitude: real,
    isSentryObject: bool,
    previousApproachDate: string,
    nextApproachDate: string,
    firstObservation: string,
    oribitalPeriod: string,
    orbitingBody: string,
    estimatedDiameter: EstimatedDiameter,
    relativeVelocity: Option<RelativeVelocity>,
    missDistance: Option<MissDistance>,
    orbitClassType: string,
    orbitClassDescription: string,
    orbitClassRange: string)

  /** The instant of an approach: `dayjs(close_approach_date)`. */
  function Instant(a: CloseApproachData, timestamp: string -> int): int
  {
    timestamp(a.closeApproachDate)
  }

  /** Approaches in ascending order of their instants. */
  predicate SortedByDate(s: seq<CloseApproachData>, timestamp: string -> int)
  {
    forall i, j :: 0 <= i < j < |s| ==> Instant(s[i], timestamp) <= Instant(s[j], timestamp)
  }

  // ----- the sort -----

  /**
   * Inserts `x` after every approach of `s` that is not later than it: the
   * step of a stable sort by the comparator `instant(a) - instant(b)`.
   */
  function Insert(s: seq<CloseApproachData>, x: CloseApproachData, timestamp: string -> int): seq<CloseApproachData>
    decreases |s|
  {
    if |s| == 0 || Instant(s[|s| - 1], timestamp) <= Instant(x, timestamp) then s + [x]
    else Insert(s[..|s| - 1], x, timestamp) + [s[|s| - 1]]
  }

  /** `close_approach_data.sort(...)`, as a value: the stable sort by date. */
  function SortByDate(s: seq<CloseApproachData>, timestamp: string -> int): seq<CloseApproachData>
    decreases |s|
  {
    if |s| == 0 then [] else Insert(SortByDate(s[..|s| - 1], timestamp), s[|s| - 1], timestamp)
  }

  /** Inserting adds exactly `x`. */
  lemma {:induction false} InsertPermutes(s: seq<CloseApproachData>, x: CloseApproachData, timestamp: string -> int)
    ensures multiset(Insert(s, x, timestamp)) == multiset(s) + multiset{x}
    decreases |s|
  {
    if |s| > 0 && Instant(s[|s| - 1], timestamp) > Instant(x, timestamp) {
      InsertPermutes(s[..|s| - 1], x, timestamp);
      assert s == s[..|s| - 1] + [s[|s| - 1]];
    }
  }

  /** Inserting into a sorted sequence keeps it sorted and adds exactly `x`. */
  lemma {:induction false} InsertSorted(s: seq<CloseApproachData>, x: CloseApproachData, timestamp: string -> int)
    requires SortedByDate(s, timestamp)
    ensures SortedByDate(Insert(s, x, timestamp), timestamp)
    ensures multiset(Insert(s, x, timestamp)) == multiset(s) + multiset{x}
    decreases |s|
  {
    InsertPermutes(s, x, timestamp);
    if |s| > 0 && Instant(s[|s| - 1], timestamp) > Instant(x, timestamp) {
      var init, last := s[..|s| - 1], s[|s| - 1];
      InsertSorted(init, x, timestamp);
      var r := Insert(init, x, timestamp);
      assert Insert(s, x, timestamp) == r + [last];
      forall k | 0 <= k < |r|
        ensures Instant(r[k], timestamp) <= Instant(last, timestamp)
      {
        assert r[k] in multiset(init) + multiset{x};
        if r[k] in multiset(init) {
          var m :| 0 <= m < |init| && init[m] == r[k];
          assert s[m] == r[k];
        }
      }
    }
  }

  /** The sort yields a sorted permutation of its input. */
  lemma {:induction false} SortByDateSorted(s: seq<CloseApproachData>, timestamp: string -> int)
    ensures SortedByDate(SortByDate(s, timestamp), timestamp)
    ensures multiset(SortByDate(s, timestamp)) == multiset(s)
    decreases |s|
  {
    if |s| > 0 {
      SortByDateSorted(s[..|s| - 1], timestamp);
      InsertSorted(SortByDate(s[..|s| - 1], timestamp), s[|s| - 1], timestamp);
      assert s == s[..|s| - 1] + [s[|s| - 1]];
    }
  }

  /** The approaches dated at instant `t`. */
  function AtInstant(timestamp: string -> int, t: int): CloseApproachData -> bool
  {
    a => Instant(a, timestamp) == t
  }

  /** The approaches of `s` that share the date of `a`, in their order in `s`. */
  function Ties(s: seq<CloseApproachData>, a: CloseApproachData, timestamp: string -> int): seq<CloseApproachData>
  {
    Seqs.Filter(s, AtInstant(timestamp, Instant(a, timestamp)))
  }

  /** Inserting `x` appends it to the approaches of its own date and leaves the others. */
  lemma {:induction false} InsertKeepsTies(s: seq<CloseApproachData>, x: CloseApproachData, timestamp: string -> int, t: int)
    ensures Seqs.Filter(Insert(s, x, timestamp), AtInstant(timestamp, t)) ==
              Seqs.Filter(s, AtInstant(timestamp, t)) + (if Instant(x, timestamp) == t then [x] else [])
    decreases |s|
  {
    var p := AtInstant(timestamp, t);
    if |s| == 0 || Instant(s[|s| - 1], timestamp) <= Instant(x, timestamp) {
      Seqs.FilterAppend(s, x, p);
    } else {
      var init, last := s[..|s| - 1], s[|s| - 1];
      InsertKeepsTies(init, x, timestamp, t);
      Seqs.FilterAppend(Insert(init, x, timestamp), last, p);
      Seqs.FilterAppend(init, last, p);
      assert s == init + [last];
    }
  }

  /** The sort is stable: approaches with the same date keep their feed order. */
  lemma {:induction false} SortByDateStable(s: seq<CloseApproachData>, timestamp: string -> int, t: int)
    ensures Seqs.Filter(SortByDate(s, timestamp), AtInstant(timestamp, t)) == Seqs.Filter(s, AtInstant(timestamp, t))
    decreases |s|
  {
    if |s| > 0 {
      var init, last := s[..|s| - 1], s[|s| - 1];
      SortByDateStable(init, timestamp, t);
      InsertKeepsTies(SortByDate(init, timestamp), last, timestamp, t);
      Seqs.FilterAppend(init, last, AtInstant(timestamp, t));
      assert s == init + [last];
    }
  }

  /** `Insert` places `x` at the first position after which nothing is later than it. */
  lemma {:induction false} InsertAt(s: seq<CloseApproachData>, x: CloseApproachData, j: nat, timestamp: string -> int)
    requires j <= |s|
    requires j == 0 || Instant(s[j - 1], timestamp) <= Instant(x, timestamp)
    requires forall k :: j <= k < |s| ==> Instant(s[k], timestamp) > Instant(x, timestamp)
    ensures Insert(s, x, timestamp) == s[..j] + [x] + s[j..]
    decreases |s|
  {
    if |s| > j {
      var init := s[..|s| - 1];
      InsertAt(init, x, j, timestamp);
      assert init[..j] == s[..j];
      assert init[j..] + [s[|s| - 1]] == s[j..];
    } else {
      assert s[..j] == s && s[j..] == [];
    }
  }

  /**
   * Moves `a[i]` left past every later approach of the sorted prefix
   * `a[..i]`, shifting those one place right.
   */
  method InsertInPlace(a: array<CloseApproachData>, i: nat, timestamp: string -> int)
    requires i < a.Length
    modifies a
    ensures a[..i + 1] == Insert(old(a[..i]), old(a[i]), timestamp)
    ensures a[i + 1..] == old(a[i + 1..])
  {
    ghost var prefix := a[..i];
    ghost var suffix := a[i + 1..];
    var x := a[i];
    var j := i;
    while j > 0 && Instant(a[j - 1], timestamp) > Instant(x, timestamp)
      invariant 0 <= j <= i
      invariant a[..j] == prefix[..j]
      invariant a[j + 1..i + 1] == prefix[j..]
      invariant forall k :: j <= k < i ==> Instant(prefix[k], timestamp) > Instant(x, timestamp)
      invariant a[i + 1..] == suffix
      decreases j
    {
      a[j] := a[j - 1];
      j := j - 1;
    }
    a[j] := x;
    InsertAt(prefix, x, j, timestamp);
    assert a[..i + 1] == prefix[..j] + [x] + prefix[j..];
  }

  /** The in-place insertion sort of the approaches, stable like `Array.prototype.sort`. */
  method SortApproaches(a: array<CloseApproachData>, timestamp: string -> int)
    modifies a
    ensures a[..] == SortByDate(old(a[..]), timestamp)
  {
    ghost var input := a[..];
    for i := 0 to a.Length
      invariant a[..i] == SortByDate(input[..i], timestamp)
      invariant a[i..] == input[i..]
    {
      assert a[i] == input[i];
      InsertInPlace(a, i, timestamp);
      assert input[..i + 1][..i] == input[..i];
    }
    assert input[..a.Length] == input;
  }

  // ----- previous and next approach -----

  /** `dayjs(approach.close_approach_date).isBefore(today)`. */
  function IsBefore(timestamp: string -> int, today: int): CloseApproachData -> bool
  {
    a => Instant(a, timestamp) < today
  }

  /** `dayjs(approach.close_approach_date).isAfter(today)`. */
  function IsAfter(timestamp: string -> int, today: int): CloseApproachData -> bool
  {
    a => Instant(a, timestamp) > today
  }

  /** `sorted.filter(isBefore).pop()`: the last approach before today, if any. */
  function PreviousApproach(sorted: seq<CloseApproachData>, timestamp: string -> int, today: int): Option<CloseApproachData>
  {
    var before := Seqs.Filter(sorted, IsBefore(timestamp, today));
    if |before| == 0 then None else Some(before[|before| - 1])
  }

  /** `sorted.find(isAfter)`: the first approach after today, if any. */
  function NextApproach(sorted: seq<CloseApproachData>, timestamp: string -> int, today: int): Option<CloseApproachData>
  {
    Seqs.Find(sorted, IsAfter(timestamp, today))
  }

  /** How many approaches of a sorted sequence lie before today: they come first. */
  function CountBefore(s: seq<CloseApproachData>, timestamp: string -> int, today: int): (c: nat)
    requires SortedByDate(s, timestamp)
    ensures c <= |s|
    ensures forall i :: 0 <= i < c ==> Instant(s[i], timestamp) < today
    ensures forall i :: c <= i < |s| ==> Instant(s[i], timestamp) >= today
    decreases |s|
  {
    if |s| == 0 || Instant(s[0], timestamp) >= today then 0
    else 1 + CountBefore(s[1..], timestamp, today)
  }

  /** In a sorted sequence the approaches before today are a prefix. */
  lemma {:induction false} BeforeIsPrefix(s: seq<CloseApproachData>, timestamp: string -> int, today: int)
    requires SortedByDate(s, timestamp)
    ensures Seqs.Filter(s, IsBefore(timestamp, today)) == s[..CountBefore(s, timestamp, today)]
    decreases |s|
  {
    var p := IsBefore(timestamp, today);
    if |s| > 0 {
      if p(s[0]) {
        BeforeIsPrefix(s[1..], timestamp, today);
        assert s[..CountBefore(s, timestamp, today)] == [s[0]] + s[1..][..CountBefore(s[1..], timestamp, today)];
      } else {
        Seqs.FilterNone(s[1..], p);
      }
    }
  }

  /**
   * The previous approach is an approach before today that no approach
   * before today follows; there is none exactly when no approach is before today.
   */
  lemma PreviousIsLatestBefore(s: seq<CloseApproachData>, timestamp: string -> int, today: int)
    requires SortedByDate(s, timestamp)
    ensures PreviousApproach(s, timestamp, today).None? <==>
              forall i :: 0 <= i < |s| ==> Instant(s[i], timestamp) >= today
    ensures PreviousApproach(s, timestamp, today).Some? ==>
              var p := PreviousApproach(s, timestamp, today).value;
              p in s && Instant(p, timestamp) < today &&
              forall i :: 0 <= i < |s| && Instant(s[i], timestamp) < today ==> Instant(s[i], timestamp) <= Instant(p, timestamp)
    ensures CountBefore(s, timestamp, today) > 0 ==>
              PreviousApproach(s, timestamp, today) == Some(s[CountBefore(s, timestamp, today) - 1])
  {
    BeforeIsPrefix(s, timestamp, today);
  }

  /**
   * The next approach is the earliest approach after today; there is none
   * exactly when no approach is after today.
   */
  lemma NextIsEarliestAfter(s: seq<CloseApproachData>, timestamp: string -> int, today: int)
    requires SortedByDate(s, timestamp)
    ensures NextApproach(s, timestamp, today).None? <==>
              forall i :: 0 <= i < |s| ==> Instant(s[i], timestamp) <= today
    ensures NextApproach(s, timestamp, today).Some? ==>
              var n := NextApproach(s, timestamp, today).value;
              n in s && Instant(n, timestamp) > today &&
              forall i :: 0 <= i < |s| && Instant(s[i], timestamp) > today ==> Instant(n, timestamp) <= Instant(s[i], timestamp)
    ensures NextApproach(s, timestamp, today).Some? ==>
              exists k :: 0 <= k < |s| && NextApproach(s, timestamp, today) == Some(s[k]) &&
                forall j :: 0 <= j < k ==> Instant(s[j], timestamp) <= today
  {
    Seqs.FindFirst(s, IsAfter(timestamp, today));
    if NextApproach(s, timestamp, today).Some? {
      var k :| 0 <= k < |s| && s[k] == NextApproach(s, timestamp, today).value &&
               forall j :: 0 <= j < k ==> !IsAfter(timestamp, today)(s[j]);
    }
  }

  /** An approach dated exactly today is neither the previous nor the next one. */
  lemma ApproachTodayIsNeither(s: seq<CloseApproachData>, timestamp: string -> int, today: int, a: CloseApproachData)
    requires Instant(a, timestamp) == today
    ensures PreviousApproach(s, timestamp, today) != Some(a)
    ensures NextApproach(s, timestamp, today) != Some(a)
  {
  }

  // ----- the record -----

  /** `approach ? approach.close_approach_date_full : 'N/A'`. */
  function DateOrNA(approach: Option<CloseApproachData>): string
  {
    match approach
    case Some(a) => a.closeApproachDateFull
    case None => "N/A"
  }

  /** The record built from the response once its approaches are `sorted`. */
  function MapDetails(neo: NeoObjectDetailsResponse, sorted: seq<CloseApproachData>,
                      timestamp: string -> int, today: int): NeoObjectDetails
  {
    var first: Option<CloseApproachData> := if |sorted| == 0 then None else Some(sorted[0]);
    NeoObjectDetails(
      neo.id,
      neo.name,
      neo.isPotentiallyHazardousAsteroid,
      neo.absoluteMagnitudeH,
      neo.isSentryObject,
      DateOrNA(PreviousApproach(sorted, timestamp, today)),
      DateOrNA(NextApproach(sorted, timestamp, today)),
      neo.orbitalData.firstObservationDate,
      neo.orbitalData.orbitalPeriod,
      if first.None? || first.value.orbitingBody == "" then "Unknown" else first.value.orbitingBody,
      neo.estimatedDiameter,
      if first.None? then None else Some(first.value.relativeVelocity),
      if first.None? then None else Some(first.value.missDistance),
      neo.orbitalData.orbitClass.orbitClassType,
      neo.orbitalData.orbitClass.orbitClassDescription,
      neo.orbitalData.orbitClass.orbitClassRange)
  }

  /**
   * `mapNeoObjectDetails`: sorts the response's approaches in place, then
   * builds the record from the sorted array.
   */
  method MapNeoObjectDetails(neo: NeoObjectDetailsResponse, timestamp: string -> int, today: int)
    returns (details: NeoObjectDetails)
    modifies neo.closeApproachData
    ensures neo.closeApproachData[..] == SortByDate(old(neo.closeApproachData[..]), timestamp)
    ensures details == DetailsOf(neo, old(neo.closeApproachData[..]), timestamp, today)
  {
    SortApproaches(neo.closeApproachData, timestamp);
    details := MapDetails(neo, neo.closeApproachData[..], timestamp, today);
  }

  /** The details of a response whose approaches, in feed order, are `approaches`. */
  function DetailsOf(neo: NeoObjectDetailsResponse, approaches: seq<CloseApproachData>,
                     timestamp: string -> int, today: int): NeoObjectDetails
  {
    MapDetails(neo, SortByDate(approaches, timestamp), timestamp, today)
  }

  /** The sorted approaches are the feed's approaches, in date order. */
  lemma SortKeepsMembers(approaches: seq<CloseApproachData>, timestamp: string -> int)
    ensures SortedByDate(SortByDate(approaches, timestamp), timestamp)
    ensures |SortByDate(approaches, timestamp)| == |approaches|
    ensures forall a :: a in approaches <==> a in SortByDate(approaches, timestamp)
  {
    var sorted := SortByDate(approaches, timestamp);
    SortByDateSorted(approaches, timestamp);
    assert |multiset(sorted)| == |multiset(approaches)|;
    forall a ensures a in approaches <==> a in sorted {
      assert a in multiset(approaches) <==> a in multiset(sorted);
    }
  }

  /** Of the approaches sharing its date, the first sorted one is the first in feed order. */
  lemma EarliestIsFirstOfItsDate(approaches: seq<CloseApproachData>, timestamp: string -> int)
    requires |approaches| > 0
    ensures |SortByDate(approaches, timestamp)| > 0
    ensures var e := SortByDate(approaches, timestamp)[0];
            var ties := Ties(approaches, e, timestamp);
            |ties| > 0 && ties[0] == e
  {
    var sorted := SortByDate(approaches, timestamp);
    SortKeepsMembers(approaches, timestamp);
    Seqs.FilterFirstIs(sorted, AtInstant(timestamp, Instant(sorted[0], timestamp)), 0);
    SortByDateStable(approaches, timestamp, Instant(sorted[0], timestamp));
  }

  /** Of the approaches sharing its date, the previous one is the last in feed order. */
  lemma PreviousIsLastOfItsDate(approaches: seq<CloseApproachData>, timestamp: string -> int, today: int)
    requires PreviousApproach(SortByDate(approaches, timestamp), timestamp, today).Some?
    ensures var p := PreviousApproach(SortByDate(approaches, timestamp), timestamp, today).value;
            var ties := Ties(approaches, p, timestamp);
            |ties| > 0 && ties[|ties| - 1] == p
  {
    var sorted := SortByDate(approaches, timestamp);
    SortByDateSorted(approaches, timestamp);
    PreviousIsLatestBefore(sorted, timestamp, today);
    var c := CountBefore(sorted, timestamp, today);
    var p := sorted[c - 1];
    Seqs.FilterLastIs(sorted, AtInstant(timestamp, Instant(p, timestamp)), c - 1);
    SortByDateStable(approaches, timestamp, Instant(p, timestamp));
  }

  /** Of the approaches sharing its date, the next one is the first in feed order. */
  lemma NextIsFirstOfItsDate(approaches: seq<CloseApproachData>, timestamp: string -> int, today: int)
    requires NextApproach(SortByDate(approaches, timestamp), timestamp, today).Some?
    ensures var n := NextApproach(SortByDate(approaches, timestamp), timestamp, today).value;
            var ties := Ties(approaches, n, timestamp);
            |ties| > 0 && ties[0] == n
  {
    var sorted := SortByDate(approaches, timestamp);
    SortByDateSorted(approaches, timestamp);
    NextIsEarliestAfter(sorted, timestamp, today);
    var k :| 0 <= k < |sorted| && NextApproach(sorted, timestamp, today) == Some(sorted[k]) &&
             forall j :: 0 <= j < k ==> Instant(sorted[j], timestamp) <= today;
    Seqs.FilterFirstIs(sorted, AtInstant(timestamp, Instant(sorted[k], timestamp)), k);
    SortByDateStable(approaches, timestamp, Instant(sorted[k], timestamp));
  }

  /**
   * The previous approach date is the full date of a latest approach before
   * today, the last in feed order of those sharing its date, and `'N/A'`
   * when no approach is before today.
   */
  lemma PreviousApproachDate(neo: NeoObjectDetailsResponse, approaches: seq<CloseApproachData>,
                             timestamp: string -> int, today: int)
    ensures (forall a | a in approaches :: Instant(a, timestamp) >= today) ==>
              DetailsOf(neo, approaches, timestamp, today).previousApproachDate == "N/A"
    ensures (exists a | a in approaches :: Instant(a, timestamp) < today) ==>
              exists p | p in approaches ::
                Instant(p, timestamp) < today &&
                (forall a | a in approaches && Instant(a, timestamp) < today :: Instant(a, timestamp) <= Instant(p, timestamp)) &&
                DetailsOf(neo, approaches, timestamp, today).previousApproachDate == p.closeApproachDateFull &&
                var ties := Ties(approaches, p, timestamp);
                |ties| > 0 && ties[|ties| - 1] == p
  {
    var sorted := SortByDate(approaches, timestamp);
    SortByDateSorted(approaches, timestamp);
    PreviousIsLatestBefore(sorted, timestamp, today);
    forall a ensures a in approaches <==> a in sorted {
      assert a in multiset(approaches) <==> a in multiset(sorted);
    }
    var prev := PreviousApproach(sorted, timestamp, today);
    if prev.Some? {
      var p := prev.value;
      forall a | a in approaches && Instant(a, timestamp) < today
        ensures Instant(a, timestamp) <= Instant(p, timestamp)
      {
        var i :| 0 <= i < |sorted| && sorted[i] == a;
      }
      PreviousIsLastOfItsDate(approaches, timestamp, today);
    }
  }

  /**
   * The next approach date is the full date of an earliest approach after
   * today, the first in feed order of those sharing its date, and `'N/A'`
   * when no approach is after today.
   */
  lemma NextApproachDate(neo: NeoObjectDetailsResponse, approaches: seq<CloseApproachData>,
                         timestamp: string -> int, today: int)
    ensures (forall a | a in approaches :: Instant(a, timestamp) <= today) ==>
              DetailsOf(neo, approaches, timestamp, today).nextApproachDate == "N/A"
    ensures (exists a | a in approaches :: Instant(a, timestamp) > today) ==>
              exists n | n in approaches ::
                Instant(n, timestamp) > today &&
                (forall a | a in approaches && Instant(a, timestamp) > today :: Instant(n, timestamp) <= Instant(a, timestamp)) &&
                DetailsOf(neo, approaches, timestamp, today).nextApproachDate == n.closeApproachDateFull &&
                var ties := Ties(approaches, n, timestamp);
                |ties| > 0 && ties[0] == n
  {
    var sorted := SortByDate(approaches, timestamp);
    SortKeepsMembers(approaches, timestamp);
    NextIsEarliestAfter(sorted, timestamp, today);
    var next := NextApproach(sorted, timestamp, today);
    var d := DetailsOf(neo, approaches, timestamp, today);
    assert d.nextApproachDate == DateOrNA(next);
    if next.Some? {
      var n := next.value;
      forall a | a in approaches && Instant(a, timestamp) > today
        ensures Instant(n, timestamp) <= Instant(a, timestamp)
      {
        var i :| 0 <= i < |sorted| && sorted[i] == a;
      }
      NextIsFirstOfItsDate(approaches, timestamp, today);
      assert n in approaches && Instant(n, timestamp) > today;
      assert d.nextApproachDate == n.closeApproachDateFull;
    }
  }

  /**
   * The orbiting body, velocity and miss distance come from an earliest
   * approach, the first in feed order of those sharing its date; the body
   * falls back to `'Unknown'` when its text is empty.
   */
  lemma EarliestApproachFields(neo: NeoObjectDetailsResponse, approaches: seq<CloseApproachData>,
                               timestamp: string -> int, today: int)
    requires |approaches| > 0
    ensures exists e | e in approaches ::
      (forall a | a in approaches :: Instant(e, timestamp) <= Instant(a, timestamp)) &&
      (var ties := Ties(approaches, e, timestamp); |ties| > 0 && ties[0] == e) &&
      var d := DetailsOf(neo, approaches, timestamp, today);
      d.relativeVelocity == Some(e.relativeVelocity) &&
      d.missDistance == Some(e.missDistance) &&
      d.orbitingBody == (if e.orbitingBody == "" then "Unknown" else e.orbitingBody)
  {
    var sorted := SortByDate(approaches, timestamp);
    SortKeepsMembers(approaches, timestamp);
    EarliestIsFirstOfItsDate(approaches, timestamp);
    var e := sorted[0];
    forall a | a in approaches
      ensures Instant(e, timestamp) <= Instant(a, timestamp)
    {
      var i :| 0 <= i < |sorted| && sorted[i] == a;
    }
    var d := DetailsOf(neo, approaches, timestamp, today);
    assert d == MapDetails(neo, sorted, timestamp, today);
    assert e in approaches;
  }

  /** Without approaches, both dates are `'N/A'`, the body `'Unknown'`, velocity and distance absent. */
  lemma NoApproaches(neo: NeoObjectDetailsResponse, timestamp: string -> int, today: int)
    ensures var d := DetailsOf(neo, [], timestamp, today);
      d.previousApproachDate == "N/A" && d.nextApproachDate == "N/A" && d.orbitingBody == "Unknown" &&
      d.relativeVelocity == None && d.missDistance == None
  {
  }

  /** The scalar fields, the diameters and the orbital data are copied unchanged. */
  lemma ScalarFieldsCopied(neo: NeoObjectDetailsResponse, approaches: seq<CloseApproachData>,
                           timestamp: string -> int, today: int)
    ensures var d := DetailsOf(neo, approaches, timestamp, today);
      d.id == neo.id && d.name == neo.name &&
      d.isPotentiallyHazardousAsteroid == neo.isPotentiallyHazardousAsteroid &&
      d.absoluteMagnitude == neo.absoluteMagnitudeH && d.isSentryObject == neo.isSentryObject &&
      d.estimatedDiameter == neo.estimatedDiameter &&
      d.firstObservation == neo.orbitalData.firstObservationDate &&
      d.oribitalPeriod == neo.orbitalData.orbitalPeriod &&
      d.orbitClassType == neo.orbitalData.orbitClass.orbitClassType &&
      d.orbitClassDescription == neo.orbitalData.orbitClass.orbitClassDescription &&
      d.orbitClassRange == neo.orbitalData.orbitClass.orbitClassRange
  {
  }
}
