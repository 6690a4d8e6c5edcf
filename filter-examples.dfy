/**
 * Worked examples of the filter engine and the finders on two list entries
 * as `mapNeoObjects` shapes them, Eros (magnitude 18, not hazardous) and
 * Apollo (magnitude 20, hazardous), filtered under their camel-case fields.
 */
module FilterExamples {
  import opened JsValues
  import opened JsStrings
  import opened Filters
  import opened FilterExtrema
  import NeoTypes
  import NeoMapping

  function Eros(): Obj
  {
    NeoMapping.AsObject(NeoTypes.NearEarthObject("2000433", "Eros", false, 18.0, 16000.0, 36000.0))
  }

  function Apollo(): Obj
  {
    NeoMapping.AsObject(NeoTypes.NearEarthObject("2001862", "Apollo", true, 20.0, 1200.0, 2700.0))
  }

  /** Filtering by the exact list `[Eros, Apollo]` keeps the objects that `keep` says. */
  lemma MatchingOfPair(filters: Settings, keepEros: bool, keepApollo: bool)
    requires MatchesAll(Eros(), filters) == keepEros && MatchesAll(Apollo(), filters) == keepApollo
    ensures Matching([Eros(), Apollo()], filters) ==
              (if keepEros then [Eros()] else []) + (if keepApollo then [Apollo()] else [])
  {
    assert [Eros(), Apollo()][1..] == [Apollo()];
    assert [Apollo()][1..] == [];
  }

  /** A text whose first character does not occur in `s` is not part of `s`. */
  lemma {:induction false} FirstCharAbsent(s: string, t: string)
    requires |t| > 0 && forall i :: 0 <= i < |s| ==> s[i] != t[0]
    ensures !Includes(s, t)
    decreases |s|
  {
    if |s| > 0 {
      FirstCharAbsent(s[1..], t);
      if |t| <= |s| {
        assert s[..|t|][0] == s[0];
      }
    }
  }

  /** Eros's name, lower-cased, starts with `"ero"`. */
  lemma ErosMatchesName()
    ensures IsFilterMatch(Eros(), "name", Filter(Str("ero")))
  {
    assert Eros()["name"] == Str("Eros");
    assert LowerCase("Eros") == "eros";
    assert StartsWith("eros", "ero");
  }

  /** Apollo's name, lower-cased, has no `e`, so it does not contain `"ero"`. */
  lemma ApolloMissesName()
    ensures !IsFilterMatch(Apollo(), "name", Filter(Str("ero")))
  {
    assert Apollo()["name"] == Str("Apollo");
    assert LowerCase("Apollo") == "apollo";
    FirstCharAbsent("apollo", "ero");
  }

  /** A name filter `"ero"` keeps only Eros: the substring test ignores case. */
  lemma NameFilterExample()
    ensures Matching([Eros(), Apollo()], map["name" := Filter(Str("ero"))]) == [Eros()]
  {
    var filters := map["name" := Filter(Str("ero"))];
    ErosMatchesName();
    ApolloMissesName();
    assert MatchesAll(Eros(), filters);
    assert "name" in filters && filters["name"] == Filter(Str("ero"));
    assert !MatchesAll(Apollo(), filters);
    MatchingOfPair(filters, true, false);
  }

  /** A range `[19, 21]` keeps only Apollo, whose magnitude 20 lies inside. */
  lemma RangeFilterExample()
    ensures Matching([Eros(), Apollo()], map["absoluteMagnitudeH" := Filter(Pair(19.0, 21.0))]) == [Apollo()]
  {
    var filters := map["absoluteMagnitudeH" := Filter(Pair(19.0, 21.0))];
    assert !MatchesAll(Eros(), filters) by {
      assert !IsFilterMatch(Eros(), "absoluteMagnitudeH", filters["absoluteMagnitudeH"]);
    }
    MatchingOfPair(filters, false, true);
  }

  /** A hazard filter `true` keeps only Apollo. */
  lemma BooleanFilterExample()
    ensures Matching([Eros(), Apollo()], map["isPotentiallyHazardousAsteroid" := Filter(Bool(true))]) == [Apollo()]
  {
    var filters := map["isPotentiallyHazardousAsteroid" := Filter(Bool(true))];
    assert !MatchesAll(Eros(), filters) by {
      assert !IsFilterMatch(Eros(), "isPotentiallyHazardousAsteroid", filters["isPotentiallyHazardousAsteroid"]);
    }
    MatchingOfPair(filters, false, true);
  }

  /** The smallest magnitude is Eros's 18 and the largest Apollo's 20. */
  lemma ExtremaExample()
    ensures FindMinValueByKey([Eros(), Apollo()], "absoluteMagnitudeH") == Num(18.0)
    ensures FindMaxValueByKey([Eros(), Apollo()], "absoluteMagnitudeH") == Num(20.0)
  {
    var objects := [Eros(), Apollo()];
    assert objects[..1] == [Eros()];
    assert FieldOf("absoluteMagnitudeH")(Eros()) == Num(18.0) && FieldOf("absoluteMagnitudeH")(Apollo()) == Num(20.0);
  }
}
