/** `ContextAnalyzer`: turns a case record into the query text, the (always
    empty) metadata filter and the list of fields that may boost relevance. */
module ContextAnalyzer {
  import opened Wrappers
  import opened Text
  import opened Records

  /** A case dictionary. The analyzer and the engine look only at four keys,
      each of which may be absent; every other key (`case_id`, `date_filed`,
      ...) is kept in `otherFields`. */
  datatype Case = Case(
    claimType: Option<string>,
    state: Option<string>,
    propertyType: Option<string>,
    claimAmount: Option<real>,
    otherFields: map<string, string>)

  /** The dictionary `extract_context` returns. */
  datatype QueryContext = QueryContext(
    query: string,
    filters: Option<Filter>,
    boostFields: seq<string>,
    rawCase: Case)

  const SmallClaimLimit: real := 50000.0
  const MediumClaimLimit: real := 200000.0
  const FallbackQuery: string := "general insurance claim"

  /** 1 when the key is present, 0 when absent. */
  function Present<T>(o: Option<T>): nat
  {
    if o.Some? then 1 else 0
  }

  /** The size bucket of a claim amount. */
  function SizeBucket(amount: real): (r: string)
    ensures r == "small claim" <==> amount < SmallClaimLimit
    ensures r == "medium claim" <==> SmallClaimLimit <= amount < MediumClaimLimit
    ensures r == "large claim" <==> MediumClaimLimit <= amount
  {
    if amount < SmallClaimLimit then "small claim"
    else if amount < MediumClaimLimit then "medium claim"
    else "large claim"
  }

  /** The query parts of the present keys, in the fixed order claim type,
      state, property type, size bucket: one part per present key, at the
      position given by the present keys before it. */
  function QueryParts(c: Case): (r: seq<string>)
    ensures |r| == Present(c.claimType) + Present(c.state) + Present(c.propertyType) + Present(c.claimAmount)
    ensures c.claimType.Some? ==> r[0] == c.claimType.value
    ensures c.state.Some? ==> r[Present(c.claimType)] == "in " + c.state.value
    ensures c.propertyType.Some? ==>
      r[Present(c.claimType) + Present(c.state)] == "for " + c.propertyType.value + " property"
    ensures c.claimAmount.Some? ==> r[|r| - 1] == SizeBucket(c.claimAmount.value)
  {
    (if c.claimType.Some? then [c.claimType.value] else [])
    + (if c.state.Some? then ["in " + c.state.value] else [])
    + (if c.propertyType.Some? then ["for " + c.propertyType.value + " property"] else [])
    + (if c.claimAmount.Some? then [SizeBucket(c.claimAmount.value)] else [])
  }

  /** The query `_build_query` produces. */
  function Query(c: Case): string
  {
    var parts := QueryParts(c);
    if |parts| > 0 then Join(parts, " ") else FallbackQuery
  }

  /** `_build_query`: append the part of each present key, then join them
      with single spaces, or fall back to the generic query. */
  method BuildQuery(c: Case) returns (query: string)
    ensures query == Query(c)
  {
    var queryParts: seq<string> := [];
    if c.claimType.Some? {
      queryParts := queryParts + [c.claimType.value];
    }
    ghost var upToType := queryParts;
    assert upToType == (if c.claimType.Some? then [c.claimType.value] else []);
    if c.state.Some? {
      queryParts := queryParts + ["in " + c.state.value];
    }
    ghost var upToState := queryParts;
    assert upToState == upToType + (if c.state.Some? then ["in " + c.state.value] else []);
    if c.propertyType.Some? {
      queryParts := queryParts + ["for " + c.propertyType.value + " property"];
    }
    ghost var upToProperty := queryParts;
    assert upToProperty == upToState + (if c.propertyType.Some? then ["for " + c.propertyType.value + " property"] else []);
    if c.claimAmount.Some? {
      var amount := c.claimAmount.value;
      if amount < SmallClaimLimit {
        queryParts := queryParts + ["small claim"];
      } else if amount < MediumClaimLimit {
        queryParts := queryParts + ["medium claim"];
      } else {
        queryParts := queryParts + ["large claim"];
      }
    }
    assert queryParts == upToProperty + (if c.claimAmount.Some? then [SizeBucket(c.claimAmount.value)] else []);
    assert queryParts == QueryParts(c);
    query := if |queryParts| > 0 then Join(queryParts, " ") else FallbackQuery;
  }

  /** Every part of a join occurs in the joined string. */
  lemma {:induction false} JoinContainsPart(parts: seq<string>, sep: string, i: nat)
    requires i < |parts|
    ensures Contains(Join(parts, sep), parts[i])
  {
    var j := Join(parts, sep);
    if |parts| == 1 {
      ContainsAt(j, parts[0], 0);
    } else if i == 0 {
      assert j[..|parts[0]|] == parts[0];
      ContainsAt(j, parts[0], 0);
    } else {
      var rest := Join(parts[1..], sep);
      var k := |parts[0]| + |sep|;
      JoinContainsPart(parts[1..], sep, i - 1);
      assert j == parts[0] + sep + rest && j[k..] == rest;
      ContainsSuffix(j, k, parts[i]);
    }
  }

  /** What occurs in a suffix occurs in the whole string. */
  lemma {:induction false} ContainsSuffix(s: string, k: nat, needle: string)
    requires k <= |s| && Contains(s[k..], needle)
    ensures Contains(s, needle)
  {
    if k > 0 {
      assert s[1..][k - 1..] == s[k..];
      ContainsSuffix(s[1..], k - 1, needle);
    }
  }

  /** The query mentions every present field in its phrase: the claim type,
      "in {state}", "for {property_type} property" and the size bucket. */
  lemma QueryMentionsPresentFields(c: Case)
    ensures c.claimType.Some? ==> Contains(Query(c), c.claimType.value)
    ensures c.state.Some? ==> Contains(Query(c), "in " + c.state.value)
    ensures c.propertyType.Some? ==> Contains(Query(c), "for " + c.propertyType.value + " property")
    ensures c.claimAmount.Some? ==> Contains(Query(c), SizeBucket(c.claimAmount.value))
  {
    var parts := QueryParts(c);
    if c.claimType.Some? { JoinContainsPart(parts, " ", 0); }
    if c.state.Some? { JoinContainsPart(parts, " ", Present(c.claimType)); }
    if c.propertyType.Some? { JoinContainsPart(parts, " ", Present(c.claimType) + Present(c.state)); }
    if c.claimAmount.Some? { JoinContainsPart(parts, " ", |parts| - 1); }
  }

  /** With none of the four keys the query is the generic fallback. */
  lemma QueryWithoutFields(c: Case)
    requires c.claimType.None? && c.state.None? && c.propertyType.None? && c.claimAmount.None?
    ensures Query(c) == FallbackQuery
  {
  }

  /** Keys other than the four never change the query. */
  lemma QueryIgnoresOtherFields(c: Case, other: map<string, string>)
    ensures Query(c.(otherFields := other)) == Query(c)
  {
  }

  /** The query is empty exactly when the only key present is an empty claim
      type: the fallback tests the list of parts, not the joined text. */
  lemma QueryEmptyIff(c: Case)
    ensures Query(c) == "" <==>
      c.claimType == Some("") && c.state.None? && c.propertyType.None? && c.claimAmount.None?
  {
    var parts := QueryParts(c);
    if |parts| >= 2 {
      assert Join(parts, " ") == parts[0] + " " + Join(parts[1..], " ");
    } else if |parts| == 1 && c.claimType.None? {
      assert parts[0] != "";
    }
  }

  /** The analyser's own sample claim: the parts in fixed order, with 50000
      in the medium bucket (the small bucket is strictly below it), and the
      `case_id` left out of the query. */
  lemma QueryExample()
    ensures Query(Case(Some("Flood"), Some("Florida"), Some("Residential"), Some(50000.0), map["case_id" := "CLM-123"]))
         == "Flood in Florida for Residential property medium claim"
  {
    assert SizeBucket(50000.0) == "medium claim";
    assert "in " + "Florida" == "in Florida";
    assert "for " + "Residential" + " property" == "for Residential property";
    ExampleJoin();
  }

  /** The four parts of the sample claim joined with spaces. */
  lemma ExampleJoin()
    ensures Join(["Flood", "in Florida", "for Residential property", "medium claim"], " ")
         == "Flood in Florida for Residential property medium claim"
  {
    JoinFour("Flood", "in Florida", "for Residential property", "medium claim", " ");
    ExampleHead();
    ExampleTail();
  }

  /** The first three parts of the sample claim, spaced. */
  lemma ExampleHead()
    ensures "Flood" + " " + "in Florida" + " " + "for Residential property"
         == "Flood in Florida for Residential property"
  {
    assert "Flood" + " " + "in Florida" == "Flood in Florida";
  }

  /** The size bucket appended to the first three parts. */
  lemma ExampleTail()
    ensures "Flood in Florida for Residential property" + " " + "medium claim"
         == "Flood in Florida for Residential property medium claim"
  {
  }

  /** Joining four parts puts the separator between neighbours. */
  lemma JoinFour(a: string, b: string, c: string, d: string, sep: string)
    ensures Join([a, b, c, d], sep) == a + sep + b + sep + c + sep + d
  {
    var parts := [a, b, c, d];
    assert parts[1..] == [b, c, d] && [b, c, d][1..] == [c, d] && [c, d][1..] == [d];
    assert Join([c, d], sep) == c + sep + d;
    assert Join([b, c, d], sep) == b + sep + (c + sep + d);
  }

  /** `_build_filters` starts from an empty dictionary and returns None
      when it is empty, which it always is. */
  function BuildFilters(c: Case): (r: Option<Filter>)
    ensures r == None
  {
    var filters: Filter := map[];
    if |filters| > 0 then Some(filters) else None
  }

  /** The boost fields of a case: "claim_type" if that key is present, then
      "state" if that key is present, and nothing else. */
  function BoostFields(c: Case): (r: seq<string>)
    ensures |r| == Present(c.claimType) + Present(c.state)
    ensures "claim_type" in r <==> c.claimType.Some?
    ensures "state" in r <==> c.state.Some?
    ensures c.claimType.Some? ==> r[0] == "claim_type"
    ensures c.state.Some? ==> r[|r| - 1] == "state"
  {
    (if c.claimType.Some? then ["claim_type"] else []) + (if c.state.Some? then ["state"] else [])
  }

  /** `_identify_boost_fields`, appending to a local list. */
  method IdentifyBoostFields(c: Case) returns (boostFields: seq<string>)
    ensures boostFields == BoostFields(c)
  {
    boostFields := [];
    if c.claimType.Some? {
      boostFields := boostFields + ["claim_type"];
    }
    if c.state.Some? {
      boostFields := boostFields + ["state"];
    }
  }

  /** `extract_context`: the query, no filter, the boost fields and the case
      itself, unchanged, as `raw_case`. */
  function ExtractContext(c: Case): (r: QueryContext)
    ensures r.rawCase == c
    ensures r.filters.None?
    ensures r.query == Query(c) && r.boostFields == BoostFields(c)
  {
    QueryContext(Query(c), BuildFilters(c), BoostFields(c), c)
  }
}
