/** `RetrievalEngine`: turns the store's nearest chunks for a case into
    ranked, labelled and cited results. Scores are exact reals; rounding to
    three decimals, the embedder and the store's search are parameters. */
module Search {
  import opened Wrappers
  import opened Text
  import opened Records
  import CA = ContextAnalyzer
  import DB = ChromaClient

  const SimilarityWeight: real := 0.7
  /** What each metadata match adds to the relevance. */
  const MatchBoost: real := 0.15
  const MaxRelevance: real := 1.0
  const HighThreshold: real := 0.8
  const MediumThreshold: real := 0.6
  const ExcerptLength: int := 300
  const PreviewLength: int := 150

  // ---------------------------------------------------------------------------
  // Confidence

  /** The confidence label of a result. */
  datatype Confidence = High | Medium | Low {
    /** The label as the engine reports it. */
    function Label(): string
    {
      match this
      case High => "High"
      case Medium => "Medium"
      case Low => "Low"
    }

    /** Position in the order Low < Medium < High. */
    function Level(): nat
    {
      match this
      case High => 2
      case Medium => 1
      case Low => 0
    }
  }

  /** `_calculate_confidence`: every relevance gets exactly one label, by
      the thresholds 0.8 and 0.6. */
  function ConfidenceOf(relevance: real): (r: Confidence)
    ensures r == High <==> relevance >= HighThreshold
    ensures r == Medium <==> MediumThreshold <= relevance < HighThreshold
    ensures r == Low <==> relevance < MediumThreshold
  {
    if relevance >= HighThreshold then High
    else if relevance >= MediumThreshold then Medium
    else Low
  }

  /** A higher relevance never gets a lower label. */
  lemma ConfidenceMonotone(a: real, b: real)
    requires a <= b
    ensures ConfidenceOf(a).Level() <= ConfidenceOf(b).Level()
  {
  }

  // ---------------------------------------------------------------------------
  // Relevance

  /** The state boost: the case has a `state` key and the result's file name
      contains the literal word "state" (not the case's state), compared
      case-sensitively. */
  predicate StateBoost(c: CA.Case, md: Metadata)
  {
    c.state.Some? && Contains(md.sourceFile.GetOr(""), "state")
  }

  /** The claim-type boost: the case has a `claim_type` key and, lower-cased,
      it occurs in the lower-cased file name. */
  predicate ClaimTypeBoost(c: CA.Case, md: Metadata)
  {
    c.claimType.Some? && Contains(Lower(md.sourceFile.GetOr("")), Lower(c.claimType.value))
  }

  /** How many of the two boosts a result earns. */
  function BoostCount(c: CA.Case, md: Metadata): (r: nat)
    ensures r <= 2
  {
    (if StateBoost(c, md) then 1 else 0) + (if ClaimTypeBoost(c, md) then 1 else 0)
  }

  /** The relevance of a result: 0.7 times the similarity plus 0.15 per
      boost, capped at 1.0. */
  function Relevance(similarity: real, md: Metadata, c: CA.Case): (r: real)
    ensures var raw := SimilarityWeight * similarity + MatchBoost * BoostCount(c, md) as real;
      r <= MaxRelevance && r <= raw && (r == raw || r == MaxRelevance)
  {
    var raw := SimilarityWeight * similarity + MatchBoost * BoostCount(c, md) as real;
    if MaxRelevance < raw then MaxRelevance else raw
  }

  /** `_calculate_relevance`: start from the weighted similarity, add each
      boost, then cap. */
  method CalculateRelevance(similarity: real, md: Metadata, c: CA.Case) returns (relevance: real)
    ensures relevance == Relevance(similarity, md, c)
  {
    var score := similarity * SimilarityWeight;
    if c.state.Some? && Contains(md.sourceFile.GetOr(""), "state") {
      score := score + MatchBoost;
    }
    if c.claimType.Some? {
      var claimType := Lower(c.claimType.value);
      var sourceFile := Lower(md.sourceFile.GetOr(""));
      if Contains(sourceFile, claimType) {
        score := score + MatchBoost;
      }
    }
    relevance := if MaxRelevance < score then MaxRelevance else score;
  }

  /** For a cosine distance `d`, the relevance of similarity `1 - d` never
      exceeds 1, and is not negative when `d <= 1`. */
  lemma RelevanceBounds(distance: real, md: Metadata, c: CA.Case)
    ensures Relevance(1.0 - distance, md, c) <= 1.0
    ensures distance <= 1.0 ==> Relevance(1.0 - distance, md, c) >= 0.0
  {
  }

  /** Nothing clamps from below: a cosine distance of 2 with no boost gives
      relevance -0.7. */
  lemma RelevanceCanBeNegative(md: Metadata, c: CA.Case)
    requires c.state.None? && c.claimType.None?
    ensures Relevance(1.0 - 2.0, md, c) == -0.7
  {
  }

  /** At equal similarity, a result that earns every boost another earns
      never scores lower, and one extra boost adds exactly 0.15 below the cap. */
  lemma BoostMonotone(similarity: real, c: CA.Case, md1: Metadata, md2: Metadata)
    requires StateBoost(c, md2) ==> StateBoost(c, md1)
    requires ClaimTypeBoost(c, md2) ==> ClaimTypeBoost(c, md1)
    ensures Relevance(similarity, md1, c) >= Relevance(similarity, md2, c)
    ensures BoostCount(c, md1) == BoostCount(c, md2) + 1 &&
            SimilarityWeight * similarity + MatchBoost * BoostCount(c, md1) as real <= MaxRelevance ==>
            Relevance(similarity, md1, c) == Relevance(similarity, md2, c) + MatchBoost
  {
  }

  /** "Florida_Flood_Guidelines.pdf" does not contain "state": it has no 't'. */
  lemma NoStateInFloridaFile()
    ensures !Contains("Florida_Flood_Guidelines.pdf", "state")
  {
    MissingCharNotContained("Florida_Flood_Guidelines.pdf", "state", 't');
  }

  /** A string lacking one of the needle's characters does not contain it. */
  lemma MissingCharNotContained(hay: string, needle: string, c: char)
    requires c in needle && c !in hay
    ensures !Contains(hay, needle)
  {
    if Contains(hay, needle) {
      ContainsChars(hay, needle, c);
    }
  }

  /** Lower-cased, "Florida_Flood_Guidelines.pdf" contains "flood". */
  lemma FloodInFloridaFile()
    ensures Contains(Lower("Florida_Flood_Guidelines.pdf"), Lower("Flood"))
  {
    var file := "Florida_Flood_Guidelines.pdf";
    var lowered := Lower(file);
    assert Lower("Flood") == "flood";
    assert file[8] == 'F' && file[9] == 'l' && file[10] == 'o' && file[11] == 'o' && file[12] == 'd';
    assert lowered[8] == 'f' && lowered[9] == 'l' && lowered[10] == 'o' && lowered[11] == 'o' && lowered[12] == 'd';
    assert lowered[8..13] == "flood";
    ContainsAt(lowered, "flood", 8);
  }

  /** For a Flood case in Florida and "Florida_Flood_Guidelines.pdf", the
      claim-type boost fires but the state boost does not: the file name does
      not contain the word "state". */
  lemma FloridaFloodBoosts()
    ensures var c := CA.Case(Some("Flood"), Some("Florida"), None, Some(50000.0), map[]);
      var md := Metadata(Some("Florida_Flood_Guidelines.pdf"), Some(1), Some(0));
      !StateBoost(c, md) && ClaimTypeBoost(c, md)
  {
    NoStateInFloridaFile();
    FloodInFloridaFile();
  }

  /** The same case at distance 0.2 scores 0.56 + 0.15 = 0.71, labelled
      Medium. */
  lemma FloridaFloodExample()
    ensures var c := CA.Case(Some("Flood"), Some("Florida"), None, Some(50000.0), map[]);
      var md := Metadata(Some("Florida_Flood_Guidelines.pdf"), Some(1), Some(0));
      Relevance(1.0 - 0.2, md, c) == 0.71 && ConfidenceOf(Relevance(1.0 - 0.2, md, c)) == Medium
  {
    var c := CA.Case(Some("Flood"), Some("Florida"), None, Some(50000.0), map[]);
    var md := Metadata(Some("Florida_Flood_Guidelines.pdf"), Some(1), Some(0));
    FloridaFloodBoosts();
    OneBoostRelevance(1.0 - 0.2, md, c);
  }

  /** With exactly the claim-type boost, the relevance is the weighted
      similarity plus 0.15, capped. */
  lemma OneBoostRelevance(similarity: real, md: Metadata, c: CA.Case)
    requires !StateBoost(c, md) && ClaimTypeBoost(c, md)
    ensures BoostCount(c, md) == 1
    ensures var raw := SimilarityWeight * similarity + MatchBoost;
      Relevance(similarity, md, c) == if MaxRelevance < raw then MaxRelevance else raw
  {
  }

  // ---------------------------------------------------------------------------
  // Excerpts and citations

  /** `_truncate_text`: the text itself when it fits; otherwise its first
      `maxLength` characters cut back to before their last space (kept whole
      when they have none), followed by "...". */
  function TruncateAtWord(text: string, maxLength: int): (r: string)
    ensures |text| <= maxLength ==> r == text
    ensures |text| > maxLength ==>
      |r| >= 3 && r[|r| - 3..] == "..." && r[..|r| - 3] <= text &&
      var p, k := PyPrefix(text, maxLength), |r| - 3;
      (k == |p| && ' ' !in p) || (k < |p| && p[k] == ' ' && ' ' !in p[k + 1..])
    ensures 0 <= maxLength < |text| ==> |r| <= maxLength + 3
  {
    if |text| <= maxLength then text
    else
      var p := PyPrefix(text, maxLength);
      var i := LastIndexOf(p, ' ');
      var kept := if i >= 0 then p[..i] else p;
      assert i >= 0 ==> forall j :: i + 1 <= j < |p| ==> p[i + 1..][j - i - 1] == p[j];
      kept + "..."
  }

  /** A citation: file, page, "Page N" and a short preview. */
  datatype Citation = Citation(source: string, page: int, location: string, preview: string)

  /** `_generate_citation` */
  function GenerateCitation(md: Metadata, text: string): (r: Citation)
    ensures r.source == md.sourceFile.GetOr("Unknown") && r.page == md.pageNum.GetOr(0)
    ensures r.location == "Page " + IntToString(r.page)
    ensures r.preview == TruncateAtWord(text, PreviewLength) && |r.preview| <= PreviewLength + 3
  {
    Citation(md.sourceFile.GetOr("Unknown"), md.pageNum.GetOr(0),
             "Page " + IntToString(md.pageNum.GetOr(0)), TruncateAtWord(text, PreviewLength))
  }

  /** The location names the page: the number after "Page " reads back as
      the page, and equal locations mean equal pages. */
  lemma CitationLocationNamesPage(md1: Metadata, md2: Metadata, t1: string, t2: string)
    ensures var c := GenerateCitation(md1, t1);
      c.page >= 0 ==> DecimalValue(c.location[5..]) == c.page
    ensures GenerateCitation(md1, t1).location == GenerateCitation(md2, t2).location ==>
      GenerateCitation(md1, t1).page == GenerateCitation(md2, t2).page
  {
    var c1, c2 := GenerateCitation(md1, t1), GenerateCitation(md2, t2);
    assert c1.location[5..] == IntToString(c1.page);
    assert c2.location[5..] == IntToString(c2.page);
    if c1.page >= 0 {
      DecimalValueOfNatToString(c1.page);
    }
    if c1.location == c2.location {
      IntToStringInjective(c1.page, c2.page);
    }
  }

  // ---------------------------------------------------------------------------
  // Formatting the store's answer

  /** One formatted result. `rank` is the position in the store's answer. */
  datatype SearchResult = SearchResult(
    rank: nat,
    chunkId: string,
    sourceFile: string,
    pageNumber: int,
    excerpt: string,
    fullText: string,
    similarityScore: real,
    relevanceScore: real,
    confidence: Confidence,
    citation: Citation)

  /** The store's answer has, for the first query, a text, a metadata and a
      distance for every id (the engine indexes all four lists by the same
      position). */
  predicate WellFormed(results: DB.QueryResult)
  {
    |results.ids| > 0 ==>
      |results.documents| > 0 && |results.metadatas| > 0 && |results.distances| > 0 &&
      |results.ids[0]| <= |results.documents[0]| &&
      |results.ids[0]| <= |results.metadatas[0]| &&
      |results.ids[0]| <= |results.distances[0]|
  }

  /** The number of answers for the first query. */
  function CandidateCount(results: DB.QueryResult): nat
  {
    if |results.ids| == 0 then 0 else |results.ids[0]|
  }

  /** The formatted result for answer `i`, before sorting: its rank is its
      store position plus one; the similarity is `1 - distance`; the relevance
      and similarity are reported rounded, while the label is taken from the
      unrounded relevance; file and page default to "Unknown" and 0. */
  function Candidate(results: DB.QueryResult, c: CA.Case, round3: real -> real, i: nat): (r: SearchResult)
    requires WellFormed(results) && i < CandidateCount(results)
    ensures r.rank == i + 1 && r.chunkId == results.ids[0][i] && r.fullText == results.documents[0][i]
    ensures var md, d := results.metadatas[0][i], results.distances[0][i];
      r.similarityScore == round3(1.0 - d) &&
      r.relevanceScore == round3(Relevance(1.0 - d, md, c)) &&
      r.confidence == ConfidenceOf(Relevance(1.0 - d, md, c)) &&
      r.sourceFile == md.sourceFile.GetOr("Unknown") && r.pageNumber == md.pageNum.GetOr(0)
    ensures r.excerpt == TruncateAtWord(results.documents[0][i], ExcerptLength)
    ensures r.citation == GenerateCitation(results.metadatas[0][i], results.documents[0][i])
  {
    var md := results.metadatas[0][i];
    var document := results.documents[0][i];
    var similarity := 1.0 - results.distances[0][i];
    var relevance := Relevance(similarity, md, c);
    SearchResult(i + 1, results.ids[0][i], md.sourceFile.GetOr("Unknown"), md.pageNum.GetOr(0),
                 TruncateAtWord(document, ExcerptLength), document, round3(similarity), round3(relevance),
                 ConfidenceOf(relevance), GenerateCitation(md, document))
  }

  /** The unsorted formatted results, in store order. */
  function Candidates(results: DB.QueryResult, c: CA.Case, round3: real -> real): (r: seq<SearchResult>)
    requires WellFormed(results)
    ensures |r| == CandidateCount(results)
    ensures forall i :: 0 <= i < |r| ==> r[i] == Candidate(results, c, round3, i)
  {
    seq(CandidateCount(results), i requires 0 <= i < CandidateCount(results) => Candidate(results, c, round3, i))
  }

  /** Insert `x` before the first entry whose (rounded) relevance is not
      above its own. */
  function InsertByScore(x: SearchResult, sorted: seq<SearchResult>): seq<SearchResult>
  {
    if |sorted| == 0 || x.relevanceScore >= sorted[0].relevanceScore then [x] + sorted
    else [sorted[0]] + InsertByScore(x, sorted[1..])
  }

  /** `list.sort(key=relevance_score, reverse=True)`: a stable sort, highest
      relevance first. */
  function SortByScore(xs: seq<SearchResult>): seq<SearchResult>
  {
    if |xs| == 0 then [] else InsertByScore(xs[0], SortByScore(xs[1..]))
  }

  /** What `_format_results` returns. */
  function Formatted(results: DB.QueryResult, c: CA.Case, round3: real -> real): seq<SearchResult>
    requires WellFormed(results)
  {
    SortByScore(Candidates(results, c, round3))
  }

  /** `_format_results`: nothing when there are no ids; otherwise one entry
      per answer, ranked by store position, then sorted by relevance. */
  method FormatResults(results: DB.QueryResult, c: CA.Case, round3: real -> real)
    returns (formatted: seq<SearchResult>)
    requires WellFormed(results)
    ensures formatted == Formatted(results, c, round3)
  {
    formatted := [];
    if |results.ids| == 0 || |results.ids[0]| == 0 {
      assert Candidates(results, c, round3) == [];
      return;
    }
    ghost var candidates := Candidates(results, c, round3);
    for i := 0 to |results.ids[0]|
      invariant formatted == candidates[..i]
    {
      var formattedDoc := FormatEntry(results, c, round3, i);
      PrefixExtend(candidates, i);
      formatted := formatted + [formattedDoc];
    }
    assert candidates[..|results.ids[0]|] == candidates;
    formatted := SortByScore(formatted);
  }

  /** The body of the loop of `_format_results`: the entry for answer `i`. */
  method FormatEntry(results: DB.QueryResult, c: CA.Case, round3: real -> real, i: nat)
    returns (formattedDoc: SearchResult)
    requires WellFormed(results) && i < CandidateCount(results)
    ensures formattedDoc == Candidate(results, c, round3, i)
  {
    var docId := results.ids[0][i];
    var document := results.documents[0][i];
    var metadata := results.metadatas[0][i];
    var distance := results.distances[0][i];
    var similarity := 1.0 - distance;
    var relevance := CalculateRelevance(similarity, metadata, c);
    formattedDoc := SearchResult(
      i + 1, docId, metadata.sourceFile.GetOr("Unknown"), metadata.pageNum.GetOr(0),
      TruncateAtWord(document, ExcerptLength), document, round3(similarity), round3(relevance),
      ConfidenceOf(relevance), GenerateCitation(metadata, document));
  }

  /** Entries are in non-increasing order of (rounded) relevance. */
  predicate SortedByScore(xs: seq<SearchResult>)
  {
    forall a, b :: 0 <= a < b < |xs| ==> xs[a].relevanceScore >= xs[b].relevanceScore
  }

  /** Entries of equal relevance keep their store order. */
  predicate TiesInRankOrder(xs: seq<SearchResult>)
  {
    forall a, b :: 0 <= a < b < |xs| && xs[a].relevanceScore == xs[b].relevanceScore ==> xs[a].rank < xs[b].rank
  }

  /** Ranks strictly increase along `xs`. */
  predicate RanksIncreasing(xs: seq<SearchResult>)
  {
    forall a, b :: 0 <= a < b < |xs| ==> xs[a].rank < xs[b].rank
  }

  /** Inserting adds exactly `x`. */
  lemma {:induction false} InsertPermutes(x: SearchResult, sorted: seq<SearchResult>)
    ensures multiset(InsertByScore(x, sorted)) == multiset(sorted) + multiset{x}
  {
    if |sorted| > 0 && x.relevanceScore < sorted[0].relevanceScore {
      InsertPermutes(x, sorted[1..]);
      assert sorted == [sorted[0]] + sorted[1..];
    }
  }

  /** Inserting into a sorted list keeps it sorted. */
  lemma {:induction false} InsertSorted(x: SearchResult, sorted: seq<SearchResult>)
    requires SortedByScore(sorted)
    ensures SortedByScore(InsertByScore(x, sorted))
  {
    if |sorted| > 0 && x.relevanceScore < sorted[0].relevanceScore {
      var rest := InsertByScore(x, sorted[1..]);
      InsertSorted(x, sorted[1..]);
      InsertPermutes(x, sorted[1..]);
      var r := [sorted[0]] + rest;
      forall b | 0 < b < |r|
        ensures sorted[0].relevanceScore >= r[b].relevanceScore
      {
        assert r[b] in multiset(rest);
        if r[b] != x {
          assert r[b] in multiset(sorted[1..]);
          var j :| 0 <= j < |sorted[1..]| && sorted[1..][j] == r[b];
          assert sorted[j + 1] == r[b];
        }
      }
    }
  }

  /** Inserting an entry ranked before all others keeps ties in rank order. */
  lemma {:induction false} InsertKeepsTies(x: SearchResult, sorted: seq<SearchResult>)
    requires TiesInRankOrder(sorted)
    requires forall k :: 0 <= k < |sorted| ==> x.rank < sorted[k].rank
    ensures TiesInRankOrder(InsertByScore(x, sorted))
  {
    if |sorted| > 0 && x.relevanceScore < sorted[0].relevanceScore {
      var rest := InsertByScore(x, sorted[1..]);
      InsertKeepsTies(x, sorted[1..]);
      InsertPermutes(x, sorted[1..]);
      var r := [sorted[0]] + rest;
      forall b | 0 < b < |r| && sorted[0].relevanceScore == r[b].relevanceScore
        ensures sorted[0].rank < r[b].rank
      {
        assert r[b] in multiset(rest);
        assert r[b] != x;
        assert r[b] in multiset(sorted[1..]);
        var j :| 0 <= j < |sorted[1..]| && sorted[1..][j] == r[b];
        assert sorted[j + 1] == r[b];
      }
    }
  }

  /** The sort is a permutation of its input. */
  lemma {:induction false} SortPermutes(xs: seq<SearchResult>)
    ensures multiset(SortByScore(xs)) == multiset(xs)
  {
    if |xs| > 0 {
      SortPermutes(xs[1..]);
      InsertPermutes(xs[0], SortByScore(xs[1..]));
      assert xs == [xs[0]] + xs[1..];
    }
  }

  /** The sort puts the highest relevance first. */
  lemma {:induction false} SortSorted(xs: seq<SearchResult>)
    ensures SortedByScore(SortByScore(xs))
  {
    if |xs| > 0 {
      SortSorted(xs[1..]);
      InsertSorted(xs[0], SortByScore(xs[1..]));
    }
  }

  /** The sort is stable: when ranks increase along the input, equal
      relevances come out in rank order. */
  lemma {:induction false} SortStable(xs: seq<SearchResult>)
    requires RanksIncreasing(xs)
    ensures TiesInRankOrder(SortByScore(xs))
  {
    if |xs| > 0 {
      var rest := SortByScore(xs[1..]);
      assert RanksIncreasing(xs[1..]);
      SortStable(xs[1..]);
      SortPermutes(xs[1..]);
      forall k | 0 <= k < |rest|
        ensures xs[0].rank < rest[k].rank
      {
        assert rest[k] in multiset(xs[1..]);
        var j :| 0 <= j < |xs[1..]| && xs[1..][j] == rest[k];
        assert xs[j + 1] == rest[k];
      }
      InsertKeepsTies(xs[0], rest);
    }
  }

  /** Store positions, hence ranks, increase along the candidates. */
  lemma CandidateRanksIncreasing(results: DB.QueryResult, c: CA.Case, round3: real -> real)
    requires WellFormed(results)
    ensures RanksIncreasing(Candidates(results, c, round3))
  {
  }

  /** Every entry of the sorted list is an entry of the input. */
  lemma SortedEntryFrom(xs: seq<SearchResult>, k: nat) returns (i: nat)
    requires k < |SortByScore(xs)|
    ensures i < |xs| && xs[i] == SortByScore(xs)[k]
  {
    SortPermutes(xs);
    assert SortByScore(xs)[k] in multiset(xs);
    i :| 0 <= i < |xs| && xs[i] == SortByScore(xs)[k];
  }

  /** Every formatted entry is a candidate: the answer at position
      `rank - 1`, cited as "Page N" with a bounded preview. */
  lemma FormattedEntry(results: DB.QueryResult, c: CA.Case, round3: real -> real, k: nat)
    requires WellFormed(results) && k < |Formatted(results, c, round3)|
    ensures var e := Formatted(results, c, round3)[k];
      1 <= e.rank <= CandidateCount(results) && e == Candidate(results, c, round3, e.rank - 1) &&
      e.citation.location == "Page " + IntToString(e.pageNumber) &&
      |e.citation.preview| <= PreviewLength + 3
    ensures var e := Formatted(results, c, round3)[k];
      1 <= e.rank <= CandidateCount(results) &&
      var md, d := results.metadatas[0][e.rank - 1], results.distances[0][e.rank - 1];
      e.relevanceScore == round3(Relevance(1.0 - d, md, c)) &&
      e.confidence == ConfidenceOf(Relevance(1.0 - d, md, c)) &&
      e.similarityScore == round3(1.0 - d)
  {
    var cs := Candidates(results, c, round3);
    var i := SortedEntryFrom(cs, k);
    assert cs[i] == Candidate(results, c, round3, i);
  }

  /** The formatted list has one entry per answer, is sorted by descending
      relevance and keeps ties in store order. */
  lemma FormattedOrder(results: DB.QueryResult, c: CA.Case, round3: real -> real)
    requires WellFormed(results)
    ensures var f := Formatted(results, c, round3);
      |f| == CandidateCount(results) && SortedByScore(f) && TiesInRankOrder(f)
  {
    var cs := Candidates(results, c, round3);
    var f := Formatted(results, c, round3);
    SortPermutes(cs);
    assert |f| == |multiset(f)| == |multiset(cs)| == |cs|;
    SortSorted(cs);
    CandidateRanksIncreasing(results, c, round3);
    SortStable(cs);
  }

  /** What `_format_results` promises: one entry per answer (none when the
      store answered nothing), highest relevance first, ties in store order,
      and each entry is the answer at position `rank - 1`, with its
      citation's location "Page N" and a preview of at most 153 characters. */
  lemma FormattedProperties(results: DB.QueryResult, c: CA.Case, round3: real -> real)
    requires WellFormed(results)
    ensures var f := Formatted(results, c, round3);
      |f| == CandidateCount(results) &&
      (CandidateCount(results) == 0 ==> f == []) &&
      SortedByScore(f) && TiesInRankOrder(f) &&
      forall k :: 0 <= k < |f| ==>
        1 <= f[k].rank <= CandidateCount(results) &&
        f[k] == Candidate(results, c, round3, f[k].rank - 1) &&
        f[k].citation.location == "Page " + IntToString(f[k].pageNumber) &&
        |f[k].citation.preview| <= PreviewLength + 3
  {
    var f := Formatted(results, c, round3);
    FormattedOrder(results, c, round3);
    forall k | 0 <= k < |f|
      ensures 1 <= f[k].rank <= CandidateCount(results) &&
        f[k] == Candidate(results, c, round3, f[k].rank - 1) &&
        f[k].citation.location == "Page " + IntToString(f[k].pageNumber) &&
        |f[k].citation.preview| <= PreviewLength + 3
    {
      FormattedEntry(results, c, round3, k);
    }
  }

  /** Ranks follow the store order, not the output order: when the second
      answer scores higher, the first output entry has rank 2. */
  lemma RanksFollowStoreOrder(c: CA.Case)
    requires c.state.None? && c.claimType.None?
    ensures var md := Metadata(None, None, None);
      var results := DB.QueryResult([["a", "b"]], [["x", "y"]], [[md, md]], [[0.5, 0.1]]);
      WellFormed(results) && Formatted(results, c, r => r)[0].rank == 2
  {
    var md := Metadata(None, None, None);
    var results := DB.QueryResult([["a", "b"]], [["x", "y"]], [[md, md]], [[0.5, 0.1]]);
    var cs := Candidates(results, c, r => r);
    assert cs[0].relevanceScore == 0.35;
    assert cs[1].relevanceScore == 0.63;
    assert cs[1..][1..] == [];
    assert SortByScore(cs[1..]) == [cs[1]];
    assert InsertByScore(cs[0], [cs[1]]) == [cs[1], cs[0]];
  }

  // ---------------------------------------------------------------------------
  // The whole retrieval

  /** `retrieve_documents`: build the query from the case, embed it, search
      the store with the case's (empty) filter and format every answer. The
      result is not cut to `topK`: only the store's `n_results` bounds it. */
  method RetrieveDocuments(client: DB.ChromaDBClient, embed: string -> seq<real>,
                           nearest: (DB.QueryRequest, seq<DB.Record>) -> DB.QueryResult,
                           round3: real -> real, caseData: CA.Case, topK: int)
    returns (formattedResults: seq<SearchResult>)
    requires WellFormed(nearest(DB.QueryRequest([embed(CA.Query(caseData))], topK, None), client.collection.records))
    ensures var answer := nearest(DB.QueryRequest([embed(CA.Query(caseData))], topK, None), client.collection.records);
      formattedResults == Formatted(answer, caseData, round3)
  {
    var context := CA.ExtractContext(caseData);
    var query := context.query;
    var filters := context.filters;
    var queryEmbedding := embed(query);
    var results := client.Search(queryEmbedding, topK, filters, nearest);
    formattedResults := FormatResults(results, caseData, round3);
  }
}
