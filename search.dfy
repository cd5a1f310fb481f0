/**
 * The search half of `main`: the short-query guard, the effective query, the
 * boolean mask built one filter at a time, the filtered results (table order,
 * no ranking) and the code suggestions shown above them.
 */
module Search {
  import opened Wrappers
  import opened Text
  import opened Chapters
  import opened Subsequences
  import opened Loader

  /** The chapter selectbox's first option, which switches the chapter filter off. */
  const AllChapters: string := "All Chapters"
  const MinQueryLength: nat := 2
  const SuggestionLimit: nat := 5

  /**
   * The query actually searched for: none while the stripped text is shorter
   * than two characters, otherwise the stripped, lower-cased text.
   */
  function EffectiveQuery(query: string): (q: Option<string>)
    ensures q.None? <==> |Strip(query)| < MinQueryLength
    ensures q.Some? ==> q.value == Lower(Strip(query))
    ensures q.Some? ==> |q.value| >= MinQueryLength && Lower(q.value) == q.value
    ensures q.Some? ==> !IsSpace(q.value[0]) && !IsSpace(q.value[|q.value| - 1])
  {
    var t := Strip(query);
    LowerIdempotent(t);
    if |t| < MinQueryLength then None else Some(Lower(t))
  }

  /** "Starts with code" mode: a code prefix; otherwise a substring of `__search`. */
  predicate TextMatch(r: Row, q: string, exact: bool) {
    if exact then StartsWith(Lower(r.code), q) else Contains(r.search, q)
  }

  predicate ChapterMatch(r: Row, chapterFilter: string) {
    chapterFilter == AllChapters || r.chapterName == chapterFilter
  }

  /** A blank category filter is off; otherwise a case-insensitive prefix of the category. */
  predicate CategoryMatch(r: Row, categoryFilter: string) {
    Strip(categoryFilter) == "" || StartsWith(Upper(r.category), Upper(Strip(categoryFilter)))
  }

  predicate RowMatches(r: Row, q: string, exact: bool, chapterFilter: string, categoryFilter: string) {
    TextMatch(r, q, exact) && ChapterMatch(r, chapterFilter) && CategoryMatch(r, categoryFilter)
  }

  /** The mask every active filter agrees on, one entry per table row. */
  function MatchMask(rows: seq<Row>, q: string, exact: bool, chapterFilter: string, categoryFilter: string): (m: seq<bool>)
    ensures |m| == |rows|
  {
    seq(|rows|, i requires 0 <= i < |rows| => RowMatches(rows[i], q, exact, chapterFilter, categoryFilter))
  }

  /** `df[mask]`: the filtered results. */
  function Results(rows: seq<Row>, q: string, exact: bool, chapterFilter: string, categoryFilter: string): seq<Row> {
    Select(rows, MatchMask(rows, q, exact, chapterFilter, categoryFilter))
  }

  /** The mask as `main` builds it: the text test, then `&=` per active filter. */
  method BuildMask(rows: seq<Row>, q: string, exact: bool, chapterFilter: string, categoryFilter: string)
    returns (mask: seq<bool>)
    ensures |mask| == |rows|
    ensures forall i :: 0 <= i < |rows| ==>
      (mask[i] <==> TextMatch(rows[i], q, exact) && ChapterMatch(rows[i], chapterFilter)
                    && CategoryMatch(rows[i], categoryFilter))
  {
    if exact {
      mask := seq(|rows|, i requires 0 <= i < |rows| => StartsWith(Lower(rows[i].code), q));
    } else {
      mask := seq(|rows|, i requires 0 <= i < |rows| => Contains(rows[i].search, q));
    }
    if chapterFilter != AllChapters {
      var m := mask;
      mask := seq(|rows|, i requires 0 <= i < |rows| => m[i] && rows[i].chapterName == chapterFilter);
    }
    var cfText := Strip(categoryFilter);
    if cfText != "" {
      var cf := Upper(cfText);
      var m := mask;
      mask := seq(|rows|, i requires 0 <= i < |rows| => m[i] && StartsWith(Upper(rows[i].category), cf));
    }
  }

  /** The guard and the filter: no search for a short query, else the masked rows. */
  method Search(rows: seq<Row>, query: string, exact: bool, chapterFilter: string, categoryFilter: string)
    returns (results: Option<seq<Row>>)
    ensures results.None? <==> |Strip(query)| < MinQueryLength
    ensures results.Some? ==>
      results.value == Results(rows, Lower(Strip(query)), exact, chapterFilter, categoryFilter)
  {
    var q := EffectiveQuery(query);
    if q.None? {
      return None;
    }
    var mask := BuildMask(rows, q.value, exact, chapterFilter, categoryFilter);
    assert mask == MatchMask(rows, q.value, exact, chapterFilter, categoryFilter);
    results := Some(Select(rows, mask));
  }

  /**
   * The results are exactly the matching rows in table order: the k-th result
   * is the row at the k-th matching position, and a position is matching
   * exactly when the row passes every active filter.
   */
  lemma ResultsInTableOrder(rows: seq<Row>, q: string, exact: bool, chapterFilter: string, categoryFilter: string,
                            res: seq<Row>, idx: seq<nat>)
    requires res == Results(rows, q, exact, chapterFilter, categoryFilter)
    requires idx == TrueIndices(MatchMask(rows, q, exact, chapterFilter, categoryFilter))
    ensures |res| == |idx|
    ensures forall k :: 0 <= k < |idx| ==> idx[k] < |rows| && res[k] == rows[idx[k]]
    ensures forall k, l :: 0 <= k < l < |idx| ==> idx[k] < idx[l]
    ensures forall i :: 0 <= i < |rows| ==>
              (i in idx <==> RowMatches(rows[i], q, exact, chapterFilter, categoryFilter))
  {
    var mask := MatchMask(rows, q, exact, chapterFilter, categoryFilter);
    SelectIsIndexed(rows, mask);
  }

  /** A row is a result if and only if it is a table row passing every active filter. */
  lemma ResultMember(rows: seq<Row>, q: string, exact: bool, chapterFilter: string, categoryFilter: string, r: Row)
    ensures r in Results(rows, q, exact, chapterFilter, categoryFilter)
        <==> r in rows && RowMatches(r, q, exact, chapterFilter, categoryFilter)
  {
    var mask := MatchMask(rows, q, exact, chapterFilter, categoryFilter);
    SelectMember(rows, mask, r);
    if r in rows && RowMatches(r, q, exact, chapterFilter, categoryFilter) {
      var i :| 0 <= i < |rows| && rows[i] == r;
      assert mask[i];
    }
  }

  /** In "Starts with code" mode every result's lower-cased code starts with the query. */
  lemma ExactResultsStartWithQuery(rows: seq<Row>, q: string, chapterFilter: string, categoryFilter: string)
    ensures forall r :: r in Results(rows, q, true, chapterFilter, categoryFilter) ==> StartsWith(Lower(r.code), q)
  {
    forall r | r in Results(rows, q, true, chapterFilter, categoryFilter) ensures StartsWith(Lower(r.code), q) {
      ResultMember(rows, q, true, chapterFilter, categoryFilter, r);
    }
  }

  /** On a loaded row, a code-prefix hit is also a `__search` substring hit. */
  lemma PrefixHitIsSubstringHit(r: Row, q: string)
    requires WellFormed(r)
    requires StartsWith(Lower(r.code), q)
    ensures Contains(r.search, q)
  {
    assert StartsWith(r.search, Lower(r.code));
    assert r.search[..|q|] == q;
    PrefixIsContained(r.search, q);
  }

  /** Switching "Starts with code" on never finds more: its results are a subsequence of the substring results. */
  lemma ExactWithinSubstring(rows: seq<Row>, q: string, chapterFilter: string, categoryFilter: string)
    requires forall i :: 0 <= i < |rows| ==> WellFormed(rows[i])
    ensures IsSubsequence(Results(rows, q, true, chapterFilter, categoryFilter),
                          Results(rows, q, false, chapterFilter, categoryFilter))
  {
    var m1 := MatchMask(rows, q, true, chapterFilter, categoryFilter);
    var m2 := MatchMask(rows, q, false, chapterFilter, categoryFilter);
    forall i | 0 <= i < |rows| && m1[i] ensures m2[i] {
      PrefixHitIsSubstringHit(rows[i], q);
    }
    StrongerMaskSubsequence(rows, m1, m2);
  }

  /** Choosing a chapter only narrows the results obtained with "All Chapters". */
  lemma ChapterFilterNarrows(rows: seq<Row>, q: string, exact: bool, chapterFilter: string, categoryFilter: string)
    ensures IsSubsequence(Results(rows, q, exact, chapterFilter, categoryFilter),
                          Results(rows, q, exact, AllChapters, categoryFilter))
  {
    var m1 := MatchMask(rows, q, exact, chapterFilter, categoryFilter);
    var m2 := MatchMask(rows, q, exact, AllChapters, categoryFilter);
    StrongerMaskSubsequence(rows, m1, m2);
  }

  /** Typing a category only narrows the results obtained with a blank category filter. */
  lemma CategoryFilterNarrows(rows: seq<Row>, q: string, exact: bool, chapterFilter: string, categoryFilter: string)
    ensures IsSubsequence(Results(rows, q, exact, chapterFilter, categoryFilter),
                          Results(rows, q, exact, chapterFilter, ""))
  {
    var m1 := MatchMask(rows, q, exact, chapterFilter, categoryFilter);
    var m2 := MatchMask(rows, q, exact, chapterFilter, "");
    assert Strip("") == "";
    StrongerMaskSubsequence(rows, m1, m2);
  }

  function Codes(rows: seq<Row>): (codes: seq<string>)
    ensures |codes| == |rows|
  {
    seq(|rows|, i requires 0 <= i < |rows| => rows[i].code)
  }

  function PrefixMask(rows: seq<Row>, q: string): (m: seq<bool>)
    ensures |m| == |rows|
  {
    seq(|rows|, i requires 0 <= i < |rows| => StartsWith(Lower(rows[i].code), q))
  }

  /** `df[code.str.lower().str.startswith(q)][code].head(5)`, and nothing for a short query. */
  function Suggestions(rows: seq<Row>, query: string): (s: seq<string>)
    ensures |s| <= SuggestionLimit
    ensures EffectiveQuery(query).None? ==> s == []
    ensures EffectiveQuery(query).Some? ==>
      forall k :: 0 <= k < |s| ==> StartsWith(Lower(s[k]), EffectiveQuery(query).value)
  {
    var eq := EffectiveQuery(query);
    if eq.None? then []
    else
      var hits := Select(Codes(rows), PrefixMask(rows, eq.value));
      PrefixHitsStartWith(rows, eq.value, hits);
      if |hits| <= SuggestionLimit then hits else hits[..SuggestionLimit]
  }

  lemma PrefixHitsStartWith(rows: seq<Row>, q: string, hits: seq<string>)
    requires hits == Select(Codes(rows), PrefixMask(rows, q))
    ensures forall k :: 0 <= k < |hits| ==> StartsWith(Lower(hits[k]), q)
  {
    SelectIsIndexed(Codes(rows), PrefixMask(rows, q));
  }

  /**
   * The suggestions are the codes of the first (at most five) rows, in table
   * order, whose lower-cased code starts with the query; with fewer than five,
   * every such row is among them.
   */
  lemma SuggestionsAreFirstMatches(rows: seq<Row>, query: string, q: string, idx: seq<nat>)
    requires EffectiveQuery(query) == Some(q)
    requires idx == TrueIndices(PrefixMask(rows, q))
    ensures |Suggestions(rows, query)| == (if |idx| < SuggestionLimit then |idx| else SuggestionLimit)
    ensures forall k :: 0 <= k < |Suggestions(rows, query)| ==>
              idx[k] < |rows| && Suggestions(rows, query)[k] == rows[idx[k]].code
  {
    SelectIsIndexed(Codes(rows), PrefixMask(rows, q));
  }
}
