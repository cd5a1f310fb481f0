/**
 * What `main` and `render_icd_card` show for one page of results: the tag
 * line of each card and its "related codes" expander, whose rows come from
 * the results grouped by category.
 */
module Cards {
  import opened Wrappers
  import opened Text
  import opened Chapters
  import opened Subsequences
  import opened Loader
  import opened Pages

  const Separator: string := " · "
  const CategoryLabel: string := "Category "

  /** `sep.join(parts)` */
  function Join(parts: seq<string>, sep: string): string {
    if |parts| == 0 then ""
    else if |parts| == 1 then parts[0]
    else parts[0] + sep + Join(parts[1..], sep)
  }

  /** Whether the card names its chapter: a real chapter name, not the "Unknown" fallback. */
  predicate ShowsChapter(chapterName: string) {
    chapterName != "" && chapterName != Unknown
  }

  /**
   * The card's tag line: the chapter, then "Category X", joined by " · ", each
   * only when present.
   */
  function TagText(chapterName: string, category: string): (text: string)
    ensures text == "" <==> !ShowsChapter(chapterName) && category == ""
  {
    if ShowsChapter(chapterName) && category != "" then chapterName + Separator + CategoryLabel + category
    else if ShowsChapter(chapterName) then chapterName
    else if category != "" then CategoryLabel + category
    else ""
  }

  /** The tag list as `render_icd_card` builds it: appended tag by tag, then joined. */
  method BuildTagLine(chapterName: string, category: string) returns (text: string)
    ensures text == TagText(chapterName, category)
  {
    var tags: seq<string> := [];
    if chapterName != "" && chapterName != Unknown {
      tags := tags + [chapterName];
    }
    if category != "" {
      tags := tags + [CategoryLabel + category];
    }
    text := Join(tags, Separator);
    if |tags| == 2 {
      assert tags[0] == chapterName && tags[1..] == [CategoryLabel + category];
      assert Join(tags[1..], Separator) == CategoryLabel + category;
      assert text == chapterName + Separator + (CategoryLabel + category);
    }
  }

  function CategoryMask(results: seq<Row>, category: string): (m: seq<bool>)
    ensures |m| == |results|
  {
    seq(|results|, i requires 0 <= i < |results| => results[i].category == category)
  }

  /** One group of `results.groupby("category")`: the results of that category, in order. */
  function CategoryGroup(results: seq<Row>, category: string): seq<Row> {
    Select(results, CategoryMask(results, category))
  }

  /** A row is in a category's group if and only if it is a result of that category. */
  lemma CategoryGroupMember(results: seq<Row>, category: string, r: Row)
    ensures r in CategoryGroup(results, category) <==> r in results && r.category == category
  {
    var m := CategoryMask(results, category);
    SelectMember(results, m, r);
    if r in results && r.category == category {
      var i :| 0 <= i < |results| && results[i] == r;
      assert m[i];
    }
  }

  /** `dict(tuple(results.groupby("category")))`: one entry per category present in the results. */
  function GroupByCategory(results: seq<Row>): (groups: map<string, seq<Row>>)
    ensures groups.Keys == set r | r in results :: r.category
    ensures forall c :: c in groups ==> groups[c] == CategoryGroup(results, c)
  {
    map c | c in (set r | r in results :: r.category) :: CategoryGroup(results, c)
  }

  /** `grouped_by_category.get(cat, None)` */
  function LookupGroup(groups: map<string, seq<Row>>, category: string): Option<seq<Row>> {
    if category in groups then Some(groups[category]) else None
  }

  function RelatedMask(group: seq<Row>, code: string): (m: seq<bool>)
    ensures |m| == |group|
  {
    seq(|group|, i requires 0 <= i < |group| => group[i].code != code)
  }

  /**
   * The expander of `render_icd_card`: shown only for a group of more than one
   * row, listing the group's rows in order and skipping every row whose code is
   * the card's own.
   */
  method ListRelated(code: string, group: Option<seq<Row>>) returns (expanded: bool, listed: seq<Row>)
    ensures expanded <==> group.Some? && |group.value| > 1
    ensures !expanded ==> listed == []
    ensures expanded ==> listed == Select(group.value, RelatedMask(group.value, code))
  {
    expanded := group.Some? && |group.value| > 1;
    listed := [];
    if expanded {
      var g := group.value;
      var m := RelatedMask(g, code);
      for i := 0 to |g|
        invariant listed == Select(g[..i], m[..i])
      {
        assert g[..i + 1][..i] == g[..i] && m[..i + 1][..i] == m[..i];
        if g[i].code == code {
          continue;
        }
        listed := listed + [g[i]];
      }
      assert g[..|g|] == g && m[..|m|] == m;
    }
  }

  /** What one result card shows. */
  datatype Card = Card(code: string, desc: string, tagText: string, expanded: bool, related: seq<Row>)

  /** The card of a row whose category group is `group` (`related_df`, possibly missing). */
  function CardOf(row: Row, group: Option<seq<Row>>): Card {
    var expanded := group.Some? && |group.value| > 1;
    Card(row.code, row.desc, TagText(row.chapterName, row.category), expanded,
         if expanded then Select(group.value, RelatedMask(group.value, row.code)) else [])
  }

  /** The card of a result row, given all the (filtered) results. */
  function CardFor(results: seq<Row>, row: Row): (c: Card) {
    CardOf(row, LookupGroup(GroupByCategory(results), row.category))
  }

  /** `render_icd_card(row, code_col, desc_col, related_df)` */
  method RenderCard(row: Row, group: Option<seq<Row>>) returns (card: Card)
    ensures card.code == row.code && card.desc == row.desc
    ensures card.tagText == TagText(row.chapterName, row.category)
    ensures card.expanded <==> group.Some? && |group.value| > 1
    ensures card == CardOf(row, group)
  {
    var tagText := BuildTagLine(row.chapterName, row.category);
    var expanded, related := ListRelated(row.code, group);
    card := Card(row.code, row.desc, tagText, expanded, related);
  }

  /**
   * Every related code shown on a card is a result of the same category with a
   * different code; the expander appears exactly when that category has more
   * than one result, and then it lists every such row.
   */
  lemma RelatedCodesOfCard(results: seq<Row>, row: Row)
    requires row in results
    ensures CardFor(results, row).expanded <==> |CategoryGroup(results, row.category)| > 1
    ensures forall r :: r in CardFor(results, row).related ==>
              r in results && r.category == row.category && r.code != row.code
    ensures CardFor(results, row).expanded ==>
              forall r :: r in results && r.category == row.category && r.code != row.code ==>
                r in CardFor(results, row).related
  {
    var groups := GroupByCategory(results);
    assert row.category in groups;
    var g := CategoryGroup(results, row.category);
    var m := RelatedMask(g, row.code);
    forall r ensures r in Select(g, m) <==> r in g && r.code != row.code {
      SelectMember(g, m, r);
      if r in g && r.code != row.code {
        var i :| 0 <= i < |g| && g[i] == r;
        assert m[i];
      }
    }
    forall r ensures r in g <==> r in results && r.category == row.category {
      CategoryGroupMember(results, row.category, r);
    }
  }

  /** The card loop of `main` over `results.iloc[start:end]`. */
  method RenderPage(results: seq<Row>, page: nat) returns (cards: seq<Card>)
    requires |results| >= 1 && 1 <= page <= PageCount(|results|)
    ensures |cards| == |PageSlice(results, page)|
    ensures forall k :: 0 <= k < |cards| ==> cards[k] == CardFor(results, PageSlice(results, page)[k])
  {
    PageBounds(|results|, page);
    var pageRows := results[PageStart(page)..PageEnd(page, |results|)];
    assert pageRows == PageSlice(results, page);
    var groups := GroupByCategory(results);
    cards := [];
    for k := 0 to |pageRows|
      invariant |cards| == k
      invariant forall j :: 0 <= j < k ==> cards[j] == CardFor(results, pageRows[j])
    {
      var row := pageRows[k];
      var card := RenderCard(row, LookupGroup(groups, row.category));
      assert card == CardFor(results, row);
      cards := cards + [card];
    }
  }
}
