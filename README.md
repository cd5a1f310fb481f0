# ICD-10 Explorer lookup pipeline, modelled in Dafny

`icd10_lookup_app.py` is a single Streamlit page for looking up ICD-10 codes.
Beneath the page sits a small, deterministic lookup pipeline over an in-memory
table of `(code, description)` rows. This project models that pipeline and
proves what it promises:

- **Chapter mapping** (`map_chapter`). A fixed first-letter-to-chapter table
  with two fallbacks: "Unknown" for a missing or empty letter and
  "Unmapped Chapter" for a letter not in the table (module `Chapters`).
- **Loading** (`load_icd10` after the spreadsheet read). Headers are trimmed,
  and one loop picks the code column and the description column. A header is
  matched by exact comparison of its space-free, upper-cased form, and the
  first match wins. Otherwise the code falls back to column 0 and the
  description to column 1. Every row then gets its `__search` text, its
  3-character `category` and its chapter (module `Loader`).
- **Search** (`main`). Queries shorter than two stripped characters are
  refused. The mask is built one filter at a time with `&=`: the text test
  (a code prefix or a `__search` substring), the chapter and the category
  prefix. The results are the masked rows in table order. The first five
  matching codes are offered as suggestions (module `Search`). Mask selection
  itself (pandas' `df[mask]`) is in module `Subsequences`.
- **Pagination** (module `Pages`). 30 rows per page, with the page count and
  slice offsets in integer arithmetic.
- **Cards** (`render_icd_card` and the card loop of `main`). Each card has a
  tag line and a "related codes" expander. The expander's rows are the card's
  category group within the results, minus the rows that share the card's
  code (module `Cards`).

The file read, Streamlit widgets and rendering are parameters or are left
out. The query, the chapter choice, the category text, the "Starts with code"
checkbox and the page number are ordinary inputs. The spreadsheet is a header
row plus a grid of string cells.

Some facts about `icd10_lookup_app.py` that shape the model:

- Columns are detected by *equality* with fixed candidate lists, not by
  substring keywords.
- There is one description column, not separate short and long ones.
- Results are filtered only. There is no scoring, ranking or re-ordering.
- Rows with an empty code are kept, not dropped. Their category is empty,
  their chapter letter is missing and their chapter is "Unknown".

## Model

| member | source | states |
|---|---|---|
| `Chapters.MapChapter` | icd10_lookup_app.py:130-162 | The result is "Unknown" exactly for a non-string (NaN) or empty letter. It is "Unmapped Chapter" exactly for a non-empty letter whose upper-case form is not in the table. Otherwise it is the table's chapter for the upper-cased letter. |
| `Chapters.MapChapterIgnoresCase` | icd10_lookup_app.py:133 | The lookup is case-insensitive: a letter, its upper-case form and its lower-case form all map to the same chapter. |
| `Chapters.InfectiousShared` | icd10_lookup_app.py:136-137 | "A" and "B" both map to "Infectious & Parasitic Diseases". |
| `Chapters.InjuryShared` | icd10_lookup_app.py:154-155 | "S" and "T" both map to "Injury, Poisoning & Certain Other Consequences". |
| `Chapters.ExternalCausesShared` | icd10_lookup_app.py:156-159 | "V", "W", "X" and "Y" all map to "External Causes of Morbidity". |
| `Chapters.InfectiousLetters` | icd10_lookup_app.py:136-137 | A string maps to the infectious chapter if and only if its upper-case form is "A" or "B". |
| `Chapters.UnlistedLetters` | icd10_lookup_app.py:162 | "U", "u" and multi-character text such as "E1" fall through to "Unmapped Chapter". |
| `Chapters.MapChapterRange` | icd10_lookup_app.py:131-162 | Every answer is one of the two fallbacks or a chapter name from the table. |
| `Text.Strip` | icd10_lookup_app.py:173 | `str.strip()`: the result is a contiguous piece of the input, everything removed before and after it is whitespace, and a non-empty result starts and ends with non-whitespace. |
| `Text.RemoveSpaces` | icd10_lookup_app.py:183 | `replace(" ", "")`: the result has no space, is no longer than the input, and is the input itself when the input has no space. |
| `Text.RemoveSpacesKeepsTheRest` | icd10_lookup_app.py:183 | The result is exactly the input's characters other than the ordinary space, in their original order. It is the mask selection of the input by "not a space". |
| `Loader.CleanHeaders` | icd10_lookup_app.py:173 | There is one cleaned header per raw header, and each is the stripped raw header at the same position. |
| `Loader.HeaderKey` | icd10_lookup_app.py:183 | The comparison form of a header: its spaces removed, then upper-cased. |
| `Loader.HeaderMatches` | icd10_lookup_app.py:184-187 | A header matches a candidate list when its comparison form equals the upper-cased form of some candidate. |
| `Loader.FirstMatch` | icd10_lookup_app.py:182-187 | The result is the position of the first header that matches a candidate, and no header before it matches. It is none exactly when no header matches. |
| `Loader.SelectColumns` | icd10_lookup_app.py:179-192 | Loading fails exactly when the code fallback needs a column 0 that does not exist, or the description fallback needs a column 1 that does not exist. The chosen columns always exist. A role with a matching header gets the first matching header's column, and the fallback columns are 0 for the code and 1 for the description. The error names the missing column: 0 when the sheet has no columns and no code header, otherwise 1. |
| `Loader.DetectColumns` | icd10_lookup_app.py:179-192 | The single detection loop, with both first-match guards and then the two fallbacks, yields exactly the column choice above. |
| `Loader.SpacedCandidateNeverMatches` | icd10_lookup_app.py:176-184 | No header can match the candidate "ICD-10 Code", because a header's comparison form has no spaces while the upper-cased candidate keeps one. |
| `Loader.SpacedCandidateIsDead` | icd10_lookup_app.py:176-187 | Removing "ICD-10 Code" from the code candidates changes the detected code column of no sheet. |
| `Loader.Category` | icd10_lookup_app.py:201 | `str[:3]`: the first min(3, length) characters of the code. |
| `Loader.ChapterLetter` | icd10_lookup_app.py:204 | `str[0].str.upper()`: missing (NaN) exactly for an empty code. Otherwise it is a single upper-case character. |
| `Loader.DeriveRow` | icd10_lookup_app.py:194-205 | `__search` is the lower-cased code, a space and the lower-cased description, so it starts with the lower-cased code. `category` is the first min(3, length) characters of the code. The chapter letter is missing exactly for an empty code, and otherwise it is the upper-cased first character. The chapter name is `map_chapter` of that letter, so it is "Unknown" for an empty code. |
| `Loader.LoadIcd10` | icd10_lookup_app.py:172-207 | The load fails exactly when column selection fails, and with the same error. On success, the headers are the cleaned headers, the columns are the selected ones, and there is one row per input row, derived from its code and description cells. |
| `Search.EffectiveQuery` | icd10_lookup_app.py:297-311 | There is no query exactly when the stripped text has fewer than 2 characters. Otherwise the query is the stripped text, lower-cased: at least 2 characters long, without upper-case letters, and neither starting nor ending with whitespace. |
| `Search.TextMatch` | icd10_lookup_app.py:314-317 | The text test: in "Starts with code" mode the lower-cased code starts with the query, otherwise the query occurs in `__search`. |
| `Search.ChapterMatch` | icd10_lookup_app.py:319-320 | The chapter test: always true for "All Chapters", otherwise the row's chapter name equals the choice. |
| `Search.CategoryMatch` | icd10_lookup_app.py:322-324 | The category test: always true for a blank filter, otherwise the upper-cased category starts with the stripped, upper-cased filter. |
| `Search.RowMatches` | icd10_lookup_app.py:313-324 | A row matches when it passes all three tests. |
| `Search.MatchMask` | icd10_lookup_app.py:313-324 | The mask has one entry per table row, and an entry is true when that row matches. |
| `Search.Results` | icd10_lookup_app.py:326 | `df[mask]`: the table selected by the match mask. |
| `Search.BuildMask` | icd10_lookup_app.py:313-324 | The step-by-step mask has one entry per row. An entry is true exactly when the row passes the text test, the chapter filter (unless "All Chapters") and the category-prefix filter (unless blank). |
| `Search.Search` | icd10_lookup_app.py:306-326 | A short query gives no search. Otherwise the results are the masked rows for the stripped, lower-cased query. |
| `Search.ResultsInTableOrder` | icd10_lookup_app.py:326 | The k-th result is the table row at the k-th matching position. Those positions are strictly increasing, and a position is among them exactly when its row passes every active filter. |
| `Search.ResultMember` | icd10_lookup_app.py:314-326 | A row is a result if and only if it is a table row that satisfies the conjunction of the active predicates. |
| `Search.ExactResultsStartWithQuery` | icd10_lookup_app.py:314-315 | In "Starts with code" mode, every result's lower-cased code starts with the query. |
| `Search.PrefixHitIsSubstringHit` | icd10_lookup_app.py:198 | On a loaded row, a code-prefix hit is also a substring hit in `__search`. |
| `Search.ExactWithinSubstring` | icd10_lookup_app.py:314-317 | On loaded rows, the "Starts with code" results are a subsequence of the substring-mode results under the same filters. |
| `Search.ChapterFilterNarrows` | icd10_lookup_app.py:319-320 | Results under a chosen chapter are a subsequence of the results under "All Chapters". |
| `Search.CategoryFilterNarrows` | icd10_lookup_app.py:322-324 | Results under a category filter are a subsequence of the results with the category filter blank. |
| `Search.Suggestions` | icd10_lookup_app.py:296-302 | There are at most 5 suggestions and none for a short query. Each suggestion's lower-cased form starts with the query. |
| `Search.SuggestionsAreFirstMatches` | icd10_lookup_app.py:299 | The suggestions are the codes of the first min(5, number of matches) code-prefix matches, in table order. |
| `Subsequences.SelectIsIndexed` | icd10_lookup_app.py:326 | `df[mask]` keeps exactly the elements at the true positions, in increasing position order. |
| `Subsequences.SelectMember` | icd10_lookup_app.py:326 | An element is selected if and only if it stands at a true position of the mask. |
| `Pages.PageCount` | icd10_lookup_app.py:349-350 | There is always at least one page. For total ≥ 1, (pages - 1) * 30 < total ≤ pages * 30, that is, pages is ceil(total / 30). An empty result set has one page. |
| `Pages.PageStart` | icd10_lookup_app.py:356 | `start = (page - 1) * 30`, the first row offset of a page. Its bounds are stated by `PageBounds`. |
| `Pages.PageEnd` | icd10_lookup_app.py:357 | `end = min(start + 30, total)`, the end offset of a page. Its bounds are stated by `PageBounds`. |
| `Pages.PageBounds` | icd10_lookup_app.py:354-357 | For total ≥ 1 and 1 ≤ page ≤ pages: 0 ≤ start < end ≤ total and end - start ≤ 30. Every page but the last is full, and the last page ends at total. |
| `Pages.PageSlice` | icd10_lookup_app.py:360 | A page holds at most 30 rows, and at least one when there are results. |
| `Pages.PagesReassemble` | icd10_lookup_app.py:349-360 | Concatenating the page slices in order reproduces the results exactly. |
| `Cards.Join` | icd10_lookup_app.py:225 | `sep.join(parts)`: nothing for no parts, the part itself for one part, and otherwise the first part, the separator and the join of the rest. |
| `Cards.TagText` | icd10_lookup_app.py:219-225 | The tag line, case by case: "chapter · Category X" when both parts are present, and only the part that is present otherwise. It is empty exactly when the chapter is empty or "Unknown" and the category is empty. |
| `Cards.BuildTagLine` | icd10_lookup_app.py:219-225 | Appending the tags one by one and joining them with " · " yields exactly `TagText`'s four cases. |
| `Cards.CategoryGroup` | icd10_lookup_app.py:363 | One group of `groupby("category")`: the results selected by "same category", in their order. |
| `Cards.CategoryGroupMember` | icd10_lookup_app.py:363 | A row is in a category's group if and only if it is a result of that category. |
| `Cards.GroupByCategory` | icd10_lookup_app.py:363 | There is one group for each category that occurs in the results, and it is that category's group. |
| `Cards.LookupGroup` | icd10_lookup_app.py:368 | `grouped_by_category.get(cat, None)`: the group for a category that has one, otherwise none. |
| `Cards.ListRelated` | icd10_lookup_app.py:242-249 | The expander appears exactly for a group of more than one row. It then lists the group's rows in order, skipping every row whose code equals the card's code. Otherwise it lists nothing. |
| `Cards.CardOf` | icd10_lookup_app.py:213-249 | The card of a row and its group: the row's code, description and tag line. The expander is shown for a group of more than one row, and then lists the group without the row's own code. |
| `Cards.CardFor` | icd10_lookup_app.py:363-369 | The card of a result row takes its group from the results grouped by category. |
| `Cards.RenderCard` | icd10_lookup_app.py:213-249 | A card shows its row's code and description and that row's tag line. Its expander appears exactly for a group of more than one row, and its contents are those of `ListRelated`. |
| `Cards.RelatedCodesOfCard` | icd10_lookup_app.py:242-249 | A card's expander appears exactly when its category has more than one result. Every listed row is a result of the same category with a different code, and when expanded, every such result is listed. |
| `Cards.RenderPage` | icd10_lookup_app.py:360-369 | There is one card per row of the chosen page, in page order, each built from its row, its tag line and its related codes. |

## Left out

- The Streamlit page: configuration, CSS, HTML markdown, headers, widgets,
  the copy-to-clipboard button and session behaviour. The widget values are
  inputs of the model.
- The spreadsheet read (`pd.read_excel`) and `@st.cache_data`. The header
  row and the cell grid are inputs of `Loader.LoadIcd10`.
- The CSV export and its download button. These are library serialisation.
  Because of this, a `Loader.Row` keeps only the code, the description and
  the derived columns, which are all the lookup reads.
- The chapter selectbox's option list, which is "All Chapters" followed by
  the sorted distinct chapter names. The chosen option is an input.
- The captions "Showing start+1–end of total", "N matching code(s)" and the
  comma-joined suggestion line. These only display values the model computes.
- `Search.TextMatch`: pandas' `str.contains` reads the query as a regular
  expression by default. The model tests a literal substring instead.
- pandas missing values. Cells are plain strings, so the `"nan"` text that
  `astype(str)` produces for an empty cell is just a string. The one NaN the
  pipeline itself creates, `str[0]` of an empty code, is modelled as a missing
  chapter letter.
- Derived columns overwriting a detected column. `load_icd10` writes
  `__search`, `category`, `chapter_letter` and `chapter_name` into the same
  table, after reading the detected columns. So when the code or description
  column is itself named like one of them, its cells are replaced. For
  example, with headers `CODE` and `category`, the description falls back to
  `category`, and line 201 then replaces it by the code's first three
  characters. The model keeps the original cells in `Loader.Row.code` and
  `Loader.Row.desc`. It does not model this overwriting.
- Duplicate header names. With these, pandas' `df[name]` returns several
  columns. The model addresses columns by position.
- `Text.Lower` and `Text.Upper` map only ASCII letters. Python's Unicode case
  mapping of other letters is not modelled. Neither is the way a mapping such
  as "ß" → "SS" can change a string's length.
- `Cards.RenderPage` requires at least one result and 1 ≤ page ≤ pages. The
  page widget is bounded to that range, and `main` returns before pagination
  when there are no results.
