/**
 * `load_icd10` after the spreadsheet has been read: header cleaning, the
 * auto-detection of the code and description columns, and the fields derived
 * for every row (`__search`, `category`, `chapter_letter`, `chapter_name`).
 */
module Loader {
  import opened Wrappers
  import opened Text
  import opened Chapters

  const CodeCandidates: seq<string> := ["ICD10", "ICD10CODE", "ICD-10 Code", "Code", "DIAG_CD"]
  const DescCandidates: seq<string> := ["Description", "LONG_DESCRIPTION", "LONG_DESC", "ICD10DESCRIPTION"]

  /** One row of the loaded table, reduced to the columns the lookup reads. */
  datatype Row = Row(
    code: string,
    desc: string,
    search: string,                 // "__search"
    category: string,
    chapterLetter: Option<string>,  // None is pandas' NaN
    chapterName: string)

  /** Positions of the detected code and description columns. */
  datatype Columns = Columns(code: nat, desc: nat)

  /** `df.columns[position]` raised IndexError: the sheet has too few columns for the fallback. */
  datatype LoadError = MissingColumn(position: nat)

  datatype Table = Table(headers: seq<string>, columns: Columns, rows: seq<Row>)

  /** `[c.strip() for c in df.columns]` */
  function CleanHeaders(raw: seq<string>): (headers: seq<string>)
    ensures |headers| == |raw|
    ensures forall i :: 0 <= i < |raw| ==> headers[i] == Strip(raw[i])
  {
    seq(|raw|, i requires 0 <= i < |raw| => Strip(raw[i]))
  }

  /** The form a header is compared in: spaces removed, then upper-cased. */
  function HeaderKey(h: string): string {
    Upper(RemoveSpaces(h))
  }

  /** `c_upper in [x.upper() for x in candidates]` */
  predicate HeaderMatches(h: string, candidates: seq<string>) {
    exists k | 0 <= k < |candidates| :: HeaderKey(h) == Upper(candidates[k])
  }

  /** The first header, in column order, that matches one of the candidates. */
  function FirstMatch(headers: seq<string>, candidates: seq<string>): (r: Option<nat>)
    ensures r.Some? ==> r.value < |headers| && HeaderMatches(headers[r.value], candidates)
    ensures r.Some? ==> forall j :: 0 <= j < r.value ==> !HeaderMatches(headers[j], candidates)
    ensures r.None? ==> forall j :: 0 <= j < |headers| ==> !HeaderMatches(headers[j], candidates)
    decreases |headers|
  {
    if |headers| == 0 then None
    else
      var n := |headers| - 1;
      match FirstMatch(headers[..n], candidates)
      case Some(i) => Some(i)
      case None => if HeaderMatches(headers[n], candidates) then Some(n) else None
  }

  /**
   * Column choice: the first matching header for each role; otherwise column 0
   * for the code and column 1 for the description, which fails on a sheet
   * that has no such column.
   */
  function SelectColumns(headers: seq<string>): (r: Result<Columns, LoadError>)
    ensures r.Err? <==> (FirstMatch(headers, CodeCandidates).None? && |headers| == 0)
                        || (FirstMatch(headers, DescCandidates).None? && |headers| < 2)
    ensures r.Ok? ==> r.value.code < |headers| && r.value.desc < |headers|
    ensures r.Ok? && FirstMatch(headers, CodeCandidates).None? ==> r.value.code == 0
    ensures r.Ok? && FirstMatch(headers, DescCandidates).None? ==> r.value.desc == 1
    ensures r.Ok? && FirstMatch(headers, CodeCandidates).Some? ==> r.value.code == FirstMatch(headers, CodeCandidates).value
    ensures r.Ok? && FirstMatch(headers, DescCandidates).Some? ==> r.value.desc == FirstMatch(headers, DescCandidates).value
    ensures r.Err? && FirstMatch(headers, CodeCandidates).None? && |headers| == 0 ==> r.error == MissingColumn(0)
    ensures r.Err? && !(FirstMatch(headers, CodeCandidates).None? && |headers| == 0) ==> r.error == MissingColumn(1)
  {
    var code := FirstMatch(headers, CodeCandidates);
    var desc := FirstMatch(headers, DescCandidates);
    if code.None? && |headers| == 0 then Err(MissingColumn(0))
    else if desc.None? && |headers| < 2 then Err(MissingColumn(1))
    else
      Ok(Columns(if code.Some? then code.value else 0, if desc.Some? then desc.value else 1))
  }

  /** The detection loop of `load_icd10`: one pass over the headers, first match wins per role. */
  method DetectColumns(headers: seq<string>) returns (r: Result<Columns, LoadError>)
    ensures r == SelectColumns(headers)
  {
    var codeCol: Option<nat> := None;
    var descCol: Option<nat> := None;
    for i := 0 to |headers|
      invariant codeCol == FirstMatch(headers[..i], CodeCandidates)
      invariant descCol == FirstMatch(headers[..i], DescCandidates)
    {
      assert headers[..i + 1][..i] == headers[..i];
      if HeaderMatches(headers[i], CodeCandidates) && codeCol.None? {
        codeCol := Some(i);
      }
      if HeaderMatches(headers[i], DescCandidates) && descCol.None? {
        descCol := Some(i);
      }
    }
    assert headers[..|headers|] == headers;
    if codeCol.None? {
      if |headers| == 0 {
        return Err(MissingColumn(0));
      }
      codeCol := Some(0);
    }
    if descCol.None? {
      if |headers| < 2 {
        return Err(MissingColumn(1));
      }
      descCol := Some(1);
    }
    r := Ok(Columns(codeCol.value, descCol.value));
  }

  /**
   * "ICD-10 Code" is listed as a code candidate but keeps its space after
   * upper-casing, while a header key never contains one: no header can match it.
   */
  lemma SpacedCandidateNeverMatches(h: string)
    ensures HeaderKey(h) != Upper(CodeCandidates[2])
  {
    var key := HeaderKey(h);
    UpperKeepsSpaces(RemoveSpaces(h));
    assert Upper(CodeCandidates[2])[6] == ' ';
    if |key| == |Upper(CodeCandidates[2])| {
      assert key[6] != ' ';
    }
  }

  /** Hence dropping that candidate changes nothing for any sheet. */
  lemma SpacedCandidateIsDead(headers: seq<string>)
    ensures FirstMatch(headers, CodeCandidates)
         == FirstMatch(headers, CodeCandidates[..2] + CodeCandidates[3..])
    decreases |headers|
  {
    var live := CodeCandidates[..2] + CodeCandidates[3..];
    forall h ensures HeaderMatches(h, CodeCandidates) <==> HeaderMatches(h, live) {
      SpacedCandidateNeverMatches(h);
      if HeaderMatches(h, CodeCandidates) {
        var k :| 0 <= k < |CodeCandidates| && HeaderKey(h) == Upper(CodeCandidates[k]);
        assert k != 2;
        assert HeaderKey(h) == Upper(live[if k < 2 then k else k - 1]);
      }
      if HeaderMatches(h, live) {
        var k :| 0 <= k < |live| && HeaderKey(h) == Upper(live[k]);
        assert HeaderKey(h) == Upper(CodeCandidates[if k < 2 then k else k + 1]);
      }
    }
    if |headers| > 0 {
      SpacedCandidateIsDead(headers[..|headers| - 1]);
    }
  }

  /** `code.str[:3]` */
  function Category(code: string): (c: string)
    ensures |c| == (if |code| < 3 then |code| else 3) && StartsWith(code, c)
  {
    if |code| <= 3 then code else code[..3]
  }

  /** `code.str[0].str.upper()`: NaN for an empty code. */
  function ChapterLetter(code: string): (letter: Option<string>)
    ensures letter.None? <==> code == ""
    ensures letter.Some? ==> |letter.value| == 1 && Upper(letter.value) == letter.value
  {
    UpperIgnoresCase(if code == "" then "" else [code[0]]);
    if code == "" then None else Some(Upper([code[0]]))
  }

  /** The derived columns of one row, from its code and description cells. */
  function DeriveRow(code: string, desc: string): (r: Row)
    ensures r.code == code && r.desc == desc
    ensures r.search == Lower(code) + " " + Lower(desc)
    ensures StartsWith(r.search, Lower(code))
    ensures |r.category| == (if |code| < 3 then |code| else 3) && StartsWith(code, r.category)
    ensures code == "" <==> r.chapterLetter.None?
    ensures code != "" ==> r.chapterLetter == Some(Upper([code[0]]))
    ensures r.chapterName == MapChapter(r.chapterLetter)
    ensures code == "" ==> r.chapterName == Unknown
    ensures code != "" ==> r.chapterName == MapChapter(Some([code[0]]))
  {
    LowerConcat(code + " ", desc);
    LowerConcat(code, " ");
    StartsWithConcat(Lower(code), " " + Lower(desc), Lower(code));
    MapChapterIgnoresCase(if code == "" then "" else [code[0]]);
    var letter := ChapterLetter(code);
    Row(code, desc, Lower(code + " " + desc), Category(code), letter, MapChapter(letter))
  }

  /** A row whose derived columns agree with its code and description. */
  predicate WellFormed(r: Row) {
    r == DeriveRow(r.code, r.desc)
  }

  /**
   * `load_icd10` from the raw header row and the cell grid: clean the headers,
   * detect the columns, then derive every row's fields.
   */
  method LoadIcd10(rawHeaders: seq<string>, cells: seq<seq<string>>) returns (r: Result<Table, LoadError>)
    requires forall i :: 0 <= i < |cells| ==> |cells[i]| == |rawHeaders|
    ensures r.Err? <==> SelectColumns(CleanHeaders(rawHeaders)).Err?
    ensures r.Err? ==> r.error == SelectColumns(CleanHeaders(rawHeaders)).error
    ensures r.Ok? ==> r.value.headers == CleanHeaders(rawHeaders)
    ensures r.Ok? ==> r.value.columns == SelectColumns(CleanHeaders(rawHeaders)).value
    ensures r.Ok? ==> |r.value.rows| == |cells|
    ensures r.Ok? ==> forall i :: 0 <= i < |cells| ==>
              r.value.rows[i] == DeriveRow(cells[i][r.value.columns.code], cells[i][r.value.columns.desc])
    ensures r.Ok? ==> forall i :: 0 <= i < |cells| ==> WellFormed(r.value.rows[i])
  {
    var headers := CleanHeaders(rawHeaders);
    var detected := DetectColumns(headers);
    if detected.Err? {
      return Err(detected.error);
    }
    var cols := detected.value;
    var rows := seq(|cells|, i requires 0 <= i < |cells| => DeriveRow(cells[i][cols.code], cells[i][cols.desc]));
    r := Ok(Table(headers, cols, rows));
  }
}
