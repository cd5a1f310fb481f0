/**
 * The fixed first-letter-to-chapter table of ICD-10 (`map_chapter`) and its
 * two fallbacks: "Unknown" for a missing or empty letter and
 * "Unmapped Chapter" for a letter the table does not list.
 */
module Chapters {
  import opened Wrappers
  import opened Text

  const Unknown: string := "Unknown"
  const Unmapped: string := "Unmapped Chapter"

  const Infectious: string := "Infectious & Parasitic Diseases"
  const Injury: string := "Injury, Poisoning & Certain Other Consequences"
  const ExternalCauses: string := "External Causes of Morbidity"

  /** Upper-case letter -> chapter name. "U" is deliberately absent. */
  const ChapterTable: map<string, string> := map[
    "A" := Infectious,
    "B" := Infectious,
    "C" := "Neoplasms",
    "D" := "Blood Disorders / Neoplasms",
    "E" := "Endocrine & Metabolic",
    "F" := "Mental & Behavioural Disorders",
    "G" := "Nervous System",
    "H" := "Eye / Ear Disorders",
    "I" := "Cardiovascular (Heart & Vessels)",
    "J" := "Respiratory System",
    "K" := "Digestive System",
    "L" := "Skin & Subcutaneous Tissue",
    "M" := "Musculoskeletal System",
    "N" := "Genitourinary System",
    "O" := "Pregnancy, Childbirth & Puerperium",
    "P" := "Perinatal Conditions",
    "Q" := "Congenital Malformations",
    "R" := "Symptoms, Signs & Abnormal Findings",
    "S" := Injury,
    "T" := Injury,
    "V" := ExternalCauses,
    "W" := ExternalCauses,
    "X" := ExternalCauses,
    "Y" := ExternalCauses,
    "Z" := "Factors Influencing Health Status"
  ]

  /** No chapter in the table is called like one of the two fallbacks. */
  lemma TableAvoidsFallbacks()
    ensures Unknown !in ChapterTable.Values && Unmapped !in ChapterTable.Values
  {
  }

  /**
   * `map_chapter(letter)`. `None` stands for a value that is not a string
   * (pandas' NaN from `code.str[0]` on an empty code).
   */
  function MapChapter(letter: Option<string>): (name: string)
    ensures name == Unknown <==> letter.None? || letter.value == ""
    ensures name == Unmapped <==> letter.Some? && letter.value != "" && Upper(letter.value) !in ChapterTable
    ensures letter.Some? && Upper(letter.value) in ChapterTable ==> name == ChapterTable[Upper(letter.value)]
  {
    TableAvoidsFallbacks();
    match letter
    case None => Unknown
    case Some(s) =>
      if s == "" then Unknown
      else
        var l := Upper(s);
        if l in ChapterTable then ChapterTable[l] else Unmapped
  }

  /** The lookup ignores letter case: "e", "E" and any mix map alike. */
  lemma {:induction false} MapChapterIgnoresCase(s: string)
    ensures MapChapter(Some(s)) == MapChapter(Some(Upper(s)))
    ensures MapChapter(Some(s)) == MapChapter(Some(Lower(s)))
  {
    UpperIgnoresCase(s);
    assert s == "" <==> Upper(s) == "";
    assert s == "" <==> Lower(s) == "";
  }

  /** Every answer is a fallback or a chapter of the table. */
  lemma MapChapterRange(letter: Option<string>)
    ensures MapChapter(letter) in {Unknown, Unmapped} + ChapterTable.Values
  {
  }

  /** An upper-case letter of the table maps to its own table entry. */
  lemma TableLetter(c: char)
    requires 'A' <= c <= 'Z' && [c] in ChapterTable
    ensures MapChapter(Some([c])) == ChapterTable[[c]]
  {
    assert Upper([c]) == [c];
  }

  /** A and B share the infectious chapter. */
  lemma InfectiousShared()
    ensures MapChapter(Some("A")) == MapChapter(Some("B")) == Infectious
  {
    TableLetter('A');
    TableLetter('B');
  }

  /** S and T share the injury chapter. */
  lemma InjuryShared()
    ensures MapChapter(Some("S")) == MapChapter(Some("T")) == Injury
  {
    TableLetter('S');
    TableLetter('T');
  }

  /** V, W, X and Y share the external-causes chapter. */
  lemma ExternalCausesShared()
    ensures MapChapter(Some("V")) == MapChapter(Some("W")) == MapChapter(Some("X"))
         == MapChapter(Some("Y")) == ExternalCauses
  {
    TableLetter('V');
    TableLetter('W');
    TableLetter('X');
    TableLetter('Y');
  }

  /** "U" (which ICD-10 reserves) and any longer text fall through to "Unmapped Chapter". */
  lemma UnlistedLetters()
    ensures MapChapter(Some("U")) == Unmapped
    ensures MapChapter(Some("u")) == Unmapped
    ensures MapChapter(Some("E1")) == Unmapped
  {
    assert Upper("U") == "U" && Upper("u") == "U" && Upper("E1") == "E1";
  }

  /** A chapter name belongs to the infectious chapter exactly for the letters A and B. */
  lemma InfectiousLetters(s: string)
    ensures MapChapter(Some(s)) == Infectious <==> Upper(s) == "A" || Upper(s) == "B"
  {
  }
}
