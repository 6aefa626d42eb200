/**
 * The public result lookup (src/components/StudentSearchForm.tsx): a visitor enters a NISN, the
 * form looks the student up in the registry, and the result panel reveals status and score only
 * when the site settings allow it.
 */
module Search {
  import opened Wrappers
  import opened Seqs
  import opened Text
  import opened Store

  const BlankInputError := "Silakan masukkan NISN"
  const NotFoundError := "Data siswa tidak ditemukan"

  const Withheld := "Hasil belum dapat ditampilkan"
  const Passed := "LULUS"
  const Failed := "TIDAK LULUS"
  const InProgress := "Sedang diproses"

  function HasNisn(key: string): Student -> bool {
    (s: Student) => s.nisn == key
  }

  /** `students.find(s => s.nisn === key)`: the first record, in registry order, whose NISN is exactly `key`. */
  function FindByNisn(students: seq<Student>, key: string): (r: Option<Student>)
    ensures r.Some? ==> r.value.nisn == key && r.value in students
  {
    match FindFirst(students, HasNisn(key))
    case None => None
    case Some(k) => Some(students[k])
  }

  /**
   * A found record is the first in registry order with that NISN, and nothing is found exactly when
   * no record has it.
   */
  lemma FindByNisnIsFirstMatch(students: seq<Student>, key: string)
    ensures FindByNisn(students, key).Some? ==>
              exists i :: 0 <= i < |students| && students[i] == FindByNisn(students, key).value
                          && forall j :: 0 <= j < i ==> students[j].nisn != key
    ensures FindByNisn(students, key).None? <==> forall i :: 0 <= i < |students| ==> students[i].nisn != key
  {
    var k := FindFirst(students, HasNisn(key));
    if k.Some? {
      assert students[k.value] == FindByNisn(students, key).value;
    }
  }

  /**
   * `renderStatus`: while results are hidden every status reads as withheld; once shown, 'passed'
   * and 'failed' read as such and anything else as still in progress.
   */
  function StatusText(showResults: Option<bool>, status: string): (r: string)
    ensures showResults != Some(true) ==> r == Withheld
    ensures showResults == Some(true) ==> (r == Passed <==> status == "passed")
    ensures showResults == Some(true) ==> (r == Failed <==> status == "failed")
    ensures showResults == Some(true) ==> (r == InProgress <==> status != "passed" && status != "failed")
  {
    if showResults != Some(true) then Withheld
    else if status == "passed" then Passed
    else if status == "failed" then Failed
    else InProgress
  }

  /**
   * What the score slot of the result panel renders: nothing, the bare number 0 (the value of a
   * `&&` chain stopped by a zero score, which React prints), or the labelled score line.
   */
  datatype ScoreView = NoScore | BareZero | ScoreLine(score: int)

  /** `settings.showResults && searchResult.score && (...)`, as React renders it. */
  function ShownScore(showResults: Option<bool>, score: Option<int>): (r: ScoreView)
    ensures r.ScoreLine? <==> showResults == Some(true) && score.Some? && score.value != 0
    ensures r.ScoreLine? ==> r.score == score.value
    ensures r.BareZero? <==> showResults == Some(true) && score == Some(0)
  {
    if showResults != Some(true) || score.None? then NoScore
    else if score.value == 0 then BareZero
    else ScoreLine(score.value)
  }

  /** The search form's state. */
  class SearchForm {
    var nisn: string
    var searchResult: Option<Student>
    var error: string
    var hasSearched: bool

    /** After any search, a missing result always comes with an error message. */
    ghost predicate Valid()
      reads this
    {
      hasSearched && searchResult.None? ==> error != ""
    }

    /** Whether the "Data Tidak Ditemukan" panel renders. */
    function NotFoundPanelShown(): (r: bool)
      reads this
      ensures r ==> !Valid()
    {
      hasSearched && searchResult.None? && error == ""
    }

    constructor()
      ensures Valid() && !NotFoundPanelShown()
      ensures nisn == "" && searchResult.None? && error == "" && !hasSearched
    {
      nisn, searchResult, error, hasSearched := "", None, "", false;
    }

    /** Typing into the input. */
    method SetNisn(text: string)
      requires Valid()
      modifies this`nisn
      ensures Valid() && nisn == text
    {
      nisn := text;
    }

    /**
     * `handleSearch`: blank input only sets an error; otherwise the result, the error and the
     * searched flag are all set from the lookup of the trimmed input.
     */
    method HandleSearch(students: seq<Student>)
      requires Valid()
      modifies this
      ensures Valid() && !NotFoundPanelShown()
      ensures nisn == old(nisn)
      ensures Trim(nisn) == "" ==> error == BlankInputError && searchResult == old(searchResult)
                                   && hasSearched == old(hasSearched)
      ensures Trim(nisn) != "" ==> hasSearched && searchResult == FindByNisn(students, Trim(nisn))
      ensures Trim(nisn) != "" ==> error == (if searchResult.Some? then "" else NotFoundError)
    {
      var key := Trim(nisn);
      if key == "" {
        error := BlankInputError;
        return;
      }
      var result := FindByNisn(students, key);
      searchResult := result;
      error := if result.Some? then "" else NotFoundError;
      hasSearched := true;
    }
  }

  /**
   * With results hidden, the panel for any registered student shows neither status nor score,
   * whatever the stored status.
   */
  lemma {:induction false} HiddenResultsRevealNothing(students: seq<Student>, key: string, settings: Settings)
    requires settings.showResults != Some(true)
    requires FindByNisn(students, key).Some?
    ensures StatusText(settings.showResults, FindByNisn(students, key).value.status) == Withheld
    ensures ShownScore(settings.showResults, FindByNisn(students, key).value.score) == NoScore
  {
  }

  /**
   * A registry walk-through: add a student to an empty registry, find them by NISN, update their
   * status and score, find the update, delete them, find nothing.
   */
  lemma {:induction false} RegistryScenario(now: nat)
    ensures var id := NatToString(now);
            var s1 := WithStudentAdded([], NewStudent("Ana", "001", "9A", "pending", None), now);
            var s2 := WithStudentUpdated(s1, id, StudentPatch(None, None, None, None, Some("passed"), Some(Some(88))));
            var s3 := WithStudentDeleted(s2, id);
            id != ""
            && FindByNisn(s1, "001") == Some(Student(id, "Ana", "001", "9A", "pending", None))
            && FindByNisn(s2, "001") == Some(Student(id, "Ana", "001", "9A", "passed", Some(88)))
            && FindByNisn(s3, "001") == None
  {
    var id := NatToString(now);
    var s1 := WithStudentAdded([], NewStudent("Ana", "001", "9A", "pending", None), now);
    assert s1 == [Student(id, "Ana", "001", "9A", "pending", None)];
    var s2 := WithStudentUpdated(s1, id, StudentPatch(None, None, None, None, Some("passed"), Some(Some(88))));
    assert s2 == [Student(id, "Ana", "001", "9A", "passed", Some(88))];
    var s3 := WithStudentDeleted(s2, id);
    assert s3 == [];
  }
}
