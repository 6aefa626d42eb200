/**
 * The admin student list (src/pages/StudentsPage.tsx): the filtered and searched view of the
 * registry, and the add/edit form that writes to the store.
 */
module StudentsPage {
  import opened Wrappers
  import opened Seqs
  import opened Text
  import opened Store
  import Excel

  /** The status filter: 'all' keeps everything, any other value keeps exactly that status. */
  function StatusFilter(filter: string): (r: Student -> bool)
    ensures filter == "all" ==> forall s :: r(s)
    ensures filter != "all" ==> forall s :: r(s) <==> s.status == filter
  {
    (s: Student) => filter == "all" || s.status == filter
  }

  /** The search: the lower-cased term occurs in the lower-cased name, NISN or class. */
  function MatchesSearch(s: Student, term: string): (r: bool)
    ensures term == "" ==> r
  {
    var t := Lower(term);
    assert term == "" ==> t == "";
    Contains(Lower(s.name), t) || Contains(Lower(s.nisn), t) || Contains(Lower(s.className), t)
  }

  function SearchFilter(term: string): Student -> bool {
    (s: Student) => MatchesSearch(s, term)
  }

  /**
   * `filteredStudents`: the records passing both the status filter and the search, in registry
   * order, each as often as it is registered.
   */
  function FilteredStudents(students: seq<Student>, filter: string, term: string): (r: seq<Student>)
    ensures IsSubsequence(r, students)
    ensures forall s :: s in r <==> s in students && StatusFilter(filter)(s) && SearchFilter(term)(s)
    ensures forall s :: multiset(r)[s] ==
              if StatusFilter(filter)(s) && SearchFilter(term)(s) then multiset(students)[s] else 0
  {
    var p, q := StatusFilter(filter), SearchFilter(term);
    FilterFilter(students, p, q);
    FilterIsSubsequence(students, Both(p, q));
    FilterMultiset(students, Both(p, q));
    Filter(Filter(students, p), q)
  }

  /**
   * A record matches exactly when the lower-cased term occurs, at some position, in its lower-cased
   * name, NISN or class.
   */
  lemma MatchesSearchIffOccurs(s: Student, term: string)
    ensures MatchesSearch(s, term) <==>
              ((exists k: nat :: OccursAt(Lower(s.name), Lower(term), k))
               || (exists k: nat :: OccursAt(Lower(s.nisn), Lower(term), k))
               || (exists k: nat :: OccursAt(Lower(s.className), Lower(term), k)))
  {
    ContainsIffOccurs(Lower(s.name), Lower(term));
    ContainsIffOccurs(Lower(s.nisn), Lower(term));
    ContainsIffOccurs(Lower(s.className), Lower(term));
  }

  /** The search ignores the case of the term: lower-casing it first changes nothing. */
  lemma SearchIgnoresTermCase(s: Student, term: string)
    ensures MatchesSearch(s, Lower(term)) == MatchesSearch(s, term)
  {
    assert Lower(Lower(term)) == Lower(term);
  }

  /** With filter 'all' and an empty search term, the list shows the whole registry. */
  lemma {:induction false} NoFilterShowsAll(students: seq<Student>)
    ensures FilteredStudents(students, "all", "") == students
  {
    FilterKeepsAll(students, StatusFilter("all"));
    assert forall i :: 0 <= i < |students| ==> SearchFilter("")(students[i]);
    FilterKeepsAll(students, SearchFilter(""));
  }

  /** The add/edit form; every field is the text of its input. */
  datatype Form = Form(name: string, nisn: string, className: string, status: string, score: string)

  const EmptyForm := Form("", "", "", "pending", "")

  /**
   * The record data `handleSubmit` builds. `number` is `Number(form.score)`, supplied by the caller;
   * an empty score input gives no score.
   */
  function SubmittedData(form: Form, number: int): (r: NewStudent)
    ensures r.score.None? <==> form.score == ""
    ensures r.score.Some? ==> r.score.value == number
    ensures r.name == form.name && r.nisn == form.nisn && r.className == form.className
    ensures r.status == form.status
  {
    NewStudent(form.name, form.nisn, form.className, form.status,
               if form.score != "" then Some(number) else None)
  }

  /**
   * The same data as an update: all five properties present (a missing score as an explicit
   * `undefined`), so the patched record carries exactly this data and keeps its id.
   */
  function AsPatch(d: NewStudent): (p: StudentPatch)
    ensures forall s :: FieldsOf(ApplyPatch(s, p)) == d && ApplyPatch(s, p).id == s.id
  {
    StudentPatch(None, Some(d.name), Some(d.nisn), Some(d.className), Some(d.status), Some(d.score))
  }

  /** `handleEdit`'s form: the record's text fields verbatim, the score as text or empty when absent. */
  function EditForm(s: Student): (f: Form)
    ensures f.name == s.name && f.nisn == s.nisn && f.className == s.className && f.status == s.status
    ensures f.score == "" <==> s.score.None?
    ensures s.score.Some? ==> f.score == IntToString(s.score.value)
  {
    Form(s.name, s.nisn, s.className, s.status,
         if s.score.Some? then IntToString(s.score.value) else "")
  }

  /**
   * Editing a record and submitting the form unchanged writes the record back as it was, provided
   * the score text reads back as the same number.
   */
  lemma EditSubmitRoundTrip(s: Student, number: int)
    requires s.score.Some? ==> number == s.score.value
    ensures ApplyPatch(s, AsPatch(SubmittedData(EditForm(s), number))) == s
  {
    var p := AsPatch(SubmittedData(EditForm(s), number));
    assert FieldsOf(ApplyPatch(s, p)) == SubmittedData(EditForm(s), number);
  }

  /** The page's state; `store` is the shared data store. */
  class StudentsPageState {
    const store: DataStore
    var searchTerm: string
    var filter: string
    var showAddForm: bool
    var editingStudent: Option<Student>
    var form: Form

    constructor(store: DataStore)
      ensures this.store == store
      ensures searchTerm == "" && filter == "all" && !showAddForm && editingStudent.None? && form == EmptyForm
    {
      this.store := store;
      searchTerm, filter, showAddForm, editingStudent, form := "", "all", false, None, EmptyForm;
    }

    /** The rows the table shows. */
    function Shown(): seq<Student>
      reads this, store
    {
      FilteredStudents(store.students, filter, searchTerm)
    }

    /** `resetForm`: empty inputs, status 'pending', no record being edited. */
    method ResetForm()
      modifies this
      ensures form == EmptyForm && editingStudent.None?
      ensures showAddForm == old(showAddForm) && searchTerm == old(searchTerm) && filter == old(filter)
    {
      form := EmptyForm;
      editingStudent := None;
    }

    /** The "add" button: a fresh form, shown. */
    method OpenAddForm()
      modifies this
      ensures form == EmptyForm && editingStudent.None? && showAddForm
      ensures searchTerm == old(searchTerm) && filter == old(filter)
    {
      ResetForm();
      showAddForm := true;
    }

    /** The "cancel" button: a fresh form, hidden. */
    method CancelForm()
      modifies this
      ensures form == EmptyForm && editingStudent.None? && !showAddForm
      ensures searchTerm == old(searchTerm) && filter == old(filter)
    {
      ResetForm();
      showAddForm := false;
    }

    /**
     * `handleSubmit`: updates the record being edited with all five fields, or adds a new record;
     * then resets and hides the form. `now` is the clock reading, `number` is `Number(form.score)`.
     */
    method HandleSubmit(now: nat, number: int)
      requires store.Valid()
      modifies this, store
      ensures store.Valid() && store.settings == old(store.settings)
      ensures old(editingStudent).Some? ==>
                store.students == WithStudentUpdated(old(store.students), old(editingStudent).value.id,
                                                     AsPatch(SubmittedData(old(form), number)))
      ensures old(editingStudent).None? ==>
                store.students == WithStudentAdded(old(store.students), SubmittedData(old(form), number), now)
      ensures form == EmptyForm && editingStudent.None? && !showAddForm
      ensures searchTerm == old(searchTerm) && filter == old(filter)
    {
      var data := SubmittedData(form, number);
      if editingStudent.Some? {
        store.UpdateStudent(editingStudent.value.id, AsPatch(data));
      } else {
        store.AddStudent(data, now);
      }
      ResetForm();
      showAddForm := false;
    }

    /** `handleEdit`: remembers the record, fills the form from it and shows the form. */
    method HandleEdit(s: Student)
      modifies this
      ensures editingStudent == Some(s) && form == EditForm(s) && showAddForm
      ensures searchTerm == old(searchTerm) && filter == old(filter)
    {
      editingStudent := Some(s);
      form := EditForm(s);
      showAddForm := true;
    }

    /** `handleDelete`: deletes the record when the user confirms. */
    method HandleDelete(id: string, confirmed: bool)
      requires store.Valid()
      modifies store
      ensures store.Valid() && store.settings == old(store.settings)
      ensures store.students == if confirmed then WithStudentDeleted(old(store.students), id) else old(store.students)
    {
      if confirmed {
        store.DeleteStudent(id);
      }
    }

    /**
     * `handleImport`: the rows of the spreadsheet (None when the file could not be read) replace
     * the whole registry when the user confirms; `nows` holds the clock reading taken for each row.
     */
    method HandleImport(rows: Option<seq<Excel.Row>>, nows: seq<nat>, confirmed: bool)
      requires store.Valid()
      requires rows.Some? ==> |nows| == |rows.value|
      modifies store
      ensures store.Valid() && store.settings == old(store.settings)
      ensures store.students == if rows.Some? && confirmed then Excel.RowsToStudents(rows.value, nows)
                                else old(store.students)
    {
      if rows.Some? && confirmed {
        store.SetAllStudents(Excel.RowsToStudents(rows.value, nows));
      }
    }
  }
}
