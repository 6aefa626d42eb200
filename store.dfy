/**
 * The shared data store of the site (src/contexts/DataContext.tsx): the student registry, the site
 * settings, the load-time settings migration and the JSON backup export/import.
 *
 * Local storage, JSON.stringify/JSON.parse and the clock are outside the model: a parsed JSON value
 * is an input (`Option<Parsed>`, None when parsing threw), `Date.now()` is the parameter `now`, and
 * what storage holds is mirrored in two ghost fields.
 */
module Store {
  import opened Wrappers
  import opened Seqs
  import opened Text

  /**
   * A student record. `status` is free text: the declared type allows 'passed', 'failed' and
   * 'pending', but a spreadsheet import stores whatever its status cell holds.
   */
  datatype Student = Student(id: string, name: string, nisn: string, className: string,
                             status: string, score: Option<int>)

  /** A student without its id (`Omit<Student, 'id'>`), as given to `addStudent`. */
  datatype NewStudent = NewStudent(name: string, nisn: string, className: string,
                                   status: string, score: Option<int>)

  function FieldsOf(s: Student): NewStudent {
    NewStudent(s.name, s.nisn, s.className, s.status, s.score)
  }

  /**
   * `Partial<Student>`: None leaves a field alone. The score has a third state, Some(None), for a
   * patch whose `score` property is present but `undefined`; spreading it clears the score.
   */
  datatype StudentPatch = StudentPatch(id: Option<string>, name: Option<string>, nisn: Option<string>,
                                       className: Option<string>, status: Option<string>,
                                       score: Option<Option<int>>)

  /** `{ ...s, ...p }`: every property present in the patch overrides, every other one is kept. */
  function ApplyPatch(s: Student, p: StudentPatch): (r: Student)
    ensures r.id == (if p.id.Some? then p.id.value else s.id)
    ensures r.name == (if p.name.Some? then p.name.value else s.name)
    ensures r.nisn == (if p.nisn.Some? then p.nisn.value else s.nisn)
    ensures r.className == (if p.className.Some? then p.className.value else s.className)
    ensures r.status == (if p.status.Some? then p.status.value else s.status)
    ensures r.score == (if p.score.Some? then p.score.value else s.score)
  {
    Student(p.id.GetOr(s.id), p.name.GetOr(s.name), p.nisn.GetOr(s.nisn),
            p.className.GetOr(s.className), p.status.GetOr(s.status), p.score.GetOr(s.score))
  }

  // ---------------------------------------------------------------------------------------------
  // Student registry

  /** `addStudent`: one new record at the end, carrying the given fields and the id `now`. */
  function WithStudentAdded(students: seq<Student>, s: NewStudent, now: nat): (r: seq<Student>)
    ensures |r| == |students| + 1 && r[..|students|] == students
    ensures r[|students|].id == NatToString(now) && FieldsOf(r[|students|]) == s
  {
    students + [Student(NatToString(now), s.name, s.nisn, s.className, s.status, s.score)]
  }

  /**
   * `updateStudent`: the same records in the same order, where every record carrying `id` (not just
   * the first) has the patch spread over it and every other record is untouched.
   */
  function WithStudentUpdated(students: seq<Student>, id: string, p: StudentPatch): (r: seq<Student>)
    ensures |r| == |students|
    ensures forall i :: 0 <= i < |r| && students[i].id != id ==> r[i] == students[i]
    ensures forall i :: 0 <= i < |r| && students[i].id == id ==> r[i] == ApplyPatch(students[i], p)
  {
    seq(|students|, i requires 0 <= i < |students| =>
      if students[i].id == id then ApplyPatch(students[i], p) else students[i])
  }

  /** The predicate `deleteStudent` filters by. */
  function KeepsOtherIds(id: string): Student -> bool {
    (s: Student) => s.id != id
  }

  /**
   * `deleteStudent`: every record carrying `id` is removed, every other one is kept, in order and
   * as often as it occurred.
   */
  function WithStudentDeleted(students: seq<Student>, id: string): (r: seq<Student>)
    ensures forall i :: 0 <= i < |r| ==> r[i].id != id
    ensures forall s :: s in r <==> s in students && s.id != id
    ensures forall s :: multiset(r)[s] == if s.id != id then multiset(students)[s] else 0
    ensures IsSubsequence(r, students)
  {
    FilterMultiset(students, KeepsOtherIds(id));
    FilterIsSubsequence(students, KeepsOtherIds(id));
    Filter(students, KeepsOtherIds(id))
  }

  /** Updating an id that no record carries changes nothing. */
  lemma UpdateAbsentId(students: seq<Student>, id: string, p: StudentPatch)
    requires forall i :: 0 <= i < |students| ==> students[i].id != id
    ensures WithStudentUpdated(students, id, p) == students
  {
  }

  /**
   * Applying the same patch twice equals applying it once. A patch that moves the records to another
   * id leaves none with `id`, so the second update changes nothing.
   */
  lemma UpdateIdempotent(students: seq<Student>, id: string, p: StudentPatch)
    ensures WithStudentUpdated(WithStudentUpdated(students, id, p), id, p)
         == WithStudentUpdated(students, id, p)
  {
  }

  /** Deleting an id that no record carries changes nothing. */
  lemma {:induction false} DeleteAbsentId(students: seq<Student>, id: string)
    requires forall i :: 0 <= i < |students| ==> students[i].id != id
    ensures WithStudentDeleted(students, id) == students
  {
    FilterKeepsAll(students, KeepsOtherIds(id));
  }

  /** Deleting twice equals deleting once. */
  lemma {:induction false} DeleteIdempotent(students: seq<Student>, id: string)
    ensures WithStudentDeleted(WithStudentDeleted(students, id), id) == WithStudentDeleted(students, id)
  {
    DeleteAbsentId(WithStudentDeleted(students, id), id);
  }

  /** Deleting the id just added, when it was fresh, gives back the registry as it was. */
  lemma {:induction false} DeleteUndoesAdd(students: seq<Student>, s: NewStudent, now: nat)
    requires forall i :: 0 <= i < |students| ==> students[i].id != NatToString(now)
    ensures WithStudentDeleted(WithStudentAdded(students, s, now), NatToString(now)) == students
  {
    var id := NatToString(now);
    var added := WithStudentAdded(students, s, now);
    assert added == students + [added[|students|]];
    FilterAppend(students, [added[|students|]], KeepsOtherIds(id));
    FilterKeepsAll(students, KeepsOtherIds(id));
  }

  // ---------------------------------------------------------------------------------------------
  // Settings

  /**
   * A settings object (`AppSettings`) as the store holds it. Every property is optional because the
   * object read back from storage or from a backup may lack any of them; None is "absent".
   */
  datatype Settings = Settings(schoolName: Option<string>, announcementDate: Option<string>,
                               showResults: Option<bool>, logoUrl: Option<string>,
                               schoolYear: Option<string>, additionalInfo: Option<string>)

  /** Every property present, as the declared type promises. */
  predicate Complete(s: Settings) {
    s.schoolName.Some? && s.announcementDate.Some? && s.showResults.Some? && s.logoUrl.Some?
    && s.schoolYear.Some? && s.additionalInfo.Some?
  }

  const DefaultSchoolName := "SMP REMAJA PLUIT"
  const DefaultLogoUrl := "https://via.placeholder.com/150"
  const DefaultSchoolYear := "2024/2025"
  const DefaultAdditionalInfo := "Untuk informasi lebih lanjut, silakan hubungi pihak sekolah melalui nomor telepon (021) 6620123 atau email info@remajapluit.sch.id."

  /** The hardcoded defaults; the announcement date (seven days after start-up) is a parameter. */
  function DefaultSettings(announcementDate: string): (d: Settings)
    ensures Complete(d) && Truthy(d.schoolYear) && Truthy(d.additionalInfo)
    ensures d.showResults == Some(false)
  {
    Settings(Some(DefaultSchoolName), Some(announcementDate), Some(false), Some(DefaultLogoUrl),
             Some(DefaultSchoolYear), Some(DefaultAdditionalInfo))
  }

  /** A property of a spread `{ ...current, ...patch }`. */
  function Overlay<T>(current: Option<T>, patch: Option<T>): Option<T> {
    if patch.Some? then patch else current
  }

  /** `updateSettings`: properties present in the patch take its values, the others keep theirs. */
  function MergedSettings(current: Settings, patch: Settings): (r: Settings)
    ensures patch.schoolName.Some? ==> r.schoolName == patch.schoolName
    ensures patch.schoolName.None? ==> r.schoolName == current.schoolName
    ensures patch.announcementDate.Some? ==> r.announcementDate == patch.announcementDate
    ensures patch.announcementDate.None? ==> r.announcementDate == current.announcementDate
    ensures patch.showResults.Some? ==> r.showResults == patch.showResults
    ensures patch.showResults.None? ==> r.showResults == current.showResults
    ensures patch.logoUrl.Some? ==> r.logoUrl == patch.logoUrl
    ensures patch.logoUrl.None? ==> r.logoUrl == current.logoUrl
    ensures patch.schoolYear.Some? ==> r.schoolYear == patch.schoolYear
    ensures patch.schoolYear.None? ==> r.schoolYear == current.schoolYear
    ensures patch.additionalInfo.Some? ==> r.additionalInfo == patch.additionalInfo
    ensures patch.additionalInfo.None? ==> r.additionalInfo == current.additionalInfo
    ensures Complete(current) ==> Complete(r)
  {
    Settings(Overlay(current.schoolName, patch.schoolName),
             Overlay(current.announcementDate, patch.announcementDate),
             Overlay(current.showResults, patch.showResults),
             Overlay(current.logoUrl, patch.logoUrl),
             Overlay(current.schoolYear, patch.schoolYear),
             Overlay(current.additionalInfo, patch.additionalInfo))
  }

  /** Applying the same settings patch twice equals applying it once. */
  lemma MergeIdempotent(current: Settings, patch: Settings)
    ensures MergedSettings(MergedSettings(current, patch), patch) == MergedSettings(current, patch)
  {
  }

  /**
   * The load-time migration: a falsy `schoolYear` or `additionalInfo` is replaced by its default;
   * every other property, present or not, is kept as it was stored.
   */
  function MigratedSettings(s: Settings): (r: Settings)
    ensures Truthy(r.schoolYear) && Truthy(r.additionalInfo)
    ensures Truthy(s.schoolYear) ==> r.schoolYear == s.schoolYear
    ensures !Truthy(s.schoolYear) ==> r.schoolYear == Some(DefaultSchoolYear)
    ensures Truthy(s.additionalInfo) ==> r.additionalInfo == s.additionalInfo
    ensures !Truthy(s.additionalInfo) ==> r.additionalInfo == Some(DefaultAdditionalInfo)
    ensures r.(schoolYear := s.schoolYear, additionalInfo := s.additionalInfo) == s
  {
    s.(schoolYear := Some(Or(s.schoolYear, DefaultSchoolYear)),
       additionalInfo := Some(Or(s.additionalInfo, DefaultAdditionalInfo)))
  }

  /** Migrating twice equals migrating once. */
  lemma MigrateIdempotent(s: Settings)
    ensures MigratedSettings(MigratedSettings(s)) == MigratedSettings(s)
  {
  }

  /** The migration changes a stored settings object exactly when one of its two newer fields is falsy. */
  lemma MigrateChangesOnlyOldShapes(s: Settings)
    ensures MigratedSettings(s) == s <==> Truthy(s.schoolYear) && Truthy(s.additionalInfo)
  {
  }

  /**
   * The settings half of `importData`: the backup's properties are spread over the current settings,
   * except that `schoolYear` and `additionalInfo` are the backup's value when truthy and otherwise
   * the hardcoded default, never the current value.
   */
  function ImportedSettings(current: Settings, incoming: Settings): (r: Settings)
    ensures r.schoolYear == Some(Or(incoming.schoolYear, DefaultSchoolYear))
    ensures r.additionalInfo == Some(Or(incoming.additionalInfo, DefaultAdditionalInfo))
    ensures r.(schoolYear := None, additionalInfo := None)
         == MergedSettings(current, incoming).(schoolYear := None, additionalInfo := None)
    ensures Complete(current) ==> Complete(r)
  {
    MergedSettings(current, incoming).(schoolYear := Some(Or(incoming.schoolYear, DefaultSchoolYear)),
                                       additionalInfo := Some(Or(incoming.additionalInfo, DefaultAdditionalInfo)))
  }

  /**
   * Importing is "spread, then migrate" exactly when the backup carries both newer fields; when it
   * omits `schoolYear` while the current one is set and differs from the default, the two differ.
   */
  lemma ImportVersusMigrate(current: Settings, incoming: Settings)
    ensures incoming.schoolYear.Some? && incoming.additionalInfo.Some? ==>
              ImportedSettings(current, incoming) == MigratedSettings(MergedSettings(current, incoming))
    ensures incoming.schoolYear.None? && Truthy(current.schoolYear) && current.schoolYear != Some(DefaultSchoolYear) ==>
              ImportedSettings(current, incoming) != MigratedSettings(MergedSettings(current, incoming))
  {
  }

  // ---------------------------------------------------------------------------------------------
  // Backup documents

  /**
   * The parts of a parsed backup the import looks at. `students` is None when the property is
   * absent, falsy or not an array; `settings` is None when it is absent or falsy.
   */
  datatype BackupDoc = BackupDoc(students: Option<seq<Student>>, settings: Option<Settings>)

  /**
   * The value `JSON.parse` returned: `null`, or anything else viewed through its two properties (a
   * number, string or array has neither).
   */
  datatype Parsed = Null | Value(doc: BackupDoc)

  /** Both collections the store owns. */
  datatype Snapshot = Snapshot(students: seq<Student>, settings: Settings)

  /** `exportData`, before stringification: the whole registry and the whole settings object. */
  function Exported(s: Snapshot): (r: BackupDoc)
    ensures r.students == Some(s.students) && r.settings == Some(s.settings)
  {
    BackupDoc(Some(s.students), Some(s.settings))
  }

  /**
   * `importData`: None (the call returns false and nothing changes) exactly when parsing failed or
   * produced `null`; otherwise the students are replaced when the backup holds an array (an empty one
   * too) and the settings are imported when the backup holds a settings object.
   */
  function Imported(current: Snapshot, parsed: Option<Parsed>): (r: Option<Snapshot>)
    ensures r.None? <==> parsed.None? || parsed.value.Null?
    ensures r.Some? && parsed.value.doc.students.None? ==> r.value.students == current.students
    ensures r.Some? && parsed.value.doc.students.Some? ==> r.value.students == parsed.value.doc.students.value
    ensures r.Some? && parsed.value.doc.settings.None? ==> r.value.settings == current.settings
    ensures r.Some? && parsed.value.doc.settings.Some? ==>
              r.value.settings == ImportedSettings(current.settings, parsed.value.doc.settings.value)
  {
    match parsed
    case None => None
    case Some(Null) => None
    case Some(Value(doc)) =>
      Some(Snapshot(doc.students.GetOr(current.students),
                    if doc.settings.Some? then ImportedSettings(current.settings, doc.settings.value)
                    else current.settings))
  }

  /**
   * Importing one's own export restores the students exactly, and the settings exactly when (and only
   * when) the current `schoolYear` and `additionalInfo` are non-empty.
   */
  lemma ExportImportRoundTrip(s: Snapshot)
    ensures Imported(s, Some(Value(Exported(s)))).Some?
    ensures Imported(s, Some(Value(Exported(s)))).value.students == s.students
    ensures Imported(s, Some(Value(Exported(s)))).value.settings == s.settings
            <==> Truthy(s.settings.schoolYear) && Truthy(s.settings.additionalInfo)
  {
  }

  // ---------------------------------------------------------------------------------------------
  // The provider's state

  /** The `DataProvider`: its two pieces of state and what local storage holds for them. */
  class DataStore {
    var students: seq<Student>
    var settings: Settings
    /** The `students` and `settings` entries of local storage (None: no entry). */
    ghost var storedStudents: Option<seq<Student>>
    ghost var storedSettings: Option<Settings>

    /** Every change is written back to storage. */
    ghost predicate Valid()
      reads this
    {
      storedStudents == Some(students) && storedSettings == Some(settings)
    }

    function Current(): Snapshot
      reads this
    {
      Snapshot(students, settings)
    }

    /**
     * Mounting the provider: the stored students if any, else none; the stored settings migrated,
     * or the defaults (which are then written) when nothing is stored.
     */
    constructor Load(savedStudents: Option<seq<Student>>, savedSettings: Option<Settings>,
                     defaultDate: string)
      ensures Valid()
      ensures students == savedStudents.GetOr([])
      ensures savedSettings.Some? ==> settings == MigratedSettings(savedSettings.value)
      ensures savedSettings.None? ==> settings == DefaultSettings(defaultDate)
      ensures savedSettings.None? ==> storedSettings == Some(DefaultSettings(defaultDate))
    {
      students := savedStudents.GetOr([]);
      if savedSettings.Some? {
        settings := MigratedSettings(savedSettings.value);
      } else {
        settings := DefaultSettings(defaultDate);
      }
      storedStudents := Some(students);
      storedSettings := Some(settings);
    }

    method AddStudent(s: NewStudent, now: nat)
      requires Valid()
      modifies this
      ensures Valid() && settings == old(settings)
      ensures students == WithStudentAdded(old(students), s, now)
    {
      students := WithStudentAdded(students, s, now);
      storedStudents := Some(students);
    }

    method UpdateStudent(id: string, p: StudentPatch)
      requires Valid()
      modifies this
      ensures Valid() && settings == old(settings)
      ensures students == WithStudentUpdated(old(students), id, p)
    {
      students := WithStudentUpdated(students, id, p);
      storedStudents := Some(students);
    }

    method DeleteStudent(id: string)
      requires Valid()
      modifies this
      ensures Valid() && settings == old(settings)
      ensures students == WithStudentDeleted(old(students), id)
    {
      students := WithStudentDeleted(students, id);
      storedStudents := Some(students);
    }

    method SetAllStudents(newStudents: seq<Student>)
      requires Valid()
      modifies this
      ensures Valid() && settings == old(settings)
      ensures students == newStudents
    {
      students := newStudents;
      storedStudents := Some(students);
    }

    method UpdateSettings(patch: Settings)
      requires Valid()
      modifies this
      ensures Valid() && students == old(students)
      ensures settings == MergedSettings(old(settings), patch)
    {
      settings := MergedSettings(settings, patch);
      storedSettings := Some(settings);
    }

    method ExportData() returns (doc: BackupDoc)
      ensures doc.students == Some(students) && doc.settings == Some(settings)
    {
      doc := Exported(Current());
    }

    method ImportData(parsed: Option<Parsed>) returns (ok: bool)
      requires Valid()
      modifies this
      ensures Valid()
      ensures ok <==> Imported(old(Current()), parsed).Some?
      ensures Current() == Imported(old(Current()), parsed).GetOr(old(Current()))
    {
      var next := Imported(Current(), parsed);
      ok := next.Some?;
      if ok {
        students, settings := next.value.students, next.value.settings;
        storedStudents, storedSettings := Some(students), Some(settings);
      }
    }
  }
}
