/**
 * The admin dashboard's figures (src/pages/DashboardPage.tsx): per-status counts over the registry,
 * the divisor of the percentage labels, and the "Siswa Terbaru" table.
 */
module Dashboard {
  import opened Seqs
  import opened Store

  function WithStatus(status: string): Student -> bool {
    (s: Student) => s.status == status
  }

  /** `students.filter(s => s.status === status).length`. */
  function CountStatus(students: seq<Student>, status: string): (n: nat)
    ensures n <= |students|
    ensures n == 0 <==> forall i :: 0 <= i < |students| ==> students[i].status != status
  {
    var kept := Filter(students, WithStatus(status));
    assert kept != [] ==> kept[0] in kept;
    assert forall i :: 0 <= i < |students| && students[i].status == status ==> students[i] in kept;
    |kept|
  }

  /** The statuses of the registry, in order. */
  function Statuses(students: seq<Student>): seq<string> {
    seq(|students|, i requires 0 <= i < |students| => students[i].status)
  }

  /** Each count is the number of records with that status. */
  lemma {:induction false} CountIsMultiplicity(students: seq<Student>, status: string)
    ensures CountStatus(students, status) == multiset(Statuses(students))[status]
    decreases |students|
  {
    if students != [] {
      CountIsMultiplicity(students[1..], status);
      assert Statuses(students) == [students[0].status] + Statuses(students[1..]);
    }
  }

  /** One of the three statuses the declared type allows. */
  predicate KnownStatus(status: string) {
    status == "passed" || status == "failed" || status == "pending"
  }

  /** When every status is one of the three, the three counts add up to the total. */
  lemma {:induction false} CountsAddUp(students: seq<Student>)
    requires forall i :: 0 <= i < |students| ==> KnownStatus(students[i].status)
    ensures CountStatus(students, "passed") + CountStatus(students, "failed")
            + CountStatus(students, "pending") == |students|
    decreases |students|
  {
    if students != [] {
      CountsAddUp(students[1..]);
    }
  }

  /** `students.length || 1`: the divisor of the percentage labels, never zero. */
  function PercentDivisor(total: nat): (d: nat)
    ensures d >= 1
    ensures total > 0 ==> d == total
  {
    if total == 0 then 1 else total
  }

  /** `students.slice(0, 5)`: the first five records in stored order, i.e. the oldest ones. */
  function Recent(students: seq<Student>): (r: seq<Student>)
    ensures |r| == if |students| < 5 then |students| else 5
    ensures r == students[..|r|]
  {
    if |students| < 5 then students else students[..5]
  }

  /** Once five records exist, adding one does not change the table. */
  lemma RecentIgnoresNewRecords(students: seq<Student>, s: NewStudent, now: nat)
    requires |students| >= 5
    ensures Recent(WithStudentAdded(students, s, now)) == Recent(students)
  {
  }
}
