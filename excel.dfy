/**
 * The row mapping of the spreadsheet import (src/utils/excelUtils.ts): each row the spreadsheet
 * library yields becomes one student record. Reading the file and decoding the workbook are outside
 * the model; the rows and the clock readings (`Date.now()` is read anew for each row) are inputs.
 */
module Excel {
  import opened Wrappers
  import opened Text
  import opened Store

  /** A cell value: text or an integer number. */
  datatype Cell = TextCell(text: string) | NumberCell(number: int)

  /**
   * One spreadsheet row, by column name; None is an empty or missing cell. Each field except `nisn`
   * has an internal and an Indonesian column spelling (`nama`, `kelas`, `nilai`).
   */
  datatype Row = Row(id: Option<string>, name: Option<string>, nama: Option<string>,
                     nisn: Option<Cell>, className: Option<string>, kelas: Option<string>,
                     status: Option<string>, score: Option<int>, nilai: Option<int>)

  /** `value.toString()`. */
  function CellToString(c: Cell): string {
    match c
    case TextCell(t) => t
    case NumberCell(n) => IntToString(n)
  }

  /** JavaScript's truthiness of an optional number. */
  predicate TruthyNumber(o: Option<int>) {
    o.Some? && o.value != 0
  }

  /** The id a row without one receives: the timestamp followed by the row index. */
  function GeneratedId(now: nat, index: nat): (r: string)
    ensures |r| == |NatToString(now)| + |NatToString(index)|
    ensures r[..|NatToString(now)|] == NatToString(now) && r[|NatToString(now)|..] == NatToString(index)
    ensures forall i :: 0 <= i < |r| ==> '0' <= r[i] <= '9'
  {
    NatToString(now) + NatToString(index)
  }

  /** The record built from the row at position `index`, with `now` the clock reading taken for it. */
  function RowToStudent(row: Row, index: nat, now: nat): (r: Student)
    ensures r.id != ""
    ensures Truthy(row.id) ==> r.id == row.id.value
    ensures !Truthy(row.id) ==> r.id == GeneratedId(now, index)
    ensures r.name == (if Truthy(row.name) then row.name.value
                       else if Truthy(row.nama) then row.nama.value else "")
    ensures r.className == (if Truthy(row.className) then row.className.value
                            else if Truthy(row.kelas) then row.kelas.value else "")
    ensures row.nisn.None? ==> r.nisn == ""
    ensures row.nisn.Some? && row.nisn.value.TextCell? ==> r.nisn == row.nisn.value.text
    ensures row.nisn.Some? && row.nisn.value.NumberCell? ==> r.nisn == IntToString(row.nisn.value.number) != ""
    ensures r.status != ""
    ensures Truthy(row.status) ==> r.status == row.status.value
    ensures !Truthy(row.status) ==> r.status == "pending"
    ensures TruthyNumber(row.score) ==> r.score == row.score
    ensures !TruthyNumber(row.score) ==> r.score == row.nilai
  {
    Student(Or(row.id, GeneratedId(now, index)),
            Or(row.name, Or(row.nama, "")),
            if row.nisn.Some? then CellToString(row.nisn.value) else "",
            Or(row.className, Or(row.kelas, "")),
            Or(row.status, "pending"),
            if TruthyNumber(row.score) then row.score else row.nilai)
  }

  /** `jsonData.map(...)`: one record per row, in row order; `nows[i]` is the clock reading for row `i`. */
  function RowsToStudents(rows: seq<Row>, nows: seq<nat>): (r: seq<Student>)
    requires |nows| == |rows|
    ensures |r| == |rows|
    ensures forall i :: 0 <= i < |rows| ==> r[i] == RowToStudent(rows[i], i, nows[i])
  {
    seq(|rows|, i requires 0 <= i < |rows| => RowToStudent(rows[i], i, nows[i]))
  }

  /**
   * Ids generated for two different rows differ as long as the clock did not go backwards between
   * them: equal ids would need equally long timestamps, hence equal timestamps and equal indices.
   */
  lemma {:induction false} GeneratedIdsDistinct(now1: nat, i: nat, now2: nat, j: nat)
    requires i < j && now1 <= now2
    ensures GeneratedId(now1, i) != GeneratedId(now2, j)
  {
    var p, q := NatToString(now1), NatToString(now2);
    if GeneratedId(now1, i) == GeneratedId(now2, j) {
      NatToStringLengthMonotone(now1, now2);
      NatToStringLengthMonotone(i, j);
      assert |p| == |q|;
      assert NatToString(i) == GeneratedId(now1, i)[|p|..] == GeneratedId(now2, j)[|q|..] == NatToString(j);
      NatToStringInjective(i, j);
    }
  }

  /** Two rows of one import that both lack an id get different ids, given a clock that never goes back. */
  lemma ImportedIdsDistinct(rows: seq<Row>, nows: seq<nat>, i: nat, j: nat)
    requires |nows| == |rows|
    requires forall a, b :: 0 <= a < b < |nows| ==> nows[a] <= nows[b]
    requires i < |rows| && j < |rows| && i != j
    requires !Truthy(rows[i].id) && !Truthy(rows[j].id)
    ensures RowsToStudents(rows, nows)[i].id != RowsToStudents(rows, nows)[j].id
  {
    if i < j {
      GeneratedIdsDistinct(nows[i], i, nows[j], j);
    } else {
      GeneratedIdsDistinct(nows[j], j, nows[i], i);
    }
  }

  /** An explicit id can collide with a generated one: an id-less row 0 read at time 1 gets "10". */
  lemma ExplicitIdMayCollide()
    ensures var rows := [Row(None, None, None, None, None, None, None, None, None),
                         Row(Some("10"), None, None, None, None, None, None, None, None)];
            RowsToStudents(rows, [1, 1])[0].id == RowsToStudents(rows, [1, 1])[1].id
  {
    assert NatToString(1) == "1" && NatToString(0) == "0";
  }
}
