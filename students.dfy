/**
  The data both back ends share: the `students` table, the two statements that
  write it (with the store's own unique constraints on `studentId` and `email`),
  and the shape of the JSON responses.
*/
module Students {

  datatype Option<T> = None | Some(value: T)

  /** One row of `students`: the seven columns, all strings. */
  datatype Record = Record(
    studentId: string,
    firstName: string,
    lastName: string,
    email: string,
    birthDate: string,
    enrollmentDate: string,
    program: string)

  /** The six non-key columns, as an UPDATE statement sets them. */
  datatype Columns = Columns(
    firstName: string,
    lastName: string,
    email: string,
    birthDate: string,
    enrollmentDate: string,
    program: string)

  /** A row with its six non-key columns overwritten. */
  function WithColumns(row: Record, cols: Columns): (r: Record)
    ensures r.studentId == row.studentId
    ensures r.firstName == cols.firstName && r.lastName == cols.lastName && r.email == cols.email
    ensures r.birthDate == cols.birthDate && r.enrollmentDate == cols.enrollmentDate && r.program == cols.program
  {
    row.(firstName := cols.firstName, lastName := cols.lastName, email := cols.email,
         birthDate := cols.birthDate, enrollmentDate := cols.enrollmentDate, program := cols.program)
  }

  /** A decoded JSON object of string fields; a key that is absent is a field the client left out. */
  type Fields = map<string, string>

  /** The value of a field, or "" when it is absent. */
  function FieldOr(f: Fields, key: string): string {
    if key in f then f[key] else ""
  }

  /** The row a create request asks for. */
  function RecordFrom(f: Fields): Record {
    Record(FieldOr(f, "studentId"), FieldOr(f, "firstName"), FieldOr(f, "lastName"), FieldOr(f, "email"),
           FieldOr(f, "birthDate"), FieldOr(f, "enrollmentDate"), FieldOr(f, "program"))
  }

  /** The columns an update request asks for (its `studentId`, if any, is not one of them). */
  function ColumnsFrom(f: Fields): Columns {
    Columns(FieldOr(f, "firstName"), FieldOr(f, "lastName"), FieldOr(f, "email"),
            FieldOr(f, "birthDate"), FieldOr(f, "enrollmentDate"), FieldOr(f, "program"))
  }

  /** The `students` table, keyed by `studentId`. */
  type Table = map<string, Record>

  /** Every row is stored under its own key, and no two rows share an email. */
  predicate TableInvariant(t: Table) {
    && (forall id :: id in t ==> t[id].studentId == id)
    && (forall id1, id2 :: id1 in t && id2 in t && id1 != id2 ==> t[id1].email != t[id2].email)
  }

  /** Some row holds `email`. */
  predicate EmailTaken(t: Table, email: string) {
    exists id :: id in t && t[id].email == email
  }

  /** Some row other than the one under `studentId` holds `email`. */
  predicate EmailTakenByOther(t: Table, email: string, studentId: string) {
    exists id :: id in t && id != studentId && t[id].email == email
  }

  /** What a write statement reports: the number of rows it matched, or a unique-key violation (ER_DUP_ENTRY). */
  datatype WriteStatus = Affected(rows: nat) | DuplicateEntry

  datatype Write = Write(status: WriteStatus, table: Table)

  /** INSERT of a full row: refused when its key or its email is already present. */
  function InsertRow(t: Table, row: Record): (w: Write)
    ensures w.status == DuplicateEntry <==> row.studentId in t || EmailTaken(t, row.email)
    ensures w.status == DuplicateEntry ==> w.table == t
    ensures w.status != DuplicateEntry ==>
      w.status == Affected(1) && row.studentId !in t && w.table == t[row.studentId := row]
    ensures TableInvariant(t) ==> TableInvariant(w.table)
  {
    if row.studentId in t || EmailTaken(t, row.email) then Write(DuplicateEntry, t)
    else Write(Affected(1), t[row.studentId := row])
  }

  /**
    UPDATE ... WHERE studentId = id: matches no row when the key is absent;
    refused when the new email belongs to another row.
  */
  function UpdateRow(t: Table, studentId: string, cols: Columns): (w: Write)
    ensures studentId !in t ==> w == Write(Affected(0), t)
    ensures w.status == DuplicateEntry <==> studentId in t && EmailTakenByOther(t, cols.email, studentId)
    ensures w.status == DuplicateEntry ==> w.table == t
    ensures w.status == Affected(1) <==> studentId in t && !EmailTakenByOther(t, cols.email, studentId)
    ensures w.status == Affected(1) ==> w.table == t[studentId := WithColumns(t[studentId], cols)]
    ensures w.table.Keys == t.Keys
    ensures TableInvariant(t) ==> TableInvariant(w.table)
  {
    if studentId !in t then Write(Affected(0), t)
    else if EmailTakenByOther(t, cols.email, studentId) then Write(DuplicateEntry, t)
    else Write(Affected(1), t[studentId := WithColumns(t[studentId], cols)])
  }

  /** The database connection: the one table the statements read and write. */
  class Database {
    var students: Table

    ghost predicate Valid()
      reads this
    {
      TableInvariant(students)
    }

    constructor (initial: Table)
      requires TableInvariant(initial)
      ensures Valid() && students == initial
    {
      students := initial;
    }

    /** Execute an INSERT. */
    method Insert(row: Record) returns (status: WriteStatus)
      requires Valid()
      modifies this
      ensures Valid()
      ensures Write(status, students) == InsertRow(old(students), row)
    {
      var w := InsertRow(students, row);
      status, students := w.status, w.table;
    }

    /** Execute an UPDATE of the six non-key columns of the row under `studentId`. */
    method Update(studentId: string, cols: Columns) returns (status: WriteStatus)
      requires Valid()
      modifies this
      ensures Valid()
      ensures Write(status, students) == UpdateRow(old(students), studentId, cols)
    {
      var w := UpdateRow(students, studentId, cols);
      status, students := w.status, w.table;
    }
  }

  /** A JSON response body, in the shapes both back ends send. */
  datatype Body =
    | Exists(record: Record)                 // { exists: true, record: {...} }
    | NotExists                              // { exists: false }
    | Row(record: Record)                    // the seven fields at top level
    | Done(message: string)                  // { success: true, message }
    | Error(error: string)                   // { error }
    | ValidationFailed(details: seq<string>) // { error: "Validation failed", details }
    | DatabaseError                          // { error: "Database error: ..." }, the store's text
    | NoContent                              // empty body

  datatype Response = Response(status: int, body: Body)

  /** What a request answers, and the table after it. */
  datatype Outcome = Outcome(response: Response, table: Table)

  /**
    JavaScript `new Date(a) <= new Date(b)`: a parse that fails gives NaN,
    and every comparison with NaN is false.
  */
  predicate JsDateLeq(a: Option<int>, b: Option<int>) {
    a.Some? && b.Some? && a.value <= b.value
  }
}
