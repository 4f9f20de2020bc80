/**
  The Express back end: the four JSON handlers of server.js. Their validation
  is JavaScript truthiness of the destructured body fields and, on create, one
  date comparison; everything else is left to the store's unique constraints.
*/
module ExpressServer {
  import opened Students
  import PhpServer

  const ALL_FIELDS_REQUIRED := "All fields are required"
  const DATE_ORDER_ERROR := "Enrollment date must be after birth date"
  const DUPLICATE_ERROR := "Student ID or email already exists"
  const CREATED := "Record created successfully"
  const RECORD_NOT_FOUND := "Record not found"
  const UPDATED := "Record updated successfully"

  /** The body fields create destructures, in order. */
  const CREATE_FIELDS: seq<string> :=
    ["studentId", "firstName", "lastName", "email", "birthDate", "enrollmentDate", "program"]

  /** The body fields update destructures: all but the ID, which comes from the path. */
  const UPDATE_FIELDS: seq<string> :=
    ["firstName", "lastName", "email", "birthDate", "enrollmentDate", "program"]

  /** `!!body[key]` for a string-valued body: undefined and "" are falsy, every other string (even "0") is truthy. */
  predicate Truthy(body: Fields, key: string) {
    key in body && body[key] != ""
  }

  predicate AllTruthy(body: Fields, keys: seq<string>) {
    forall k :: k in keys ==> Truthy(body, k)
  }

  /** The create check, field by field. */
  lemma CreateFieldsTruthy(body: Fields)
    ensures AllTruthy(body, CREATE_FIELDS) <==>
      && Truthy(body, "studentId") && Truthy(body, "firstName") && Truthy(body, "lastName")
      && Truthy(body, "email") && Truthy(body, "birthDate") && Truthy(body, "enrollmentDate")
      && Truthy(body, "program")
  {
  }

  /** The update check, field by field. */
  lemma UpdateFieldsTruthy(body: Fields)
    ensures AllTruthy(body, UPDATE_FIELDS) <==>
      && Truthy(body, "firstName") && Truthy(body, "lastName") && Truthy(body, "email")
      && Truthy(body, "birthDate") && Truthy(body, "enrollmentDate") && Truthy(body, "program")
  {
  }

  /**
    `new Date(enrollmentDate) <= new Date(birthDate)`, with `jsDate` the
    instant a string parses to (None for an Invalid Date).
  */
  predicate EnrollmentNotAfterBirth(jsDate: string -> Option<int>, body: Fields) {
    JsDateLeq(jsDate(FieldOr(body, "enrollmentDate")), jsDate(FieldOr(body, "birthDate")))
  }

  // ---------------------------------------------------------------------------
  // Lookups

  /** GET /api/check/:studentId: `exists` and the stored record exactly when the key is present. */
  function HandleCheck(t: Table, studentId: string): (r: Response)
    ensures r.status == 200
    ensures r.body.Exists? <==> studentId in t
    ensures r.body.Exists? ==> r.body.record == t[studentId]
    ensures studentId !in t ==> r.body == NotExists
  {
    if studentId in t then Response(200, Exists(t[studentId])) else Response(200, NotExists)
  }

  /** GET /api/record/:studentId: the stored record, or 404. */
  function HandleRecord(t: Table, studentId: string): (r: Response)
    ensures r.status == 200 <==> studentId in t
    ensures studentId in t ==> r.body == Row(t[studentId])
    ensures studentId !in t ==> r == Response(404, Error(RECORD_NOT_FOUND))
  {
    if studentId in t then Response(200, Row(t[studentId])) else Response(404, Error(RECORD_NOT_FOUND))
  }

  // ---------------------------------------------------------------------------
  // Writes, as functions of the table

  /**
    POST /api/create: all seven fields truthy, then the date comparison, then
    the INSERT, whose unique-key violation is reported as a 400.
  */
  function CreateOutcome(jsDate: string -> Option<int>, t: Table, body: Fields): (o: Outcome)
    ensures o.response.status == 200 <==>
      && AllTruthy(body, CREATE_FIELDS)
      && !EnrollmentNotAfterBirth(jsDate, body)
      && FieldOr(body, "studentId") !in t
      && !EmailTaken(t, FieldOr(body, "email"))
    ensures o.response.status != 200 ==> o.response.status == 400 && o.table == t
    ensures !AllTruthy(body, CREATE_FIELDS) ==> o.response == Response(400, Error(ALL_FIELDS_REQUIRED))
    ensures AllTruthy(body, CREATE_FIELDS) && EnrollmentNotAfterBirth(jsDate, body) ==>
      o.response == Response(400, Error(DATE_ORDER_ERROR))
    ensures o.response == Response(400, Error(DUPLICATE_ERROR)) <==>
      && AllTruthy(body, CREATE_FIELDS)
      && !EnrollmentNotAfterBirth(jsDate, body)
      && (FieldOr(body, "studentId") in t || EmailTaken(t, FieldOr(body, "email")))
    ensures o.response.status == 200 ==>
      && o.response.body == Done(CREATED)
      && o.table == t[FieldOr(body, "studentId") := RecordFrom(body)]
    ensures TableInvariant(t) ==> TableInvariant(o.table)
  {
    if !AllTruthy(body, CREATE_FIELDS) then Outcome(Response(400, Error(ALL_FIELDS_REQUIRED)), t)
    else if EnrollmentNotAfterBirth(jsDate, body) then Outcome(Response(400, Error(DATE_ORDER_ERROR)), t)
    else
      var w := InsertRow(t, RecordFrom(body));
      if w.status == DuplicateEntry then Outcome(Response(400, Error(DUPLICATE_ERROR)), t)
      else Outcome(Response(200, Done(CREATED)), w.table)
  }

  /**
    PUT /api/update/:studentId: the six fields truthy, then the UPDATE. Any
    store error, a unique-key violation included, is a 500; no matched row is
    a 404.
  */
  function UpdateOutcome(t: Table, studentId: string, body: Fields): (o: Outcome)
    ensures !AllTruthy(body, UPDATE_FIELDS) ==> o.response == Response(400, Error(ALL_FIELDS_REQUIRED))
    ensures AllTruthy(body, UPDATE_FIELDS) && studentId !in t ==> o.response == Response(404, Error(RECORD_NOT_FOUND))
    ensures o.response == Response(500, DatabaseError) <==>
      AllTruthy(body, UPDATE_FIELDS) && studentId in t && EmailTakenByOther(t, FieldOr(body, "email"), studentId)
    ensures o.response.status == 200 <==>
      AllTruthy(body, UPDATE_FIELDS) && studentId in t && !EmailTakenByOther(t, FieldOr(body, "email"), studentId)
    ensures o.response.status != 200 ==> o.table == t
    ensures o.response.status == 200 ==>
      && o.response.body == Done(UPDATED)
      && o.table == t[studentId := WithColumns(t[studentId], ColumnsFrom(body))]
    ensures o.table.Keys == t.Keys
    ensures TableInvariant(t) ==> TableInvariant(o.table)
  {
    if !AllTruthy(body, UPDATE_FIELDS) then Outcome(Response(400, Error(ALL_FIELDS_REQUIRED)), t)
    else
      var w := UpdateRow(t, studentId, ColumnsFrom(body));
      if w.status == DuplicateEntry then Outcome(Response(500, DatabaseError), t)
      else if w.status == Affected(0) then Outcome(Response(404, Error(RECORD_NOT_FOUND)), t)
      else Outcome(Response(200, Done(UPDATED)), w.table)
  }

  // ---------------------------------------------------------------------------
  // Writes, as the statements they execute against the connection

  method HandleCreate(jsDate: string -> Option<int>, db: Database, body: Fields) returns (resp: Response)
    requires db.Valid()
    modifies db
    ensures db.Valid()
    ensures Outcome(resp, db.students) == CreateOutcome(jsDate, old(db.students), body)
  {
    CreateFieldsTruthy(body);
    if !Truthy(body, "studentId") || !Truthy(body, "firstName") || !Truthy(body, "lastName")
      || !Truthy(body, "email") || !Truthy(body, "birthDate") || !Truthy(body, "enrollmentDate")
      || !Truthy(body, "program")
    {
      return Response(400, Error(ALL_FIELDS_REQUIRED));
    }
    if JsDateLeq(jsDate(body["enrollmentDate"]), jsDate(body["birthDate"])) {
      return Response(400, Error(DATE_ORDER_ERROR));
    }
    var status := db.Insert(RecordFrom(body));
    if status == DuplicateEntry {
      return Response(400, Error(DUPLICATE_ERROR));
    }
    resp := Response(200, Done(CREATED));
  }

  method HandleUpdate(db: Database, studentId: string, body: Fields) returns (resp: Response)
    requires db.Valid()
    modifies db
    ensures db.Valid()
    ensures Outcome(resp, db.students) == UpdateOutcome(old(db.students), studentId, body)
  {
    UpdateFieldsTruthy(body);
    if !Truthy(body, "firstName") || !Truthy(body, "lastName") || !Truthy(body, "email")
      || !Truthy(body, "birthDate") || !Truthy(body, "enrollmentDate") || !Truthy(body, "program")
    {
      return Response(400, Error(ALL_FIELDS_REQUIRED));
    }
    var status := db.Update(studentId, ColumnsFrom(body));
    if status == DuplicateEntry {
      return Response(500, DatabaseError);
    }
    if status == Affected(0) {
      return Response(404, Error(RECORD_NOT_FOUND));
    }
    resp := Response(200, Done(UPDATED));
  }

  // ---------------------------------------------------------------------------
  // Properties

  /** A successful create is visible to the next check and record lookup with exactly the submitted fields. */
  lemma CreateThenLookup(jsDate: string -> Option<int>, t: Table, body: Fields)
    requires CreateOutcome(jsDate, t, body).response.status == 200
    ensures var t' := CreateOutcome(jsDate, t, body).table;
      && HandleCheck(t', FieldOr(body, "studentId")) == Response(200, Exists(RecordFrom(body)))
      && HandleRecord(t', FieldOr(body, "studentId")) == Response(200, Row(RecordFrom(body)))
  {
  }

  /** An enrollment date JavaScript's `new Date` cannot parse never blocks a create: NaN compares false. */
  lemma UnparsableDateIsNotRejected(jsDate: string -> Option<int>, t: Table, body: Fields)
    requires AllTruthy(body, CREATE_FIELDS)
    requires jsDate(FieldOr(body, "enrollmentDate")) == None
    requires FieldOr(body, "studentId") !in t && !EmailTaken(t, FieldOr(body, "email"))
    ensures CreateOutcome(jsDate, t, body).response == Response(200, Done(CREATED))
  {
    assert "enrollmentDate" in CREATE_FIELDS;
  }

  // ---------------------------------------------------------------------------
  // The two back ends side by side

  /** PHP-non-empty fields are truthy. */
  lemma PhpNonEmptyIsTruthy(data: Fields, keys: seq<string>)
    requires forall k :: k in keys ==> !PhpServer.IsEmpty(data, k)
    ensures AllTruthy(data, keys)
  {
  }

  /**
    Whatever the PHP back end creates, this one creates identically, provided
    both read the two dates as the same instants.
  */
  lemma CreateAgreesWhenPhpAccepts(lib: PhpServer.PhpLibrary, jsDate: string -> Option<int>, t: Table, data: Fields)
    requires PhpServer.CreateOutcome(lib, t, data).response.status == 200
    requires "birthDate" in data && "enrollmentDate" in data
    requires jsDate(data["birthDate"]) == Some(lib.dateTime(data["birthDate"]))
    requires jsDate(data["enrollmentDate"]) == Some(lib.dateTime(data["enrollmentDate"]))
    ensures CreateOutcome(jsDate, t, data) == PhpServer.CreateOutcome(lib, t, data)
  {
    PhpServer.ValidFieldsPresent(lib, data, true);
    PhpNonEmptyIsTruthy(data, CREATE_FIELDS);
  }

  /**
    A "0" first name: PHP's empty() rejects it, while JavaScript's truthiness
    lets it through to the INSERT.
  */
  lemma ZeroNameOnlyExpressAccepts(lib: PhpServer.PhpLibrary, jsDate: string -> Option<int>, t: Table, data: Fields)
    requires AllTruthy(data, CREATE_FIELDS) && FieldOr(data, "firstName") == "0"
    requires !EnrollmentNotAfterBirth(jsDate, data)
    requires FieldOr(data, "studentId") !in t && !EmailTaken(t, FieldOr(data, "email"))
    ensures CreateOutcome(jsDate, t, data).response.status == 200
    ensures PhpServer.CreateOutcome(lib, t, data).response.status == 400
    ensures PhpServer.FIRST_NAME_ERROR in PhpServer.ValidationErrors(lib, data, true)
  {
    assert "firstName" in CREATE_FIELDS;
    PhpServer.ReportsRule(lib, data, true, PhpServer.FirstNameRule);
    assert PhpServer.Message(PhpServer.FirstNameRule) == PhpServer.FIRST_NAME_ERROR;
  }

  /**
    Moving a row onto another row's email: PHP's pre-check answers 400, this
    back end reports the store's unique-key violation as a 500. Neither writes.
  */
  lemma EmailCollisionOnUpdate(lib: PhpServer.PhpLibrary, t: Table, studentId: string, data: Fields)
    requires !PhpServer.IsEmptyString(studentId) && studentId in t
    requires PhpServer.ValidationErrors(lib, data, false) == []
    requires EmailTakenByOther(t, FieldOr(data, "email"), studentId)
    ensures PhpServer.UpdateOutcome(lib, t, studentId, data) ==
      Outcome(Response(400, Error(PhpServer.EMAIL_EXISTS_FOR_OTHER)), t)
    ensures UpdateOutcome(t, studentId, data) == Outcome(Response(500, DatabaseError), t)
  {
    PhpServer.ValidFieldsPresent(lib, data, false);
    PhpNonEmptyIsTruthy(data, UPDATE_FIELDS);
  }
}
