/**
  The PHP back end: the record validator, the four handlers and the request
  dispatcher. Every `sendResponse` ends the request, so each handler answers
  with the first response it reaches.
*/
module PhpServer {
  import opened Text
  import opened Students

  /**
    Library behaviour the model does not open up: `filter_var(..., FILTER_VALIDATE_EMAIL)`
    and the instant a `new DateTime(...)` stands for.
  */
  datatype PhpLibrary = PhpLibrary(filterEmail: string -> bool, dateTime: string -> int)

  const STUDENT_ID_ERROR := "Valid Student ID is required"
  const FIRST_NAME_ERROR := "First name is required"
  const LAST_NAME_ERROR := "Last name is required"
  const EMAIL_ERROR := "Valid email is required"
  const BIRTH_DATE_ERROR := "Birth date is required"
  const ENROLLMENT_DATE_ERROR := "Enrollment date is required"
  const PROGRAM_ERROR := "Program is required"
  const DATE_ORDER_ERROR := "Enrollment date must be after birth date"

  const ID_REQUIRED := "Student ID is required"
  const RECORD_NOT_FOUND := "Record not found"
  const ID_EXISTS := "Student ID already exists"
  const EMAIL_EXISTS := "Email already exists"
  const CREATED := "Record created successfully"
  const STUDENT_NOT_FOUND := "Student record not found"
  const EMAIL_EXISTS_FOR_OTHER := "Email already exists for another student"
  const UPDATED := "Record updated successfully"
  const ENDPOINT_NOT_FOUND := "Endpoint not found"
  const METHOD_NOT_ALLOWED := "Method not allowed"

  // ---------------------------------------------------------------------------
  // PHP value tests

  /** `empty()` of a string: "" and "0" are empty. */
  predicate IsEmptyString(s: string) {
    s == "" || s == "0"
  }

  /** `empty($data[key])`: a missing key is empty too. */
  predicate IsEmpty(data: Fields, key: string) {
    key !in data || IsEmptyString(data[key])
  }

  predicate IsIdChar(c: char) {
    'A' <= c <= 'Z' || '0' <= c <= '9'
  }

  predicate AllIdChars(s: string) {
    forall k :: 0 <= k < |s| ==> IsIdChar(s[k])
  }

  /**
    `preg_match('/^[A-Z0-9]+$/', s)`. Without the D modifier PCRE's `$` also
    matches just before a final newline, so one trailing "\n" is accepted.
  */
  predicate MatchesIdPattern(s: string) {
    var body := if |s| > 0 && s[|s| - 1] == '\n' then s[..|s| - 1] else s;
    |body| > 0 && AllIdChars(body)
  }

  /** The pattern accepts an ID followed by one newline, but not two, and no lower case. */
  lemma IdPatternExamples()
    ensures MatchesIdPattern("S001")
    ensures MatchesIdPattern("S001\n")
    ensures !MatchesIdPattern("S001\n\n")
    ensures !MatchesIdPattern("s001")
    ensures !MatchesIdPattern("")
  {
    assert !IsIdChar("S001\n\n"[4]);
    assert !IsIdChar("s001"[0]);
  }

  // ---------------------------------------------------------------------------
  // Validation rules

  /** The eight checks, in the order the validator makes them. */
  datatype Rule =
    | StudentIdRule | FirstNameRule | LastNameRule | EmailRule
    | BirthDateRule | EnrollmentDateRule | ProgramRule | DateOrderRule

  const RULE_ORDER: seq<Rule> :=
    [StudentIdRule, FirstNameRule, LastNameRule, EmailRule,
     BirthDateRule, EnrollmentDateRule, ProgramRule, DateOrderRule]

  /** Position of a rule in RULE_ORDER. */
  function Rank(r: Rule): nat {
    match r
    case StudentIdRule => 0
    case FirstNameRule => 1
    case LastNameRule => 2
    case EmailRule => 3
    case BirthDateRule => 4
    case EnrollmentDateRule => 5
    case ProgramRule => 6
    case DateOrderRule => 7
  }

  function Message(r: Rule): string {
    match r
    case StudentIdRule => STUDENT_ID_ERROR
    case FirstNameRule => FIRST_NAME_ERROR
    case LastNameRule => LAST_NAME_ERROR
    case EmailRule => EMAIL_ERROR
    case BirthDateRule => BIRTH_DATE_ERROR
    case EnrollmentDateRule => ENROLLMENT_DATE_ERROR
    case ProgramRule => PROGRAM_ERROR
    case DateOrderRule => DATE_ORDER_ERROR
  }

  /** `data` violates rule `r`; the ID is checked only when `checkId` holds. */
  predicate Broken(lib: PhpLibrary, data: Fields, checkId: bool, r: Rule) {
    match r
    case StudentIdRule => checkId && (IsEmpty(data, "studentId") || !MatchesIdPattern(data["studentId"]))
    case FirstNameRule => IsEmpty(data, "firstName")
    case LastNameRule => IsEmpty(data, "lastName")
    case EmailRule => IsEmpty(data, "email") || !lib.filterEmail(data["email"])
    case BirthDateRule => IsEmpty(data, "birthDate")
    case EnrollmentDateRule => IsEmpty(data, "enrollmentDate")
    case ProgramRule => IsEmpty(data, "program")
    case DateOrderRule =>
      && !IsEmpty(data, "birthDate") && !IsEmpty(data, "enrollmentDate")
      && lib.dateTime(data["enrollmentDate"]) <= lib.dateTime(data["birthDate"])
  }

  /** The rules of `rules` that lie in `bad`, in the same order. */
  function Filter(rules: seq<Rule>, bad: set<Rule>): seq<Rule>
    decreases |rules|
  {
    if rules == [] then []
    else (if rules[0] in bad then [rules[0]] else []) + Filter(rules[1..], bad)
  }

  /** The rules `data` violates. */
  function BrokenSet(lib: PhpLibrary, data: Fields, checkId: bool): set<Rule> {
    set r | r in RULE_ORDER && Broken(lib, data, checkId, r)
  }

  function Messages(rs: seq<Rule>): seq<string>
    decreases |rs|
  {
    if rs == [] then [] else [Message(rs[0])] + Messages(rs[1..])
  }

  /** The message list rule `r` contributes: its message when broken, nothing otherwise. */
  function Flag(lib: PhpLibrary, data: Fields, checkId: bool, r: Rule): seq<string> {
    if Broken(lib, data, checkId, r) then [Message(r)] else []
  }

  /** The list built by making the checks of `rules` one after another, each appending its message. */
  function Reported(lib: PhpLibrary, data: Fields, checkId: bool, rules: seq<Rule>): seq<string>
    decreases |rules|
  {
    if rules == [] then []
    else Reported(lib, data, checkId, rules[..|rules| - 1]) + Flag(lib, data, checkId, rules[|rules| - 1])
  }

  /** The error list the validator returns. */
  function ValidationErrors(lib: PhpLibrary, data: Fields, checkId: bool): seq<string> {
    Reported(lib, data, checkId, RULE_ORDER)
  }

  /** Every rule holds, spelled out. */
  predicate AllRulesHold(lib: PhpLibrary, data: Fields, checkId: bool) {
    && (checkId ==> !IsEmpty(data, "studentId") && MatchesIdPattern(data["studentId"]))
    && !IsEmpty(data, "firstName")
    && !IsEmpty(data, "lastName")
    && !IsEmpty(data, "email") && lib.filterEmail(data["email"])
    && !IsEmpty(data, "birthDate")
    && !IsEmpty(data, "enrollmentDate")
    && !IsEmpty(data, "program")
    && lib.dateTime(data["birthDate"]) < lib.dateTime(data["enrollmentDate"])
  }

  predicate RankIncreasing(rs: seq<Rule>) {
    forall i, j :: 0 <= i < j < |rs| ==> Rank(rs[i]) < Rank(rs[j])
  }

  /** Filtering keeps exactly the members in `bad`, and never lengthens. */
  lemma {:induction false} FilterMembers(rules: seq<Rule>, bad: set<Rule>)
    ensures |Filter(rules, bad)| <= |rules|
    ensures forall r :: r in Filter(rules, bad) <==> r in rules && r in bad
    decreases |rules|
  {
    if rules != [] {
      FilterMembers(rules[1..], bad);
      assert forall r :: r in rules <==> r == rules[0] || r in rules[1..];
    }
  }

  /** Filtering keeps the rank order. */
  lemma {:induction false} FilterKeepsRank(rules: seq<Rule>, bad: set<Rule>)
    requires RankIncreasing(rules)
    ensures RankIncreasing(Filter(rules, bad))
    decreases |rules|
  {
    if rules != [] {
      var rest := Filter(rules[1..], bad);
      assert RankIncreasing(rules[1..]) by {
        forall i, j | 0 <= i < j < |rules[1..]| ensures Rank(rules[1..][i]) < Rank(rules[1..][j]) {
          assert rules[1..][i] == rules[i + 1] && rules[1..][j] == rules[j + 1];
        }
      }
      FilterKeepsRank(rules[1..], bad);
      FilterMembers(rules[1..], bad);
      forall r | r in rest ensures Rank(rules[0]) < Rank(r) {
        var k :| 0 <= k < |rules[1..]| && rules[1..][k] == r;
        assert rules[k + 1] == r;
      }
      var all := Filter(rules, bad);
      if rules[0] in bad {
        forall i, j | 0 <= i < j < |all| ensures Rank(all[i]) < Rank(all[j]) {
          assert all[j] == rest[j - 1] && all[j] in rest;
          if i > 0 {
            assert all[i] == rest[i - 1];
          }
        }
      } else {
        assert all == rest;
      }
    }
  }

  lemma {:induction false} MessagesProperties(rs: seq<Rule>)
    ensures |Messages(rs)| == |rs|
    ensures forall k :: 0 <= k < |rs| ==> Messages(rs)[k] == Message(rs[k])
    decreases |rs|
  {
    if rs != [] {
      MessagesProperties(rs[1..]);
    }
  }

  lemma RuleOrderRanked()
    ensures RankIncreasing(RULE_ORDER)
    ensures forall r: Rule :: r in RULE_ORDER
  {
    forall r: Rule ensures r in RULE_ORDER {
      assert RULE_ORDER[Rank(r)] == r;
    }
  }

  /** Distinct rules have distinct messages. */
  lemma MessageInjective(r1: Rule, r2: Rule)
    requires r1 != r2
    ensures Message(r1) != Message(r2)
  {
    var m1, m2 := Message(r1), Message(r2);
    assert |m1| != |m2| || m1[0] != m2[0];
  }

  /** A message is listed exactly when its rule is. */
  lemma {:induction false} MessagesMention(rs: seq<Rule>, r: Rule)
    ensures Message(r) in Messages(rs) <==> r in rs
    decreases |rs|
  {
    if rs != [] {
      MessagesMention(rs[1..], r);
      assert Messages(rs) == [Message(rs[0])] + Messages(rs[1..]);
      if rs[0] != r {
        MessageInjective(rs[0], r);
      }
      assert r in rs <==> r == rs[0] || r in rs[1..];
    }
  }

  lemma RuleMembership(lib: PhpLibrary, data: Fields, checkId: bool, r: Rule)
    ensures r in BrokenSet(lib, data, checkId) <==> Broken(lib, data, checkId, r)
  {
    RuleOrderRanked();
  }

  lemma BrokenSetMembers(lib: PhpLibrary, data: Fields, checkId: bool)
    ensures forall r :: r in BrokenSet(lib, data, checkId) <==> Broken(lib, data, checkId, r)
  {
    RuleOrderRanked();
  }

  /** AllRulesHold is exactly "no rule is broken". */
  lemma AllRulesHoldIff(lib: PhpLibrary, data: Fields, checkId: bool)
    ensures AllRulesHold(lib, data, checkId) <==> forall r :: !Broken(lib, data, checkId, r)
  {
    forall r | AllRulesHold(lib, data, checkId) ensures !Broken(lib, data, checkId, r) {
      match r {
        case StudentIdRule =>
        case FirstNameRule =>
        case LastNameRule =>
        case EmailRule =>
        case BirthDateRule =>
        case EnrollmentDateRule =>
        case ProgramRule =>
        case DateOrderRule =>
      }
    }
    if forall r :: !Broken(lib, data, checkId, r) {
      assert !Broken(lib, data, checkId, StudentIdRule) && !Broken(lib, data, checkId, FirstNameRule);
      assert !Broken(lib, data, checkId, LastNameRule) && !Broken(lib, data, checkId, EmailRule);
      assert !Broken(lib, data, checkId, BirthDateRule) && !Broken(lib, data, checkId, EnrollmentDateRule);
      assert !Broken(lib, data, checkId, ProgramRule) && !Broken(lib, data, checkId, DateOrderRule);
    }
  }

  lemma BrokenSetEmptyIff(lib: PhpLibrary, data: Fields, checkId: bool)
    ensures BrokenSet(lib, data, checkId) == {} <==> AllRulesHold(lib, data, checkId)
  {
    var bad := BrokenSet(lib, data, checkId);
    BrokenSetMembers(lib, data, checkId);
    AllRulesHoldIff(lib, data, checkId);
    if bad != {} {
      var r :| r in bad;
      assert Broken(lib, data, checkId, r);
    }
  }

  /** The violated rules, in rule order: exactly the broken ones, ranked, at most eight. */
  lemma ViolationsOrdered(lib: PhpLibrary, data: Fields, checkId: bool)
    ensures RankIncreasing(Filter(RULE_ORDER, BrokenSet(lib, data, checkId)))
    ensures forall r :: r in Filter(RULE_ORDER, BrokenSet(lib, data, checkId)) <==> Broken(lib, data, checkId, r)
    ensures |Filter(RULE_ORDER, BrokenSet(lib, data, checkId))| <= 8
  {
    RuleOrderRanked();
    FilterMembers(RULE_ORDER, BrokenSet(lib, data, checkId));
    FilterKeepsRank(RULE_ORDER, BrokenSet(lib, data, checkId));
    BrokenSetMembers(lib, data, checkId);
  }

  /**
    Their messages: empty exactly when every rule holds, and naming exactly the
    broken rules.
  */
  lemma ViolationMessages(lib: PhpLibrary, data: Fields, checkId: bool)
    ensures |Messages(Filter(RULE_ORDER, BrokenSet(lib, data, checkId)))| == |Filter(RULE_ORDER, BrokenSet(lib, data, checkId))|
    ensures Messages(Filter(RULE_ORDER, BrokenSet(lib, data, checkId))) == [] <==> AllRulesHold(lib, data, checkId)
    ensures forall r :: Message(r) in Messages(Filter(RULE_ORDER, BrokenSet(lib, data, checkId))) <==> Broken(lib, data, checkId, r)
  {
    var bad := BrokenSet(lib, data, checkId);
    var rs := Filter(RULE_ORDER, bad);
    ViolationsOrdered(lib, data, checkId);
    MessagesProperties(rs);
    BrokenSetEmptyIff(lib, data, checkId);
    forall r ensures Message(r) in Messages(rs) <==> Broken(lib, data, checkId, r) {
      MessagesMention(rs, r);
    }
  }

  /**
    The error list is empty exactly when every rule holds. It names exactly the
    violated rules, each once, in the fixed order ID, first name, last name,
    email, birth date, enrollment date, program, date order; so it has at most
    eight entries.
  */
  lemma ValidationErrorsShape(lib: PhpLibrary, data: Fields, checkId: bool)
    ensures var rs := Filter(RULE_ORDER, BrokenSet(lib, data, checkId));
      && ValidationErrors(lib, data, checkId) == Messages(rs)
      && RankIncreasing(rs)
      && (forall r :: r in rs <==> Broken(lib, data, checkId, r))
    ensures ValidationErrors(lib, data, checkId) == [] <==> AllRulesHold(lib, data, checkId)
    ensures |ValidationErrors(lib, data, checkId)| <= 8
    ensures forall r :: Message(r) in ValidationErrors(lib, data, checkId) <==> Broken(lib, data, checkId, r)
  {
    ReportedIsFiltered(lib, data, checkId, RULE_ORDER);
    ViolationsOrdered(lib, data, checkId);
    ViolationMessages(lib, data, checkId);
  }

  /** One rule's message is reported exactly when that rule is broken. */
  lemma ReportsRule(lib: PhpLibrary, data: Fields, checkId: bool, r: Rule)
    ensures Message(r) in ValidationErrors(lib, data, checkId) <==> Broken(lib, data, checkId, r)
  {
    ValidationErrorsShape(lib, data, checkId);
  }

  /**
    With `checkId` false the ID message never appears; with `checkId` true it
    appears exactly when the ID is PHP-empty or fails the pattern.
  */
  lemma StudentIdError(lib: PhpLibrary, data: Fields)
    ensures STUDENT_ID_ERROR !in ValidationErrors(lib, data, false)
    ensures STUDENT_ID_ERROR in ValidationErrors(lib, data, true) <==>
      IsEmpty(data, "studentId") || !MatchesIdPattern(data["studentId"])
  {
    ValidationErrorsShape(lib, data, false);
    ValidationErrorsShape(lib, data, true);
    assert Message(StudentIdRule) == STUDENT_ID_ERROR;
  }

  /**
    The date-order message needs both dates: when either is PHP-empty only its
    own "required" message is reported.
  */
  lemma EmptyDateReportsOnlyRequired(lib: PhpLibrary, data: Fields, checkId: bool)
    requires IsEmpty(data, "birthDate") || IsEmpty(data, "enrollmentDate")
    ensures DATE_ORDER_ERROR !in ValidationErrors(lib, data, checkId)
    ensures IsEmpty(data, "birthDate") ==> BIRTH_DATE_ERROR in ValidationErrors(lib, data, checkId)
    ensures IsEmpty(data, "enrollmentDate") ==> ENROLLMENT_DATE_ERROR in ValidationErrors(lib, data, checkId)
  {
    ValidationErrorsShape(lib, data, checkId);
    assert Message(DateOrderRule) == DATE_ORDER_ERROR;
    assert Message(BirthDateRule) == BIRTH_DATE_ERROR;
    assert Message(EnrollmentDateRule) == ENROLLMENT_DATE_ERROR;
  }

  /** A passing record has its fields PHP-non-empty (the ID only when checked), a valid email and ordered dates. */
  lemma ValidFieldsPresent(lib: PhpLibrary, data: Fields, checkId: bool)
    requires ValidationErrors(lib, data, checkId) == []
    ensures checkId ==> !IsEmpty(data, "studentId") && MatchesIdPattern(data["studentId"])
    ensures !IsEmpty(data, "firstName") && !IsEmpty(data, "lastName") && !IsEmpty(data, "email")
    ensures !IsEmpty(data, "birthDate") && !IsEmpty(data, "enrollmentDate") && !IsEmpty(data, "program")
    ensures lib.filterEmail(data["email"])
    ensures lib.dateTime(data["birthDate"]) < lib.dateTime(data["enrollmentDate"])
  {
    ValidationErrorsShape(lib, data, checkId);
  }

  lemma {:induction false} FilterSnoc(rules: seq<Rule>, x: Rule, bad: set<Rule>)
    ensures Filter(rules + [x], bad) == Filter(rules, bad) + (if x in bad then [x] else [])
    decreases |rules|
  {
    if rules == [] {
      assert Filter([x], bad) == (if x in bad then [x] else []) + Filter([], bad);
    } else {
      assert (rules + [x])[0] == rules[0] && (rules + [x])[1..] == rules[1..] + [x];
      FilterSnoc(rules[1..], x, bad);
    }
  }

  lemma {:induction false} MessagesAppend(a: seq<Rule>, b: seq<Rule>)
    ensures Messages(a + b) == Messages(a) + Messages(b)
    decreases |a|
  {
    if a == [] {
      assert a + b == b;
    } else {
      assert (a + b)[0] == a[0] && (a + b)[1..] == a[1..] + b;
      MessagesAppend(a[1..], b);
    }
  }

  /** Making the checks one by one reports the violated rules' messages, in order. */
  lemma {:induction false} ReportedIsFiltered(lib: PhpLibrary, data: Fields, checkId: bool, rules: seq<Rule>)
    ensures Reported(lib, data, checkId, rules) == Messages(Filter(rules, BrokenSet(lib, data, checkId)))
    decreases |rules|
  {
    if rules != [] {
      var bad := BrokenSet(lib, data, checkId);
      var init, x := rules[..|rules| - 1], rules[|rules| - 1];
      assert rules == init + [x];
      ReportedIsFiltered(lib, data, checkId, init);
      FilterSnoc(init, x, bad);
      MessagesAppend(Filter(init, bad), if x in bad then [x] else []);
      RuleMembership(lib, data, checkId, x);
      if x in bad {
        assert Messages([x]) == [Message(x)] + Messages([]);
      }
    }
  }

  /** One more check: the list for the first `k + 1` rules extends the list for the first `k`. */
  lemma ReportedStep(lib: PhpLibrary, data: Fields, checkId: bool, k: nat, r: Rule)
    requires k < |RULE_ORDER| && RULE_ORDER[k] == r
    ensures Reported(lib, data, checkId, RULE_ORDER[..k + 1])
      == Reported(lib, data, checkId, RULE_ORDER[..k]) + Flag(lib, data, checkId, r)
  {
    assert RULE_ORDER[..k + 1][..k] == RULE_ORDER[..k];
  }

  /** The first two checks' contributions, concatenated. */
  lemma FirstTwoChecksInOrder(lib: PhpLibrary, data: Fields, checkId: bool)
    ensures Reported(lib, data, checkId, RULE_ORDER[..2]) ==
      Flag(lib, data, checkId, StudentIdRule) + Flag(lib, data, checkId, FirstNameRule)
  {
    ReportedStep(lib, data, checkId, 0, StudentIdRule);
    assert RULE_ORDER[..0] == [];
    assert Reported(lib, data, checkId, RULE_ORDER[..1]) == Flag(lib, data, checkId, StudentIdRule);
    ReportedStep(lib, data, checkId, 1, FirstNameRule);
  }

  /** The first four checks' contributions, concatenated. */
  lemma FirstChecksInOrder(lib: PhpLibrary, data: Fields, checkId: bool)
    ensures Reported(lib, data, checkId, RULE_ORDER[..4]) ==
      Flag(lib, data, checkId, StudentIdRule) + Flag(lib, data, checkId, FirstNameRule)
      + Flag(lib, data, checkId, LastNameRule) + Flag(lib, data, checkId, EmailRule)
  {
    FirstTwoChecksInOrder(lib, data, checkId);
    ReportedStep(lib, data, checkId, 2, LastNameRule);
    ReportedStep(lib, data, checkId, 3, EmailRule);
  }

  /** ValidationErrors is the eight checks' contributions concatenated in rule order. */
  lemma ValidationErrorsInOrder(lib: PhpLibrary, data: Fields, checkId: bool)
    ensures ValidationErrors(lib, data, checkId) ==
      Flag(lib, data, checkId, StudentIdRule) + Flag(lib, data, checkId, FirstNameRule)
      + Flag(lib, data, checkId, LastNameRule) + Flag(lib, data, checkId, EmailRule)
      + Flag(lib, data, checkId, BirthDateRule) + Flag(lib, data, checkId, EnrollmentDateRule)
      + Flag(lib, data, checkId, ProgramRule) + Flag(lib, data, checkId, DateOrderRule)
  {
    FirstChecksInOrder(lib, data, checkId);
    ReportedStep(lib, data, checkId, 4, BirthDateRule);
    ReportedStep(lib, data, checkId, 5, EnrollmentDateRule);
    ReportedStep(lib, data, checkId, 6, ProgramRule);
    ReportedStep(lib, data, checkId, 7, DateOrderRule);
    assert RULE_ORDER[..8] == RULE_ORDER;
  }

  /** Each check of the validator, as written, contributes its rule's message list. */
  lemma ChecksAsWritten(lib: PhpLibrary, data: Fields, checkId: bool)
    ensures (if checkId && (IsEmpty(data, "studentId") || !MatchesIdPattern(data["studentId"]))
      then [STUDENT_ID_ERROR] else []) == Flag(lib, data, checkId, StudentIdRule)
    ensures (if IsEmpty(data, "firstName") then [FIRST_NAME_ERROR] else []) == Flag(lib, data, checkId, FirstNameRule)
    ensures (if IsEmpty(data, "lastName") then [LAST_NAME_ERROR] else []) == Flag(lib, data, checkId, LastNameRule)
    ensures (if IsEmpty(data, "email") || !lib.filterEmail(data["email"]) then [EMAIL_ERROR] else [])
      == Flag(lib, data, checkId, EmailRule)
    ensures (if IsEmpty(data, "birthDate") then [BIRTH_DATE_ERROR] else []) == Flag(lib, data, checkId, BirthDateRule)
    ensures (if IsEmpty(data, "enrollmentDate") then [ENROLLMENT_DATE_ERROR] else [])
      == Flag(lib, data, checkId, EnrollmentDateRule)
    ensures (if IsEmpty(data, "program") then [PROGRAM_ERROR] else []) == Flag(lib, data, checkId, ProgramRule)
  {
  }

  /**
    validateStudentData: each check appends its message to `errors` when it
    fails; the date order is compared only when both dates are present.
  */
  method ValidateStudentData(lib: PhpLibrary, data: Fields, checkId: bool) returns (errors: seq<string>)
    ensures errors == ValidationErrors(lib, data, checkId)
  {
    ValidationErrorsInOrder(lib, data, checkId);
    ChecksAsWritten(lib, data, checkId);
    errors := [];
    errors := errors + if checkId && (IsEmpty(data, "studentId") || !MatchesIdPattern(data["studentId"]))
      then [STUDENT_ID_ERROR] else [];
    assert errors == Flag(lib, data, checkId, StudentIdRule);
    errors := errors + if IsEmpty(data, "firstName") then [FIRST_NAME_ERROR] else [];
    errors := errors + if IsEmpty(data, "lastName") then [LAST_NAME_ERROR] else [];
    errors := errors + if IsEmpty(data, "email") || !lib.filterEmail(data["email"]) then [EMAIL_ERROR] else [];
    errors := errors + if IsEmpty(data, "birthDate") then [BIRTH_DATE_ERROR] else [];
    errors := errors + if IsEmpty(data, "enrollmentDate") then [ENROLLMENT_DATE_ERROR] else [];
    errors := errors + if IsEmpty(data, "program") then [PROGRAM_ERROR] else [];
    if !IsEmpty(data, "birthDate") && !IsEmpty(data, "enrollmentDate") {
      var birthDate := lib.dateTime(data["birthDate"]);
      var enrollmentDate := lib.dateTime(data["enrollmentDate"]);
      if enrollmentDate <= birthDate {
        errors := errors + [DATE_ORDER_ERROR];
      }
    }
  }

  // ---------------------------------------------------------------------------
  // Handlers, as functions of the table

  /** handleCheckStudent: a lookup by key; an empty ID is refused. */
  function HandleCheckStudent(t: Table, studentId: string): (r: Response)
    ensures IsEmptyString(studentId) ==> r == Response(400, Error(ID_REQUIRED))
    ensures !IsEmptyString(studentId) ==> r.status == 200
    ensures !IsEmptyString(studentId) ==> (r.body.Exists? <==> studentId in t)
    ensures r.body.Exists? ==> studentId in t && r.body.record == t[studentId]
    ensures !IsEmptyString(studentId) && studentId !in t ==> r.body == NotExists
  {
    if IsEmptyString(studentId) then Response(400, Error(ID_REQUIRED))
    else if studentId in t then Response(200, Exists(t[studentId]))
    else Response(200, NotExists)
  }

  /** handleGetRecord: the stored row, or 404. */
  function HandleGetRecord(t: Table, studentId: string): (r: Response)
    ensures IsEmptyString(studentId) ==> r == Response(400, Error(ID_REQUIRED))
    ensures !IsEmptyString(studentId) ==> (r.status == 200 <==> studentId in t)
    ensures r.status == 200 ==> studentId in t && r.body == Row(t[studentId])
    ensures !IsEmptyString(studentId) && studentId !in t ==> r == Response(404, Error(RECORD_NOT_FOUND))
  {
    if IsEmptyString(studentId) then Response(400, Error(ID_REQUIRED))
    else if studentId in t then Response(200, Row(t[studentId]))
    else Response(404, Error(RECORD_NOT_FOUND))
  }

  /**
    handleCreateStudent: validation, then the ID pre-check, then the email
    pre-check, then the INSERT.
  */
  function CreateOutcome(lib: PhpLibrary, t: Table, data: Fields): (o: Outcome)
    ensures o.response.status == 200 <==>
      && ValidationErrors(lib, data, true) == []
      && FieldOr(data, "studentId") !in t
      && !EmailTaken(t, FieldOr(data, "email"))
    ensures o.response.status != 200 ==> o.response.status == 400 && o.table == t
    ensures ValidationErrors(lib, data, true) != [] ==>
      o.response == Response(400, ValidationFailed(ValidationErrors(lib, data, true)))
    ensures ValidationErrors(lib, data, true) == [] && FieldOr(data, "studentId") in t ==>
      o.response == Response(400, Error(ID_EXISTS))
    ensures o.response == Response(400, Error(EMAIL_EXISTS)) <==>
      && ValidationErrors(lib, data, true) == []
      && FieldOr(data, "studentId") !in t
      && EmailTaken(t, FieldOr(data, "email"))
    ensures o.response.status == 200 ==>
      && o.response.body == Done(CREATED)
      && FieldOr(data, "studentId") !in t
      && o.table == t[FieldOr(data, "studentId") := RecordFrom(data)]
    ensures TableInvariant(t) ==> TableInvariant(o.table)
  {
    var errors := ValidationErrors(lib, data, true);
    if errors != [] then Outcome(Response(400, ValidationFailed(errors)), t)
    else if FieldOr(data, "studentId") in t then Outcome(Response(400, Error(ID_EXISTS)), t)
    else if EmailTaken(t, FieldOr(data, "email")) then Outcome(Response(400, Error(EMAIL_EXISTS)), t)
    else
      var w := InsertRow(t, RecordFrom(data));
      if w.status == DuplicateEntry then Outcome(Response(500, DatabaseError), t)
      else Outcome(Response(200, Done(CREATED)), w.table)
  }

  /**
    handleUpdateStudent: the ID from the path must be non-empty, the fields
    valid (the body's own ID is not checked), the row present and the email not
    held by another row; then the six non-key columns are overwritten.
  */
  function UpdateOutcome(lib: PhpLibrary, t: Table, studentId: string, data: Fields): (o: Outcome)
    ensures o.response.status == 200 <==>
      && !IsEmptyString(studentId)
      && ValidationErrors(lib, data, false) == []
      && studentId in t
      && !EmailTakenByOther(t, FieldOr(data, "email"), studentId)
    ensures o.response.status != 200 ==> o.table == t
    ensures IsEmptyString(studentId) ==> o.response == Response(400, Error(ID_REQUIRED))
    ensures !IsEmptyString(studentId) && ValidationErrors(lib, data, false) != [] ==>
      o.response == Response(400, ValidationFailed(ValidationErrors(lib, data, false)))
    ensures !IsEmptyString(studentId) && ValidationErrors(lib, data, false) == [] && studentId !in t ==>
      o.response == Response(404, Error(STUDENT_NOT_FOUND))
    ensures o.response == Response(400, Error(EMAIL_EXISTS_FOR_OTHER)) <==>
      && !IsEmptyString(studentId)
      && ValidationErrors(lib, data, false) == []
      && studentId in t
      && EmailTakenByOther(t, FieldOr(data, "email"), studentId)
    ensures o.response.status == 200 ==>
      && o.response.body == Done(UPDATED)
      && o.table == t[studentId := WithColumns(t[studentId], ColumnsFrom(data))]
    ensures o.table.Keys == t.Keys
    ensures TableInvariant(t) ==> TableInvariant(o.table)
  {
    if IsEmptyString(studentId) then Outcome(Response(400, Error(ID_REQUIRED)), t)
    else
      var errors := ValidationErrors(lib, data, false);
      if errors != [] then Outcome(Response(400, ValidationFailed(errors)), t)
      else if studentId !in t then Outcome(Response(404, Error(STUDENT_NOT_FOUND)), t)
      else if EmailTakenByOther(t, FieldOr(data, "email"), studentId) then
        Outcome(Response(400, Error(EMAIL_EXISTS_FOR_OTHER)), t)
      else
        var w := UpdateRow(t, studentId, ColumnsFrom(data));
        if w.status == DuplicateEntry then Outcome(Response(500, DatabaseError), t)
        else Outcome(Response(200, Done(UPDATED)), w.table)
  }

  // ---------------------------------------------------------------------------
  // Handlers, as the statements they execute against the connection

  method HandleCreateStudent(lib: PhpLibrary, db: Database, data: Fields) returns (resp: Response)
    requires db.Valid()
    modifies db
    ensures db.Valid()
    ensures Outcome(resp, db.students) == CreateOutcome(lib, old(db.students), data)
  {
    var validationErrors := ValidateStudentData(lib, data, true);
    if validationErrors != [] {
      return Response(400, ValidationFailed(validationErrors));
    }
    if FieldOr(data, "studentId") in db.students {
      return Response(400, Error(ID_EXISTS));
    }
    if EmailTaken(db.students, FieldOr(data, "email")) {
      return Response(400, Error(EMAIL_EXISTS));
    }
    var status := db.Insert(RecordFrom(data));
    if status == DuplicateEntry {
      return Response(500, DatabaseError);
    }
    resp := Response(200, Done(CREATED));
  }

  method HandleUpdateStudent(lib: PhpLibrary, db: Database, studentId: string, data: Fields)
    returns (resp: Response)
    requires db.Valid()
    modifies db
    ensures db.Valid()
    ensures Outcome(resp, db.students) == UpdateOutcome(lib, old(db.students), studentId, data)
  {
    if IsEmptyString(studentId) {
      return Response(400, Error(ID_REQUIRED));
    }
    var validationErrors := ValidateStudentData(lib, data, false);
    if validationErrors != [] {
      return Response(400, ValidationFailed(validationErrors));
    }
    if studentId !in db.students {
      return Response(404, Error(STUDENT_NOT_FOUND));
    }
    if EmailTakenByOther(db.students, FieldOr(data, "email"), studentId) {
      return Response(400, Error(EMAIL_EXISTS_FOR_OTHER));
    }
    var status := db.Update(studentId, ColumnsFrom(data));
    if status == DuplicateEntry {
      return Response(500, DatabaseError);
    }
    resp := Response(200, Done(UPDATED));
  }

  // ---------------------------------------------------------------------------
  // Routing

  /** A request: its method, the raw URI, the URI's path and the decoded body. */
  datatype Request = Request(verb: string, uri: string, path: string, body: Fields)

  datatype Endpoint =
    | Preflight
    | CheckStudent(studentId: string)
    | GetRecord(studentId: string)
    | CreateStudent
    | UpdateStudent(studentId: string)
    | UnknownEndpoint
    | MethodNotAllowed

  /** `end(explode('/', $path))`: the text after the last '/'. */
  function LastSegment(path: string): (seg: string)
    ensures |seg| <= |path| && seg == path[|path| - |seg|..]
    ensures '/' !in seg
    ensures |seg| < |path| ==> path[|path| - |seg| - 1] == '/'
    decreases |path|
  {
    if path == [] || path[|path| - 1] == '/' then []
    else LastSegment(path[..|path| - 1]) + [path[|path| - 1]]
  }

  /**
    The dispatcher: OPTIONS ends at once; GET tests "check" in the URI before
    "record"; POST needs the last segment to be "create"; PUT needs "update" in
    the URI; any other method is refused. The ID handed on is the last segment.
  */
  function Route(req: Request): (e: Endpoint)
    ensures (e.CheckStudent? || e.GetRecord? || e.UpdateStudent?) ==> e.studentId == LastSegment(req.path)
    ensures e.CheckStudent? <==> req.verb == "GET" && Contains(req.uri, "check")
    ensures e.GetRecord? <==> req.verb == "GET" && !Contains(req.uri, "check") && Contains(req.uri, "record")
    ensures e == CreateStudent <==> req.verb == "POST" && LastSegment(req.path) == "create"
    ensures e.UpdateStudent? <==> req.verb == "PUT" && Contains(req.uri, "update")
    ensures e == MethodNotAllowed <==> req.verb !in {"GET", "POST", "PUT", "OPTIONS"}
    ensures e == Preflight <==> req.verb == "OPTIONS"
    ensures e == UnknownEndpoint <==>
      || (req.verb == "GET" && !Contains(req.uri, "check") && !Contains(req.uri, "record"))
      || (req.verb == "POST" && LastSegment(req.path) != "create")
      || (req.verb == "PUT" && !Contains(req.uri, "update"))
  {
    var studentId := LastSegment(req.path);
    if req.verb == "OPTIONS" then Preflight
    else if req.verb == "GET" then
      if Contains(req.uri, "check") then CheckStudent(studentId)
      else if Contains(req.uri, "record") then GetRecord(studentId)
      else UnknownEndpoint
    else if req.verb == "POST" then
      if studentId == "create" then CreateStudent else UnknownEndpoint
    else if req.verb == "PUT" then
      if Contains(req.uri, "update") then UpdateStudent(studentId) else UnknownEndpoint
    else MethodNotAllowed
  }

  /** A record request whose ID contains "check" is answered by the check handler. */
  lemma RecordUriWithCheckRoutesToCheck()
    ensures Route(Request("GET", "/api/record/check1", "/api/record/check1", map[])) == CheckStudent("check1")
  {
    var uri := "/api/record/check1";
    assert OccursAt(uri, "check", 12);
    assert LastSegment(uri) == "check1";
  }

  /** The whole request: route, then run the handler; only create and update write. */
  function Dispatch(lib: PhpLibrary, t: Table, req: Request): (o: Outcome)
    ensures Route(req) !in {CreateStudent} && !Route(req).UpdateStudent? ==> o.table == t
    ensures req.verb !in {"GET", "POST", "PUT", "OPTIONS"} ==> o.response == Response(405, Error(METHOD_NOT_ALLOWED))
    ensures Route(req) == Preflight ==> o.response == Response(200, NoContent)
    ensures Route(req) == UnknownEndpoint ==> o.response == Response(404, Error(ENDPOINT_NOT_FOUND))
    ensures Route(req).CheckStudent? ==> o.response == HandleCheckStudent(t, Route(req).studentId)
    ensures Route(req).GetRecord? ==> o.response == HandleGetRecord(t, Route(req).studentId)
    ensures Route(req) == CreateStudent ==> o == CreateOutcome(lib, t, req.body)
    ensures Route(req).UpdateStudent? ==> o == UpdateOutcome(lib, t, Route(req).studentId, req.body)
    ensures TableInvariant(t) ==> TableInvariant(o.table)
  {
    match Route(req)
    case Preflight => Outcome(Response(200, NoContent), t)
    case CheckStudent(studentId) => Outcome(HandleCheckStudent(t, studentId), t)
    case GetRecord(studentId) => Outcome(HandleGetRecord(t, studentId), t)
    case CreateStudent => CreateOutcome(lib, t, req.body)
    case UpdateStudent(studentId) => UpdateOutcome(lib, t, studentId, req.body)
    case UnknownEndpoint => Outcome(Response(404, Error(ENDPOINT_NOT_FOUND)), t)
    case MethodNotAllowed => Outcome(Response(405, Error(METHOD_NOT_ALLOWED)), t)
  }

  method Serve(lib: PhpLibrary, db: Database, req: Request) returns (resp: Response)
    requires db.Valid()
    modifies db
    ensures db.Valid()
    ensures Outcome(resp, db.students) == Dispatch(lib, old(db.students), req)
  {
    match Route(req)
    case Preflight =>
      resp := Response(200, NoContent);
    case CheckStudent(studentId) =>
      resp := HandleCheckStudent(db.students, studentId);
    case GetRecord(studentId) =>
      resp := HandleGetRecord(db.students, studentId);
    case CreateStudent =>
      resp := HandleCreateStudent(lib, db, req.body);
    case UpdateStudent(studentId) =>
      resp := HandleUpdateStudent(lib, db, studentId, req.body);
    case UnknownEndpoint =>
      resp := Response(404, Error(ENDPOINT_NOT_FOUND));
    case MethodNotAllowed =>
      resp := Response(405, Error(METHOD_NOT_ALLOWED));
  }

  // ---------------------------------------------------------------------------
  // Properties across requests

  /** A successful create is visible to the next check with exactly the submitted fields. */
  lemma CreateThenCheck(lib: PhpLibrary, t: Table, data: Fields)
    requires CreateOutcome(lib, t, data).response.status == 200
    ensures var o := CreateOutcome(lib, t, data);
      HandleCheckStudent(o.table, FieldOr(data, "studentId")) == Response(200, Exists(RecordFrom(data)))
    ensures var o := CreateOutcome(lib, t, data);
      HandleGetRecord(o.table, FieldOr(data, "studentId")) == Response(200, Row(RecordFrom(data)))
  {
    ValidFieldsPresent(lib, data, true);
  }

  /** An update that keeps the row's own email is not refused as a duplicate. */
  lemma UpdateKeepingOwnEmail(lib: PhpLibrary, t: Table, studentId: string, data: Fields)
    requires TableInvariant(t)
    requires !IsEmptyString(studentId) && studentId in t
    requires ValidationErrors(lib, data, false) == []
    requires FieldOr(data, "email") == t[studentId].email
    ensures UpdateOutcome(lib, t, studentId, data).response == Response(200, Done(UPDATED))
  {
    forall other | other in t && other != studentId
      ensures t[other].email != FieldOr(data, "email")
    {
    }
  }

  /** A successful update keeps the key and leaves every other row as it was. */
  lemma UpdateTouchesOneRow(lib: PhpLibrary, t: Table, studentId: string, data: Fields, other: string)
    requires TableInvariant(t)
    requires UpdateOutcome(lib, t, studentId, data).response.status == 200
    requires other in t && other != studentId
    ensures var t' := UpdateOutcome(lib, t, studentId, data).table;
      && t'[studentId].studentId == studentId
      && t'[other] == t[other]
      && |t'| == |t|
  {
  }
}
