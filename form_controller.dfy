/**
  The browser-side form controller: the client's own validation, the email
  pattern, and the enablement state machine over the seven inputs and the
  Save / Update / Reset buttons. Network replies are parameters; the DOM is
  reduced to the `value` and `disabled` properties and to which status
  message is showing.
*/
module FormController {
  import opened Students
  import opened Text
  import ExpressServer

  // ---------------------------------------------------------------------------
  // White space and String.prototype.trim
  // ---------------------------------------------------------------------------

  /**
    The characters of the JavaScript `\s` class, which are also the ones `trim`
    removes: the WhiteSpace code points (TAB, VT, FF, SPACE, NBSP, the Zs
    separators, BOM) and the LineTerminator code points (LF, CR, LS, PS).
  */
  predicate IsJsWhitespace(c: char) {
    var n := c as int;
    (9 <= n <= 13) || n == 0x20 || n == 0xA0 || n == 0x1680 || (0x2000 <= n <= 0x200A)
    || n == 0x2028 || n == 0x2029 || n == 0x202F || n == 0x205F || n == 0x3000 || n == 0xFEFF
  }

  predicate AllWhitespace(s: string) {
    forall k :: 0 <= k < |s| ==> IsJsWhitespace(s[k])
  }

  predicate NoWhitespace(s: string) {
    forall k :: 0 <= k < |s| ==> !IsJsWhitespace(s[k])
  }

  /** `s` with its leading white space removed. */
  function TrimStart(s: string): (r: string)
    ensures |r| <= |s|
    ensures r == [] || !IsJsWhitespace(r[0])
  {
    if |s| > 0 && IsJsWhitespace(s[0]) then TrimStart(s[1..]) else s
  }

  /** What TrimStart drops is white space, and what it keeps is the rest of `s`. */
  lemma {:induction false} TrimStartSplits(s: string)
    ensures var r := TrimStart(s);
      r == s[|s| - |r|..] && AllWhitespace(s[..|s| - |r|])
  {
    if |s| > 0 && IsJsWhitespace(s[0]) {
      TrimStartSplits(s[1..]);
      var r := TrimStart(s);
      assert s[..|s| - |r|] == [s[0]] + s[1..][..|s| - 1 - |r|];
    }
  }

  /** `s` with its trailing white space removed. */
  function TrimEnd(s: string): (r: string)
    ensures |r| <= |s|
    ensures r == [] || !IsJsWhitespace(r[|r| - 1])
  {
    if |s| > 0 && IsJsWhitespace(s[|s| - 1]) then TrimEnd(s[..|s| - 1]) else s
  }

  /** What TrimEnd drops is white space, and what it keeps is the start of `s`. */
  lemma {:induction false} TrimEndSplits(s: string)
    ensures var r := TrimEnd(s);
      r == s[..|r|] && AllWhitespace(s[|r|..])
  {
    if |s| > 0 && IsJsWhitespace(s[|s| - 1]) {
      TrimEndSplits(s[..|s| - 1]);
      var r := TrimEnd(s);
      assert s[|r|..] == s[..|s| - 1][|r|..] + [s[|s| - 1]];
    }
  }

  /**
    `s.trim()`: the longest infix of `s` that neither starts nor ends with white
    space, empty exactly when `s` is white space only.
  */
  function Trim(s: string): (r: string)
    ensures |r| <= |s|
    ensures r == [] <==> AllWhitespace(s)
    ensures r != [] ==> !IsJsWhitespace(r[0]) && !IsJsWhitespace(r[|r| - 1])
  {
    var front := TrimStart(s);
    var r := TrimEnd(front);
    TrimStartSplits(s);
    TrimEndSplits(front);
    if r == [] then
      assert s == s[..|s| - |front|] + front;
      assert AllWhitespace(front) by { assert front == front[|r|..]; }
      r
    else
      assert r[0] == front[0];
      r
  }

  /** What trim keeps is a contiguous piece of its input, and only white space is dropped around it. */
  lemma TrimIsInfix(s: string)
    ensures exists i :: (0 <= i <= |s| - |Trim(s)| && OccursAt(s, Trim(s), i)
                         && AllWhitespace(s[..i]) && AllWhitespace(s[i + |Trim(s)|..]))
  {
    var front := TrimStart(s);
    var i := |s| - |front|;
    var r := TrimEnd(front);
    TrimStartSplits(s);
    TrimEndSplits(front);
    assert s[i..i + |r|] == r;
    assert s[i + |r|..] == front[|r|..];
  }

  /** A string that is already trimmed comes back unchanged. */
  lemma {:induction false} TrimOfTrimmed(s: string)
    requires s == [] || (!IsJsWhitespace(s[0]) && !IsJsWhitespace(s[|s| - 1]))
    ensures Trim(s) == s
  {
    assert TrimStart(s) == s;
    assert TrimEnd(s) == s;
  }

  // ---------------------------------------------------------------------------
  // isValidEmail
  // ---------------------------------------------------------------------------

  /** No character of `s` is white space or '@': a run of the class `[^\s@]`. */
  predicate NoSpaceOrAt(s: string) {
    forall k :: 0 <= k < |s| ==> !IsJsWhitespace(s[k]) && s[k] != '@'
  }

  /**
    `/^[^\s@]+@[^\s@]+\.[^\s@]+$/.test(email)`. Without the multiline flag the
    anchors hold only at the two ends of the string, so a match is a split
    local '@' host '.' tail into three non-empty runs of `[^\s@]`.
  */
  predicate IsValidEmail(email: string) {
    exists at | 0 < at < |email| ::
      exists dot | at + 1 < dot < |email| - 1 ::
        && email[at] == '@' && email[dot] == '.'
        && NoSpaceOrAt(email[..at]) && NoSpaceOrAt(email[at + 1..dot]) && NoSpaceOrAt(email[dot + 1..])
  }

  /** `s` holds exactly one '@', at index `at`. */
  predicate OnlyAtSignAt(s: string, at: int) {
    0 <= at < |s| && s[at] == '@' && forall k :: 0 <= k < |s| && k != at ==> s[k] != '@'
  }

  /** The domain `s[at + 1..]` holds a '.' that is neither its first nor its last character. */
  predicate DomainHasInnerDot(s: string, at: int) {
    exists dot :: 0 < dot < |s| - 1 && at + 1 < dot && s[dot] == '.'
  }

  /** The shape the pattern describes, stated position by position. */
  predicate EmailShape(email: string) {
    && NoWhitespace(email)
    && (exists at | 0 < at < |email| :: OnlyAtSignAt(email, at) && DomainHasInnerDot(email, at))
  }

  /** A match of the pattern has the shape: its '@' is the only one, and nothing in it is white space. */
  lemma {:induction false} MatchHasEmailShape(email: string)
    requires IsValidEmail(email)
    ensures EmailShape(email)
  {
    var at, dot :| 0 < at < |email| && at + 1 < dot < |email| - 1
      && email[at] == '@' && email[dot] == '.'
      && NoSpaceOrAt(email[..at]) && NoSpaceOrAt(email[at + 1..dot]) && NoSpaceOrAt(email[dot + 1..]);
    forall k | 0 <= k < |email| && k != at && k != dot
      ensures !IsJsWhitespace(email[k]) && email[k] != '@'
    {
      if k < at {
        assert email[k] == email[..at][k];
      } else if k < dot {
        assert email[k] == email[at + 1..dot][k - at - 1];
      } else {
        assert email[k] == email[dot + 1..][k - dot - 1];
      }
    }
    assert !IsJsWhitespace(email[at]) && !IsJsWhitespace(email[dot]);
    assert OnlyAtSignAt(email, at) && DomainHasInnerDot(email, at);
  }

  /** Every string of that shape matches the pattern, split at its '@' and at a dot inside the domain. */
  lemma {:induction false} EmailShapeMatches(email: string)
    requires EmailShape(email)
    ensures IsValidEmail(email)
  {
    var at :| 0 < at < |email| && OnlyAtSignAt(email, at) && DomainHasInnerDot(email, at);
    var dot :| 0 < dot < |email| - 1 && at + 1 < dot && email[dot] == '.';
    assert NoSpaceOrAt(email[..at]);
    assert NoSpaceOrAt(email[at + 1..dot]);
    assert NoSpaceOrAt(email[dot + 1..]);
  }

  /**
    The pattern, described without it: no white space, exactly one '@', a
    non-empty local part, and a dot inside the domain.
  */
  lemma EmailPatternCharacterized(email: string)
    ensures IsValidEmail(email) <==> EmailShape(email)
  {
    if IsValidEmail(email) {
      MatchHasEmailShape(email);
    }
    if EmailShape(email) {
      EmailShapeMatches(email);
    }
  }

  /** An address the pattern accepts has no white space, so trimming it changes nothing. */
  lemma ValidEmailIsTrimmed(email: string)
    requires IsValidEmail(email)
    ensures Trim(email) == email
  {
    EmailPatternCharacterized(email);
    TrimOfTrimmed(email);
  }

  // ---------------------------------------------------------------------------
  // Calling the API
  // ---------------------------------------------------------------------------

  function DigitChar(d: nat): char
    requires d < 10
  {
    "0123456789"[d]
  }

  /** `${n}` for a non-negative integer: its decimal digits, most significant first. */
  function Decimal(n: nat): (s: string)
    ensures |s| > 0
    ensures forall k :: 0 <= k < |s| ==> '0' <= s[k] <= '9'
    decreases n
  {
    if n < 10 then [DigitChar(n)] else Decimal(n / 10) + [DigitChar(n % 10)]
  }

  /** The number a string of decimal digits denotes. */
  function DigitsValue(s: string): nat
    requires forall k :: 0 <= k < |s| ==> '0' <= s[k] <= '9'
  {
    if s == [] then 0 else DigitsValue(s[..|s| - 1]) * 10 + (s[|s| - 1] as int - '0' as int)
  }

  /** The decimal rendering of a status loses nothing. */
  lemma {:induction false} DecimalRoundTrip(n: nat)
    ensures DigitsValue(Decimal(n)) == n
    decreases n
  {
    if n >= 10 {
      var s := Decimal(n);
      assert s[..|s| - 1] == Decimal(n / 10);
      DecimalRoundTrip(n / 10);
    }
  }

  /** The message checkStudentId, saveRecord and updateRecord throw on a response that is not OK. */
  function ServerErrorMessage(status: nat): string {
    "Server error: " + Decimal(status)
  }

  const ALREADY_EXISTS := "already exists"

  /** A thrown "Server error: <status>" never reads as a duplicate. */
  lemma ServerErrorIsNotDuplicate(status: nat)
    ensures !Contains(ServerErrorMessage(status), ALREADY_EXISTS)
  {
    var m := ServerErrorMessage(status);
    forall k | 0 <= k < |m| ensures m[k] != 'a' {
      if k >= 14 {
        assert m[k] == Decimal(status)[k - 14];
      }
    }
    forall i | 0 <= i <= |m| ensures !OccursAt(m, ALREADY_EXISTS, i) {
      if i + |ALREADY_EXISTS| <= |m| {
        assert m[i..i + |ALREADY_EXISTS|][0] == m[i];
      }
    }
  }

  /**
    How one `fetch` of the API ends, as the page sees it: the decoded body of
    an OK response, a response whose status is outside 200-299, or a rejected
    promise (no connection, or a body that is not JSON) with its message.
  */
  datatype Reply<T> = Ok(body: T) | HttpError(status: nat) | Rejected(message: string)

  /** What an API helper hands back to its caller: a value, or an Error it throws. */
  datatype Settled<T> = Returned(value: T) | Thrown(message: string)

  /** checkStudentId / saveRecord / updateRecord: a response that is not OK becomes a thrown "Server error". */
  function ApiCall<T>(reply: Reply<T>): (r: Settled<T>)
    ensures r.Returned? <==> reply.Ok?
    ensures reply.Ok? ==> r.value == reply.body
    ensures reply.HttpError? ==> r == Thrown(ServerErrorMessage(reply.status))
    ensures reply.Rejected? ==> r == Thrown(reply.message)
  {
    match reply
    case Ok(body) => Returned(body)
    case HttpError(status) => Thrown(ServerErrorMessage(status))
    case Rejected(message) => Thrown(message)
  }

  /** The body of a check reply: its `exists` flag, and the stored `record` when it is present. */
  datatype CheckResult = CheckResult(found: bool, record: Option<Fields>)

  /** The body of a create or update reply, as far as the page reads it. */
  datatype Acknowledgement = Acknowledgement(success: bool)

  /** The body of an update request, with the key that goes in its path. */
  datatype UpdateRequest = UpdateRequest(studentId: string, columns: Columns)

  /** `JSON.stringify` of a create payload, as the server decodes it. */
  function RecordFields(r: Record): (f: Fields)
    ensures RecordFrom(f) == r
  {
    map["studentId" := r.studentId, "firstName" := r.firstName, "lastName" := r.lastName, "email" := r.email,
        "birthDate" := r.birthDate, "enrollmentDate" := r.enrollmentDate, "program" := r.program]
  }

  /** `JSON.stringify` of an update payload, as the server decodes it. */
  function ColumnsFields(c: Columns): (f: Fields)
    ensures ColumnsFrom(f) == c && "studentId" !in f
  {
    map["firstName" := c.firstName, "lastName" := c.lastName, "email" := c.email,
        "birthDate" := c.birthDate, "enrollmentDate" := c.enrollmentDate, "program" := c.program]
  }

  // ---------------------------------------------------------------------------
  // The form's state
  // ---------------------------------------------------------------------------

  /** The `value` of each of the seven inputs. */
  datatype FormValues = FormValues(
    studentId: string,
    firstName: string,
    lastName: string,
    email: string,
    birthDate: string,
    enrollmentDate: string,
    program: string)

  /** What `form.reset()` restores: inputs without a default value, and the select's empty placeholder. */
  const BLANK := FormValues("", "", "", "", "", "", "")

  /** The `disabled` flag of each control. */
  datatype Locks = Locks(
    studentId: bool,
    firstName: bool,
    lastName: bool,
    email: bool,
    birthDate: bool,
    enrollmentDate: bool,
    program: bool,
    save: bool,
    update: bool,
    reset: bool)

  /** Which status message is showing (its text and colour are not modelled). */
  datatype Notice =
    | Hidden
    | EnterStudentId       // 'Please enter a Student ID'
    | CheckingId
    | RecordFound
    | RecordNotFound
    | CheckFailed
    | FixBeforeSaving
    | Saving
    | SaveSucceeded
    | AlreadyExists        // 'Student ID or email already exists'
    | SaveFailed
    | FixBeforeUpdating
    | Updating
    | UpdateSucceeded
    | UpdateFailed

  datatype FormState = FormState(values: FormValues, disabled: Locks, notice: Notice)

  /** The page as the markup delivers it, before DOMContentLoaded: every control enabled and empty. */
  const PAGE_LOADED := FormState(BLANK, Locks(false, false, false, false, false, false, false, false, false, false), Hidden)

  predicate DataFieldsDisabled(d: Locks) {
    d.firstName && d.lastName && d.email && d.birthDate && d.enrollmentDate && d.program
  }

  predicate DataFieldsEnabled(d: Locks) {
    !d.firstName && !d.lastName && !d.email && !d.birthDate && !d.enrollmentDate && !d.program
  }

  /**
    What every handler keeps: Reset is always available; Save and Update are
    never both enabled; while Update is enabled the ID field is locked, so the
    key an update is sent to is the one that was found; and while either
    submits, the six data fields are editable.
  */
  predicate Consistent(d: Locks) {
    && !d.reset
    && (d.save || d.update)
    && (!d.update ==> d.studentId)
    && (!d.save || !d.update ==> DataFieldsEnabled(d))
  }

  /** One handler run: the state it leaves, the request it sent (if any), and whether it scheduled a reset. */
  datatype Step<P> = Step(state: FormState, sent: Option<P>, resetScheduled: bool)

  // ---------------------------------------------------------------------------
  // The transitions, as functions of the state
  // ---------------------------------------------------------------------------

  /** initializeForm: values cleared, data fields, Save and Update locked, Reset enabled, no message. */
  function Initialized(s: FormState): (t: FormState)
    ensures t.values == BLANK && t.notice == Hidden
    ensures DataFieldsDisabled(t.disabled) && t.disabled.save && t.disabled.update && !t.disabled.reset
    ensures t.disabled.studentId == s.disabled.studentId
    ensures Consistent(t.disabled)
  {
    FormState(BLANK,
              s.disabled.(firstName := true, lastName := true, email := true, birthDate := true,
                          enrollmentDate := true, program := true, save := true, update := true, reset := false),
              Hidden)
  }

  /** populateForm: the six data fields take the record's values ('' when absent) and are enabled. */
  function Populated(s: FormState, record: Fields): (t: FormState)
    ensures t.values == s.values.(firstName := FieldOr(record, "firstName"), lastName := FieldOr(record, "lastName"),
                                  email := FieldOr(record, "email"), birthDate := FieldOr(record, "birthDate"),
                                  enrollmentDate := FieldOr(record, "enrollmentDate"), program := FieldOr(record, "program"))
    ensures DataFieldsEnabled(t.disabled)
    ensures t.disabled.(firstName := false, lastName := false, email := false, birthDate := false,
                        enrollmentDate := false, program := false) == t.disabled
    ensures t.disabled.studentId == s.disabled.studentId && t.disabled.save == s.disabled.save
    ensures t.disabled.update == s.disabled.update && t.disabled.reset == s.disabled.reset
    ensures t.notice == s.notice
  {
    var record := RecordFrom(record);
    FormState(
      s.values.(firstName := record.firstName, lastName := record.lastName, email := record.email,
                birthDate := record.birthDate, enrollmentDate := record.enrollmentDate, program := record.program),
      s.disabled.(firstName := false, lastName := false, email := false, birthDate := false,
                  enrollmentDate := false, program := false),
      s.notice)
  }

  /** enableFormForNewEntry: the six data fields cleared and enabled, Save enabled, Update locked. */
  function OpenedForNewEntry(s: FormState): (t: FormState)
    ensures t.values == BLANK.(studentId := s.values.studentId)
    ensures DataFieldsEnabled(t.disabled) && !t.disabled.save && t.disabled.update
    ensures t.disabled.studentId == s.disabled.studentId && t.disabled.reset == s.disabled.reset
    ensures t.notice == s.notice
  {
    FormState(
      s.values.(firstName := "", lastName := "", email := "", birthDate := "", enrollmentDate := "", program := ""),
      s.disabled.(firstName := false, lastName := false, email := false, birthDate := false,
                  enrollmentDate := false, program := false, save := false, update := true),
      s.notice)
  }

  /**
    What validateForm accepts: ID, names and email non-blank once trimmed, the
    email matching the pattern (untrimmed), dates and program non-empty as they
    stand, and an enrollment date that `new Date` does not place at or before
    the birth date.
  */
  predicate FormValid(jsDate: string -> Option<int>, v: FormValues) {
    && Trim(v.studentId) != ""
    && Trim(v.firstName) != ""
    && Trim(v.lastName) != ""
    && Trim(v.email) != "" && IsValidEmail(v.email)
    && v.birthDate != ""
    && v.enrollmentDate != ""
    && v.program != ""
    && !JsDateLeq(jsDate(v.enrollmentDate), jsDate(v.birthDate))
  }

  /**
    validateForm's verdict without trim or the pattern: ID and names not white
    space only, the email of the pattern's shape (so never blank), dates and
    program non-empty, and two dates that both parse in strictly increasing order.
  */
  lemma FormValidCharacterized(jsDate: string -> Option<int>, v: FormValues)
    ensures FormValid(jsDate, v) <==>
      && !AllWhitespace(v.studentId) && !AllWhitespace(v.firstName) && !AllWhitespace(v.lastName)
      && EmailShape(v.email)
      && v.birthDate != "" && v.enrollmentDate != "" && v.program != ""
      && (jsDate(v.birthDate).Some? && jsDate(v.enrollmentDate).Some? ==>
            jsDate(v.birthDate).value < jsDate(v.enrollmentDate).value)
  {
    EmailPatternCharacterized(v.email);
    if EmailShape(v.email) {
      var at :| 0 < at < |v.email| && OnlyAtSignAt(v.email, at) && DomainHasInnerDot(v.email, at);
      assert !IsJsWhitespace(v.email[0]);
    }
  }

  /** The record handleSave posts: the text fields trimmed, the dates and program as they stand. */
  function SavePayload(v: FormValues): Record {
    Record(Trim(v.studentId), Trim(v.firstName), Trim(v.lastName), Trim(v.email),
           v.birthDate, v.enrollmentDate, v.program)
  }

  /** The request handleUpdate sends: the trimmed ID in the path, the six columns (no studentId) in the body. */
  function UpdatePayload(v: FormValues): UpdateRequest {
    UpdateRequest(Trim(v.studentId),
                  Columns(Trim(v.firstName), Trim(v.lastName), Trim(v.email), v.birthDate, v.enrollmentDate, v.program))
  }

  /**
    handleStudentIdCheck. A blank ID only shows a message. Otherwise the
    trimmed ID is checked: a found record fills and unlocks the data fields,
    locks the ID and Save and enables Update; a missing one opens the form for
    a new entry; a failure (including a found reply without a record, on which
    populateForm throws) only shows a message.
  */
  function IdCheckStep(s: FormState, reply: Reply<CheckResult>): (t: Step<string>)
    ensures !t.resetScheduled
    ensures t.sent == None <==> Trim(s.values.studentId) == ""
    ensures t.sent.Some? ==> t.sent.value == Trim(s.values.studentId)
    ensures t.sent == None ==> t.state == s.(notice := EnterStudentId)
    ensures t.sent.Some? && reply.Ok? && reply.body.found && reply.body.record.Some? ==>
      && t.state.values == Populated(s, reply.body.record.value).values
      && DataFieldsEnabled(t.state.disabled)
      && t.state.disabled.studentId && t.state.disabled.save && !t.state.disabled.update
      && t.state.notice == RecordFound
    ensures t.sent.Some? && reply.Ok? && !reply.body.found ==>
      t.state == OpenedForNewEntry(s).(notice := RecordNotFound)
    ensures t.sent.Some? && !(reply.Ok? && reply.body.found && reply.body.record.Some?) && !(reply.Ok? && !reply.body.found) ==>
      t.state == s.(notice := CheckFailed)
    ensures t.state.disabled.reset == s.disabled.reset
  {
    var studentId := Trim(s.values.studentId);
    if studentId == "" then Step(s.(notice := EnterStudentId), None, false)
    else
      match ApiCall(reply)
      case Thrown(_) => Step(s.(notice := CheckFailed), Some(studentId), false)
      case Returned(result) =>
        if !result.found then Step(OpenedForNewEntry(s).(notice := RecordNotFound), Some(studentId), false)
        else if result.record.None? then Step(s.(notice := CheckFailed), Some(studentId), false)
        else
          var p := Populated(s, result.record.value);
          Step(p.(disabled := p.disabled.(studentId := true, save := true, update := false), notice := RecordFound),
               Some(studentId), false)
  }

  /**
    handleSave. An invalid form sends nothing. A valid one posts the trimmed
    record; a reply with `success` shows the confirmation and schedules the
    reset; a thrown error shows the duplicate message only when its text
    contains "already exists". No field value or flag changes here.
  */
  function SaveStep(s: FormState, jsDate: string -> Option<int>, reply: Reply<Acknowledgement>): (t: Step<Record>)
    ensures t.state == s.(notice := t.state.notice)
    ensures t.sent.Some? <==> FormValid(jsDate, s.values)
    ensures t.sent.Some? ==> t.sent.value == SavePayload(s.values)
    ensures t.sent == None ==> t.state.notice == FixBeforeSaving
    ensures t.resetScheduled <==> t.sent.Some? && reply == Ok(Acknowledgement(true))
    ensures t.resetScheduled <==> t.state.notice == SaveSucceeded
    ensures t.sent.Some? && reply.Rejected? ==>
      (t.state.notice == AlreadyExists <==> Contains(reply.message, ALREADY_EXISTS))
    ensures t.sent.Some? && reply.Rejected? && !Contains(reply.message, ALREADY_EXISTS) ==> t.state.notice == SaveFailed
    ensures t.sent.Some? && reply.HttpError? ==> t.state.notice == SaveFailed
    ensures t.sent.Some? && reply.Ok? && !reply.body.success ==> t.state.notice == Saving
  {
    if !FormValid(jsDate, s.values) then Step(s.(notice := FixBeforeSaving), None, false)
    else
      var record := SavePayload(s.values);
      match ApiCall(reply)
      case Returned(result) =>
        if result.success then Step(s.(notice := SaveSucceeded), Some(record), true)
        else Step(s.(notice := Saving), Some(record), false)
      case Thrown(message) =>
        assert reply.HttpError? ==> !Contains(message, ALREADY_EXISTS) by {
          if reply.HttpError? { ServerErrorIsNotDuplicate(reply.status); }
        }
        Step(s.(notice := if Contains(message, ALREADY_EXISTS) then AlreadyExists else SaveFailed), Some(record), false)
  }

  /**
    handleUpdate. An invalid form sends nothing. A valid one puts the six
    trimmed columns to the trimmed ID; a reply with `success` shows the
    confirmation and schedules the reset; any thrown error shows the generic
    failure. No field value or flag changes here.
  */
  function UpdateStep(s: FormState, jsDate: string -> Option<int>, reply: Reply<Acknowledgement>): (t: Step<UpdateRequest>)
    ensures t.state == s.(notice := t.state.notice)
    ensures t.sent.Some? <==> FormValid(jsDate, s.values)
    ensures t.sent.Some? ==> t.sent.value == UpdatePayload(s.values)
    ensures t.sent == None ==> t.state.notice == FixBeforeUpdating
    ensures t.resetScheduled <==> t.sent.Some? && reply == Ok(Acknowledgement(true))
    ensures t.sent.Some? && !reply.Ok? ==> t.state.notice == UpdateFailed
    ensures t.sent.Some? && reply.Ok? && reply.body.success ==> t.state.notice == UpdateSucceeded
    ensures t.sent.Some? && reply.Ok? && !reply.body.success ==> t.state.notice == Updating
  {
    if !FormValid(jsDate, s.values) then Step(s.(notice := FixBeforeUpdating), None, false)
    else
      var request := UpdatePayload(s.values);
      match ApiCall(reply)
      case Returned(result) =>
        if result.success then Step(s.(notice := UpdateSucceeded), Some(request), true)
        else Step(s.(notice := Updating), Some(request), false)
      case Thrown(_) => Step(s.(notice := UpdateFailed), Some(request), false)
  }

  // ---------------------------------------------------------------------------
  // The controller
  // ---------------------------------------------------------------------------

  class StudentForm {
    var values: FormValues
    var disabled: Locks
    var notice: Notice

    function State(): FormState
      reads this
    {
      FormState(values, disabled, notice)
    }

    ghost predicate Valid()
      reads this
    {
      Consistent(disabled)
    }

    /** Page load: DOMContentLoaded runs initializeForm on the page as delivered. */
    constructor ()
      ensures Valid()
      ensures State() == Initialized(PAGE_LOADED)
    {
      values, disabled, notice := PAGE_LOADED.values, PAGE_LOADED.disabled, PAGE_LOADED.notice;
      new;
      InitializeForm();
    }

    /** initializeForm (also the Reset button, and the reset a successful submit schedules). */
    method InitializeForm()
      modifies this
      ensures Valid()
      ensures State() == Initialized(old(State()))
    {
      values := BLANK;
      disabled := disabled.(firstName := true);
      disabled := disabled.(lastName := true);
      disabled := disabled.(email := true);
      disabled := disabled.(birthDate := true);
      disabled := disabled.(enrollmentDate := true);
      disabled := disabled.(program := true);
      disabled := disabled.(save := true);
      disabled := disabled.(update := true);
      disabled := disabled.(reset := false);
      notice := Hidden;
    }

    /** populateForm */
    method PopulateForm(record: Fields)
      requires Valid()
      modifies this
      ensures Valid()
      ensures State() == Populated(old(State()), record)
    {
      values := values.(firstName := FieldOr(record, "firstName"), lastName := FieldOr(record, "lastName"),
                        email := FieldOr(record, "email"), birthDate := FieldOr(record, "birthDate"),
                        enrollmentDate := FieldOr(record, "enrollmentDate"), program := FieldOr(record, "program"));
      disabled := disabled.(firstName := false, lastName := false, email := false, birthDate := false,
                            enrollmentDate := false, program := false);
    }

    /** enableFormForNewEntry */
    method EnableFormForNewEntry()
      requires Valid()
      modifies this
      ensures Valid()
      ensures State() == OpenedForNewEntry(old(State()))
    {
      values := values.(firstName := "");
      values := values.(lastName := "");
      values := values.(email := "");
      values := values.(birthDate := "");
      values := values.(enrollmentDate := "");
      values := values.(program := "");
      disabled := disabled.(firstName := false);
      disabled := disabled.(lastName := false);
      disabled := disabled.(email := false);
      disabled := disabled.(birthDate := false);
      disabled := disabled.(enrollmentDate := false);
      disabled := disabled.(program := false);
      disabled := disabled.(save := false);
      disabled := disabled.(update := true);
    }

    /** validateForm: clears `isValid` at each failing check (the error texts it shows are not modelled). */
    method ValidateForm(jsDate: string -> Option<int>) returns (isValid: bool)
      ensures isValid == FormValid(jsDate, values)
    {
      isValid := true;
      if Trim(values.studentId) == "" {
        isValid := false;
      }
      if Trim(values.firstName) == "" {
        isValid := false;
      }
      if Trim(values.lastName) == "" {
        isValid := false;
      }
      if Trim(values.email) == "" {
        isValid := false;
      } else if !IsValidEmail(values.email) {
        isValid := false;
      }
      if values.birthDate == "" {
        isValid := false;
      }
      if values.enrollmentDate == "" {
        isValid := false;
      }
      if values.program == "" {
        isValid := false;
      }
      if values.birthDate != "" && values.enrollmentDate != "" {
        var birthDate := jsDate(values.birthDate);
        var enrollmentDate := jsDate(values.enrollmentDate);
        if JsDateLeq(enrollmentDate, birthDate) {
          isValid := false;
        }
      }
    }

    /** handleStudentIdCheck, with the check's reply as a parameter; returns the ID it asked about. */
    method HandleStudentIdCheck(reply: Reply<CheckResult>) returns (sent: Option<string>)
      requires Valid()
      modifies this
      ensures Valid()
      ensures Step(State(), sent, false) == IdCheckStep(old(State()), reply)
    {
      var studentId := Trim(values.studentId);
      if studentId == "" {
        notice := EnterStudentId;
        return None;
      }
      notice := CheckingId;
      sent := Some(studentId);
      match ApiCall(reply) {
        case Thrown(_) =>
          notice := CheckFailed;
        case Returned(result) =>
          if !result.found {
            EnableFormForNewEntry();
            notice := RecordNotFound;
          } else if result.record.None? {
            notice := CheckFailed;
          } else {
            PopulateForm(result.record.value);
            disabled := disabled.(studentId := true);
            disabled := disabled.(save := true);
            disabled := disabled.(update := false);
            notice := RecordFound;
          }
      }
    }

    /** handleSave, with the create reply as a parameter; returns the record it posted and whether a reset is due. */
    method HandleSave(jsDate: string -> Option<int>, reply: Reply<Acknowledgement>)
      returns (sent: Option<Record>, resetScheduled: bool)
      requires Valid()
      modifies this
      ensures Valid()
      ensures Step(State(), sent, resetScheduled) == SaveStep(old(State()), jsDate, reply)
    {
      var isValid := ValidateForm(jsDate);
      if !isValid {
        notice := FixBeforeSaving;
        return None, false;
      }
      var record := Record(Trim(values.studentId), Trim(values.firstName), Trim(values.lastName), Trim(values.email),
                           values.birthDate, values.enrollmentDate, values.program);
      notice := Saving;
      sent, resetScheduled := Some(record), false;
      match ApiCall(reply) {
        case Returned(result) =>
          if result.success {
            notice := SaveSucceeded;
            resetScheduled := true;
          }
        case Thrown(message) =>
          if Contains(message, ALREADY_EXISTS) {
            notice := AlreadyExists;
          } else {
            notice := SaveFailed;
          }
      }
    }

    /** handleUpdate, with the update reply as a parameter; returns the request it sent and whether a reset is due. */
    method HandleUpdate(jsDate: string -> Option<int>, reply: Reply<Acknowledgement>)
      returns (sent: Option<UpdateRequest>, resetScheduled: bool)
      requires Valid()
      modifies this
      ensures Valid()
      ensures Step(State(), sent, resetScheduled) == UpdateStep(old(State()), jsDate, reply)
    {
      var isValid := ValidateForm(jsDate);
      if !isValid {
        notice := FixBeforeUpdating;
        return None, false;
      }
      var record := Columns(Trim(values.firstName), Trim(values.lastName), Trim(values.email),
                            values.birthDate, values.enrollmentDate, values.program);
      notice := Updating;
      sent, resetScheduled := Some(UpdateRequest(Trim(values.studentId), record)), false;
      match ApiCall(reply) {
        case Returned(result) =>
          if result.success {
            notice := UpdateSucceeded;
            resetScheduled := true;
          }
        case Thrown(_) =>
          notice := UpdateFailed;
      }
    }
  }

  // ---------------------------------------------------------------------------
  // Properties of the controller
  // ---------------------------------------------------------------------------

  /** Every handler keeps the form consistent. */
  lemma TransitionsKeepConsistency(s: FormState, jsDate: string -> Option<int>, check: Reply<CheckResult>,
                                   ack: Reply<Acknowledgement>)
    requires Consistent(s.disabled)
    ensures Consistent(IdCheckStep(s, check).state.disabled)
    ensures Consistent(SaveStep(s, jsDate, ack).state.disabled)
    ensures Consistent(UpdateStep(s, jsDate, ack).state.disabled)
  {
  }

  /**
    A server that refuses a create answers with a status that is not OK, so the
    page throws "Server error: <status>" and never shows the duplicate message.
  */
  lemma RejectedCreateNeverReportsDuplicate(s: FormState, jsDate: string -> Option<int>, status: nat)
    ensures SaveStep(s, jsDate, HttpError(status)).state.notice != AlreadyExists
  {
    ServerErrorIsNotDuplicate(status);
  }

  /**
    After Reset, a record that was found leaves the ID field locked: every input
    and both submit buttons are disabled, and Reset leads back to the same state.
  */
  lemma ResetAfterFoundRecordLocksForm(s: FormState, reply: Reply<CheckResult>)
    requires reply.Ok? && reply.body.found && reply.body.record.Some?
    requires Trim(s.values.studentId) != ""
    ensures var stuck := Initialized(IdCheckStep(s, reply).state);
      && stuck.disabled.studentId && DataFieldsDisabled(stuck.disabled)
      && stuck.disabled.save && stuck.disabled.update
      && Initialized(stuck) == stuck
  {
  }

  /** The trimmed record handleSave posts has non-blank text fields, and its email is the one validated. */
  lemma SavePayloadShape(jsDate: string -> Option<int>, v: FormValues)
    requires FormValid(jsDate, v)
    ensures var r := SavePayload(v);
      && r.studentId != "" && !IsJsWhitespace(r.studentId[0]) && !IsJsWhitespace(r.studentId[|r.studentId| - 1])
      && r.firstName != "" && r.lastName != ""
      && r.email == v.email && IsValidEmail(r.email)
  {
    ValidEmailIsTrimmed(v.email);
  }

  /**
    A form the page accepts passes every check the Express server makes on
    create: the only refusal left is the store's duplicate key or email.
  */
  lemma ValidFormPassesExpressCreateChecks(jsDate: string -> Option<int>, t: Table, v: FormValues)
    requires FormValid(jsDate, v)
    ensures var o := ExpressServer.CreateOutcome(jsDate, t, RecordFields(SavePayload(v)));
      o.response == Response(200, Done(ExpressServer.CREATED))
      || o.response == Response(400, Error(ExpressServer.DUPLICATE_ERROR))
  {
    var body := RecordFields(SavePayload(v));
    ExpressServer.CreateFieldsTruthy(body);
    ValidEmailIsTrimmed(v.email);
    assert ExpressServer.AllTruthy(body, ExpressServer.CREATE_FIELDS);
    assert !ExpressServer.EnrollmentNotAfterBirth(jsDate, body);
  }

  /**
    A form the page accepts passes the Express server's update check: it is
    answered 404, 500 or 200, never "All fields are required".
  */
  lemma ValidFormPassesExpressUpdateChecks(jsDate: string -> Option<int>, t: Table, v: FormValues)
    requires FormValid(jsDate, v)
    ensures var req := UpdatePayload(v);
      ExpressServer.UpdateOutcome(t, req.studentId, ColumnsFields(req.columns)).response.status in {200, 404, 500}
  {
    var body := ColumnsFields(UpdatePayload(v).columns);
    ExpressServer.UpdateFieldsTruthy(body);
    assert ExpressServer.AllTruthy(body, ExpressServer.UPDATE_FIELDS);
  }
}
