/**
 The two scancode forms of the web front end: the modal that registers an
 unknown scanned code to a user and then scans that user in, and the admin
 form that adds a scancode to a user. Each has a zod schema for the code and
 a submit handler whose observable behaviour is the sequence of effects it
 issues: mutations, field errors, a reset and closing the modal.
 */
module Scancode {
  import opened Wrappers
  import opened Seqs
  import InfiniteList
  import Decimal

  // ---------------------------------------------------------------------------
  // the code format

  /** A character of the class `[a-zA-Z0-9]`. */
  predicate IsAlphanumeric(c: char) {
    'a' <= c <= 'z' || 'A' <= c <= 'Z' || '0' <= c <= '9'
  }

  /** `/^[a-zA-Z0-9]+$/`: one or more alphanumeric characters and nothing else. */
  predicate MatchesAlphanumeric(s: string) {
    |s| > 0 && forall i :: 0 <= i < |s| ==> IsAlphanumeric(s[i])
  }

  /** zod's default message for `.min(n)` on a string. */
  function MinLengthMessage(n: nat): string {
    "String must contain at least " + Decimal.NatToString(n) + " character(s)"
  }

  /**
   The form paths an issue or an error can be attached to: `code`,
   `userOption`, and the nested `userOption.label` and `userOption.value`.
   */
  datatype Field = CodeField | UserOptionField | UserOptionLabelField | UserOptionValueField

  datatype Issue = Issue(field: Field, message: string)

  /**
   The issues of the modal's code schema, in check order: `.nonempty(...)`,
   `.regex(...)`, `.min(6)`. zod runs every check and reports each failure.
   */
  function ModalCodeIssues(code: string): (issues: seq<Issue>)
    ensures code == "" ==> |issues| == 3 && issues[0].message == "Scancode code cannot be empty"
    ensures forall i :: 0 <= i < |issues| ==> issues[i].field == CodeField
  {
    (if |code| == 0 then [Issue(CodeField, "Scancode code cannot be empty")] else [])
    + (if !MatchesAlphanumeric(code) then [Issue(CodeField, "Scancode code must be alphanumeric")] else [])
    + (if |code| < 6 then [Issue(CodeField, MinLengthMessage(6))] else [])
  }

  /** The issues of the admin form's code schema, in check order: `.min(6)`, `.regex(...)`. */
  function AdminCodeIssues(code: string): (issues: seq<Issue>)
    ensures forall i :: 0 <= i < |issues| ==> issues[i].field == CodeField
    ensures |code| < 6 <==> |issues| > 0 && issues[0].message == MinLengthMessage(6)
    ensures code == "" ==> |issues| == 2
  {
    (if |code| < 6 then [Issue(CodeField, MinLengthMessage(6))] else [])
    + (if !MatchesAlphanumeric(code) then [Issue(CodeField, "Event code must be alphanumeric")] else [])
  }

  /** The format both forms mean: at least six characters, all alphanumeric. */
  predicate ValidCode(code: string) {
    |code| >= 6 && forall i :: 0 <= i < |code| ==> IsAlphanumeric(code[i])
  }

  /** The modal accepts a code exactly when it has the valid format. */
  lemma ModalAcceptsValidCodes(code: string)
    ensures ModalCodeIssues(code) == [] <==> ValidCode(code)
  {
  }

  /** The admin form accepts exactly the same codes as the modal. */
  lemma FormsAcceptSameCodes(code: string)
    ensures AdminCodeIssues(code) == [] <==> ValidCode(code)
    ensures AdminCodeIssues(code) == [] <==> ModalCodeIssues(code) == []
  {
  }

  /** The admin form's default value, the empty code, is rejected by both schemas. */
  lemma EmptyCodeRejected()
    ensures |AdminCodeIssues("")| == 2 && |ModalCodeIssues("")| == 3
  {
  }

  // ---------------------------------------------------------------------------
  // the modal's form values

  /** A selectable user: the label shown (`label`) and the user id submitted (`value`). */
  datatype UserOption = UserOption(labelText: string, value: string)

  /** What the modal's form holds before validation; the user option may be absent. */
  datatype RawModalForm = RawModalForm(code: string, userOption: Option<UserOption>)

  /** The modal's validated form: a valid code and a user option or null. */
  datatype ModalForm = ModalForm(code: string, userOption: Option<UserOption>)

  /**
   `UserOptionSchema.nullable().default(null)`: absent reads as null; a
   present option needs a non-empty label and value, and each failure is
   reported at its nested path, never at `userOption` itself.
   */
  function UserOptionIssues(o: Option<UserOption>): (issues: seq<Issue>)
    ensures issues == [] <==> o.None? || (|o.value.labelText| > 0 && |o.value.value| > 0)
    ensures forall i :: 0 <= i < |issues| ==> issues[i].field in {UserOptionLabelField, UserOptionValueField}
    ensures o.Some? ==> (
      && (Issue(UserOptionLabelField, MinLengthMessage(1)) in issues <==> |o.value.labelText| == 0)
      && (Issue(UserOptionValueField, MinLengthMessage(1)) in issues <==> |o.value.value| == 0))
  {
    match o
    case None => []
    case Some(u) =>
      (if |u.labelText| == 0 then [Issue(UserOptionLabelField, MinLengthMessage(1))] else [])
      + (if |u.value| == 0 then [Issue(UserOptionValueField, MinLengthMessage(1))] else [])
  }

  /** `RegisterNewCodeFormSchema.safeParse`: the form, or every issue found. */
  function ValidateModal(raw: RawModalForm): (r: Result<ModalForm, seq<Issue>>)
    ensures r.Ok? <==> ValidCode(raw.code) && UserOptionIssues(raw.userOption) == []
    ensures r.Ok? ==> r.value == ModalForm(raw.code, raw.userOption)
    ensures r.Err? ==> |r.error| > 0
  {
    var issues := ModalCodeIssues(raw.code) + UserOptionIssues(raw.userOption);
    if issues == [] then Ok(ModalForm(raw.code, raw.userOption)) else Err(issues)
  }

  /**
   The modal's default values, `RegisterNewCodeFormSchema.parse({ code })`:
   the user option defaults to null, and a scanned code of the wrong format
   makes `parse` throw.
   */
  function ModalDefaults(code: string): (r: Result<ModalForm, seq<Issue>>)
    ensures r.Ok? <==> ValidCode(code)
    ensures r.Ok? ==> r.value == ModalForm(code, None)
  {
    ValidateModal(RawModalForm(code, None))
  }

  // ---------------------------------------------------------------------------
  // submit handlers

  /** How a mutation's promise settles: it resolves, or rejects with a tRPC client error or another error. */
  datatype Outcome = Succeeded | TrpcFailure(message: string) | OtherFailure

  /** What a submit handler does, in order. */
  datatype Effect =
    | SetError(field: Field, message: string)
    | CreateScancode(scancode: string, userId: string)
    | Scanin(eventId: string, scancode: string)
    | CloseModal
    | ResetCode(value: string)

  /**
   The modal's `onSubmit` on validated values: with no user it only reports
   "Please select a user"; otherwise it creates the scancode for the chosen
   user and, once that succeeds, scans the user in with the same code and
   closes; a failed creation sets an error on the code and leaves the modal
   open.
   */
  function ModalSubmit(form: ModalForm, eventId: string, create: Outcome): (effects: seq<Effect>)
    ensures form.userOption.None? ==> effects == [SetError(UserOptionField, "Please select a user")]
    ensures form.userOption.Some? ==> |effects| >= 2 && effects[0] == CreateScancode(form.code, form.userOption.value.value)
    ensures create.Succeeded? && form.userOption.Some? ==> effects[1..] == [Scanin(eventId, form.code), CloseModal]
    ensures create.TrpcFailure? && form.userOption.Some? ==> effects[1..] == [SetError(CodeField, create.message)]
    ensures create.OtherFailure? && form.userOption.Some? ==> effects[1..] == [SetError(CodeField, "An unknown error occurred")]
  {
    match form.userOption
    case None => [SetError(UserOptionField, "Please select a user")]
    case Some(user) =>
      [CreateScancode(form.code, user.value)]
      + match create
        case Succeeded => [Scanin(eventId, form.code), CloseModal]
        case TrpcFailure(message) => [SetError(CodeField, message)]
        case OtherFailure => [SetError(CodeField, "An unknown error occurred")]
  }

  /** The position of the first issue on `field`, or `|issues|` when there is none. */
  function FirstIssueOn(issues: seq<Issue>, field: Field): (k: nat)
    ensures k <= |issues|
    ensures k < |issues| ==> issues[k].field == field
    ensures forall j :: 0 <= j < k ==> issues[j].field != field
  {
    if |issues| == 0 then 0
    else if issues[0].field == field then 0
    else 1 + FirstIssueOn(issues[1..], field)
  }

  /** The error kept for one field: its first issue, if it has one. */
  function FieldError(issues: seq<Issue>, field: Field): (effects: seq<Effect>)
    ensures |effects| <= 1
    ensures forall m :: SetError(field, m) in effects <==>
      FirstIssueOn(issues, field) < |issues| && m == issues[FirstIssueOn(issues, field)].message
    ensures forall i :: 0 <= i < |effects| ==> effects[i].SetError? && effects[i].field == field
  {
    var k := FirstIssueOn(issues, field);
    if k < |issues| then [SetError(field, issues[k].message)] else []
  }

  /** The errors kept for each of `fields`, in that order. */
  function FieldErrorsOver(issues: seq<Issue>, fields: seq<Field>): (effects: seq<Effect>)
    requires forall i, j :: 0 <= i < j < |fields| ==> fields[i] != fields[j]
    ensures forall i :: 0 <= i < |effects| ==> effects[i].SetError? && effects[i].field in fields
    ensures forall i, j :: 0 <= i < j < |effects| ==> effects[i].field != effects[j].field
    ensures forall f, m :: f in fields ==> (SetError(f, m) in effects <==>
      FirstIssueOn(issues, f) < |issues| && m == issues[FirstIssueOn(issues, f)].message)
    decreases |fields|
  {
    if |fields| == 0 then []
    else
      var head := FieldError(issues, fields[0]);
      var rest := FieldErrorsOver(issues, fields[1..]);
      assert forall i :: 0 <= i < |rest| ==> rest[i].field != fields[0] by {
        assert fields[0] !in fields[1..];
      }
      head + rest
  }

  /** Every form path, in the order the form lists them. */
  const AllFields: seq<Field> := [CodeField, UserOptionField, UserOptionLabelField, UserOptionValueField]

  lemma EveryFieldListed()
    ensures forall f: Field :: f in AllFields
  {
    forall f: Field
      ensures f in AllFields
    {
      if f == CodeField { assert AllFields[0] == f; }
      else if f == UserOptionField { assert AllFields[1] == f; }
      else if f == UserOptionLabelField { assert AllFields[2] == f; }
      else { assert AllFields[3] == f; }
    }
  }

  /**
   The errors the form keeps from a failed parse: the zod resolver records
   one error per path, the first issue reported on it, and the form shows
   `errors.code.message` and `errors.userOption.message`. The code field
   comes first.
   */
  function FieldErrors(issues: seq<Issue>): (effects: seq<Effect>)
    ensures |effects| > 0 <==> |issues| > 0
    ensures forall i :: 0 <= i < |effects| ==> effects[i].SetError?
    ensures forall i, j :: 0 <= i < j < |effects| ==> effects[i].field != effects[j].field
    ensures forall f: Field, m: string :: SetError(f, m) in effects <==>
      FirstIssueOn(issues, f) < |issues| && m == issues[FirstIssueOn(issues, f)].message
  {
    EveryFieldListed();
    var effects := FieldErrorsOver(issues, AllFields);
    assert |issues| > 0 ==> SetError(issues[0].field, issues[0].message) in effects by {
      if |issues| > 0 {
        assert FirstIssueOn(issues, issues[0].field) == 0;
      }
    }
    effects
  }

  /** Issues that all concern the code field leave one error: the first issue's. */
  lemma OnlyCodeIssues(issues: seq<Issue>)
    requires |issues| > 0 && forall i :: 0 <= i < |issues| ==> issues[i].field == CodeField
    ensures FieldErrors(issues) == [SetError(CodeField, issues[0].message)]
  {
    var e := FieldErrors(issues);
    var only := SetError(CodeField, issues[0].message);
    assert FirstIssueOn(issues, CodeField) == 0;
    assert only in e;
    forall i | 0 <= i < |e|
      ensures e[i] == only
    {
      assert SetError(e[i].field, e[i].message) in e;
      assert issues[FirstIssueOn(issues, e[i].field)].field == e[i].field;
    }
    assert |e| == 1;
  }

  /** `handleSubmit(onSubmit)`: invalid values only report their fields' errors; valid ones reach `onSubmit`. */
  function ModalHandleSubmit(raw: RawModalForm, eventId: string, create: Outcome): (effects: seq<Effect>)
    ensures ValidateModal(raw).Err? ==> forall i :: 0 <= i < |effects| ==> effects[i].SetError?
    ensures ValidateModal(raw).Err? ==> |effects| > 0 && effects == FieldErrors(ValidateModal(raw).error)
    ensures ValidateModal(raw).Ok? ==> effects == ModalSubmit(ModalForm(raw.code, raw.userOption), eventId, create)
  {
    match ValidateModal(raw)
    case Err(issues) => FieldErrors(issues)
    case Ok(form) => ModalSubmit(form, eventId, create)
  }

  /**
   An empty scanned code shows one message, the first check's, although all
   three checks fail.
   */
  lemma EmptyCodeShowsFirstIssue(eventId: string, create: Outcome)
    ensures ModalHandleSubmit(RawModalForm("", None), eventId, create) == [SetError(CodeField, "Scancode code cannot be empty")]
    ensures AdminHandleSubmit("", "", create).0 == [SetError(CodeField, MinLengthMessage(6))]
  {
    var issues := ModalCodeIssues("");
    assert issues[0].message == "Scancode code cannot be empty";
    assert ValidateModal(RawModalForm("", None)) == Err(issues) by {
      assert issues + UserOptionIssues(None) == issues;
    }
    OnlyCodeIssues(issues);
    var admin := AdminCodeIssues("");
    assert admin[0].message == MinLengthMessage(6);
    assert !ValidCode("");
  }

  /**
   The modal scans in only a code it has just created, for a valid code, and
   closes exactly when a user was chosen and the creation succeeded.
   */
  lemma ModalScansInOnlyCreatedCodes(raw: RawModalForm, eventId: string, create: Outcome)
    ensures var effects := ModalHandleSubmit(raw, eventId, create);
      && (forall i :: 0 <= i < |effects| && effects[i].Scanin? ==>
            effects[i].eventId == eventId && ValidCode(effects[i].scancode)
            && exists j :: 0 <= j < i && effects[j] == CreateScancode(effects[i].scancode, raw.userOption.value.value))
      && (CloseModal in effects <==> ValidateModal(raw).Ok? && raw.userOption.Some? && create.Succeeded?)
      && (forall i :: 0 <= i < |effects| && effects[i].CreateScancode? ==> ValidCode(effects[i].scancode))
  {
    var effects := ModalHandleSubmit(raw, eventId, create);
    match ValidateModal(raw)
    case Err(issues) =>
      assert forall i :: 0 <= i < |effects| ==> effects[i].SetError?;
    case Ok(form) =>
      if form.userOption.Some? && create.Succeeded? {
        assert effects[1] == Scanin(eventId, form.code);
        assert effects[0] == CreateScancode(form.code, raw.userOption.value.value);
      }
  }

  /**
   The admin form's `onSubmit` for a valid code: creates the scancode for
   the form's user; on success resets the field to "", on a tRPC error sets
   that message on the field, on any other error does nothing more. Returns
   the effects and the field's value afterwards.
   */
  function AdminSubmit(userId: string, code: string, create: Outcome): (r: (seq<Effect>, string))
    ensures |r.0| >= 1 && r.0[0] == CreateScancode(code, userId)
    ensures create.Succeeded? ==> r.1 == "" && ResetCode("") in r.0
    ensures !create.Succeeded? ==> r.1 == code && ResetCode("") !in r.0
    ensures create.TrpcFailure? ==> r.0[1..] == [SetError(CodeField, create.message)]
    ensures !create.TrpcFailure? ==> forall i :: 0 <= i < |r.0| ==> !r.0[i].SetError?
  {
    match create
    case Succeeded => ([CreateScancode(code, userId), ResetCode("")], "")
    case TrpcFailure(message) => ([CreateScancode(code, userId), SetError(CodeField, message)], code)
    case OtherFailure => ([CreateScancode(code, userId)], code)
  }

  /** `handleSubmit(onSubmit)` on the admin form: an invalid code only reports the code field's first issue. */
  function AdminHandleSubmit(userId: string, code: string, create: Outcome): (r: (seq<Effect>, string))
    ensures !ValidCode(code) ==> r.1 == code && |r.0| == 1 && r.0[0] == SetError(CodeField, AdminCodeIssues(code)[0].message)
    ensures ValidCode(code) ==> r == AdminSubmit(userId, code, create)
  {
    var issues := AdminCodeIssues(code);
    FormsAcceptSameCodes(code);
    if issues != [] then
      OnlyCodeIssues(issues);
      (FieldErrors(issues), code)
    else AdminSubmit(userId, code, create)
  }

  // ---------------------------------------------------------------------------
  // the modal's user options

  /** A user as the user list returns it. */
  datatype User = User(id: string, username: string)

  /**
   `usersQuery.data?.pages?.flatMap(page => page.items).map(...) ?? []`: one
   option per fetched user, in page order, labelled with the username.
   */
  function UserOptions(pages: Option<seq<InfiniteList.Page<User>>>): (options: seq<UserOption>)
    ensures pages.None? ==> options == []
    ensures pages.Some? ==> (
      && |options| == |InfiniteList.FlatData(pages.value)|
      && forall i :: 0 <= i < |options| ==>
        options[i] == UserOption(InfiniteList.FlatData(pages.value)[i].username, InfiniteList.FlatData(pages.value)[i].id))
  {
    match pages
    case None => []
    case Some(ps) =>
      var users := InfiniteList.FlatData(ps);
      seq(|users|, i requires 0 <= i < |users| => UserOption(users[i].username, users[i].id))
  }

  /** Fetching another page of users appends that page's options after the existing ones. */
  lemma UserOptionsAppend(pages: seq<InfiniteList.Page<User>>, next: InfiniteList.Page<User>)
    ensures UserOptions(Some(pages + [next])) == UserOptions(Some(pages)) + UserOptions(Some([next]))
  {
    var before := InfiniteList.FlatData(pages);
    var after := InfiniteList.FlatData(pages + [next]);
    InfiniteList.FlatDataAppend(pages, next);
    InfiniteList.FlatDataAppend([], next);
    assert InfiniteList.FlatData<User>([]) == [];
    assert [] + [next] == [next];
    assert after == before + next.items;
    assert InfiniteList.FlatData([next]) == next.items;
    var whole := UserOptions(Some(pages + [next]));
    var front := UserOptions(Some(pages));
    var back := UserOptions(Some([next]));
    assert |whole| == |front| + |back|;
    forall i | 0 <= i < |whole|
      ensures whole[i] == (front + back)[i]
    {
      if i < |front| {
        assert after[i] == before[i];
      } else {
        assert after[i] == next.items[i - |front|];
      }
    }
  }
}
