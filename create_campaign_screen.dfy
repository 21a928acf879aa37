/**
 * The campaign creation form. `validateForm` fills a fresh error dictionary one check at a
 * time and reports whether it stayed empty; `handleInputChange` writes one field and clears
 * that field's error; `handleSubmit` builds the request payload only from a valid form.
 * Dates are milliseconds since the epoch and `now` is a parameter.
 */
module CreateCampaignScreen {
  import opened Wrappers
  import opened JsText
  import opened JsNumber
  import RegisterScreen

  datatype Form = Form(title: string, description: string, kind: string, goalAmount: string,
                       startDate: int, endDate: int, status: string)

  datatype Field = Title | Description | Kind | GoalAmount | StartDate | EndDate | Status

  /** What an input hands to `handleInputChange`: a text box gives text, a date picker a date. */
  datatype Value = Text(s: string) | Date(ms: int)

  predicate Fits(field: Field, v: Value) {
    if field == StartDate || field == EndDate then v.Date? else v.Text?
  }

  /** `form[field]`. */
  function Get(f: Form, field: Field): (v: Value)
    ensures Fits(field, v)
  {
    match field
    case Title => Text(f.title)
    case Description => Text(f.description)
    case Kind => Text(f.kind)
    case GoalAmount => Text(f.goalAmount)
    case StartDate => Date(f.startDate)
    case EndDate => Date(f.endDate)
    case Status => Text(f.status)
  }

  /** `{ ...form, [field]: value }`. */
  function WithField(f: Form, field: Field, v: Value): (r: Form)
    requires Fits(field, v)
  {
    match field
    case Title => f.(title := v.s)
    case Description => f.(description := v.s)
    case Kind => f.(kind := v.s)
    case GoalAmount => f.(goalAmount := v.s)
    case StartDate => f.(startDate := v.ms)
    case EndDate => f.(endDate := v.ms)
    case Status => f.(status := v.s)
  }

  /** Writing a field sets that field and no other. */
  lemma {:induction false} WithFieldOnlyThatField(f: Form, field: Field, v: Value, g: Field)
    requires Fits(field, v)
    ensures Get(WithField(f, field, v), g) == if g == field then v else Get(f, g)
  {
  }

  const TitleRequired := "Tiêu đề là bắt buộc"
  const DescriptionRequired := "Mô tả là bắt buộc"
  const GoalMustBePositive := "Số tiền mục tiêu phải là số dương"
  const EndAfterStart := "Ngày kết thúc phải sau ngày bắt đầu"

  /** `!goal_amount || isNaN(goal_amount) || Number(goal_amount) <= 0`. */
  predicate BadGoal(goal: string) {
    goal == "" || NumberOf(goal).None? || NumberOf(goal).value <= 0.0
  }

  /** The errors `validateForm` records. Every check runs, so every failing field is
      reported at once; a field has an error exactly when its own check fails. */
  function FormErrors(f: Form): (r: map<Field, string>)
    ensures Title in r <==> !RegisterScreen.HasNonSpace(f.title)
    ensures Description in r <==> !RegisterScreen.HasNonSpace(f.description)
    ensures GoalAmount in r <==> BadGoal(f.goalAmount)
    ensures EndDate in r <==> f.endDate <= f.startDate
    ensures r.Keys <= {Title, Description, GoalAmount, EndDate}
  {
    RegisterScreen.NotBlankIff(f.title);
    RegisterScreen.NotBlankIff(f.description);
    var e0: map<Field, string> := map[];
    var e1 := if IsBlank(f.title) then e0[Title := TitleRequired] else e0;
    var e2 := if IsBlank(f.description) then e1[Description := DescriptionRequired] else e1;
    var e3 := if BadGoal(f.goalAmount) then e2[GoalAmount := GoalMustBePositive] else e2;
    if f.endDate <= f.startDate then e3[EndDate := EndAfterStart] else e3
  }

  /** The error state shown after validation; editing a field later sets its entry to null. */
  function Shown(errors: map<Field, string>): (r: map<Field, Option<string>>)
    ensures r.Keys == errors.Keys
    ensures forall k :: k in errors ==> r[k] == Some(errors[k])
  {
    map k | k in errors :: Some(errors[k])
  }

  /** `if (errors[field]) setErrors({ ...errors, [field]: null })`: only a shown error is
      cleared, and only that one. */
  function ClearError(errors: map<Field, Option<string>>, field: Field): (r: map<Field, Option<string>>)
    ensures r.Keys == errors.Keys
    ensures forall g :: g in r && g != field ==> r[g] == errors[g]
    ensures field in r ==> !Truthy(r[field])
  {
    if field in errors && Truthy(errors[field]) then errors[field := None] else errors
  }

  /** The request body: title and description trimmed, the goal as a number. */
  datatype Payload = Payload(title: string, description: string, kind: string, goalAmount: real,
                             startDate: int, endDate: int, status: string)

  function PayloadOf(f: Form): (p: Payload)
    requires FormErrors(f) == map[]
  {
    Payload(Trim(f.title), Trim(f.description), f.kind, NumberOf(f.goalAmount).value,
            f.startDate, f.endDate, f.status)
  }

  /** A payload built from a valid form carries a non-blank title and description with no
      surrounding white space, a positive goal and an end after the start. */
  lemma {:induction false} PayloadIsValid(f: Form)
    requires FormErrors(f) == map[]
    ensures var p := PayloadOf(f);
      RegisterScreen.HasNonSpace(p.title) && Trim(p.title) == p.title &&
      RegisterScreen.HasNonSpace(p.description) && Trim(p.description) == p.description &&
      p.goalAmount > 0.0 && p.startDate < p.endDate
  {
    assert Title !in FormErrors(f) && Description !in FormErrors(f);
    assert GoalAmount !in FormErrors(f) && EndDate !in FormErrors(f);
    TrimTwice(f.title);
    TrimTwice(f.description);
    RegisterScreen.NotBlankIff(f.title);
    RegisterScreen.NotBlankIff(f.description);
    RegisterScreen.NotBlankIff(Trim(f.title));
    RegisterScreen.NotBlankIff(Trim(f.description));
  }

  lemma {:induction false} TrimTwice(s: string)
    ensures Trim(Trim(s)) == Trim(s)
  {
    TrimSpec(s);
    TrimOfTrimmed(Trim(s));
  }

  /** A goal typed as the digits of a positive number is accepted and sent as that number;
      a blank goal is 0 and rejected. */
  lemma {:induction false} GoalExamples(n: nat)
    requires n > 0
    ensures !BadGoal(NatToString(n)) && NumberOf(NatToString(n)) == Some(n as real)
    ensures BadGoal("  ")
  {
    NumberOfNat(n);
    BlankIffAllSpace("  ");
  }

  const ThirtyDaysMs: int := 30 * 24 * 60 * 60 * 1000

  /** The screen's state. */
  class CreateCampaign {
    var form: Form
    var errors: map<Field, Option<string>>

    /** The initial form: empty texts, a fundraising campaign starting now and ending 30 days
        later, no errors. */
    constructor (now: int)
      ensures form == Form("", "", "fundraising", "", now, now + ThirtyDaysMs, "active")
      ensures errors == map[]
    {
      form := Form("", "", "fundraising", "", now, now + ThirtyDaysMs, "active");
      errors := map[];
    }

    /** `handleInputChange(field, value)`. */
    method HandleInputChange(field: Field, v: Value)
      requires Fits(field, v)
      modifies this
      ensures form == WithField(old(form), field, v)
      ensures errors == ClearError(old(errors), field)
    {
      form := WithField(form, field, v);
      if field in errors && Truthy(errors[field]) {
        errors := errors[field := None];
      }
    }

    /** `validateForm()`: the errors are replaced by this form's and the answer is whether
        there are none. */
    method ValidateForm() returns (ok: bool)
      modifies this
      ensures form == old(form)
      ensures errors == Shown(FormErrors(form))
      ensures ok <==> FormErrors(form) == map[]
    {
      var newErrors: map<Field, string> := map[];
      if IsBlank(form.title) {
        newErrors := newErrors[Title := TitleRequired];
      }
      if IsBlank(form.description) {
        newErrors := newErrors[Description := DescriptionRequired];
      }
      if form.goalAmount == "" || NumberOf(form.goalAmount).None? || NumberOf(form.goalAmount).value <= 0.0 {
        newErrors := newErrors[GoalAmount := GoalMustBePositive];
      }
      if form.endDate <= form.startDate {
        newErrors := newErrors[EndDate := EndAfterStart];
      }
      errors := Shown(newErrors);
      ok := |newErrors.Keys| == 0;
    }

    /** `handleSubmit`: the payload to post, built only when validation passes. */
    method HandleSubmit() returns (payload: Option<Payload>)
      modifies this
      ensures form == old(form)
      ensures errors == Shown(FormErrors(form))
      ensures payload.Some? <==> FormErrors(form) == map[]
      ensures payload.Some? ==> payload.value == PayloadOf(form)
    {
      var ok := ValidateForm();
      if !ok {
        return None;
      }
      payload := Some(Payload(Trim(form.title), Trim(form.description), form.kind,
                              NumberOf(form.goalAmount).value, form.startDate, form.endDate, form.status));
    }
  }
}
