/**
 * The lead form: five text fields, a validator that produces one error
 * message per field, and the submit cycle (submitting for a while, then a
 * success notice that disappears later).
 *
 * The two delays of the submit cycle are not modelled as time: each
 * started timer is counted, and its expiry is a separate step
 * (`CompleteSubmission`, `ClearSubmitted`) that may only be taken while
 * such a timer is outstanding.
 */
module Contact {

  import opened Text
  import opened Wrappers

  datatype Field = Name | Email | Company | LicenseType | Message

  /** The values typed into the form. */
  datatype FormValues = FormValues(
    name: string, email: string, company: string, licenseType: string, message: string)

  /** One optional error message per field; `None` is an absent (or `undefined`) entry. */
  datatype FormErrors = FormErrors(
    name: Option<string>, email: Option<string>, company: Option<string>,
    licenseType: Option<string>, message: Option<string>)

  const EmptyValues := FormValues("", "", "", "", "")
  const NoErrors := FormErrors(None, None, None, None, None)

  const NameRequired := "Name is required"
  const EmailRequired := "Email is required"
  const EmailInvalid := "Email is invalid"
  const CompanyRequired := "Company is required"
  const LicenseTypeRequired := "Please select a license type"

  /** An entry of the license-type drop-down. */
  datatype LicenseOption = LicenseOption(value: string, caption: string)

  const LicenseTypes: seq<LicenseOption> := [
    LicenseOption("", "Select license type"),
    LicenseOption("adobe", "Adobe Creative Cloud"),
    LicenseOption("microsoft", "Microsoft Office"),
    LicenseOption("autodesk", "Autodesk"),
    LicenseOption("cloud", "Cloud Services (AWS, Azure, etc.)"),
    LicenseOption("development", "Development Tools"),
    LicenseOption("other", "Other")
  ]

  /** Only the placeholder entry of the drop-down carries the empty value. */
  lemma OnlyPlaceholderIsEmpty(k: nat)
    requires k < |LicenseTypes|
    ensures LicenseTypes[k].value == "" <==> k == 0
  {
  }

  function ValueOf(v: FormValues, f: Field): string {
    match f
    case Name => v.name
    case Email => v.email
    case Company => v.company
    case LicenseType => v.licenseType
    case Message => v.message
  }

  /** `{...values, [name]: value}`. */
  function WithValue(v: FormValues, f: Field, x: string): FormValues {
    match f
    case Name => v.(name := x)
    case Email => v.(email := x)
    case Company => v.(company := x)
    case LicenseType => v.(licenseType := x)
    case Message => v.(message := x)
  }

  /** Updating a field sets that field and leaves every other one as it was. */
  lemma WithValueSetsOnlyThatField(v: FormValues, f: Field, x: string, g: Field)
    ensures ValueOf(WithValue(v, f, x), g) == if g == f then x else ValueOf(v, g)
  {
  }

  function ErrorOf(e: FormErrors, f: Field): Option<string> {
    match f
    case Name => e.name
    case Email => e.email
    case Company => e.company
    case LicenseType => e.licenseType
    case Message => e.message
  }

  /** `{...errors, [name]: undefined}`. */
  function WithoutError(e: FormErrors, f: Field): FormErrors {
    match f
    case Name => e.(name := None)
    case Email => e.(email := None)
    case Company => e.(company := None)
    case LicenseType => e.(licenseType := None)
    case Message => e.(message := None)
  }

  /** Clearing an error removes that entry and keeps every other one. */
  lemma WithoutErrorClearsOnlyThatField(e: FormErrors, f: Field, g: Field)
    ensures ErrorOf(WithoutError(e, f), g) == if g == f then None else ErrorOf(e, g)
  {
  }

  /** A JavaScript-truthy error entry: present and not the empty string. */
  predicate Truthy(o: Option<string>) {
    o.Some? && o.value != ""
  }

  /** No white space in `s[i..j]`. */
  predicate NoSpaceIn(s: string, i: int, j: int)
    requires 0 <= i <= j <= |s|
  {
    forall k | i <= k < j :: !IsSpace(s[k])
  }

  /** `s[i..j]` is non-empty and holds no white space: a match of `\S+`. */
  ghost predicate NonSpaceRun(s: string, i: int, j: int) {
    0 <= i < j <= |s| && NoSpaceIn(s, i, j)
  }

  /** The pattern `\S+@\S+\.\S+` matches `s[start..end]`, with its `@` at `at` and its `.` at `dot`. */
  ghost predicate PatternMatchesAt(s: string, start: int, at: int, dot: int, end: int) {
    NonSpaceRun(s, start, at) && at < |s| && s[at] == '@' &&
    NonSpaceRun(s, at + 1, dot) && dot < |s| && s[dot] == '.' &&
    NonSpaceRun(s, dot + 1, end)
  }

  /** `/\S+@\S+\.\S+/.test(s)`: the pattern matches somewhere in `s` (it is not anchored). */
  ghost predicate PatternFound(s: string) {
    exists start, at, dot, end :: PatternMatchesAt(s, start, at, dot, end)
  }

  /** The shape the test looks for, with its `@` at `at` and its `.` at `dot`. */
  predicate ShapedAt(s: string, at: int, dot: int) {
    1 <= at && at + 1 < dot < |s| - 1 &&
    s[at] == '@' && !IsSpace(s[at - 1]) &&
    s[dot] == '.' && !IsSpace(s[dot + 1]) && NoSpaceIn(s, at + 1, dot)
  }

  /**
   * The test the validator runs on the e-mail value: an `@` with a
   * non-space character before it, followed later by a `.` that has a
   * non-space character after it and only non-space characters (at least
   * one) between the two.
   */
  predicate EmailShaped(s: string) {
    exists at, dot | 0 <= at < dot < |s| :: ShapedAt(s, at, dot)
  }

  /** Every string the executable test accepts contains a match of the regular expression. */
  lemma ShapedHasMatch(s: string, at: int, dot: int)
    requires ShapedAt(s, at, dot)
    ensures PatternMatchesAt(s, at - 1, at, dot, dot + 2)
  {
    assert NoSpaceIn(s, at - 1, at);
    assert NoSpaceIn(s, dot + 1, dot + 2);
  }

  /** Every match of the regular expression makes the executable test accept. */
  lemma MatchIsShaped(s: string, start: int, at: int, dot: int, end: int)
    requires PatternMatchesAt(s, start, at, dot, end)
    ensures ShapedAt(s, at, dot)
  {
    assert !IsSpace(s[at - 1]);
    assert !IsSpace(s[dot + 1]);
  }

  /** The executable test accepts exactly the strings the regular expression finds a match in. */
  lemma EmailShapedIffPatternFound(s: string)
    ensures EmailShaped(s) <==> PatternFound(s)
  {
    if EmailShaped(s) {
      var at, dot :| 0 <= at < dot < |s| && ShapedAt(s, at, dot);
      ShapedHasMatch(s, at, dot);
    }
    if PatternFound(s) {
      var start, at, dot, end :| PatternMatchesAt(s, start, at, dot, end);
      MatchIsShaped(s, start, at, dot, end);
    }
  }

  /** A string the pattern is found in contains a character other than white space. */
  lemma EmailShapedNotBlank(s: string)
    requires EmailShaped(s)
    ensures !IsBlank(s)
  {
    var at, dot :| 0 <= at < dot < |s| && ShapedAt(s, at, dot);
    NotBlank(s, at);
  }

  /** Addresses the validator accepts, and surrounding text does not stop the match. */
  lemma EmailExamplesAccepted()
    ensures PatternFound("a@b.c")
    ensures PatternFound("mail me at x@y.io please")
  {
    var s := "a@b.c";
    assert PatternMatchesAt(s, 0, 1, 3, 5);
    var t := "mail me at x@y.io please";
    assert PatternMatchesAt(t, 11, 12, 14, 16);
  }

  /** Values the validator rejects: no dot after the `@`, a space before it, nothing after the dot. */
  lemma EmailExamplesRejected()
    ensures !PatternFound("a@b")
    ensures !PatternFound("a @b.c")
    ensures !PatternFound("a@b.")
  {
    EmailShapedIffPatternFound("a@b");
    EmailShapedIffPatternFound("a @b.c");
    EmailShapedIffPatternFound("a@b.");
    var s := "a @b.c";
    assert forall at | 1 <= at < |s| && s[at] == '@' :: at == 2;
  }

  /** The errors `validate()` collects for the given values. */
  function ComputeErrors(v: FormValues): FormErrors {
    FormErrors(
      if IsBlank(v.name) then Some(NameRequired) else None,
      if IsBlank(v.email) then Some(EmailRequired)
      else if !EmailShaped(v.email) then Some(EmailInvalid)
      else None,
      if IsBlank(v.company) then Some(CompanyRequired) else None,
      if v.licenseType == "" then Some(LicenseTypeRequired) else None,
      None)
  }

  /** `Object.keys(newErrors).length`: the number of fields that received a message. */
  function ErrorCount(e: FormErrors): nat {
    (if e.name.Some? then 1 else 0) + (if e.email.Some? then 1 else 0) +
    (if e.company.Some? then 1 else 0) + (if e.licenseType.Some? then 1 else 0) +
    (if e.message.Some? then 1 else 0)
  }

  /** The count ranges over the five fields, and it is zero exactly when no entry is present. */
  lemma ErrorCountRange(e: FormErrors)
    ensures ErrorCount(e) <= 5
    ensures ErrorCount(e) == 0 <==> e == NoErrors
  {
  }

  /**
   * Every message the validator stores is non-empty, so an entry it produced
   * is truthy exactly when it is present.
   */
  lemma ComputedErrorsTruthy(v: FormValues, f: Field)
    ensures Truthy(ErrorOf(ComputeErrors(v), f)) <==> ErrorOf(ComputeErrors(v), f).Some?
  {
  }

  /** What a lead must look like to be accepted, stated without the validator. */
  ghost predicate AcceptableLead(v: FormValues) {
    !AllSpace(v.name) && PatternFound(v.email) && !AllSpace(v.company) && v.licenseType != ""
  }

  /** Name and company are required: each gets its message exactly when it is only white space. */
  lemma RequiredTextFields(v: FormValues)
    ensures ComputeErrors(v).name == if AllSpace(v.name) then Some(NameRequired) else None
    ensures ComputeErrors(v).company == if AllSpace(v.company) then Some(CompanyRequired) else None
  {
    BlankIffAllSpace(v.name);
    BlankIffAllSpace(v.company);
  }

  /** The e-mail error: required when only white space, invalid when the pattern is not found, else none. */
  lemma EmailErrorCases(v: FormValues)
    ensures AllSpace(v.email) ==> ComputeErrors(v).email == Some(EmailRequired)
    ensures !AllSpace(v.email) && !PatternFound(v.email) ==> ComputeErrors(v).email == Some(EmailInvalid)
    ensures PatternFound(v.email) <==> ComputeErrors(v).email == None
  {
    BlankIffAllSpace(v.email);
    EmailShapedIffPatternFound(v.email);
    if EmailShaped(v.email) {
      EmailShapedNotBlank(v.email);
    }
  }

  /** The license type is required: its message appears exactly when nothing was selected. */
  lemma LicenseTypeRequiredIffUnselected(v: FormValues)
    ensures ComputeErrors(v).licenseType.Some? <==> v.licenseType == ""
    ensures ComputeErrors(v).licenseType.Some? ==> ComputeErrors(v).licenseType == Some(LicenseTypeRequired)
  {
  }

  /** Picking any real entry of the drop-down satisfies the license-type requirement. */
  lemma SelectedLicenseAccepted(v: FormValues, k: nat)
    requires k < |LicenseTypes|
    ensures ComputeErrors(v.(licenseType := LicenseTypes[k].value)).licenseType == None <==> k != 0
  {
    OnlyPlaceholderIsEmpty(k);
  }

  /** The form is valid (no error collected) exactly for acceptable leads; the message is never checked. */
  lemma ValidIffAcceptable(v: FormValues)
    ensures ErrorCount(ComputeErrors(v)) == 0 <==> AcceptableLead(v)
    ensures ErrorCount(ComputeErrors(v)) == 0 <==> ComputeErrors(v) == NoErrors
    ensures ComputeErrors(v).message == None
  {
    RequiredTextFields(v);
    EmailErrorCases(v);
  }

  /** The values the form is reset to fail every required field. */
  lemma EmptyFormErrors()
    ensures ComputeErrors(EmptyValues) ==
      FormErrors(Some(NameRequired), Some(EmailRequired), Some(CompanyRequired), Some(LicenseTypeRequired), None)
    ensures ErrorCount(ComputeErrors(EmptyValues)) == 4
  {
    RequiredTextFields(EmptyValues);
    BlankIffAllSpace("");
  }

  /** The state of the lead-form component. */
  class ContactForm {
    var values: FormValues
    var errors: FormErrors
    var isSubmitting: bool
    var isSubmitted: bool
    /** Started 1500 ms submission timers that have not fired yet. */
    var completionsDue: nat
    /** Started 5000 ms notice timers that have not fired yet. */
    var resetsDue: nat

    /** A raised flag always has a timer outstanding that will lower it. */
    ghost predicate Valid()
      reads this
    {
      (isSubmitting ==> completionsDue > 0) && (isSubmitted ==> resetsDue > 0)
    }

    /**
     * Driven only through the rendered page (the submit button is disabled
     * while submitting, the form is hidden while the notice shows), at most
     * one submission is in flight and each flag has exactly its own timer.
     */
    ghost predicate SingleFlight()
      reads this
    {
      !(isSubmitting && isSubmitted) &&
      completionsDue == (if isSubmitting then 1 else 0) &&
      resetsDue == (if isSubmitted then 1 else 0)
    }

    constructor()
      ensures Valid() && SingleFlight()
      ensures values == EmptyValues && errors == NoErrors
      ensures !isSubmitting && !isSubmitted && completionsDue == 0 && resetsDue == 0
    {
      values := EmptyValues;
      errors := NoErrors;
      isSubmitting := false;
      isSubmitted := false;
      completionsDue := 0;
      resetsDue := 0;
    }

    /** The submit button's `disabled` attribute. */
    predicate SubmitDisabled()
      reads this
    {
      isSubmitting
    }

    /** The form is rendered (rather than the success notice). */
    predicate FormShown()
      reads this
    {
      !isSubmitted
    }

    /** `handleChange`: store the new value and drop that field's error if one is shown. */
    method HandleChange(f: Field, x: string)
      modifies this
      ensures values == WithValue(old(values), f, x)
      ensures errors == if Truthy(ErrorOf(old(errors), f)) then WithoutError(old(errors), f) else old(errors)
      ensures !Truthy(ErrorOf(errors, f))
      ensures isSubmitting == old(isSubmitting) && isSubmitted == old(isSubmitted)
      ensures completionsDue == old(completionsDue) && resetsDue == old(resetsDue)
    {
      values := WithValue(values, f, x);
      if Truthy(ErrorOf(errors, f)) {
        errors := WithoutError(errors, f);
        WithoutErrorClearsOnlyThatField(old(errors), f, f);
      }
    }

    /** `validate`: collect the errors of the current values, show them, and report whether there were none. */
    method Validate() returns (ok: bool)
      modifies this
      ensures errors == ComputeErrors(values)
      ensures ok <==> AcceptableLead(values)
      ensures ok <==> errors == NoErrors
      ensures values == old(values) && isSubmitting == old(isSubmitting) && isSubmitted == old(isSubmitted)
      ensures completionsDue == old(completionsDue) && resetsDue == old(resetsDue)
    {
      var newErrors := NoErrors;
      if IsBlank(values.name) {
        newErrors := newErrors.(name := Some(NameRequired));
      }
      if IsBlank(values.email) {
        newErrors := newErrors.(email := Some(EmailRequired));
      } else if !EmailShaped(values.email) {
        newErrors := newErrors.(email := Some(EmailInvalid));
      }
      if IsBlank(values.company) {
        newErrors := newErrors.(company := Some(CompanyRequired));
      }
      if values.licenseType == "" {
        newErrors := newErrors.(licenseType := Some(LicenseTypeRequired));
      }
      errors := newErrors;
      ok := ErrorCount(newErrors) == 0;
      ValidIffAcceptable(values);
    }

    /** `handleSubmit`: validate; on success start submitting and its 1500 ms timer. */
    method HandleSubmit()
      modifies this
      requires Valid()
      ensures Valid()
      ensures errors == ComputeErrors(values) && values == old(values)
      ensures AcceptableLead(values) ==>
        isSubmitting && completionsDue == old(completionsDue) + 1
      ensures !AcceptableLead(values) ==>
        isSubmitting == old(isSubmitting) && completionsDue == old(completionsDue)
      ensures isSubmitted == old(isSubmitted) && resetsDue == old(resetsDue)
    {
      var ok := Validate();
      if ok {
        isSubmitting := true;
        completionsDue := completionsDue + 1;
      }
    }

    /**
     * Pressing the submit button: nothing happens while the button is
     * disabled or the form is hidden. The browser's own syntax check of the
     * `type="email"` input, which can stop the submit event before the
     * handler runs, is not modelled.
     */
    method Submit()
      modifies this
      requires Valid()
      ensures Valid()
      ensures old(SingleFlight()) ==> SingleFlight()
      ensures old(SubmitDisabled() || !FormShown()) ==>
        values == old(values) && errors == old(errors) && isSubmitting == old(isSubmitting) &&
        isSubmitted == old(isSubmitted) && completionsDue == old(completionsDue) && resetsDue == old(resetsDue)
      ensures old(!SubmitDisabled() && FormShown()) ==>
        errors == ComputeErrors(values) && values == old(values) &&
        isSubmitting == AcceptableLead(values) && isSubmitted == old(isSubmitted) &&
        completionsDue == old(completionsDue) + (if AcceptableLead(values) then 1 else 0) &&
        resetsDue == old(resetsDue)
    {
      if !SubmitDisabled() && FormShown() {
        HandleSubmit();
      }
    }

    /** The 1500 ms timer fires: submission done, notice shown, form reset, 5000 ms timer started. */
    method CompleteSubmission()
      modifies this
      requires Valid() && completionsDue > 0
      ensures Valid()
      ensures old(SingleFlight()) ==> SingleFlight()
      ensures !isSubmitting && isSubmitted && values == EmptyValues && errors == old(errors)
      ensures completionsDue == old(completionsDue) - 1 && resetsDue == old(resetsDue) + 1
    {
      isSubmitting := false;
      isSubmitted := true;
      values := EmptyValues;
      completionsDue := completionsDue - 1;
      resetsDue := resetsDue + 1;
    }

    /** The 5000 ms timer fires: the notice is hidden and the form shows again. */
    method ClearSubmitted()
      modifies this
      requires Valid() && resetsDue > 0
      ensures Valid()
      ensures old(SingleFlight()) ==> SingleFlight()
      ensures !isSubmitted && resetsDue == old(resetsDue) - 1
      ensures values == old(values) && errors == old(errors)
      ensures isSubmitting == old(isSubmitting) && completionsDue == old(completionsDue)
    {
      isSubmitted := false;
      resetsDue := resetsDue - 1;
    }
  }
}
