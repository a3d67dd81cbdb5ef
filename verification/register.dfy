/**
 * The registration wizard of the web client: nine steps, each with its own validity check, a step
 * counter moved by "next" and "back", and a final submit that re-checks every step and jumps back
 * to the first one that fails.
 */
module RegisterForm {
  import opened Js
  import opened Dates
  import FindPeople

  /** The value of the date input: empty, text that is not a date, or a date. */
  datatype DobInput = Empty | Invalid | Valid(date: Date)

  /** The wizard's form fields; the two ages are the raw text of their number inputs. */
  datatype Form = Form(
    email: string, username: string, password: string, confirmPassword: string, dob: DobInput,
    location: string, sex: string, searchedSex: string, minAge: string, maxAge: string, bio: string)

  /** The form the wizard starts with. */
  const InitialForm := Form("", "", "", "", Empty, "", "female", "male", "", "", "")

  const MinimumAge := 18
  const MaximumAge := 120
  const MinPasswordLength := 6
  const MinBioLength := 10

  /** The steps in order: Email, Username, Password, Date of birth, Location, Sex, Searched sex, Age range, Bio. */
  const StepCount := 9
  const DobStep := 3
  const AgeRangeStep := 7

  // ---------------------------------------------------------------- the checks

  /** `calculateAge` of the form: 0 for an empty or unparsable date, otherwise the birthday-adjusted age. */
  function CalculateAge(today: Date, dob: DobInput): (age: int)
    ensures !dob.Valid? ==> age == 0
    ensures dob.Valid? ==> age == Age(today, dob.date)
  {
    match dob
    case Valid(d) => Age(today, d)
    case _ => 0
  }

  /** `c` is a `\S` character. */
  predicate NonSpace(c: char) {
    !IsSpace(c)
  }

  /**
   * `/\S+@\S+\.\S+/` matches with its `@` at `at` and its `.` at `dot`: a non-space character
   * before the `@`, only non-space characters (at least one) between the two, and a non-space
   * character after the dot.
   */
  predicate EmailShapeAt(s: string, at: int, dot: int) {
    && 0 < at && at + 1 < dot && dot + 1 < |s|
    && s[at] == '@' && s[dot] == '.'
    && NonSpace(s[at - 1]) && NonSpace(s[dot + 1])
    && forall k :: at < k < dot ==> NonSpace(s[k])
  }

  /** `/\S+@\S+\.\S+/.test(email)`: the pattern matches somewhere in the text. */
  predicate EmailValid(s: string) {
    exists at, dot :: 0 <= at < dot < |s| && EmailShapeAt(s, at, dot)
  }

  /** Every `local@domain.tld` whose three parts are non-empty and free of white space passes. */
  lemma {:induction false} EmailOfParts(local: string, domain: string, tld: string)
    requires local != [] && domain != [] && tld != []
    requires forall i :: 0 <= i < |domain| ==> NonSpace(domain[i])
    requires NonSpace(local[|local| - 1]) && NonSpace(tld[0])
    ensures EmailValid(local + "@" + domain + "." + tld)
  {
    var s := local + "@" + domain + "." + tld;
    var at := |local|;
    var dot := |local| + 1 + |domain|;
    assert s[at] == '@' && s[dot] == '.';
    assert s[at - 1] == local[|local| - 1];
    assert s[dot + 1] == tld[0];
    forall k | at < k < dot ensures NonSpace(s[k]) {
      assert s[k] == domain[k - at - 1];
    }
    assert EmailShapeAt(s, at, dot);
  }

  /** Text without an `@`, or without a `.`, never passes. */
  lemma {:induction false} EmailNeedsAtAndDot(s: string)
    requires (forall i :: 0 <= i < |s| ==> s[i] != '@') || (forall i :: 0 <= i < |s| ==> s[i] != '.')
    ensures !EmailValid(s)
  {
  }

  /** White space between the `@` and every later dot defeats the pattern. */
  lemma {:induction false} EmailSpaceInDomain(s: string, at: int)
    requires 0 <= at < |s| && s[at] == '@' && at + 1 < |s| && IsSpace(s[at + 1])
    requires forall i :: 0 <= i < |s| && i != at ==> s[i] != '@'
    ensures !EmailValid(s)
  {
    forall a, d | 0 <= a < d < |s|
      ensures !EmailShapeAt(s, a, d)
    {
      if a == at && at + 1 < d {
        assert !NonSpace(s[at + 1]);
      }
    }
  }

  predicate PasswordValid(f: Form) {
    |f.password| >= MinPasswordLength && f.password == f.confirmPassword
  }

  predicate DobValid(f: Form, today: Date) {
    f.dob != Empty && CalculateAge(today, f.dob) >= MinimumAge
  }

  /** Both ages parse, both are at least 18, the maximum is at most 120 and the minimum does not exceed it. */
  predicate AgeRangeValid(f: Form) {
    var min := ParseInt(f.minAge);
    var max := ParseInt(f.maxAge);
    && min.Some? && max.Some?
    && min.value >= MinimumAge && max.value >= MinimumAge && max.value <= MaximumAge && min.value <= max.value
  }

  /** `steps[i].isValid()`. */
  predicate StepValid(f: Form, i: int, today: Date) {
    if i == 0 then EmailValid(f.email)
    else if i == 1 then Trim(f.username) != []
    else if i == 2 then PasswordValid(f)
    else if i == DobStep then DobValid(f, today)
    else if i == 4 then Trim(f.location) != []
    else if i == 5 then true
    else if i == 6 then f.searchedSex != []
    else if i == AgeRangeStep then AgeRangeValid(f)
    else if i == 8 then |Trim(f.bio)| >= MinBioLength
    else false
  }

  /** The date step passes exactly when a real date was given and the 18th birthday is today or past. */
  lemma {:induction false} DobStepIsAdulthood(f: Form, today: Date)
    ensures StepValid(f, DobStep, today) <==> f.dob.Valid? && OnOrBefore(Anniversary(f.dob.date, MinimumAge), today)
  {
    if f.dob.Valid? {
      AgeAtLeastIff(today, f.dob.date, MinimumAge);
    }
  }

  /** Both age fields are non-empty and the minimum parses above the maximum (`NaN` compares false). */
  predicate MinAboveMaxShown(f: Form) {
    f.minAge != [] && f.maxAge != [] && ParseInt(f.minAge).Some? && ParseInt(f.maxAge).Some?
    && ParseInt(f.minAge).value > ParseInt(f.maxAge).value
  }

  /** A valid age step has both ages parsed, with 18 <= minimum <= maximum <= 120. */
  lemma {:induction false} AgeRangeStepValid(f: Form, today: Date)
    requires StepValid(f, AgeRangeStep, today)
    ensures AgeRangeValid(f)
    ensures ParseInt(f.minAge).Some? && ParseInt(f.maxAge).Some?
    ensures MinimumAge <= ParseInt(f.minAge).value <= ParseInt(f.maxAge).value <= MaximumAge
  {
  }

  /** The extra "minimum above maximum" check of `handleNext` never fires once the age step is valid. */
  lemma {:induction false} AgeRangeExtraCheckIsDead(f: Form)
    requires AgeRangeValid(f)
    ensures !MinAboveMaxShown(f)
  {
  }

  /** Typed ages "18" to "120" in order pass the age step. */
  lemma {:induction false} AgeRangeOfDecimals(f: Form, min: nat, max: nat)
    requires f.minAge == Decimal(min) && f.maxAge == Decimal(max)
    ensures AgeRangeValid(f) <==> MinimumAge <= min <= max <= MaximumAge
  {
    ParseIntDecimal(min);
    ParseIntDecimal(max);
  }

  // ---------------------------------------------------------------- next, back and submit

  /** The alert `handleNext` shows when it does not advance. */
  datatype Notice =
    | TooYoung | DobMissing
    | PasswordTooShort | PasswordMismatch | PasswordGeneric
    | MinAboveMax | AgesMissing | AgesOutOfRange
    | BioTooShort | FillIn(step: int)

  /** The registration request body: the form with both ages parsed. */
  datatype Body = Body(
    email: string, username: string, password: string, dob: DobInput, location: string,
    sex: string, searchedSex: string, minAge: Option<int>, maxAge: Option<int>, bio: string)

  datatype SubmitOutcome = Blocked(step: int) | Submitted(body: Body)

  /** Which alert an invalid step shows. */
  function NoticeFor(f: Form, i: int, today: Date): (n: Notice)
    ensures i == DobStep ==> (n == TooYoung || n == DobMissing)
    ensures i == DobStep ==> (n == TooYoung <==> f.dob != Empty && CalculateAge(today, f.dob) < MinimumAge)
    ensures i == 2 ==> (n == PasswordTooShort <==> |f.password| < MinPasswordLength)
    ensures i == 2 && |f.password| >= MinPasswordLength ==> (n == PasswordMismatch <==> f.password != f.confirmPassword)
    ensures i == AgeRangeStep ==> (n == MinAboveMax <==> MinAboveMaxShown(f))
    ensures i == AgeRangeStep && !MinAboveMaxShown(f) ==> (n == AgesMissing <==> f.minAge == [] || f.maxAge == [])
    ensures i == 8 ==> n == BioTooShort
    ensures i !in {2, DobStep, AgeRangeStep, 8} ==> n == FillIn(i)
  {
    if i == DobStep then
      (if f.dob != Empty && CalculateAge(today, f.dob) < MinimumAge then TooYoung else DobMissing)
    else if i == 2 then
      (if |f.password| < MinPasswordLength then PasswordTooShort
       else if f.password != f.confirmPassword then PasswordMismatch
       else PasswordGeneric)
    else if i == AgeRangeStep then
      (if MinAboveMaxShown(f) then MinAboveMax
       else if f.minAge == [] || f.maxAge == [] then AgesMissing
       else AgesOutOfRange)
    else if i == 8 then BioTooShort
    else FillIn(i)
  }

  function BodyOf(f: Form): (b: Body)
    ensures b.minAge == ParseInt(f.minAge) && b.maxAge == ParseInt(f.maxAge)
    ensures b.email == f.email && b.username == f.username && b.password == f.password && b.dob == f.dob
    ensures b.location == f.location && b.sex == f.sex && b.searchedSex == f.searchedSex && b.bio == f.bio
  {
    Body(f.email, f.username, f.password, f.dob, f.location, f.sex, f.searchedSex,
         ParseInt(f.minAge), ParseInt(f.maxAge), f.bio)
  }

  predicate AllStepsValid(f: Form, today: Date) {
    forall i :: 0 <= i < StepCount ==> StepValid(f, i, today)
  }

  /**
   * A submitted registration carries ages the candidate search accepts: whoever registers through
   * the wizard can search with the range they gave.
   */
  lemma {:induction false} SubmittedRangePassesSearchValidation(f: Form, today: Date, id: int)
    requires AllStepsValid(f, today)
    ensures FindPeople.Validate(FindPeople.Request(Some(id), Some(f.searchedSex), BodyOf(f).minAge, BodyOf(f).maxAge)).None?
  {
    assert StepValid(f, 6, today);
    AgeRangeStepValid(f, today);
  }

  class Wizard {
    /** `step`: the index of the step on screen. */
    var step: int
    var form: Form

    ghost predicate Valid()
      reads this
    {
      0 <= step < StepCount
    }

    constructor()
      ensures Valid() && step == 0 && form == InitialForm
    {
      step := 0;
      form := InitialForm;
    }

    /** An edit of any input replaces the form data. */
    method Edit(f: Form)
      modifies this`form
      ensures form == f
    {
      form := f;
    }

    /** `handleBack`: one step back, except on the first step. */
    method Back()
      requires Valid()
      modifies this`step
      ensures Valid()
      ensures step == if old(step) > 0 then old(step) - 1 else old(step)
    {
      if step > 0 {
        step := step - 1;
      }
    }

    /**
     * `handleNext`, offered on every step but the last: advances by exactly one step when the
     * current step is valid, otherwise stays and names the problem.
     */
    method Next(today: Date) returns (notice: Option<Notice>)
      requires Valid() && step < StepCount - 1
      modifies this`step
      ensures Valid()
      ensures StepValid(form, old(step), today) ==> step == old(step) + 1 && notice.None?
      ensures !StepValid(form, old(step), today) ==> step == old(step) && notice == Some(NoticeFor(form, old(step), today))
    {
      var valid := StepValid(form, step, today);
      if valid {
        var extraCheck := step == AgeRangeStep && MinAboveMaxShown(form);
        assert !extraCheck by {
          if step == AgeRangeStep {
            AgeRangeStepValid(form, today);
            AgeRangeExtraCheckIsDead(form);
          }
        }
        if extraCheck {
          assert false;
          return Some(MinAboveMax);
        }
        step := step + 1;
        return None;
      }
      return Some(NoticeFor(form, step, today));
    }

    /**
     * `handleSubmit`: checks the steps in order; the first invalid one becomes the current step and
     * nothing is sent; when every step is valid the body is sent.
     */
    method Submit(today: Date) returns (outcome: SubmitOutcome)
      requires Valid()
      modifies this`step
      ensures Valid()
      ensures outcome.Submitted? <==> AllStepsValid(form, today)
      ensures outcome.Submitted? ==> outcome.body == BodyOf(form) && step == old(step)
      ensures outcome.Blocked? ==>
                && step == outcome.step && 0 <= step < StepCount
                && !StepValid(form, step, today)
                && forall i :: 0 <= i < step ==> StepValid(form, i, today)
    {
      var i := 0;
      while i < StepCount
        invariant 0 <= i <= StepCount
        invariant forall j :: 0 <= j < i ==> StepValid(form, j, today)
      {
        if !StepValid(form, i, today) {
          assert !AllStepsValid(form, today) by {
            assert 0 <= i < StepCount && !StepValid(form, i, today);
          }
          step := i;
          return Blocked(i);
        }
        i := i + 1;
      }
      assert AllStepsValid(form, today);
      return Submitted(BodyOf(form));
    }
  }
}
