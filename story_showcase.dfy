/**
 * The profile form of `AJStoryShowcase` (`src/pages/AJStoryShowcase.tsx`).
 * `formData` is a record of fifteen fields; `handleInputChange` stores
 * whatever its input hands over, so each field holds a JavaScript value.
 * State also holds `errors`, `isSubmitting`, the toast list and the
 * progress value of the ticker.
 */
module StoryShowcase {
  import opened Text
  import opened EmailPatterns
  import opened FormErrors
  import opened Toasts
  import opened Ticker
  import opened OptionLists

  datatype Field =
    | FirstName | LastName | Email | Password | ConfirmPassword | Country | City
    | Skills | Experience | BirthDate | Bio | Salary | Newsletter | Theme | ProfilePicture

  /** The JavaScript values the form's inputs produce. */
  datatype Value =
    | Str(text: string)
    | Number(number: int)
    | Flag(flag: bool)
    | Items(items: seq<Value>)
    | Picture(fileName: string)
    | Null

  const AllFields: set<Field> := {FirstName, LastName, Email, Password, ConfirmPassword, Country, City,
                                  Skills, Experience, BirthDate, Bio, Salary, Newsletter, Theme, ProfilePicture}

  /** The fields `validateForm` checks. */
  const CheckedFields: set<Field> := {FirstName, LastName, Email, Password, ConfirmPassword, Country,
                                      BirthDate, Experience, Bio}

  /** `formData`: one value per field. */
  datatype Form = Form(firstName: Value, lastName: Value, email: Value, password: Value,
                       confirmPassword: Value, country: Value, city: Value, skills: Value,
                       experience: Value, birthDate: Value, bio: Value, salary: Value,
                       newsletter: Value, theme: Value, profilePicture: Value)

  /** `formData[field]`. */
  function Get(form: Form, field: Field): Value
  {
    match field
    case FirstName => form.firstName
    case LastName => form.lastName
    case Email => form.email
    case Password => form.password
    case ConfirmPassword => form.confirmPassword
    case Country => form.country
    case City => form.city
    case Skills => form.skills
    case Experience => form.experience
    case BirthDate => form.birthDate
    case Bio => form.bio
    case Salary => form.salary
    case Newsletter => form.newsletter
    case Theme => form.theme
    case ProfilePicture => form.profilePicture
  }

  /** `{ ...prev, [field]: value }`. */
  function With(form: Form, field: Field, value: Value): (r: Form)
    ensures Get(r, field) == value
    ensures forall g :: g != field ==> Get(r, g) == Get(form, g)
  {
    match field
    case FirstName => form.(firstName := value)
    case LastName => form.(lastName := value)
    case Email => form.(email := value)
    case Password => form.(password := value)
    case ConfirmPassword => form.(confirmPassword := value)
    case Country => form.(country := value)
    case City => form.(city := value)
    case Skills => form.(skills := value)
    case Experience => form.(experience := value)
    case BirthDate => form.(birthDate := value)
    case Bio => form.(bio := value)
    case Salary => form.(salary := value)
    case Newsletter => form.(newsletter := value)
    case Theme => form.(theme := value)
    case ProfilePicture => form.(profilePicture := value)
  }

  /** A text field's string; the text fields only ever receive strings. */
  function TextOf(v: Value): string
  {
    if v.Str? then v.text else ""
  }

  /** The initial `formData`, which `handleReset` restores. */
  const InitialForm: Form :=
    Form(Str(""), Str(""), Str(""), Str(""), Str(""), Str(""), Str(""), Items([]),
         Str(""), Str(""), Str(""), Number(50000), Flag(false), Str(""), Null)

  /** The messages `validateForm` records. */
  const FirstNameRequired := "First name is required"
  const LastNameRequired := "Last name is required"
  const EmailRequired := "Email is required"
  const EmailInvalid := "Please enter a valid email address"
  const PasswordRequired := "Password is required"
  const PasswordTooShort := "Password must be at least 8 characters"
  const PasswordsDiffer := "Passwords do not match"
  const CountryRequired := "Please select a country"
  const BirthDateRequired := "Birth date is required"
  const ExperienceRequired := "Please select your experience level"
  const BioTooShort := "Bio must be at least 50 characters"

  /** The rules of `validateForm`, in the order it applies them. */
  function Checks(form: Form): (checks: seq<Check<Field>>)
    ensures |checks| == 9
  {
    var email := TextOf(form.email);
    var password := TextOf(form.password);
    [ Check(FirstName, Blank(TextOf(form.firstName)), FirstNameRequired),
      Check(LastName, Blank(TextOf(form.lastName)), LastNameRequired),
      Check(Email, Blank(email) || !IsStrictEmail(email),
            if Blank(email) then EmailRequired else EmailInvalid),
      Check(Password, Utf16Length(password) < 8,
            if password == "" then PasswordRequired else PasswordTooShort),
      Check(ConfirmPassword, form.password != form.confirmPassword, PasswordsDiffer),
      Check(Country, TextOf(form.country) == "", CountryRequired),
      Check(BirthDate, TextOf(form.birthDate) == "", BirthDateRequired),
      Check(Experience, TextOf(form.experience) == "", ExperienceRequired),
      Check(Bio, Utf16Length(TextOf(form.bio)) < 50, BioTooShort) ]
  }

  /** Where a checked field's rule stands in `Checks`. */
  function Position(f: Field): int
  {
    match f
    case FirstName => 0
    case LastName => 1
    case Email => 2
    case Password => 3
    case ConfirmPassword => 4
    case Country => 5
    case BirthDate => 6
    case Experience => 7
    case Bio => 8
    case _ => -1
  }

  /** Each rule is about a field of its own. */
  lemma ChecksDistinct(form: Form)
    ensures DistinctFields(Checks(form))
  {
    var c := Checks(form);
    assert forall i :: 0 <= i < 9 ==> Position(c[i].field) == i;
  }

  /** The `newErrors` object `validateForm` builds from `form`. */
  function ValidationErrors(form: Form): map<Field, string>
  {
    Validate(Checks(form), 9)
  }

  /** Only the nine checked fields can ever carry a validation error. */
  lemma OnlyCheckedFields(form: Form)
    ensures ValidationErrors(form).Keys <= CheckedFields
  {
    ValidateKeys(Checks(form), 9);
  }

  /** A name error is recorded exactly when the trimmed name is empty. */
  lemma NameRules(form: Form)
    ensures FirstName in ValidationErrors(form) <==> Blank(TextOf(form.firstName))
    ensures LastName in ValidationErrors(form) <==> Blank(TextOf(form.lastName))
  {
    ChecksDistinct(form);
    ValidateAt(Checks(form), 9, 0);
    ValidateAt(Checks(form), 9, 1);
  }

  /** An empty-looking e-mail is "required"; any other fails exactly when the anchored pattern does. */
  lemma EmailRule(form: Form)
    ensures Email in ValidationErrors(form) <==> Blank(TextOf(form.email)) || !StrictPattern(TextOf(form.email))
    ensures Email in ValidationErrors(form) ==>
              ValidationErrors(form)[Email] == if Blank(TextOf(form.email)) then EmailRequired
                                               else EmailInvalid
  {
    ChecksDistinct(form);
    ValidateAt(Checks(form), 9, 2);
  }

  /** An empty password is "required", and one shorter than 8 characters is too short. */
  lemma PasswordRule(form: Form)
    ensures Password in ValidationErrors(form) <==> Utf16Length(TextOf(form.password)) < 8
    ensures Password in ValidationErrors(form) ==>
              ValidationErrors(form)[Password] == if TextOf(form.password) == "" then PasswordRequired
                                                  else PasswordTooShort
  {
    ChecksDistinct(form);
    ValidateAt(Checks(form), 9, 3);
  }

  /** The confirmation fails exactly when it differs from the password, whatever the other rules say. */
  lemma ConfirmRule(form: Form)
    ensures ConfirmPassword in ValidationErrors(form) <==> form.password != form.confirmPassword
  {
    ChecksDistinct(form);
    ValidateAt(Checks(form), 9, 4);
  }

  /** The country, the birth date and the experience level are required. */
  lemma SelectionRules(form: Form)
    ensures Country in ValidationErrors(form) <==> TextOf(form.country) == ""
    ensures BirthDate in ValidationErrors(form) <==> TextOf(form.birthDate) == ""
    ensures Experience in ValidationErrors(form) <==> TextOf(form.experience) == ""
  {
    ChecksDistinct(form);
    ValidateAt(Checks(form), 9, 5);
    ValidateAt(Checks(form), 9, 6);
    ValidateAt(Checks(form), 9, 7);
  }

  /** The bio needs 50 characters, counted without trimming. */
  lemma BioRule(form: Form)
    ensures Bio in ValidationErrors(form) <==> Utf16Length(TextOf(form.bio)) < 50
  {
    ChecksDistinct(form);
    ValidateAt(Checks(form), 9, 8);
  }

  /** A form passes exactly when every rule passes. */
  lemma ValidIffEveryRulePasses(form: Form)
    ensures ValidationErrors(form) == map[] <==>
              && !Blank(TextOf(form.firstName)) && !Blank(TextOf(form.lastName))
              && StrictPattern(TextOf(form.email)) && Utf16Length(TextOf(form.password)) >= 8
              && form.password == form.confirmPassword
              && TextOf(form.country) != "" && TextOf(form.birthDate) != "" && TextOf(form.experience) != ""
              && Utf16Length(TextOf(form.bio)) >= 50
  {
    var c := Checks(form);
    ValidateEmpty(c, 9);
    var pass := !c[0].failed && !c[1].failed && !c[2].failed && !c[3].failed && !c[4].failed
                && !c[5].failed && !c[6].failed && !c[7].failed && !c[8].failed;
    assert (forall i :: 0 <= i < 9 ==> !c[i].failed) <==> pass by {
      if pass {
        forall i | 0 <= i < 9
          ensures !c[i].failed
        {
          assert i == 0 || i == 1 || i == 2 || i == 3 || i == 4 || i == 5 || i == 6 || i == 7 || i == 8;
        }
      }
    }
  }

  /** The freshly reset form fails validation: the required fields are empty. */
  lemma InitialFormFails()
    ensures ValidationErrors(InitialForm) != map[]
  {
    ChecksDistinct(InitialForm);
    ValidateAt(Checks(InitialForm), 9, 0);
  }

  /** A change event: `e.target.value` when the event has a target, else `e` itself. */
  datatype Change = TargetEvent(targetValue: Value) | Bare(value: Value)

  function ChangedValue(e: Change): (v: Value)
    ensures e.TargetEvent? ==> v == e.targetValue
    ensures e.Bare? ==> v == e.value
  {
    match e
    case TargetEvent(v) => v
    case Bare(v) => v
  }

  /** `cityOptions[country] || []`. */
  function CityOptions(country: string): (r: seq<Choice<string>>)
    ensures r != [] <==> country in {"us", "ca", "uk"}
    ensures country == "us" ==> |r| == 4
    ensures country == "ca" || country == "uk" ==> |r| == 3
  {
    if country == "us" then
      [Choice("New York", "ny"), Choice("Los Angeles", "la"), Choice("Chicago", "chicago"), Choice("Houston", "houston")]
    else if country == "ca" then
      [Choice("Toronto", "toronto"), Choice("Vancouver", "vancouver"), Choice("Montreal", "montreal")]
    else if country == "uk" then
      [Choice("London", "london"), Choice("Manchester", "manchester"), Choice("Birmingham", "birmingham")]
    else []
  }

  /** The first "Personal Info" rules: both names must be more than white space. */
  method CheckNames(form: Form, errors: map<Field, string>) returns (newErrors: map<Field, string>)
    requires errors == Validate(Checks(form), 0)
    ensures newErrors == Validate(Checks(form), 2)
  {
    ghost var checks := Checks(form);
    newErrors := errors;
    if Blank(TextOf(form.firstName)) {
      newErrors := newErrors[FirstName := FirstNameRequired];
    }
    assert newErrors == Validate(checks, 1);
    if Blank(TextOf(form.lastName)) {
      newErrors := newErrors[LastName := LastNameRequired];
    }
  }

  /** The last "Personal Info" rule: an e-mail is required and must match the anchored pattern. */
  method CheckEmail(form: Form, errors: map<Field, string>) returns (newErrors: map<Field, string>)
    requires errors == Validate(Checks(form), 2)
    ensures newErrors == Validate(Checks(form), 3)
  {
    newErrors := errors;
    if Blank(TextOf(form.email)) {
      newErrors := newErrors[Email := EmailRequired];
    } else if !IsStrictEmail(TextOf(form.email)) {
      newErrors := newErrors[Email := EmailInvalid];
    }
  }

  /** The "Password" rules: the password itself, then its confirmation. */
  method CheckPasswords(form: Form, errors: map<Field, string>) returns (newErrors: map<Field, string>)
    requires errors == Validate(Checks(form), 3)
    ensures newErrors == Validate(Checks(form), 5)
  {
    ghost var checks := Checks(form);
    newErrors := errors;
    if TextOf(form.password) == "" {
      newErrors := newErrors[Password := PasswordRequired];
    } else if Utf16Length(TextOf(form.password)) < 8 {
      newErrors := newErrors[Password := PasswordTooShort];
    }
    assert newErrors == Validate(checks, 4);
    if form.password != form.confirmPassword {
      newErrors := newErrors[ConfirmPassword := PasswordsDiffer];
    }
  }

  /** The "Location" rules: country, birth date and experience level must be chosen. */
  method CheckSelections(form: Form, errors: map<Field, string>) returns (newErrors: map<Field, string>)
    requires errors == Validate(Checks(form), 5)
    ensures newErrors == Validate(Checks(form), 8)
  {
    ghost var checks := Checks(form);
    newErrors := errors;
    if TextOf(form.country) == "" {
      newErrors := newErrors[Country := CountryRequired];
    }
    assert newErrors == Validate(checks, 6);
    if TextOf(form.birthDate) == "" {
      newErrors := newErrors[BirthDate := BirthDateRequired];
    }
    assert newErrors == Validate(checks, 7);
    if TextOf(form.experience) == "" {
      newErrors := newErrors[Experience := ExperienceRequired];
    }
  }

  /** The last rule: a bio of at least 50 characters. */
  method CheckBio(form: Form, errors: map<Field, string>) returns (newErrors: map<Field, string>)
    requires errors == Validate(Checks(form), 8)
    ensures newErrors == Validate(Checks(form), 9)
  {
    newErrors := errors;
    if Utf16Length(TextOf(form.bio)) < 50 {
      newErrors := newErrors[Bio := BioTooShort];
    }
  }

  /** The page's state. */
  class StoryForm {
    var formData: Form
    var errors: map<Field, string>
    var isSubmitting: bool
    var toasts: seq<Toast>
    var progressValue: int

    constructor ()
      ensures formData == InitialForm && errors == map[] && !isSubmitting
      ensures toasts == [] && progressValue == 0
    {
      formData := InitialForm;
      errors := map[];
      isSubmitting := false;
      toasts := [];
      progressValue := 0;
    }

    /** `validateForm`: record every failing rule's message, and report whether there were none. */
    method ValidateForm() returns (valid: bool)
      modifies this
      ensures formData == old(formData)
      ensures errors == ValidationErrors(formData)
      ensures valid <==> errors == map[]
      ensures isSubmitting == old(isSubmitting) && toasts == old(toasts) && progressValue == old(progressValue)
    {
      var form := formData;
      var newErrors := CheckNames(form, map[]);
      newErrors := CheckEmail(form, newErrors);
      newErrors := CheckPasswords(form, newErrors);
      newErrors := CheckSelections(form, newErrors);
      newErrors := CheckBio(form, newErrors);
      errors := newErrors;
      valid := |newErrors| == 0;
    }

    /** The start of `handleSubmit`: an invalid form shows an error toast and stops there. */
    method HandleSubmit(toastId: int) returns (proceeded: bool)
      modifies this
      ensures formData == old(formData)
      ensures errors == ValidationErrors(formData)
      ensures proceeded <==> errors == map[]
      ensures !proceeded ==> toasts == Append(old(toasts), toastId, Error, "Please fix the errors in the form")
                             && isSubmitting == old(isSubmitting)
      ensures proceeded ==> toasts == old(toasts) && isSubmitting
      ensures progressValue == old(progressValue)
    {
      var valid := ValidateForm();
      if !valid {
        ShowToast(Error, "Please fix the errors in the form", toastId);
        return false;
      }
      isSubmitting := true;
      proceeded := true;
    }

    /** `handleInputChange(field)(e)`: store the value; an existing error of that field becomes "". */
    method HandleInputChange(field: Field, e: Change)
      modifies this
      ensures formData == With(old(formData), field, ChangedValue(e))
      ensures errors == ClearError(old(errors), field)
      ensures isSubmitting == old(isSubmitting) && toasts == old(toasts) && progressValue == old(progressValue)
    {
      var value := if e.TargetEvent? then e.targetValue else e.value;
      formData := With(formData, field, value);
      if HasError(errors, field) {
        errors := errors[field := ""];
      }
    }

    /** `showToast`, with the id `Date.now()` would give passed in. */
    method ShowToast(variant: Variant, message: string, id: int)
      modifies this
      ensures toasts == Append(old(toasts), id, variant, message)
      ensures formData == old(formData) && errors == old(errors)
      ensures isSubmitting == old(isSubmitting) && progressValue == old(progressValue)
    {
      toasts := toasts + [Toast(id, variant, message, true)];
    }

    /** `removeToast`; the callback `showToast` schedules does the same for its own id. */
    method RemoveToast(id: int)
      modifies this
      ensures toasts == RemoveById(old(toasts), id)
      ensures formData == old(formData) && errors == old(errors)
      ensures isSubmitting == old(isSubmitting) && progressValue == old(progressValue)
    {
      toasts := RemoveById(toasts, id);
    }

    /** `handleReset`: the initial form, no errors, and an information toast. */
    method HandleReset(toastId: int)
      modifies this
      ensures formData == InitialForm && errors == map[]
      ensures toasts == Append(old(toasts), toastId, Info, "Form has been reset")
      ensures isSubmitting == old(isSubmitting) && progressValue == old(progressValue)
    {
      formData := InitialForm;
      errors := map[];
      ShowToast(Info, "Form has been reset", toastId);
    }

    /** `getCurrentCities`. */
    function CurrentCities(): (r: seq<Choice<string>>)
      reads this
      ensures r != [] <==> TextOf(formData.country) in {"us", "ca", "uk"}
    {
      CityOptions(TextOf(formData.country))
    }

    /** One run of the interval callback. */
    method TickProgress()
      modifies this
      ensures progressValue == Tick(old(progressValue), StoryStep)
      ensures formData == old(formData) && errors == old(errors)
      ensures isSubmitting == old(isSubmitting) && toasts == old(toasts)
    {
      progressValue := if progressValue >= 100 then 0 else progressValue + 2;
    }
  }
}
