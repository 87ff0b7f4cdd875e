/**
 * The contact form of the two component-preview pages, `StorybookPreview`
 * in `src/pages/Utility.tsx` and its copy in `src/pages/Utility_New.tsx`
 * (the same handlers, 204 lines further down). `formData` holds five
 * strings; state also holds `errors`, `isSubmitting`, the alert shown after
 * a submission and the progress value of the ticker.
 */
module ContactForm {
  import opened Text
  import opened EmailPatterns
  import opened FormErrors
  import opened Ticker
  import opened Optional

  datatype Field = Name | Email | Country | BirthDate | Message

  /** `formData`. */
  datatype Form = Form(name: string, email: string, country: string, birthDate: string, message: string)

  const EmptyForm := Form("", "", "", "", "")

  /** `formData[field]`. */
  function Get(form: Form, field: Field): string
  {
    match field
    case Name => form.name
    case Email => form.email
    case Country => form.country
    case BirthDate => form.birthDate
    case Message => form.message
  }

  /** `{ ...formData, [field]: value }`. */
  function With(form: Form, field: Field, value: string): (r: Form)
    ensures Get(r, field) == value
    ensures forall g :: g != field ==> Get(r, g) == Get(form, g)
  {
    match field
    case Name => form.(name := value)
    case Email => form.(email := value)
    case Country => form.(country := value)
    case BirthDate => form.(birthDate := value)
    case Message => form.(message := value)
  }

  /** The JavaScript integers whose `String` form is plain decimal notation. */
  newtype SafeInteger = n: int | -0x1F_FFFF_FFFF_FFFF <= n <= 0x1F_FFFF_FFFF_FFFF

  /** `e.target.value`: a string or a number. */
  datatype Input = Text(text: string) | Number(number: SafeInteger)

  /** The decimal digit of `d`. */
  function Digit(d: int): (c: char)
    requires 0 <= d < 10
    ensures '0' <= c <= '9' && c as int - '0' as int == d
  {
    ('0' as int + d) as char
  }

  /** The decimal digits of `n`, most significant first, without leading zeros. */
  function Digits(n: nat): (s: string)
    ensures 0 < |s| && (|s| > 1 ==> s[0] != '0')
    ensures forall k :: 0 <= k < |s| ==> '0' <= s[k] <= '9'
  {
    if n < 10 then [Digit(n)] else Digits(n / 10) + [Digit(n % 10)]
  }

  /** `String(n)` for an integer. */
  function DecimalString(n: int): (s: string)
    ensures 0 < |s|
    ensures n < 0 <==> s[0] == '-'
    ensures var d := if n < 0 then s[1..] else s;
            0 < |d| && (|d| > 1 ==> d[0] != '0') && forall k :: 0 <= k < |d| ==> '0' <= d[k] <= '9'
  {
    var s := if n < 0 then "-" + Digits(-n) else Digits(n);
    assert n < 0 ==> s[1..] == Digits(-n);
    s
  }

  /** The value of a string of decimal digits. */
  function DigitsValue(s: string): int
  {
    if s == [] then 0 else 10 * DigitsValue(s[..|s| - 1]) + (s[|s| - 1] as int - '0' as int)
  }

  /** The number a decimal string stands for, read back. */
  function DecimalValue(s: string): int
  {
    if s != [] && s[0] == '-' then -DigitsValue(s[1..]) else DigitsValue(s)
  }

  lemma {:induction false} DigitsRoundTrip(n: nat)
    ensures DigitsValue(Digits(n)) == n
  {
    if n >= 10 {
      DigitsRoundTrip(n / 10);
      var s := Digits(n / 10) + [Digit(n % 10)];
      assert s[..|s| - 1] == Digits(n / 10);
    }
  }

  /** `String` of an integer reads back as the same integer. */
  lemma DecimalRoundTrip(n: int)
    ensures DecimalValue(DecimalString(n)) == n
  {
    if n < 0 {
      DigitsRoundTrip(-n);
      assert ("-" + Digits(-n))[1..] == Digits(-n);
    } else {
      DigitsRoundTrip(n);
    }
  }

  /** What `handleInputChange` stores: a number as its `String`, a string as it is. */
  function Stored(v: Input): (s: string)
    ensures v.Text? ==> s == v.text
    ensures v.Number? ==> DecimalValue(s) == v.number as int
  {
    match v
    case Text(t) => t
    case Number(n) =>
      DecimalRoundTrip(n as int);
      DecimalString(n as int)
  }

  /** The messages `validateForm` records. */
  const NameRequired := "Name is required"
  const EmailRequired := "Email is required"
  const EmailInvalid := "Please enter a valid email address"
  const CountryRequired := "Please select a country"
  const BirthDateRequired := "Birth date is required"
  const MessageRequired := "Message is required"
  const MessageTooShort := "Message must be at least 20 characters long"

  /** The rules of `validateForm`, in the order it applies them. */
  function Checks(form: Form): (checks: seq<Check<Field>>)
    ensures |checks| == 5
  {
    [ Check(Name, Blank(form.name), NameRequired),
      Check(Email, Blank(form.email) || !IsLooseEmail(form.email),
            if Blank(form.email) then EmailRequired else EmailInvalid),
      Check(Country, form.country == "", CountryRequired),
      Check(BirthDate, form.birthDate == "", BirthDateRequired),
      Check(Message, Blank(form.message) || Utf16Length(Trim(form.message)) < 20,
            if Blank(form.message) then MessageRequired else MessageTooShort) ]
  }

  /** Where a field's rule stands in `Checks`. */
  function Position(f: Field): int
  {
    match f
    case Name => 0
    case Email => 1
    case Country => 2
    case BirthDate => 3
    case Message => 4
  }

  /** Each rule is about a field of its own. */
  lemma ChecksDistinct(form: Form)
    ensures DistinctFields(Checks(form))
  {
    var c := Checks(form);
    assert forall i :: 0 <= i < 5 ==> Position(c[i].field) == i;
  }

  /** The `newErrors` object `validateForm` builds from `form`. */
  function ValidationErrors(form: Form): map<Field, string>
  {
    Validate(Checks(form), 5)
  }

  /** A name error is recorded exactly when the trimmed name is empty. */
  lemma NameRule(form: Form)
    ensures Name in ValidationErrors(form) <==> Trim(form.name) == ""
    ensures Name in ValidationErrors(form) ==> ValidationErrors(form)[Name] == NameRequired
  {
    ChecksDistinct(form);
    ValidateAt(Checks(form), 5, 0);
    BlankIsEmptyTrim(form.name);
  }

  /**
   * An empty-looking e-mail is "required"; any other fails exactly when no
   * piece of it matches `\S+@\S+\.\S+`.
   */
  lemma EmailRule(form: Form)
    ensures Email in ValidationErrors(form) <==> Trim(form.email) == "" || !LoosePattern(form.email)
    ensures Email in ValidationErrors(form) ==>
              ValidationErrors(form)[Email] == if Trim(form.email) == "" then EmailRequired else EmailInvalid
  {
    ChecksDistinct(form);
    ValidateAt(Checks(form), 5, 1);
    BlankIsEmptyTrim(form.email);
  }

  /** The country and the birth date are required. */
  lemma SelectionRules(form: Form)
    ensures Country in ValidationErrors(form) <==> form.country == ""
    ensures BirthDate in ValidationErrors(form) <==> form.birthDate == ""
  {
    ChecksDistinct(form);
    ValidateAt(Checks(form), 5, 2);
    ValidateAt(Checks(form), 5, 3);
  }

  /** An empty-looking message is "required"; otherwise it needs 20 characters once trimmed. */
  lemma MessageRule(form: Form)
    ensures Message in ValidationErrors(form) <==> Utf16Length(Trim(form.message)) < 20
    ensures Message in ValidationErrors(form) ==>
              ValidationErrors(form)[Message] == if Trim(form.message) == "" then MessageRequired else MessageTooShort
  {
    ChecksDistinct(form);
    ValidateAt(Checks(form), 5, 4);
    BlankIsEmptyTrim(form.message);
  }

  /** A form passes exactly when every rule passes. */
  lemma ValidIffEveryRulePasses(form: Form)
    ensures ValidationErrors(form) == map[] <==>
              && !Blank(form.name) && !Blank(form.email) && LoosePattern(form.email)
              && form.country != "" && form.birthDate != "" && !Blank(form.message)
              && Utf16Length(Trim(form.message)) >= 20
  {
    var c := Checks(form);
    ValidateEmpty(c, 5);
    var pass := !c[0].failed && !c[1].failed && !c[2].failed && !c[3].failed && !c[4].failed;
    assert (forall i :: 0 <= i < 5 ==> !c[i].failed) <==> pass by {
      if pass {
        forall i | 0 <= i < 5
          ensures !c[i].failed
        {
          assert i == 0 || i == 1 || i == 2 || i == 3 || i == 4;
        }
      }
    }
  }

  /** The emptied form fails validation: every rule fails. */
  lemma EmptyFormFails()
    ensures ValidationErrors(EmptyForm).Keys == {Name, Email, Country, BirthDate, Message}
  {
    ChecksDistinct(EmptyForm);
    ValidateKeys(Checks(EmptyForm), 5);
    var c := Checks(EmptyForm);
    assert c[0].failed && c[1].failed && c[2].failed && c[3].failed && c[4].failed;
    assert forall f :: f in ValidationErrors(EmptyForm).Keys <==> exists i :: 0 <= i < 5 && c[i].failed && c[i].field == f
      by {
        forall f ensures f in ValidationErrors(EmptyForm).Keys <==> exists i :: 0 <= i < 5 && c[i].failed && c[i].field == f
        {
          var i := Position(f);
          assert 0 <= i < 5 && c[i].field == f;
        }
      }
  }

  /** The first two rules: the name, then the e-mail. */
  method CheckNameAndEmail(form: Form) returns (newErrors: map<Field, string>)
    ensures newErrors == Validate(Checks(form), 2)
  {
    ghost var checks := Checks(form);
    newErrors := map[];
    if Blank(form.name) {
      newErrors := newErrors[Name := NameRequired];
    }
    assert newErrors == Validate(checks, 1);
    if Blank(form.email) {
      newErrors := newErrors[Email := EmailRequired];
    } else if !IsLooseEmail(form.email) {
      newErrors := newErrors[Email := EmailInvalid];
    }
  }

  /** The next two rules: a country and a birth date must be chosen. */
  method CheckSelections(form: Form, errors: map<Field, string>) returns (newErrors: map<Field, string>)
    requires errors == Validate(Checks(form), 2)
    ensures newErrors == Validate(Checks(form), 4)
  {
    ghost var checks := Checks(form);
    newErrors := errors;
    if form.country == "" {
      newErrors := newErrors[Country := CountryRequired];
    }
    assert newErrors == Validate(checks, 3);
    if form.birthDate == "" {
      newErrors := newErrors[BirthDate := BirthDateRequired];
    }
  }

  /** The last rule: a message of at least 20 characters once trimmed. */
  method CheckMessage(form: Form, errors: map<Field, string>) returns (newErrors: map<Field, string>)
    requires errors == Validate(Checks(form), 4)
    ensures newErrors == Validate(Checks(form), 5)
  {
    newErrors := errors;
    if Blank(form.message) {
      newErrors := newErrors[Message := MessageRequired];
    } else if Utf16Length(Trim(form.message)) < 20 {
      newErrors := newErrors[Message := MessageTooShort];
    }
  }

  /** The `showAlert` state: an alert variant or `null`. */
  datatype AlertKind = Success | Error | Warning | Info

  /** The page's state. */
  class StorybookPreview {
    var formData: Form
    var errors: map<Field, string>
    var isSubmitting: bool
    var showAlert: Option<AlertKind>
    var progressValue: int

    constructor ()
      ensures formData == EmptyForm && errors == map[] && !isSubmitting
      ensures showAlert == None && progressValue == 0
    {
      formData := EmptyForm;
      errors := map[];
      isSubmitting := false;
      showAlert := None;
      progressValue := 0;
    }

    /** `validateForm`: record every failing rule's message, and report whether there were none. */
    method ValidateForm() returns (valid: bool)
      modifies this
      ensures formData == old(formData)
      ensures errors == ValidationErrors(formData)
      ensures valid <==> errors == map[]
      ensures isSubmitting == old(isSubmitting) && showAlert == old(showAlert)
      ensures progressValue == old(progressValue)
    {
      var form := formData;
      var newErrors := CheckNameAndEmail(form);
      newErrors := CheckSelections(form, newErrors);
      newErrors := CheckMessage(form, newErrors);
      errors := newErrors;
      valid := |newErrors| == 0;
    }

    /** The synchronous part of `handleSubmit`: an invalid form returns before submitting starts. */
    method HandleSubmit() returns (proceeded: bool)
      modifies this
      ensures formData == old(formData)
      ensures errors == ValidationErrors(formData)
      ensures proceeded <==> errors == map[]
      ensures isSubmitting == (proceeded || old(isSubmitting))
      ensures showAlert == old(showAlert) && progressValue == old(progressValue)
    {
      var valid := ValidateForm();
      if !valid {
        return false;
      }
      isSubmitting := true;
      proceeded := true;
    }

    /** The 2-second timeout `handleSubmit` schedules: success alert, emptied form, no errors. */
    method SubmitTimeoutFires()
      modifies this
      ensures showAlert == Some(Success) && !isSubmitting
      ensures formData == EmptyForm && errors == map[]
      ensures progressValue == old(progressValue)
    {
      showAlert := Some(Success);
      isSubmitting := false;
      formData := EmptyForm;
      errors := map[];
    }

    /** The 5-second timeout after it: the alert goes away. */
    method AlertTimeoutFires()
      modifies this
      ensures showAlert == None
      ensures formData == old(formData) && errors == old(errors)
      ensures isSubmitting == old(isSubmitting) && progressValue == old(progressValue)
    {
      showAlert := None;
    }

    /** `handleInputChange(field)(e)`: store the value as a string; an existing error of that field becomes "". */
    method HandleInputChange(field: Field, value: Input)
      modifies this
      ensures formData == With(old(formData), field, Stored(value))
      ensures errors == ClearError(old(errors), field)
      ensures isSubmitting == old(isSubmitting) && showAlert == old(showAlert)
      ensures progressValue == old(progressValue)
    {
      var s := if value.Number? then DecimalString(value.number as int) else value.text;
      formData := With(formData, field, s);
      if HasError(errors, field) {
        errors := errors[field := ""];
      }
    }

    /** `handleReset`: all five fields empty and no errors. */
    method HandleReset()
      modifies this
      ensures formData == EmptyForm && errors == map[]
      ensures isSubmitting == old(isSubmitting) && showAlert == old(showAlert)
      ensures progressValue == old(progressValue)
    {
      formData := EmptyForm;
      errors := map[];
    }

    /** One run of the interval callback. */
    method TickProgress()
      modifies this
      ensures progressValue == Tick(old(progressValue), ContactStep)
      ensures formData == old(formData) && errors == old(errors)
      ensures isSubmitting == old(isSubmitting) && showAlert == old(showAlert)
    {
      progressValue := if progressValue >= 100 then 0 else progressValue + 10;
    }
  }
}
