/**
 * `LoginCard` (`package-build/src/Card.tsx`): an e-mail and password form.
 * State: `formData` (`email`, `password`, `rememberMe`), the `errors`
 * dictionary, `loading` and `showPassword`. The simulated 1.5 s login, the
 * `alert` and the console output are not modelled; `LoginFinished` is the
 * state the `finally` block leaves.
 */
module LoginCard {
  import opened Text
  import opened EmailPatterns
  import opened FormErrors

  datatype Field = EmailField | PasswordField

  const EmailRequired := "Email is required"
  const EmailInvalid := "Please enter a valid email"
  const PasswordRequired := "Password is required"
  const PasswordTooShort := "Password must be at least 6 characters"

  /** `validateEmail`: the anchored pattern `/^[^\s@]+@[^\s@]+\.[^\s@]+$/`. */
  function ValidateEmail(email: string): (b: bool)
    ensures b <==> StrictPattern(email)
  {
    IsStrictEmail(email)
  }

  /** The message `handleSubmit` records for the e-mail, or "" for none. */
  function EmailMessage(email: string): (m: string)
    ensures email == "" ==> m == EmailRequired
    ensures email != "" && !StrictPattern(email) ==> m == EmailInvalid
    ensures email != "" && StrictPattern(email) ==> m == ""
  {
    if email == "" then EmailRequired
    else if !ValidateEmail(email) then EmailInvalid
    else ""
  }

  /** The message `handleSubmit` records for the password, or "" for none. */
  function PasswordMessage(password: string): (m: string)
    ensures password == "" ==> m == PasswordRequired
    ensures password != "" && Utf16Length(password) < 6 ==> m == PasswordTooShort
    ensures Utf16Length(password) >= 6 ==> m == ""
  {
    if password == "" then PasswordRequired
    else if Utf16Length(password) < 6 then PasswordTooShort
    else ""
  }

  function Message(email: string, password: string, field: Field): string
  {
    match field
    case EmailField => EmailMessage(email)
    case PasswordField => PasswordMessage(password)
  }

  /** The `newErrors` object of `handleSubmit`: one entry per failing field. */
  function SubmitErrors(email: string, password: string): (e: map<Field, string>)
    ensures EmailField in e <==> !StrictPattern(email)
    ensures EmailField in e ==> e[EmailField] == (if email == "" then EmailRequired else EmailInvalid)
    ensures PasswordField in e <==> Utf16Length(password) < 6
    ensures PasswordField in e ==> e[PasswordField] == (if password == "" then PasswordRequired else PasswordTooShort)
    ensures e == map[] <==> StrictPattern(email) && Utf16Length(password) >= 6
  {
    EmptyIsNotStrict();
    var e := Collected({EmailField, PasswordField}, (f: Field) => Message(email, password, f));
    assert EmailField in e <==> !StrictPattern(email);
    assert PasswordField in e <==> Utf16Length(password) < 6;
    assert e == map[] <==> EmailField !in e && PasswordField !in e;
    e
  }

  /** `length` counts UTF-16 code units: three emoji are six units, long enough for the rule. */
  lemma SurrogatePairsCountTwice()
    ensures Utf16Length("\U{1F600}\U{1F600}\U{1F600}") == 6
    ensures PasswordMessage("\U{1F600}\U{1F600}\U{1F600}") == ""
  {
    var p := "\U{1F600}\U{1F600}\U{1F600}";
    assert p[1..][1..][1..] == [];
  }

  /** The empty string is not an address. */
  lemma EmptyIsNotStrict()
    ensures !StrictPattern("")
  {
  }

  /** The component's state. */
  class LoginForm {
    var email: string
    var password: string
    var rememberMe: bool
    var errors: map<Field, string>
    var loading: bool
    var showPassword: bool

    constructor ()
      ensures email == "" && password == "" && !rememberMe
      ensures errors == map[] && !loading && !showPassword
    {
      email, password, rememberMe := "", "", false;
      errors, loading, showPassword := map[], false, false;
    }

    /** `handleEmailChange`: store the text; an e-mail error clears once the text is a valid address. */
    method HandleEmailChange(newEmail: string)
      modifies this
      ensures email == newEmail
      ensures errors == if newEmail != "" && ValidateEmail(newEmail) then ClearError(old(errors), EmailField) else old(errors)
      ensures password == old(password) && rememberMe == old(rememberMe)
      ensures loading == old(loading) && showPassword == old(showPassword)
    {
      email := newEmail;
      if HasError(errors, EmailField) {
        if newEmail != "" && ValidateEmail(newEmail) {
          errors := errors[EmailField := ""];
        }
      }
    }

    /** `handlePasswordChange`: store the text; a password error clears once it has 6 characters. */
    method HandlePasswordChange(newPassword: string)
      modifies this
      ensures password == newPassword
      ensures errors == if Utf16Length(newPassword) >= 6 then ClearError(old(errors), PasswordField) else old(errors)
      ensures email == old(email) && rememberMe == old(rememberMe)
      ensures loading == old(loading) && showPassword == old(showPassword)
    {
      password := newPassword;
      if HasError(errors, PasswordField) && Utf16Length(newPassword) >= 6 {
        errors := errors[PasswordField := ""];
      }
    }

    /** `handleRememberMeChange`. */
    method HandleRememberMeChange(checked: bool)
      modifies this
      ensures rememberMe == checked
      ensures email == old(email) && password == old(password) && errors == old(errors)
      ensures loading == old(loading) && showPassword == old(showPassword)
    {
      rememberMe := checked;
    }

    /** `toggleShowPassword`. */
    method ToggleShowPassword()
      modifies this
      ensures showPassword == !old(showPassword)
      ensures email == old(email) && password == old(password) && rememberMe == old(rememberMe)
      ensures errors == old(errors) && loading == old(loading)
    {
      showPassword := !showPassword;
    }

    /**
     * The validation part of `handleSubmit`: the errors become exactly the
     * failing fields' messages; only with none recorded does loading start.
     */
    method HandleSubmit() returns (proceeded: bool)
      modifies this
      ensures errors == SubmitErrors(email, password)
      ensures proceeded <==> StrictPattern(email) && Utf16Length(password) >= 6
      ensures loading == (proceeded || old(loading))
      ensures email == old(email) && password == old(password) && rememberMe == old(rememberMe)
      ensures showPassword == old(showPassword)
    {
      var newErrors: map<Field, string> := map[];
      if email == "" {
        newErrors := newErrors[EmailField := EmailRequired];
      } else if !ValidateEmail(email) {
        newErrors := newErrors[EmailField := EmailInvalid];
      }
      if password == "" {
        newErrors := newErrors[PasswordField := PasswordRequired];
      } else if Utf16Length(password) < 6 {
        newErrors := newErrors[PasswordField := PasswordTooShort];
      }
      var em, pw := email, password;
      var message := (f: Field) => Message(em, pw, f);
      assert message(EmailField) == EmailMessage(em) && message(PasswordField) == PasswordMessage(pw);
      CollectedIs(newErrors, {EmailField, PasswordField}, message);
      errors := newErrors;
      if |newErrors| > 0 {
        return false;
      }
      loading := true;
      proceeded := true;
    }

    /** The `finally` block after the simulated request. */
    method LoginFinished()
      modifies this
      ensures !loading
      ensures email == old(email) && password == old(password) && rememberMe == old(rememberMe)
      ensures errors == old(errors) && showPassword == old(showPassword)
    {
      loading := false;
    }
  }
}
