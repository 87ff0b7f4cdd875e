/**
 * `PasswordInput` (`package-build/src/Password.tsx`): the strength scorer,
 * the level table it indexes, the condition under which the strength
 * indicator is shown, and the show/hide toggle.
 */
module Password {
  import opened Text
  import opened Optional

  datatype Strength = Strength(score: nat, caption: string, color: string)

  predicate IsLower(c: char) { 'a' <= c <= 'z' }
  predicate IsUpper(c: char) { 'A' <= c <= 'Z' }
  predicate IsDigit(c: char) { '0' <= c <= '9' }
  /** A character outside `A-Za-z0-9`, what `/[^A-Za-z0-9]/` looks for. */
  predicate IsSymbol(c: char) { !IsLower(c) && !IsUpper(c) && !IsDigit(c) }

  /** The regular expression `/[<class>]/` finds a character of the class. */
  predicate HasLower(s: string) { exists k :: 0 <= k < |s| && IsLower(s[k]) }
  predicate HasUpper(s: string) { exists k :: 0 <= k < |s| && IsUpper(s[k]) }
  predicate HasDigit(s: string) { exists k :: 0 <= k < |s| && IsDigit(s[k]) }
  predicate HasSymbol(s: string) { exists k :: 0 <= k < |s| && IsSymbol(s[k]) }

  function Point(b: bool): nat { if b then 1 else 0 }

  /** The five `score++` steps: one point per criterion the password meets. */
  function Score(password: string): (n: nat)
    ensures n <= 5
  {
    Point(Utf16Length(password) >= 8) + Point(HasLower(password)) + Point(HasUpper(password))
    + Point(HasDigit(password)) + Point(HasSymbol(password))
  }

  /** The `levels` table. */
  const Levels: seq<Strength> := [
    Strength(0, "", "gray"),
    Strength(1, "Very Weak", "red"),
    Strength(2, "Weak", "orange"),
    Strength(3, "Fair", "yellow"),
    Strength(4, "Good", "blue"),
    Strength(5, "Strong", "green")
  ]

  /** `getPasswordStrength`. */
  function GetPasswordStrength(password: string): (r: Strength)
    ensures r.score == (if password == "" then 0 else Score(password))
    ensures r == Levels[r.score]
  {
    if password == "" then Strength(0, "", "gray") else Levels[Score(password)]
  }

  /** Every character falls in one of the four classes, so a non-empty password scores at least 1. */
  lemma NonEmptyScoresAtLeastOne(password: string)
    requires password != ""
    ensures 1 <= Score(password) <= 5
    ensures GetPasswordStrength(password).caption != ""
  {
    var c := password[0];
    if IsLower(c) { assert HasLower(password); }
    else if IsUpper(c) { assert HasUpper(password); }
    else if IsDigit(c) { assert HasDigit(password); }
    else { assert HasSymbol(password); }
  }

  /** Appending characters never lowers the score: every criterion met by a prefix stays met. */
  lemma AppendNeverLowersScore(password: string, more: string)
    ensures Score(password + more) >= Score(password)
  {
    var s := password + more;
    Utf16LengthAppend(password, more);
    assert forall k :: 0 <= k < |password| ==> s[k] == password[k];
    if HasLower(password) {
      var k :| 0 <= k < |password| && IsLower(password[k]);
      assert IsLower(s[k]);
    }
    if HasUpper(password) {
      var k :| 0 <= k < |password| && IsUpper(password[k]);
      assert IsUpper(s[k]);
    }
    if HasDigit(password) {
      var k :| 0 <= k < |password| && IsDigit(password[k]);
      assert IsDigit(s[k]);
    }
    if HasSymbol(password) {
      var k :| 0 <= k < |password| && IsSymbol(password[k]);
      assert IsSymbol(s[k]);
    }
  }

  /** `strength`: computed only when `showStrength` is on, `null` otherwise. */
  function ComputedStrength(showStrength: bool, value: string): (r: Option<Strength>)
    ensures r.Some? <==> showStrength
  {
    if showStrength then Some(GetPasswordStrength(value)) else None
  }

  /** The condition guarding the strength bar: `showStrength && value && strength && strength.score > 0`. */
  predicate IndicatorShown(showStrength: bool, value: string)
  {
    var strength := ComputedStrength(showStrength, value);
    showStrength && value != "" && strength.Some? && strength.value.score > 0
  }

  /** The score test in that condition is redundant: the bar shows exactly when the option is on and a password is typed. */
  lemma IndicatorShownIff(showStrength: bool, value: string)
    ensures IndicatorShown(showStrength, value) <==> showStrength && value != ""
  {
    if value != "" {
      NonEmptyScoresAtLeastOne(value);
    }
  }

  /** The `type` attribute of the input. */
  function InputType(showPassword: bool): (t: string)
    ensures t == "text" <==> showPassword
    ensures t == "password" <==> !showPassword
  {
    if showPassword then "text" else "password"
  }

  /** The component's `showPassword` state. */
  class PasswordInput {
    var showPassword: bool

    constructor ()
      ensures !showPassword
    {
      showPassword := false;
    }

    /** The eye button's `onClick`. */
    method ToggleVisibility()
      modifies this
      ensures showPassword == !old(showPassword)
    {
      showPassword := !showPassword;
    }
  }
}
