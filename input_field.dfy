/**
 * `InputField` (`src/components/ui/Inputv2.tsx`): the padding chosen from
 * size, icon and toggle; the error class; the class-string normaliser
 * (`trim()` then `replace(/\s+/g, " ")`); the input type; the password
 * toggle; and which line is shown under the input.
 */
module InputField {
  import opened Text

  datatype Size = Sm | Md | Lg
  datatype IconPosition = Left | Right

  /** `sizeClasses[size].padding`; `hasIcon` says whether an `icon` prop is given. */
  function Padding(size: Size, hasIcon: bool, iconPosition: IconPosition, showToggle: bool): (p: string)
    ensures hasIcon && iconPosition == Left ==>
              p == (match size case Sm => "pl-8" case Md => "pl-10" case Lg => "pl-12")
    ensures !(hasIcon && iconPosition == Left) && showToggle ==>
              p == (match size case Sm => "pr-8" case Md => "pr-10" case Lg => "pr-12")
    ensures !(hasIcon && iconPosition == Left) && !showToggle ==>
              p == (match size case Sm => "px-3" case Md => "px-3" case Lg => "px-4")
  {
    var leftIcon := hasIcon && iconPosition == Left;
    match size
    case Sm => if leftIcon then "pl-8" else if showToggle then "pr-8" else "px-3"
    case Md => if leftIcon then "pl-10" else if showToggle then "pr-10" else "px-3"
    case Lg => if leftIcon then "pl-12" else if showToggle then "pr-12" else "px-4"
  }

  /** `errorClass`; an absent `error` prop is the empty string. */
  function ErrorClass(error: string): (c: string)
    ensures c != "" <==> error != ""
  {
    if error != "" then "border-red-500 focus:border-red-500 focus:ring-red-500" else ""
  }

  /**
   * `replace(/\s+/g, " ")`: every maximal run of white space becomes one
   * space. `WordsOfCollapse` shows the words between the runs are kept.
   */
  function Collapse(s: string): (r: string)
    ensures s == [] <==> r == []
    ensures s != [] && !IsSpace(s[0]) ==> r[0] == s[0]
    ensures s != [] && IsSpace(s[0]) ==> r[0] == ' '
    ensures s != [] && !IsSpace(s[|s| - 1]) ==> !IsSpace(r[|r| - 1])
    ensures s != [] && IsSpace(s[|s| - 1]) ==> r[|r| - 1] == ' '
    ensures SingleSpaced(r)
    decreases |s|
  {
    if s == [] then []
    else if IsSpace(s[0]) then
      var t := TrimStart(s[1..]);
      assert t != [] ==> t[|t| - 1] == s[|s| - 1];
      assert !IsSpace(s[|s| - 1]) ==> t != [];
      " " + Collapse(t)
    else [s[0]] + Collapse(s[1..])
  }

  /** The only white space is a plain space, never two in a row. */
  predicate SingleSpaced(r: string)
  {
    && (forall k :: 0 <= k < |r| && IsSpace(r[k]) ==> r[k] == ' ')
    && (forall k :: 0 <= k < |r| - 1 ==> !(IsSpace(r[k]) && IsSpace(r[k + 1])))
  }

  /** The normaliser applied to the class template. */
  function Normalize(s: string): (r: string)
    ensures r == [] || (!IsSpace(r[0]) && !IsSpace(r[|r| - 1]))
    ensures SingleSpaced(r)
  {
    Collapse(Trim(s))
  }

  /** `inputClassName`: the template literal of class groups, one per line, normalised. */
  function InputClassName(baseInputClass: string, sizeInput: string, padding: string,
                          variantClass: string, errorClass: string, className: string): (r: string)
    ensures r == [] || (!IsSpace(r[0]) && !IsSpace(r[|r| - 1]))
    ensures SingleSpaced(r)
  {
    var sep := "\n    ";
    Normalize(sep + baseInputClass + sep + sizeInput + sep + padding + sep + variantClass
              + sep + errorClass + sep + className + "\n  ")
  }

  /** A string that is already trimmed is left alone by `trim`. */
  lemma TrimOfTrimmed(s: string)
    requires s == [] || (!IsSpace(s[0]) && !IsSpace(s[|s| - 1]))
    ensures Trim(s) == s
  {
  }

  /** A single-spaced string is left alone by `Collapse`. */
  lemma {:induction false} CollapseOfSingleSpaced(s: string)
    requires SingleSpaced(s)
    ensures Collapse(s) == s
    decreases |s|
  {
    if s != [] {
      SingleSpacedTail(s);
      CollapseOfSingleSpaced(s[1..]);
      if IsSpace(s[0]) {
        assert s[0] == ' ';
        assert SpaceRunEnd(s[1..], 0) == 0;
      }
    }
  }

  lemma SingleSpacedTail(s: string)
    requires s != [] && SingleSpaced(s)
    ensures SingleSpaced(s[1..])
    ensures IsSpace(s[0]) ==> s[0] == ' ' && (|s| == 1 || !IsSpace(s[1]))
  {
    var t := s[1..];
    assert forall k :: 0 <= k < |t| ==> t[k] == s[k + 1];
  }

  /** Normalising a normalised class string changes nothing. */
  lemma NormalizeIdempotent(s: string)
    ensures Normalize(Normalize(s)) == Normalize(s)
  {
    var r := Normalize(s);
    TrimOfTrimmed(r);
    CollapseOfSingleSpaced(r);
  }

  /** The length of the leading run of non-white-space characters. */
  function WordLength(s: string): (n: nat)
    ensures n <= |s|
    ensures forall k :: 0 <= k < n ==> !IsSpace(s[k])
    ensures n < |s| ==> IsSpace(s[n])
    ensures s != [] && !IsSpace(s[0]) ==> n >= 1
  {
    if s == [] || IsSpace(s[0]) then 0 else 1 + WordLength(s[1..])
  }

  /** The white-space separated words of `s`, empty ones dropped: the class names, in order. */
  function Words(s: string): (r: seq<string>)
    ensures s != [] && !IsSpace(s[0]) ==> |r| >= 1
    decreases |s|
  {
    if s == [] then []
    else if IsSpace(s[0]) then Words(s[1..])
    else
      var n := WordLength(s);
      [s[..n]] + Words(s[n..])
  }

  /** Leading white space carries no words. */
  lemma {:induction false} WordsDropSpaces(s: string, k: nat)
    requires k <= |s| && AllSpace(s[..k])
    ensures Words(s[k..]) == Words(s)
    decreases k
  {
    if k > 0 {
      assert IsSpace(s[..k][0]);
      var t := s[1..];
      assert t[..k - 1] == s[..k][1..];
      assert t[k - 1..] == s[k..];
      WordsDropSpaces(t, k - 1);
    }
  }

  lemma WordsOfTrimStart(s: string)
    ensures Words(TrimStart(s)) == Words(s)
  {
    var t := TrimStart(s);
    WordsDropSpaces(s, |s| - |t|);
  }

  /** Trailing white space does not end the last word any differently. */
  lemma {:induction false} WordLengthAppendSpace(a: string, w: string)
    requires AllSpace(w)
    ensures WordLength(a + w) == WordLength(a)
    decreases |a|
  {
    if a != [] && !IsSpace(a[0]) {
      assert (a + w)[1..] == a[1..] + w;
      WordLengthAppendSpace(a[1..], w);
    } else if a == [] {
      assert a + w == w;
    }
  }

  /** Trailing white space carries no words. */
  lemma {:induction false} WordsAppendSpace(a: string, w: string)
    requires AllSpace(w)
    ensures Words(a + w) == Words(a)
    decreases |a|
  {
    if a == [] {
      assert a + w == w;
      WordsDropSpaces(w, |w|);
      assert w[|w|..] == [];
    } else if IsSpace(a[0]) {
      assert (a + w)[1..] == a[1..] + w;
      WordsAppendSpace(a[1..], w);
    } else {
      var n := WordLength(a);
      WordLengthAppendSpace(a, w);
      assert (a + w)[..n] == a[..n];
      assert (a + w)[n..] == a[n..] + w;
      WordsAppendSpace(a[n..], w);
    }
  }

  lemma WordsOfTrimEnd(s: string)
    ensures Words(TrimEnd(s)) == Words(s)
  {
    var r := TrimEnd(s);
    assert s == r + s[|r|..];
    WordsAppendSpace(r, s[|r|..]);
  }

  /** `trim` keeps every word. */
  lemma WordsOfTrim(s: string)
    ensures Words(Trim(s)) == Words(s)
  {
    assert Trim(s) == TrimEnd(TrimStart(s));
    WordsOfTrimStart(s);
    WordsOfTrimEnd(TrimStart(s));
  }

  /** A visible character in front joins the first word, or starts a word of its own. */
  lemma WordsCons(c: char, x: string)
    requires !IsSpace(c)
    ensures x != [] && !IsSpace(x[0]) ==> Words([c] + x) == [[c] + Words(x)[0]] + Words(x)[1..]
    ensures !(x != [] && !IsSpace(x[0])) ==> Words([c] + x) == [[c]] + Words(x)
  {
    var y := [c] + x;
    assert y[1..] == x;
    var m := WordLength(x);
    assert WordLength(y) == 1 + m;
    assert y[..m + 1] == [c] + x[..m];
    assert y[m + 1..] == x[m..];
    if !(x != [] && !IsSpace(x[0])) {
      assert x[..0] == [] && x[0..] == x;
    }
  }

  /** Collapsing white-space runs keeps every word, in order, and never merges or splits one. */
  lemma {:induction false} WordsOfCollapse(s: string)
    ensures Words(Collapse(s)) == Words(s)
    decreases |s|
  {
    if s != [] {
      if IsSpace(s[0]) {
        var t := TrimStart(s[1..]);
        WordsOfCollapse(t);
        assert (" " + Collapse(t))[1..] == Collapse(t);
        WordsOfTrimStart(s[1..]);
      } else {
        WordsOfCollapse(s[1..]);
        WordsCons(s[0], s[1..]);
        WordsCons(s[0], Collapse(s[1..]));
        assert [s[0]] + s[1..] == s;
      }
    }
  }

  /** Normalising keeps every class name, in order: none is lost, merged with another or split. */
  lemma NormalizeKeepsClassNames(s: string)
    ensures Words(Normalize(s)) == Words(s)
  {
    WordsOfCollapse(Trim(s));
    WordsOfTrim(s);
  }

  /** `inputType`: only a password input is ever unmasked, and only while `showPassword` is on. */
  function InputType(inputTypeProp: string, showPassword: bool): (t: string)
    ensures inputTypeProp == "password" && showPassword ==> t == "text"
    ensures !(inputTypeProp == "password" && showPassword) ==> t == inputTypeProp
  {
    if inputTypeProp == "password" && showPassword then "text" else inputTypeProp
  }

  /** What is rendered under the input. */
  datatype Note = ErrorNote(message: string) | HelperNote(message: string) | NoNote

  /** An error wins over the helper text; the helper text shows only without an error. */
  function NoteBelow(error: string, helperText: string): (n: Note)
    ensures error != "" ==> n == ErrorNote(error)
    ensures error == "" && helperText != "" ==> n == HelperNote(helperText)
    ensures error == "" && helperText == "" ==> n == NoNote
  {
    if error != "" then ErrorNote(error)
    else if helperText != "" then HelperNote(helperText)
    else NoNote
  }

  /** The component's `showPassword` state. */
  class InputFieldState {
    var showPassword: bool

    constructor ()
      ensures !showPassword
    {
      showPassword := false;
    }

    /** `handleToggle`: flip the mask and call `onToggle` when it is supplied. */
    method HandleToggle(hasOnToggle: bool) returns (calledOnToggle: bool)
      modifies this
      ensures showPassword == !old(showPassword)
      ensures calledOnToggle == hasOnToggle
    {
      showPassword := !showPassword;
      calledOnToggle := hasOnToggle;
    }
  }
}
