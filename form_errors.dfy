/**
 * The error dictionaries of the forms (`errors` state): a map from field
 * name to message. A field "has an error" when `errors[field]` is truthy,
 * that is, present and not the empty string.
 */
module FormErrors {

  predicate HasError<K>(errors: map<K, string>, field: K)
  {
    field in errors && errors[field] != ""
  }

  /** No field has an error: the form may be submitted. */
  predicate NoErrors<K>(errors: map<K, string>)
  {
    forall k :: k in errors ==> errors[k] == ""
  }

  /**
   * `if (errors[field]) setErrors({ ...errors, [field]: "" })`: an existing
   * error of `field` is blanked, everything else stays.
   */
  function ClearError<K>(errors: map<K, string>, field: K): (r: map<K, string>)
    ensures !HasError(r, field)
    ensures r.Keys == errors.Keys
    ensures forall k :: k in errors && k != field ==> r[k] == errors[k]
    ensures !HasError(errors, field) ==> r == errors
  {
    if HasError(errors, field) then errors[field := ""] else errors
  }

  /** Clearing only ever removes errors: a field with an error afterwards had it before. */
  lemma ClearErrorOnlyRemoves<K>(errors: map<K, string>, field: K, k: K)
    requires HasError(ClearError(errors, field), k)
    ensures HasError(errors, k) && k != field
  {
  }

  /** The messages of the fields whose rule fails: the `newErrors` object a validator builds. */
  function Collected<K>(fields: set<K>, message: K -> string): (e: map<K, string>)
    ensures e.Keys == set k | k in fields && message(k) != ""
    ensures forall k :: k in e ==> e[k] == message(k) && e[k] != ""
  {
    map k | k in fields && message(k) != "" :: message(k)
  }

  /** A map holding exactly the non-empty messages of `fields` is the collected one. */
  lemma CollectedIs<K>(e: map<K, string>, fields: set<K>, message: K -> string)
    requires e.Keys <= fields
    requires forall k :: k in fields ==> (k in e <==> message(k) != "")
    requires forall k :: k in e ==> e[k] == message(k)
    ensures e == Collected(fields, message)
  {
    var r := Collected(fields, message);
    assert e.Keys == r.Keys;
  }

  /** One rule of a validator: `if (failed) newErrors[field] = message`. */
  datatype Check<K> = Check(field: K, failed: bool, message: string)

  /** The errors object after the rule `c` ran on `errors`. */
  function Step<K>(errors: map<K, string>, c: Check<K>): map<K, string>
  {
    if c.failed then errors[c.field := c.message] else errors
  }

  /** The `newErrors` object after the first `n` rules of `checks` ran, in order, from `{}`. */
  function Validate<K>(checks: seq<Check<K>>, n: nat): map<K, string>
    requires n <= |checks|
  {
    if n == 0 then map[] else Step(Validate(checks, n - 1), checks[n - 1])
  }

  /** Every rule is about a field of its own. */
  predicate DistinctFields<K(==)>(checks: seq<Check<K>>)
  {
    forall i, j :: 0 <= i < j < |checks| ==> checks[i].field != checks[j].field
  }

  /** The fields with an error after `n` rules are those of the failing rules among them. */
  lemma {:induction false} ValidateKeys<K>(checks: seq<Check<K>>, n: nat)
    requires n <= |checks|
    ensures Validate(checks, n).Keys == set i | 0 <= i < n && checks[i].failed :: checks[i].field
  {
    if n > 0 {
      ValidateKeys(checks, n - 1);
      var before := set i | 0 <= i < n - 1 && checks[i].failed :: checks[i].field;
      var after := set i | 0 <= i < n && checks[i].failed :: checks[i].field;
      assert after == if checks[n - 1].failed then before + {checks[n - 1].field} else before;
    }
  }

  /** With distinct fields, a rule's field has an error exactly when that rule fails, with its message. */
  lemma {:induction false} ValidateAt<K>(checks: seq<Check<K>>, n: nat, i: nat)
    requires i < n <= |checks| && DistinctFields(checks)
    ensures checks[i].field in Validate(checks, n) <==> checks[i].failed
    ensures checks[i].failed ==> Validate(checks, n)[checks[i].field] == checks[i].message
  {
    if i < n - 1 {
      ValidateAt(checks, n - 1, i);
    } else {
      ValidateKeys(checks, n - 1);
    }
  }

  /** The errors object is empty exactly when no rule fails. */
  lemma ValidateEmpty<K>(checks: seq<Check<K>>, n: nat)
    requires n <= |checks|
    ensures Validate(checks, n) == map[] <==> forall i :: 0 <= i < n ==> !checks[i].failed
  {
    ValidateKeys(checks, n);
    if forall i :: 0 <= i < n ==> !checks[i].failed {
      var e := Validate(checks, n);
      assert e.Keys == {};
      assert e == map[];
    } else {
      var i :| 0 <= i < n && checks[i].failed;
      assert checks[i].field in Validate(checks, n).Keys;
    }
  }
}
