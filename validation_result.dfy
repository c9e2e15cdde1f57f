/** The outcome of validating one record: a flag and the list of error messages. */
module ValidationResults {
  import opened Wrappers
  import JavaStrings

  datatype ValidationResult = ValidationResult(valid: bool, errors: seq<string>)

  /** `ValidationResult.valid()`: valid, with no errors. */
  function Valid(): (r: ValidationResult)
    ensures r.valid && r.errors == []
  {
    ValidationResult(true, [])
  }

  /** `ValidationResult.invalid(String)`: invalid, with exactly that error. */
  function Invalid(error: string): (r: ValidationResult)
    ensures !r.valid && r.errors == [error]
  {
    ValidationResult(false, [error])
  }

  /** `ValidationResult.invalid(List)`: invalid, with a copy of the list; a null list gives no errors. */
  function InvalidAll(errors: Option<seq<string>>): (r: ValidationResult)
    ensures !r.valid
    ensures errors.Some? ==> r.errors == errors.value
    ensures errors.None? ==> r.errors == []
  {
    ValidationResult(false, if errors.Some? then errors.value else [])
  }

  /** `getErrorMessage`: the errors joined with "; ". */
  function ErrorMessage(r: ValidationResult): string
  {
    JavaStrings.Join(r.errors, "; ")
  }

  /** `toString`: "Valid", or "Invalid: " followed by the error message. */
  function ToString(r: ValidationResult): (s: string)
    ensures r.valid ==> s == "Valid"
    ensures !r.valid ==> JavaStrings.StartsWith(s, "Invalid: ") && s[|"Invalid: "|..] == ErrorMessage(r)
  {
    if r.valid then "Valid" else "Invalid: " + ErrorMessage(r)
  }

  /** Every error of an invalid result appears in its message. */
  lemma ErrorInMessage(r: ValidationResult, k: nat)
    requires k < |r.errors|
    ensures exists pre, post :: ErrorMessage(r) == pre + r.errors[k] + post
  {
    JavaStrings.JoinHasElement(r.errors, "; ", k);
  }

  /** A single error is its own message; a valid result has an empty message. */
  lemma MessageOfOne(error: string)
    ensures ErrorMessage(Invalid(error)) == error
    ensures ErrorMessage(Valid()) == ""
    ensures ToString(Invalid(error)) == "Invalid: " + error
  {
  }

  /** Two errors are separated by "; ". */
  lemma MessageOfTwo(e1: string, e2: string)
    ensures ErrorMessage(InvalidAll(Some([e1, e2]))) == e1 + "; " + e2
  {
    var es := [e1, e2];
    assert es[1..] == [e2];
    assert JavaStrings.Join(es[1..], "; ") == e2;
  }
}
