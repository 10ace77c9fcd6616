/**
 * The Yup schema that guards the password-length field
 * (validators/passwordSchema.ts): a number, at least 4, at most 26, required.
 * The input is the already-coerced number, or None when the field is absent.
 */
module PasswordSchema {
  import opened Wrappers

  const MinLength: real := 4.0
  const MaxLength: real := 26.0

  const MinMessage: string := "Password length should be minimum of 4"
  /** Says 16 although the enforced bound is MaxLength (26). */
  const MaxMessage: string := "Password length should be of maximum 16"
  const RequiredMessage: string := "Password length should be required"

  datatype Verdict = Accepted | Rejected(message: string)

  /** `min(4)`: an absent value passes, a present one must be at least MinLength. */
  predicate MinFails(passwordLength: Option<real>) {
    passwordLength.Some? && passwordLength.value < MinLength
  }

  /** `max(26)`: an absent value passes, a present one must be at most MaxLength. */
  predicate MaxFails(passwordLength: Option<real>) {
    passwordLength.Some? && passwordLength.value > MaxLength
  }

  /** `required()`: the value must be present. */
  predicate RequiredFails(passwordLength: Option<real>) {
    passwordLength.None?
  }

  /** The messages of the failing tests, in the order the schema declares them. */
  function Failures(passwordLength: Option<real>): seq<string> {
    (if MinFails(passwordLength) then [MinMessage] else [])
    + (if MaxFails(passwordLength) then [MaxMessage] else [])
    + (if RequiredFails(passwordLength) then [RequiredMessage] else [])
  }

  /**
   * The schema's verdict on the field: accepted when no test fails, otherwise
   * the first failure's message (the one the form shows next to the field).
   */
  function Validate(passwordLength: Option<real>): (v: Verdict)
    ensures v.Accepted? <==> passwordLength.Some? && MinLength <= passwordLength.value <= MaxLength
    ensures passwordLength.None? ==> v == Rejected(RequiredMessage)
    ensures passwordLength.Some? && passwordLength.value < MinLength ==> v == Rejected(MinMessage)
    ensures passwordLength.Some? && passwordLength.value > MaxLength ==> v == Rejected(MaxMessage)
  {
    var failures := Failures(passwordLength);
    if failures == [] then Accepted else Rejected(failures[0])
  }

  /** The three tests exclude one another, so which failure wins never matters. */
  lemma AtMostOneFailure(passwordLength: Option<real>)
    ensures |Failures(passwordLength)| <= 1
    ensures |Failures(passwordLength)| == 1 <==> Validate(passwordLength).Rejected?
  {
  }

  /**
   * Lengths 17 to 26 are accepted although the upper-bound message says
   * "maximum 16"; the message is shown only above 26.
   */
  lemma AcceptedAboveStatedMaximum(n: real)
    requires 16.0 < n <= MaxLength
    ensures Validate(Some(n)) == Accepted
    ensures MaxMessage[|MaxMessage| - 2..] == "16"
    ensures Validate(Some(n + 10.0)) == Rejected(MaxMessage)
  {
  }

  /** The schema has no integer test: a fractional length in range passes. */
  lemma FractionalLengthAccepted()
    ensures Validate(Some(4.5)) == Accepted
    ensures Validate(Some(3.5)) == Rejected(MinMessage)
    ensures Validate(Some(26.5)) == Rejected(MaxMessage)
  {
  }
}
