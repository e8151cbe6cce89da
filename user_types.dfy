/**
 * The request-body schemas of the user endpoints: a partial profile update
 * (every field optional; phone, birth date and address may also be null) and
 * a password change (strength rules on the new password, which the
 * confirmation must repeat).
 */
module UserTypes {
  import opened Common

  /** A field that is `.optional().nullable()`: left out, sent as null, or given. */
  datatype Field<T> = Absent | Null | Given(value: T)

  /** UpdateProfileInput */
  datatype UpdateProfileInput = UpdateProfileInput(
    firstName: Option<string>,
    lastName: Option<string>,
    phoneNumber: Field<string>,
    dateOfBirth: Field<string>,
    address: Field<string>)

  /** ChangePasswordInput */
  datatype ChangePasswordInput = ChangePasswordInput(
    currentPassword: string, newPassword: string, confirmPassword: string)

  const MaxAddressLength := 500
  const MinPasswordLength := 8

  /**
   * `/^\+?[1-9]\d{1,14}$/`: an optional '+', then 2 to 15 decimal digits of
   * which the first is not zero.
   */
  predicate IsPhoneNumber(s: string)
  {
    var digits := if |s| > 0 && s[0] == '+' then s[1..] else s;
    && 2 <= |digits| <= 15
    && '1' <= digits[0] <= '9'
    && AllDigits(digits)
  }

  /** The leading '+' is optional: a number is valid with it exactly when it is valid without it. */
  lemma PlusIsOptional(s: string)
    requires s == [] || s[0] != '+'
    ensures IsPhoneNumber(s) <==> IsPhoneNumber("+" + s)
  {
    assert ("+" + s)[1..] == s;
  }

  /** The number formats the schema's own comment lists as examples, checked against the regex. */
  lemma PhoneNumberExamples()
    ensures IsPhoneNumber("+1234567890")
    ensures !IsPhoneNumber("(123) 456-7890")
    ensures !IsPhoneNumber("123-456-7890")
    ensures !IsPhoneNumber("abc123")
  {
    assert !IsDigit("123-456-7890"[3]);
  }

  function FieldIssues(path: string, ok: bool, message: string): seq<Issue>
  {
    if ok then [] else [Issue(path, message)]
  }

  function ProfileIssues(input: UpdateProfileInput): seq<Issue>
  {
    FieldIssues("firstName", input.firstName.None? || |input.firstName.value| >= 1,
                "First name is required")
    + FieldIssues("lastName", input.lastName.None? || |input.lastName.value| >= 1,
                  "Last name is required")
    + FieldIssues("phoneNumber", !input.phoneNumber.Given? || IsPhoneNumber(input.phoneNumber.value),
                  "Invalid phone number format")
    + FieldIssues("address", !input.address.Given? || |input.address.value| <= MaxAddressLength,
                  "Address too long")
  }

  /** updateProfileSchema.safeParse (the birth-date refinement is not modelled). */
  function ParseUpdateProfile(input: UpdateProfileInput): (r: Parsed<UpdateProfileInput>)
    ensures r.Valid? <==>
      && (input.firstName.Some? ==> |input.firstName.value| >= 1)
      && (input.lastName.Some? ==> |input.lastName.value| >= 1)
      && (input.phoneNumber.Given? ==> IsPhoneNumber(input.phoneNumber.value))
      && (input.address.Given? ==> |input.address.value| <= MaxAddressLength)
    ensures r.Valid? ==> r.value == input
    ensures r.Invalid? ==> |r.issues| > 0
  {
    var issues := ProfileIssues(input);
    if issues == [] then Valid(input) else Invalid(issues)
  }

  predicate HasUpper(s: string) { exists i :: 0 <= i < |s| && 'A' <= s[i] <= 'Z' }
  predicate HasLower(s: string) { exists i :: 0 <= i < |s| && 'a' <= s[i] <= 'z' }
  predicate HasDigit(s: string) { exists i :: 0 <= i < |s| && IsDigit(s[i]) }
  predicate IsAlnum(c: char) { 'A' <= c <= 'Z' || 'a' <= c <= 'z' || IsDigit(c) }
  /** `/[^A-Za-z0-9]/` */
  predicate HasSpecial(s: string) { exists i :: 0 <= i < |s| && !IsAlnum(s[i]) }

  predicate StrongPassword(p: string)
  {
    |p| >= MinPasswordLength && HasUpper(p) && HasLower(p) && HasDigit(p) && HasSpecial(p)
  }

  /** The issues of the newPassword field, one per failed check, in the schema's order. */
  function PasswordIssues(p: string): (r: seq<Issue>)
    ensures r == [] <==> StrongPassword(p)
    ensures forall k :: 0 <= k < |r| ==> r[k].path == "newPassword"
  {
    FieldIssues("newPassword", |p| >= MinPasswordLength, "Password must be at least 8 characters")
    + FieldIssues("newPassword", HasUpper(p), "Password must contain at least one uppercase letter")
    + FieldIssues("newPassword", HasLower(p), "Password must contain at least one lowercase letter")
    + FieldIssues("newPassword", HasDigit(p), "Password must contain at least one number")
    + FieldIssues("newPassword", HasSpecial(p), "Password must contain at least one special character")
  }

  /** Adding a character never makes a strong password weak. */
  lemma StrongPasswordExtends(p: string, c: char)
    requires StrongPassword(p)
    ensures StrongPassword(p + [c])
  {
    var q := p + [c];
    var u :| 0 <= u < |p| && 'A' <= p[u] <= 'Z';
    assert q[u] == p[u];
    var l :| 0 <= l < |p| && 'a' <= p[l] <= 'z';
    assert q[l] == p[l];
    var d :| 0 <= d < |p| && IsDigit(p[d]);
    assert q[d] == p[d];
    var x :| 0 <= x < |p| && !IsAlnum(p[x]);
    assert q[x] == p[x];
  }

  /** The issue the object-level refinement adds when the confirmation differs. */
  const MismatchIssue := Issue("confirmPassword", "Passwords do not match")

  /**
   * changePasswordSchema.safeParse. The field checks never abort the parse,
   * so the match refinement runs and reports on confirmPassword even when a
   * field check has already failed.
   */
  function ParseChangePassword(input: ChangePasswordInput): (r: Parsed<ChangePasswordInput>)
    ensures r.Valid? <==>
      && |input.currentPassword| >= 1
      && StrongPassword(input.newPassword)
      && |input.confirmPassword| >= 1
      && input.newPassword == input.confirmPassword
    ensures r.Valid? ==> r.value == input
    ensures input.newPassword != input.confirmPassword ==> r.Invalid? && MismatchIssue in r.issues
    ensures r.Invalid? ==> |r.issues| > 0
  {
    var issues :=
      FieldIssues("currentPassword", |input.currentPassword| >= 1, "Current password is required")
      + PasswordIssues(input.newPassword)
      + FieldIssues("confirmPassword", |input.confirmPassword| >= 1, "Please confirm your password")
      + (if input.newPassword == input.confirmPassword then [] else [MismatchIssue]);
    if issues == [] then Valid(input) else Invalid(issues)
  }

  /** "weak" has a lowercase letter and fails the other four checks, reported in order. */
  lemma WeakPasswordIssues()
    ensures PasswordIssues("weak") == [
      Issue("newPassword", "Password must be at least 8 characters"),
      Issue("newPassword", "Password must contain at least one uppercase letter"),
      Issue("newPassword", "Password must contain at least one number"),
      Issue("newPassword", "Password must contain at least one special character")]
  {
    assert HasLower("weak") by { assert 'a' <= "weak"[0] <= 'z'; }
  }
}
