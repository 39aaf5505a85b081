/**
 * The registration schema of the API server: a name of 4 to 50 characters,
 * a well-formed email address and a password of 5 to 100 characters, all
 * bounds inclusive. Parsing reports one issue per field that breaks its
 * constraint, in field order, and otherwise returns the input unchanged.
 */
module Validation {
  import opened Wrappers

  datatype Registration = Registration(name: string, email: string, password: string)

  datatype Field = Name | Email | Password

  /**
   * One validation issue. `message` is the schema's own message; the email
   * check carries none of its own, so its issue has `None` here.
   */
  datatype Issue = Issue(path: Field, message: Option<string>)

  const NameMin := 4
  const NameMax := 50
  const PasswordMin := 5
  const PasswordMax := 100

  const NameTooShort := "Name must be atleast 4 characters"
  const NameTooLong := "Name must be atmost 50 characters"
  const PasswordTooShort := "Password must be atleast 5 characters"
  const PasswordTooLong := "Password must be atmost 100 characters"

  /** The issue a name raises, if any: its minimum check, then its maximum check. */
  function NameIssues(name: string): (r: seq<Issue>)
    ensures r == [] <==> NameMin <= |name| <= NameMax
    ensures |name| < NameMin ==> r == [Issue(Name, Some(NameTooShort))]
    ensures |name| > NameMax ==> r == [Issue(Name, Some(NameTooLong))]
  {
    (if |name| < NameMin then [Issue(Name, Some(NameTooShort))] else [])
    + (if |name| > NameMax then [Issue(Name, Some(NameTooLong))] else [])
  }

  /** The issue a password raises, if any: its minimum check, then its maximum check. */
  function PasswordIssues(password: string): (r: seq<Issue>)
    ensures r == [] <==> PasswordMin <= |password| <= PasswordMax
    ensures |password| < PasswordMin ==> r == [Issue(Password, Some(PasswordTooShort))]
    ensures |password| > PasswordMax ==> r == [Issue(Password, Some(PasswordTooLong))]
  {
    (if |password| < PasswordMin then [Issue(Password, Some(PasswordTooShort))] else [])
    + (if |password| > PasswordMax then [Issue(Password, Some(PasswordTooLong))] else [])
  }

  /** The issue an email raises under the format predicate `isEmail`, if any. */
  function EmailIssues(email: string, isEmail: string -> bool): (r: seq<Issue>)
    ensures r == [] <==> isEmail(email)
  {
    if isEmail(email) then [] else [Issue(Email, None)]
  }

  /**
   * `UserRegistrationValidation.safeParse`: success exactly when all three
   * field constraints hold, and then the same name, email and password;
   * otherwise every issue, name first, then email, then password.
   */
  function ParseRegistration(input: Registration, isEmail: string -> bool): (r: Result<Registration, seq<Issue>>)
    ensures r.Success? <==>
              NameMin <= |input.name| <= NameMax && isEmail(input.email)
              && PasswordMin <= |input.password| <= PasswordMax
    ensures r.Success? ==> r.value == input
    ensures r.Failure? ==> 1 <= |r.error| <= 3
  {
    var issues := NameIssues(input.name) + EmailIssues(input.email, isEmail) + PasswordIssues(input.password);
    if issues == [] then Success(input) else Failure(issues)
  }

  /** Which issues a parse reports, field by field: each one exactly when its constraint is broken. */
  lemma ReportedIssues(input: Registration, isEmail: string -> bool)
    ensures var r := ParseRegistration(input, isEmail);
      && (|input.name| < NameMin <==> r.Failure? && Issue(Name, Some(NameTooShort)) in r.error)
      && (|input.name| > NameMax <==> r.Failure? && Issue(Name, Some(NameTooLong)) in r.error)
      && (!isEmail(input.email) <==> r.Failure? && Issue(Email, None) in r.error)
      && (|input.password| < PasswordMin <==> r.Failure? && Issue(Password, Some(PasswordTooShort)) in r.error)
      && (|input.password| > PasswordMax <==> r.Failure? && Issue(Password, Some(PasswordTooLong)) in r.error)
  {
    var n, e, p := NameIssues(input.name), EmailIssues(input.email, isEmail), PasswordIssues(input.password);
    assert forall x :: x in n ==> x.path == Name;
    assert forall x :: x in e ==> x.path == Email;
    assert forall x :: x in p ==> x.path == Password;
  }

  /** Both length bounds are inclusive: 4 and 50 characters are accepted, 3 and 51 are not. */
  lemma NameBoundsInclusive(input: Registration, isEmail: string -> bool)
    requires isEmail(input.email) && PasswordMin <= |input.password| <= PasswordMax
    ensures |input.name| == 4 ==> ParseRegistration(input, isEmail) == Success(input)
    ensures |input.name| == 50 ==> ParseRegistration(input, isEmail) == Success(input)
    ensures |input.name| == 3 ==> ParseRegistration(input, isEmail) == Failure([Issue(Name, Some(NameTooShort))])
    ensures |input.name| == 51 ==> ParseRegistration(input, isEmail) == Failure([Issue(Name, Some(NameTooLong))])
  {
    var e, p := EmailIssues(input.email, isEmail), PasswordIssues(input.password);
    assert e == [] && p == [];
    var n := NameIssues(input.name);
    assert n + e + p == n;
  }

  /** The password bounds are inclusive: 5 and 100 characters are accepted, 4 and 101 are not. */
  lemma PasswordBoundsInclusive(input: Registration, isEmail: string -> bool)
    requires isEmail(input.email) && NameMin <= |input.name| <= NameMax
    ensures |input.password| == 5 ==> ParseRegistration(input, isEmail) == Success(input)
    ensures |input.password| == 100 ==> ParseRegistration(input, isEmail) == Success(input)
    ensures |input.password| == 4 ==> ParseRegistration(input, isEmail) == Failure([Issue(Password, Some(PasswordTooShort))])
    ensures |input.password| == 101 ==> ParseRegistration(input, isEmail) == Failure([Issue(Password, Some(PasswordTooLong))])
  {
    var n, e := NameIssues(input.name), EmailIssues(input.email, isEmail);
    assert n == [] && e == [];
    var p := PasswordIssues(input.password);
    assert n + e + p == p;
  }
}
