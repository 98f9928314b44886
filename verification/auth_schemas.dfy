/** The login and registration form rules (src/types/auth.ts). Each schema is a
    function from the submitted strings to the list of issues it reports, in
    field order; a form is accepted when that list is empty. */
module AuthSchemas {

  /** The form values the login schema checks. */
  datatype LoginInput = LoginInput(email: string, password: string)

  /** The form values the registration schema checks. */
  datatype RegisterInput = RegisterInput(
    name: string,
    email: string,
    password: string,
    confirmPassword: string)

  /** One reported problem: the form field it is attached to and its message. */
  datatype Issue = Issue(path: string, message: string)

  const MinNameLength: nat := 2
  const MinPasswordLength: nat := 8

  const InvalidEmail := "Invalid email address"
  const NameTooShort := "Name must be at least 2 characters"
  const PasswordTooShort := "Password must be at least 8 characters"
  const NeedsUppercase := "Password must contain at least one uppercase letter"
  const NeedsSpecial := "Password must contain at least one special character"
  const NeedsDigit := "Password must contain at least one number"
  const PasswordsDiffer := "Passwords don't match"

  /** The three character classes the registration password must each hit once. */
  datatype CharClass = Uppercase | Special | Digit

  /** The characters of the class `[!@#$%^&*(),.?":{}|<>]`. */
  const SpecialChars: string := "!@#$%^&*(),.?\":{}|<>"

  predicate InClass(c: char, k: CharClass) {
    match k
    case Uppercase => 'A' <= c <= 'Z'
    case Special => c in SpecialChars
    case Digit => '0' <= c <= '9'
  }

  /** Some character of `s` lies in class `k` (what testing the one-class regular
      expression against `s` decides). */
  predicate Contains(s: string, k: CharClass) {
    exists i :: 0 <= i < |s| && InClass(s[i], k)
  }

  /** A left-to-right scan for a character of class `k`. */
  function Scan(s: string, k: CharClass): (found: bool)
    ensures found <==> Contains(s, k)
  {
    if |s| == 0 then false
    else if InClass(s[0], k) then true
    else
      var rest := Scan(s[1..], k);
      assert forall i :: 0 < i < |s| ==> s[i] == s[1..][i - 1];
      rest
  }

  /** String length as JavaScript counts it: in UTF-16 code units, so a
      character outside the Basic Multilingual Plane counts twice. */
  function Utf16Length(s: string): (n: nat)
    ensures |s| <= n <= 2 * |s|
  {
    if |s| == 0 then 0
    else (if s[0] as int > 0xFFFF then 2 else 1) + Utf16Length(s[1..])
  }

  /** On text within the Basic Multilingual Plane, JavaScript's length is the
      number of characters. */
  lemma {:induction false} Utf16LengthOfBmp(s: string)
    requires forall i :: 0 <= i < |s| ==> s[i] as int <= 0xFFFF
    ensures Utf16Length(s) == |s|
  {
    if |s| > 0 {
      assert forall i :: 0 <= i < |s[1..]| ==> s[1..][i] == s[i + 1];
      Utf16LengthOfBmp(s[1..]);
    }
  }

  /** Length is additive over concatenation. */
  lemma {:induction false} Utf16LengthAppend(a: string, b: string)
    ensures Utf16Length(a + b) == Utf16Length(a) + Utf16Length(b)
  {
    if |a| > 0 {
      assert (a + b)[0] == a[0];
      assert (a + b)[1..] == a[1..] + b;
      Utf16LengthAppend(a[1..], b);
    } else {
      assert a + b == b;
    }
  }

  /** One character counts one code unit, or two (a surrogate pair) when it
      lies above U+FFFF. */
  lemma Utf16LengthOfChar(c: char)
    ensures Utf16Length([c]) == if c as int > 0xFFFF then 2 else 1
  {
  }

  /** So four characters above U+FFFF already meet the minimum of 8. */
  lemma AstralPasswordMeetsMinimum(c: char)
    requires c as int > 0xFFFF
    ensures LoginPassword([c, c, c, c])
  {
    Utf16LengthOfChar(c);
    Utf16LengthAppend([c], [c]);
    assert [c] + [c] == [c, c];
    Utf16LengthAppend([c, c], [c, c]);
    assert [c, c] + [c, c] == [c, c, c, c];
  }

  /** A password the registration schema accepts. */
  predicate StrongPassword(p: string) {
    && Utf16Length(p) >= MinPasswordLength
    && Contains(p, Uppercase)
    && Contains(p, Special)
    && Contains(p, Digit)
  }

  /** A password the login schema accepts. */
  predicate LoginPassword(p: string) {
    Utf16Length(p) >= MinPasswordLength
  }

  /** All rules of the registration schema hold; `isEmail` stands for the
      schema library's email format check. */
  predicate RegisterValid(input: RegisterInput, isEmail: string -> bool) {
    && Utf16Length(input.name) >= MinNameLength
    && isEmail(input.email)
    && StrongPassword(input.password)
    && input.password == input.confirmPassword
  }

  /** All rules of the login schema hold. */
  predicate LoginValid(input: LoginInput, isEmail: string -> bool) {
    isEmail(input.email) && LoginPassword(input.password)
  }

  const NameIssue := Issue("name", NameTooShort)
  const EmailIssue := Issue("email", InvalidEmail)
  const ShortPasswordIssue := Issue("password", PasswordTooShort)
  const UppercaseIssue := Issue("password", NeedsUppercase)
  const SpecialIssue := Issue("password", NeedsSpecial)
  const DigitIssue := Issue("password", NeedsDigit)
  const MismatchIssue := Issue("confirmPassword", PasswordsDiffer)

  /** The issues of the registration schema, in the order its rules run. */
  const RegisterIssueOrder: seq<Issue> :=
    [NameIssue, EmailIssue, ShortPasswordIssue, UppercaseIssue, SpecialIssue, DigitIssue, MismatchIssue]

  /** Every issue the registration schema can report. */
  const RegisterIssues: set<Issue> := set i | 0 <= i < |RegisterIssueOrder| :: RegisterIssueOrder[i]

  /** Every issue the login schema can report. */
  const LoginIssues: set<Issue> := {EmailIssue, ShortPasswordIssue}

  /** No issue is reported twice. */
  predicate Distinct(issues: seq<Issue>) {
    forall i, j :: 0 <= i < j < |issues| ==> issues[i] != issues[j]
  }

  /** One rule of a schema: whether the submitted value fails it, and the
      issue it reports then. */
  datatype Check = Check(fails: bool, issue: Issue)

  /** No two rules report the same issue. */
  predicate DistinctChecks(checks: seq<Check>) {
    forall i, j :: 0 <= i < j < |checks| ==> checks[i].issue != checks[j].issue
  }

  /** The issues of the failing rules, in rule order. */
  function Reported(checks: seq<Check>): seq<Issue> {
    if |checks| == 0 then []
    else (if checks[0].fails then [checks[0].issue] else []) + Reported(checks[1..])
  }

  /** Only failing rules report, each with its own issue. */
  lemma {:induction false} ReportedSound(checks: seq<Check>)
    ensures forall x :: x in Reported(checks) ==>
      exists k :: 0 <= k < |checks| && checks[k].fails && checks[k].issue == x
  {
    if |checks| > 0 {
      ReportedSound(checks[1..]);
      forall x | x in Reported(checks)
        ensures exists k :: 0 <= k < |checks| && checks[k].fails && checks[k].issue == x
      {
        if x !in Reported(checks[1..]) {
          assert checks[0].fails && checks[0].issue == x;
        } else {
          var k :| 0 <= k < |checks[1..]| && checks[1..][k].fails && checks[1..][k].issue == x;
          assert checks[k + 1] == checks[1..][k];
        }
      }
    }
  }

  /** Every failing rule reports its issue. */
  lemma {:induction false} ReportedComplete(checks: seq<Check>, k: nat)
    requires k < |checks| && checks[k].fails
    ensures checks[k].issue in Reported(checks)
  {
    if k > 0 {
      assert checks[1..][k - 1] == checks[k];
      ReportedComplete(checks[1..], k - 1);
    }
  }

  /** When no two rules share an issue, a rule's issue is reported exactly
      when that rule fails. */
  lemma ReportedExact(checks: seq<Check>, k: nat)
    requires DistinctChecks(checks) && k < |checks|
    ensures checks[k].issue in Reported(checks) <==> checks[k].fails
  {
    ReportedSound(checks);
    if checks[k].fails {
      ReportedComplete(checks, k);
    }
  }

  /** When no two rules share an issue, no issue is reported twice. */
  lemma {:induction false} ReportedDistinct(checks: seq<Check>)
    requires DistinctChecks(checks)
    ensures Distinct(Reported(checks))
  {
    if |checks| > 0 {
      var rest := Reported(checks[1..]);
      assert DistinctChecks(checks[1..]) by {
        forall i, j | 0 <= i < j < |checks[1..]|
          ensures checks[1..][i].issue != checks[1..][j].issue
        {
          assert checks[1..][i] == checks[i + 1] && checks[1..][j] == checks[j + 1];
        }
      }
      ReportedDistinct(checks[1..]);
      ReportedSound(checks[1..]);
      var head := if checks[0].fails then [checks[0].issue] else [];
      assert Reported(checks) == head + rest;
      forall x | x in rest
        ensures x != checks[0].issue
      {
        var k :| 0 <= k < |checks[1..]| && checks[1..][k].fails && checks[1..][k].issue == x;
        assert checks[k + 1] == checks[1..][k];
      }
      forall i, j | 0 <= i < j < |head + rest|
        ensures (head + rest)[i] != (head + rest)[j]
      {
        if i < |head| {
          assert (head + rest)[i] == checks[0].issue;
          assert (head + rest)[j] == rest[j - |head|] && rest[j - |head|] in rest;
        } else {
          assert (head + rest)[i] == rest[i - |head|] && (head + rest)[j] == rest[j - |head|];
        }
      }
    }
  }

  /** Reported issues come from the rules' issues. */
  lemma ReportedWithin(checks: seq<Check>, all: set<Issue>)
    requires forall k :: 0 <= k < |checks| ==> checks[k].issue in all
    ensures forall i :: 0 <= i < |Reported(checks)| ==> Reported(checks)[i] in all
  {
    ReportedSound(checks);
    forall i | 0 <= i < |Reported(checks)|
      ensures Reported(checks)[i] in all
    {
      assert Reported(checks)[i] in Reported(checks);
    }
  }

  /** No issue is reported iff every rule passes. */
  lemma ReportedEmpty(checks: seq<Check>)
    ensures Reported(checks) == [] <==> forall k :: 0 <= k < |checks| ==> !checks[k].fails
  {
    ReportedSound(checks);
    if exists k :: 0 <= k < |checks| && checks[k].fails {
      var k :| 0 <= k < |checks| && checks[k].fails;
      ReportedComplete(checks, k);
    }
  }

  /** Rules pairing each outcome with its issue, in order. */
  function Pair(fails: seq<bool>, issues: seq<Issue>): (checks: seq<Check>)
    requires |fails| == |issues|
    ensures |checks| == |issues|
    ensures forall k :: 0 <= k < |checks| ==> checks[k] == Check(fails[k], issues[k])
    ensures Distinct(issues) ==> DistinctChecks(checks)
  {
    if |fails| == 0 then [] else [Check(fails[0], issues[0])] + Pair(fails[1..], issues[1..])
  }

  /** The rules of the registration schema, in field order; the confirmation
      rule comes last. */
  function RegisterChecks(input: RegisterInput, isEmail: string -> bool): seq<Check> {
    var p := input.password;
    Pair([ Utf16Length(input.name) < MinNameLength,
           !isEmail(input.email),
           Utf16Length(p) < MinPasswordLength,
           !Scan(p, Uppercase),
           !Scan(p, Special),
           !Scan(p, Digit),
           p != input.confirmPassword ],
         RegisterIssueOrder)
  }

  /** The rules of the login schema, in field order. */
  function LoginChecks(input: LoginInput, isEmail: string -> bool): seq<Check> {
    [ Check(!isEmail(input.email), EmailIssue),
      Check(Utf16Length(input.password) < MinPasswordLength, ShortPasswordIssue) ]
  }

  /** The seven registration issues differ pairwise: by field, and on the
      password field by message length. */
  lemma RegisterIssuesDistinct()
    ensures Distinct(RegisterIssueOrder)
  {
    assert |NeedsUppercase| == 51 && |NeedsSpecial| == 52 && |NeedsDigit| == 41 && |PasswordTooShort| == 38;
  }

  /** Each registration rule reports its own issue of the list above. */
  lemma RegisterChecksWellFormed(input: RegisterInput, isEmail: string -> bool)
    ensures DistinctChecks(RegisterChecks(input, isEmail))
    ensures forall k :: 0 <= k < |RegisterChecks(input, isEmail)| ==> RegisterChecks(input, isEmail)[k].issue in RegisterIssues
  {
    var checks := RegisterChecks(input, isEmail);
    RegisterIssuesDistinct();
    forall k | 0 <= k < |checks|
      ensures checks[k].issue in RegisterIssues
    {
      assert checks[k].issue == RegisterIssueOrder[k];
    }
  }

  /** The issues the registration schema reports. Every field check runs, and
      the password confirmation is compared even when other fields fail, its
      mismatch being reported on the `confirmPassword` field. */
  function ValidateRegister(input: RegisterInput, isEmail: string -> bool): (issues: seq<Issue>)
    ensures Issue("name", NameTooShort) in issues <==> Utf16Length(input.name) < MinNameLength
    ensures Issue("email", InvalidEmail) in issues <==> !isEmail(input.email)
    ensures Issue("password", PasswordTooShort) in issues <==> Utf16Length(input.password) < MinPasswordLength
    ensures Issue("password", NeedsUppercase) in issues <==> !Contains(input.password, Uppercase)
    ensures Issue("password", NeedsSpecial) in issues <==> !Contains(input.password, Special)
    ensures Issue("password", NeedsDigit) in issues <==> !Contains(input.password, Digit)
    ensures Issue("confirmPassword", PasswordsDiffer) in issues <==> input.password != input.confirmPassword
    ensures issues == [] <==> RegisterValid(input, isEmail)
    ensures forall i :: 0 <= i < |issues| ==> issues[i] in RegisterIssues
    ensures Distinct(issues)
  {
    var checks := RegisterChecks(input, isEmail);
    RegisterChecksWellFormed(input, isEmail);
    ReportedWithin(checks, RegisterIssues);
    ReportedDistinct(checks);
    ReportedEmpty(checks);
    ReportedExact(checks, 0);
    ReportedExact(checks, 1);
    ReportedExact(checks, 2);
    ReportedExact(checks, 3);
    ReportedExact(checks, 4);
    ReportedExact(checks, 5);
    ReportedExact(checks, 6);
    Reported(checks)
  }

  /** The issues the login schema reports. */
  function ValidateLogin(input: LoginInput, isEmail: string -> bool): (issues: seq<Issue>)
    ensures Issue("email", InvalidEmail) in issues <==> !isEmail(input.email)
    ensures Issue("password", PasswordTooShort) in issues <==> !LoginPassword(input.password)
    ensures issues == [] <==> LoginValid(input, isEmail)
    ensures forall i :: 0 <= i < |issues| ==> issues[i] in LoginIssues
    ensures Distinct(issues)
  {
    var checks := LoginChecks(input, isEmail);
    assert DistinctChecks(checks);
    assert forall k :: 0 <= k < |checks| ==> checks[k].issue in LoginIssues;
    ReportedWithin(checks, LoginIssues);
    ReportedDistinct(checks);
    ReportedEmpty(checks);
    ReportedExact(checks, 0);
    ReportedExact(checks, 1);
    Reported(checks)
  }

  /** A password the registration schema accepts is accepted at login too. */
  lemma StrongPasswordPassesLogin(input: RegisterInput, isEmail: string -> bool)
    requires RegisterValid(input, isEmail)
    ensures ValidateLogin(LoginInput(input.email, input.password), isEmail) == []
  {
  }

  /** The converse fails: a password of eight lower-case letters logs in but
      cannot be registered. */
  lemma LoginPasswordNotStrong()
    ensures LoginPassword("password")
    ensures !StrongPassword("password")
  {
    var p := "password";
    Utf16LengthOfBmp(p);
    assert !Contains(p, Uppercase) by {
      forall i | 0 <= i < |p|
        ensures !InClass(p[i], Uppercase)
      {
        assert 'a' <= p[i] <= 'z';
      }
    }
  }

  /** A password meeting every registration rule, such as "Secret1!". */
  lemma SecretIsStrong()
    ensures StrongPassword("Secret1!")
  {
    Utf16LengthOfBmp("Secret1!");
    assert InClass("Secret1!"[0], Uppercase);
    assert InClass("Secret1!"[7], Special);
    assert InClass("Secret1!"[6], Digit);
  }
}
