/** The registration form: the field rules, the password confirmation
    check, the optional phone pattern `^\(\d{2}\)\s\d{4,5}-\d{4}$`, and the
    removal of the confirmation before the data is sent. */
module Register {
  import opened Text
  import opened Wrappers

  /** The form's values. An untouched phone field is `None`. */
  datatype RegisterForm = RegisterForm(
    firstName: string, lastName: string, email: string, phone: Option<string>,
    password: string, confirmPassword: string)

  /** What is sent to the register call. */
  datatype RegisterData = RegisterData(
    email: string, password: string, firstName: string, lastName: string, phone: Option<string>)

  /** First and last name: required, at least two characters. */
  predicate NameRule(s: string) { |s| >= 2 }

  /** Password: required, at least six characters. */
  predicate PasswordRule(s: string) { |s| >= 6 }

  /** The bounds of the length rules. */
  lemma FieldRuleBoundaries()
    ensures !NameRule("A") && NameRule("Al")
    ensures !PasswordRule("12345") && PasswordRule("123456")
  {
  }

  const Mismatch: string := "As senhas não coincidem!"

  /** The custom validator of the confirmation field: it passes an empty
      value (left to the `required` rule) or one equal to the password. */
  function ConfirmValidator(value: string, password: string): (r: Outcome<string>)
    ensures r.Pass? <==> value == "" || value == password
    ensures r.Fail? ==> r.error == Mismatch
  {
    if value == "" || password == value then Pass else Fail(Mismatch)
  }

  /** The confirmation field as a whole: `required`, then the validator. */
  predicate ConfirmRule(value: string, password: string) {
    value != "" && ConfirmValidator(value, password).Pass?
  }

  /** The confirmation field accepts exactly a non-empty copy of the password. */
  lemma ConfirmRuleIff(value: string, password: string)
    ensures ConfirmRule(value, password) <==> value == password && password != ""
  {
  }

  // --------------------------------------------------------------- phone

  /** `^\(\d{2}\)\s\d{4,5}-\d{4}$`: an area code of two digits in
      parentheses, one whitespace character, four or five digits, a hyphen
      and four digits. */
  predicate PhonePattern(s: string): (b: bool)
    ensures b ==> |s| >= 14 && s[0] == '(' && IsDigit(s[|s| - 1])
    ensures b ==> forall i :: 0 <= i < |s| ==> IsDigit(s[i]) || s[i] == '(' || s[i] == ')' || s[i] == '-' || IsSpace(s[i])
  {
    var n := |s|;
    && (n == 14 || n == 15)
    && s[0] == '(' && AllDigits(s[1..3]) && s[3] == ')'
    && IsSpace(s[4])
    && AllDigits(s[5..n - 5]) && s[n - 5] == '-' && AllDigits(s[n - 4..])
  }

  /** The phone rule: optional, so an absent or empty value passes. */
  predicate PhoneRule(phone: Option<string>) {
    phone.None? || phone.value == "" || PhonePattern(phone.value)
  }

  /** A phone number from its parts: area code, separator, number, line. */
  function MakePhone(area: string, sep: char, prefix: string, line: string): string {
    "(" + area + ")" + [sep] + prefix + "-" + line
  }

  /** The parts of a well-formed phone number. */
  predicate GoodParts(area: string, sep: char, prefix: string, line: string) {
    |area| == 2 && AllDigits(area) && IsSpace(sep)
    && (|prefix| == 4 || |prefix| == 5) && AllDigits(prefix)
    && |line| == 4 && AllDigits(line)
  }

  /** Good parts make a number the pattern accepts, and the parts can be
      read back from it. */
  lemma MakePhoneMatches(area: string, sep: char, prefix: string, line: string)
    requires GoodParts(area, sep, prefix, line)
    ensures var s := MakePhone(area, sep, prefix, line);
      PhonePattern(s) && s[1..3] == area && s[4] == sep && s[5..|s| - 5] == prefix && s[|s| - 4..] == line
  {
    var s := MakePhone(area, sep, prefix, line);
    var n := |s|;
    assert s == ("(" + area + ")" + [sep]) + prefix + ("-" + line);
    assert s[1..3] == area;
    assert s[5..n - 5] == prefix;
    assert s[n - 4..] == line;
  }

  /** Every number the pattern accepts is made from good parts: the
      pattern and `MakePhone` describe the same strings. */
  lemma PhonePatternParts(s: string)
    requires PhonePattern(s)
    ensures var n := |s|;
      GoodParts(s[1..3], s[4], s[5..n - 5], s[n - 4..])
      && s == MakePhone(s[1..3], s[4], s[5..n - 5], s[n - 4..])
  {
    var n := |s|;
    var m := MakePhone(s[1..3], s[4], s[5..n - 5], s[n - 4..]);
    assert |m| == n;
    forall i | 0 <= i < n ensures m[i] == s[i] {
    }
  }

  /** The two placeholder shapes, with an ordinary space. */
  lemma PhoneExamples()
    ensures PhoneRule(Some("(11) 99999-9999"))
    ensures PhoneRule(Some("(11) 3333-4444"))
    ensures PhoneRule(None) && PhoneRule(Some(""))
    ensures !PhoneRule(Some("11 99999-9999"))
  {
    MakePhoneMatches("11", ' ', "99999", "9999");
    assert MakePhone("11", ' ', "99999", "9999") == "(11) 99999-9999";
    MakePhoneMatches("11", ' ', "3333", "4444");
    assert MakePhone("11", ' ', "3333", "4444") == "(11) 3333-4444";
    assert |"11 99999-9999"| == 13;
  }

  // ------------------------------------------------------------ the form

  /** Every rule of the form, the e-mail format apart. */
  predicate FormValid(f: RegisterForm): (b: bool)
    ensures b ==> f.confirmPassword == f.password && |f.password| >= 6
    ensures b ==> |f.firstName| >= 2 && |f.lastName| >= 2 && f.email != ""
  {
    NameRule(f.firstName) && NameRule(f.lastName) && f.email != ""
    && PhoneRule(f.phone) && PasswordRule(f.password) && ConfirmRule(f.confirmPassword, f.password)
  }

  /** `onFinish`: the confirmation is taken out, everything else is passed on. */
  function ToRegisterData(f: RegisterForm): (r: RegisterData)
    ensures r.email == f.email && r.password == f.password && r.phone == f.phone
    ensures r.firstName == f.firstName && r.lastName == f.lastName
  {
    RegisterData(f.email, f.password, f.firstName, f.lastName, f.phone)
  }

  /** The form a user fills in for given data, with the confirmation typed. */
  function WithConfirmation(d: RegisterData, confirm: string): RegisterForm {
    RegisterForm(d.firstName, d.lastName, d.email, d.phone, d.password, confirm)
  }

  /** Stripping the confirmation undoes adding it, whatever was typed there,
      and a valid form sends a password of at least six characters equal to
      its confirmation. */
  lemma ConfirmationRoundTrip(d: RegisterData, confirm: string, f: RegisterForm)
    ensures ToRegisterData(WithConfirmation(d, confirm)) == d
    ensures FormValid(f) ==> f.confirmPassword == ToRegisterData(f).password && |ToRegisterData(f).password| >= 6
  {
  }
}
