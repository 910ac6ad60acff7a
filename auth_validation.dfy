/**
 * src/v1/validators/authValidationSchema.ts: the registration and login field rules.
 * Every rule of a field runs, in the order the schema lists them, and each failing rule
 * contributes its own message; the `trim` sanitizers run after the rules, so the rules see
 * the untrimmed text. `isEmail` is the validator library's own routine and is passed in.
 */
module AuthValidation {
  import opened Numerals
  import opened Strings

  datatype FieldError = FieldError(field: string, message: string)

  /** The request body's fields as text; an absent field is the empty string. */
  datatype Registration = Registration(email: string, first_name: string, last_name: string,
                                       password: string, confirm_password: string)

  /** How many characters of `s` satisfy `p`. */
  function Count(s: string, p: char -> bool): (n: nat)
    ensures n <= |s|
    decreases |s|
  {
    if s == [] then 0 else Count(s[..|s| - 1], p) + (if p(s[|s| - 1]) then 1 else 0)
  }

  /** A character class is present at least once exactly when some position holds one of it. */
  lemma {:induction false} CountPositive(s: string, p: char -> bool)
    ensures Count(s, p) > 0 <==> exists i :: 0 <= i < |s| && p(s[i])
    decreases |s|
  {
    if s != [] {
      var init := s[..|s| - 1];
      CountPositive(init, p);
      if exists i :: 0 <= i < |init| && p(init[i]) {
        var i :| 0 <= i < |init| && p(init[i]);
        assert s[i] == init[i];
      }
      if exists i :: 0 <= i < |s| && p(s[i]) {
        var i :| 0 <= i < |s| && p(s[i]);
        if i < |s| - 1 {
          assert init[i] == s[i];
        }
      }
    }
  }

  predicate IsUpper(c: char) { 'A' <= c <= 'Z' }
  predicate IsLower(c: char) { 'a' <= c <= 'z' }

  /** The validator library's symbol class for strong passwords (ASCII punctuation, the pound sign and space). */
  const Symbols := "-#!$@£%^&*()_+|~=`{}[]:\";'<>?,./\\ "

  predicate IsSymbol(c: char) {
    c in Symbols
  }

  predicate IsVariationSelector(c: char) { c == '\U{FE0E}' || c == '\U{FE0F}' }
  predicate IsAstral(c: char) { c as int > 0xFFFF }

  /** `isLength`'s measure: code points, not counting the two presentation selectors. */
  function DisplayLength(s: string): (n: nat)
    ensures n <= |s|
    ensures (forall i :: 0 <= i < |s| ==> !IsVariationSelector(s[i])) ==> n == |s|
  {
    CountPositive(s, IsVariationSelector);
    |s| - Count(s, IsVariationSelector)
  }

  /** `str.length`: UTF-16 code units, two for every character beyond the basic plane. */
  function Utf16Length(s: string): (n: nat)
    ensures n >= |s|
  {
    |s| + Count(s, IsAstral)
  }

  predicate InLength(s: string, min: nat, max: nat) {
    min <= DisplayLength(s) <= max
  }

  /** `isStrongPassword` with at least eight units and one of each class. */
  predicate StrongPassword(s: string) {
    && Utf16Length(s) >= 8
    && Count(s, IsLower) >= 1 && Count(s, IsUpper) >= 1
    && Count(s, IsDigit) >= 1 && Count(s, IsSymbol) >= 1
  }

  const Domain := "@umindanao.edu.ph"

  /** Lower-case ASCII letters only. */
  predicate LowerRun(s: string) {
    forall i :: 0 <= i < |s| ==> IsLower(s[i])
  }

  /**
   * `/^[a-z]\.[a-z]+\.\d{6}@umindanao\.edu\.ph$/`: an initial, a dot, a surname, a dot,
   * a six-digit number and the university's domain.
   */
  predicate UmindanaoEmail(s: string) {
    var n := |s|;
    && n >= 27
    && IsLower(s[0]) && s[1] == '.'
    && (forall i :: 2 <= i < n - 24 ==> IsLower(s[i]))
    && s[n - 24] == '.'
    && (forall i :: n - 23 <= i < n - 17 ==> IsDigit(s[i]))
    && s[n - 17..] == Domain
  }

  /** The pattern's language, written as its parts. */
  lemma UmindanaoEmailParts(initial: char, surname: string, number: string)
    requires IsLower(initial) && surname != [] && LowerRun(surname)
    requires |number| == 6 && AllDigits(number)
    ensures UmindanaoEmail([initial] + "." + surname + "." + number + Domain)
  {
    var s := [initial] + "." + surname + "." + number + Domain;
    var n := |s|;
    assert n == 26 + |surname|;
    forall i | 2 <= i < n - 24 ensures IsLower(s[i]) {
      assert s[i] == surname[i - 2];
    }
    forall i | n - 23 <= i < n - 17 ensures IsDigit(s[i]) {
      assert s[i] == number[i - (n - 23)];
    }
    assert s[n - 17..] == Domain;
  }

  /** Every matching address splits back into those parts, each of its own shape. */
  lemma UmindanaoEmailSplits(s: string)
    requires UmindanaoEmail(s)
    ensures var n := |s|;
            && IsLower(s[0]) && |s[2..n - 24]| >= 1 && |s[n - 23..n - 17]| == 6
            && LowerRun(s[2..n - 24])
            && AllDigits(s[n - 23..n - 17])
            && s == [s[0]] + "." + s[2..n - 24] + "." + s[n - 23..n - 17] + Domain
  {
    var n := |s|;
    var surname, number := s[2..n - 24], s[n - 23..n - 17];
    assert [s[0]] + "." == s[..2];
    assert s[..2] + surname == s[..n - 24];
    assert s[..n - 24] + "." == s[..n - 23];
    assert s[..n - 23] + number == s[..n - 17];
    assert s[..n - 17] + Domain == s;
  }

  function Rule(ok: bool, field: string, message: string): seq<FieldError> {
    if ok then [] else [FieldError(field, message)]
  }

  function EmailErrors(email: string, isEmail: string -> bool): (errors: seq<FieldError>)
    ensures errors == [] <==> UmindanaoEmail(email) && email != "" && isEmail(email)
    ensures email == "" ==> FieldError("email", "Email cannot be empty") in errors
    ensures forall e :: e in errors ==> e.field == "email"
  {
    Rule(UmindanaoEmail(email), "email", "Invalid Umindanao Email Address")
    + Rule(email != "", "email", "Email cannot be empty")
    + Rule(isEmail(email), "email", "Invalid Email Address")
  }

  /** A name field: present, and 2 to 50 characters long before trimming. */
  function NameErrors(field: string, title: string, name: string): (errors: seq<FieldError>)
    ensures errors == [] <==> name != "" && InLength(name, 2, 50)
    ensures FieldError(field, title + " must be between 2 and 50 characters") in errors <==> !InLength(name, 2, 50)
    ensures forall e :: e in errors ==> e.field == field
  {
    Rule(name != "", field, title + " cannot be empty")
    + Rule(InLength(name, 2, 50), field, title + " must be between 2 and 50 characters")
  }

  const WeakPassword := "Password must contain at least 1 uppercase, 1 lowercase, 1 number, and 1 symbol"
  const PasswordLength := "Password must be between 8 and 128 characters"

  function PasswordErrors(password: string): (errors: seq<FieldError>)
    ensures errors == [] <==> password != "" && InLength(password, 8, 128) && StrongPassword(password)
    ensures FieldError("password", WeakPassword) in errors <==> !StrongPassword(password)
    ensures forall e :: e in errors ==> e.field == "password"
  {
    Rule(password != "", "password", "Password cannot be empty")
    + Rule(InLength(password, 8, 128), "password", PasswordLength)
    + Rule(StrongPassword(password), "password", WeakPassword)
  }

  /** The confirmation is checked for presence and length only; matching is the service's concern. */
  function ConfirmErrors(confirm: string): (errors: seq<FieldError>)
    ensures errors == [] <==> confirm != "" && InLength(confirm, 8, 128)
    ensures forall e :: e in errors ==> e.field == "confirm_password"
  {
    Rule(confirm != "", "confirm_password", "Confirm password cannot be empty")
    + Rule(InLength(confirm, 8, 128), "confirm_password", PasswordLength)
  }

  /** The errors of the registration schema, field by field and rule by rule. */
  function RegistrationErrors(r: Registration, isEmail: string -> bool): (errors: seq<FieldError>)
    ensures errors == [] <==>
              && UmindanaoEmail(r.email) && r.email != "" && isEmail(r.email)
              && r.first_name != "" && InLength(r.first_name, 2, 50)
              && r.last_name != "" && InLength(r.last_name, 2, 50)
              && r.password != "" && InLength(r.password, 8, 128) && StrongPassword(r.password)
              && r.confirm_password != "" && InLength(r.confirm_password, 8, 128)
  {
    EmailErrors(r.email, isEmail)
    + NameErrors("first_name", "First name", r.first_name)
    + NameErrors("last_name", "Last name", r.last_name)
    + PasswordErrors(r.password)
    + ConfirmErrors(r.confirm_password)
  }

  /** The sanitizers, applied after the rules: the names are trimmed (email normalisation is not modelled). */
  function Sanitized(r: Registration): (out: Registration)
    ensures out.email == r.email && out.password == r.password && out.confirm_password == r.confirm_password
    ensures out.first_name == [] || (!JsSpace(out.first_name[0]) && !JsSpace(out.first_name[|out.first_name| - 1]))
    ensures out.last_name == [] || (!JsSpace(out.last_name[0]) && !JsSpace(out.last_name[|out.last_name| - 1]))
    ensures Inside(r.first_name, out.first_name) && Inside(r.last_name, out.last_name)
    ensures out.first_name == [] <==> Blank(r.first_name)
    ensures out.last_name == [] <==> Blank(r.last_name)
  {
    var first := Trim(r.first_name);
    var last := Trim(r.last_name);
    Registration(r.email, first, last, r.password, r.confirm_password)
  }

  /** The errors of the login schema: both fields present and an email-shaped email, nothing more. */
  function LoginErrors(email: string, password: string, isEmail: string -> bool): (errors: seq<FieldError>)
    ensures errors == [] <==> email != "" && isEmail(email) && password != ""
    ensures forall e :: e in errors ==> e.field in {"email", "password"}
  {
    Rule(email != "", "email", "Email cannot be empty")
    + Rule(isEmail(email), "email", "Invalid Email Address")
    + Rule(password != "", "password", "Password cannot be empty")
  }

  /** A short password of each class is strong: "Aa1!aaaa". */
  lemma StrongExample()
    ensures StrongPassword("Aa1!aaaa") && InLength("Aa1!aaaa", 8, 128)
  {
    var s := "Aa1!aaaa";
    ExampleClasses(s);
    assert forall i :: 0 <= i < |s| ==> !IsVariationSelector(s[i]);
  }

  lemma ExampleClasses(s: string)
    requires s == "Aa1!aaaa"
    ensures Count(s, IsUpper) >= 1 && Count(s, IsLower) >= 1
    ensures Count(s, IsDigit) >= 1 && Count(s, IsSymbol) >= 1
  {
    assert Symbols[2] == s[3];
    HasClass(s, IsUpper, 0);
    HasClass(s, IsLower, 1);
    HasClass(s, IsDigit, 2);
    HasClass(s, IsSymbol, 3);
  }

  lemma HasClass(s: string, p: char -> bool, i: nat)
    requires i < |s| && p(s[i])
    ensures Count(s, p) >= 1
  {
    CountPositive(s, p);
  }

  /** A password with no symbol is refused whatever its length. */
  lemma NoSymbolNotStrong(s: string)
    requires forall i :: 0 <= i < |s| ==> !IsSymbol(s[i])
    ensures !StrongPassword(s)
  {
    CountPositive(s, IsSymbol);
  }

  /**
   * The rules see the text before trimming: a name of two spaces passes them,
   * and the sanitizer then turns it into the empty string.
   */
  lemma BlankNamePassesRules()
    ensures InLength("  ", 2, 50) && "  " != ""
    ensures Trim("  ") == ""
  {
    assert !IsVariationSelector("  "[0]) && !IsVariationSelector("  "[1]);
    assert JsSpace("  "[0]) && JsSpace("  "[1]);
  }
}
