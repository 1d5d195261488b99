/** Field validation for the signup and login forms: each check builds a
    partial error record, one entry per failing field. */
module Validation {
  import opened Identity

  /** A validation result: a field is a key exactly when it failed (or, after
      a form edit, when its message was cleared to the empty string). */
  type ValidationError = map<Field, string>

  const NameRequired := "Name is required"
  const EmailRequired := "Email is required"
  const InvalidEmail := "Invalid email format"
  const PasswordRequired := "Password is required"
  const PasswordTooShort := "Password must be at least 6 characters long"
  const MinPasswordLength := 6

  // ---------------------------------------------------------------------
  // Whitespace and trimming

  /** ECMAScript's WhiteSpace and LineTerminator code points: the set that
      both `String.prototype.trim` and the regular-expression class `\s` use. */
  predicate IsWhitespace(c: char)
  {
    || c == '\t' || c == '\n' || c == '\U{000B}' || c == '\U{000C}' || c == '\r'
    || c == ' ' || c == '\U{00A0}' || c == '\U{1680}'
    || ('\U{2000}' <= c <= '\U{200A}')
    || c == '\U{2028}' || c == '\U{2029}' || c == '\U{202F}' || c == '\U{205F}'
    || c == '\U{3000}' || c == '\U{FEFF}'
  }

  /** Every character of `s` is whitespace (true of the empty string). */
  predicate IsBlank(s: string)
  {
    forall k | 0 <= k < |s| :: IsWhitespace(s[k])
  }

  /** `s` with its leading whitespace removed. */
  function TrimStart(s: string): string
  {
    if s != [] && IsWhitespace(s[0]) then TrimStart(s[1..]) else s
  }

  /** `s` with its trailing whitespace removed. */
  function TrimEnd(s: string): string
  {
    if s != [] && IsWhitespace(s[|s| - 1]) then TrimEnd(s[..|s| - 1]) else s
  }

  /** `String.prototype.trim`. */
  function Trim(s: string): string
  {
    TrimEnd(TrimStart(s))
  }

  /** TrimStart removes a blank prefix, and exactly the longest one: what
      remains is empty or starts with a non-whitespace character. */
  lemma {:induction false} TrimStartSplits(s: string)
    ensures var r := TrimStart(s);
      && |r| <= |s| && r == s[|s| - |r|..] && IsBlank(s[..|s| - |r|])
      && (r == [] || !IsWhitespace(r[0]))
  {
    if s != [] && IsWhitespace(s[0]) {
      TrimStartSplits(s[1..]);
      var r := TrimStart(s);
      var n := |s| - |r|;
      assert r == s[1..][|s| - 1 - |r|..] == s[n..];
      forall k | 0 <= k < n ensures IsWhitespace(s[..n][k]) {
        if k > 0 { assert s[..n][k] == s[1..][..n - 1][k - 1]; }
      }
    } else {
      assert s[..0] == [];
    }
  }

  /** TrimEnd removes a blank suffix, and exactly the longest one: what
      remains is empty or ends with a non-whitespace character. */
  lemma {:induction false} TrimEndSplits(s: string)
    ensures var r := TrimEnd(s);
      && |r| <= |s| && r == s[..|r|] && IsBlank(s[|r|..])
      && (r == [] || !IsWhitespace(r[|r| - 1]))
  {
    if s != [] && IsWhitespace(s[|s| - 1]) {
      var p := s[..|s| - 1];
      TrimEndSplits(p);
      var r := TrimEnd(s);
      assert r == p[..|r|] == s[..|r|];
      forall k | |r| <= k < |s| ensures IsWhitespace(s[k]) {
        if k < |s| - 1 { assert s[k] == p[|r|..][k - |r|]; }
      }
      assert forall k | 0 <= k < |s| - |r| :: s[|r|..][k] == s[|r| + k];
    } else {
      assert s[|s|..] == [];
    }
  }

  /** `!s.trim()` holds exactly for the empty or all-whitespace strings. */
  lemma TrimEmptyIffBlank(s: string)
    ensures Trim(s) == [] <==> IsBlank(s)
  {
    TrimStartSplits(s);
    var t := TrimStart(s);
    TrimEndSplits(t);
    if Trim(s) == [] {
      assert t == [];
      forall k | 0 <= k < |s| ensures IsWhitespace(s[k]) {
        assert s[k] == s[..|s|][k];
      }
    } else {
      assert t[0] == s[|s| - |t|];
    }
  }

  // ---------------------------------------------------------------------
  // The email shape /^[^\s@]+@[^\s@]+\.[^\s@]+$/

  /** A character of the class `[^\s@]`. */
  predicate IsEmailChar(c: char)
  {
    !IsWhitespace(c) && c != '@'
  }

  /** `s` matches `[^\s@]+`. */
  predicate IsEmailRun(s: string)
  {
    |s| > 0 && forall k | 0 <= k < |s| :: IsEmailChar(s[k])
  }

  /** The regular expression read directly: some split of `s` into a run,
      an `@` at `i`, a run, a `.` at `j` and a run. */
  ghost predicate MatchesEmailPattern(s: string)
  {
    exists i, j | 0 <= i < j < |s| ::
      && s[i] == '@' && s[j] == '.'
      && IsEmailRun(s[..i]) && IsEmailRun(s[i + 1..j]) && IsEmailRun(s[j + 1..])
  }

  /** The index of the first `c` in `s`, or `|s|` when there is none. */
  function IndexOf(s: string, c: char): (k: nat)
    ensures k <= |s|
    ensures k < |s| ==> s[k] == c
    ensures forall i | 0 <= i < k :: s[i] != c
  {
    if s == [] then 0
    else if s[0] == c then 0
    else 1 + IndexOf(s[1..], c)
  }

  /** The email shape as a check: no whitespace anywhere, exactly one `@`
      with a non-empty part before it, and a domain with an inner dot. */
  predicate EmailShape(s: string)
  {
    && (forall k | 0 <= k < |s| :: !IsWhitespace(s[k]))
    && var at := IndexOf(s, '@');
       && 0 < at < |s|
       && (forall k | at < k < |s| :: s[k] != '@')
       && (exists j | at + 1 < j < |s| - 1 :: s[j] == '.')
  }

  /** Every string the check accepts matches the regular expression. */
  lemma EmailShapeIsPattern(s: string)
    requires EmailShape(s)
    ensures MatchesEmailPattern(s)
  {
    var i := IndexOf(s, '@');
    var j :| i + 1 < j < |s| - 1 && s[j] == '.';
    assert forall k | 0 <= k < |s| && k != i :: IsEmailChar(s[k]);
    var a, b, c := s[..i], s[i + 1..j], s[j + 1..];
    assert IsEmailRun(a) by {
      forall k | 0 <= k < |a| ensures IsEmailChar(a[k]) { assert a[k] == s[k]; }
    }
    assert IsEmailRun(b) by {
      forall k | 0 <= k < |b| ensures IsEmailChar(b[k]) { assert b[k] == s[i + 1 + k]; }
    }
    assert IsEmailRun(c) by {
      forall k | 0 <= k < |c| ensures IsEmailChar(c[k]) { assert c[k] == s[j + 1 + k]; }
    }
  }

  /** Every string the regular expression matches passes the check. */
  lemma PatternIsEmailShape(s: string)
    requires MatchesEmailPattern(s)
    ensures EmailShape(s)
  {
    var i, j :| 0 <= i < j < |s| && s[i] == '@' && s[j] == '.'
      && IsEmailRun(s[..i]) && IsEmailRun(s[i + 1..j]) && IsEmailRun(s[j + 1..]);
    forall k | 0 <= k < |s| && k != i && k != j ensures IsEmailChar(s[k]) {
      if k < i {
        assert s[k] == s[..i][k];
      } else if k < j {
        assert s[k] == s[i + 1..j][k - i - 1];
      } else {
        assert s[k] == s[j + 1..][k - j - 1];
      }
    }
    assert forall k | 0 <= k < i :: s[k] != '@' by {
      forall k | 0 <= k < i ensures s[k] != '@' { assert s[k] == s[..i][k]; }
    }
    assert IndexOf(s, '@') == i;
    assert |s[..i]| > 0 && |s[j + 1..]| > 0;
  }

  /** The check accepts exactly the strings the regular expression matches. */
  lemma EmailShapeMatchesPattern(s: string)
    ensures EmailShape(s) <==> MatchesEmailPattern(s)
  {
    if EmailShape(s) { EmailShapeIsPattern(s); }
    if MatchesEmailPattern(s) { PatternIsEmailShape(s); }
  }

  // ---------------------------------------------------------------------
  // The per-field checks: each one conditionally assigns its field's key

  /** `if (!name.trim()) errors.name = 'Name is required'`. */
  function CheckName(errors: ValidationError, name: string): ValidationError
  {
    if Trim(name) == [] then errors[Name := NameRequired] else errors
  }

  /** The email check: "required" on a blank value, otherwise "invalid" when
      the untrimmed value does not have the email shape. */
  function CheckEmail(errors: ValidationError, email: string): ValidationError
  {
    if Trim(email) == [] then errors[Email := EmailRequired]
    else if !EmailShape(email) then errors[Email := InvalidEmail]
    else errors
  }

  /** The password check: "required" on the empty string, otherwise "too
      short" below six characters; no trimming. */
  function CheckPassword(errors: ValidationError, password: string): ValidationError
  {
    if password == [] then errors[Password := PasswordRequired]
    else if |password| < MinPasswordLength then errors[Password := PasswordTooShort]
    else errors
  }

  /** `validateSignup`. */
  function ValidateSignup(name: string, email: string, password: string): ValidationError
  {
    CheckPassword(CheckEmail(CheckName(map[], name), email), password)
  }

  /** `validateLogin`. */
  function ValidateLogin(email: string, password: string): (r: ValidationError)
    ensures Name !in r
  {
    CheckPassword(CheckEmail(map[], email), password)
  }

  /** The meaning of each entry, stated without reference to the checks. */
  ghost predicate NameEntry(r: ValidationError, name: string)
  {
    (Name in r <==> IsBlank(name)) && (Name in r ==> r[Name] == NameRequired)
  }

  ghost predicate EmailEntry(r: ValidationError, email: string)
  {
    && (Email in r && r[Email] == EmailRequired <==> IsBlank(email))
    && (Email in r && r[Email] == InvalidEmail <==> !IsBlank(email) && !MatchesEmailPattern(email))
    && (Email in r ==> r[Email] == EmailRequired || r[Email] == InvalidEmail)
  }

  ghost predicate PasswordEntry(r: ValidationError, password: string)
  {
    && (Password in r && r[Password] == PasswordRequired <==> password == [])
    && (Password in r && r[Password] == PasswordTooShort <==> 0 < |password| < MinPasswordLength)
    && (Password in r ==> r[Password] == PasswordRequired || r[Password] == PasswordTooShort)
  }

  /** What the name check promises, whatever the fields already present. */
  lemma CheckNameEntry(errors: ValidationError, name: string)
    requires Name !in errors
    ensures NameEntry(CheckName(errors, name), name)
    ensures forall f | f != Name :: (f in CheckName(errors, name) <==> f in errors)
    ensures forall f | f != Name && f in errors :: CheckName(errors, name)[f] == errors[f]
  {
    TrimEmptyIffBlank(name);
  }

  /** What the password check promises, whatever the fields already present. */
  lemma CheckPasswordEntry(errors: ValidationError, password: string)
    requires Password !in errors
    ensures PasswordEntry(CheckPassword(errors, password), password)
    ensures forall f | f != Password :: (f in CheckPassword(errors, password) <==> f in errors)
    ensures forall f | f != Password && f in errors :: CheckPassword(errors, password)[f] == errors[f]
  {
  }

  /** What the email check promises, whatever the fields already present. */
  lemma CheckEmailEntry(errors: ValidationError, email: string)
    requires Email !in errors
    ensures EmailEntry(CheckEmail(errors, email), email)
    ensures forall f | f != Email :: (f in CheckEmail(errors, email) <==> f in errors)
    ensures forall f | f != Email && f in errors :: CheckEmail(errors, email)[f] == errors[f]
  {
    TrimEmptyIffBlank(email);
    EmailShapeMatchesPattern(email);
  }

  /** `validateSignup` reports each field exactly when, and as, it fails. */
  lemma SignupEntries(name: string, email: string, password: string)
    ensures var r := ValidateSignup(name, email, password);
      NameEntry(r, name) && EmailEntry(r, email) && PasswordEntry(r, password)
  {
    var e0: ValidationError := map[];
    var e1 := CheckName(e0, name);
    CheckNameEntry(e0, name);
    var e2 := CheckEmail(e1, email);
    CheckEmailEntry(e1, email);
    CheckPasswordEntry(e2, password);
  }

  /** `validateLogin` applies the same email and password rules as signup
      and never reports a name. */
  lemma LoginEntries(email: string, password: string)
    ensures var r := ValidateLogin(email, password);
      Name !in r && EmailEntry(r, email) && PasswordEntry(r, password)
  {
    var e0: ValidationError := map[];
    CheckEmailEntry(e0, email);
    CheckPasswordEntry(CheckEmail(e0, email), password);
  }

  /** For any name, login's email and password entries are signup's. */
  lemma LoginAgreesWithSignup(name: string, email: string, password: string)
    ensures var s, l := ValidateSignup(name, email, password), ValidateLogin(email, password);
      && (Email in l <==> Email in s) && (Email in l ==> l[Email] == s[Email])
      && (Password in l <==> Password in s) && (Password in l ==> l[Password] == s[Password])
  {
    SignupEntries(name, email, password);
    LoginEntries(email, password);
  }

  /** A matching email is never blank: its `@` is not whitespace. */
  lemma PatternIsNotBlank(email: string)
    requires MatchesEmailPattern(email)
    ensures !IsBlank(email)
  {
    var i, j :| 0 <= i < j < |email| && email[i] == '@' && email[j] == '.'
      && IsEmailRun(email[..i]) && IsEmailRun(email[i + 1..j]) && IsEmailRun(email[j + 1..]);
    assert !IsWhitespace(email[i]);
  }

  /** Every failing field is reported at once: the result is empty exactly
      when all three fields are valid. */
  lemma SignupEmptyIffValid(name: string, email: string, password: string)
    ensures ValidateSignup(name, email, password) == map[] <==>
      !IsBlank(name) && MatchesEmailPattern(email) && |password| >= MinPasswordLength
  {
    SignupEntries(name, email, password);
    var r := ValidateSignup(name, email, password);
    if !IsBlank(name) && MatchesEmailPattern(email) && |password| >= MinPasswordLength {
      PatternIsNotBlank(email);
      assert r.Keys == {};
    } else {
      assert Name in r || Email in r || Password in r;
    }
  }

  lemma LoginEmptyIffValid(email: string, password: string)
    ensures ValidateLogin(email, password) == map[] <==>
      MatchesEmailPattern(email) && |password| >= MinPasswordLength
  {
    LoginEntries(email, password);
    var r := ValidateLogin(email, password);
    if MatchesEmailPattern(email) && |password| >= MinPasswordLength {
      PatternIsNotBlank(email);
      assert r.Keys == {};
    } else {
      assert Email in r || Password in r;
    }
  }

  /** The shape admits no `@` after the first one. */
  lemma ShapeHasOneAt(s: string)
    ensures forall i, j | 0 <= i < j < |s| && s[i] == '@' && s[j] == '@' :: !EmailShape(s)
  {
    forall i, j | 0 <= i < j < |s| && s[i] == '@' && s[j] == '@' ensures !EmailShape(s) {
      var at := IndexOf(s, '@');
      assert at <= i;
    }
  }

  /** Some `@` is followed, one or more characters later, by a `.` that is
      not the last character. */
  ghost predicate HasDotAfterAt(s: string)
  {
    exists i, j | 0 <= i && i + 1 < j && j + 1 < |s| :: s[i] == '@' && s[j] == '.'
  }

  /** Every string of the shape has a dot after its `@`, with characters
      between them and after the dot. */
  lemma ShapeHasDomainDot(s: string)
    ensures EmailShape(s) ==> HasDotAfterAt(s)
  {
    if EmailShape(s) {
      var at := IndexOf(s, '@');
      var j :| at + 1 < j < |s| - 1 && s[j] == '.';
      assert s[at] == '@';
    }
  }

  /** A non-blank email with a second `@`, or with whitespace anywhere in it,
      is reported as malformed and never as missing: the shape test sees the
      untrimmed string. */
  lemma MalformedEmailIsInvalid(email: string, password: string)
    requires !IsBlank(email)
    requires || (exists i, j | 0 <= i < j < |email| :: email[i] == '@' && email[j] == '@')
             || (exists k | 0 <= k < |email| :: IsWhitespace(email[k]))
    ensures ValidateLogin(email, password)[Email] == InvalidEmail
  {
    TrimEmptyIffBlank(email);
    ShapeHasOneAt(email);
  }

  /** A non-blank email without a dot that has characters on both sides after
      the `@` is malformed. */
  lemma DotlessDomainIsInvalid(email: string, password: string)
    requires !IsBlank(email)
    requires !HasDotAfterAt(email)
    ensures ValidateLogin(email, password)[Email] == InvalidEmail
  {
    TrimEmptyIffBlank(email);
    ShapeHasDomainDot(email);
  }

  /** A password of six or more characters passes even when it is all
      whitespace: the password is never trimmed. */
  lemma LongBlankPasswordPasses(email: string, password: string)
    requires |password| >= MinPasswordLength && IsBlank(password)
    ensures Password !in ValidateLogin(email, password)
    ensures Password !in ValidateSignup("", email, password)
  {
  }

  // ---------------------------------------------------------------------
  // How the forms read an error record

  /** A form marks field `f` invalid when its entry is a non-empty string
      (`!!errors.f`): a missing key and a cleared `''` both read as valid. */
  predicate ShowsError(errors: ValidationError, f: Field)
  {
    f in errors && errors[f] != ""
  }

  /** Clearing one field's entry hides that field's error and no other. */
  lemma ClearingHidesOnlyThatField(errors: ValidationError, f: Field)
    ensures !ShowsError(errors[f := ""], f)
    ensures forall g | g != f :: ShowsError(errors[f := ""], g) == ShowsError(errors, g)
  {
  }

  /** Every field a validation reports is shown: no message is empty. */
  lemma ReportedFieldsShow(name: string, email: string, password: string)
    ensures forall f | f in ValidateSignup(name, email, password) :: ShowsError(ValidateSignup(name, email, password), f)
    ensures forall f | f in ValidateLogin(email, password) :: ShowsError(ValidateLogin(email, password), f)
  {
    SignupEntries(name, email, password);
    LoginEntries(email, password);
  }

  // ---------------------------------------------------------------------
  // Concrete cases

  lemma AllEmptySignup()
    ensures ValidateSignup("", "", "") ==
      map[Name := NameRequired, Email := EmailRequired, Password := PasswordRequired]
  {
    TrimEmptyIffBlank("");
  }

  lemma WellFormedSignup()
    ensures ValidateSignup("Ann", "ann@x.com", "abcdef") == map[]
  {
    var e := "ann@x.com";
    assert e[3] == '@' && e[5] == '.';
    assert IsEmailRun(e[..3]) && IsEmailRun(e[4..5]) && IsEmailRun(e[6..]);
    assert MatchesEmailPattern(e);
    assert "Ann"[0] == 'A' && !IsBlank("Ann");
    SignupEmptyIffValid("Ann", e, "abcdef");
  }

  lemma BadEmailLogin()
    ensures ValidateLogin("bad-email", "123456") == map[Email := InvalidEmail]
  {
    var e := "bad-email";
    assert e[0] == 'b' && !IsBlank(e);
    assert forall k | 0 <= k < |e| :: e[k] != '@';
    assert !EmailShape(e);
    TrimEmptyIffBlank(e);
  }

  /** A five-character password is rejected by validation before any
      credential comparison takes place. */
  lemma ShortPasswordLogin()
    ensures ValidateLogin("a@b.com", "wrong") == map[Password := PasswordTooShort]
  {
    var e := "a@b.com";
    assert e[0] == 'a' && !IsBlank(e);
    assert e[1] == '@' && e[3] == '.';
    assert IsEmailRun(e[..1]) && IsEmailRun(e[2..3]) && IsEmailRun(e[4..]);
    assert MatchesEmailPattern(e);
    LoginEntries(e, "wrong");
    var r := ValidateLogin(e, "wrong");
    assert Name !in r && Email !in r && r[Password] == PasswordTooShort;
    assert r.Keys == {Password};
  }
}
