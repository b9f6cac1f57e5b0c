/** The client's login form: field validation and the demo credential gate. */
module Login {
  import opened Common

  /** The characters JavaScript's `\s` class matches. */
  predicate IsSpace(c: char) {
    var n := c as int;
    || n == 0x09 || n == 0x0A || n == 0x0B || n == 0x0C || n == 0x0D || n == 0x20
    || n == 0xA0 || n == 0x1680 || (0x2000 <= n <= 0x200A) || n == 0x2028 || n == 0x2029
    || n == 0x202F || n == 0x205F || n == 0x3000 || n == 0xFEFF
  }

  /** Whether `s[lo..hi]` is non-empty and holds no space. */
  predicate NonSpaceRun(s: string, lo: int, hi: int)
    requires 0 <= lo <= hi <= |s|
  {
    lo < hi && forall k :: lo <= k < hi ==> !IsSpace(s[k])
  }

  /** `/\S+@\S+\.\S+/.test(s)`: some substring is a non-space run, an '@',
      a non-space run, a '.', and a non-space run. Each run can be cut down
      to the single character next to the '@' or the '.', except the middle
      one, which spans all of the characters between them. */
  predicate MatchesEmailPattern(s: string) {
    exists at, dot :: 0 < at < dot < |s| && MatchAt(s, at, dot)
  }

  /** The match whose '@' is at `at` and whose '.' is at `dot`. */
  predicate MatchAt(s: string, at: int, dot: int) {
    && 0 < at && at + 1 < dot && dot + 1 < |s|
    && s[at] == '@' && s[dot] == '.'
    && !IsSpace(s[at - 1]) && NonSpaceRun(s, at + 1, dot) && !IsSpace(s[dot + 1])
  }

  /** The regular expression read literally: three non-space runs, any of
      whose characters may themselves be '@' or '.', joined by an '@' and
      a '.', somewhere in `s`. */
  ghost predicate RegexMatch(s: string) {
    exists i, at, dot, k :: RegexMatchAt(s, i, at, dot, k)
  }

  /** The regular expression matches `s[i..k]` with its '@' at `at` and its
      '.' at `dot`. */
  ghost predicate RegexMatchAt(s: string, i: int, at: int, dot: int, k: int) {
    && 0 <= i < at < dot < k <= |s|
    && NonSpaceRun(s, i, at) && s[at] == '@' && NonSpaceRun(s, at + 1, dot)
    && s[dot] == '.' && NonSpaceRun(s, dot + 1, k)
  }

  /** Cutting the outer runs down to one character each loses no match, so
      the '@' and '.' positions alone decide the test. */
  lemma EmailPatternIsRegex(s: string)
    ensures MatchesEmailPattern(s) <==> RegexMatch(s)
  {
    if MatchesEmailPattern(s) {
      var at, dot :| 0 < at < dot < |s| && MatchAt(s, at, dot);
      assert NonSpaceRun(s, at - 1, at) && NonSpaceRun(s, dot + 1, dot + 2);
      assert RegexMatchAt(s, at - 1, at, dot, dot + 2);
    }
    if RegexMatch(s) {
      var i, at, dot, k :| RegexMatchAt(s, i, at, dot, k);
      assert !IsSpace(s[at - 1]) && !IsSpace(s[dot + 1]);
      assert MatchAt(s, at, dot);
    }
  }

  /** `s.length` in JavaScript: UTF-16 code units, two for a character
      beyond the Basic Multilingual Plane. */
  function Utf16Length(s: string): (n: nat)
    ensures |s| <= n <= 2 * |s|
    ensures s == [] <==> n == 0
    decreases |s|
  {
    if s == [] then 0
    else Utf16Length(s[..|s| - 1]) + (if s[|s| - 1] as int > 0xFFFF then 2 else 1)
  }

  const EmailRequired := "Email is required"
  const EmailInvalid := "Email is invalid"
  const PasswordRequired := "Password is required"
  const PasswordTooShort := "Password must be at least 6 characters"

  /** The error shown under the email field ("" for none). */
  function EmailError(email: string): string {
    if email == "" then EmailRequired
    else if !MatchesEmailPattern(email) then EmailInvalid
    else ""
  }

  /** The error shown under the password field ("" for none). */
  function PasswordError(password: string): string {
    if password == "" then PasswordRequired
    else if Utf16Length(password) < 6 then PasswordTooShort
    else ""
  }

  /** validateForm: both errors are cleared, then each field is checked on
      its own, so both can be reported at once; the form is valid exactly
      when neither field has an error. */
  method ValidateForm(email: string, password: string) returns (emailError: string, passwordError: string, isValid: bool)
    ensures emailError == EmailError(email) && passwordError == PasswordError(password)
    ensures isValid <==> emailError == "" && passwordError == ""
  {
    isValid := true;
    emailError := "";
    passwordError := "";
    if email == "" {
      emailError := EmailRequired;
      isValid := false;
    } else if !MatchesEmailPattern(email) {
      emailError := EmailInvalid;
      isValid := false;
    }
    if password == "" {
      passwordError := PasswordRequired;
      isValid := false;
    } else if Utf16Length(password) < 6 {
      passwordError := PasswordTooShort;
      isValid := false;
    }
  }

  /** An accepted email has an '@' with a character before it, and a later
      '.' with a character between them and one after it. */
  lemma AcceptedEmailShape(email: string)
    requires EmailError(email) == ""
    ensures '@' in email && '.' in email && 5 <= |email|
  {
    var at, dot :| 0 < at < dot < |email| && MatchAt(email, at, dot);
    assert email[at] in email && email[dot] in email;
  }

  /** An accepted password has at least 6 UTF-16 code units, so at least 3
      characters. */
  lemma AcceptedPasswordShape(password: string)
    requires PasswordError(password) == ""
    ensures 6 <= Utf16Length(password) && 3 <= |password|
  {
  }

  /** For text within the Basic Multilingual Plane, such as ASCII, the
      JavaScript length is the number of characters. */
  lemma {:induction false} Utf16LengthBmp(s: string)
    requires forall i :: 0 <= i < |s| ==> s[i] as int <= 0xFFFF
    ensures Utf16Length(s) == |s|
    decreases |s|
  {
    if s != [] {
      Utf16LengthBmp(s[..|s| - 1]);
    }
  }

  const DemoEmail := "demo@example.com"
  const DemoPassword := "password"

  /** The demo credentials pass validation. */
  lemma DemoCredentialsValid()
    ensures EmailError(DemoEmail) == "" && PasswordError(DemoPassword) == ""
  {
    var email := DemoEmail;
    assert email[4] == '@' && email[12] == '.';
    assert !IsSpace(email[3]) && !IsSpace(email[13]);
    assert NonSpaceRun(email, 5, 12);
    assert MatchAt(email, 4, 12);
    Utf16LengthBmp(DemoPassword);
  }

  /** handleSubmit: nothing happens unless the form validates; then the user
      is logged in, under the email typed, exactly when the credentials are
      the demo ones. */
  method HandleSubmit(email: string, password: string) returns (loggedIn: Option<string>)
    ensures loggedIn.Some? <==> email == DemoEmail && password == DemoPassword
    ensures loggedIn.Some? ==> loggedIn.value == email
  {
    var emailError, passwordError, isValid := ValidateForm(email, password);
    if !isValid {
      DemoCredentialsValid();
      return None;
    }
    if email == DemoEmail && password == DemoPassword {
      return Some(email);
    }
    return None;
  }
}
