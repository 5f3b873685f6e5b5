/** The registration form's validators (app/auth/forms.py:16-46) as predicates over the submitted
    field values. The user store, the `DOMAIN` environment variable and the verdict of WTForms'
    `Email()` validator are inputs. */
module AuthForms {
  import opened Base

  predicate Letter(c: char)
  {
    'a' <= c <= 'z' || 'A' <= c <= 'Z'
  }

  /** The class `[A-Za-z0-9_.]`. */
  predicate NameChar(c: char)
  {
    Letter(c) || '0' <= c <= '9' || c == '_' || c == '.'
  }

  /** What the error message asks of a username: a letter, then only letters, digits, dots and
      underscores. */
  predicate ValidUsername(s: string)
  {
    |s| >= 1 && Letter(s[0]) && forall i :: 1 <= i < |s| ==> NameChar(s[i])
  }

  /** `[A-Za-z0-9_.]*$` matched from the start of `s` as Python's `re` does it: `$` matches at the
      end, and also just before a newline that ends the text. */
  function StarThenDollar(s: string): bool
    decreases |s|
  {
    s == [] || s == "\n" || (NameChar(s[0]) && StarThenDollar(s[1..]))
  }

  /** `[A-Za-z0-9_.]*` up to the very end of `s`, with no final newline allowed. */
  function StarToEnd(s: string): bool
    decreases |s|
  {
    s == [] || (NameChar(s[0]) && StarToEnd(s[1..]))
  }

  /** `validate_username` as written (forms.py:34-37): `re.match('^[a-zA-Z][A-Za-z0-9_.]*$', data)`. */
  function UsernameMatchAsWritten(s: string): bool
  {
    |s| >= 1 && Letter(s[0]) && StarThenDollar(s[1..])
  }

  /** `validate_username` as intended: the pattern must cover the whole name. */
  function UsernameMatch(s: string): bool
  {
    |s| >= 1 && Letter(s[0]) && StarToEnd(s[1..])
  }

  lemma {:induction false} StarToEndSpec(s: string)
    ensures StarToEnd(s) <==> forall i :: 0 <= i < |s| ==> NameChar(s[i])
    decreases |s|
  {
    if s != [] {
      StarToEndSpec(s[1..]);
      assert forall i :: 1 <= i < |s| ==> s[1..][i - 1] == s[i];
    }
  }

  lemma {:induction false} StarThenDollarSpec(s: string)
    ensures StarThenDollar(s) <==>
              || (forall i :: 0 <= i < |s| ==> NameChar(s[i]))
              || (|s| >= 1 && s[|s| - 1] == '\n' && forall i :: 0 <= i < |s| - 1 ==> NameChar(s[i]))
    decreases |s|
  {
    if s != [] {
      StarThenDollarSpec(s[1..]);
      assert forall i :: 1 <= i < |s| ==> s[1..][i - 1] == s[i];
      assert !NameChar('\n');
    }
  }

  /** The intended check accepts exactly the usernames the error message describes. */
  lemma UsernameMatchSpec(s: string)
    ensures UsernameMatch(s) <==> ValidUsername(s)
  {
    if |s| >= 1 {
      StarToEndSpec(s[1..]);
      assert forall i :: 1 <= i < |s| ==> s[1..][i - 1] == s[i];
    }
  }

  /** The check as written accepts the described usernames and, besides them, each of those
      followed by one newline. */
  lemma UsernameAsWrittenSpec(s: string)
    ensures UsernameMatchAsWritten(s) <==>
              || ValidUsername(s)
              || (|s| >= 2 && s[|s| - 1] == '\n' && ValidUsername(s[..|s| - 1]))
  {
    if |s| >= 1 {
      StarThenDollarSpec(s[1..]);
      assert forall i :: 1 <= i < |s| ==> s[1..][i - 1] == s[i];
      assert !NameChar('\n');
      if |s| >= 2 {
        assert forall i :: 0 <= i < |s| - 1 ==> s[..|s| - 1][i] == s[i];
      }
    }
  }

  /** "alice\n" gets past the username check although a newline is not allowed in a username. */
  lemma UsernameTrailingNewline()
    ensures UsernameMatchAsWritten("alice\n") && !ValidUsername("alice\n")
    ensures !UsernameMatch("alice\n")
  {
    var s := "alice\n";
    assert s[..|s| - 1] == "alice";
    assert ValidUsername("alice");
    assert s[5] == '\n' && !NameChar('\n');
    UsernameAsWrittenSpec(s);
    UsernameMatchSpec(s);
  }

  /** `"{}".format(os.getenv("DOMAIN"))`: an unset variable is spliced in as the text "None". */
  function DomainText(domain: Option<string>): (t: string)
    ensures domain.Some? ==> t == domain.value
    ensures domain.None? ==> t == "None"
  {
    match domain
    case None => "None"
    case Some(d) => d
  }

  predicate EndsWith(s: string, suffix: string)
  {
    |suffix| <= |s| && s[|s| - |suffix|..] == suffix
  }

  /** The literal `lit` and then `$` at the start of `s`. */
  predicate LiteralThenDollar(s: string, lit: string)
  {
    |lit| <= |s| && s[..|lit|] == lit && (|s| == |lit| || s[|lit|..] == "\n")
  }

  /** `.*` followed by the literal `lit` and `$`, matched from the start of `s`; `.` matches any
      character but a newline. */
  function DotStarThen(s: string, lit: string): bool
    decreases |s|
  {
    LiteralThenDollar(s, lit) || (s != [] && s[0] != '\n' && DotStarThen(s[1..], lit))
  }

  /** The domain check of `validate_email` (forms.py:26-28): `re.match(r"^.*@{}$".format(DOMAIN),
      data)`, with the domain taken literally. */
  function EmailMatch(s: string, domain: Option<string>): bool
  {
    DotStarThen(s, "@" + DomainText(domain))
  }

  /** `s` is newline-free text followed by `lit`. */
  predicate EndsBare(s: string, lit: string)
  {
    EndsWith(s, lit) && '\n' !in s[..|s| - |lit|]
  }

  /** `s` is newline-free text followed by `lit` and one newline. */
  predicate EndsNewline(s: string, lit: string)
  {
    EndsWith(s, lit + "\n") && '\n' !in s[..|s| - |lit| - 1]
  }

  lemma EndsBareStep(s: string, lit: string)
    requires |s| > |lit|
    ensures EndsBare(s, lit) <==> s[0] != '\n' && EndsBare(s[1..], lit)
  {
    var t := s[1..];
    assert s[|s| - |lit|..] == t[|t| - |lit|..];
    assert s[..|s| - |lit|] == [s[0]] + t[..|t| - |lit|];
  }

  lemma EndsNewlineStep(s: string, lit: string)
    requires |s| > |lit| + 1
    ensures EndsNewline(s, lit) <==> s[0] != '\n' && EndsNewline(s[1..], lit)
  {
    var t := s[1..];
    assert s[|s| - |lit| - 1..] == t[|t| - |lit| - 1..];
    assert s[..|s| - |lit| - 1] == [s[0]] + t[..|t| - |lit| - 1];
  }

  /** Text no longer than the literal matches only as the literal itself. */
  lemma ShortStep(s: string, lit: string)
    requires s != [] && |s| <= |lit|
    requires DotStarThen(s[1..], lit) <==> EndsBare(s[1..], lit) || EndsNewline(s[1..], lit)
    ensures DotStarThen(s, lit) <==> EndsBare(s, lit) || EndsNewline(s, lit)
  {
    if |s| == |lit| {
      assert s[|s| - |lit|..] == s && s[..|lit|] == s;
    }
  }

  /** Text one longer than the literal matches at once only as the literal and a newline, and
      otherwise as a non-newline followed by the literal. */
  lemma NewlineStep(s: string, lit: string)
    requires |s| == |lit| + 1
    requires DotStarThen(s[1..], lit) <==> EndsBare(s[1..], lit) || EndsNewline(s[1..], lit)
    ensures DotStarThen(s, lit) <==> EndsBare(s, lit) || EndsNewline(s, lit)
  {
    EndsBareStep(s, lit);
    assert s[|s| - |lit| - 1..] == s;
    if LiteralThenDollar(s, lit) {
      assert s == s[..|lit|] + s[|lit|..];
    }
    if EndsNewline(s, lit) {
      assert s[..|lit|] == (lit + "\n")[..|lit|] == lit;
      assert s[|lit|..] == (lit + "\n")[|lit|..] == "\n";
    }
  }

  /** Longer text matches exactly when it starts with a non-newline and the rest matches. */
  lemma LongStep(s: string, lit: string)
    requires |s| > |lit| + 1
    requires DotStarThen(s[1..], lit) <==> EndsBare(s[1..], lit) || EndsNewline(s[1..], lit)
    ensures DotStarThen(s, lit) <==> EndsBare(s, lit) || EndsNewline(s, lit)
  {
    EndsBareStep(s, lit);
    EndsNewlineStep(s, lit);
  }

  lemma {:induction false} DotStarThenSpec(s: string, lit: string)
    ensures DotStarThen(s, lit) <==> EndsBare(s, lit) || EndsNewline(s, lit)
    decreases |s|
  {
    if s != [] {
      DotStarThenSpec(s[1..], lit);
      if |s| <= |lit| {
        ShortStep(s, lit);
      } else if |s| == |lit| + 1 {
        NewlineStep(s, lit);
      } else {
        LongStep(s, lit);
      }
    }
  }

  /** An address passes the domain check exactly when it ends with "@" and the domain, or with
      those and one newline, and has no newline before them. */
  lemma EmailMatchSpec(s: string, domain: Option<string>)
    ensures EmailMatch(s, domain) <==>
              || (EndsWith(s, "@" + DomainText(domain)) && '\n' !in s[..|s| - |"@" + DomainText(domain)|])
              || (EndsWith(s, "@" + DomainText(domain) + "\n") && '\n' !in s[..|s| - |"@" + DomainText(domain)| - 1])
  {
    DotStarThenSpec(s, "@" + DomainText(domain));
  }

  /** The characters Python's `str.strip()` removes. */
  predicate Whitespace(c: char)
  {
    || '\t' <= c <= '\r' || '\U{1c}' <= c <= '\U{1f}' || c == ' ' || c == '\U{85}' || c == '\U{a0}'
    || c == '\U{1680}' || '\U{2000}' <= c <= '\U{200a}' || c == '\U{2028}' || c == '\U{2029}'
    || c == '\U{202f}' || c == '\U{205f}' || c == '\U{3000}'
  }

  /** WTForms' `DataRequired()`: the value is neither empty nor whitespace only. */
  predicate DataRequired(s: string)
  {
    exists i :: 0 <= i < |s| && !Whitespace(s[i])
  }

  /** WTForms' `Length(1, 64)`. */
  predicate LengthOk(s: string)
  {
    1 <= |s| <= 64
  }

  /** The submitted `RegistrationForm`. */
  datatype Form = Form(email: string, username: string, password: string, password2: string)

  datatype Field = EmailField | UsernameField | PasswordField | Password2Field

  /** The fields `RegistrationForm.validate()` marks as failing, in declaration order. `users` are
      the addresses already stored, `emailSyntax` the verdict of `Email()`. The username is checked
      by the intended full match. */
  function Errors(f: Form, users: set<string>, domain: Option<string>, emailSyntax: bool): seq<Field>
  {
    (if DataRequired(f.email) && LengthOk(f.email) && emailSyntax && f.email !in users && EmailMatch(f.email, domain)
     then [] else [EmailField])
    + (if DataRequired(f.username) && LengthOk(f.username) && UsernameMatch(f.username) then [] else [UsernameField])
    + (if DataRequired(f.password) && f.password == f.password2 then [] else [PasswordField])
    + (if DataRequired(f.password2) then [] else [Password2Field])
  }

  /** A registration passes exactly when the address is new, at most 64 characters, accepted by
      `Email()` and ends with "@" and the domain (or those and a newline) with no newline before;
      the username is a described username of at most 64 characters; and the passwords are equal
      and not blank. `DataRequired` on the email and the username, their lower length bound, and
      `DataRequired` on the confirmation follow from the rest. */
  lemma RegistrationSpec(f: Form, users: set<string>, domain: Option<string>, emailSyntax: bool)
    ensures Errors(f, users, domain, emailSyntax) == [] <==>
              && |f.email| <= 64 && emailSyntax && f.email !in users
              && (|| (EndsWith(f.email, "@" + DomainText(domain)) && '\n' !in f.email[..|f.email| - |"@" + DomainText(domain)|])
                  || (EndsWith(f.email, "@" + DomainText(domain) + "\n") && '\n' !in f.email[..|f.email| - |"@" + DomainText(domain)| - 1]))
              && ValidUsername(f.username) && |f.username| <= 64
              && f.password == f.password2 && DataRequired(f.password)
  {
    var lit := "@" + DomainText(domain);
    EmailMatchSpec(f.email, domain);
    UsernameMatchSpec(f.username);
    if EmailMatch(f.email, domain) {
      if EndsWith(f.email, lit) && '\n' !in f.email[..|f.email| - |lit|] {
        assert f.email[|f.email| - |lit|] == lit[0] == '@';
      } else {
        assert f.email[|f.email| - |lit| - 1] == (lit + "\n")[0] == '@';
      }
    }
    if ValidUsername(f.username) {
      assert !Whitespace(f.username[0]);
    }
  }

  /** Each field is reported exactly when its own checks fail. */
  lemma ErrorsPerField(f: Form, users: set<string>, domain: Option<string>, emailSyntax: bool)
    ensures UsernameField in Errors(f, users, domain, emailSyntax) <==> !(ValidUsername(f.username) && |f.username| <= 64)
    ensures PasswordField in Errors(f, users, domain, emailSyntax) <==> !(DataRequired(f.password) && f.password == f.password2)
    ensures Password2Field in Errors(f, users, domain, emailSyntax) <==> !DataRequired(f.password2)
    ensures EmailField in Errors(f, users, domain, emailSyntax) <==>
              !(DataRequired(f.email) && LengthOk(f.email) && emailSyntax && f.email !in users && EmailMatch(f.email, domain))
  {
    UsernameMatchSpec(f.username);
    if ValidUsername(f.username) {
      assert !Whitespace(f.username[0]);
    }
  }
}
