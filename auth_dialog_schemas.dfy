/**
 * `resolveAuthDialogSchemas` (src/helpers/resolveAuthDialogSchemas.ts): the zod
 * schema each dialog mode validates its form against, written as a validator.
 * zod's `.email()` check is not part of this model: it is the parameter `isEmail`.
 */
module AuthDialogSchemas {
  import opened Wrappers
  import opened AuthTypes

  datatype Field = FullName | Email | Password | VerificationCode

  function FieldName(f: Field): string {
    match f
    case FullName => "fullName"
    case Email => "email"
    case Password => "password"
    case VerificationCode => "verificationCode"
  }

  /** `dialogSchemasMap`: the keys of each `z.object`. */
  const DialogSchemasMap: map<AuthType, set<Field>> := map[
    Login := {Email, Password},
    Register := {FullName, Email, Password},
    ForgotPassword := {Email},
    VerifyAccount := {Email, VerificationCode},
    ResendCode := {Email}
  ]

  /** `dialogSchemasMap[type] || dialogSchemasMap[AuthTypes.LOGIN]`. */
  function ResolveAuthDialogSchemas(t: AuthType): (fields: set<Field>)
    ensures Email in fields
  {
    if t in DialogSchemasMap then DialogSchemasMap[t] else DialogSchemasMap[Login]
  }

  lemma SchemaKeys(t: AuthType)
    ensures t in DialogSchemasMap
  {
    match t
    case Login =>
    case Register =>
    case ForgotPassword =>
    case VerifyAccount =>
    case ResendCode =>
  }

  /**
   * Every mode has an entry, so the LOGIN fallback is never taken, and the
   * required fields per mode are these.
   */
  lemma {:induction false} EveryModeHasSchema(t: AuthType)
    ensures t in DialogSchemasMap && ResolveAuthDialogSchemas(t) == DialogSchemasMap[t]
    ensures VerificationCode in ResolveAuthDialogSchemas(t) <==> t == VerifyAccount
    ensures FullName in ResolveAuthDialogSchemas(t) <==> t == Register
    ensures Password in ResolveAuthDialogSchemas(t) <==> t == Login || t == Register
  {
    SchemaKeys(t);
  }

  // Character classes of JavaScript regular expressions (without the `u` or `i` flag).

  predicate IsUpper(c: char) { 'A' <= c <= 'Z' }
  predicate IsLower(c: char) { 'a' <= c <= 'z' }
  predicate IsDecimal(c: char) { '0' <= c <= '9' }

  /** `\w`. */
  predicate IsWordChar(c: char) {
    IsUpper(c) || IsLower(c) || IsDecimal(c) || c == '_'
  }

  /** The characters `.` does not match. */
  predicate IsLineTerminator(c: char) {
    c == '\n' || c == '\r' || c == '\U{2028}' || c == '\U{2029}'
  }

  predicate NoLineTerminator(s: string) {
    forall i :: 0 <= i < |s| ==> !IsLineTerminator(s[i])
  }

  predicate HasUpper(s: string) { exists i :: 0 <= i < |s| && IsUpper(s[i]) }
  predicate HasLower(s: string) { exists i :: 0 <= i < |s| && IsLower(s[i]) }
  predicate HasDigitOrNonWord(s: string) { exists i :: 0 <= i < |s| && (IsDecimal(s[i]) || !IsWordChar(s[i])) }

  /**
   * The pattern `(?:(?=.*\d)|(?=.*\W+))(?![.\n])(?=.*[A-Z])(?=.*[a-z]).*$` matches
   * from position `p`: the closing `.*$` needs the rest to be free of line
   * terminators, which makes each look-ahead a search of the rest; the negative
   * look-ahead forbids a `.` at `p` itself.
   */
  predicate MatchesAt(s: string, p: nat)
    requires p <= |s|
  {
    var rest := s[p..];
    NoLineTerminator(rest)
    && (p == |s| || s[p] != '.')
    && HasDigitOrNonWord(rest) && HasUpper(rest) && HasLower(rest)
  }

  /** `regex.test(s)`: the pattern has no `^`, so a match may start anywhere. */
  predicate PasswordPattern(s: string) {
    exists p :: 0 <= p <= |s| && MatchesAt(s, p)
  }

  /** `fullName`: 4 to 50 characters. */
  predicate FullNameOk(v: string) {
    4 <= |v| <= 50
  }

  /** `password`: 8 to 50 characters and the pattern. */
  predicate PasswordOk(v: string) {
    8 <= |v| <= 50 && PasswordPattern(v)
  }

  /** `verificationCode`: `.min(6).max(6)`. */
  predicate CodeOk(v: string) {
    6 <= |v| <= 6
  }

  predicate FieldOk(f: Field, v: string, isEmail: string -> bool) {
    match f
    case FullName => FullNameOk(v)
    case Email => isEmail(v)
    case Password => PasswordOk(v)
    case VerificationCode => CodeOk(v)
  }

  /** The resolved schema parses the form: every key present as a string and valid. */
  predicate Accepts(t: AuthType, values: map<string, string>, isEmail: string -> bool) {
    forall f :: f in ResolveAuthDialogSchemas(t) ==>
      FieldName(f) in values && FieldOk(f, values[FieldName(f)], isEmail)
  }

  function SchemaNames(t: AuthType): set<string> {
    set f | f in ResolveAuthDialogSchemas(t) :: FieldName(f)
  }

  /**
   * `zodResolver`: the parsed object (`z.object` keeps only its own keys) when
   * the form is accepted, `None` when validation fails.
   */
  function Parse(t: AuthType, values: map<string, string>, isEmail: string -> bool): (r: Option<map<string, string>>)
    ensures r.Some? <==> Accepts(t, values, isEmail)
    ensures r.Some? ==> r.value.Keys == SchemaNames(t) && forall k :: k in r.value ==> k in values && r.value[k] == values[k]
  {
    if Accepts(t, values, isEmail) then Some(map k | k in values && k in SchemaNames(t) :: values[k]) else None
  }

  /** What an accepted password always has. */
  lemma {:induction false} AcceptedPassword(v: string)
    requires PasswordOk(v)
    ensures 8 <= |v| <= 50
    ensures exists i :: 0 <= i < |v| && IsUpper(v[i])
    ensures exists i :: 0 <= i < |v| && IsLower(v[i])
    ensures exists i :: 0 <= i < |v| && (IsDecimal(v[i]) || !IsWordChar(v[i]))
  {
    var p :| 0 <= p <= |v| && MatchesAt(v, p);
    var rest := v[p..];
    var u :| 0 <= u < |rest| && IsUpper(rest[u]);
    assert IsUpper(v[p + u]);
    var l :| 0 <= l < |rest| && IsLower(rest[l]);
    assert IsLower(v[p + l]);
    var d :| 0 <= d < |rest| && (IsDecimal(rest[d]) || !IsWordChar(rest[d]));
    assert v[p + d] == rest[d];
  }

  /** What the schema demands of each field in the form it accepts. */
  lemma {:induction false} AcceptedForm(t: AuthType, values: map<string, string>, isEmail: string -> bool)
    requires Accepts(t, values, isEmail)
    ensures "email" in values && isEmail(values["email"])
    ensures t == Register ==> "fullName" in values && 4 <= |values["fullName"]| <= 50
    ensures t == Login || t == Register ==> "password" in values && 8 <= |values["password"]| <= 50
    ensures t == VerifyAccount ==> "verificationCode" in values && |values["verificationCode"]| == 6
  {
    assert FieldName(Email) == "email";
    EveryModeHasSchema(t);
    if t == Login || t == Register {
      assert Password in ResolveAuthDialogSchemas(t);
      assert FieldName(Password) == "password";
    }
    if t == Register {
      assert FullName in ResolveAuthDialogSchemas(t);
      assert FieldName(FullName) == "fullName";
    }
    if t == VerifyAccount {
      assert VerificationCode in ResolveAuthDialogSchemas(t);
      assert FieldName(VerificationCode) == "verificationCode";
    }
  }

  /**
   * For a password on one line that does not start with `.`, the pattern is
   * exactly: an upper-case letter, a lower-case letter, and a digit or a
   * non-word character somewhere.
   */
  lemma {:induction false} PatternOnOneLine(s: string)
    requires NoLineTerminator(s) && |s| > 0 && s[0] != '.'
    ensures PasswordPattern(s) <==> HasUpper(s) && HasLower(s) && HasDigitOrNonWord(s)
  {
    assert s[0..] == s;
    if PasswordPattern(s) {
      var p :| 0 <= p <= |s| && MatchesAt(s, p);
      var rest := s[p..];
      var u :| 0 <= u < |rest| && IsUpper(rest[u]);
      assert s[p + u] == rest[u];
      var l :| 0 <= l < |rest| && IsLower(rest[l]);
      assert s[p + l] == rest[l];
      var d :| 0 <= d < |rest| && (IsDecimal(rest[d]) || !IsWordChar(rest[d]));
      assert s[p + d] == rest[d];
    } else {
      assert !MatchesAt(s, 0);
    }
  }

  /**
   * A leading `.` does not count as the non-word character: ".Abcdefgh" is
   * refused while "Abcdefgh." passes.
   */
  lemma {:induction false} LeadingDot()
    ensures !PasswordOk(".Abcdefgh")
    ensures PasswordOk("Abcdefgh.")
  {
    var bad := ".Abcdefgh";
    forall p | 0 <= p <= |bad|
      ensures !MatchesAt(bad, p)
    {
      if 1 <= p {
        var rest := bad[p..];
        assert forall i :: 0 <= i < |rest| ==> rest[i] == bad[p + i];
        assert forall i :: 1 <= i < |bad| ==> IsWordChar(bad[i]) && !IsDecimal(bad[i]);
      }
    }
    var good := "Abcdefgh.";
    assert good[0..] == good;
    assert IsUpper(good[0]) && IsLower(good[1]) && !IsWordChar(good[8]);
    assert MatchesAt(good, 0);
  }
}
