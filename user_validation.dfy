/**
 * The request-body validators of src/validations/user.validation.ts.  Each
 * is a chain of checks that either throws a 400 HttpException (here
 * `Failure`) or lets the request through to `next()` (here `Success`).
 * The email regular expression
 *   ^[a-zA-Z0-9._%+-]+@[a-zA-Z0-9.-]+\.[a-zA-Z]{2,}$
 * is given twice: as the language it denotes (`EmailPattern`) and as a
 * hand-coded recognizer (`ScanEmail`), proved equal; `IsEmail`, the test the
 * validators run, is the recognizer with that equality as its contract.
 */
module UserValidation {
  import opened Wrappers
  import opened Constants
  import opened HttpErrors
  import opened JsStrings

  /** A body field as the validators see it: `undefined`, a string, or any other value (`null` included). */
  datatype Field = Absent | Text(s: string) | NonText

  datatype CreateUserBody = CreateUserBody(name: Field, email: Field, password: Field)
  datatype UpdateUserBody = UpdateUserBody(name: Field, email: Field, phoneNumber: Field, gender: Field)
  datatype LoginBody = LoginBody(email: Field, password: Field)

  const NAME_REQUIRED := "Name is required and must be a non-empty string"
  const NAME_NOT_EMPTY := "Name must be a non-empty string"
  const NAME_TOO_LONG := "Name must not exceed 100 characters"
  const EMAIL_REQUIRED := "Email is required"
  const EMAIL_NOT_STRING := "Email must be a string"
  const EMAIL_INVALID := "Invalid email format"
  const PASSWORD_REQUIRED := "Password is required"
  const PASSWORD_TOO_SHORT := "Password must be at least 6 characters"
  const PHONE_NOT_STRING := "Phone number must be a string"
  const PHONE_LENGTH := "Phone number must be between 10 and 15 characters"
  const GENDER_INVALID := "Gender must be male, female, or other"

  const MAX_NAME_LENGTH := 100
  const MIN_PASSWORD_LENGTH := 6
  const MIN_PHONE_LENGTH := 10
  const MAX_PHONE_LENGTH := 15

  // ---------- the email language ----------

  predicate IsAsciiLetter(c: char) {
    'a' <= c <= 'z' || 'A' <= c <= 'Z'
  }

  predicate IsAsciiDigit(c: char) {
    '0' <= c <= '9'
  }

  /** `[a-zA-Z0-9._%+-]` */
  predicate IsLocalChar(c: char) {
    IsAsciiLetter(c) || IsAsciiDigit(c) || c == '.' || c == '_' || c == '%' || c == '+' || c == '-'
  }

  /** `[a-zA-Z0-9.-]` */
  predicate IsDomainChar(c: char) {
    IsAsciiLetter(c) || IsAsciiDigit(c) || c == '.' || c == '-'
  }

  predicate AllLocal(s: string) {
    forall i :: 0 <= i < |s| ==> IsLocalChar(s[i])
  }

  predicate AllDomain(s: string) {
    forall i :: 0 <= i < |s| ==> IsDomainChar(s[i])
  }

  predicate AllLetters(s: string) {
    forall i :: 0 <= i < |s| ==> IsAsciiLetter(s[i])
  }

  /**
   * `s` read as local "@" domain "." tld with the '@' at `at` and the '.' at
   * `dot`: a non-empty local part, a non-empty domain, and a top-level
   * domain of at least two letters.
   */
  predicate EmailSplit(s: string, at: int, dot: int) {
    && 1 <= at && at + 2 <= dot && dot + 3 <= |s|
    && s[at] == '@' && s[dot] == '.'
    && AllLocal(s[..at]) && AllDomain(s[at + 1..dot]) && AllLetters(s[dot + 1..])
  }

  /** The strings the regular expression matches: those with some such split. */
  ghost predicate EmailPattern(s: string) {
    exists at, dot :: EmailSplit(s, at, dot)
  }

  /**
   * The recognizer: the local part runs up to the first '@' (no local
   * character is an '@'), and the top-level domain starts after the last
   * '.' (no letter is a '.').
   */
  function ScanEmail(s: string): bool {
    var at := IndexOf(s, '@');
    if at == 0 || at == |s| || !AllLocal(s[..at]) then false
    else
      var rest := s[at + 1..];
      var dot := LastIndexOf(rest, '.');
      && 1 <= dot && dot + 3 <= |rest|
      && AllDomain(rest[..dot]) && AllLetters(rest[dot + 1..])
  }

  /** Every string the recognizer accepts has a split of the regular expression. */
  lemma EmailRecognizerSound(s: string)
    requires ScanEmail(s)
    ensures EmailPattern(s)
  {
    var at := IndexOf(s, '@');
    var rest := s[at + 1..];
    var dot := LastIndexOf(rest, '.');
    assert s[at + 1..at + 1 + dot] == rest[..dot];
    assert s[at + 1 + dot + 1..] == rest[dot + 1..];
    assert EmailSplit(s, at, at + 1 + dot);
  }

  /** Every split of the regular expression is the one the recognizer finds. */
  lemma EmailRecognizerComplete(s: string, at: int, dot: int)
    requires EmailSplit(s, at, dot)
    ensures ScanEmail(s)
  {
    assert !IsLocalChar('@');
    assert '@' !in s[..at];
    IndexOfAt(s, '@', at);
    var rest := s[at + 1..];
    var k := dot - at - 1;
    assert rest[k] == '.';
    assert rest[k + 1..] == s[dot + 1..];
    assert !IsAsciiLetter('.');
    assert '.' !in rest[k + 1..];
    LastIndexOfAt(rest, '.', k);
    assert rest[..k] == s[at + 1..dot];
  }

  /** The recognizer accepts exactly the strings of the regular expression. */
  lemma EmailRecognizerCorrect(s: string)
    ensures ScanEmail(s) <==> EmailPattern(s)
  {
    if ScanEmail(s) {
      EmailRecognizerSound(s);
    }
    if EmailPattern(s) {
      var at, dot :| EmailSplit(s, at, dot);
      EmailRecognizerComplete(s, at, dot);
    }
  }

  /** `emailRegex.test(s)`, run as the recognizer. */
  function IsEmail(s: string): (r: bool)
    ensures r <==> EmailPattern(s)
  {
    EmailRecognizerCorrect(s);
    ScanEmail(s)
  }

  // ---------- field rules ----------

  /** A name both validators accept: a string that is not all white space, at most 100 code units long. */
  predicate ValidName(f: Field) {
    f.Text? && !Blank(f.s) && JsLength(f.s) <= MAX_NAME_LENGTH
  }

  /** An email both validators accept: a string of the regular expression's language. */
  ghost predicate ValidEmail(f: Field) {
    f.Text? && EmailPattern(f.s)
  }

  /** A password `validateCreateUser` accepts: a string of at least 6 code units. */
  predicate ValidPassword(f: Field) {
    f.Text? && JsLength(f.s) >= MIN_PASSWORD_LENGTH
  }

  /** A phone number `validateUpdateUser` accepts: a string of 10 to 15 code units. */
  predicate ValidPhone(f: Field) {
    f.Text? && MIN_PHONE_LENGTH <= JsLength(f.s) <= MAX_PHONE_LENGTH
  }

  /** A gender `validateUpdateUser` accepts: one of the three listed strings. */
  predicate ValidGender(f: Field) {
    f.Text? && f.s in ["male", "female", "other"]
  }

  /** `!v || typeof v !== 'string'`: missing, not a string, or the empty string. */
  predicate Falsy(f: Field) {
    f.Absent? || f.NonText? || f.s == []
  }

  /** `typeof name !== 'string' || name.trim().length === 0` (after `!name` for create). */
  predicate NameRejected(f: Field) {
    f.Absent? || f.NonText? || f.s == [] || JsLength(Trim(f.s)) == 0
  }

  lemma NameRejectedIffBlank(f: Field)
    ensures NameRejected(f) <==> !(f.Text? && !Blank(f.s))
  {
    if f.Text? {
      TrimEmptyIffBlank(f.s);
    }
  }

  function BadRequest(message: string): (r: Result<(), AppError>)
    ensures r.Failure? && r.error == Raise(BAD_REQUEST, message)
  {
    Failure(Raise(BAD_REQUEST, message))
  }

  // ---------- one rule per field: None when the field passes, else the message ----------

  /**
   * The name rule: a missing name, a name that is not a string, or one
   * that is all white space gives `missing`; then the 100-unit limit.
   */
  function NameCheck(f: Field, missing: string): (e: Option<string>)
    ensures e.None? <==> ValidName(f)
    ensures !(f.Text? && !Blank(f.s)) ==> e == Some(missing)
    ensures f.Text? && !Blank(f.s) && JsLength(f.s) > MAX_NAME_LENGTH ==> e == Some(NAME_TOO_LONG)
  {
    NameRejectedIffBlank(f);
    if NameRejected(f) then Some(missing)
    else if JsLength(f.s) > MAX_NAME_LENGTH then Some(NAME_TOO_LONG)
    else None
  }

  /** The create email rule: a missing, non-string or empty email is required; then the regular expression. */
  function CreateEmailCheck(f: Field): (e: Option<string>)
    ensures e.None? <==> ValidEmail(f)
    ensures Falsy(f) ==> e == Some(EMAIL_REQUIRED)
    ensures !Falsy(f) && !EmailPattern(f.s) ==> e == Some(EMAIL_INVALID)
  {
    if Falsy(f) then Some(EMAIL_REQUIRED)
    else if !IsEmail(f.s) then Some(EMAIL_INVALID)
    else None
  }

  /** The update email rule: a sent email must be a string of the regular expression. */
  function UpdateEmailCheck(f: Field): (e: Option<string>)
    ensures e.None? <==> f.Absent? || ValidEmail(f)
    ensures f.NonText? ==> e == Some(EMAIL_NOT_STRING)
    ensures f.Text? && !EmailPattern(f.s) ==> e == Some(EMAIL_INVALID)
  {
    if f.Absent? then None
    else if f.NonText? then Some(EMAIL_NOT_STRING)
    else if !IsEmail(f.s) then Some(EMAIL_INVALID)
    else None
  }

  /** The password rule: a missing, non-string or empty password is required; then at least 6 units. */
  function PasswordCheck(f: Field): (e: Option<string>)
    ensures e.None? <==> ValidPassword(f)
    ensures Falsy(f) ==> e == Some(PASSWORD_REQUIRED)
    ensures !Falsy(f) && !ValidPassword(f) ==> e == Some(PASSWORD_TOO_SHORT)
  {
    if Falsy(f) then Some(PASSWORD_REQUIRED)
    else if JsLength(f.s) < MIN_PASSWORD_LENGTH then Some(PASSWORD_TOO_SHORT)
    else None
  }

  /** The phone rule: a sent phone number must be a string of 10 to 15 units. */
  function PhoneCheck(f: Field): (e: Option<string>)
    ensures e.None? <==> f.Absent? || ValidPhone(f)
    ensures f.NonText? ==> e == Some(PHONE_NOT_STRING)
    ensures f.Text? && !ValidPhone(f) ==> e == Some(PHONE_LENGTH)
  {
    if f.Absent? then None
    else if f.NonText? then Some(PHONE_NOT_STRING)
    else if JsLength(f.s) < MIN_PHONE_LENGTH || JsLength(f.s) > MAX_PHONE_LENGTH then Some(PHONE_LENGTH)
    else None
  }

  /** The gender rule: a sent gender must be one of the three listed strings. */
  function GenderCheck(f: Field): (e: Option<string>)
    ensures e.None? <==> f.Absent? || ValidGender(f)
    ensures !f.Absent? && !ValidGender(f) ==> e == Some(GENDER_INVALID)
  {
    if f.Absent? then None
    else if !(f.Text? && f.s in ["male", "female", "other"]) then Some(GENDER_INVALID)
    else None
  }

  /** `validate` semantics of a chain of throwing checks: the first message found is thrown as a 400. */
  function FirstFailure(checks: seq<Option<string>>): (r: Result<(), AppError>)
    ensures r.Success? <==> forall i :: 0 <= i < |checks| ==> checks[i].None?
    ensures r.Failure? ==>
      exists i :: 0 <= i < |checks| && checks[i].Some? && (forall j :: 0 <= j < i ==> checks[j].None?)
                   && r == BadRequest(checks[i].value)
  {
    if checks == [] then Success(())
    else if checks[0].Some? then BadRequest(checks[0].value)
    else
      var r := FirstFailure(checks[1..]);
      if r.Failure? then
        var i :| 0 <= i < |checks[1..]| && checks[1..][i].Some?
          && (forall j :: 0 <= j < i ==> checks[1..][j].None?) && r == BadRequest(checks[1..][i].value);
        assert checks[i + 1].Some? && forall j :: 0 <= j < i + 1 ==> checks[j].None?;
        r
      else r
  }

  // ---------- validators ----------

  /**
   * `validateCreateUser`: name, then email, then password; the first rule
   * broken is the one reported, and the request passes only when all hold.
   */
  function ValidateCreateUser(b: CreateUserBody): (r: Result<(), AppError>)
    ensures r.Success? <==> ValidName(b.name) && ValidEmail(b.email) && ValidPassword(b.password)
    ensures !ValidName(b.name) ==> r == BadRequest(NameCheck(b.name, NAME_REQUIRED).value)
    ensures ValidName(b.name) && !ValidEmail(b.email) ==> r == BadRequest(CreateEmailCheck(b.email).value)
    ensures ValidName(b.name) && ValidEmail(b.email) && !ValidPassword(b.password) ==>
      r == BadRequest(PasswordCheck(b.password).value)
  {
    var name := NameCheck(b.name, NAME_REQUIRED);
    var email := CreateEmailCheck(b.email);
    var password := PasswordCheck(b.password);
    if name.Some? then BadRequest(name.value)
    else if email.Some? then BadRequest(email.value)
    else if password.Some? then BadRequest(password.value)
    else Success(())
  }

  /**
   * `validateUpdateUser`: every field is optional; a present name or email
   * must meet the create rules, a present phone number must have 10 to 15
   * code units and a present gender must be one of the three listed.  The
   * fields are checked in that order and the first broken rule is reported.
   */
  function ValidateUpdateUser(b: UpdateUserBody): (r: Result<(), AppError>)
    ensures r.Success? <==>
      && (b.name.Absent? || ValidName(b.name))
      && (b.email.Absent? || ValidEmail(b.email))
      && (b.phoneNumber.Absent? || ValidPhone(b.phoneNumber))
      && (b.gender.Absent? || ValidGender(b.gender))
    ensures r.Failure? ==>
      exists i :: 0 <= i < 4 && UpdateChecks(b)[i].Some? && (forall j :: 0 <= j < i ==> UpdateChecks(b)[j].None?)
                   && r == BadRequest(UpdateChecks(b)[i].value)
  {
    FirstFailure(UpdateChecks(b))
  }

  /** The update rules in the order `validateUpdateUser` applies them. */
  function UpdateChecks(b: UpdateUserBody): (checks: seq<Option<string>>)
    ensures |checks| == 4
    ensures checks[0].None? <==> b.name.Absent? || ValidName(b.name)
    ensures !b.name.Absent? ==> checks[0] == NameCheck(b.name, NAME_NOT_EMPTY)
    ensures checks[1] == UpdateEmailCheck(b.email) && checks[2] == PhoneCheck(b.phoneNumber) && checks[3] == GenderCheck(b.gender)
  {
    [if b.name.Absent? then None else NameCheck(b.name, NAME_NOT_EMPTY),
     UpdateEmailCheck(b.email), PhoneCheck(b.phoneNumber), GenderCheck(b.gender)]
  }

  /** `validateLogin`: email, then password, each a non-empty string. */
  function ValidateLogin(b: LoginBody): (r: Result<(), AppError>)
    ensures r.Success? <==> !Falsy(b.email) && !Falsy(b.password)
    ensures Falsy(b.email) ==> r == BadRequest(EMAIL_REQUIRED)
    ensures !Falsy(b.email) && Falsy(b.password) ==> r == BadRequest(PASSWORD_REQUIRED)
  {
    if Falsy(b.email) then BadRequest(EMAIL_REQUIRED)
    else if Falsy(b.password) then BadRequest(PASSWORD_REQUIRED)
    else Success(())
  }

  // ---------- relations between the validators ----------

  /** An update that sends nothing passes. */
  lemma EmptyUpdateAccepted()
    ensures ValidateUpdateUser(UpdateUserBody(Absent, Absent, Absent, Absent)).Success?
  {
  }

  /**
   * Update applies the create rules to a name and email that are sent: with
   * an acceptable password, create accepts a name and email exactly when an
   * update carrying only them does.
   */
  lemma UpdateAppliesCreateRules(name: Field, email: Field, password: Field)
    requires !name.Absent? && !email.Absent? && ValidPassword(password)
    ensures ValidateCreateUser(CreateUserBody(name, email, password)).Success?
        <==> ValidateUpdateUser(UpdateUserBody(name, email, Absent, Absent)).Success?
  {
  }

  /** Whatever registration accepts, login accepts too. */
  lemma CreateAcceptedLoginAccepted(b: CreateUserBody)
    requires ValidateCreateUser(b).Success?
    ensures ValidateLogin(LoginBody(b.email, b.password)).Success?
  {
  }
}
