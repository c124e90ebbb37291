/** The log-in / sign-up dialog: the e-mail and phone checks on the
    identifier, the verification-code input filter, and the checks run on
    submit, the demo account included. */
module Auth {
  import opened Wrappers
  import opened Text
  import Seqs
  import BookingPage

  // ---------------------------------------------------------------------------
  // Identifiers

  /** `isEmail`, the unanchored pattern `\S+@\S+\.\S+`: it matches at some
      '@' and some '.' after it. */
  predicate IsEmail(v: string) {
    exists i, j | 0 <= i < |v| && 0 <= j < |v| :: EmailAt(v, i, j)
  }

  /** The pattern matches with its '@' at `i` and its '.' at `j`: a
      non-space before the '@', a non-space after the '.', and only
      non-spaces (an '@' or '.' included) between them. */
  predicate EmailAt(v: string, i: int, j: int) {
    && 0 < i && i + 1 < j < |v| - 1
    && v[i] == '@' && v[j] == '.' && !IsJsSpace(v[i - 1]) && !IsJsSpace(v[j + 1])
    && NoSpaceBetween(v, i, j)
  }

  /** No whitespace strictly between positions `i` and `j`. */
  predicate NoSpaceBetween(v: string, i: int, j: int)
    requires 0 <= i <= j <= |v|
  {
    forall k | i < k < j :: !IsJsSpace(v[k])
  }

  /** `v.replace(/\D/g, "")`: the ASCII digits of `v`, in order. */
  function Digits(v: string): string {
    Seqs.Filter(v, IsDigit)
  }

  /** `isPhone`: the digits left after deleting every non-digit match
      `^\d{9,}$`. */
  predicate IsPhone(v: string) {
    var d := Digits(v);
    |d| >= 9 && AllDigits(d)
  }

  /** The identifier check of both forms. */
  predicate IsIdentifier(v: string) {
    IsEmail(v) || IsPhone(v)
  }

  /** A number is a phone exactly when it has at least nine digits. */
  lemma PhoneByDigitCount(v: string)
    ensures IsPhone(v) <==> |Digits(v)| >= 9
  {
    Seqs.FilterMembers(v, IsDigit);
    var d := Digits(v);
    assert forall k | 0 <= k < |d| :: d[k] in d;
  }

  /** Separators do not matter: dropping a non-digit from anywhere in the
      text leaves the phone check unchanged. */
  lemma PhoneIgnoresSeparator(before: string, c: char, after: string)
    requires !IsDigit(c)
    ensures IsPhone(before + [c] + after) == IsPhone(before + after)
  {
    Seqs.FilterConcat(before + [c], after, IsDigit);
    Seqs.FilterConcat(before, [c], IsDigit);
    Seqs.FilterConcat(before, after, IsDigit);
    assert [c][1..] == [];
    PhoneByDigitCount(before + [c] + after);
    PhoneByDigitCount(before + after);
  }

  /** Every address the bookings page accepts is an e-mail here as well. */
  lemma ValidEmailIsEmail(v: string)
    requires BookingPage.IsValidEmail(v)
    ensures IsEmail(v)
  {
    var i, j :| 0 < i && i + 1 < j < |v| - 1 && v[i] == '@' && v[j] == '.'
                && forall k | 0 <= k < |v| && k != i :: BookingPage.Plain(v[k]);
    assert BookingPage.Plain(v[i - 1]) && BookingPage.Plain(v[j + 1]);
    assert NoSpaceBetween(v, i, j) by {
      forall k | i < k < j ensures !IsJsSpace(v[k]) {
        assert BookingPage.Plain(v[k]);
      }
    }
    assert EmailAt(v, i, j);
  }

  const PADDED: string := " a@b.c"

  /** The converse fails: without anchors, surrounding text such as a
      leading space is allowed here and refused on the bookings page. */
  lemma EmailUnanchored()
    ensures IsEmail(PADDED) && !BookingPage.IsValidEmail(PADDED)
  {
    assert PADDED[2] == '@' && PADDED[4] == '.';
    assert !IsJsSpace(PADDED[1]) && !IsJsSpace(PADDED[5]) && NoSpaceBetween(PADDED, 2, 4);
    assert EmailAt(PADDED, 2, 4);
    assert !BookingPage.Plain(PADDED[0]);
  }

  /** Lower-casing keeps '@' and '.' where they are. */
  lemma LowerKeepsMarks(c: char)
    ensures LowerChar(c) == '@' <==> c == '@'
    ensures LowerChar(c) == '.' <==> c == '.'
  {
  }

  /** Whitespace is no capital letter: lower-casing leaves it alone. */
  lemma SpaceIsNotCapital(c: char)
    ensures IsJsSpace(c) ==> LowerChar(c) == c
  {
  }

  /** A character whose lower-case form is not whitespace is not
      whitespace. */
  lemma NotSpaceOfLower(c: char, d: char)
    requires d == LowerChar(c) && !IsJsSpace(d)
    ensures !IsJsSpace(c)
  {
    SpaceIsNotCapital(c);
  }

  /** A match in the lower-case form is a match in the identifier. */
  lemma EmailAtOfLower(v: string, i: int, j: int)
    requires EmailAt(Lower(v), i, j)
    ensures EmailAt(v, i, j)
  {
    var w := Lower(v);
    assert w[i] == LowerChar(v[i]) && w[j] == LowerChar(v[j]);
    assert w[i - 1] == LowerChar(v[i - 1]) && w[j + 1] == LowerChar(v[j + 1]);
    LowerKeepsMarks(v[i]);
    LowerKeepsMarks(v[j]);
    SpaceIsNotCapital(v[i - 1]);
    SpaceIsNotCapital(v[j + 1]);
    NoSpaceBetweenOfLower(v, i, j);
  }

  /** An identifier whose lower-case form is an e-mail is one itself. */
  lemma EmailOfLower(v: string)
    requires IsEmail(Lower(v))
    ensures IsEmail(v)
  {
    var i, j :| 0 <= i < |v| && 0 <= j < |v| && EmailAt(Lower(v), i, j);
    EmailAtOfLower(v, i, j);
  }

  /** No whitespace between two positions of the lower-case form means
      none there in the identifier. */
  lemma NoSpaceBetweenOfLower(v: string, i: int, j: int)
    requires 0 <= i <= j <= |v| && NoSpaceBetween(Lower(v), i, j)
    ensures NoSpaceBetween(v, i, j)
  {
    forall k | i < k < j
      ensures !IsJsSpace(v[k])
    {
      NotSpaceOfLower(v[k], Lower(v)[k]);
    }
  }

  // ---------------------------------------------------------------------------
  // The verification code

  const CODE_LENGTH: nat := 4

  /** The code field's change handler: the digits of the typed text, at
      most the first four. */
  function CodeInput(raw: string): (code: string)
    ensures |code| <= CODE_LENGTH && AllDigits(code)
    ensures |code| <= |Digits(raw)| && code == Digits(raw)[..|code|]
    ensures |code| == if |Digits(raw)| < CODE_LENGTH then |Digits(raw)| else CODE_LENGTH
  {
    var d := Digits(raw);
    Seqs.FilterMembers(raw, IsDigit);
    assert forall k | 0 <= k < |d| :: d[k] in d;
    if |d| <= CODE_LENGTH then d else d[..CODE_LENGTH]
  }

  /** Feeding the field its own value changes nothing. */
  lemma CodeInputIdempotent(raw: string)
    ensures CodeInput(CodeInput(raw)) == CodeInput(raw)
  {
    var code := CodeInput(raw);
    Seqs.FilterKeepsAll(code, IsDigit);
  }

  // ---------------------------------------------------------------------------
  // Submitting

  /** A signed-in user. */
  datatype ApiUser = ApiUser(id: int, email: string, name: string)

  const MIN_PASSWORD: nat := 6
  const MIN_NAME: nat := 2
  const INVALID_IDENTIFIER: string := "Please enter a valid email or phone."
  const SHORT_PASSWORD: string := "Password must be \U{2265} 6 chars."
  const BAD_CODE: string := "Verification code must be exactly 4 characters."
  const SHORT_NAME: string := "Please enter your name (2+ chars)."
  const PASSWORD_MISMATCH: string := "Passwords do not match."

  const DEMO_EMAIL: string := "demo@plange.app"
  const DEMO_PASSWORD: string := "pass1234"
  const DEMO_NAME: string := "Demo User"
  const DEMO_USER: ApiUser := ApiUser(1, DEMO_EMAIL, DEMO_NAME)

  /** The log-in form's checks: the first failure's message, or none. */
  function LoginError(identifier: string, password: string): (r: Option<string>)
    ensures r == Some(INVALID_IDENTIFIER) <==> !IsIdentifier(identifier)
    ensures r == Some(SHORT_PASSWORD) <==> IsIdentifier(identifier) && |password| < MIN_PASSWORD
    ensures r.None? <==> IsIdentifier(identifier) && |password| >= MIN_PASSWORD
  {
    if !IsIdentifier(identifier) then Some(INVALID_IDENTIFIER)
    else if |password| < MIN_PASSWORD then Some(SHORT_PASSWORD)
    else None
  }

  /** What submitting the log-in form leads to. */
  datatype LoginStep =
    | Refused(message: string)
    | SignedIn(user: ApiUser)       // the demo account, with no request
    | AskServer(email: string, password: string)

  /** The log-in branch of `submit`: the checks, then the demo account
      (e-mail compared lower-cased, password exactly), then the server. */
  function Login(identifier: string, password: string): (step: LoginStep)
    ensures step.Refused? <==> LoginError(identifier, password).Some?
    ensures step.Refused? ==> step.message == LoginError(identifier, password).value
    ensures step.SignedIn? <==> LoginError(identifier, password).None?
                                 && Lower(identifier) == DEMO_EMAIL && password == DEMO_PASSWORD
    ensures step.SignedIn? ==> step.user == DEMO_USER
    ensures step.AskServer? ==> step.email == identifier && step.password == password
  {
    match LoginError(identifier, password)
    case Some(message) => Refused(message)
    case None =>
      if Lower(identifier) == DEMO_EMAIL && password == DEMO_PASSWORD then SignedIn(DEMO_USER)
      else AskServer(identifier, password)
  }

  /** The demo address is an e-mail. */
  lemma DemoEmailIsEmail()
    ensures IsEmail(DEMO_EMAIL)
  {
    assert DEMO_EMAIL[4] == '@' && DEMO_EMAIL[11] == '.';
    assert !IsJsSpace(DEMO_EMAIL[3]) && !IsJsSpace(DEMO_EMAIL[12]);
    assert NoSpaceBetween(DEMO_EMAIL, 4, 11);
    assert EmailAt(DEMO_EMAIL, 4, 11);
  }

  /** The demo account signs in without a request, whatever the case of
      the typed address. */
  lemma DemoSignsIn(identifier: string)
    requires Lower(identifier) == DEMO_EMAIL
    ensures Login(identifier, DEMO_PASSWORD) == SignedIn(DEMO_USER)
  {
    DemoEmailIsEmail();
    EmailOfLower(identifier);
  }

  /** The sign-up branch of `submit`: the checks in order, then a user
      with the typed identifier and name (untrimmed); `now` is the clock's
      reading, used as the id. */
  function SignUp(identifier: string, code: string, name: string, password: string,
                  confirm: string, now: int): (r: Result<ApiUser, string>)
    ensures r == Err(INVALID_IDENTIFIER) <==> !IsIdentifier(identifier)
    ensures r == Err(BAD_CODE) <==> IsIdentifier(identifier) && |code| != CODE_LENGTH
    ensures r == Err(SHORT_NAME)
        <==> IsIdentifier(identifier) && |code| == CODE_LENGTH && |JsTrim(name)| < MIN_NAME
    ensures r == Err(SHORT_PASSWORD)
        <==> IsIdentifier(identifier) && |code| == CODE_LENGTH && |JsTrim(name)| >= MIN_NAME
             && |password| < MIN_PASSWORD
    ensures r == Err(PASSWORD_MISMATCH)
        <==> IsIdentifier(identifier) && |code| == CODE_LENGTH && |JsTrim(name)| >= MIN_NAME
             && |password| >= MIN_PASSWORD && password != confirm
    ensures r.Ok? ==> r.value == ApiUser(now, identifier, name)
  {
    if !IsIdentifier(identifier) then Err(INVALID_IDENTIFIER)
    else if |code| != CODE_LENGTH then Err(BAD_CODE)
    else if |JsTrim(name)| < MIN_NAME then Err(SHORT_NAME)
    else if |password| < MIN_PASSWORD then Err(SHORT_PASSWORD)
    else if password != confirm then Err(PASSWORD_MISMATCH)
    else Ok(ApiUser(now, identifier, name))
  }

  /** Credentials a sign-up accepts pass the log-in checks too. */
  lemma SignUpPassesLogin(identifier: string, code: string, name: string, password: string,
                          confirm: string, now: int)
    requires SignUp(identifier, code, name, password, confirm, now).Ok?
    ensures LoginError(identifier, password).None?
  {
  }

  /** A code typed with at least four digits, however it is formatted,
      passes the code check. */
  lemma TypedCodeAccepted(identifier: string, raw: string, name: string, password: string, now: int)
    requires IsIdentifier(identifier) && |Digits(raw)| >= CODE_LENGTH
    requires |JsTrim(name)| >= MIN_NAME && |password| >= MIN_PASSWORD
    ensures SignUp(identifier, CodeInput(raw), name, password, password, now).Ok?
  {
  }
}
