/**
 * The sign-in screen: one form in three modes (sign in, sign up, reset password). Pressing
 * the main button checks the email and the password in a fixed order and reports only the
 * first failure; when every check passes the mode's request goes to the authentication
 * service, whose answer is a parameter here. The success dialogs of sign-up and reset lead
 * back to sign in once confirmed.
 */
module AuthScreen {
  import opened JsText

  datatype AuthMode = SignIn | SignUp | Reset

  const EmailRequired := "Please enter your email"
  const EmailInvalid := "Please enter a valid email address"
  const PasswordRequired := "Please enter your password"
  const PasswordTooShort := "Password must be at least 6 characters long"
  const MinPasswordLength := 6

  /** A run of the character class `[^\s@]+`: not empty, no white space, no `@`. */
  predicate EmailPart(x: string) {
    x != [] && forall i :: 0 <= i < |x| ==> !IsSpace(x[i]) && x[i] != '@'
  }

  /** `/^[^\s@]+@[^\s@]+\.[^\s@]+$/.test(s)`: the text is a run, an `@`, a run, a dot and a
      run, the dot being any one that leaves runs on both of its sides. */
  predicate MatchesEmailPattern(s: string) {
    exists i, k :: 0 <= i < k < |s| && s[i] == '@' && s[k] == '.'
      && EmailPart(s[..i]) && EmailPart(s[i + 1..k]) && EmailPart(s[k + 1..])
  }

  /** The same condition read from left to right: a run before the first `@`, and after it a
      run with a dot somewhere strictly inside. */
  predicate EmailShape(s: string) {
    var i := IndexOf(s, '@');
    var domain := s[i + 1..];
    && i > 0 && EmailPart(s[..i]) && EmailPart(domain)
    && |domain| >= 3 && '.' in domain[1..|domain| - 1]
  }

  /** The pattern matches exactly the texts of that shape. */
  lemma EmailPatternShape(s: string)
    ensures MatchesEmailPattern(s) <==> EmailShape(s)
  {
    if MatchesEmailPattern(s) {
      var i, k :| 0 <= i < k < |s| && s[i] == '@' && s[k] == '.'
        && EmailPart(s[..i]) && EmailPart(s[i + 1..k]) && EmailPart(s[k + 1..]);
      PatternGivesShape(s, i, k);
    }
    if EmailShape(s) {
      ShapeGivesPattern(s);
    }
  }

  lemma PatternGivesShape(s: string, i: nat, k: nat)
    requires i < k < |s| && s[i] == '@' && s[k] == '.'
    requires EmailPart(s[..i]) && EmailPart(s[i + 1..k]) && EmailPart(s[k + 1..])
    ensures EmailShape(s)
  {
    FirstAt(s, i);
    var domain := s[i + 1..];
    var j := k - (i + 1);
    assert domain == s[i + 1..k] + [s[k]] + s[k + 1..];
    PartAround(s[i + 1..k], s[k + 1..]);
    assert domain[1..|domain| - 1][j - 1] == '.';
  }

  lemma ShapeGivesPattern(s: string)
    requires EmailShape(s)
    ensures MatchesEmailPattern(s)
  {
    var i := IndexOf(s, '@');
    var domain := s[i + 1..];
    var inner := domain[1..|domain| - 1];
    var j :| 0 <= j < |inner| && inner[j] == '.';
    var k := i + 2 + j;
    assert s[k] == '.';
    PartSlice(domain, 0, j + 1);
    PartSlice(domain, j + 2, |domain|);
    assert s[i + 1..k] == domain[..j + 1];
    assert s[k + 1..] == domain[j + 2..];
    assert 0 <= i < k < |s| && s[i] == '@' && s[k] == '.'
      && EmailPart(s[..i]) && EmailPart(s[i + 1..k]) && EmailPart(s[k + 1..]);
  }

  /** The first `@` of a text whose prefix before `i` is a run is the one at `i`. */
  lemma FirstAt(s: string, i: nat)
    requires i < |s| && s[i] == '@' && EmailPart(s[..i])
    ensures IndexOf(s, '@') == i
  {
  }

  /** Two runs around a dot make a run. */
  lemma PartAround(a: string, b: string)
    requires EmailPart(a) && EmailPart(b)
    ensures EmailPart(a + ['.'] + b)
  {
    var x := a + ['.'] + b;
    forall n | 0 <= n < |x| ensures !IsSpace(x[n]) && x[n] != '@' {
      if n < |a| {
        assert x[n] == a[n];
      } else if n > |a| {
        assert x[n] == b[n - |a| - 1];
      }
    }
  }

  lemma PartSlice(x: string, lo: nat, hi: nat)
    requires EmailPart(x) && lo < hi <= |x|
    ensures EmailPart(x[lo..hi])
  {
    forall n | 0 <= n < hi - lo ensures !IsSpace(x[lo..hi][n]) && x[lo..hi][n] != '@' {
      assert x[lo..hi][n] == x[lo + n];
    }
  }

  /** What pressing the main button leads to. */
  datatype Check = Passed | Refused(message: string)

  /** The checks of `handleAuth`, in order: an email that trims to nothing, an email whose
      trimmed text does not match the pattern, then (outside reset mode) a password that trims
      to nothing, then (in sign-up mode) a password shorter than six characters. */
  function Validate(mode: AuthMode, email: string, password: string): Check {
    if Trim(email) == [] then Refused(EmailRequired)
    else if !MatchesEmailPattern(Trim(email)) then Refused(EmailInvalid)
    else if mode != Reset && Trim(password) == [] then Refused(PasswordRequired)
    else if mode == SignUp && |password| < MinPasswordLength then Refused(PasswordTooShort)
    else Passed
  }

  /** Each refusal happens exactly when its check is the first to fail. */
  lemma ValidateOrder(mode: AuthMode, email: string, password: string)
    ensures var r := Validate(mode, email, password);
      && (r == Refused(EmailRequired) <==> IsBlank(email))
      && (r == Refused(EmailInvalid) <==> !IsBlank(email) && !MatchesEmailPattern(Trim(email)))
      && (r == Refused(PasswordRequired) <==>
            !IsBlank(email) && MatchesEmailPattern(Trim(email)) && mode != Reset && IsBlank(password))
      && (r == Refused(PasswordTooShort) <==>
            !IsBlank(email) && MatchesEmailPattern(Trim(email)) && mode == SignUp
            && !IsBlank(password) && |password| < MinPasswordLength)
      && (r == Passed <==>
            !IsBlank(email) && MatchesEmailPattern(Trim(email))
            && (mode != Reset ==> !IsBlank(password))
            && (mode == SignUp ==> |password| >= MinPasswordLength))
  {
    TrimFacts(email);
    TrimFacts(password);
  }

  /** Reset mode never looks at the password. */
  lemma ResetIgnoresPassword(email: string, password1: string, password2: string)
    ensures Validate(Reset, email, password1) == Validate(Reset, email, password2)
  {
  }

  /** The request sent once the checks pass: the trimmed email and the password as typed. */
  datatype Request = SignInRequest(email: string, password: string)
                   | SignUpRequest(email: string, password: string)
                   | ResetRequest(email: string)

  function RequestFor(mode: AuthMode, email: string, password: string): Request {
    match mode
    case SignIn => SignInRequest(Trim(email), password)
    case SignUp => SignUpRequest(Trim(email), password)
    case Reset => ResetRequest(Trim(email))
  }

  /** The outcome of pressing the main button: a refusal (no request is made), or the request
      and whether the service accepted it. */
  datatype Outcome = NotSent(message: string) | Sent(request: Request, ok: bool)

  function Attempt(mode: AuthMode, email: string, password: string, serviceOk: bool): (r: Outcome)
    ensures r.NotSent? <==> Validate(mode, email, password).Refused?
    ensures r.Sent? ==> r.request == RequestFor(mode, email, password) && r.ok == serviceOk
  {
    match Validate(mode, email, password)
    case Refused(message) => NotSent(message)
    case Passed => Sent(RequestFor(mode, email, password), serviceOk)
  }

  /** A request carries an email that matches the pattern, and its kind follows the mode. */
  lemma SentRequestValid(mode: AuthMode, email: string, password: string, serviceOk: bool)
    requires Attempt(mode, email, password, serviceOk).Sent?
    ensures var q := Attempt(mode, email, password, serviceOk).request;
      && MatchesEmailPattern(q.email)
      && (q.SignInRequest? <==> mode == SignIn)
      && (q.SignUpRequest? <==> mode == SignUp)
      && (q.SignUpRequest? ==> |q.password| >= MinPasswordLength && !IsBlank(q.password))
  {
    ValidateOrder(mode, email, password);
  }

  /** The success dialog that is open, if any; confirming it runs its `onPress`. */
  datatype Notice = NoNotice | AccountCreated | ResetEmailSent

  function NoticeAfter(mode: AuthMode, r: Outcome): Notice {
    if r.Sent? && r.ok && mode == SignUp then AccountCreated
    else if r.Sent? && r.ok && mode == Reset then ResetEmailSent
    else NoNotice
  }

  /** The screen's state. */
  class AuthForm {
    var mode: AuthMode
    var email: string
    var password: string
    var loading: bool
    var notice: Notice

    constructor ()
      ensures mode == SignIn && email == "" && password == "" && !loading && notice == NoNotice
    {
      mode, email, password, loading, notice := SignIn, "", "", false, NoNotice;
    }

    method EditEmail(text: string)
      modifies this`email
      ensures email == text
    {
      email := text;
    }

    method EditPassword(text: string)
      modifies this`password
      ensures password == text
    {
      password := text;
    }

    /** The mode links: "Forgot password?" and "Sign Up" are shown in sign-in mode, "Sign In"
        in the other two. The fields are kept. */
    method SwitchMode(target: AuthMode)
      requires !loading
      requires mode == SignIn ==> target != SignIn
      requires mode != SignIn ==> target == SignIn
      modifies this`mode
      ensures mode == target
    {
      mode := target;
    }

    /** `handleAuth`: the checks, then the request; loading is over afterwards whatever
        happened, and a successful sign-up or reset opens its dialog. The fields are kept. */
    method HandleAuth(serviceOk: bool) returns (r: Outcome)
      modifies this`loading, this`notice
      ensures r == Attempt(mode, email, password, serviceOk)
      ensures !loading
      ensures notice == (if r.NotSent? then old(notice) else NoticeAfter(mode, r))
    {
      var check := Validate(mode, email, password);
      if check.Refused? {
        r := NotSent(check.message);
        loading := false;
        return;
      }
      loading := true;
      r := Sent(RequestFor(mode, email, password), serviceOk);
      notice := NoticeAfter(mode, r);
      loading := false;
    }

    /** Pressing OK in a dialog: after sign-up the mode returns to sign in and the password is
        cleared; after a reset only the mode returns to sign in. The email is kept. */
    method Confirm()
      modifies this`mode, this`password, this`notice
      ensures notice == NoNotice
      ensures old(notice) == AccountCreated ==> mode == SignIn && password == ""
      ensures old(notice) == ResetEmailSent ==> mode == SignIn && password == old(password)
      ensures old(notice) == NoNotice ==> mode == old(mode) && password == old(password)
    {
      match notice {
        case AccountCreated =>
          mode := SignIn;
          password := "";
        case ResetEmailSent =>
          mode := SignIn;
        case NoNotice =>
      }
      notice := NoNotice;
    }
  }
}
