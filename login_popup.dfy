/** The sign-in / sign-up popup: three forms (login, register, forgot
    password), the live validity flags of the register form, the submit
    handlers, the two-stage forgot-password modal and the reset that runs when
    the popup is closed. */
module LoginPopup {
  import opened JsText

  datatype LoginInput = LoginInput(username: string, password: string)

  datatype RegisterInput = RegisterInput(
    username: string,
    email: string,
    password: string,
    repeatPassword: string)

  datatype ForgotInput = ForgotInput(
    email: string,
    password: string,
    code: string,
    showCodeInput: bool)

  const EmptyLogin := LoginInput("", "")
  const EmptyRegister := RegisterInput("", "", "", "")
  const EmptyForgot := ForgotInput("", "", "", false)

  // ---------------------------------------------------------------------------
  // Character classes of the validation regular expressions

  predicate IsAsciiUpper(c: char) { 'A' <= c <= 'Z' }
  predicate IsAsciiLower(c: char) { 'a' <= c <= 'z' }
  predicate IsAsciiLetter(c: char) { IsAsciiUpper(c) || IsAsciiLower(c) }
  /** `\d`: the ten ASCII digits only. */
  predicate IsDigit(c: char) { '0' <= c <= '9' }

  /** The members of `[!@#$%^&*()_+\-=[\]{};:\\|,.<>/?]`. */
  const SpecialChars: string := "!@#$%^&*()_+-=[]{};:\\|,.<>/?"

  /** ASCII punctuation, the characters `!` to `/`, `:` to `@`, `[` to `` ` ``
      and `{` to `~`. */
  predicate IsAsciiPunctuation(c: char)
  {
    ('!' <= c <= '/') || (':' <= c <= '@') || ('[' <= c <= '`') || ('{' <= c <= '~')
  }

  /** The special-character class holds all of ASCII punctuation except the
      three quotes and the tilde. */
  function IsSpecial(c: char): (r: bool)
    ensures r <==> IsAsciiPunctuation(c) && c != '"' && c != '\'' && c != '`' && c != '~'
  {
    c in SpecialChars
  }

  // ---------------------------------------------------------------------------
  // The regular-expression tests

  /** `/^[a-zA-Z]*$/.test(s)`: the starred class, anchored at both ends, has
      to consume the whole string. */
  function MatchesLettersOnly(s: string): (r: bool)
    ensures r <==> forall i :: 0 <= i < |s| ==> IsAsciiLetter(s[i])
    decreases |s|
  {
    |s| == 0 || (IsAsciiLetter(s[0]) && MatchesLettersOnly(s[1..]))
  }

  /** `/[…]/.test(s)` for a regular expression that is a single character
      class: unanchored, it succeeds as soon as one character is in the class. */
  function ContainsClass(s: string, inClass: char -> bool): (r: bool)
    ensures r <==> exists i :: 0 <= i < |s| && inClass(s[i])
    decreases |s|
  {
    |s| > 0 && (inClass(s[0]) || ContainsClass(s[1..], inClass))
  }

  /** A match of `\S+@\S+\.\S+` around the `@` at `at` and the `.` at `dot`.
      The first and last `\S+` may be shrunk to the single character next to
      `@` and `.`; the middle one is everything between them. */
  function EmailMatchAt(s: string, at: int, dot: int): (r: bool)
    ensures r ==> 1 <= at < dot - 1 < |s| - 2
                  && EmailShape(s, s[..at - 1], [s[at - 1]], s[at + 1..dot], [s[dot + 1]], s[dot + 2..])
  {
    && 1 <= at && at + 1 < dot && dot + 1 < |s|
    && s[at] == '@' && s[dot] == '.'
    && !IsWhitespace(s[at - 1]) && !IsWhitespace(s[dot + 1])
    && forall k :: at < k < dot ==> !IsWhitespace(s[k])
  }

  /** `/\S+@\S+\.\S+/.test(s)`: unanchored, so any text may surround the
      match. The test succeeds exactly when the string has the shape the
      pattern describes. */
  function MatchesEmail(s: string): (r: bool)
    ensures r <==> InEmailLanguage(s)
  {
    MatchOfEmailShape(s);
    exists at, dot | 0 <= at < |s| && 0 <= dot < |s| :: EmailMatchAt(s, at, dot)
  }

  /** A non-empty run of non-whitespace characters: what `\S+` matches. */
  ghost predicate NonWhitespaceRun(w: string)
  {
    |w| > 0 && forall i :: 0 <= i < |w| ==> !IsWhitespace(w[i])
  }

  /** `s` read as text, then `\S+`, `@`, `\S+`, `.`, `\S+`, then text. */
  ghost predicate EmailShape(s: string, before: string, user: string, domain: string, tld: string, after: string)
  {
    && s == before + user + "@" + domain + "." + tld + after
    && NonWhitespaceRun(user) && NonWhitespaceRun(domain) && NonWhitespaceRun(tld)
  }

  /** The strings the pattern `\S+@\S+\.\S+` finds a match in. */
  ghost predicate InEmailLanguage(s: string)
  {
    exists before, user, domain, tld, after :: EmailShape(s, before, user, domain, tld, after)
  }

  /** Where a string has the pattern's pieces, the position test matches at
      the `@` and `.` between them. */
  lemma MatchOfEmailShape(s: string)
    ensures forall before, user, domain, tld, after | EmailShape(s, before, user, domain, tld, after) ::
      EmailMatchAt(s, |before| + |user|, |before| + |user| + 1 + |domain|)
  {
  }

  // ---------------------------------------------------------------------------
  // The validity flags of the register form

  datatype Validity = Validity(
    usernameValid: bool,
    passwordLengthValid: bool,
    passwordUpperCaseValid: bool,
    passwordLowerCaseValid: bool,
    passwordDigitValid: bool,
    passwordSpecialCharValid: bool,
    repeatPasswordValid: bool,
    emailValid: bool)

  /** The flags the validation effect derives from the register form. */
  function Validate(r: RegisterInput): (v: Validity)
    ensures v.usernameValid <==>
      r.username != "" && forall i :: 0 <= i < |r.username| ==> IsAsciiLetter(r.username[i])
    ensures v.passwordLengthValid <==> |r.password| >= 8
    ensures v.passwordUpperCaseValid <==> exists i :: 0 <= i < |r.password| && IsAsciiUpper(r.password[i])
    ensures v.passwordLowerCaseValid <==> exists i :: 0 <= i < |r.password| && IsAsciiLower(r.password[i])
    ensures v.passwordDigitValid <==> exists i :: 0 <= i < |r.password| && IsDigit(r.password[i])
    ensures v.passwordSpecialCharValid <==> exists i :: 0 <= i < |r.password| && IsSpecial(r.password[i])
    ensures v.repeatPasswordValid <==> r.repeatPassword == r.password && r.repeatPassword != ""
    ensures v.emailValid <==> InEmailLanguage(r.email)
  {
    Validity(
      usernameValid := MatchesLettersOnly(r.username) && r.username != "",
      passwordLengthValid := |r.password| >= 8,
      passwordUpperCaseValid := ContainsClass(r.password, IsAsciiUpper),
      passwordLowerCaseValid := ContainsClass(r.password, IsAsciiLower),
      passwordDigitValid := ContainsClass(r.password, IsDigit),
      passwordSpecialCharValid := ContainsClass(r.password, IsSpecial),
      repeatPasswordValid := r.password == r.repeatPassword && r.repeatPassword != "",
      emailValid := MatchesEmail(r.email))
  }

  predicate AllValid(v: Validity)
  {
    && v.usernameValid && v.passwordLengthValid && v.passwordUpperCaseValid
    && v.passwordLowerCaseValid && v.passwordDigitValid && v.passwordSpecialCharValid
    && v.repeatPasswordValid && v.emailValid
  }

  /** The condition the register handler tests, in the handler's own terms:
      four non-empty fields, equal passwords and six of the flags (the
      repeat-password flag is not among them). It is exactly "every flag
      holds": the emptiness and equality tests add nothing beyond the flags,
      and passing it implies the repeat-password flag it does not test. */
  function RegisterGuard(r: RegisterInput): (g: bool)
    ensures g <==> AllValid(Validate(r))
  {
    var v := Validate(r);
    && r.username != "" && r.email != "" && r.password != "" && r.repeatPassword != ""
    && r.password == r.repeatPassword
    && v.emailValid && v.usernameValid && v.passwordLengthValid
    && v.passwordUpperCaseValid && v.passwordLowerCaseValid
    && v.passwordDigitValid && v.passwordSpecialCharValid
  }

  // ---------------------------------------------------------------------------
  // Submit handlers as transitions of the form they read

  /** What a handler reports: the text of the `alert` it raises. */
  datatype Outcome = Accepted(alert: string) | Rejected(alert: string)

  datatype Step<T> = Step(outcome: Outcome, next: T)

  /** `handleLoginSubmit`: both fields filled in is the whole test. */
  function SubmitLogin(l: LoginInput): (s: Step<LoginInput>)
    ensures s.outcome.Accepted? <==> l.username != "" && l.password != ""
    ensures s.outcome.Accepted? ==> s.next == EmptyLogin
    ensures s.outcome.Rejected? ==> s.next == l
  {
    if l.username != "" && l.password != "" then
      Step(Accepted("Login successful! (Demo mode)"), EmptyLogin)
    else
      Step(Rejected("The account details are incorrect!"), l)
  }

  /** `handleRegisterSubmit`. Accepted exactly when the username is ASCII
      letters only, the e-mail has the `\S+@\S+\.\S+` shape, the password has
      at least eight characters with an upper-case letter, a lower-case letter,
      a digit and a special character, and the repeat equals it. */
  function SubmitRegister(r: RegisterInput): (s: Step<RegisterInput>)
    ensures s.outcome.Accepted? <==>
      && r.username != ""
      && (forall i :: 0 <= i < |r.username| ==> IsAsciiLetter(r.username[i]))
      && InEmailLanguage(r.email)
      && |r.password| >= 8
      && (exists i :: 0 <= i < |r.password| && IsAsciiUpper(r.password[i]))
      && (exists i :: 0 <= i < |r.password| && IsAsciiLower(r.password[i]))
      && (exists i :: 0 <= i < |r.password| && IsDigit(r.password[i]))
      && (exists i :: 0 <= i < |r.password| && IsSpecial(r.password[i]))
      && r.repeatPassword == r.password
    ensures s.outcome.Accepted? ==> Validate(r).repeatPasswordValid
    ensures s.outcome.Accepted? ==> s.next == EmptyRegister
    ensures s.outcome.Rejected? ==> s.next == r
  {
    if RegisterGuard(r) then
      Step(Accepted("Account registered successfully! (Demo mode)"), EmptyRegister)
    else
      Step(Rejected("Please provide valid input and meet all requirements"), r)
  }

  /** `handleForgotPassword`: stage one (no code field yet) needs the e-mail
      and the password and then reveals the code field; stage two needs the
      code and then clears the form. A missing input changes nothing. */
  function SubmitForgot(f: ForgotInput): (s: Step<ForgotInput>)
    ensures !f.showCodeInput ==> (s.outcome.Accepted? <==> f.email != "" && f.password != "")
    ensures f.showCodeInput ==> (s.outcome.Accepted? <==> f.code != "")
    ensures s.outcome.Accepted? && !f.showCodeInput ==> s.next == f.(showCodeInput := true)
    ensures s.outcome.Accepted? && f.showCodeInput ==> s.next == EmptyForgot
    ensures s.outcome.Rejected? ==> s.next == f
  {
    if !f.showCodeInput then
      if f.email != "" && f.password != "" then
        Step(Accepted("Code sent to your email! (Demo mode)"), f.(showCodeInput := true))
      else
        Step(Rejected("Please enter both email and password"), f)
    else if f.code != "" then
      Step(Accepted("Password reset successful! (Demo mode)"), EmptyForgot)
    else
      Step(Rejected("Please enter the code"), f)
  }

  /** Submitting twice in a row never succeeds twice: an accepted login
      leaves empty fields behind, and a rejected one is rejected again. */
  lemma LoginNotRepeatable(l: LoginInput)
    ensures SubmitLogin(SubmitLogin(l).next).outcome == Rejected("The account details are incorrect!")
    ensures SubmitLogin(SubmitLogin(l).next).next == SubmitLogin(l).next
  {
  }

  /** Submitting twice in a row never registers twice. */
  lemma RegisterNotRepeatable(r: RegisterInput)
    ensures SubmitRegister(SubmitRegister(r).next).outcome.Rejected?
    ensures SubmitRegister(SubmitRegister(r).next).next == SubmitRegister(r).next
  {
  }

  // ---------------------------------------------------------------------------
  // Field edits: `{ ...prev, [name]: value }`

  /** An edit of the login form: only the field called `name` changes. A name
      that is no field of the form leaves every field as it was. */
  function UpdateLogin(l: LoginInput, name: string, value: string): (r: LoginInput)
    ensures r.username == if name == "username" then value else l.username
    ensures r.password == if name == "password" then value else l.password
  {
    if name == "username" then l.(username := value)
    else if name == "password" then l.(password := value)
    else l
  }

  function UpdateRegister(r: RegisterInput, name: string, value: string): (r': RegisterInput)
    ensures r'.username == if name == "username" then value else r.username
    ensures r'.email == if name == "email" then value else r.email
    ensures r'.password == if name == "password" then value else r.password
    ensures r'.repeatPassword == if name == "repeatPassword" then value else r.repeatPassword
  {
    if name == "username" then r.(username := value)
    else if name == "email" then r.(email := value)
    else if name == "password" then r.(password := value)
    else if name == "repeatPassword" then r.(repeatPassword := value)
    else r
  }

  /** The forgot-password form's text inputs are `email`, `password` and
      `code`; editing never touches the stage flag. */
  function UpdateForgot(f: ForgotInput, name: string, value: string): (r: ForgotInput)
    ensures r.email == if name == "email" then value else f.email
    ensures r.password == if name == "password" then value else f.password
    ensures r.code == if name == "code" then value else f.code
    ensures r.showCodeInput == f.showCodeInput
  {
    if name == "email" then f.(email := value)
    else if name == "password" then f.(password := value)
    else if name == "code" then f.(code := value)
    else f
  }

  /** Edits of different fields commute, and of the same field the last wins. */
  lemma RegisterEditsCommute(r: RegisterInput, a: string, x: string, b: string, y: string)
    ensures a != b ==> UpdateRegister(UpdateRegister(r, a, x), b, y) == UpdateRegister(UpdateRegister(r, b, y), a, x)
    ensures UpdateRegister(UpdateRegister(r, a, x), a, y) == UpdateRegister(r, a, y)
  {
  }

  /** The forgot-password flow end to end: with the e-mail and password filled
      in, the first submit reveals the code field, and after a code is typed the
      second submit clears the whole form. */
  lemma ForgotTwoStages(f: ForgotInput, code: string)
    requires !f.showCodeInput && f.email != "" && f.password != "" && code != ""
    ensures SubmitForgot(f).outcome.Accepted?
    ensures SubmitForgot(f).next.showCodeInput
    ensures SubmitForgot(UpdateForgot(SubmitForgot(f).next, "code", code)).outcome.Accepted?
    ensures SubmitForgot(UpdateForgot(SubmitForgot(f).next, "code", code)).next == EmptyForgot
  {
  }

  // ---------------------------------------------------------------------------
  // The component state

  class Popup {
    var isLoginTab: bool
    var showPassword: bool
    var showRepeatPassword: bool
    var showForgotModal: bool
    var loginInput: LoginInput
    var registerInput: RegisterInput
    var forgotInput: ForgotInput

    /** Every form empty and every flag at its initial value. */
    predicate IsReset()
      reads this
    {
      && isLoginTab && !showPassword && !showRepeatPassword && !showForgotModal
      && loginInput == EmptyLogin && registerInput == EmptyRegister && forgotInput == EmptyForgot
    }

    constructor ()
      ensures IsReset()
    {
      isLoginTab, showPassword, showRepeatPassword, showForgotModal := true, false, false, false;
      loginInput, registerInput, forgotInput := EmptyLogin, EmptyRegister, EmptyForgot;
    }

    /** Submitting the login form. An accepted login also asks the owner to
        close the popup (`onClose`). */
    method HandleLoginSubmit() returns (outcome: Outcome, closeRequested: bool)
      modifies this`loginInput
      ensures outcome == SubmitLogin(old(loginInput)).outcome
      ensures loginInput == SubmitLogin(old(loginInput)).next
      ensures closeRequested <==> outcome.Accepted?
    {
      var step := SubmitLogin(loginInput);
      outcome, loginInput := step.outcome, step.next;
      closeRequested := outcome.Accepted?;
    }

    /** Submitting the register form. An accepted registration also asks the
        owner to close the popup. */
    method HandleRegisterSubmit() returns (outcome: Outcome, closeRequested: bool)
      modifies this`registerInput
      ensures outcome == SubmitRegister(old(registerInput)).outcome
      ensures registerInput == SubmitRegister(old(registerInput)).next
      ensures closeRequested <==> outcome.Accepted?
    {
      var step := SubmitRegister(registerInput);
      outcome, registerInput := step.outcome, step.next;
      closeRequested := outcome.Accepted?;
    }

    /** The button of the forgot-password modal. The modal closes only when
        the second stage is accepted. */
    method HandleForgotPassword() returns (outcome: Outcome)
      modifies this`forgotInput, this`showForgotModal
      ensures outcome == SubmitForgot(old(forgotInput)).outcome
      ensures forgotInput == SubmitForgot(old(forgotInput)).next
      ensures showForgotModal == if old(forgotInput.showCodeInput) && outcome.Accepted? then false else old(showForgotModal)
    {
      var step := SubmitForgot(forgotInput);
      if forgotInput.showCodeInput && step.outcome.Accepted? {
        showForgotModal := false;
      }
      outcome, forgotInput := step.outcome, step.next;
    }

    /** A keystroke in input `name` of the form selected by `formType`; any
        other `formType` changes nothing. */
    method HandleInput(formType: string, name: string, value: string)
      modifies this`loginInput, this`registerInput, this`forgotInput
      ensures loginInput == if formType == "login" then UpdateLogin(old(loginInput), name, value) else old(loginInput)
      ensures registerInput == if formType == "register" then UpdateRegister(old(registerInput), name, value) else old(registerInput)
      ensures forgotInput == if formType == "forgot" then UpdateForgot(old(forgotInput), name, value) else old(forgotInput)
    {
      if formType == "login" {
        loginInput := UpdateLogin(loginInput, name, value);
      } else if formType == "register" {
        registerInput := UpdateRegister(registerInput, name, value);
      } else if formType == "forgot" {
        forgotInput := UpdateForgot(forgotInput, name, value);
      }
    }

    /** The "Forgot your password?" link. */
    method OpenForgotModal()
      modifies this`showForgotModal
      ensures showForgotModal
    {
      showForgotModal := true;
    }

    /** The close button of the forgot-password modal. */
    method CancelForgotModal()
      modifies this`showForgotModal, this`forgotInput
      ensures !showForgotModal && forgotInput == EmptyForgot
    {
      showForgotModal := false;
      forgotInput := EmptyForgot;
    }

    /** The two tab headers. */
    method SelectTab(login: bool)
      modifies this`isLoginTab
      ensures isLoginTab == login
    {
      isLoginTab := login;
    }

    /** The eye buttons of the password fields. */
    method ToggleShowPassword()
      modifies this`showPassword
      ensures showPassword == !old(showPassword)
    {
      showPassword := !showPassword;
    }

    method ToggleShowRepeatPassword()
      modifies this`showRepeatPassword
      ensures showRepeatPassword == !old(showRepeatPassword)
    {
      showRepeatPassword := !showRepeatPassword;
    }

    /** The effect that runs whenever `isOpen` changes: closing the popup puts
        every form and flag back to its initial value; opening it changes nothing. */
    method OnOpenChanged(isOpen: bool)
      modifies this
      ensures !isOpen ==> IsReset()
      ensures isOpen ==> unchanged(this)
    {
      if !isOpen {
        isLoginTab, showPassword, showRepeatPassword, showForgotModal := true, false, false, false;
        loginInput, registerInput, forgotInput := EmptyLogin, EmptyRegister, EmptyForgot;
      }
    }
  }

  // ---------------------------------------------------------------------------
  // Scenarios

  /** A registration that meets every rule, typed field by field and
      submitted: it is accepted and the form is cleared. */
  method RegisterScenario() returns (outcome: Outcome, cleared: bool)
    ensures outcome == Accepted("Account registered successfully! (Demo mode)")
    ensures cleared
  {
    var popup := new Popup();
    popup.SelectTab(false);
    popup.HandleInput("register", "username", "Alice");
    popup.HandleInput("register", "email", "alice@example.com");
    popup.HandleInput("register", "password", "Passw0rd!");
    popup.HandleInput("register", "repeatPassword", "Passw0rd!");
    ExampleRegistrationAccepted();
    var close;
    outcome, close := popup.HandleRegisterSubmit();
    cleared := popup.registerInput == EmptyRegister;
  }

  /** The forgot-password modal walked through both stages. */
  method ForgotScenario() returns (first: Outcome, second: Outcome, modalOpen: bool)
    ensures first == Accepted("Code sent to your email! (Demo mode)")
    ensures second == Accepted("Password reset successful! (Demo mode)")
    ensures !modalOpen
  {
    var popup := new Popup();
    popup.OpenForgotModal();
    popup.HandleInput("forgot", "email", "alice@example.com");
    popup.HandleInput("forgot", "password", "Passw0rd!");
    first := popup.HandleForgotPassword();
    popup.HandleInput("forgot", "code", "123456");
    second := popup.HandleForgotPassword();
    modalOpen := popup.showForgotModal;
  }

  /** A worked instance of the register rules. */
  lemma ExampleRegistrationAccepted()
    ensures SubmitRegister(RegisterInput("Alice", "alice@example.com", "Passw0rd!", "Passw0rd!")).outcome.Accepted?
  {
    var r := RegisterInput("Alice", "alice@example.com", "Passw0rd!", "Passw0rd!");
    ExampleEmail();
    ExamplePassword();
    assert forall i :: 0 <= i < |r.username| ==> IsAsciiLetter(r.username[i]);
  }

  lemma ExampleEmail()
    ensures InEmailLanguage("alice@example.com")
  {
    var email := "alice@example.com";
    assert EmailMatchAt(email, 5, 13);
    assert MatchesEmail(email);
  }

  lemma ExamplePassword()
    ensures var p := "Passw0rd!";
      && |p| >= 8
      && (exists i :: 0 <= i < |p| && IsAsciiUpper(p[i]))
      && (exists i :: 0 <= i < |p| && IsAsciiLower(p[i]))
      && (exists i :: 0 <= i < |p| && IsDigit(p[i]))
      && (exists i :: 0 <= i < |p| && IsSpecial(p[i]))
  {
    var p := "Passw0rd!";
    assert IsAsciiUpper(p[0]) && IsAsciiLower(p[1]);
    assert IsDigit(p[5]) && IsSpecial(p[8]);
  }

  /** The e-mail test is unanchored: text may surround the address. */
  lemma EmailUnanchored()
    ensures InEmailLanguage("write to a@b.c today")
  {
    var s := "write to a@b.c today";
    assert EmailMatchAt(s, 10, 12);
    assert MatchesEmail(s);
  }

  /** The e-mail test needs text after the `.` and no whitespace next to `@`
      or between `@` and `.`. */
  lemma EmailRejections()
    ensures !InEmailLanguage("a@b.")
    ensures !InEmailLanguage("a @b.c")
    ensures !InEmailLanguage("a@b .c")
  {
    assert !MatchesEmail("a@b.");
    var early := "a @b.c";
    forall at, dot | 0 <= at < |early| && 0 <= dot < |early|
      ensures !EmailMatchAt(early, at, dot)
    {
      assert IsWhitespace(early[1]);
    }
    assert !MatchesEmail(early);
    var spaced := "a@b .c";
    forall at, dot | 0 <= at < |spaced| && 0 <= dot < |spaced|
      ensures !EmailMatchAt(spaced, at, dot)
    {
      assert IsWhitespace(spaced[3]);
    }
    assert !MatchesEmail(spaced);
  }
}
