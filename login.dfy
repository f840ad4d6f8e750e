/**
 * The login page: a credentials form that always moves on to a two-factor
 * step, and a two-factor step that logs in on the demo code only.
 */
module Login {
  import opened Store

  /** The code the two-factor step accepts. */
  const DemoCode: string := "123456"

  /** The page's fields. */
  datatype LoginForm = LoginForm(
    email: string, password: string, rememberMe: bool, showTwoFactor: bool, twoFactorCode: string)

  /** The page opens on the credentials form, pre-filled with the demo account. */
  const InitialForm: LoginForm := LoginForm("demo@company.com", "Demo123!", false, false, "")

  /** What the user can do on the page. */
  datatype Event =
    | EmailInput(email: string)
    | PasswordInput(password: string)
    | RememberInput(remember: bool)
    | CodeInput(code: string)
    | SubmitCredentials
    | SubmitCode

  /**
   * Whether the page offers the event: the credentials form and the code form
   * are shown one at a time, switched by `showTwoFactor`.
   */
  predicate Offered(f: LoginForm, e: Event) {
    match e
    case CodeInput(_) => f.showTwoFactor
    case SubmitCode => f.showTwoFactor
    case _ => !f.showTwoFactor
  }

  /**
   * The fields after one event. An event the current step does not offer
   * changes nothing; submitting the code changes no field.
   */
  function Next(f: LoginForm, e: Event): (g: LoginForm)
    ensures !Offered(f, e) ==> g == f
    ensures e.SubmitCredentials? ==> g == f.(showTwoFactor := true)
    ensures e.SubmitCode? ==> g == f
    ensures g.showTwoFactor == (f.showTwoFactor || e.SubmitCredentials?)
  {
    if !Offered(f, e) then f else
    match e
    case EmailInput(s) => f.(email := s)
    case PasswordInput(s) => f.(password := s)
    case RememberInput(b) => f.(rememberMe := b)
    case CodeInput(s) => f.(twoFactorCode := s)
    case SubmitCredentials => f.(showTwoFactor := true)
    case SubmitCode => f
  }

  /**
   * Whether the event calls the store's `login`: a code submission, on the
   * two-factor step, holding the demo code.
   */
  predicate CallsLogin(f: LoginForm, e: Event) {
    f.showTwoFactor && e.SubmitCode? && f.twoFactorCode == DemoCode
  }

  /** The fields after a sequence of events. */
  function Run(f: LoginForm, events: seq<Event>): LoginForm
    decreases |events|
  {
    if events == [] then f else Run(Next(f, events[0]), events[1..])
  }

  /** Whether any event of the sequence calls `login`. */
  predicate LoggedIn(f: LoginForm, events: seq<Event>)
    decreases |events|
  {
    events != [] && (CallsLogin(f, events[0]) || LoggedIn(Next(f, events[0]), events[1..]))
  }

  /** Once on the two-factor step, no sequence of events leads back to the credentials form. */
  lemma {:induction false} NoWayBack(f: LoginForm, events: seq<Event>)
    requires f.showTwoFactor
    ensures Run(f, events).showTwoFactor
    decreases |events|
  {
    if events != [] {
      NoWayBack(Next(f, events[0]), events[1..]);
    }
  }

  /** The two-factor step is reached exactly when credentials were submitted at some point. */
  lemma {:induction false} TwoFactorReached(f: LoginForm, events: seq<Event>)
    ensures Run(f, events).showTwoFactor <==> f.showTwoFactor || SubmitCredentials in events
    decreases |events|
  {
    if events != [] {
      TwoFactorReached(Next(f, events[0]), events[1..]);
      assert events == [events[0]] + events[1..];
    }
  }

  /**
   * Logging in needs the demo code: it was typed at some point, or it was
   * already in the field.
   */
  lemma {:induction false} LoginNeedsCode(f: LoginForm, events: seq<Event>)
    requires LoggedIn(f, events)
    ensures f.twoFactorCode == DemoCode || CodeInput(DemoCode) in events
    decreases |events|
  {
    if !CallsLogin(f, events[0]) {
      LoginNeedsCode(Next(f, events[0]), events[1..]);
      assert events == [events[0]] + events[1..];
    }
  }

  /**
   * Logging in goes through both steps: unless the code step was already
   * shown, the credentials were submitted first.
   */
  lemma {:induction false} LoginNeedsTwoSteps(f: LoginForm, events: seq<Event>)
    requires LoggedIn(f, events)
    ensures f.showTwoFactor || SubmitCredentials in events
    decreases |events|
  {
    if !CallsLogin(f, events[0]) {
      LoginNeedsTwoSteps(Next(f, events[0]), events[1..]);
      assert events == [events[0]] + events[1..];
    }
  }

  /** From the opening state, typing the demo code and submitting it logs in. */
  lemma DemoCodeLogsIn()
    ensures LoggedIn(InitialForm, [SubmitCredentials, CodeInput(DemoCode), SubmitCode])
  {
    var events := [SubmitCredentials, CodeInput(DemoCode), SubmitCode];
    var f1 := Next(InitialForm, events[0]);
    var f2 := Next(f1, events[1]);
    assert CallsLogin(f2, events[2]);
    assert events[1..][1..] == [SubmitCode];
  }

  /** The page's state, with the store it logs into. */
  class LoginPage {
    const store: KPIStore
    var email: string
    var password: string
    var rememberMe: bool
    var showTwoFactor: bool
    var twoFactorCode: string

    constructor (store: KPIStore)
      ensures this.store == store && Form() == InitialForm
    {
      this.store := store;
      email := "demo@company.com";
      password := "Demo123!";
      rememberMe := false;
      showTwoFactor := false;
      twoFactorCode := "";
    }

    function Form(): LoginForm
      reads this
    {
      LoginForm(email, password, rememberMe, showTwoFactor, twoFactorCode)
    }

    method SetEmail(s: string)
      requires !showTwoFactor
      modifies this
      ensures Form() == Next(old(Form()), EmailInput(s))
    {
      email := s;
    }

    method SetPassword(s: string)
      requires !showTwoFactor
      modifies this
      ensures Form() == Next(old(Form()), PasswordInput(s))
    {
      password := s;
    }

    method SetRememberMe(b: bool)
      requires !showTwoFactor
      modifies this
      ensures Form() == Next(old(Form()), RememberInput(b))
    {
      rememberMe := b;
    }

    method SetTwoFactorCode(s: string)
      requires showTwoFactor
      modifies this
      ensures Form() == Next(old(Form()), CodeInput(s))
    {
      twoFactorCode := s;
    }

    /** `handleLogin`: email and password are not checked. */
    method HandleLogin()
      requires !showTwoFactor
      modifies this
      ensures Form() == Next(old(Form()), SubmitCredentials)
    {
      showTwoFactor := true;
    }

    /** `handleTwoFactorSubmit`: the store's `login` runs on the demo code; any other code changes nothing. */
    method HandleTwoFactorSubmit()
      requires showTwoFactor
      modifies store
      ensures CallsLogin(Form(), SubmitCode) ==> store.isAuthenticated
      ensures !CallsLogin(Form(), SubmitCode) ==> store.isAuthenticated == old(store.isAuthenticated)
      ensures store.kpiData == old(store.kpiData) && store.selectedArea == old(store.selectedArea)
    {
      if twoFactorCode == DemoCode {
        store.Login();
      }
    }
  }
}
