/**
 * The login page: the role hint read from the query string, and the submit
 * handler's sequence of state updates and effects for either outcome of the
 * login request.
 */
module LoginPage {
  import opened Wrappers
  import opened Text
  import opened Session
  import opened Api
  import opened Steps

  /** `location.search.includes('role=agent')`. */
  function IsAgentLogin(search: string): (r: bool)
    ensures r <==> Occurs(search, "role=agent")
  {
    Includes(search, "role=agent")
  }

  /** The role line shown above the form. */
  function RoleText(search: string): (r: string)
    ensures r == "Owner / Agent" <==> Occurs(search, "role=agent")
    ensures r == "Buyer / Owner" <==> !Occurs(search, "role=agent")
  {
    if IsAgentLogin(search) then "Owner / Agent" else "Buyer / Owner"
  }

  /** What the login request returns on success: `{ user, access_token }`. */
  datatype LoginData = LoginData(user: User, accessToken: string)

  /** The credentials the form submits; their fields are the form's business. */
  type Credentials = map<string, string>

  /** The page's own state. */
  datatype State = State(error: Option<string>, loading: bool)

  const InitialState := State(None, false)

  const LoginFallback := "Login failed. Please check your credentials."

  /** The steps `handleLogin` takes, in order. */
  datatype Step =
    | SetLoading(on: bool)
    | SetError(error: Option<string>)
    | CallLogin(credentials: Credentials)
    | SaveSession(user: User, token: string)
    | Go(nav: Navigation)

  /** One step's effect on the page state; calls and navigation leave it alone. */
  function Update(s: State, step: Step): State {
    match step
    case SetLoading(on) => s.(loading := on)
    case SetError(e) => s.(error := e)
    case _ => s
  }

  /** The page state after a list of steps. */
  function Apply(s: State, steps: seq<Step>): State {
    Run(Update, s, steps)
  }

  /** What happens in the `try` block after the request has resolved: it runs to
      the end, or reading `data.user` throws (an empty response) before the
      context's `login` is called, or that `login` call itself throws. A throw
      lands in the same `catch` as a failed request. */
  datatype AfterResolve =
    | Completes
    | DataUnreadable(message: string)
    | LoginThrows(message: string)

  /** The whole `try` block runs without throwing. */
  predicate Succeeds(outcome: Outcome<LoginData>, after: AfterResolve) {
    outcome.Resolved? && after.Completes?
  }

  /** The message of whatever the `catch` receives. */
  function ThrownMessage(outcome: Outcome<LoginData>, after: AfterResolve): string
    requires !Succeeds(outcome, after)
  {
    if outcome.Rejected? then outcome.message else after.message
  }

  /** `handleLogin`: show the spinner and clear the error, call the API, then either
      store the session and go home (replacing the history entry) or, when anything
      in the `try` block throws, show the error; the spinner is turned off in every
      case. A `login` call that throws has already been made, but nothing after it
      runs. */
  function HandleLogin(credentials: Credentials, outcome: Outcome<LoginData>, after: AfterResolve): (r: seq<Step>)
    ensures 5 <= |r| <= 6
    ensures r[0] == SetLoading(true) && r[1] == SetError(None)
    ensures r[2] == CallLogin(credentials)
    ensures r[|r| - 1] == SetLoading(false)
    ensures Succeeds(outcome, after) ==>
      r[3] == SaveSession(outcome.value.user, outcome.value.accessToken) &&
      r[4] == Go(Navigation("/", true))
    ensures !Succeeds(outcome, after) ==>
      r[|r| - 2] == SetError(Some(ErrorText(ThrownMessage(outcome, after), LoginFallback))) &&
      forall k | 0 <= k < |r| :: !r[k].Go?
    ensures (exists k | 0 <= k < |r| :: r[k].SaveSession?) <==> outcome.Resolved? && !after.DataUnreadable?
  {
    var start := [SetLoading(true), SetError(None), CallLogin(credentials)];
    var body := match outcome
      case Rejected(message) => [SetError(Some(ErrorText(message, LoginFallback)))]
      case Resolved(data) =>
        match after
        case Completes => [SaveSession(data.user, data.accessToken), Go(Navigation("/", true))]
        case DataUnreadable(message) => [SetError(Some(ErrorText(message, LoginFallback)))]
        case LoginThrows(message) =>
          [SaveSession(data.user, data.accessToken), SetError(Some(ErrorText(message, LoginFallback)))];
    var r := start + body + [SetLoading(false)];
    assert outcome.Resolved? && !after.DataUnreadable? ==> r[3].SaveSession?;
    r
  }

  /** After the handler has run, from any state: the spinner is off, and an error is
      set exactly when something in the `try` block threw, with that error's
      message or the fallback text; since the fallback is not empty, the banner
      then renders. */
  lemma LoginSettles(s: State, credentials: Credentials, outcome: Outcome<LoginData>, after: AfterResolve)
    ensures !Apply(s, HandleLogin(credentials, outcome, after)).loading
    ensures Apply(s, HandleLogin(credentials, outcome, after)).error.None? <==> Succeeds(outcome, after)
    ensures Shown(Apply(s, HandleLogin(credentials, outcome, after)).error) <==> !Succeeds(outcome, after)
    ensures !Succeeds(outcome, after) ==>
      Apply(s, HandleLogin(credentials, outcome, after)).error ==
        Some(ErrorText(ThrownMessage(outcome, after), LoginFallback))
  {
    var r := HandleLogin(credentials, outcome, after);
    var start := r[..3];
    var body := r[3..|r| - 1];
    assert r == start + body + [SetLoading(false)];
    RunConcat(Update, s, start + body, [SetLoading(false)]);
    RunOne(Update, Apply(s, start + body), SetLoading(false));
    RunConcat(Update, s, start, body);
    var s1 := Apply(s, start);
    assert s1.error == None by {
      assert start == [SetLoading(true), SetError(None)] + [CallLogin(credentials)];
      RunConcat(Update, s, [SetLoading(true), SetError(None)], [CallLogin(credentials)]);
      RunOne(Update, Apply(s, [SetLoading(true), SetError(None)]), CallLogin(credentials));
      assert [SetLoading(true), SetError(None)] == [SetLoading(true)] + [SetError(None)];
      RunConcat(Update, s, [SetLoading(true)], [SetError(None)]);
      RunOne(Update, s, SetLoading(true));
      RunOne(Update, Update(s, SetLoading(true)), SetError(None));
    }
    if |body| == 2 {
      assert body == [body[0]] + [body[1]];
      RunConcat(Update, s1, [body[0]], [body[1]]);
      RunOne(Update, s1, body[0]);
      RunOne(Update, Update(s1, body[0]), body[1]);
    } else {
      RunOne(Update, s1, body[0]);
    }
  }

  /** The error banner, which renders only for a non-empty error, is up after the
      handler exactly when something in the `try` block threw; a failed request
      always raises it. */
  lemma LoginBannerIffThrown(s: State, credentials: Credentials, outcome: Outcome<LoginData>, after: AfterResolve)
    ensures Shown(Apply(s, HandleLogin(credentials, outcome, after)).error) <==> !Succeeds(outcome, after)
    ensures outcome.Rejected? ==> Shown(Apply(s, HandleLogin(credentials, outcome, after)).error)
  {
    LoginSettles(s, credentials, outcome, after);
  }
}
