/**
 * The registration page: the selected role (set by the Buyer/Owner switch), the
 * payload sent to the backend, and the submit handler's steps for either outcome
 * of the registration request.
 */
module RegisterPage {
  import opened Wrappers
  import opened Session
  import opened Api
  import opened Steps
  import RegisterToggle
  import Navbar

  /** The fields the registration form submits; the form itself is not modelled. */
  type FormData = map<string, string>

  datatype State = State(error: Option<string>, success: bool, loading: bool, role: string)

  /** No error, no success banner, idle, and the role `user` selected. */
  const InitialState := State(None, false, false, RegisterToggle.UserRole)

  const RegisterFallback := "Registration failed. Check network or if email exists."

  /** The switch reported a role (`onSelect={setRole}`). */
  function SelectRole(s: State, role: string): (r: State)
    ensures r.role == role
    ensures r.error == s.error && r.success == s.success && r.loading == s.loading
  {
    s.(role := role)
  }

  /** `{ ...formData, role }`: the form's fields with `role` set to the selected role. */
  function Payload(form: FormData, role: string): (r: FormData)
    ensures r.Keys == form.Keys + {"role"}
    ensures r["role"] == role
    ensures forall k | k in form && k != "role" :: r[k] == form[k]
  {
    form["role" := role]
  }

  datatype Step =
    | SetLoading(on: bool)
    | SetError(error: Option<string>)
    | SetSuccess(on: bool)
    | CallRegister(payload: FormData)
    | GoLater(nav: Navigation)

  function Update(s: State, step: Step): State {
    match step
    case SetLoading(on) => s.(loading := on)
    case SetError(e) => s.(error := e)
    case SetSuccess(on) => s.(success := on)
    case _ => s
  }

  function Apply(s: State, steps: seq<Step>): State {
    Run(Update, s, steps)
  }

  /** `handleRegister`: reset the banner and error and show the spinner, send the
      payload, then either show success and schedule the move to the login page
      (replacing the history entry) or show the error and no success; the spinner
      is turned off in every case. */
  function HandleRegister(s: State, form: FormData, outcome: Outcome<()>): (r: seq<Step>)
    ensures |r| == 7
    ensures r[..3] == [SetLoading(true), SetError(None), SetSuccess(false)]
    ensures r[3] == CallRegister(Payload(form, s.role))
    ensures r[6] == SetLoading(false)
    ensures outcome.Resolved? ==>
      r[4] == SetSuccess(true) && r[5] == GoLater(Navigation(Navbar.LoginPath, true))
    ensures outcome.Rejected? ==>
      r[4] == SetError(Some(ErrorText(outcome.message, RegisterFallback))) &&
      r[5] == SetSuccess(false) &&
      forall k | 0 <= k < |r| :: !r[k].GoLater?
  {
    var userData := Payload(form, s.role);
    var start := [SetLoading(true), SetError(None), SetSuccess(false), CallRegister(userData)];
    var body := match outcome
      case Resolved(_) => [SetSuccess(true), GoLater(Navigation(Navbar.LoginPath, true))]
      case Rejected(message) => [SetError(Some(ErrorText(message, RegisterFallback))), SetSuccess(false)];
    start + body + [SetLoading(false)]
  }

  /** After the handler has run: the spinner is off; success is shown exactly when
      the request succeeded, an error (never the empty string, so its banner
      renders) exactly when it failed, never both; the selected role is untouched. */
  lemma RegisterSettles(s: State, form: FormData, outcome: Outcome<()>)
    ensures !Apply(s, HandleRegister(s, form, outcome)).loading
    ensures Apply(s, HandleRegister(s, form, outcome)).success <==> outcome.Resolved?
    ensures Apply(s, HandleRegister(s, form, outcome)).error.Some? <==> outcome.Rejected?
    ensures Shown(Apply(s, HandleRegister(s, form, outcome)).error) <==> outcome.Rejected?
    ensures outcome.Rejected? ==>
      Apply(s, HandleRegister(s, form, outcome)).error == Some(ErrorText(outcome.message, RegisterFallback))
    ensures Apply(s, HandleRegister(s, form, outcome)).role == s.role
  {
    var r := HandleRegister(s, form, outcome);
    var head, tail := r[..2], r[2..4];
    var body := r[4..6];
    assert r == head + tail + body + [r[6]];
    RunConcat(Update, s, head + tail + body, [r[6]]);
    RunConcat(Update, s, head + tail, body);
    RunConcat(Update, s, head, tail);
    assert head == [r[0], r[1]] && tail == [r[2], r[3]] && body == [r[4], r[5]];
    RunTwo(Update, s, r[0], r[1]);
    RunTwo(Update, Apply(s, head), r[2], r[3]);
    RunTwo(Update, Apply(s, head + tail), r[4], r[5]);
    RunOne(Update, Apply(s, head + tail + body), r[6]);
  }

  /** Whatever the user clicked on the switch, the role submitted is one of the two
      backend roles, and it is the one the clicked label stands for; before any
      click, the page's role and the switch's label already agree. */
  lemma SubmittedRoleFromToggle(s: State, clicked: string, form: FormData, outcome: Outcome<()>)
    ensures var s' := SelectRole(s, RegisterToggle.HandleToggle(clicked).emitted);
      var role := HandleRegister(s', form, outcome)[3].payload["role"];
      role == RegisterToggle.BackendRole(clicked) &&
      (role == RegisterToggle.UserRole || role == RegisterToggle.AgentRole)
    ensures RegisterToggle.BackendRole(RegisterToggle.InitialLabel) == InitialState.role
  {
  }

  /** The error banner, which renders only for a non-empty error, is up after the
      handler exactly when the request failed. */
  lemma RegisterBannerIffRejected(s: State, form: FormData, outcome: Outcome<()>)
    ensures Shown(Apply(s, HandleRegister(s, form, outcome)).error) <==> outcome.Rejected?
  {
    RegisterSettles(s, form, outcome);
  }
}
