/** The login form as a state machine over its fields and flags. */
module LoginForm {
  import opened Common
  import opened Types
  import AuthContext

  datatype FormState = FormState(email: string, password: string, showPassword: bool, isLoading: bool, error: string)

  const Initial: FormState := FormState("", "", false, false, "")

  const DashboardPath: string := "/dashboard"

  /** First half of `handleSubmit`: loading on, error cleared, before the
      login call is made. */
  function BeginSubmit(f: FormState): (r: FormState)
    ensures r.isLoading && r.error == ""
    ensures r.email == f.email && r.password == f.password && r.showPassword == f.showPassword
  {
    f.(isLoading := true, error := "")
  }

  /** The form after the login call settles, and where the router goes. */
  datatype SubmitStep = SubmitStep(form: FormState, navigate: Option<string>)

  /** Second half: `thrown` is the message of the error login threw, if it
      threw. Success goes to the dashboard; failure shows the message, or
      "Login failed" when it is empty. */
  function FinishSubmit(f: FormState, thrown: Option<string>): (r: SubmitStep)
    ensures !r.form.isLoading
    ensures thrown.None? ==> r.navigate == Some(DashboardPath) && r.form.error == f.error
    ensures thrown.Some? ==>
              && r.navigate.None? && r.form.error != ""
    ensures thrown.Some? && thrown.value != "" ==> r.form.error == thrown.value
    ensures thrown.Some? && thrown.value == "" ==> r.form.error == AuthContext.LoginFailedMessage
    ensures r.form.email == f.email && r.form.password == f.password && r.form.showPassword == f.showPassword
  {
    match thrown
    case None => SubmitStep(f.(isLoading := false), Some(DashboardPath))
    case Some(_) => SubmitStep(f.(error := OrElse(thrown, AuthContext.LoginFailedMessage), isLoading := false), None)
  }

  /** The whole submit against the session store. */
  datatype LoginRun = LoginRun(form: FormState, session: AuthContext.AuthState, navigate: Option<string>)

  function Submit(f: FormState, session: AuthContext.AuthState, reply: Reply<AuthResponse>,
                  serialize: User -> string): LoginRun
  {
    var step := AuthContext.Login(session, reply, serialize);
    var done := FinishSubmit(BeginSubmit(f), step.thrown);
    LoginRun(done.form, step.state, done.navigate)
  }

  /** A rejected login shows the server's non-empty message, or "Login
      failed", keeps the session as it was, and stays on the page; an
      accepted one clears the error and goes to the dashboard. */
  lemma SubmitOutcome(f: FormState, session: AuthContext.AuthState, reply: Reply<AuthResponse>,
                      serialize: User -> string)
    ensures var run := Submit(f, session, reply, serialize);
            && !run.form.isLoading
            && (reply.Failed? ==>
                  && run.session == session && run.navigate.None?
                  && run.form.error == OrElse(reply.serverError, AuthContext.LoginFailedMessage))
            && (reply.Ok? ==>
                  && run.navigate == Some(DashboardPath) && run.form.error == ""
                  && run.session.token == Some(reply.value.token))
  {
  }

  /** Typing credentials into the fresh form and having the login
      rejected keeps what was typed, stops loading and shows the error. */
  lemma RejectedLoginKeepsInput(email: string, password: string, session: AuthContext.AuthState,
                                reply: Reply<AuthResponse>, serialize: User -> string)
    requires reply.Failed?
    ensures var run := Submit(PasswordChanged(EmailChanged(Initial, email), password), session, reply, serialize);
            && run.form.email == email && run.form.password == password
            && !run.form.showPassword && !run.form.isLoading
            && run.form.error == OrElse(reply.serverError, AuthContext.LoginFailedMessage)
            && run.navigate.None? && run.session == session
  {
    SubmitOutcome(PasswordChanged(EmailChanged(Initial, email), password), session, reply, serialize);
  }

  /** Field edits: the field takes the new value and the error clears. */
  function EmailChanged(f: FormState, value: string): (r: FormState)
    ensures r.email == value && r.error == ""
    ensures r.password == f.password && r.showPassword == f.showPassword && r.isLoading == f.isLoading
  {
    var f' := f.(email := value);
    if f'.error != "" then f'.(error := "") else f'
  }

  function PasswordChanged(f: FormState, value: string): (r: FormState)
    ensures r.password == value && r.error == ""
    ensures r.email == f.email && r.showPassword == f.showPassword && r.isLoading == f.isLoading
  {
    var f' := f.(password := value);
    if f'.error != "" then f'.(error := "") else f'
  }

  function Focus(f: FormState): (r: FormState)
    ensures r == f.(error := "")
  {
    if f.error != "" then f.(error := "") else f
  }

  /** The eye button: flips visibility and clears the error. */
  function ToggleVisibility(f: FormState): (r: FormState)
    ensures r.showPassword == !f.showPassword && r.error == ""
    ensures r.email == f.email && r.password == f.password && r.isLoading == f.isLoading
  {
    var f' := f.(showPassword := !f.showPassword);
    if f.error != "" then f'.(error := "") else f'
  }

  /** Toggling twice restores the visibility, with the error cleared. */
  lemma ToggleTwice(f: FormState)
    ensures ToggleVisibility(ToggleVisibility(f)) == Focus(f)
  {
  }
}
