/** The admin sign-in form (src/pages/login/components/LoginForm.tsx): the ordered input
    checks, the unwrapping of the two response shapes, the admin gate and the choice of
    the error text. The login request's settled result is an input; storing the token is
    modelled as the session the submit produces, and the navigation as that session
    being present. */
module Login {
  import opened Wrappers
  import opened ApiTypes

  const FillAllFields := "Please fill in all fields"
  const InvalidEmail := "Please enter a valid email address"
  const AccessDenied := "Access denied. Admin privileges required."
  const InvalidCredentials := "Invalid email or password"
  const EnvelopeFailed := "Login failed"
  const LoginFailedDefault := "Login failed. Please try again."

  /** The form's state. `error` is "" when no error is shown. */
  datatype Form = Form(email: string, password: string, showPassword: bool, isLoading: bool, error: string)

  const InitialForm := Form("", "", false, false, "")

  datatype Field = Email | Password

  /** `handleInputChange`: the edited field takes the value and any shown error is
      cleared; the other field is kept. */
  function HandleInputChange(f: Form, field: Field, value: string): (r: Form)
    ensures r.error == ""
    ensures field == Email ==> r.email == value && r.password == f.password
    ensures field == Password ==> r.password == value && r.email == f.email
    ensures r.showPassword == f.showPassword && r.isLoading == f.isLoading
  {
    match field
    case Email => f.(email := value, error := "")
    case Password => f.(password := value, error := "")
  }

  /** The checks run before any request, in order: both fields filled, then an '@' in
      the e-mail. The message of the first failing check, or None when both pass. */
  function Validate(email: string, password: string): (r: Option<string>)
    ensures r == Some(FillAllFields) <==> email == "" || password == ""
    ensures r == Some(InvalidEmail) <==> email != "" && password != "" && '@' !in email
    ensures r == None <==> email != "" && password != "" && '@' in email
  {
    if email == "" || password == "" then Some(FillAllFields)
    else if '@' !in email then Some(InvalidEmail)
    else None
  }

  /** What the login call resolves to: the `ApiResponse` envelope (it carries both
      `success` and `data`) or a bare `AuthResponse`. */
  datatype LoginResponse =
    | Envelope(success: bool, message: string, data: AuthResponse)
    | Direct(auth: AuthResponse)

  /** A thrown error, with the parts the catch block looks at: the HTTP status and the
      server's `data.message` when the error carries a response, and its own `message`. */
  datatype LoginError = LoginError(status: Option<int>, serverMessage: string, message: string)

  /** The settled login call. */
  datatype Reply = Resolved(response: LoginResponse) | Rejected(error: LoginError)

  /** The envelope test: a successful envelope and a bare response give the
      authentication data; a failed envelope throws an error with its message, or with
      'Login failed' when that message is empty. */
  function Unwrap(response: LoginResponse): (r: Reply)
    ensures response.Direct? ==> r == Resolved(response)
    ensures response.Envelope? && response.success ==> r == Resolved(Direct(response.data))
    ensures response.Envelope? && !response.success ==>
              r.Rejected? && r.error.status == None && r.error.serverMessage == ""
              && r.error.message != ""
              && (response.message != "" ==> r.error.message == response.message)
  {
    match response
    case Direct(_) => Resolved(response)
    case Envelope(success, message, data) =>
      if success then Resolved(Direct(data))
      else Rejected(LoginError(None, "", if message != "" then message else EnvelopeFailed))
  }

  /** The catch block's text: 401 first, then 403, then the server's message, then the
      error's own message, then a fixed default. It is never empty. */
  function ErrorText(e: LoginError): (r: string)
    ensures r != ""
    ensures e.status == Some(401) ==> r == InvalidCredentials
    ensures e.status == Some(403) ==> r == AccessDenied
    ensures e.status != Some(401) && e.status != Some(403) ==>
              r == (if e.serverMessage != "" then e.serverMessage
                    else if e.message != "" then e.message
                    else LoginFailedDefault)
  {
    if e.status == Some(401) then InvalidCredentials
    else if e.status == Some(403) then AccessDenied
    else if e.serverMessage != "" then e.serverMessage
    else if e.message != "" then e.message
    else LoginFailedDefault
  }

  /** The token and user kept after a successful admin sign-in. */
  datatype Session = Session(token: string, user: User)

  /** The outcome of a submit: the new form, whether the login request was sent, and the
      stored session (None when nothing was stored). */
  datatype Submitted = Submitted(form: Form, requested: bool, session: Option<Session>)

  /** `handleSubmit`. A failed check shows its message and sends nothing. Otherwise the
      request is sent; a rejection or a failed envelope shows the catch block's text, a
      non-admin user is turned away, and an admin's token is stored. Loading ends on
      every path after the request. */
  function HandleSubmit(f: Form, reply: Reply): (r: Submitted)
    ensures Validate(f.email, f.password).Some? ==>
              r == Submitted(f.(error := Validate(f.email, f.password).value), false, None)
    ensures Validate(f.email, f.password).None? ==>
              r.requested && !r.form.isLoading
              && r.form.email == f.email && r.form.password == f.password
    ensures r.session.Some? <==>
              Validate(f.email, f.password).None? && reply.Resolved?
              && Unwrap(reply.response).Resolved? && Unwrap(reply.response).response.auth.user.isAdmin
    ensures r.session.Some? ==> r.form.error == ""
    ensures r.session.None? ==> r.form.error != ""
  {
    match Validate(f.email, f.password)
    case Some(message) => Submitted(f.(error := message), false, None)
    case None =>
      var unwrapped := if reply.Resolved? then Unwrap(reply.response) else reply;
      var done := f.(isLoading := false);
      match unwrapped
      case Rejected(e) => Submitted(done.(error := ErrorText(e)), true, None)
      case Resolved(response) =>
        var auth := response.auth;
        if !auth.user.isAdmin then Submitted(done.(error := AccessDenied), true, None)
        else Submitted(done.(error := ""), true, Some(Session(auth.token, auth.user)))
  }

  /** An empty field is reported even when the e-mail also lacks an '@', and no request
      is sent. */
  lemma EmptyFieldComesFirst(f: Form, reply: Reply)
    requires f.email == "" || f.password == ""
    ensures HandleSubmit(f, reply).form.error == FillAllFields
    ensures !HandleSubmit(f, reply).requested
  {
  }

  /** A failed envelope shows the server's message, or 'Login failed' when it is empty. */
  lemma FailedEnvelopeShowsItsMessage(f: Form, message: string, data: AuthResponse)
    requires Validate(f.email, f.password).None?
    ensures HandleSubmit(f, Resolved(Envelope(false, message, data))).form.error
            == (if message != "" then message else EnvelopeFailed)
  {
  }

  /** A non-admin account is turned away with the same text as an HTTP 403, whatever
      shape the response has, and nothing is stored. */
  lemma NonAdminIsTurnedAway(f: Form, response: LoginResponse, e: LoginError)
    requires Validate(f.email, f.password).None?
    requires Unwrap(response).Resolved? && !Unwrap(response).response.auth.user.isAdmin
    requires e.status == Some(403)
    ensures HandleSubmit(f, Resolved(response)).session == None
    ensures HandleSubmit(f, Resolved(response)).form.error == HandleSubmit(f, Rejected(e)).form.error
  {
  }

  /** Whatever made the submit fail, typing into either field clears the error and keeps
      what was typed in the other field. */
  lemma EditAfterFailureClears(f: Form, reply: Reply, field: Field, value: string)
    requires HandleSubmit(f, reply).session.None?
    ensures var after := HandleInputChange(HandleSubmit(f, reply).form, field, value);
            after.error == ""
            && (field == Email ==> after.password == f.password)
            && (field == Password ==> after.email == f.email)
  {
  }
}
