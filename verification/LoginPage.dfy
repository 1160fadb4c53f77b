/**
 * The login page: the credential form as state, the fixed-order validation
 * chain, and what a submit does to storage and navigation.
 */
module LoginPage {
  import opened Common
  import opened JsStrings
  import opened Browser
  import opened EmailPattern

  datatype LoginForm = LoginForm(email: string, password: string)

  /** The `name` attributes of the page's two inputs. */
  datatype LoginField = EmailField | PasswordField

  /** The body of a successful `POST /auth/login`. */
  datatype AuthData = AuthData(token: string, userName: string)

  /** `POST /auth/login { email, password }`, sent as typed. */
  datatype LoginRequest = PostLogin(email: string, password: string)

  const EmailRequired: string := "Email is required"
  const PasswordRequired: string := "Password is required"

  function Field(form: LoginForm, field: LoginField): string {
    match field
    case EmailField => form.email
    case PasswordField => form.password
  }

  /** `setForm(prev => ({ ...prev, [name]: value }))`: only the named field changes. */
  function WithField(form: LoginForm, field: LoginField, value: string): (r: LoginForm)
    ensures Field(r, field) == value
    ensures forall other :: other != field ==> Field(r, other) == Field(form, other)
  {
    match field
    case EmailField => form.(email := value)
    case PasswordField => form.(password := value)
  }

  /**
   * The early-return chain of `handleLogin`: a blank e-mail, then an e-mail
   * the pattern rejects (tested untrimmed), then a blank password; the first
   * failure is the only one reported.
   */
  function ValidateLogin(form: LoginForm): (r: Option<string>)
    ensures IsBlank(form.email) ==> r == Some(EmailRequired)
    ensures !IsBlank(form.email) && !IsEmailShaped(form.email) ==> r == Some(InvalidEmail)
    ensures IsEmailShaped(form.email) && IsBlank(form.password) ==> r == Some(PasswordRequired)
    ensures r.None? <==> IsEmailShaped(form.email) && !IsBlank(form.password)
  {
    if IsBlank(form.email) then Some(EmailRequired)
    else if !IsEmailShaped(form.email) then Some(InvalidEmail)
    else if IsBlank(form.password) then Some(PasswordRequired)
    else None
  }

  /** An address with surrounding spaces is not blank but is reported as malformed. */
  lemma PaddedEmailIsMalformed(email: string, password: string)
    requires |email| > 0 && (IsSpace(email[0]) || IsSpace(email[|email| - 1]))
    requires !IsBlank(email)
    ensures ValidateLogin(LoginForm(email, password)) == Some(InvalidEmail)
  {
    PaddedIsNotShaped(email);
  }

  class Page {
    var form: LoginForm

    constructor ()
      ensures form == LoginForm("", "")
    {
      form := LoginForm("", "");
    }

    /** `handleChange` */
    method Change(field: LoginField, value: string)
      modifies this
      ensures form == WithField(old(form), field, value)
    {
      form := WithField(form, field, value);
    }

    /**
     * `handleLogin`: no request when validation fails; otherwise post the
     * credentials, then on success store the session and go to `/tasks`,
     * on failure report the server's message or "Login failed" and leave
     * storage alone.
     */
    method Login(store: Storage, response: Response<AuthData>)
      returns (sent: Option<LoginRequest>, store': Storage, navigate: Option<string>, toasts: seq<Toast>)
      ensures ValidateLogin(form).Some? ==>
        sent.None? && store' == store && navigate.None? && toasts == [Error(ValidateLogin(form).value)]
      ensures ValidateLogin(form).None? ==> sent == Some(PostLogin(form.email, form.password))
      ensures ValidateLogin(form).None? && response.Ok? ==>
        && store' == SaveSession(store, response.data.token, response.data.userName)
        && navigate == Some("/tasks") && toasts == []
      ensures ValidateLogin(form).None? && response.Failed? ==>
        store' == store && navigate.None? && toasts == [Error(FailureText(response.body, "Login failed"))]
    {
      var err := ValidateLogin(form);
      if err.Some? {
        return None, store, None, [Error(err.value)];
      }
      sent := Some(PostLogin(form.email, form.password));
      match response
      case Ok(data) =>
        store' := SaveSession(store, data.token, data.userName);
        navigate := Some("/tasks");
        toasts := [];
      case Failed(body) =>
        store', navigate := store, None;
        toasts := [Error(FailureText(body, "Login failed"))];
    }
  }
}
