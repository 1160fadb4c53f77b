/**
 * The registration page: a five-field form, a chain of required-field
 * checks in a fixed order followed by the e-mail shape check, and what a
 * submit does to storage and navigation.
 */
module RegisterPage {
  import opened Common
  import opened JsStrings
  import opened Browser
  import opened EmailPattern
  import LoginPage

  datatype RegisterForm = RegisterForm(
    firstName: string,
    lastName: string,
    email: string,
    mobileNumber: string,
    password: string)

  /** The `name` attributes of the page's five inputs. */
  datatype RegisterField = FirstNameField | LastNameField | EmailField | MobileNumberField | PasswordField

  /** `POST /auth/register` with the whole form as typed, untrimmed. */
  datatype RegisterRequest = PostRegister(form: RegisterForm)

  const RegisteredNote: string := "Registration successful! You can now manage your tasks."

  /** The position of each field in the order `handleSubmit` checks them. */
  function Rank(field: RegisterField): nat {
    match field
    case FirstNameField => 0
    case LastNameField => 1
    case EmailField => 2
    case MobileNumberField => 3
    case PasswordField => 4
  }

  /** The message reported for a blank field. */
  function Required(field: RegisterField): string {
    match field
    case FirstNameField => "First Name is required"
    case LastNameField => "Last Name is required"
    case EmailField => "Email is required"
    case MobileNumberField => "Mobile Number is required"
    case PasswordField => "Password is required"
  }

  function Field(form: RegisterForm, field: RegisterField): string {
    match field
    case FirstNameField => form.firstName
    case LastNameField => form.lastName
    case EmailField => form.email
    case MobileNumberField => form.mobileNumber
    case PasswordField => form.password
  }

  /** `setForm({ ...form, [e.target.name]: e.target.value })`: only the named field changes. */
  function WithField(form: RegisterForm, field: RegisterField, value: string): (r: RegisterForm)
    ensures Field(r, field) == value
    ensures forall other :: other != field ==> Field(r, other) == Field(form, other)
  {
    match field
    case FirstNameField => form.(firstName := value)
    case LastNameField => form.(lastName := value)
    case EmailField => form.(email := value)
    case MobileNumberField => form.(mobileNumber := value)
    case PasswordField => form.(password := value)
  }

  /** The guard chain of `handleSubmit`, as written: five required checks, then the e-mail shape. */
  function ValidateRegister(form: RegisterForm): (r: Option<string>)
    ensures r.None? ==> AllFilled(form) && IsEmailShaped(form.email)
    ensures r.Some? && r != Some(InvalidEmail) ==> exists field :: r == Some(Required(field)) && IsBlank(Field(form, field))
  {
    if IsBlank(form.firstName) then
      assert Field(form, FirstNameField) == form.firstName;
      Some(Required(FirstNameField))
    else if IsBlank(form.lastName) then
      assert Field(form, LastNameField) == form.lastName;
      Some(Required(LastNameField))
    else if IsBlank(form.email) then
      assert Field(form, EmailField) == form.email;
      Some(Required(EmailField))
    else if IsBlank(form.mobileNumber) then
      assert Field(form, MobileNumberField) == form.mobileNumber;
      Some(Required(MobileNumberField))
    else if IsBlank(form.password) then
      assert Field(form, PasswordField) == form.password;
      Some(Required(PasswordField))
    else if !IsEmailShaped(form.email) then Some(InvalidEmail)
    else
      assert forall field :: Field(form, field) in [form.firstName, form.lastName, form.email, form.mobileNumber, form.password];
      None
  }

  /** Every field of the form is filled in (not blank once trimmed). */
  predicate AllFilled(form: RegisterForm) {
    forall field :: !IsBlank(Field(form, field))
  }

  /**
   * First failure wins: a field's "is required" message is reported exactly
   * when that field is blank and every field checked before it is not.
   */
  lemma FirstBlankFieldIsReported(form: RegisterForm, field: RegisterField)
    ensures ValidateRegister(form) == Some(Required(field)) <==>
      IsBlank(Field(form, field)) && forall other :: Rank(other) < Rank(field) ==> !IsBlank(Field(form, other))
  {
    match field
    case FirstNameField =>
    case LastNameField =>
      assert Field(form, FirstNameField) == form.firstName;
    case EmailField =>
      assert Field(form, FirstNameField) == form.firstName;
      assert Field(form, LastNameField) == form.lastName;
    case MobileNumberField =>
      assert Field(form, FirstNameField) == form.firstName;
      assert Field(form, LastNameField) == form.lastName;
      assert Field(form, EmailField) == form.email;
    case PasswordField =>
      assert Field(form, FirstNameField) == form.firstName;
      assert Field(form, LastNameField) == form.lastName;
      assert Field(form, EmailField) == form.email;
      assert Field(form, MobileNumberField) == form.mobileNumber;
  }

  /** The e-mail format is reported only when no field is blank, and then exactly when it is malformed. */
  lemma FormatCheckedLast(form: RegisterForm)
    ensures ValidateRegister(form) == Some(InvalidEmail) <==> AllFilled(form) && !IsEmailShaped(form.email)
    ensures ValidateRegister(form).None? <==> AllFilled(form) && IsEmailShaped(form.email)
  {
    assert Field(form, FirstNameField) == form.firstName;
    assert Field(form, LastNameField) == form.lastName;
    assert Field(form, EmailField) == form.email;
    assert Field(form, MobileNumberField) == form.mobileNumber;
    assert Field(form, PasswordField) == form.password;
  }

  /** A blank mobile number is reported even when the e-mail is also malformed. */
  lemma BlankMobileBeatsMalformedEmail(form: RegisterForm)
    requires !IsBlank(form.firstName) && !IsBlank(form.lastName) && !IsBlank(form.email)
    requires IsBlank(form.mobileNumber) && !IsEmailShaped(form.email)
    ensures ValidateRegister(form) == Some(Required(MobileNumberField))
  {
  }

  /**
   * Both pages apply one e-mail check: once the required fields are filled,
   * registration rejects an address as malformed exactly when login does.
   */
  lemma EmailCheckAgreesWithLogin(form: RegisterForm)
    requires AllFilled(form)
    ensures ValidateRegister(form) == Some(InvalidEmail) <==>
      LoginPage.ValidateLogin(LoginPage.LoginForm(form.email, form.password)) == Some(InvalidEmail)
    ensures ValidateRegister(form).None? <==>
      LoginPage.ValidateLogin(LoginPage.LoginForm(form.email, form.password)).None?
  {
    FormatCheckedLast(form);
    assert !IsBlank(Field(form, EmailField)) && !IsBlank(Field(form, PasswordField));
  }

  class Page {
    var form: RegisterForm

    constructor ()
      ensures form == RegisterForm("", "", "", "", "")
    {
      form := RegisterForm("", "", "", "", "");
    }

    /** `handleChange` */
    method Change(field: RegisterField, value: string)
      modifies this
      ensures form == WithField(old(form), field, value)
    {
      form := WithField(form, field, value);
    }

    /**
     * `handleSubmit`: no request when validation fails; otherwise post the
     * whole form, then on success store the session and go to `/tasks`, on
     * failure report the server's message or "Registration failed".
     */
    method Submit(store: Storage, response: Response<LoginPage.AuthData>)
      returns (sent: Option<RegisterRequest>, store': Storage, navigate: Option<string>, toasts: seq<Toast>)
      ensures ValidateRegister(form).Some? ==>
        sent.None? && store' == store && navigate.None? && toasts == [Error(ValidateRegister(form).value)]
      ensures ValidateRegister(form).None? ==> sent == Some(PostRegister(form))
      ensures ValidateRegister(form).None? && response.Ok? ==>
        && store' == SaveSession(store, response.data.token, response.data.userName)
        && navigate == Some("/tasks") && toasts == [Success(RegisteredNote)]
      ensures ValidateRegister(form).None? && response.Failed? ==>
        store' == store && navigate.None? && toasts == [Error(FailureText(response.body, "Registration failed"))]
    {
      var err := ValidateRegister(form);
      if err.Some? {
        return None, store, None, [Error(err.value)];
      }
      sent := Some(PostRegister(form));
      match response
      case Ok(data) =>
        toasts := [Success(RegisteredNote)];
        store' := SaveSession(store, data.token, data.userName);
        navigate := Some("/tasks");
      case Failed(body) =>
        store', navigate := store, None;
        toasts := [Error(FailureText(body, "Registration failed"))];
    }
  }
}
