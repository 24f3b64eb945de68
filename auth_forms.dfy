/** What the two authentication front ends (the `AuthManager` component and the
    procedural auth.js) have in common: the three views and their containers,
    the login and registration validators, the routing of a failed call to a
    field error or a toast, and the messages shown. */
module AuthForms {
  import opened Common
  import opened Text
  import Utils

  // ---------------------------------------------------------------------------
  // views

  datatype View = LoginView | RegisterView | TasksView

  /** Which of the three containers are visible (not `hidden`). */
  datatype Containers = Containers(login: bool, register: bool, tasks: bool)

  predicate ExactlyOneVisible(c: Containers)
  {
    (if c.login then 1 else 0) + (if c.register then 1 else 0) + (if c.tasks then 1 else 0) == 1
  }

  /** The containers after `show<View>View`: the view's own container is shown
      and the other two are hidden. */
  function ContainersFor(v: View): (c: Containers)
    ensures ExactlyOneVisible(c)
    ensures c.login <==> v == LoginView
    ensures c.register <==> v == RegisterView
    ensures c.tasks <==> v == TasksView
  {
    Containers(v == LoginView, v == RegisterView, v == TasksView)
  }

  /** The `onAuthStateChange` notification `{ isAuthenticated, view }`. */
  datatype AuthChange = AuthChange(isAuthenticated: bool, view: View)

  function ChangeFor(v: View): (a: AuthChange)
    ensures a.view == v
    ensures a.isAuthenticated <==> v == TasksView
  {
    AuthChange(v == TasksView, v)
  }

  // ---------------------------------------------------------------------------
  // form validation

  datatype Field = NameField | EmailField | PasswordField

  /** An error shown under a form field; a field shows at most one. */
  datatype FieldError = FieldError(field: Field, message: string)

  predicate OnePerField(errs: seq<FieldError>)
  {
    forall i, j :: 0 <= i < j < |errs| ==> errs[i].field != errs[j].field
  }

  const EmailRequired: string := "E-mail é obrigatório"
  const PasswordRequired: string := "Senha é obrigatória"
  const NameRequired: string := "Nome é obrigatório"
  const EmailMalformed: string := "E-mail inválido"
  const PasswordTooShort: string := "A senha deve ter pelo menos 6 caracteres"

  function RequireEmail(email: string): (errs: seq<FieldError>)
    ensures |errs| <= 1 && forall e :: e in errs ==> e.field == EmailField
  {
    if email == "" then [FieldError(EmailField, EmailRequired)] else []
  }

  function RequireName(name: string): (errs: seq<FieldError>)
    ensures |errs| <= 1 && forall e :: e in errs ==> e.field == NameField
  {
    if name == "" then [FieldError(NameField, NameRequired)] else []
  }

  /** The email rule of the component's registration form: required, then
      accepted by `Utils.validateEmail`. */
  function CheckNewEmail(email: string): (errs: seq<FieldError>)
    ensures |errs| <= 1 && forall e :: e in errs ==> e.field == EmailField
    ensures errs == [] <==> email != "" && Utils.ValidateEmail(email)
    ensures FieldError(EmailField, EmailMalformed) in errs <==> email != "" && !Utils.ValidateEmail(email)
  {
    if email == "" then [FieldError(EmailField, EmailRequired)]
    else if !Utils.ValidateEmail(email) then [FieldError(EmailField, EmailMalformed)]
    else []
  }

  /** The password rule of both registration forms: required, then at least six
      characters. */
  function CheckNewPassword(password: string): (errs: seq<FieldError>)
    ensures |errs| <= 1 && forall e :: e in errs ==> e.field == PasswordField
    ensures errs == [] <==> |password| >= 6
  {
    if password == "" then [FieldError(PasswordField, PasswordRequired)]
    else if |password| < 6 then [FieldError(PasswordField, PasswordTooShort)]
    else []
  }

  /** The login form's checks, the same in both front ends: the errors shown,
      and no request unless there are none. */
  function LoginErrors(email: string, password: string): (errs: seq<FieldError>)
    ensures errs == [] <==> email != "" && password != ""
    ensures OnePerField(errs)
    ensures FieldError(EmailField, EmailRequired) in errs <==> email == ""
    ensures FieldError(PasswordField, PasswordRequired) in errs <==> password == ""
    ensures forall e :: e in errs ==> e.field != NameField
  {
    RequireEmail(email) + (if password == "" then [FieldError(PasswordField, PasswordRequired)] else [])
  }

  /** The `AuthManager` registration checks: name required; email required and
      accepted by `Utils.validateEmail`; password required and at least six long. */
  function RegisterErrors(name: string, email: string, password: string): (errs: seq<FieldError>)
    ensures errs == [] <==> name != "" && email != "" && Utils.ValidateEmail(email) && |password| >= 6
    ensures OnePerField(errs)
    ensures FieldError(EmailField, EmailMalformed) in errs <==> email != "" && !Utils.ValidateEmail(email)
  {
    RequireName(name) + CheckNewEmail(email) + CheckNewPassword(password)
  }

  /** The auth.js registration checks: the same, but any non-empty email passes. */
  function LegacyRegisterErrors(name: string, email: string, password: string): (errs: seq<FieldError>)
    ensures errs == [] <==> name != "" && email != "" && |password| >= 6
    ensures OnePerField(errs)
    ensures forall e :: e in errs ==> e.message != EmailMalformed
  {
    RequireName(name) + RequireEmail(email) + CheckNewPassword(password)
  }

  /** The component accepts exactly what auth.js accepts and `validateEmail`
      passes, and both show the same name and password errors. */
  lemma RegisterIsLegacyPlusEmailFormat(name: string, email: string, password: string)
    ensures RegisterErrors(name, email, password) == [] <==>
            LegacyRegisterErrors(name, email, password) == [] && Utils.ValidateEmail(email)
    ensures forall e :: e in RegisterErrors(name, email, password) && e.field != EmailField
                        <==> e in LegacyRegisterErrors(name, email, password) && e.field != EmailField
  {
  }

  /** The two front ends disagree: auth.js sends a registration for the address
      "ana", which the component refuses as malformed. */
  lemma LegacyAcceptsMalformedEmail()
    ensures LegacyRegisterErrors("Ana", "ana", "secret") == []
    ensures RegisterErrors("Ana", "ana", "secret") == [FieldError(EmailField, EmailMalformed)]
  {
    var lowered := ToLower("ana");
    assert lowered == "ana";
    assert '@' !in lowered;
    assert !Utils.ValidateEmail("ana");
  }

  // ---------------------------------------------------------------------------
  // failed calls

  /** Where the message of a failed call ends up: under a field, or in a toast. */
  datatype Feedback = OnField(error: FieldError) | Toast(notice: Notice)

  const InvalidCredentialsText: string := "Credenciais inválidas. Verifique seu e-mail e senha."
  const EmailInUseText: string := "Este e-mail já está em uso."
  const LoginFailedText: string := "Falha no login. Verifique suas credenciais e tente novamente."
  const RegisterFailedText: string := "Falha no registro. Por favor, tente novamente."

  /** A failed login: the server's "Invalid credentials" goes under the password
      field; any other message is shown as an error toast, an empty one replaced
      by a generic text. */
  function LoginFailure(message: string): (f: Feedback)
    ensures f.OnField? <==> message == "Invalid credentials"
    ensures f.OnField? ==> f.error == FieldError(PasswordField, InvalidCredentialsText)
    ensures f.Toast? ==> f.notice.kind == Failure && f.notice.text != ""
    ensures f.Toast? && message != "" ==> f.notice.text == message
  {
    if message == "Invalid credentials" then OnField(FieldError(PasswordField, InvalidCredentialsText))
    else Toast(Notice(Failure, if message != "" then message else LoginFailedText))
  }

  /** A failed registration: "Email already in use" goes under the email field;
      anything else is an error toast. */
  function RegisterFailure(message: string): (f: Feedback)
    ensures f.OnField? <==> message == "Email already in use"
    ensures f.OnField? ==> f.error == FieldError(EmailField, EmailInUseText)
    ensures f.Toast? ==> f.notice.kind == Failure && f.notice.text != ""
    ensures f.Toast? && message != "" ==> f.notice.text == message
  {
    if message == "Email already in use" then OnField(FieldError(EmailField, EmailInUseText))
    else Toast(Notice(Failure, if message != "" then message else RegisterFailedText))
  }

  // ---------------------------------------------------------------------------
  // calls and messages

  /** The calls the authentication front ends make. */
  datatype AuthCall =
    | LoginCall(email: string, password: string)
    | RegisterCall(name: string, email: string, password: string)
    | ValidateCall(authorization: Option<string>)

  /** A form's submit button. */
  datatype SubmitButton = SubmitButton(disabled: bool, caption: string)

  const LoginLabel: string := "Entrar"
  const RegisterLabel: string := "Cadastrar"

  const LoggedInText: string := "Login realizado com sucesso!"
  const RegisteredText: string := "Registro realizado com sucesso! Por favor, faça login."
  const SessionExpiredText: string := "Sua sessão expirou. Por favor, faça login novamente."
  const LoggedOutText: string := "Você saiu do sistema."
}
