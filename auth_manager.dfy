/** The `AuthManager` component: the stored token, the three view containers, the
    `onAuthStateChange` notifications it emits, and the login and registration
    forms. Requests go through the ApiService; login and registration are sent
    without an Authorization header, validation with `ClientAuthHeader` of the
    stored token. The outcome of each call is a parameter. */
module AuthManagerComponent {
  import opened Common
  import opened Server
  import opened AuthForms

  /** What the two forms show: their field errors and their submit buttons. */
  datatype FormsState = FormsState(loginErrors: seq<FieldError>, registerErrors: seq<FieldError>,
                         loginButton: SubmitButton, registerButton: SubmitButton)

  class AuthManager {
    /** `localStorage.getItem("token")`. */
    var token: Option<string>
    var containers: Containers
    /** The last `onAuthStateChange` notification, if any. */
    var lastChange: Option<AuthChange>
    var loginErrors: seq<FieldError>
    var registerErrors: seq<FieldError>
    /** The last toast shown. */
    var notice: Option<Notice>
    var loginButton: SubmitButton
    var registerButton: SubmitButton

    /** The component over a page whose containers start as `initial`; the
        caller then runs `CheckAuthStatus`, as `init` does. */
    constructor (stored: Option<string>, initial: Containers)
      ensures token == stored && containers == initial && lastChange == None && notice == None
      ensures Forms() == FormsState([], [], SubmitButton(false, LoginLabel), SubmitButton(false, RegisterLabel))
    {
      token := stored;
      containers := initial;
      lastChange := None;
      loginErrors := [];
      registerErrors := [];
      notice := None;
      loginButton := SubmitButton(false, LoginLabel);
      registerButton := SubmitButton(false, RegisterLabel);
    }

    function Forms(): FormsState
      reads this
    {
      FormsState(loginErrors, registerErrors, loginButton, registerButton)
    }

    /** `v` is on screen: its container alone is visible and the last
        notification reported it. */
    predicate Shows(v: View)
      reads this
    {
      containers == ContainersFor(v) && lastChange == Some(ChangeFor(v))
    }

    method ShowLoginView()
      modifies this
      ensures Shows(LoginView) && !lastChange.value.isAuthenticated
      ensures token == old(token) && notice == old(notice) && Forms() == old(Forms())
    {
      containers := Containers(true, false, false);
      lastChange := Some(AuthChange(false, LoginView));
    }

    method ShowRegisterView()
      modifies this
      ensures Shows(RegisterView) && !lastChange.value.isAuthenticated
      ensures token == old(token) && notice == old(notice) && Forms() == old(Forms())
    {
      containers := Containers(false, true, false);
      lastChange := Some(AuthChange(false, RegisterView));
    }

    method ShowTasksView()
      modifies this
      ensures Shows(TasksView) && lastChange.value.isAuthenticated
      ensures token == old(token) && notice == old(notice) && Forms() == old(Forms())
    {
      containers := Containers(false, false, true);
      lastChange := Some(AuthChange(true, TasksView));
    }

    /** `checkAuthStatus`: no token shows the login view without a request;
        otherwise the token is validated, and a failed validation removes it,
        shows the login view and says the session expired. */
    method CheckAuthStatus(validation: ApiResult<Claims>) returns (call: Option<AuthCall>)
      modifies this
      ensures !Truthy(old(token)) ==> call.None? && Shows(LoginView) && token == old(token) && notice == old(notice)
      ensures Truthy(old(token)) ==> call == Some(ValidateCall(ClientAuthHeader(old(token))))
      ensures Truthy(old(token)) && validation.Ok? ==>
                Shows(TasksView) && token == old(token) && notice == old(notice)
      ensures Truthy(old(token)) && validation.Fail? ==>
                Shows(LoginView) && token == None && notice == Some(Notice(Failure, SessionExpiredText))
      ensures Forms() == old(Forms())
    {
      if !Truthy(token) {
        ShowLoginView();
        return None;
      }
      call := Some(ValidateCall(ClientAuthHeader(token)));
      match validation
      case Ok(_) =>
        ShowTasksView();
      case Fail(_) =>
        token := None;
        ShowLoginView();
        notice := Some(Notice(Failure, SessionExpiredText));
    }

    /** The sending half of `handleLogin`, reached once the form is valid: post
        the credentials; success stores the returned token and shows the tasks
        view, failure is routed by `LoginFailure`; the button ends enabled
        again. */
    method SendLogin(email: string, password: string, outcome: ApiResult<string>) returns (call: AuthCall)
      modifies this
      ensures call == LoginCall(email, password)
      ensures loginButton == SubmitButton(false, LoginLabel)
      ensures outcome.Ok? ==>
                && token == Some(outcome.value) && Shows(TasksView)
                && notice == Some(Notice(Success, LoggedInText)) && loginErrors == old(loginErrors)
      ensures outcome.Fail? ==>
                && token == old(token) && containers == old(containers) && lastChange == old(lastChange)
                && (LoginFailure(outcome.message).OnField? ==>
                      loginErrors == [LoginFailure(outcome.message).error] && notice == old(notice))
                && (LoginFailure(outcome.message).Toast? ==>
                      loginErrors == old(loginErrors) && notice == Some(LoginFailure(outcome.message).notice))
      ensures registerErrors == old(registerErrors) && registerButton == old(registerButton)
    {
      loginButton := SubmitButton(true, "Entrando...");
      call := LoginCall(email, password);
      match outcome {
        case Ok(t) =>
          token := Some(t);
          notice := Some(Notice(Success, LoggedInText));
          ShowTasksView();
        case Fail(message) =>
          match LoginFailure(message) {
            case OnField(e) => loginErrors := [e];
            case Toast(n) => notice := Some(n);
          }
      }
      loginButton := SubmitButton(false, LoginLabel);
    }

    /** `handleLogin`: an empty email or password shows its field errors and
        sends nothing; otherwise the errors are cleared and the credentials are
        sent by `SendLogin`. */
    method HandleLogin(email: string, password: string, outcome: ApiResult<string>) returns (call: Option<AuthCall>)
      modifies this
      ensures LoginErrors(email, password) != [] ==>
                && call.None? && loginErrors == LoginErrors(email, password)
                && token == old(token) && containers == old(containers) && lastChange == old(lastChange)
                && notice == old(notice) && loginButton == old(loginButton)
      ensures LoginErrors(email, password) == [] ==>
                && call == Some(LoginCall(email, password))
                && loginButton == SubmitButton(false, LoginLabel)
      ensures LoginErrors(email, password) == [] && outcome.Ok? ==>
                && token == Some(outcome.value) && Shows(TasksView)
                && notice == Some(Notice(Success, LoggedInText)) && loginErrors == []
      ensures LoginErrors(email, password) == [] && outcome.Fail? ==>
                && token == old(token) && containers == old(containers) && lastChange == old(lastChange)
                && (LoginFailure(outcome.message).OnField? ==>
                      loginErrors == [LoginFailure(outcome.message).error] && notice == old(notice))
                && (LoginFailure(outcome.message).Toast? ==>
                      loginErrors == [] && notice == Some(LoginFailure(outcome.message).notice))
      ensures registerErrors == old(registerErrors) && registerButton == old(registerButton)
    {
      var errs := LoginErrors(email, password);
      loginErrors := errs;
      if errs != [] {
        return None;
      }
      var sent := SendLogin(email, password, outcome);
      call := Some(sent);
    }

    /** The sending half of `handleRegister`, reached once the form is valid:
        post it; success shows the login view, failure is routed by
        `RegisterFailure`; the button ends enabled again. */
    method SendRegistration(name: string, email: string, password: string, outcome: ApiResult<string>)
      returns (call: AuthCall)
      modifies this
      ensures call == RegisterCall(name, email, password)
      ensures registerButton == SubmitButton(false, RegisterLabel)
      ensures outcome.Ok? ==>
                Shows(LoginView) && notice == Some(Notice(Success, RegisteredText)) && registerErrors == old(registerErrors)
      ensures outcome.Fail? ==>
                && containers == old(containers) && lastChange == old(lastChange)
                && (RegisterFailure(outcome.message).OnField? ==>
                      registerErrors == [RegisterFailure(outcome.message).error] && notice == old(notice))
                && (RegisterFailure(outcome.message).Toast? ==>
                      registerErrors == old(registerErrors) && notice == Some(RegisterFailure(outcome.message).notice))
      ensures token == old(token)
      ensures loginErrors == old(loginErrors) && loginButton == old(loginButton)
    {
      registerButton := SubmitButton(true, "Registrando...");
      call := RegisterCall(name, email, password);
      match outcome {
        case Ok(_) =>
          notice := Some(Notice(Success, RegisteredText));
          ShowLoginView();
        case Fail(message) =>
          match RegisterFailure(message) {
            case OnField(e) => registerErrors := [e];
            case Toast(n) => notice := Some(n);
          }
      }
      registerButton := SubmitButton(false, RegisterLabel);
    }

    /** `handleRegister`: invalid input (including an address `validateEmail`
        refuses) shows its field errors and sends nothing; a valid form clears
        the errors and is sent by `SendRegistration`. The token is never
        touched. */
    method HandleRegister(name: string, email: string, password: string, outcome: ApiResult<string>)
      returns (call: Option<AuthCall>)
      modifies this
      ensures RegisterErrors(name, email, password) != [] ==>
                && call.None? && registerErrors == RegisterErrors(name, email, password)
                && containers == old(containers) && lastChange == old(lastChange)
                && notice == old(notice) && registerButton == old(registerButton)
      ensures RegisterErrors(name, email, password) == [] ==>
                && call == Some(RegisterCall(name, email, password))
                && registerButton == SubmitButton(false, RegisterLabel)
      ensures RegisterErrors(name, email, password) == [] && outcome.Ok? ==>
                Shows(LoginView) && notice == Some(Notice(Success, RegisteredText)) && registerErrors == []
      ensures RegisterErrors(name, email, password) == [] && outcome.Fail? ==>
                && containers == old(containers) && lastChange == old(lastChange)
                && (RegisterFailure(outcome.message).OnField? ==>
                      registerErrors == [RegisterFailure(outcome.message).error] && notice == old(notice))
                && (RegisterFailure(outcome.message).Toast? ==>
                      registerErrors == [] && notice == Some(RegisterFailure(outcome.message).notice))
      ensures token == old(token)
      ensures loginErrors == old(loginErrors) && loginButton == old(loginButton)
    {
      var errs := RegisterErrors(name, email, password);
      registerErrors := errs;
      if errs != [] {
        return None;
      }
      var sent := SendRegistration(name, email, password, outcome);
      call := Some(sent);
    }

    /** `logout`: remove the token and show the login view. */
    method Logout()
      modifies this
      ensures token == None && Shows(LoginView)
      ensures notice == Some(Notice(Info, LoggedOutText))
      ensures Forms() == old(Forms())
    {
      token := None;
      notice := Some(Notice(Info, LoggedOutText));
      ShowLoginView();
    }
  }
}
