/** The procedural auth.js: the stored token, the three containers and the
    login and registration forms, wired by hand to the API. Entering the tasks
    view runs tasks.js's `loadTasks`, so the page holds the `TasksPage` whose
    list that call fills; `localStorage` is shared, so the token passed to it is
    this page's. The outcome of each fetch is a parameter. */
module AuthScript {
  import opened Common
  import opened Server
  import opened TaskList
  import opened TasksScript
  import opened AuthForms

  class AuthPage {
    /** `localStorage.getItem("token")`. */
    var token: Option<string>
    var containers: Containers
    var loginErrors: seq<FieldError>
    var registerErrors: seq<FieldError>
    /** The last toast this script showed. */
    var notice: Option<Notice>
    var loginButton: SubmitButton
    var registerButton: SubmitButton
    /** The state of tasks.js. */
    const tasks: TasksPage

    constructor (stored: Option<string>, initial: Containers, tasks: TasksPage)
      ensures this.tasks == tasks
      ensures token == stored && containers == initial && notice == None
      ensures loginErrors == [] && registerErrors == []
      ensures loginButton == SubmitButton(false, LoginLabel) && registerButton == SubmitButton(false, RegisterLabel)
    {
      this.tasks := tasks;
      token := stored;
      containers := initial;
      loginErrors := [];
      registerErrors := [];
      notice := None;
      loginButton := SubmitButton(false, LoginLabel);
      registerButton := SubmitButton(false, RegisterLabel);
    }

    method ShowLoginView()
      modifies this
      ensures containers == ContainersFor(LoginView)
      ensures token == old(token) && notice == old(notice)
      ensures loginErrors == old(loginErrors) && registerErrors == old(registerErrors)
      ensures loginButton == old(loginButton) && registerButton == old(registerButton)
    {
      containers := Containers(true, false, false);
    }

    method ShowRegisterView()
      modifies this
      ensures containers == ContainersFor(RegisterView)
      ensures token == old(token) && notice == old(notice)
      ensures loginErrors == old(loginErrors) && registerErrors == old(registerErrors)
      ensures loginButton == old(loginButton) && registerButton == old(registerButton)
    {
      containers := Containers(false, true, false);
    }

    /** `showTasksView`: show the tasks container and run `loadTasks` with the
        stored token, which fetches only when there is one. */
    method ShowTasksView(load: ApiResult<seq<Task>>) returns (loadCall: Option<Request>)
      modifies this, tasks
      ensures containers == ContainersFor(TasksView)
      ensures loadCall == (if Truthy(token) then Some(Request(Get, TasksPath, ScriptAuthHeader(token), None)) else None)
      ensures tasks.tasksData == (if Truthy(token) && load.Ok? then load.value else old(tasks.tasksData))
      ensures tasks.taskToDeleteId == old(tasks.taskToDeleteId)
      ensures token == old(token) && notice == old(notice)
      ensures loginErrors == old(loginErrors) && registerErrors == old(registerErrors)
      ensures loginButton == old(loginButton) && registerButton == old(registerButton)
    {
      containers := Containers(false, false, true);
      loadCall := tasks.LoadTasks(token, load);
    }

    /** `checkAuthStatus`: no token shows the login view; otherwise the token is
        validated, success enters the tasks view (and loads the tasks), and
        failure removes the token, shows the login view and says the session
        expired. */
    method CheckAuthStatus(validation: ApiResult<Claims>, load: ApiResult<seq<Task>>)
      returns (call: Option<AuthCall>, loadCall: Option<Request>)
      modifies this, tasks
      ensures !Truthy(old(token)) ==>
                && call.None? && loadCall.None? && containers == ContainersFor(LoginView)
                && token == old(token) && notice == old(notice)
      ensures Truthy(old(token)) ==> call == Some(ValidateCall(ScriptAuthHeader(old(token))))
      ensures Truthy(old(token)) && validation.Ok? ==>
                && containers == ContainersFor(TasksView) && token == old(token)
                && loadCall == Some(Request(Get, TasksPath, ScriptAuthHeader(token), None))
                && tasks.tasksData == (if load.Ok? then load.value else old(tasks.tasksData))
      ensures Truthy(old(token)) && validation.Fail? ==>
                && loadCall.None? && containers == ContainersFor(LoginView) && token == None
                && notice == Some(Notice(Failure, SessionExpiredText))
      ensures !(Truthy(old(token)) && validation.Ok?) ==> tasks.tasksData == old(tasks.tasksData)
      ensures loginErrors == old(loginErrors) && registerErrors == old(registerErrors)
      ensures loginButton == old(loginButton) && registerButton == old(registerButton)
    {
      loadCall := None;
      if !Truthy(token) {
        ShowLoginView();
        return None, None;
      }
      call := Some(ValidateCall(ScriptAuthHeader(token)));
      match validation {
        case Ok(_) =>
          loadCall := ShowTasksView(load);
        case Fail(_) =>
          token := None;
          ShowLoginView();
          notice := Some(Notice(Failure, SessionExpiredText));
      }
    }

    /** The sending half of the login form's listener: post the credentials;
        success stores the token, shows the success toast and enters the tasks
        view; failure is routed by `LoginFailure`; the button ends enabled. */
    method SendLogin(email: string, password: string, outcome: ApiResult<string>, load: ApiResult<seq<Task>>)
      returns (call: AuthCall, loadCall: Option<Request>)
      modifies this, tasks
      ensures call == LoginCall(email, password)
      ensures loginButton == SubmitButton(false, LoginLabel)
      ensures outcome.Ok? ==>
                && token == Some(outcome.value) && containers == ContainersFor(TasksView)
                && notice == Some(Notice(Success, LoggedInText)) && loginErrors == old(loginErrors)
                && loadCall == (if outcome.value != "" then Some(Request(Get, TasksPath, ScriptAuthHeader(token), None)) else None)
                && tasks.tasksData == (if outcome.value != "" && load.Ok? then load.value else old(tasks.tasksData))
      ensures outcome.Fail? ==>
                && token == old(token) && containers == old(containers)
                && loadCall.None? && tasks.tasksData == old(tasks.tasksData)
                && (LoginFailure(outcome.message).OnField? ==>
                      loginErrors == [LoginFailure(outcome.message).error] && notice == old(notice))
                && (LoginFailure(outcome.message).Toast? ==>
                      loginErrors == old(loginErrors) && notice == Some(LoginFailure(outcome.message).notice))
      ensures registerErrors == old(registerErrors) && registerButton == old(registerButton)
    {
      loginButton := SubmitButton(true, "Entrando...");
      call := LoginCall(email, password);
      loadCall := None;
      match outcome {
        case Ok(t) =>
          token := Some(t);
          notice := Some(Notice(Success, LoggedInText));
          loadCall := ShowTasksView(load);
        case Fail(message) =>
          match LoginFailure(message) {
            case OnField(e) => loginErrors := [e];
            case Toast(n) => notice := Some(n);
          }
      }
      loginButton := SubmitButton(false, LoginLabel);
    }

    /** The login form's submit listener: an empty email or password shows its
        field errors and sends nothing; otherwise `SendLogin`. */
    method SubmitLogin(email: string, password: string, outcome: ApiResult<string>, load: ApiResult<seq<Task>>)
      returns (call: Option<AuthCall>, loadCall: Option<Request>)
      modifies this, tasks
      ensures LoginErrors(email, password) != [] ==>
                && call.None? && loadCall.None? && loginErrors == LoginErrors(email, password)
                && token == old(token) && containers == old(containers) && notice == old(notice)
                && loginButton == old(loginButton) && tasks.tasksData == old(tasks.tasksData)
      ensures LoginErrors(email, password) == [] ==>
                && call == Some(LoginCall(email, password))
                && loginButton == SubmitButton(false, LoginLabel)
      ensures LoginErrors(email, password) == [] && outcome.Ok? ==>
                && token == Some(outcome.value) && containers == ContainersFor(TasksView)
                && notice == Some(Notice(Success, LoggedInText)) && loginErrors == []
                && tasks.tasksData == (if outcome.value != "" && load.Ok? then load.value else old(tasks.tasksData))
      ensures LoginErrors(email, password) == [] && outcome.Fail? ==>
                && token == old(token) && containers == old(containers) && tasks.tasksData == old(tasks.tasksData)
                && (LoginFailure(outcome.message).OnField? ==>
                      loginErrors == [LoginFailure(outcome.message).error] && notice == old(notice))
                && (LoginFailure(outcome.message).Toast? ==>
                      loginErrors == [] && notice == Some(LoginFailure(outcome.message).notice))
      ensures registerErrors == old(registerErrors) && registerButton == old(registerButton)
    {
      var errs := LoginErrors(email, password);
      loginErrors := errs;
      if errs != [] {
        return None, None;
      }
      var sent;
      sent, loadCall := SendLogin(email, password, outcome, load);
      call := Some(sent);
    }

    /** The sending half of the registration form's listener: post the form;
        success shows the login view, failure is routed by `RegisterFailure`;
        the button ends enabled. */
    method SendRegistration(name: string, email: string, password: string, outcome: ApiResult<string>)
      returns (call: AuthCall)
      modifies this
      ensures call == RegisterCall(name, email, password)
      ensures registerButton == SubmitButton(false, RegisterLabel)
      ensures outcome.Ok? ==>
                && containers == ContainersFor(LoginView)
                && notice == Some(Notice(Success, RegisteredText)) && registerErrors == old(registerErrors)
      ensures outcome.Fail? ==>
                && containers == old(containers)
                && (RegisterFailure(outcome.message).OnField? ==>
                      registerErrors == [RegisterFailure(outcome.message).error] && notice == old(notice))
                && (RegisterFailure(outcome.message).Toast? ==>
                      registerErrors == old(registerErrors) && notice == Some(RegisterFailure(outcome.message).notice))
      ensures token == old(token)
      ensures loginErrors == old(loginErrors) && loginButton == old(loginButton)
    {
      registerButton := SubmitButton(true, "Registrando...");
      call := RegisterCall(name, email, password);
      match outcome {
        case Ok(_) =>
          notice := Some(Notice(Success, RegisteredText));
          ShowLoginView();
        case Fail(message) =>
          match RegisterFailure(message) {
            case OnField(e) => registerErrors := [e];
            case Toast(n) => notice := Some(n);
          }
      }
      registerButton := SubmitButton(false, RegisterLabel);
    }

    /** The registration form's submit listener: checks with
        `LegacyRegisterErrors`, which has no email-format rule; invalid input
        shows its field errors and sends nothing; otherwise `SendRegistration`. */
    method SubmitRegistration(name: string, email: string, password: string, outcome: ApiResult<string>)
      returns (call: Option<AuthCall>)
      modifies this
      ensures LegacyRegisterErrors(name, email, password) != [] ==>
                && call.None? && registerErrors == LegacyRegisterErrors(name, email, password)
                && containers == old(containers) && notice == old(notice) && registerButton == old(registerButton)
      ensures LegacyRegisterErrors(name, email, password) == [] ==>
                && call == Some(RegisterCall(name, email, password))
                && registerButton == SubmitButton(false, RegisterLabel)
      ensures LegacyRegisterErrors(name, email, password) == [] && outcome.Ok? ==>
                containers == ContainersFor(LoginView) && notice == Some(Notice(Success, RegisteredText)) && registerErrors == []
      ensures LegacyRegisterErrors(name, email, password) == [] && outcome.Fail? ==>
                && containers == old(containers)
                && (RegisterFailure(outcome.message).OnField? ==>
                      registerErrors == [RegisterFailure(outcome.message).error] && notice == old(notice))
                && (RegisterFailure(outcome.message).Toast? ==>
                      registerErrors == [] && notice == Some(RegisterFailure(outcome.message).notice))
      ensures token == old(token)
      ensures loginErrors == old(loginErrors) && loginButton == old(loginButton)
    {
      var errs := LegacyRegisterErrors(name, email, password);
      registerErrors := errs;
      if errs != [] {
        return None;
      }
      var sent := SendRegistration(name, email, password, outcome);
      call := Some(sent);
    }

    /** `window.logout`: remove the token and show the login view. */
    method Logout()
      modifies this
      ensures token == None && containers == ContainersFor(LoginView)
      ensures notice == Some(Notice(Info, LoggedOutText))
      ensures loginErrors == old(loginErrors) && registerErrors == old(registerErrors)
      ensures loginButton == old(loginButton) && registerButton == old(registerButton)
    {
      token := None;
      notice := Some(Notice(Info, LoggedOutText));
      ShowLoginView();
    }
  }
}
