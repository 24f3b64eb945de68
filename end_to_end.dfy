/** The browser client against the backend: each scenario runs a route of the
    `Store` and hands its response to a client component, the way the awaited
    fetch does, and states what both sides then hold. */
module EndToEnd {
  import opened Common
  import opened Text
  import opened Server
  import opened TaskList
  import opened AuthForms
  import opened AuthManagerComponent
  import opened TaskManagerComponent
  import Utils

  /** How the ApiService turns a response into the awaited value or the thrown
      error: a status outside 200-299 throws the body's `error`, or a generic
      text when there is none. The awaited value is `data.token`, the only
      field a caller reads (register ignores it); a body without one gives
      the text "undefined". */
  function Reply(r: Response): (o: ApiResult<string>)
    ensures o.Ok? <==> 200 <= r.status < 300
    ensures o.Ok? && r.body.TokenIssued? ==> o.value == r.body.token
    ensures o.Fail? && r.body.Error? && r.body.error != "" ==> o.message == r.body.error
    ensures o.Fail? ==> o.message != ""
  {
    if 200 <= r.status < 300 then Ok(if r.body.TokenIssued? then r.body.token else "undefined")
    else Fail(ThrownText(r))
  }

  /** The message the ApiService throws for a failed response: the body's
      `error` when it is truthy, otherwise "Erro na requisição: " and the
      status. */
  function ThrownText(r: Response): string
  {
    if r.body.Error? && r.body.error != "" then r.body.error else "Erro na requisição: " + NatToString(r.status)
  }

  /** The same for GET /api/auth/validate, whose awaited value is the user; a
      failure throws the same message as any other call. */
  function ValidationReply(r: Response): (o: ApiResult<Claims>)
    ensures o.Ok? <==> 200 <= r.status < 300 && r.body.Validated?
    ensures o.Ok? ==> o.value == r.body.user
    ensures !(200 <= r.status < 300) ==> o.Fail? && Reply(r) == Fail(o.message)
    ensures o.Fail? ==> o.message != ""
  {
    if 200 <= r.status < 300 && r.body.Validated? then Ok(r.body.user)
    else Fail(ThrownText(r))
  }

  /** The same for a route that answers with one task row. */
  function RowReply(r: Response): (o: ApiResult<Task>)
    ensures o.Ok? <==> 200 <= r.status < 300 && r.body.Row?
    ensures o.Ok? ==> o.value == r.body.task
    ensures !(200 <= r.status < 300) ==> o.Fail? && Reply(r) == Fail(o.message)
    ensures o.Fail? ==> o.message != ""
  {
    if 200 <= r.status < 300 && r.body.Row? then Ok(r.body.task)
    else Fail(ThrownText(r))
  }

  /** A wrong password and an unknown email look the same to the client: the
      error lands under the password field and the stored token is untouched. */
  method WrongPasswordFlagsPasswordField(s: Store, page: AuthManager, email: string, password: string)
    requires s.Valid()
    requires email != "" && password != ""
    requires forall k :: k in s.users && s.users[k].email == email ==> !s.crypto.compare(password, s.users[k].passwordHash)
    modifies page
    ensures page.loginErrors == [FieldError(PasswordField, InvalidCredentialsText)]
    ensures page.token == old(page.token) && page.containers == old(page.containers)
  {
    var r := s.Login(LoginBody(Some(email), Some(password)));
    assert r == Response(401, Error("Invalid credentials"));
    var call := page.HandleLogin(email, password, Reply(r));
  }

  /** POST /api/auth/register with a filled-in form and a new address: the
      server stores the user under the next id and answers 201, which the
      ApiService resolves. */
  method ServerRegisters(s: Store, name: string, email: string, password: string) returns (reply: ApiResult<string>)
    requires s.Valid()
    requires name != "" && email != "" && password != ""
    requires !EmailTaken(s.users, email)
    modifies s
    ensures s.Valid() && reply.Ok?
    ensures old(s.nextUserId) in s.users
    ensures s.users[old(s.nextUserId)] == User(old(s.nextUserId), name, email, s.crypto.hash(password))
  {
    var registered := s.Register(RegisterBody(Some(name), Some(email), Some(password)));
    reply := Reply(registered);
  }

  /** The registered user logs in through the component: the token the server
      signs for that user is stored and the tasks view is shown. */
  method LoginThroughPage(s: Store, page: AuthManager, id: nat, email: string, password: string)
    requires s.Valid() && SoundCrypto(s.crypto)
    requires id in s.users && s.users[id].email == email && s.users[id].passwordHash == s.crypto.hash(password)
    requires email != "" && password != ""
    modifies page
    ensures page.token == Some(s.crypto.sign(ClaimsOf(s.users[id])))
    ensures page.Shows(TasksView) && page.loginErrors == []
  {
    var loggedIn := s.Login(LoginBody(Some(email), Some(password)));
    assert s.crypto.compare(password, s.users[id].passwordHash);
    assert loggedIn == Response(200, TokenIssued(s.crypto.sign(ClaimsOf(s.users[id]))));
    var call := page.HandleLogin(email, password, Reply(loggedIn));
  }

  /** The component after the server accepted a valid registration form. */
  method PageRegistered(page: AuthManager, name: string, email: string, password: string, reply: ApiResult<string>)
    requires name != "" && email != "" && Utils.ValidateEmail(email) && |password| >= 6 && reply.Ok?
    modifies page
    ensures page.Shows(LoginView) && page.registerErrors == [] && page.token == old(page.token)
    ensures page.notice == Some(Notice(Success, RegisteredText))
  {
    var call := page.HandleRegister(name, email, password, reply);
  }

  /** A new user registers through the component: the server stores the user
      under the next id and the page moves to the login view. */
  method RegisterThroughPage(s: Store, page: AuthManager, name: string, email: string, password: string)
    requires s.Valid()
    requires name != "" && email != "" && Utils.ValidateEmail(email) && |password| >= 6
    requires !EmailTaken(s.users, email)
    modifies s, page
    ensures s.Valid() && old(s.nextUserId) in s.users
    ensures s.users[old(s.nextUserId)] == User(old(s.nextUserId), name, email, s.crypto.hash(password))
    ensures page.Shows(LoginView) && page.registerErrors == []
  {
    var reply := ServerRegisters(s, name, email, password);
    PageRegistered(page, name, email, password, reply);
  }

  /** The user logs in and the page is reloaded: the server accepts the stored
      token from the header the ApiService builds, and the reloaded component
      stays in the tasks view. */
  method LoginThenReload(s: Store, page: AuthManager, id: nat, name: string, email: string, password: string)
    returns (validated: Response)
    requires s.Valid() && SoundCrypto(s.crypto)
    requires forall c :: s.crypto.sign(c) != "" && ' ' !in s.crypto.sign(c)
    requires id in s.users && s.users[id] == User(id, name, email, s.crypto.hash(password))
    requires email != "" && password != ""
    modifies page
    ensures page.token == Some(s.crypto.sign(Claims(id, email, name)))
    ensures validated == Response(200, Validated(Claims(id, email, name)))
    ensures page.Shows(TasksView)
  {
    LoginThroughPage(s, page, id, email, password);
    var claims := Claims(id, email, name);
    assert ClaimsOf(s.users[id]) == claims;
    SignedTokenAuthenticates(s.crypto, claims);
    validated := s.Validate(ClientAuthHeader(page.token));
    var check := page.CheckAuthStatus(ValidationReply(validated));
  }

  /** Register, log in and reload: the whole session from a new address to the
      tasks view, with the server agreeing on who the user is. */
  method RegisterLoginReload(s: Store, page: AuthManager, name: string, email: string, password: string)
    returns (validated: Response)
    requires s.Valid() && SoundCrypto(s.crypto)
    requires forall c :: s.crypto.sign(c) != "" && ' ' !in s.crypto.sign(c)
    requires name != "" && email != "" && Utils.ValidateEmail(email) && |password| >= 6
    requires !EmailTaken(s.users, email)
    modifies s, page
    ensures page.token == Some(s.crypto.sign(Claims(old(s.nextUserId), email, name)))
    ensures validated == Response(200, Validated(Claims(old(s.nextUserId), email, name)))
    ensures page.Shows(TasksView)
  {
    var id := s.nextUserId;
    RegisterThroughPage(s, page, name, email, password);
    validated := LoginThenReload(s, page, id, name, email, password);
  }

  /** After a toggle, the client's copy of the task is the row the server now
      stores, provided it was before. */
  method ToggleKeepsClientInStep(s: Store, m: TaskManager, stored: Option<string>, id: nat)
    returns (req: Option<Request>)
    requires s.Valid()
    requires Authenticate(s.crypto, ClientAuthHeader(stored)).Authorized?
    requires OwnedBy(s.tasks, id, Authenticate(s.crypto, ClientAuthHeader(stored)).user.id)
    requires FindById(m.tasksData, id).Some?
    requires forall t :: t in m.tasksData && t.id == id ==> t == s.tasks[id]
    modifies s, m
    ensures req == Some(Request(Put, ItemPath(NatToString(id)), ClientAuthHeader(stored), Some(ToggleBody(old(s.tasks[id])))))
    ensures id in s.tasks && s.tasks[id] == old(s.tasks[id]).(completed := !old(s.tasks[id]).completed)
    ensures forall t :: t in m.tasksData && t.id == id ==> t == s.tasks[id]
    ensures |m.tasksData| == |old(m.tasksData)|
  {
    var task := FindById(m.tasksData, id).value;
    ToggledCopiesAgree(m.tasksData, id, task);
    var r := s.UpdateTask(ClientAuthHeader(stored), id, ToggleBody(task));
    req := m.ToggleTaskCompletion(stored, id, RowReply(r));
  }
}
