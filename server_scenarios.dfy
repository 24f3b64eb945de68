/** Request sequences against the backend, proved from the route contracts alone:
    register-then-login, duplicate registration, owner isolation, create-then-get,
    delete twice, and the due-date order of a listing. */
module ServerScenarios {
  import opened Common
  import opened Text
  import opened Server

  /** After registering, logging in with the same credentials yields a token for
      the new user's id, email and name. */
  method RegisterThenLogin(s: Store, name: string, email: string, password: string)
    returns (registered: Response, loggedIn: Response)
    requires s.Valid() && SoundCrypto(s.crypto)
    requires name != "" && email != "" && password != ""
    requires !EmailTaken(s.users, email)
    modifies s
    ensures registered.status == 201
    ensures loggedIn == Response(200, TokenIssued(s.crypto.sign(Claims(old(s.nextUserId), email, name))))
  {
    registered := s.Register(RegisterBody(Some(name), Some(email), Some(password)));
    ghost var id := old(s.nextUserId);
    assert s.users[id].email == email;
    loggedIn := s.Login(LoginBody(Some(email), Some(password)));
  }

  /** A second registration with the same email is refused and adds no user. */
  method RegisterTwice(s: Store, name: string, email: string, password: string, otherName: string)
    returns (first: Response, second: Response)
    requires s.Valid()
    requires name != "" && email != "" && password != "" && otherName != ""
    requires !EmailTaken(s.users, email)
    modifies s
    ensures first.status == 201
    ensures second == Response(400, Error("Email already in use"))
    ensures |s.users| == |old(s.users)| + 1
  {
    first := s.Register(RegisterBody(Some(name), Some(email), Some(password)));
    assert s.users[old(s.nextUserId)].email == email;
    second := s.Register(RegisterBody(Some(otherName), Some(email), Some(password)));
  }

  /** Creating a task and fetching it returns it with `completed` false and the
      submitted title, category and due date. */
  method CreateThenGet(s: Store, header: Option<string>, title: string, category: string, due: Option<string>)
    returns (created: Response, fetched: Response)
    requires s.Valid() && Authenticate(s.crypto, header).Authorized?
    requires title != "" && category != ""
    modifies s
    ensures created.status == 201
    ensures fetched.status == 200 && fetched.body.Row?
    ensures !fetched.body.task.completed
    ensures fetched.body.task.title == title && fetched.body.task.category == category
    ensures fetched.body.task.dueDate == due
  {
    created := s.CreateTask(header, TaskBody(Some(title), None, Some(category), due, Absent));
    fetched := s.GetTask(header, created.body.task.id);
  }

  /** A task created by one user is invisible and untouchable for another: get,
      update and delete all answer 404 and the table is left as it was. */
  method OtherUserGetsNotFound(s: Store, owner: Option<string>, intruder: Option<string>, body: TaskBody, change: TaskBody)
    returns (got: Response, updated: Response, deleted: Response)
    requires s.Valid()
    requires Authenticate(s.crypto, owner).Authorized? && Authenticate(s.crypto, intruder).Authorized?
    requires Authenticate(s.crypto, owner).user.id != Authenticate(s.crypto, intruder).user.id
    requires Truthy(body.title) && Truthy(body.category)
    requires Truthy(change.title) && Truthy(change.category)
    modifies s
    ensures got.status == 404 && updated.status == 404 && deleted.status == 404
    ensures s.tasks == old(s.tasks)[old(s.nextTaskId) := NewRow(old(s.nextTaskId), Authenticate(s.crypto, owner).user.id, body)]
  {
    var created := s.CreateTask(owner, body);
    var id := created.body.task.id;
    ghost var afterCreate := s.tasks;
    got := s.GetTask(intruder, id);
    updated := s.UpdateTask(intruder, id, change);
    deleted := s.DeleteTask(intruder, id);
    assert s.tasks == afterCreate;
  }

  /** Deleting removes the row from later listings, and a second delete of the
      same id answers 404. */
  method DeleteTwice(s: Store, header: Option<string>, id: nat)
    returns (first: Response, listed: Response, second: Response)
    requires s.Valid() && Authenticate(s.crypto, header).Authorized?
    requires OwnedBy(s.tasks, id, Authenticate(s.crypto, header).user.id)
    modifies s
    ensures first.status == 200
    ensures listed.body.Rows? && forall t :: t in listed.body.tasks ==> t.id != id
    ensures second == Response(404, Error("Task not found"))
  {
    first := s.DeleteTask(header, id);
    listed := s.ListTasks(header);
    second := s.DeleteTask(header, id);
  }

  /** In a listing, a row dated strictly earlier comes before a row dated later. */
  lemma EarlierDueListedFirst(rows: seq<Task>, table: map<nat, Task>, owner: nat, i: nat, j: nat)
    requires ListsOwnedRows(rows, table, owner)
    requires i < |rows| && j < |rows|
    requires rows[i].dueDate.Some? && rows[j].dueDate.Some?
    requires !TextLe(rows[j].dueDate.value, rows[i].dueDate.value)
    ensures i < j
  {
    TextLeTotal(rows[i].dueDate.value, rows[j].dueDate.value);
  }

  /** The listing of tasks due 2024-01-01 and 2024-03-01 puts 2024-01-01 first. */
  lemma JanuaryBeforeMarch(rows: seq<Task>, table: map<nat, Task>, owner: nat, i: nat, j: nat)
    requires ListsOwnedRows(rows, table, owner)
    requires i < |rows| && j < |rows|
    requires rows[i].dueDate == Some("2024-01-01") && rows[j].dueDate == Some("2024-03-01")
    ensures i < j
  {
    assert !TextLe("2024-03-01", "2024-01-01");
    EarlierDueListedFirst(rows, table, owner, i, j);
  }
}
