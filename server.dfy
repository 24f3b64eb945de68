/** The JSON backend: the bearer-token middleware and the eight route handlers
    over the `users` and `tasks` tables. The tables are in-memory maps keyed by
    their AUTOINCREMENT ids; password hashing and token signing are abstract. */
module Server {
  import opened Common
  import opened Text

  // ---------------------------------------------------------------------------
  // rows, bodies and responses

  /** The claims a token carries: `{ id, email, name }`. */
  datatype Claims = Claims(id: nat, email: string, name: string)

  /** A row of `users`; the password is stored only as its hash. */
  datatype User = User(id: nat, name: string, email: string, passwordHash: string)

  /** A row of `tasks`; `None` is SQL NULL. */
  datatype Task = Task(id: nat, userId: nat, title: string, description: Option<string>,
                       category: string, dueDate: Option<string>, completed: bool)

  /** The `completed` member of a task body. The route tells an absent member
      (`undefined`) from an explicit `null`: only the first keeps the stored
      value, while `null` is written to the column as NULL, which every reader
      treats as false. */
  datatype CompletedField = Absent | Null | Given(flag: bool)

  /** The JSON request bodies; in the text members an absent member and a
      `null` are both `None`, since both are bound as NULL or fail the same
      truthiness test. */
  datatype RegisterBody = RegisterBody(name: Option<string>, email: Option<string>, password: Option<string>)
  datatype LoginBody = LoginBody(email: Option<string>, password: Option<string>)
  datatype TaskBody = TaskBody(title: Option<string>, description: Option<string>, category: Option<string>,
                               dueDate: Option<string>, completed: CompletedField)

  datatype Body =
    | Message(text: string)
    | Error(error: string)
    | TokenIssued(token: string)
    | Validated(user: Claims)
    | Row(task: Task)
    | Rows(tasks: seq<Task>)

  datatype Response = Response(status: nat, body: Body)

  /** bcrypt and JSON Web Tokens, as functions of the deployment's secret:
      `hash` and `compare` stand for `bcrypt.hash(p, 10)` and `bcrypt.compare`,
      `sign` and `verify` for `jwt.sign` and `jwt.verify` with JWT_SECRET. */
  datatype Crypto = Crypto(hash: string -> string, compare: (string, string) -> bool,
                           sign: Claims -> string, verify: string -> Option<Claims>)

  /** What the libraries guarantee: a password matches its own hash, and a token
      this server signed verifies to the claims it was signed with. */
  ghost predicate SoundCrypto(c: Crypto)
  {
    && (forall p :: c.compare(p, c.hash(p)))
    && (forall claims :: c.verify(c.sign(claims)) == Some(claims))
  }

  // ---------------------------------------------------------------------------
  // authenticateToken

  /** `authHeader && authHeader.split(" ")[1]`: the second space-separated word of
      the Authorization header, when the header is present and that word is
      non-empty. The first word (the scheme) is never looked at. */
  function BearerToken(header: Option<string>): Option<string>
  {
    if !Truthy(header) then None
    else
      var words := Split(header.value, ' ');
      if |words| >= 2 && words[1] != "" then Some(words[1]) else None
  }

  lemma {:induction false} SplitWithoutSeparator(s: string, sep: char)
    requires sep !in s
    ensures Split(s, sep) == [s]
  {
    if |s| > 0 {
      SplitWithoutSeparator(s[1..], sep);
      assert s == [s[0]] + s[1..];
    }
  }

  lemma {:induction false} SplitAtFirstSeparator(a: string, b: string, sep: char)
    requires sep !in a
    ensures Split(a + [sep] + b, sep) == [a] + Split(b, sep)
  {
    var s := a + [sep] + b;
    if |a| == 0 {
      assert s[1..] == b;
    } else {
      assert s[1..] == a[1..] + [sep] + b;
      SplitAtFirstSeparator(a[1..], b, sep);
      assert [a[0]] + a[1..] == a;
    }
  }

  lemma {:induction false} SplitFirstPiece(t: string, tail: string, sep: char)
    requires sep !in t
    requires tail == "" || tail[0] == sep
    ensures Split(t + tail, sep)[0] == t
  {
    if |t| == 0 {
      assert t + tail == tail;
    } else {
      assert (t + tail)[1..] == t[1..] + tail;
      SplitFirstPiece(t[1..], tail, sep);
      assert [t[0]] + t[1..] == t;
    }
  }

  /** A header with no space in it carries no token. */
  lemma NoSpaceNoToken(header: string)
    requires ' ' !in header
    ensures BearerToken(Some(header)) == None
  {
    SplitWithoutSeparator(header, ' ');
  }

  /** The token is the second word, whatever the first word says: "Bearer",
      "Basic" or nothing at all. */
  lemma TokenIsSecondWord(scheme: string, token: string, tail: string)
    requires ' ' !in scheme && ' ' !in token && token != ""
    requires tail == "" || tail[0] == ' '
    ensures BearerToken(Some(scheme + " " + token + tail)) == Some(token)
  {
    var h := scheme + " " + token + tail;
    assert h == scheme + [' '] + (token + tail);
    SplitAtFirstSeparator(scheme, token + tail, ' ');
    SplitFirstPiece(token, tail, ' ');
  }

  /** Two spaces after the scheme leave the second word empty: no token. */
  lemma DoubleSpaceNoToken(scheme: string, rest: string)
    requires ' ' !in scheme
    ensures BearerToken(Some(scheme + "  " + rest)) == None
  {
    var h := scheme + "  " + rest;
    assert h == scheme + [' '] + ("" + [' '] + rest);
    SplitAtFirstSeparator(scheme, "" + [' '] + rest, ' ');
    SplitAtFirstSeparator("", rest, ' ');
  }

  /** The header the client's ApiService sends: "Bearer <token>" when a token is
      stored, and "" otherwise. */
  function ClientAuthHeader(stored: Option<string>): Option<string>
  {
    if Truthy(stored) then Some("Bearer " + stored.value) else Some("")
  }

  /** The middleware reads back exactly the token the client stored, provided it
      has no space in it (a signed JWT never has); no stored token is no token. */
  lemma ClientHeaderRoundTrip(stored: Option<string>)
    requires stored.Some? ==> ' ' !in stored.value
    ensures BearerToken(ClientAuthHeader(stored)) == (if Truthy(stored) then stored else None)
  {
    if Truthy(stored) {
      assert "Bearer " + stored.value == "Bearer" + " " + stored.value + "";
      TokenIsSecondWord("Bearer", stored.value, "");
    }
  }

  datatype AuthOutcome = Unauthorized | Forbidden | Authorized(user: Claims)

  /** `authenticateToken`: no token is 401, a token that fails verification is
      403, otherwise the request proceeds as the token's user. */
  function Authenticate(crypto: Crypto, header: Option<string>): AuthOutcome
  {
    match BearerToken(header)
    case None => Unauthorized
    case Some(token) =>
      match crypto.verify(token)
      case None => Forbidden
      case Some(user) => Authorized(user)
  }

  function Rejection(outcome: AuthOutcome): (r: Response)
    requires !outcome.Authorized?
  {
    if outcome.Unauthorized? then Response(401, Error("Unauthorized")) else Response(403, Error("Forbidden"))
  }

  /** A token this server signed, sent the way the client sends it, lets the
      request through as the user it was issued to. */
  lemma SignedTokenAuthenticates(crypto: Crypto, claims: Claims)
    requires SoundCrypto(crypto)
    requires crypto.sign(claims) != "" && ' ' !in crypto.sign(claims)
    ensures Authenticate(crypto, ClientAuthHeader(Some(crypto.sign(claims)))) == Authorized(claims)
  {
    ClientHeaderRoundTrip(Some(crypto.sign(claims)));
  }

  // ---------------------------------------------------------------------------
  // row construction

  /** The row `INSERT INTO tasks (user_id, title, description, category, due_date)`
      creates: the caller owns it and `completed` takes its default, false. */
  function NewRow(id: nat, owner: nat, body: TaskBody): (t: Task)
    requires Truthy(body.title) && Truthy(body.category)
    ensures t.id == id && t.userId == owner && !t.completed
    ensures t.title != "" && t.category != ""
  {
    Task(id, owner, body.title.value, body.description, body.category.value, body.dueDate, false)
  }

  /** The row after `UPDATE tasks SET title, description, category, due_date,
      completed`: the four text columns are replaced outright (an omitted
      description or due date becomes NULL); an omitted `completed` keeps the
      stored value, a `null` one stores NULL (read back as false) and a given
      one is stored. Id and owner never change. */
  function UpdatedRow(task: Task, body: TaskBody): (t: Task)
    requires Truthy(body.title) && Truthy(body.category)
    ensures t.id == task.id && t.userId == task.userId
    ensures Some(t.title) == body.title && Some(t.category) == body.category
    ensures t.description == body.description && t.dueDate == body.dueDate
    ensures body.completed.Absent? ==> t.completed == task.completed
    ensures body.completed.Null? ==> !t.completed
    ensures body.completed.Given? ==> t.completed == body.completed.flag
  {
    task.(title := body.title.value, description := body.description, category := body.category.value,
          dueDate := body.dueDate,
          completed := match body.completed
                       case Absent => task.completed
                       case Null => false
                       case Given(flag) => flag)
  }

  /** The body that copies a row's own fields and only negates `completed`. */
  function ToggleBody(task: Task): TaskBody
  {
    TaskBody(Some(task.title), task.description, Some(task.category), task.dueDate, Given(!task.completed))
  }

  /** Sending a row's own fields back with `completed` negated flips `completed`
      and changes nothing else. */
  lemma ToggleBodyOnlyFlips(task: Task)
    requires task.title != "" && task.category != ""
    ensures UpdatedRow(task, ToggleBody(task)) == task.(completed := !task.completed)
  {
  }

  /** Applying the same update twice is the same as applying it once. */
  lemma UpdateIdempotent(task: Task, body: TaskBody)
    requires Truthy(body.title) && Truthy(body.category)
    ensures UpdatedRow(UpdatedRow(task, body), body) == UpdatedRow(task, body)
  {
  }

  // ---------------------------------------------------------------------------
  // ORDER BY due_date ASC

  /** SQLite's ascending order on `due_date` for dates kept as text, such as
      the client's `YYYY-MM-DD`: NULL first, then text order. A due date that
      reads as a number is stored as one under the column's NUMERIC affinity
      and sorts before all text; such dates are outside this order. */
  predicate DueLe(a: Option<string>, b: Option<string>)
  {
    a.None? || (b.Some? && TextLe(a.value, b.value))
  }

  lemma DueLeTotal(a: Option<string>, b: Option<string>)
    ensures DueLe(a, b) || DueLe(b, a)
  {
    if a.Some? && b.Some? { TextLeTotal(a.value, b.value); }
  }

  lemma DueLeTransitive(a: Option<string>, b: Option<string>, c: Option<string>)
    requires DueLe(a, b) && DueLe(b, c)
    ensures DueLe(a, c)
  {
    if a.Some? { TextLeTransitive(a.value, b.value, c.value); }
  }

  ghost predicate SortedByDue(s: seq<Task>)
  {
    forall i, j :: 0 <= i < j < |s| ==> DueLe(s[i].dueDate, s[j].dueDate)
  }

  ghost predicate DistinctIds(s: seq<Task>)
  {
    forall i, j :: 0 <= i < j < |s| ==> s[i].id != s[j].id
  }

  /** Places `t` before the first row it sorts no later than. */
  function InsertByDue(s: seq<Task>, t: Task): (r: seq<Task>)
    ensures |r| == |s| + 1
    ensures multiset(r) == multiset(s) + multiset{t}
  {
    if |s| == 0 then [t]
    else if DueLe(t.dueDate, s[0].dueDate) then [t] + s
    else
      assert s == [s[0]] + s[1..];
      [s[0]] + InsertByDue(s[1..], t)
  }

  /** Inserting adds `t` and keeps every row that was there. */
  lemma InsertByDueMembers(s: seq<Task>, t: Task)
    ensures forall x :: x in InsertByDue(s, t) <==> x in s || x == t
  {
    var r := InsertByDue(s, t);
    forall x
      ensures x in r <==> x in s || x == t
    {
      assert x in r <==> x in multiset(r);
      assert x in s <==> x in multiset(s);
    }
  }

  lemma {:induction false} InsertByDueSorted(s: seq<Task>, t: Task)
    requires SortedByDue(s)
    ensures SortedByDue(InsertByDue(s, t))
  {
    var r := InsertByDue(s, t);
    if |s| == 0 {
    } else if DueLe(t.dueDate, s[0].dueDate) {
      forall j | 1 <= j < |r| ensures DueLe(t.dueDate, r[j].dueDate) {
        if j > 1 { DueLeTransitive(t.dueDate, s[0].dueDate, s[j - 1].dueDate); }
      }
    } else {
      InsertByDueSorted(s[1..], t);
      DueLeTotal(t.dueDate, s[0].dueDate);
      var rest := InsertByDue(s[1..], t);
      forall j | 0 <= j < |rest| ensures DueLe(s[0].dueDate, rest[j].dueDate) {
        assert rest[j] in multiset(rest);
        assert rest[j] in s[1..] || rest[j] == t;
      }
    }
  }

  lemma {:induction false} InsertByDueDistinct(s: seq<Task>, t: Task)
    requires DistinctIds(s)
    requires forall x :: x in s ==> x.id != t.id
    ensures DistinctIds(InsertByDue(s, t))
  {
    if |s| > 0 && !DueLe(t.dueDate, s[0].dueDate) {
      InsertByDueDistinct(s[1..], t);
      var rest := InsertByDue(s[1..], t);
      forall j | 0 <= j < |rest| ensures s[0].id != rest[j].id {
        assert rest[j] in multiset(rest);
        assert rest[j] in s[1..] || rest[j] == t;
      }
    }
  }

  /** The rows `SELECT * FROM tasks WHERE user_id = ? ORDER BY due_date ASC`
      returns: each of the owner's rows exactly once, no other row, and rows
      with a due date in ascending date order. Where NULL dates go is left to
      the engine and not promised. */
  ghost predicate ListsOwnedRows(rows: seq<Task>, table: map<nat, Task>, owner: nat)
  {
    && (forall i :: 0 <= i < |rows| ==> rows[i].id in table && table[rows[i].id] == rows[i] && rows[i].userId == owner)
    && (forall k :: k in table && table[k].userId == owner ==> table[k] in rows)
    && DistinctIds(rows)
    && (forall i, j :: 0 <= i < j < |rows| && rows[i].dueDate.Some? && rows[j].dueDate.Some?
          ==> TextLe(rows[i].dueDate.value, rows[j].dueDate.value))
  }

  // ---------------------------------------------------------------------------
  // the database and the routes

  ghost predicate UniqueEmails(users: map<nat, User>)
  {
    forall a, b :: a in users && b in users && users[a].email == users[b].email ==> a == b
  }

  ghost predicate EmailTaken(users: map<nat, User>, email: string)
  {
    exists k :: k in users && users[k].email == email
  }

  /** The task `id` exists and belongs to `owner`
      (`SELECT * FROM tasks WHERE id = ? AND user_id = ?` finds a row). */
  ghost predicate OwnedBy(table: map<nat, Task>, id: int, owner: nat)
  {
    id >= 0 && id as nat in table && table[id as nat].userId == owner
  }

  function ClaimsOf(u: User): Claims
  {
    Claims(u.id, u.email, u.name)
  }

  class Store {
    const crypto: Crypto
    var users: map<nat, User>
    var tasks: map<nat, Task>
    var nextUserId: nat
    var nextTaskId: nat

    /** Ids are the keys and are below the AUTOINCREMENT counters; emails are
        unique (`email TEXT UNIQUE`); title and category are never empty. */
    ghost predicate Valid()
      reads this
    {
      && 1 <= nextUserId && 1 <= nextTaskId
      && (forall k :: k in users ==> users[k].id == k && k < nextUserId)
      && (forall k :: k in tasks ==> tasks[k].id == k && k < nextTaskId)
      && (forall k :: k in tasks ==> tasks[k].title != "" && tasks[k].category != "")
      && UniqueEmails(users)
    }

    constructor (crypto: Crypto)
      ensures Valid() && this.crypto == crypto
      ensures users == map[] && tasks == map[]
    {
      this.crypto := crypto;
      users, tasks := map[], map[];
      nextUserId, nextTaskId := 1, 1;
    }

    /** POST /api/auth/register. */
    method Register(body: RegisterBody) returns (r: Response)
      requires Valid()
      modifies this
      ensures Valid()
      ensures tasks == old(tasks) && nextTaskId == old(nextTaskId)
      ensures !(Truthy(body.name) && Truthy(body.email) && Truthy(body.password)) ==>
                r == Response(400, Error("All fields are required"))
                && users == old(users) && nextUserId == old(nextUserId)
      ensures Truthy(body.name) && Truthy(body.email) && Truthy(body.password) && EmailTaken(old(users), body.email.value) ==>
                r == Response(400, Error("Email already in use"))
                && users == old(users) && nextUserId == old(nextUserId)
      ensures Truthy(body.name) && Truthy(body.email) && Truthy(body.password) && !EmailTaken(old(users), body.email.value) ==>
                r == Response(201, Message("User created successfully"))
                && old(nextUserId) !in old(users)
                && users == old(users)[old(nextUserId) := User(old(nextUserId), body.name.value, body.email.value,
                                                               crypto.hash(body.password.value))]
                && nextUserId == old(nextUserId) + 1
    {
      if !(Truthy(body.name) && Truthy(body.email) && Truthy(body.password)) {
        return Response(400, Error("All fields are required"));
      }
      var email := body.email.value;
      if exists k :: k in users && users[k].email == email {
        return Response(400, Error("Email already in use"));
      }
      var user := User(nextUserId, body.name.value, email, crypto.hash(body.password.value));
      users := users[nextUserId := user];
      nextUserId := nextUserId + 1;
      r := Response(201, Message("User created successfully"));
    }

    /** POST /api/auth/login: an unknown email and a wrong password get the same
        401 answer; a match gets a token for that user's id, email and name. */
    method Login(body: LoginBody) returns (r: Response)
      requires Valid()
      ensures !(Truthy(body.email) && Truthy(body.password)) ==>
                r == Response(400, Error("Email and password are required"))
      ensures Truthy(body.email) && Truthy(body.password) ==>
                (r.status == 200 <==> exists k :: k in users && users[k].email == body.email.value
                                                 && crypto.compare(body.password.value, users[k].passwordHash))
      ensures Truthy(body.email) && Truthy(body.password) && r.status != 200 ==>
                r == Response(401, Error("Invalid credentials"))
      ensures r.status == 200 ==>
                forall k :: k in users && users[k].email == body.email.value ==>
                  r == Response(200, TokenIssued(crypto.sign(ClaimsOf(users[k]))))
    {
      if !(Truthy(body.email) && Truthy(body.password)) {
        return Response(400, Error("Email and password are required"));
      }
      var email, password := body.email.value, body.password.value;
      if !exists k :: k in users && users[k].email == email {
        return Response(401, Error("Invalid credentials"));
      }
      var k :| k in users && users[k].email == email;
      var user := users[k];
      if !crypto.compare(password, user.passwordHash) {
        return Response(401, Error("Invalid credentials"));
      }
      r := Response(200, TokenIssued(crypto.sign(ClaimsOf(user))));
    }

    /** GET /api/auth/validate. */
    method Validate(header: Option<string>) returns (r: Response)
      ensures !Authenticate(crypto, header).Authorized? ==> r == Rejection(Authenticate(crypto, header))
      ensures Authenticate(crypto, header).Authorized? ==> r == Response(200, Validated(Authenticate(crypto, header).user))
    {
      var auth := Authenticate(crypto, header);
      if !auth.Authorized? {
        return Rejection(auth);
      }
      r := Response(200, Validated(auth.user));
    }

    /** GET /api/tasks: the caller's rows and no one else's, by due date. */
    method ListTasks(header: Option<string>) returns (r: Response)
      requires Valid()
      ensures !Authenticate(crypto, header).Authorized? ==> r == Rejection(Authenticate(crypto, header))
      ensures Authenticate(crypto, header).Authorized? ==>
                r.status == 200 && r.body.Rows?
                && ListsOwnedRows(r.body.tasks, tasks, Authenticate(crypto, header).user.id)
    {
      var auth := Authenticate(crypto, header);
      if !auth.Authorized? {
        return Rejection(auth);
      }
      var owner := auth.user.id;
      var pending := tasks.Keys;
      var rows: seq<Task> := [];
      while pending != {}
        invariant pending <= tasks.Keys
        invariant forall i :: 0 <= i < |rows| ==>
                    rows[i].id in tasks && tasks[rows[i].id] == rows[i] && rows[i].userId == owner && rows[i].id !in pending
        invariant forall k :: k in tasks && k !in pending && tasks[k].userId == owner ==> tasks[k] in rows
        invariant DistinctIds(rows)
        invariant SortedByDue(rows)
        decreases pending
      {
        var k :| k in pending;
        var row := tasks[k];
        if row.userId == owner {
          forall x | x in rows ensures x.id != row.id {
            var i :| 0 <= i < |rows| && rows[i] == x;
          }
          InsertByDueSorted(rows, row);
          InsertByDueDistinct(rows, row);
          InsertByDueMembers(rows, row);
          ghost var before := rows;
          rows := InsertByDue(rows, row);
          forall i | 0 <= i < |rows|
            ensures rows[i].id in tasks && tasks[rows[i].id] == rows[i] && rows[i].userId == owner
            ensures rows[i].id !in pending - {k}
          {
            assert rows[i] in rows;
            if rows[i] != row {
              var b :| 0 <= b < |before| && before[b] == rows[i];
            }
          }
        }
        pending := pending - {k};
      }
      r := Response(200, Rows(rows));
    }

    /** POST /api/tasks: the new row gets a fresh id, the caller as owner and
        `completed` false. */
    method CreateTask(header: Option<string>, body: TaskBody) returns (r: Response)
      requires Valid()
      modifies this
      ensures Valid()
      ensures users == old(users) && nextUserId == old(nextUserId)
      ensures !Authenticate(crypto, header).Authorized? ==>
                r == Rejection(Authenticate(crypto, header)) && tasks == old(tasks) && nextTaskId == old(nextTaskId)
      ensures Authenticate(crypto, header).Authorized? && !(Truthy(body.title) && Truthy(body.category)) ==>
                r == Response(400, Error("Title and category are required"))
                && tasks == old(tasks) && nextTaskId == old(nextTaskId)
      ensures Authenticate(crypto, header).Authorized? && Truthy(body.title) && Truthy(body.category) ==>
                var row := NewRow(old(nextTaskId), Authenticate(crypto, header).user.id, body);
                && old(nextTaskId) !in old(tasks)
                && tasks == old(tasks)[old(nextTaskId) := row]
                && nextTaskId == old(nextTaskId) + 1
                && r == Response(201, Row(row))
    {
      var auth := Authenticate(crypto, header);
      if !auth.Authorized? {
        return Rejection(auth);
      }
      if !(Truthy(body.title) && Truthy(body.category)) {
        return Response(400, Error("Title and category are required"));
      }
      var row := NewRow(nextTaskId, auth.user.id, body);
      tasks := tasks[nextTaskId := row];
      nextTaskId := nextTaskId + 1;
      r := Response(201, Row(row));
    }

    /** GET /api/tasks/:id: only the owner sees the row; anyone else, like a
        request for a missing id, gets 404. */
    method GetTask(header: Option<string>, id: int) returns (r: Response)
      ensures !Authenticate(crypto, header).Authorized? ==> r == Rejection(Authenticate(crypto, header))
      ensures Authenticate(crypto, header).Authorized? ==>
                if OwnedBy(tasks, id, Authenticate(crypto, header).user.id)
                then r == Response(200, Row(tasks[id as nat]))
                else r == Response(404, Error("Task not found"))
    {
      var auth := Authenticate(crypto, header);
      if !auth.Authorized? {
        return Rejection(auth);
      }
      if !(id >= 0 && id as nat in tasks && tasks[id as nat].userId == auth.user.id) {
        return Response(404, Error("Task not found"));
      }
      r := Response(200, Row(tasks[id as nat]));
    }

    /** PUT /api/tasks/:id: the 400 check on title and category comes before the
        ownership check; only the row with that id changes. */
    method UpdateTask(header: Option<string>, id: int, body: TaskBody) returns (r: Response)
      requires Valid()
      modifies this
      ensures Valid()
      ensures users == old(users) && nextUserId == old(nextUserId) && nextTaskId == old(nextTaskId)
      ensures !Authenticate(crypto, header).Authorized? ==>
                r == Rejection(Authenticate(crypto, header)) && tasks == old(tasks)
      ensures Authenticate(crypto, header).Authorized? && !(Truthy(body.title) && Truthy(body.category)) ==>
                r == Response(400, Error("Title and category are required")) && tasks == old(tasks)
      ensures Authenticate(crypto, header).Authorized? && Truthy(body.title) && Truthy(body.category)
              && !OwnedBy(old(tasks), id, Authenticate(crypto, header).user.id) ==>
                r == Response(404, Error("Task not found")) && tasks == old(tasks)
      ensures Authenticate(crypto, header).Authorized? && Truthy(body.title) && Truthy(body.category)
              && OwnedBy(old(tasks), id, Authenticate(crypto, header).user.id) ==>
                var row := UpdatedRow(old(tasks)[id as nat], body);
                tasks == old(tasks)[id as nat := row] && r == Response(200, Row(row))
    {
      var auth := Authenticate(crypto, header);
      if !auth.Authorized? {
        return Rejection(auth);
      }
      if !(Truthy(body.title) && Truthy(body.category)) {
        return Response(400, Error("Title and category are required"));
      }
      if !(id >= 0 && id as nat in tasks && tasks[id as nat].userId == auth.user.id) {
        return Response(404, Error("Task not found"));
      }
      var row := UpdatedRow(tasks[id as nat], body);
      tasks := tasks[id as nat := row];
      r := Response(200, Row(row));
    }

    /** DELETE /api/tasks/:id: removes exactly the caller's row with that id. */
    method DeleteTask(header: Option<string>, id: int) returns (r: Response)
      requires Valid()
      modifies this
      ensures Valid()
      ensures users == old(users) && nextUserId == old(nextUserId) && nextTaskId == old(nextTaskId)
      ensures !Authenticate(crypto, header).Authorized? ==>
                r == Rejection(Authenticate(crypto, header)) && tasks == old(tasks)
      ensures Authenticate(crypto, header).Authorized? && !OwnedBy(old(tasks), id, Authenticate(crypto, header).user.id) ==>
                r == Response(404, Error("Task not found")) && tasks == old(tasks)
      ensures Authenticate(crypto, header).Authorized? && OwnedBy(old(tasks), id, Authenticate(crypto, header).user.id) ==>
                r == Response(200, Message("Task deleted successfully")) && tasks == old(tasks) - {id as nat}
    {
      var auth := Authenticate(crypto, header);
      if !auth.Authorized? {
        return Rejection(auth);
      }
      if !(id >= 0 && id as nat in tasks && tasks[id as nat].userId == auth.user.id) {
        return Response(404, Error("Task not found"));
      }
      tasks := tasks - {id as nat};
      r := Response(200, Message("Task deleted successfully"));
    }
  }
}
