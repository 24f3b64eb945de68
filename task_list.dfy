/** The client's in-memory task list and the requests it sends, shared by the
    class-based `TaskManager` and the procedural tasks.js: both update their list
    with the same `map`, `filter` and `push` expressions after an awaited call
    succeeds, and both build the same request bodies. */
module TaskList {
  import opened Common
  import opened Text
  import opened Server

  datatype Verb = Get | Post | Put | Delete

  /** A fetch call: method, path, the Authorization header and the JSON body. */
  datatype Request = Request(verb: Verb, path: string, authorization: Option<string>, body: Option<TaskBody>)

  const TasksPath: string := "/api/tasks"

  /** `/api/tasks/<id>`. */
  function ItemPath(idText: string): string
  {
    TasksPath + "/" + idText
  }

  // ---------------------------------------------------------------------------
  // the scripts' Authorization header

  /** The header tasks.js and auth.js write by hand, `Bearer ${token}`: a
      missing token is interpolated as the text "null". */
  function ScriptAuthHeader(stored: Option<string>): (h: Option<string>)
    ensures h.Some? && |h.value| >= 7 && h.value[..7] == "Bearer "
  {
    Some("Bearer " + (if stored.Some? then stored.value else "null"))
  }

  /** With a token stored, the scripts send exactly the header the ApiService
      sends. */
  lemma ScriptHeaderAgreesWhenStored(stored: Option<string>)
    requires Truthy(stored)
    ensures ScriptAuthHeader(stored) == ClientAuthHeader(stored)
  {
  }

  /** Without a token the scripts still send a header, whose token is the word
      "null"; the server then answers 403 where the ApiService's empty header
      would get 401. */
  lemma ScriptHeaderWithoutToken(crypto: Crypto)
    requires crypto.verify("null").None?
    ensures BearerToken(ScriptAuthHeader(None)) == Some("null")
    ensures Authenticate(crypto, ScriptAuthHeader(None)) == Forbidden
    ensures Authenticate(crypto, ClientAuthHeader(None)) == Unauthorized
  {
    assert "Bearer " + "null" == "Bearer" + " " + "null" + "";
    TokenIsSecondWord("Bearer", "null", "");
  }

  // ---------------------------------------------------------------------------
  // tasksData.find

  /** `tasksData.find(t => t.id === id)`: the first entry with that id. */
  function FindById(tasks: seq<Task>, id: int): (r: Option<Task>)
    ensures r.None? <==> forall i :: 0 <= i < |tasks| ==> tasks[i].id != id
    ensures r.Some? ==> r.value in tasks && r.value.id == id
  {
    if |tasks| == 0 then None
    else if tasks[0].id == id then Some(tasks[0])
    else FindById(tasks[1..], id)
  }

  /** What `find` returns is the first entry with that id. */
  lemma {:induction false} FindByIdFirst(tasks: seq<Task>, id: int, i: nat)
    requires i < |tasks| && tasks[i].id == id
    requires forall j :: 0 <= j < i ==> tasks[j].id != id
    ensures FindById(tasks, id) == Some(tasks[i])
  {
    if i > 0 {
      FindByIdFirst(tasks[1..], id, i - 1);
    }
  }

  // ---------------------------------------------------------------------------
  // toggle: tasksData.map(t => t.id === id ? { ...t, completed: !t.completed } : t)

  function Flip(t: Task, id: int): Task
  {
    if t.id == id then t.(completed := !t.completed) else t
  }

  /** The list after a successful toggle: the same entries in the same order,
      each differing from before at most in `completed`, and `completed` changed
      exactly in the entries with that id. */
  function Toggled(tasks: seq<Task>, id: int): (r: seq<Task>)
    ensures |r| == |tasks|
    ensures forall i :: 0 <= i < |tasks| ==> r[i] == tasks[i].(completed := r[i].completed)
    ensures forall i :: 0 <= i < |tasks| ==> (r[i].completed != tasks[i].completed <==> tasks[i].id == id)
  {
    if |tasks| == 0 then [] else [Flip(tasks[0], id)] + Toggled(tasks[1..], id)
  }

  /** Toggling the same id twice restores the list. */
  lemma {:induction false} ToggleTwice(tasks: seq<Task>, id: int)
    ensures Toggled(Toggled(tasks, id), id) == tasks
  {
    if |tasks| > 0 {
      ToggleTwice(tasks[1..], id);
      var once := Toggled(tasks, id);
      assert once[1..] == Toggled(tasks[1..], id);
      assert Toggled(once, id) == [Flip(once[0], id)] + Toggled(once[1..], id);
      assert tasks == [tasks[0]] + tasks[1..];
    }
  }

  /** The list the client keeps after a toggle agrees, entry by entry, with the
      row the server stores for the request body the client sent. */
  lemma ToggleAgreesWithServer(tasks: seq<Task>, id: int, i: nat)
    requires i < |tasks| && tasks[i].id == id
    requires tasks[i].title != "" && tasks[i].category != ""
    ensures Toggled(tasks, id)[i] == UpdatedRow(tasks[i], ToggleBody(tasks[i]))
  {
    ToggleBodyOnlyFlips(tasks[i]);
  }

  /** If every copy of the task in the list was the stored row, then after the
      toggle every copy is the row the server stores after the toggle. */
  lemma ToggledCopiesAgree(tasks: seq<Task>, id: int, row: Task)
    requires row.title != "" && row.category != ""
    requires forall t :: t in tasks && t.id == id ==> t == row
    ensures forall t :: t in Toggled(tasks, id) && t.id == id ==> t == UpdatedRow(row, ToggleBody(row))
  {
    var after := Toggled(tasks, id);
    forall t | t in after && t.id == id
      ensures t == UpdatedRow(row, ToggleBody(row))
    {
      var i :| 0 <= i < |after| && after[i] == t;
      assert tasks[i] in tasks;
      ToggleAgreesWithServer(tasks, id, i);
    }
  }

  // ---------------------------------------------------------------------------
  // edit: tasksData.map(t => t.id === Number.parseInt(taskId) ? data : t)

  function ReplaceOne(t: Task, id: Option<int>, row: Task): Task
  {
    if id.Some? && t.id == id.value then row else t
  }

  /** The list after a successful edit: same length and order, every entry with
      the parsed id replaced by the server's row, every other entry untouched.
      A NaN id (`None`) matches nothing. */
  function Replaced(tasks: seq<Task>, id: Option<int>, row: Task): (r: seq<Task>)
    ensures |r| == |tasks|
    ensures forall i :: 0 <= i < |tasks| && id.Some? && tasks[i].id == id.value ==> r[i] == row
    ensures forall i :: 0 <= i < |tasks| && !(id.Some? && tasks[i].id == id.value) ==> r[i] == tasks[i]
  {
    if |tasks| == 0 then [] else [ReplaceOne(tasks[0], id, row)] + Replaced(tasks[1..], id, row)
  }

  /** An edit whose id is in no entry leaves the list as it was. */
  lemma {:induction false} ReplaceAbsent(tasks: seq<Task>, id: Option<int>, row: Task)
    requires forall t :: t in tasks ==> !(id.Some? && t.id == id.value)
    ensures Replaced(tasks, id, row) == tasks
  {
    if |tasks| > 0 {
      ReplaceAbsent(tasks[1..], id, row);
      assert tasks == [tasks[0]] + tasks[1..];
    }
  }

  /** Repeating an edit with the same row changes nothing more. */
  lemma {:induction false} ReplaceIdempotent(tasks: seq<Task>, id: Option<int>, row: Task)
    ensures Replaced(Replaced(tasks, id, row), id, row) == Replaced(tasks, id, row)
  {
    if |tasks| > 0 {
      ReplaceIdempotent(tasks[1..], id, row);
      var once := Replaced(tasks, id, row);
      assert once[1..] == Replaced(tasks[1..], id, row);
    }
  }

  /** The edit form holds the id as text; an edit opened from a task matches
      exactly that task's entries. */
  lemma EditFormMatchesItsTask(tasks: seq<Task>, task: Task, row: Task)
    ensures Replaced(tasks, ParseInt(NatToString(task.id)), row)
         == Replaced(tasks, Some(task.id as int), row)
  {
    ParseIntNatToString(task.id);
  }

  // ---------------------------------------------------------------------------
  // delete: tasksData.filter(t => t.id !== id)

  /** The list after a successful delete: the entries without that id. */
  function Without(tasks: seq<Task>, id: int): (r: seq<Task>)
    ensures |r| <= |tasks|
    ensures forall t :: t in r <==> t in tasks && t.id != id
  {
    if |tasks| == 0 then []
    else if tasks[0].id == id then Without(tasks[1..], id)
    else [tasks[0]] + Without(tasks[1..], id)
  }

  /** Filtering distributes over concatenation, so the entries that remain keep
      their relative order. */
  lemma {:induction false} WithoutConcat(a: seq<Task>, b: seq<Task>, id: int)
    ensures Without(a + b, id) == Without(a, id) + Without(b, id)
  {
    if |a| == 0 {
      assert a + b == b;
    } else {
      var ab := a + b;
      assert ab[0] == a[0];
      assert ab[1..] == a[1..] + b;
      WithoutConcat(a[1..], b, id);
      if a[0].id == id {
        calc {
          Without(ab, id);
          Without(a[1..] + b, id);
          Without(a[1..], id) + Without(b, id);
        }
      } else {
        calc {
          Without(ab, id);
          [a[0]] + Without(a[1..] + b, id);
          [a[0]] + (Without(a[1..], id) + Without(b, id));
          ([a[0]] + Without(a[1..], id)) + Without(b, id);
        }
      }
    }
  }

  /** Deleting an id no entry has leaves the list as it was. */
  lemma {:induction false} WithoutAbsent(tasks: seq<Task>, id: int)
    requires forall t :: t in tasks ==> t.id != id
    ensures Without(tasks, id) == tasks
  {
    if |tasks| > 0 {
      WithoutAbsent(tasks[1..], id);
      assert tasks == [tasks[0]] + tasks[1..];
    }
  }

  /** Removing an entry's id shortens the list. */
  lemma {:induction false} WithoutPresentShrinks(tasks: seq<Task>, id: int)
    requires exists t :: t in tasks && t.id == id
    ensures |Without(tasks, id)| < |tasks|
  {
    if tasks[0].id != id {
      assert exists t :: t in tasks[1..] && t.id == id;
      WithoutPresentShrinks(tasks[1..], id);
    }
  }

  // ---------------------------------------------------------------------------
  // the task form

  /** The task form's inputs: the heading, the hidden `#task-id`, the three text
      inputs, the due-date input with its `disabled` flag, and the "no due date"
      checkbox. */
  datatype TaskForm = TaskForm(heading: string, idField: string, title: string, description: string,
                               category: string, dueDateInput: string, dueDateDisabled: bool, noDueDate: bool)

  const NewTaskHeading: string := "Nova Tarefa"
  const EditTaskHeading: string := "Editar Tarefa"

  /** `openNewTaskForm`'s inputs: `reset()` empties the text and date inputs and
      puts the category select back on its default option; the id is cleared,
      the checkbox unchecked and the date input enabled. */
  function NewTaskForm(defaultCategory: string): (f: TaskForm)
    ensures f.heading == NewTaskHeading && f.idField == ""
    ensures f.title == "" && f.description == "" && f.category == defaultCategory && f.dueDateInput == ""
    ensures !f.noDueDate && !f.dueDateDisabled
  {
    TaskForm(NewTaskHeading, "", "", "", defaultCategory, "", false, false)
  }

  /** `openEditTaskForm` gets past the due date: a falsy date needs no
      formatting, a truthy one must be a date `toISOString` accepts
      (`isoDate` is its `YYYY-MM-DD` part, `None` when it throws). */
  predicate EditOpens(task: Task, isoDate: Option<string>)
  {
    !Truthy(task.dueDate) || isoDate.Some?
  }

  /** `openEditTaskForm`'s inputs: heading, id, title, description (or "") and
      category from the task; a truthy due date is shown formatted with the
      checkbox cleared, a falsy one as an empty, disabled input with the box
      checked. When formatting throws, the date input and checkbox keep their
      previous state. */
  function EditTaskForm(before: TaskForm, task: Task, isoDate: Option<string>): (f: TaskForm)
    ensures f.heading == EditTaskHeading && f.idField == NatToString(task.id)
    ensures ParseInt(f.idField) == Some(task.id as int)
    ensures f.title == task.title && f.category == task.category
    ensures f.description == (if Truthy(task.description) then task.description.value else "")
    ensures !Truthy(task.dueDate) ==> f.noDueDate && f.dueDateDisabled && f.dueDateInput == ""
    ensures Truthy(task.dueDate) && isoDate.Some? ==>
              !f.noDueDate && !f.dueDateDisabled && f.dueDateInput == isoDate.value
    ensures !EditOpens(task, isoDate) ==>
              f.noDueDate == before.noDueDate && f.dueDateDisabled == before.dueDateDisabled
              && f.dueDateInput == before.dueDateInput
  {
    ParseIntNatToString(task.id);
    var filled := before.(heading := EditTaskHeading, idField := NatToString(task.id), title := task.title,
                          description := if Truthy(task.description) then task.description.value else "",
                          category := task.category);
    if !Truthy(task.dueDate) then filled.(dueDateInput := "", dueDateDisabled := true, noDueDate := true)
    else if isoDate.Some? then filled.(dueDateInput := isoDate.value, dueDateDisabled := false, noDueDate := false)
    else filled
  }

  /** The checkbox's change listener: checking it empties and disables the date
      input, unchecking it enables the input again. */
  function NoDueDateChanged(f: TaskForm, checked: bool): (g: TaskForm)
    ensures g.noDueDate == checked && g.dueDateDisabled == checked
    ensures checked ==> g.dueDateInput == ""
    ensures !checked ==> g.dueDateInput == f.dueDateInput
    ensures g.(dueDateInput := f.dueDateInput, dueDateDisabled := f.dueDateDisabled, noDueDate := f.noDueDate) == f
  {
    if checked then f.(noDueDate := true, dueDateInput := "", dueDateDisabled := true)
    else f.(noDueDate := false, dueDateDisabled := false)
  }

  /** The date input's change listener: a non-empty date unchecks the box. */
  function DueDateChanged(f: TaskForm, value: string): (g: TaskForm)
    ensures g.dueDateInput == value
    ensures value != "" ==> !g.noDueDate
    ensures value == "" ==> g.noDueDate == f.noDueDate
    ensures g.(dueDateInput := f.dueDateInput, noDueDate := f.noDueDate) == f
  {
    if value != "" then f.(dueDateInput := value, noDueDate := false) else f.(dueDateInput := value)
  }

  /** The submit listener's payload: title, description and category as they
      stand, and a due date that is null exactly when "no due date" is
      checked. */
  function Submitted(f: TaskForm): (p: TaskBody)
    ensures p.dueDate.None? <==> f.noDueDate
    ensures !f.noDueDate ==> p.dueDate == Some(f.dueDateInput)
    ensures p.title == Some(f.title) && p.category == Some(f.category) && p.description == Some(f.description)
    ensures p.completed.Absent?
  {
    TaskBody(Some(f.title), Some(f.description), Some(f.category), if f.noDueDate then None else Some(f.dueDateInput), Absent)
  }

  /** Saving an edit form left as it opened: the PUT goes to the task's own
      item, the list entries with that id take the server's row, and that row is
      the task with only two columns rewritten, a NULL description becoming ""
      and the due date becoming its `YYYY-MM-DD` part (NULL when it was falsy). */
  lemma EditUnchangedRewritesTwoColumns(tasks: seq<Task>, before: TaskForm, task: Task, isoDate: Option<string>,
                                        authorization: Option<string>)
    requires task.title != "" && task.category != ""
    requires EditOpens(task, isoDate)
    ensures var f := EditTaskForm(before, task, isoDate);
            var row := UpdatedRow(task, Submitted(f));
            && SaveRequest(f.idField, authorization, Submitted(f)).path == ItemPath(NatToString(task.id))
            && AfterSave(tasks, f.idField, row) == Replaced(tasks, Some(task.id as int), row)
            && row == task.(description := Some(if Truthy(task.description) then task.description.value else ""),
                            dueDate := if Truthy(task.dueDate) then isoDate else None)
  {
    var f := EditTaskForm(before, task, isoDate);
    assert f.idField != "";
  }

  /** Entering a date sends it; checking "no due date" afterwards sends null. */
  lemma DateListenersDecidePayload(f: TaskForm, value: string)
    requires value != ""
    ensures Submitted(DueDateChanged(f, value)).dueDate == Some(value)
    ensures Submitted(NoDueDateChanged(DueDateChanged(f, value), true)).dueDate.None?
  {
  }

  /** `saveTask`'s call: PUT to the item when the hidden id field is non-empty,
      POST to the collection otherwise. */
  function SaveRequest(idField: string, authorization: Option<string>, payload: TaskBody): (r: Request)
    ensures r.body == Some(payload) && r.authorization == authorization
    ensures idField != "" <==> r.verb == Put
    ensures idField != "" ==> r.path == ItemPath(idField)
    ensures idField == "" ==> r.verb == Post && r.path == TasksPath
  {
    if idField != "" then Request(Put, ItemPath(idField), authorization, Some(payload))
    else Request(Post, TasksPath, authorization, Some(payload))
  }

  /** The list after `saveTask` gets the server's row: an edit replaces the
      matching entries, a creation appends the row. */
  function AfterSave(tasks: seq<Task>, idField: string, row: Task): (r: seq<Task>)
    ensures idField != "" ==> |r| == |tasks|
    ensures idField == "" ==> |r| == |tasks| + 1 && r[..|tasks|] == tasks && r[|tasks|] == row
  {
    if idField != "" then Replaced(tasks, ParseInt(idField), row) else tasks + [row]
  }

  /** JavaScript truthiness of `taskToDeleteId`: null and the id 0 are falsy. */
  predicate TruthyId(id: Option<nat>)
  {
    id.Some? && id.value != 0
  }

  // ---------------------------------------------------------------------------
  // notifications

  const LoadFailedText: string := "Não foi possível carregar as tarefas. Tente novamente mais tarde."
  const ToggleFailedText: string := "Não foi possível atualizar a tarefa. Tente novamente."
  const DeletedText: string := "Tarefa excluída com sucesso!"
  const DeleteFailedText: string := "Não foi possível excluir a tarefa. Tente novamente."

  /** The toast after a toggle, worded by the state the task had before it. */
  function ToggledText(wasCompleted: bool): string
  {
    "Tarefa " + (if wasCompleted then "desmarcada" else "marcada como concluída") + " com sucesso!"
  }

  function SavedText(editing: bool): string
  {
    if editing then "Tarefa atualizada com sucesso!" else "Tarefa criada com sucesso!"
  }

  function SaveFailedText(editing: bool): string
  {
    "Não foi possível " + (if editing then "atualizar" else "criar") + " a tarefa. Tente novamente."
  }
}
