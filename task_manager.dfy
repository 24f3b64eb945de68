/** The `TaskManager` component: the client's task list `tasksData`, the id
    waiting for delete confirmation, and the handlers that call the API and
    update the list once the awaited call has succeeded. Requests go through
    the ApiService, whose Authorization header is `ClientAuthHeader` of the
    stored token; the outcome of each call is a parameter. */
module TaskManagerComponent {
  import opened Common
  import opened Text
  import opened Server
  import opened TaskList

  class TaskManager {
    var tasksData: seq<Task>
    var taskToDeleteId: Option<nat>
    /** The delete confirmation modal is shown. */
    var confirmOpen: bool
    /** The task form container is shown. */
    var formOpen: bool
    /** The task form's inputs. */
    var form: TaskForm
    /** The last toast shown. */
    var notice: Option<Notice>

    constructor (initialForm: TaskForm)
      ensures tasksData == [] && taskToDeleteId == None
      ensures !confirmOpen && !formOpen && notice == None && form == initialForm
    {
      form := initialForm;
      tasksData := [];
      taskToDeleteId := None;
      confirmOpen := false;
      formOpen := false;
      notice := None;
    }

    /** `loadTasks`: GET /api/tasks; on success the list is replaced wholesale by
        the server's rows, on failure it is kept and an error toast is shown. */
    method LoadTasks(stored: Option<string>, outcome: ApiResult<seq<Task>>) returns (req: Request)
      modifies this
      ensures form == old(form)
      ensures req == Request(Get, TasksPath, ClientAuthHeader(stored), None)
      ensures outcome.Ok? ==> tasksData == outcome.value && notice == old(notice)
      ensures outcome.Fail? ==> tasksData == old(tasksData) && notice == Some(Notice(Failure, LoadFailedText))
      ensures taskToDeleteId == old(taskToDeleteId) && confirmOpen == old(confirmOpen) && formOpen == old(formOpen)
    {
      req := Request(Get, TasksPath, ClientAuthHeader(stored), None);
      match outcome
      case Ok(rows) =>
        tasksData := rows;
      case Fail(_) =>
        notice := Some(Notice(Failure, LoadFailedText));
    }

    /** `toggleTaskCompletion`: an id not in the list sends nothing and changes
        nothing. Otherwise the task's own fields go back with `completed`
        negated, and after success exactly that id's entries flip `completed`. */
    method ToggleTaskCompletion(stored: Option<string>, taskId: nat, outcome: ApiResult<Task>)
      returns (req: Option<Request>)
      modifies this
      ensures form == old(form)
      ensures FindById(old(tasksData), taskId).None? ==>
                req.None? && tasksData == old(tasksData) && notice == old(notice)
      ensures FindById(old(tasksData), taskId).Some? ==>
                var task := FindById(old(tasksData), taskId).value;
                && req == Some(Request(Put, ItemPath(NatToString(taskId)), ClientAuthHeader(stored), Some(ToggleBody(task))))
                && (outcome.Ok? ==> tasksData == Toggled(old(tasksData), taskId)
                                    && notice == Some(Notice(Success, ToggledText(task.completed))))
                && (outcome.Fail? ==> tasksData == old(tasksData) && notice == Some(Notice(Failure, ToggleFailedText)))
      ensures taskToDeleteId == old(taskToDeleteId) && confirmOpen == old(confirmOpen) && formOpen == old(formOpen)
    {
      var found := FindById(tasksData, taskId);
      if found.None? {
        return None;
      }
      var task := found.value;
      req := Some(Request(Put, ItemPath(NatToString(taskId)), ClientAuthHeader(stored), Some(ToggleBody(task))));
      match outcome
      case Ok(_) =>
        tasksData := Toggled(tasksData, taskId);
        notice := Some(Notice(Success, ToggledText(task.completed)));
      case Fail(_) =>
        notice := Some(Notice(Failure, ToggleFailedText));
    }

    /** `openNewTaskForm`: a blank creation form, shown. */
    method OpenNewTaskForm(defaultCategory: string)
      modifies this
      ensures form == NewTaskForm(defaultCategory) && formOpen
      ensures tasksData == old(tasksData) && taskToDeleteId == old(taskToDeleteId)
      ensures confirmOpen == old(confirmOpen) && notice == old(notice)
    {
      form := NewTaskForm(defaultCategory);
      formOpen := true;
    }

    /** `openEditTaskForm`: the form filled from `task`, shown unless formatting
        its due date throws. */
    method OpenEditTaskForm(task: Task, isoDate: Option<string>)
      modifies this
      ensures form == EditTaskForm(old(form), task, isoDate)
      ensures formOpen == (old(formOpen) || EditOpens(task, isoDate))
      ensures tasksData == old(tasksData) && taskToDeleteId == old(taskToDeleteId)
      ensures confirmOpen == old(confirmOpen) && notice == old(notice)
    {
      form := EditTaskForm(form, task, isoDate);
      if EditOpens(task, isoDate) {
        formOpen := true;
      }
    }

    /** `closeTaskForm`: hide the form, leaving its inputs as they are. */
    method CloseTaskForm()
      modifies this
      ensures !formOpen && form == old(form)
      ensures tasksData == old(tasksData) && taskToDeleteId == old(taskToDeleteId)
      ensures confirmOpen == old(confirmOpen) && notice == old(notice)
    {
      formOpen := false;
    }

    /** The "no due date" checkbox's change listener. */
    method OnNoDueDateChange(checked: bool)
      modifies this
      ensures form == NoDueDateChanged(old(form), checked)
      ensures tasksData == old(tasksData) && taskToDeleteId == old(taskToDeleteId) && formOpen == old(formOpen)
      ensures confirmOpen == old(confirmOpen) && notice == old(notice)
    {
      form := NoDueDateChanged(form, checked);
    }

    /** The due-date input's change listener. */
    method OnDueDateChange(value: string)
      modifies this
      ensures form == DueDateChanged(old(form), value)
      ensures tasksData == old(tasksData) && taskToDeleteId == old(taskToDeleteId) && formOpen == old(formOpen)
      ensures confirmOpen == old(confirmOpen) && notice == old(notice)
    {
      form := DueDateChanged(form, value);
    }

    /** `saveTask`: an edit (non-empty id field) PUTs to the item and replaces the
        entries with the parsed id by the server's row; a creation POSTs and
        appends the row. Success closes the form; failure keeps the list. */
    method SaveTask(stored: Option<string>, payload: TaskBody, outcome: ApiResult<Task>)
      returns (req: Request)
      modifies this
      ensures req == SaveRequest(form.idField, ClientAuthHeader(stored), payload)
      ensures outcome.Ok? ==> && tasksData == AfterSave(old(tasksData), form.idField, outcome.value)
                              && !formOpen
                              && notice == Some(Notice(Success, SavedText(form.idField != "")))
      ensures outcome.Fail? ==> && tasksData == old(tasksData)
                                && formOpen == old(formOpen)
                                && notice == Some(Notice(Failure, SaveFailedText(form.idField != "")))
      ensures form == old(form) && taskToDeleteId == old(taskToDeleteId) && confirmOpen == old(confirmOpen)
    {
      var editing := form.idField != "";
      req := SaveRequest(form.idField, ClientAuthHeader(stored), payload);
      match outcome
      case Ok(row) =>
        if editing {
          tasksData := Replaced(tasksData, ParseInt(form.idField), row);
        } else {
          tasksData := tasksData + [row];
        }
        notice := Some(Notice(Success, SavedText(editing)));
        formOpen := false;
      case Fail(_) =>
        notice := Some(Notice(Failure, SaveFailedText(editing)));
    }

    /** `handleTaskFormSubmit`: builds the payload from the form fields and saves
        it; the due date sent is null exactly when "no due date" is checked. */
    method HandleTaskFormSubmit(stored: Option<string>, outcome: ApiResult<Task>) returns (req: Request)
      modifies this
      ensures req == SaveRequest(old(form).idField, ClientAuthHeader(stored), Submitted(old(form)))
      ensures req.body.Some? && (req.body.value.dueDate.None? <==> old(form).noDueDate)
      ensures outcome.Ok? ==> tasksData == AfterSave(old(tasksData), old(form).idField, outcome.value) && !formOpen
      ensures outcome.Fail? ==> tasksData == old(tasksData) && formOpen == old(formOpen)
      ensures notice == Some(if outcome.Ok? then Notice(Success, SavedText(old(form).idField != ""))
                             else Notice(Failure, SaveFailedText(old(form).idField != "")))
      ensures form == old(form) && taskToDeleteId == old(taskToDeleteId) && confirmOpen == old(confirmOpen)
    {
      req := SaveTask(stored, Submitted(form), outcome);
    }

    /** `deleteTask`: DELETE the item; after success every entry with that id is
        gone and the others keep their order. */
    method DeleteTask(stored: Option<string>, taskId: nat, outcome: ApiResult<string>) returns (req: Request)
      modifies this
      ensures form == old(form)
      ensures req == Request(Delete, ItemPath(NatToString(taskId)), ClientAuthHeader(stored), None)
      ensures outcome.Ok? ==> tasksData == Without(old(tasksData), taskId) && notice == Some(Notice(Success, DeletedText))
      ensures outcome.Fail? ==> tasksData == old(tasksData) && notice == Some(Notice(Failure, DeleteFailedText))
      ensures taskToDeleteId == old(taskToDeleteId) && confirmOpen == old(confirmOpen) && formOpen == old(formOpen)
    {
      req := Request(Delete, ItemPath(NatToString(taskId)), ClientAuthHeader(stored), None);
      match outcome
      case Ok(_) =>
        tasksData := Without(tasksData, taskId);
        notice := Some(Notice(Success, DeletedText));
      case Fail(_) =>
        notice := Some(Notice(Failure, DeleteFailedText));
    }

    /** `showDeleteConfirmation`: remember the id and open the modal. */
    method ShowDeleteConfirmation(taskId: nat)
      modifies this
      ensures form == old(form)
      ensures taskToDeleteId == Some(taskId) && confirmOpen
      ensures tasksData == old(tasksData) && formOpen == old(formOpen) && notice == old(notice)
    {
      taskToDeleteId := Some(taskId);
      confirmOpen := true;
    }

    /** `closeDeleteConfirmation`: close the modal and forget the id. */
    method CloseDeleteConfirmation()
      modifies this
      ensures form == old(form)
      ensures taskToDeleteId == None && !confirmOpen
      ensures tasksData == old(tasksData) && formOpen == old(formOpen) && notice == old(notice)
    {
      confirmOpen := false;
      taskToDeleteId := None;
    }

    /** The confirm button: with a truthy pending id, delete it and close the
        modal (clearing the id); otherwise do nothing at all. */
    method ConfirmDelete(stored: Option<string>, outcome: ApiResult<string>) returns (req: Option<Request>)
      modifies this
      ensures form == old(form)
      ensures TruthyId(old(taskToDeleteId)) ==>
                && req == Some(Request(Delete, ItemPath(NatToString(old(taskToDeleteId).value)), ClientAuthHeader(stored), None))
                && taskToDeleteId == None && !confirmOpen
                && (outcome.Ok? ==> tasksData == Without(old(tasksData), old(taskToDeleteId).value))
                && (outcome.Fail? ==> tasksData == old(tasksData))
                && notice == Some(if outcome.Ok? then Notice(Success, DeletedText) else Notice(Failure, DeleteFailedText))
      ensures !TruthyId(old(taskToDeleteId)) ==>
                && req.None?
                && tasksData == old(tasksData) && taskToDeleteId == old(taskToDeleteId)
                && confirmOpen == old(confirmOpen) && notice == old(notice)
      ensures formOpen == old(formOpen)
    {
      if TruthyId(taskToDeleteId) {
        var sent := DeleteTask(stored, taskToDeleteId.value, outcome);
        req := Some(sent);
        CloseDeleteConfirmation();
      } else {
        req := None;
      }
    }
  }
}
