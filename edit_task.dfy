/** The edit page (src/pages/EditTask.tsx): a chain of guards that send the
    visitor back to "/" unless the task exists and belongs to them, and
    otherwise the task form in edit mode. `tasks` is the store's list, the
    one `getTaskById` searches. */
module EditTask {
  import opened Optional
  import opened TaskTypes
  import opened TaskContext
  import TaskForm
  import Auth

  /** The route parameter is usable: present and, as JavaScript truthiness
      has it, not the empty string. */
  predicate HasParam(taskId: Option<string>)
  {
    taskId.Some? && taskId.value != ""
  }

  /** What the page does: navigate away, or show the form for a task. */
  datatype EditPage = Redirect(to: string) | EditForm(task: Task)

  /** Lines 15-44: no id, an unknown id, or a visitor who is not the owner
      (no session at all included) is redirected to "/". */
  function EditTaskPage(taskId: Option<string>, tasks: seq<Task>, user: Option<Auth.User>): (p: EditPage)
    ensures p.Redirect? ==> p.to == "/"
    ensures !HasParam(taskId) ==> p.Redirect?
    ensures HasParam(taskId) && FindById(tasks, taskId.value).None? ==> p.Redirect?
    ensures p.EditForm? <==>
      HasParam(taskId) && FindById(tasks, taskId.value).Some? &&
      user.Some? && user.value.id == FindById(tasks, taskId.value).value.userId
    ensures p.EditForm? ==> p.task in tasks && p.task.id == taskId.value && p.task.userId == user.value.id
  {
    if !HasParam(taskId) then Redirect("/")
    else
      match FindById(tasks, taskId.value)
      case None => Redirect("/")
      case Some(task) =>
        if user.None? || user.value.id != task.userId then Redirect("/")
        else EditForm(task)
  }

  /** Being a manager does not help: a manager who does not own the task is
      redirected like anyone else. */
  lemma ManagersCannotEditOthersTasks(taskId: string, tasks: seq<Task>, m: Auth.User)
    requires m.role == Auth.Manager
    requires forall t :: t in tasks && t.id == taskId ==> t.userId != m.id
    ensures EditTaskPage(Some(taskId), tasks, Some(m)) == Redirect("/")
  {
  }

  /** The owner of the first task with that id gets the form for that exact
      task, prefilled with its values. */
  lemma OwnerGetsForm(i: int, tasks: seq<Task>, u: Auth.User, today: string)
    requires 0 <= i < |tasks| && tasks[i].id != "" && tasks[i].userId == u.id
    requires forall j :: 0 <= j < i ==> tasks[j].id != tasks[i].id
    ensures EditTaskPage(Some(tasks[i].id), tasks, Some(u)) == EditForm(tasks[i])
    ensures TaskForm.Defaults(Some(tasks[i]), today).title == tasks[i].title
    ensures TaskForm.Defaults(Some(tasks[i]), today).description == tasks[i].description
  {
    FindByIdFirst(tasks, i);
  }

  /** The first task with an id is the one `getTaskById` finds. */
  lemma {:induction false} FindByIdFirst(tasks: seq<Task>, i: int)
    requires 0 <= i < |tasks|
    requires forall j :: 0 <= j < i ==> tasks[j].id != tasks[i].id
    ensures FindById(tasks, tasks[i].id) == Some(tasks[i])
  {
    if i > 0 {
      FindByIdFirst(tasks[1..], i - 1);
    }
  }
}
