/** The task detail page (src/pages/TaskDetail.tsx): its guards, which
    actions it offers for the task's completion state, and its complete and
    delete handlers. `tasks` is the store's list, the one `getTaskById`
    searches. */
module TaskDetail {
  import opened Optional
  import opened Seqs
  import opened TaskTypes
  import opened TaskReducer
  import opened TaskContext
  import EditTask
  import Auth

  /** Line 59, negated: the visitor owns the task or is a manager. */
  predicate MayView(user: Option<Auth.User>, task: Task)
  {
    user.Some? && (user.value.id == task.userId || user.value.role == Auth.Manager)
  }

  /** What the rendered page shows besides the task's own fields. */
  datatype DetailView = DetailView(
    task: Task,
    offersComplete: bool,
    offersEdit: bool,
    offersAddAttachment: bool,
    showsDaysPending: bool,
    showsCompletedBadge: bool,
    completionDate: Option<string>)

  datatype DetailPage = Redirect(to: string) | Detail(view: DetailView)

  /** Lines 130-218: the parts of the page that depend on completion. The
      completion date needs `isCompleted` and a non-empty `completedAt`
      (line 136). */
  function ViewOf(task: Task): (v: DetailView)
    ensures v.task == task
    ensures v.offersComplete <==> !task.isCompleted
    ensures v.offersEdit <==> !task.isCompleted
    ensures v.offersAddAttachment <==> !task.isCompleted
    ensures v.showsDaysPending <==> !task.isCompleted
    ensures v.showsCompletedBadge <==> task.isCompleted
    ensures v.completionDate.Some? <==> task.isCompleted && task.completedAt.Some? && task.completedAt.value != ""
    ensures v.completionDate.Some? ==> v.completionDate == task.completedAt
  {
    var open := !task.isCompleted;
    var date := if task.isCompleted && task.completedAt.Some? && task.completedAt.value != "" then task.completedAt else None;
    DetailView(task, open, open, open, open, task.isCompleted, date)
  }

  /** Lines 46-62: no id and unknown ids go to "/", and so does a visitor who
      neither owns the task nor is a manager (no session included). */
  function TaskDetailPage(taskId: Option<string>, tasks: seq<Task>, user: Option<Auth.User>): (p: DetailPage)
    ensures p.Redirect? ==> p.to == "/"
    ensures p.Detail? <==>
      EditTask.HasParam(taskId) && FindById(tasks, taskId.value).Some? && MayView(user, FindById(tasks, taskId.value).value)
    ensures p.Detail? ==> (p.view == ViewOf(FindById(tasks, taskId.value).value) &&
      p.view.task in tasks && p.view.task.id == taskId.value)
  {
    if !EditTask.HasParam(taskId) then Redirect("/")
    else
      match FindById(tasks, taskId.value)
      case None => Redirect("/")
      case Some(task) =>
        if !MayView(user, task) then Redirect("/")
        else Detail(ViewOf(task))
  }

  /** A manager may view what they may not edit: the detail page of another
      user's open task shows them an Edit link, and following it sends them
      back to "/". */
  lemma ManagerEditLinkRedirects(taskId: string, tasks: seq<Task>, m: Auth.User)
    requires taskId != "" && m.role == Auth.Manager
    requires FindById(tasks, taskId).Some? && !FindById(tasks, taskId).value.isCompleted
    requires FindById(tasks, taskId).value.userId != m.id
    ensures TaskDetailPage(Some(taskId), tasks, Some(m)).Detail?
    ensures TaskDetailPage(Some(taskId), tasks, Some(m)).view.offersEdit
    ensures EditTask.EditTaskPage(Some(taskId), tasks, Some(m)) == EditTask.Redirect("/")
  {
  }

  /** Whoever may edit a task may also view it. */
  lemma EditableIsViewable(taskId: Option<string>, tasks: seq<Task>, user: Option<Auth.User>)
    requires EditTask.EditTaskPage(taskId, tasks, user).EditForm?
    ensures TaskDetailPage(taskId, tasks, user).Detail?
    ensures TaskDetailPage(taskId, tasks, user).view.task == EditTask.EditTaskPage(taskId, tasks, user).task
  {
  }

  /** `handleComplete` (lines 64-66); `now` is the store's clock reading. */
  method HandleComplete(store: TaskProvider, task: Task, now: string)
    modifies store
    ensures store.state == old(store.state).(tasks := CompleteTasks(old(store.state.tasks), task.id, now))
    ensures store.stored == Some(store.state.tasks)
  {
    store.CompleteTask(task.id, now);
  }

  /** The store's lookup after a completion finds the completed copy of
      what it found before. */
  lemma FindCompleted(tasks: seq<Task>, id: string, now: string)
    requires FindById(tasks, id).Some?
    ensures FindById(CompleteTasks(tasks, id, now), id) == Some(Completed(FindById(tasks, id).value, now))
  {
    var r := CompleteTasks(tasks, id, now);
    var i :| 0 <= i < |tasks| && tasks[i] == FindById(tasks, id).value && tasks[i].id == id &&
      forall j :: 0 <= j < i ==> tasks[j].id != id;
    assert r[i] == Completed(tasks[i], now);
    assert forall j :: 0 <= j < i ==> r[j].id != r[i].id by {
      forall j | 0 <= j < i
        ensures r[j].id != r[i].id
      {
        assert Ids(r)[j] == Ids(tasks)[j];
      }
    }
    EditTask.FindByIdFirst(r, i);
  }

  /** After completing, the page for that id shows the task completed at
      `now` and offers neither Complete, Edit nor Add Attachment. */
  lemma CompletedPageLocksActions(tasks: seq<Task>, id: string, now: string)
    requires FindById(tasks, id).Some?
    ensures var f := FindById(CompleteTasks(tasks, id, now), id);
      f.Some? && f.value == FindById(tasks, id).value.(isCompleted := true, completedAt := Some(now)) &&
      !ViewOf(f.value).offersComplete && !ViewOf(f.value).offersEdit && !ViewOf(f.value).offersAddAttachment
  {
    FindCompleted(tasks, id, now);
  }

  /** `handleDelete` (lines 68-71): delete this id, then go to "/". */
  method HandleDelete(store: TaskProvider, task: Task) returns (navigateTo: string)
    modifies store
    ensures navigateTo == "/"
    ensures store.state == old(store.state).(tasks := DeleteTasks(old(store.state.tasks), task.id))
    ensures store.stored == Some(store.state.tasks)
  {
    store.DeleteTask(task.id);
    navigateTo := "/";
  }

  /** Once deleted, the id is gone: its detail page redirects for everyone. */
  lemma DeletedTaskRedirects(tasks: seq<Task>, id: string, user: Option<Auth.User>)
    ensures TaskDetailPage(Some(id), DeleteTasks(tasks, id), user) == Redirect("/")
  {
  }
}
