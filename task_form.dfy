/** The add/edit task form (src/components/TaskForm.tsx): its validation
    schema, its default values and what a submit sends to the store. The
    string lengths of the schema are counted in characters. */
module TaskForm {
  import opened Optional
  import opened TaskTypes
  import opened TaskReducer
  import opened TaskContext
  import Auth

  /** The raw field values of the form. */
  datatype FormValues = FormValues(title: string, description: string, userPriority: string, dueDate: string)

  /** Values the schema accepted, the priority parsed. */
  datatype TaskValues = TaskValues(title: string, description: string, userPriority: Priority, dueDate: string)

  /** `taskSchema` (lines 30-41): title of at least 3 characters, description
      of at least 5, one of the four priority names, a non-empty due date. */
  function ValidateTask(v: FormValues): (r: Option<TaskValues>)
    ensures r.Some? <==>
      |v.title| >= 3 && |v.description| >= 5 &&
      v.userPriority in {"low", "medium", "high", "urgent"} && |v.dueDate| >= 1
    ensures r.Some? ==>
      r.value.title == v.title && r.value.description == v.description &&
      PriorityName(r.value.userPriority) == v.userPriority && r.value.dueDate == v.dueDate
  {
    var p := ParsePriority(v.userPriority);
    if |v.title| >= 3 && |v.description| >= 5 && p.Some? && |v.dueDate| >= 1 then
      Some(TaskValues(v.title, v.description, p.value, v.dueDate))
    else None
  }

  /** The values a submit hands back to the form's fields. */
  function AsFormValues(t: TaskValues): FormValues
  {
    FormValues(t.title, t.description, PriorityName(t.userPriority), t.dueDate)
  }

  /** Accepted values are exactly what the schema returns for them. */
  lemma ValidateRoundTrip(t: TaskValues)
    requires |t.title| >= 3 && |t.description| >= 5 && |t.dueDate| >= 1
    ensures ValidateTask(AsFormValues(t)) == Some(t)
  {
  }

  /** `defaultValues` (lines 59-64), with JavaScript's `||`: the task's own
      values when one is given, else empty text, "medium" and today; an
      empty due date also falls back to today. */
  function Defaults(task: Option<Task>, today: string): (v: FormValues)
    ensures task.None? ==> v == FormValues("", "", "medium", today)
    ensures task.Some? ==>
      v.title == task.value.title && v.description == task.value.description &&
      v.userPriority == PriorityName(task.value.userPriority) &&
      v.dueDate == (if task.value.dueDate != "" then task.value.dueDate else today)
  {
    match task
    case None => FormValues("", "", "medium", today)
    case Some(t) =>
      FormValues(t.title, t.description, PriorityName(t.userPriority),
                 if t.dueDate != "" then t.dueDate else today)
  }

  /** The empty add form is rejected until the user fills it in. */
  lemma BlankFormInvalid(today: string)
    ensures ValidateTask(Defaults(None, today)).None?
  {
  }

  /** Editing a task whose fields already meet the schema can be submitted
      unchanged, and gives back that task's own values. */
  lemma EditDefaultsValid(t: Task, today: string)
    requires |t.title| >= 3 && |t.description| >= 5 && t.dueDate != ""
    ensures ValidateTask(Defaults(Some(t), today)) ==
      Some(TaskValues(t.title, t.description, t.userPriority, t.dueDate))
  {
  }

  /** The one store call a submit makes. */
  datatype Submission = Update(task: Task) | Add(newTask: NewTask)

  /** `onSubmit` (lines 68-86): in edit mode with a task, that task with the
      four form fields replaced; otherwise a new task owned by the user (or
      by "" without one), status "todo", no help requested. */
  function SubmitAction(isEdit: bool, task: Option<Task>, values: TaskValues, user: Option<Auth.User>): (s: Submission)
    ensures s.Update? <==> isEdit && task.Some?
    ensures s.Update? ==>
      s.task.title == values.title && s.task.description == values.description &&
      s.task.userPriority == values.userPriority && s.task.dueDate == values.dueDate &&
      s.task.(title := task.value.title, description := task.value.description,
              userPriority := task.value.userPriority, dueDate := task.value.dueDate) == task.value
    ensures s.Add? ==>
      s.newTask.title == values.title && s.newTask.description == values.description &&
      s.newTask.userPriority == values.userPriority && s.newTask.dueDate == values.dueDate &&
      s.newTask.userId == (if user.Some? then user.value.id else "") &&
      s.newTask.status == Todo && !s.newTask.needsHelp &&
      s.newTask.managerPriority.None? && s.newTask.completedAt.None?
  {
    if isEdit && task.Some? then
      Update(task.value.(title := values.title, description := values.description,
                         userPriority := values.userPriority, dueDate := values.dueDate))
    else
      Add(NewTask(if user.Some? then user.value.id else "", values.title, values.description,
                  values.userPriority, None, values.dueDate, None, Todo, false))
  }

  /** An edit keeps the task's id, owner, attachments, completion and
      manager priority, so the store replaces that very task. */
  lemma EditKeepsIdentity(task: Task, values: TaskValues, user: Option<Auth.User>)
    ensures var u := SubmitAction(true, Some(task), values, user).task;
      u.id == task.id && u.userId == task.userId && u.attachments == task.attachments &&
      u.isCompleted == task.isCompleted && u.completedAt == task.completedAt &&
      u.managerPriority == task.managerPriority && u.status == task.status && u.needsHelp == task.needsHelp
  {
  }

  /** The store's record of an added task belongs to the signed-in user
      whatever owner the form put in it. */
  lemma AddedTaskOwnedBySessionUser(isEdit: bool, values: TaskValues, u: Auth.User, id: string, now: string)
    ensures var s := SubmitAction(isEdit, None, values, Some(u));
      s.Add? && NewTaskRecord(s.newTask, u.id, id, now).userId == u.id &&
      NewTaskRecord(s.newTask, u.id, id, now) ==
        NewTaskRecord(s.newTask.(userId := "", status := InProgress, needsHelp := true), u.id, id, now)
  {
    var s := SubmitAction(isEdit, None, values, Some(u));
    NewTaskIgnoresCallerDefaults(s.newTask, "", InProgress, true, u.id, id, now);
  }

  /** `onSubmit` against the store: exactly one of `updateTask` and
      `addTask`, then navigation to "/". `id` and `now` are what the store
      reads from the clock. */
  method OnSubmit(store: TaskProvider, user: Option<Auth.User>, isEdit: bool, task: Option<Task>,
                  values: TaskValues, id: string, now: string)
    returns (navigateTo: string)
    modifies store
    ensures navigateTo == "/"
    ensures isEdit && task.Some? ==>
      store.state == old(store.state).(tasks := UpdateTasks(old(store.state.tasks), SubmitAction(isEdit, task, values, user).task)) &&
      store.stored == Some(store.state.tasks)
    ensures !(isEdit && task.Some?) && user.None? ==>
      store.state == old(store.state) && store.stored == old(store.stored)
    ensures !(isEdit && task.Some?) && user.Some? ==>
      store.state == old(store.state).(tasks := AppendTask(old(store.state.tasks),
        NewTaskRecord(SubmitAction(isEdit, task, values, user).newTask, user.value.id, id, now))) &&
      store.stored == Some(store.state.tasks)
  {
    var s := SubmitAction(isEdit, task, values, user);
    match s {
      case Update(t) => store.UpdateTask(t);
      case Add(f) => store.AddTask(user, f, id, now);
    }
    navigateTo := "/";
  }
}
