/** The task provider of src/contexts/TaskContext.tsx: the state held by
    `useReducer`, the "tasks" storage slot, the seed list used when that
    slot is empty, and the facade other components call. The clock
    (`Date.now()`, `new Date().toISOString()`) is replaced by parameters:
    `id` for generated identifiers, `now` for timestamps, `today` and
    `yesterday` for dates. */
module TaskContext {
  import opened Optional
  import opened Seqs
  import opened Text
  import opened TaskTypes
  import opened TaskReducer
  import Auth

  /** The four dates the seed list is built from (lines 64-67). */
  datatype SeedDates = SeedDates(today: string, tomorrow: string, nextWeek: string, yesterday: string)

  /** `mockTasks` (lines 69-162). */
  function MockTasks(d: SeedDates): seq<Task>
  {
    [SeedReport(d), SeedLandingPage(d), SeedLoginBug(d), SeedDocumentation(d), SeedSearch(d)]
  }

  /** The seed list has ids "1" to "5" in order, and every seed task is
      open, "todo" and without a help request. */
  lemma SeedListShape(d: SeedDates)
    ensures Ids(MockTasks(d)) == ["1", "2", "3", "4", "5"]
    ensures forall t :: t in MockTasks(d) ==> !t.isCompleted && t.status == Todo && !t.needsHelp
  {
  }

  /** The seed tasks, one by one (lines 70-161). */
  function SeedReport(d: SeedDates): (t: Task)
    ensures t.id == "1" && !t.isCompleted && t.status == Todo && !t.needsHelp
  {
    Task("1", "1", "Prepare weekly report",
         "Compile team progress and prepare slides for weekly meeting",
         High, None, d.tomorrow, d.today, None,
         [Attachment("a1", File, "report-template.docx", "#", d.today)],
         false, Todo, false)
  }

  function SeedLandingPage(d: SeedDates): (t: Task)
    ensures t.id == "2" && !t.isCompleted && t.status == Todo && !t.needsHelp
  {
    Task("2", "2", "Design new landing page",
         "Create mockups for the new product landing page",
         Medium, Some(High), d.nextWeek, d.yesterday, None, [], false, Todo, false)
  }

  function SeedLoginBug(d: SeedDates): (t: Task)
    ensures t.id == "3" && !t.isCompleted && t.status == Todo && !t.needsHelp
  {
    Task("3", "2", "Fix login bug", "Users reported issues with login redirect",
         High, Some(Urgent), d.today, d.yesterday, None,
         [Attachment("a2", Link, "Bug report", "https://github.com/issues/123", d.yesterday)],
         false, Todo, false)
  }

  function SeedDocumentation(d: SeedDates): (t: Task)
    ensures t.id == "4" && !t.isCompleted && t.status == Todo && !t.needsHelp
  {
    Task("4", "3", "Update documentation", "Update the API documentation with new endpoints",
         Low, Some(Medium), d.nextWeek, d.today, None, [], false, Todo, false)
  }

  function SeedSearch(d: SeedDates): (t: Task)
    ensures t.id == "5" && !t.isCompleted && t.status == Todo && !t.needsHelp
  {
    Task("5", "3", "Implement search feature", "Add search functionality to the dashboard",
         Medium, None, d.tomorrow, d.yesterday, None,
         [Attachment("a3", Email, "Feature requirements", "mailto:requirements@example.com", d.yesterday)],
         false, Todo, false)
  }

  /** `loadTasks` (lines 170-173): the stored list when the slot holds one,
      else the seed list. */
  function LoadTasks(stored: Option<seq<Task>>, seed: seq<Task>): (r: seq<Task>)
    ensures stored.Some? ==> r == stored.value
    ensures stored.None? ==> r == seed
  {
    match stored
    case Some(ts) => ts
    case None => seed
  }

  /** `tasks.find(task => task.id === id)`: the first task with that id. */
  function FindById(s: seq<Task>, id: string): (r: Option<Task>)
    ensures r.None? <==> forall t :: t in s ==> t.id != id
    ensures r.Some? ==> exists i :: (0 <= i < |s| && s[i] == r.value && r.value.id == id &&
      forall j :: 0 <= j < i ==> s[j].id != id)
  {
    if s == [] then None
    else if s[0].id == id then Some(s[0])
    else
      var r := FindById(s[1..], id);
      assert forall t :: t in s <==> t == s[0] || t in s[1..];
      assert r.Some? ==> exists i :: (1 <= i < |s| && s[i] == r.value && r.value.id == id &&
        forall j :: 0 <= j < i ==> s[j].id != id) by {
        if r.Some? {
          var k :| (0 <= k < |s[1..]| && s[1..][k] == r.value && r.value.id == id &&
            forall j :: 0 <= j < k ==> s[1..][j].id != id);
          assert s[k + 1] == r.value;
          assert forall j :: 1 <= j < k + 1 ==> s[j].id != id by {
            forall j | 1 <= j < k + 1 ensures s[j].id != id {
              assert s[j] == s[1..][j - 1];
            }
          }
        }
      }
      r
  }

  predicate OwnedBy(userId: string, t: Task)
  {
    t.userId == userId
  }

  /** `state.tasks.filter(task => task.userId === userId)`. */
  function OwnedTasks(s: seq<Task>, userId: string): (r: seq<Task>)
    ensures forall t :: t in r <==> t in s && t.userId == userId
    ensures forall t: Task {:trigger multiset(r)[t]} :: t.userId == userId ==> multiset(r)[t] == multiset(s)[t]
    ensures IsSubseq(r, s)
  {
    Filter(s, t => OwnedBy(userId, t))
  }

  /** The record `addTask` builds (lines 334-343): the caller's fields with
      the owner replaced by the signed-in user, a fresh id and creation
      time, no attachments, not completed, status "todo", no help. */
  function NewTaskRecord(f: NewTask, userId: string, id: string, now: string): (t: Task)
    ensures t.id == id && t.userId == userId && t.createdAt == now
    ensures !t.isCompleted && t.attachments == [] && t.status == Todo && !t.needsHelp
    ensures t.title == f.title && t.description == f.description && t.userPriority == f.userPriority
    ensures t.managerPriority == f.managerPriority && t.dueDate == f.dueDate && t.completedAt == f.completedAt
  {
    Task(id, userId, f.title, f.description, f.userPriority, f.managerPriority,
         f.dueDate, now, f.completedAt, [], false, Todo, false)
  }

  /** The owner, status and help flag the caller passes make no difference. */
  lemma NewTaskIgnoresCallerDefaults(f: NewTask, owner: string, st: Status, help: bool, userId: string, id: string, now: string)
    ensures NewTaskRecord(f.(userId := owner, status := st, needsHelp := help), userId, id, now)
         == NewTaskRecord(f, userId, id, now)
  {
  }

  /** The attachment `addAttachment` builds (lines 372-376). */
  function NewAttachmentRecord(f: NewAttachment, id: string, now: string): (a: Attachment)
    ensures a.id == id && a.createdAt == now && a.kind == f.kind && a.name == f.name && a.url == f.url
  {
    Attachment(id, f.kind, f.name, f.url, now)
  }

  /** The rollover condition: not completed and due on or before yesterday. */
  predicate Overdue(t: Task, yesterday: string)
  {
    !t.isCompleted && StrLe(t.dueDate, yesterday)
  }

  /** The list `rolloverIncompleteTasks` computes (lines 411-419): overdue
      tasks are moved to today, every other task is unchanged. */
  function Rollover(s: seq<Task>, today: string, yesterday: string): (r: seq<Task>)
    ensures Ids(r) == Ids(s)
    ensures forall i :: 0 <= i < |s| && Overdue(s[i], yesterday) ==> r[i] == s[i].(dueDate := today)
    ensures forall i :: 0 <= i < |s| && !Overdue(s[i], yesterday) ==> r[i] == s[i]
  {
    seq(|s|, i requires 0 <= i < |s| =>
      if Overdue(s[i], yesterday) then s[i].(dueDate := today) else s[i])
  }

  /** When yesterday precedes today, no task is overdue after a rollover. */
  lemma RolloverLeavesNothingOverdue(s: seq<Task>, today: string, yesterday: string)
    requires StrLt(yesterday, today)
    ensures forall t :: t in Rollover(s, today, yesterday) ==> !Overdue(t, yesterday)
  {
    StrLtNotGe(yesterday, today);
  }

  /** When yesterday precedes today, a second rollover changes nothing. */
  lemma RolloverIdempotent(s: seq<Task>, today: string, yesterday: string)
    requires StrLt(yesterday, today)
    ensures Rollover(Rollover(s, today, yesterday), today, yesterday) == Rollover(s, today, yesterday)
  {
    var r := Rollover(s, today, yesterday);
    RolloverLeavesNothingOverdue(s, today, yesterday);
    assert forall i :: 0 <= i < |r| ==> !Overdue(r[i], yesterday);
  }

  /** `TaskProvider`: the reducer state, the "tasks" storage slot and the
      seed list. */
  class TaskProvider {
    var state: TaskState
    /** The "tasks" storage slot. */
    var stored: Option<seq<Task>>
    const seed: seq<Task>

    constructor (stored: Option<seq<Task>>, dates: SeedDates)
      ensures state == InitialState && this.stored == stored && seed == MockTasks(dates)
    {
      state := InitialState;
      this.stored := stored;
      seed := MockTasks(dates);
    }

    /** `dispatch`: the reducer's new state, and its storage write if any. */
    method Dispatch(a: Action)
      modifies this
      ensures state == Reduce(old(state), a).state
      ensures stored == (if Mutating(a) then Some(state.tasks) else old(stored))
    {
      var step := Reduce(state, a);
      state := step.state;
      if step.saved.Some? {
        stored := step.saved;
      }
    }

    /** The load effect (lines 307-312): with a user signed in, the loaded
        list replaces the state. */
    method LoadForUser(user: Option<Auth.User>)
      modifies this
      ensures user.Some? ==> state == TaskState(LoadTasks(old(stored), seed), false, None)
      ensures user.None? ==> state == old(state)
      ensures stored == old(stored)
    {
      if user.Some? {
        Dispatch(FetchTasksSuccess(LoadTasks(stored, seed)));
      }
    }

    /** `getUserTasks` (lines 315-318). */
    function GetUserTasks(user: Option<Auth.User>): (r: seq<Task>)
      reads this
      ensures user.None? ==> r == []
      ensures user.Some? ==> forall t :: t in r <==> t in state.tasks && t.userId == user.value.id
      ensures user.Some? ==> IsSubseq(r, state.tasks)
      ensures user.Some? ==> forall t: Task {:trigger multiset(r)[t]} ::
        (t.userId == user.value.id ==> multiset(r)[t] == multiset(state.tasks)[t])
    {
      match user
      case None => []
      case Some(u) => OwnedTasks(state.tasks, u.id)
    }

    /** `getAllUserTasks` (lines 321-323): the whole list, whoever asks. */
    function GetAllUserTasks(): (r: seq<Task>)
      reads this
      ensures r == state.tasks
    {
      state.tasks
    }

    /** `getTaskById` (lines 326-328). */
    function GetTaskById(id: string): (r: Option<Task>)
      reads this
      ensures r.None? <==> forall t :: t in state.tasks ==> t.id != id
      ensures r.Some? ==> r.value in state.tasks && r.value.id == id
      ensures r.Some? ==> exists i :: (0 <= i < |state.tasks| && state.tasks[i] == r.value &&
        forall j :: 0 <= j < i ==> state.tasks[j].id != id)
    {
      FindById(state.tasks, id)
    }

    /** `addTask` (lines 331-347): nothing without a user; otherwise the new
        record is appended and the list stored. */
    method AddTask(user: Option<Auth.User>, f: NewTask, id: string, now: string)
      modifies this
      ensures user.None? ==> state == old(state) && stored == old(stored)
      ensures user.Some? ==>
        state == old(state).(tasks := AppendTask(old(state.tasks), NewTaskRecord(f, user.value.id, id, now))) &&
        stored == Some(state.tasks)
    {
      if user.None? {
        return;
      }
      Dispatch(TaskReducer.AddTask(NewTaskRecord(f, user.value.id, id, now)));
    }

    /** `updateTask` (lines 350-353). */
    method UpdateTask(t: Task)
      modifies this
      ensures state == old(state).(tasks := UpdateTasks(old(state.tasks), t))
      ensures stored == Some(state.tasks)
    {
      Dispatch(TaskReducer.UpdateTask(t));
    }

    /** `deleteTask` (lines 356-359). */
    method DeleteTask(id: string)
      modifies this
      ensures state == old(state).(tasks := DeleteTasks(old(state.tasks), id))
      ensures stored == Some(state.tasks)
    {
      Dispatch(TaskReducer.DeleteTask(id));
    }

    /** `completeTask` (lines 362-365). */
    method CompleteTask(id: string, now: string)
      modifies this
      ensures state == old(state).(tasks := CompleteTasks(old(state.tasks), id, now))
      ensures stored == Some(state.tasks)
    {
      Dispatch(TaskReducer.CompleteTask(id, now));
    }

    /** `addAttachment` (lines 368-384). */
    method AddAttachment(taskId: string, f: NewAttachment, id: string, now: string)
      modifies this
      ensures state == old(state).(tasks := AddAttachmentTo(old(state.tasks), taskId, NewAttachmentRecord(f, id, now)))
      ensures stored == Some(state.tasks)
    {
      Dispatch(TaskReducer.AddAttachment(taskId, NewAttachmentRecord(f, id, now)));
    }

    /** `removeAttachment` (lines 387-394). */
    method RemoveAttachment(taskId: string, attachmentId: string)
      modifies this
      ensures state == old(state).(tasks := RemoveAttachmentFrom(old(state.tasks), taskId, attachmentId))
      ensures stored == Some(state.tasks)
    {
      Dispatch(TaskReducer.RemoveAttachment(taskId, attachmentId));
    }

    /** `setManagerPriority` (lines 397-404); `None` is the `undefined` the
        team view passes to clear the priority. */
    method SetManagerPriority(taskId: string, p: Option<Priority>)
      modifies this
      ensures state == old(state).(tasks := SetManagerPriorityOf(old(state.tasks), taskId, p))
      ensures stored == Some(state.tasks)
    {
      Dispatch(TaskReducer.SetManagerPriority(taskId, p));
    }

    /** `rolloverIncompleteTasks` (lines 407-424): the rolled-over list is
        stored and then loaded as the new state. */
    method RolloverIncompleteTasks(today: string, yesterday: string)
      modifies this
      ensures state == TaskState(Rollover(old(state.tasks), today, yesterday), false, None)
      ensures stored == Some(state.tasks)
    {
      var updated := Rollover(state.tasks, today, yesterday);
      stored := Some(updated);
      Dispatch(FetchTasksSuccess(updated));
    }
  }
}
