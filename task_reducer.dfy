/** `taskReducer` (src/contexts/TaskContext.tsx, lines 175-280): the pure
    transition from a `TaskState` and an action to the next state. Every
    mutating case also writes the whole new list to storage; that write is
    returned here as `Step.saved` so that the provider can apply it. */
module TaskReducer {
  import opened Optional
  import opened TaskTypes
  import opened Seqs

  datatype TaskState = TaskState(tasks: seq<Task>, loading: bool, error: Option<string>)

  const InitialState: TaskState := TaskState([], false, None)

  /** `TaskAction`. `CompleteTask` carries the timestamp the source reads
      from the clock; `SetManagerPriority` carries an optional priority
      because the team view dispatches `undefined` to clear it.
      `Unrecognised` stands for any other `type` a caller may dispatch. */
  datatype Action =
    | FetchTasksSuccess(tasks: seq<Task>)
    | FetchTasksError(message: string)
    | AddTask(task: Task)
    | UpdateTask(task: Task)
    | DeleteTask(taskId: string)
    | CompleteTask(taskId: string, now: string)
    | AddAttachment(taskId: string, attachment: Attachment)
    | RemoveAttachment(taskId: string, attachmentId: string)
    | SetManagerPriority(taskId: string, priority: Option<Priority>)
    | Unrecognised(kind: string)

  /** The seven actions that change the list and write it to storage. */
  predicate Mutating(a: Action)
  {
    !(a.FetchTasksSuccess? || a.FetchTasksError? || a.Unrecognised?)
  }

  /** The task identifier a mutating action is about. */
  function Target(a: Action): string
    requires Mutating(a)
  {
    match a
    case AddTask(t) => t.id
    case UpdateTask(t) => t.id
    case DeleteTask(id) => id
    case CompleteTask(id, _) => id
    case AddAttachment(id, _) => id
    case RemoveAttachment(id, _) => id
    case SetManagerPriority(id, _) => id
  }

  /** The new state and the list written to storage, if any. */
  datatype Step = Step(state: TaskState, saved: Option<seq<Task>>)

  /** ADD_TASK: the payload becomes the last element, everything before it
      stays where it was; no identifier check is made. */
  function AppendTask(s: seq<Task>, t: Task): (r: seq<Task>)
    ensures |r| == |s| + 1 && r[..|s|] == s && r[|s|] == t
  {
    s + [t]
  }

  /** UPDATE_TASK: every task whose id is the payload's becomes the
      payload; the others, the length and the order are unchanged. */
  function UpdateTasks(s: seq<Task>, t: Task): (r: seq<Task>)
    ensures Ids(r) == Ids(s)
    ensures forall i :: 0 <= i < |s| && s[i].id == t.id ==> r[i] == t
    ensures forall i :: 0 <= i < |s| && s[i].id != t.id ==> r[i] == s[i]
  {
    seq(|s|, i requires 0 <= i < |s| => if s[i].id == t.id then t else s[i])
  }

  predicate IdIsNot(id: string, t: Task)
  {
    t.id != id
  }

  /** DELETE_TASK: the tasks whose id differs from `id`, in input order. */
  function DeleteTasks(s: seq<Task>, id: string): (r: seq<Task>)
    ensures forall t :: t in r <==> t in s && t.id != id
    ensures forall t: Task {:trigger multiset(r)[t]} :: t.id != id ==> multiset(r)[t] == multiset(s)[t]
    ensures IsSubseq(r, s)
  {
    Filter(s, t => IdIsNot(id, t))
  }

  /** The task after COMPLETE_TASK: only `isCompleted` and `completedAt`
      change. */
  function Completed(t: Task, now: string): (c: Task)
    ensures c.isCompleted && c.completedAt == Some(now)
    ensures c.(isCompleted := t.isCompleted, completedAt := t.completedAt) == t
  {
    t.(isCompleted := true, completedAt := Some(now))
  }

  /** COMPLETE_TASK: matching tasks become completed at `now`; their status,
      help flag, due date and every other field are untouched. */
  function CompleteTasks(s: seq<Task>, id: string, now: string): (r: seq<Task>)
    ensures Ids(r) == Ids(s)
    ensures forall i :: 0 <= i < |s| && s[i].id == id ==>
      r[i].isCompleted && r[i].completedAt == Some(now) &&
      r[i].(isCompleted := s[i].isCompleted, completedAt := s[i].completedAt) == s[i]
    ensures forall i :: 0 <= i < |s| && s[i].id != id ==> r[i] == s[i]
  {
    seq(|s|, i requires 0 <= i < |s| => if s[i].id == id then Completed(s[i], now) else s[i])
  }

  /** ADD_ATTACHMENT: the attachment is appended to every matching task's
      attachments; nothing else changes. */
  function AddAttachmentTo(s: seq<Task>, id: string, a: Attachment): (r: seq<Task>)
    ensures Ids(r) == Ids(s)
    ensures forall i :: 0 <= i < |s| && s[i].id == id ==>
      r[i].attachments == s[i].attachments + [a] && r[i].(attachments := s[i].attachments) == s[i]
    ensures forall i :: 0 <= i < |s| && s[i].id != id ==> r[i] == s[i]
  {
    seq(|s|, i requires 0 <= i < |s| =>
      if s[i].id == id then s[i].(attachments := s[i].attachments + [a]) else s[i])
  }

  predicate AttachmentIdIsNot(id: string, a: Attachment)
  {
    a.id != id
  }

  /** The attachments left after removing every one with id `attachmentId`. */
  function WithoutAttachment(atts: seq<Attachment>, attachmentId: string): (r: seq<Attachment>)
    ensures forall a :: a in r <==> a in atts && a.id != attachmentId
    ensures forall a: Attachment {:trigger multiset(r)[a]} ::
      (a.id != attachmentId ==> multiset(r)[a] == multiset(atts)[a])
    ensures IsSubseq(r, atts)
  {
    Filter(atts, a => AttachmentIdIsNot(attachmentId, a))
  }

  /** REMOVE_ATTACHMENT: matching tasks lose every attachment with that id;
      nothing else changes. */
  function RemoveAttachmentFrom(s: seq<Task>, id: string, attachmentId: string): (r: seq<Task>)
    ensures Ids(r) == Ids(s)
    ensures forall i :: 0 <= i < |s| && s[i].id == id ==>
      r[i].attachments == WithoutAttachment(s[i].attachments, attachmentId) &&
      r[i].(attachments := s[i].attachments) == s[i]
    ensures forall i :: 0 <= i < |s| && s[i].id != id ==> r[i] == s[i]
  {
    seq(|s|, i requires 0 <= i < |s| =>
      if s[i].id == id then s[i].(attachments := WithoutAttachment(s[i].attachments, attachmentId)) else s[i])
  }

  /** SET_MANAGER_PRIORITY: matching tasks get the new manager priority
      (absent clears it); nothing else changes. */
  function SetManagerPriorityOf(s: seq<Task>, id: string, p: Option<Priority>): (r: seq<Task>)
    ensures Ids(r) == Ids(s)
    ensures forall i :: 0 <= i < |s| && s[i].id == id ==>
      r[i].managerPriority == p && r[i].(managerPriority := s[i].managerPriority) == s[i]
    ensures forall i :: 0 <= i < |s| && s[i].id != id ==> r[i] == s[i]
  {
    seq(|s|, i requires 0 <= i < |s| =>
      if s[i].id == id then s[i].(managerPriority := p) else s[i])
  }

  /** `taskReducer`. */
  function Reduce(state: TaskState, a: Action): (r: Step)
    ensures a.FetchTasksSuccess? ==> r == Step(TaskState(a.tasks, false, None), None)
    ensures a.FetchTasksError? ==> r == Step(state.(loading := false, error := Some(a.message)), None)
    ensures a.Unrecognised? ==> r == Step(state, None)
    ensures Mutating(a) ==>
      r.saved == Some(r.state.tasks) && r.state.loading == state.loading && r.state.error == state.error
  {
    match a
    case FetchTasksSuccess(ts) => Step(state.(tasks := ts, loading := false, error := None), None)
    case FetchTasksError(msg) => Step(state.(loading := false, error := Some(msg)), None)
    case AddTask(t) => Saving(state, AppendTask(state.tasks, t))
    case UpdateTask(t) => Saving(state, UpdateTasks(state.tasks, t))
    case DeleteTask(id) => Saving(state, DeleteTasks(state.tasks, id))
    case CompleteTask(id, now) => Saving(state, CompleteTasks(state.tasks, id, now))
    case AddAttachment(id, att) => Saving(state, AddAttachmentTo(state.tasks, id, att))
    case RemoveAttachment(id, aid) => Saving(state, RemoveAttachmentFrom(state.tasks, id, aid))
    case SetManagerPriority(id, p) => Saving(state, SetManagerPriorityOf(state.tasks, id, p))
    case Unrecognised(_) => Step(state, None)
  }

  /** `saveTasks(ts)` followed by `{ ...state, tasks: ts }`. */
  function Saving(state: TaskState, ts: seq<Task>): Step
  {
    Step(state.(tasks := ts), Some(ts))
  }

  /** The list a mutating action produces, case by case. */
  function ReducedTasks(s: seq<Task>, a: Action): seq<Task>
    requires Mutating(a)
  {
    match a
    case AddTask(t) => AppendTask(s, t)
    case UpdateTask(t) => UpdateTasks(s, t)
    case DeleteTask(id) => DeleteTasks(s, id)
    case CompleteTask(id, now) => CompleteTasks(s, id, now)
    case AddAttachment(id, att) => AddAttachmentTo(s, id, att)
    case RemoveAttachment(id, aid) => RemoveAttachmentFrom(s, id, aid)
    case SetManagerPriority(id, p) => SetManagerPriorityOf(s, id, p)
  }

  lemma ReduceMutating(state: TaskState, a: Action)
    requires Mutating(a)
    ensures Reduce(state, a).state.tasks == ReducedTasks(state.tasks, a)
  {
  }

  // ---------------------------------------------------------------------
  // Properties relating several transitions

  /** No incidental mutation: a task whose id the action does not mention
      is still in the list afterwards, unchanged. */
  lemma ReduceFrame(state: TaskState, a: Action, t: Task)
    requires Mutating(a) && t in state.tasks && t.id != Target(a)
    ensures t in Reduce(state, a).state.tasks
  {
    var s := state.tasks;
    var r := Reduce(state, a).state.tasks;
    var i :| 0 <= i < |s| && s[i] == t;
    match a
    case AddTask(x) =>
      assert r[i] == t;
    case DeleteTask(_) =>
    case UpdateTask(_) =>
      assert r[i] == t;
    case CompleteTask(_, _) =>
      assert r[i] == t;
    case AddAttachment(_, _) =>
      assert r[i] == t;
    case RemoveAttachment(_, _) =>
      assert r[i] == t;
    case SetManagerPriority(_, _) =>
      assert r[i] == t;
  }

  /** An UPDATE_TASK for an id no task has leaves the list as it was. */
  lemma UpdateUnknownId(s: seq<Task>, t: Task)
    requires forall u :: u in s ==> u.id != t.id
    ensures UpdateTasks(s, t) == s
  {
  }

  /** A DELETE_TASK for an id no task has leaves the list as it was. */
  lemma DeleteUnknownId(s: seq<Task>, id: string)
    requires forall u :: u in s ==> u.id != id
    ensures DeleteTasks(s, id) == s
  {
    FilterAll(s, t => IdIsNot(id, t));
  }

  /** Adding a task with a fresh id and then deleting that id restores the
      original list. */
  lemma AddThenDelete(s: seq<Task>, t: Task)
    requires forall u :: u in s ==> u.id != t.id
    ensures DeleteTasks(AppendTask(s, t), t.id) == s
  {
    FilterAppend(s, [t], u => IdIsNot(t.id, u));
    DeleteUnknownId(s, t.id);
    assert Filter([t], u => IdIsNot(t.id, u)) == [];
  }

  /** Completing again overwrites the completion time and nothing else. */
  lemma CompleteTwice(s: seq<Task>, id: string, first: string, second: string)
    ensures CompleteTasks(CompleteTasks(s, id, first), id, second) == CompleteTasks(s, id, second)
  {
  }

  /** Adding an attachment whose id the task does not hold yet and then
      removing that id restores the list. */
  lemma AddThenRemoveAttachment(s: seq<Task>, id: string, a: Attachment)
    requires forall u, b :: u in s && u.id == id && b in u.attachments ==> b.id != a.id
    ensures RemoveAttachmentFrom(AddAttachmentTo(s, id, a), id, a.id) == s
  {
    var r := RemoveAttachmentFrom(AddAttachmentTo(s, id, a), id, a.id);
    forall i | 0 <= i < |s|
      ensures r[i] == s[i]
    {
      if s[i].id == id {
        var atts := s[i].attachments;
        FilterAppend(atts, [a], b => AttachmentIdIsNot(a.id, b));
        FilterAll(atts, b => AttachmentIdIsNot(a.id, b));
        assert Filter([a], b => AttachmentIdIsNot(a.id, b)) == [];
      }
    }
  }
}
