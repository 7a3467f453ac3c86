/** The records of the task store (src/contexts/TaskContext.tsx, lines 5-35):
    tasks, their attachments, and the three string enumerations, each with
    the string the source stores for it. */
module TaskTypes {
  import opened Optional

  /** `TaskPriority`. */
  datatype Priority = Low | Medium | High | Urgent

  /** `AttachmentType`. */
  datatype AttachmentKind = File | Link | Email

  /** `Task["status"]`. */
  datatype Status = Todo | InProgress | Done

  function PriorityName(p: Priority): string
  {
    match p
    case Low => "low"
    case Medium => "medium"
    case High => "high"
    case Urgent => "urgent"
  }

  /** The string-to-enum direction used where a form or a select hands over
      a string: defined exactly on the four priority names. */
  function ParsePriority(s: string): (r: Option<Priority>)
    ensures r.Some? ==> PriorityName(r.value) == s
    ensures (exists p :: PriorityName(p) == s) ==> r.Some?
  {
    if s == "low" then Some(Low)
    else if s == "medium" then Some(Medium)
    else if s == "high" then Some(High)
    else if s == "urgent" then Some(Urgent)
    else None
  }

  function KindName(k: AttachmentKind): string
  {
    match k
    case File => "file"
    case Link => "link"
    case Email => "email"
  }

  function ParseKind(s: string): (r: Option<AttachmentKind>)
    ensures r.Some? ==> KindName(r.value) == s
    ensures (exists k :: KindName(k) == s) ==> r.Some?
  {
    if s == "file" then Some(File)
    else if s == "link" then Some(Link)
    else if s == "email" then Some(Email)
    else None
  }

  function StatusName(st: Status): string
  {
    match st
    case Todo => "todo"
    case InProgress => "in_progress"
    case Done => "done"
  }

  datatype Attachment = Attachment(
    id: string,
    kind: AttachmentKind,
    name: string,
    url: string,
    createdAt: string)

  /** `Task`. The optional `managerPriority` and `completedAt` are `Option`s;
      dates and timestamps are ISO strings. */
  datatype Task = Task(
    id: string,
    userId: string,
    title: string,
    description: string,
    userPriority: Priority,
    managerPriority: Option<Priority>,
    dueDate: string,
    createdAt: string,
    completedAt: Option<string>,
    attachments: seq<Attachment>,
    isCompleted: bool,
    status: Status,
    needsHelp: bool)

  /** `Omit<Task, "id" | "createdAt" | "isCompleted" | "attachments">`, the
      argument of `addTask`. */
  datatype NewTask = NewTask(
    userId: string,
    title: string,
    description: string,
    userPriority: Priority,
    managerPriority: Option<Priority>,
    dueDate: string,
    completedAt: Option<string>,
    status: Status,
    needsHelp: bool)

  /** `Omit<Attachment, "id" | "createdAt">`, the argument of `addAttachment`. */
  datatype NewAttachment = NewAttachment(kind: AttachmentKind, name: string, url: string)

  /** The identifiers of a task list, position by position. */
  function Ids(s: seq<Task>): (r: seq<string>)
    ensures |r| == |s| && forall i :: 0 <= i < |s| ==> r[i] == s[i].id
  {
    seq(|s|, i requires 0 <= i < |s| => s[i].id)
  }

  lemma IdsCons(t: Task, s: seq<Task>)
    ensures Ids([t] + s) == [t.id] + Ids(s)
  {
  }
}
