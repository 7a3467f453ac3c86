/** The manager's team view (src/pages/TeamView.tsx): the incomplete tasks
    of the two team members, searched, optionally narrowed to one member and
    ordered by due date; the manager sets or clears each task's manager
    priority from it. */
module TeamView {
  import opened Optional
  import opened Seqs
  import opened TaskTypes
  import opened TaskReducer
  import opened TaskFiltering
  import opened TaskContext
  import Auth

  /** An entry of `teamMembers`. */
  datatype TeamMember = TeamMember(id: string, name: string, email: string, profileImage: string)

  /** `teamMembers` (lines 36-49): the two team members; the manager, id
      "1", is not one of them. */
  function TeamMembers(): seq<TeamMember>
  {
    [ TeamMember("2", "Alice Member", "alice@example.com",
                 Auth.AvatarUrl("Alice+Member", "C152D4")),
      TeamMember("3", "Bob Member", "bob@example.com",
                 Auth.AvatarUrl("Bob+Member", "8CC152")) ]
  }

  /** `getTeamMember` (lines 124-126). */
  function GetTeamMember(id: string): (r: Option<TeamMember>)
    ensures r.Some? <==> id == "2" || id == "3"
    ensures r.Some? ==> r.value in TeamMembers() && r.value.id == id
  {
    var members := TeamMembers();
    if id == members[0].id then Some(members[0])
    else if id == members[1].id then Some(members[1])
    else None
  }

  /** A member is selected: JavaScript truthiness, so an empty id selects
      nobody. */
  predicate MemberSelected(selected: Option<string>)
  {
    selected.Some? && selected.value != ""
  }

  /** The four conditions a task must meet to be listed (lines 75-90). */
  predicate OnTeamView(t: Task, searchTerm: string, selected: Option<string>)
  {
    && Matches(t, searchTerm)
    && t.userId != "1"
    && (MemberSelected(selected) ==> t.userId == selected.value)
    && !t.isCompleted
  }

  function OnTeamViewWith(searchTerm: string, selected: Option<string>): Task -> bool
  {
    t => OnTeamView(t, searchTerm, selected)
  }

  /** What the view lists: the tasks meeting all four conditions, soonest
      due date first, equal due dates in store order. */
  function TeamTasks(allTasks: seq<Task>, searchTerm: string, selected: Option<string>): (r: seq<Task>)
    ensures forall t :: t in r <==> t in allTasks && OnTeamView(t, searchTerm, selected)
    ensures Sorted(ByDueDate, r)
    ensures forall i, j :: 0 <= i < j < |r| ==> Text.StrLe(r[i].dueDate, r[j].dueDate)
    ensures multiset(r) == multiset(Filter(allTasks, OnTeamViewWith(searchTerm, selected)))
  {
    var shown := Filter(allTasks, OnTeamViewWith(searchTerm, selected));
    SortSorted(ByDueDate, shown);
    Sort(ByDueDate, shown)
  }

  /** Tasks with equal due dates keep their store order. */
  lemma TeamTasksStable(allTasks: seq<Task>, searchTerm: string, selected: Option<string>, x: Task)
    ensures Ties(ByDueDate, TeamTasks(allTasks, searchTerm, selected), x) ==
      Ties(ByDueDate, Filter(allTasks, OnTeamViewWith(searchTerm, selected)), x)
  {
    SortStable(ByDueDate, Filter(allTasks, OnTeamViewWith(searchTerm, selected)), x);
  }

  function MatchesTerm(searchTerm: string): Task -> bool
  {
    t => Matches(t, searchTerm)
  }

  predicate NotManagerTask(t: Task)
  {
    t.userId != "1"
  }

  function OwnedByMember(id: string): Task -> bool
  {
    (t: Task) => t.userId == id
  }

  predicate Incomplete(t: Task)
  {
    !t.isCompleted
  }

  /** The effect of lines 74-96: `filtered` is narrowed by four successive
      filters and then sorted by due date. */
  method FilterTeamTasks(allTasks: seq<Task>, searchTerm: string, selected: Option<string>)
    returns (filtered: seq<Task>)
    ensures filtered == TeamTasks(allTasks, searchTerm, selected)
  {
    filtered := Filter(allTasks, MatchesTerm(searchTerm));
    ghost var keep := MatchesTerm(searchTerm);

    FilterFilter(allTasks, keep, NotManagerTask);
    filtered := Filter(filtered, NotManagerTask);
    keep := Both(keep, NotManagerTask);

    if MemberSelected(selected) {
      FilterFilter(allTasks, keep, OwnedByMember(selected.value));
      filtered := Filter(filtered, OwnedByMember(selected.value));
      keep := Both(keep, OwnedByMember(selected.value));
    }

    FilterFilter(allTasks, keep, Incomplete);
    filtered := Filter(filtered, Incomplete);
    keep := Both(keep, Incomplete);

    FilterExt(allTasks, keep, OnTeamViewWith(searchTerm, selected));
    filtered := Sort(ByDueDate, filtered);
  }

  /** What the page renders: the denial for anyone but a manager. */
  datatype TeamPage = AccessDenied | TeamTable(tasks: seq<Task>)

  /** The page (lines 59-96): a session that is not a manager's gets "Access
      Denied"; a manager gets the filtered list of every stored task. */
  method RenderTeamView(auth: Auth.AuthProvider, store: TaskProvider, searchTerm: string, selected: Option<string>)
    returns (page: TeamPage)
    ensures page.AccessDenied? <==> !auth.IsManager()
    ensures page.TeamTable? ==> page.tasks == TeamTasks(store.state.tasks, searchTerm, selected)
  {
    if !auth.IsManager() {
      return AccessDenied;
    }
    var allTasks := store.GetAllUserTasks();
    var filtered := FilterTeamTasks(allTasks, searchTerm, selected);
    page := TeamTable(filtered);
  }

  /** `handleTeamMemberChange` (lines 104-106): "all" clears the selection. */
  function HandleTeamMemberChange(value: string): (selected: Option<string>)
    ensures selected.None? <==> value == "all"
    ensures selected.Some? ==> selected.value == value
  {
    if value == "all" then None else Some(value)
  }

  /** Choosing "all" lists every team member's matching incomplete tasks. */
  lemma AllMembersIsNoMemberFilter(allTasks: seq<Task>, searchTerm: string)
    ensures forall t :: t in TeamTasks(allTasks, searchTerm, HandleTeamMemberChange("all")) <==>
      t in allTasks && Matches(t, searchTerm) && t.userId != "1" && !t.isCompleted
  {
  }

  /** Choosing a member lists only that member's tasks. */
  lemma MemberChoiceNarrows(allTasks: seq<Task>, searchTerm: string, value: string)
    requires value != "all" && value != ""
    ensures forall t :: t in TeamTasks(allTasks, searchTerm, HandleTeamMemberChange(value)) ==>
      t.userId == value && t in TeamTasks(allTasks, searchTerm, None)
  {
  }

  /** `handlePriorityChange` (lines 109-121). The select offers "none" and
      the four priority names. "none" clears the manager priority, but only
      when the task is among the listed store's tasks; any other choice is
      set unconditionally. */
  method HandlePriorityChange(store: TaskProvider, taskId: string, priority: string)
    requires priority == "none" || ParsePriority(priority).Some?
    modifies store
    ensures priority == "none" && FindById(old(store.state.tasks), taskId).None? ==>
      store.state == old(store.state) && store.stored == old(store.stored)
    ensures priority == "none" && FindById(old(store.state.tasks), taskId).Some? ==>
      store.state == old(store.state).(tasks := SetManagerPriorityOf(old(store.state.tasks), taskId, None)) &&
      store.stored == Some(store.state.tasks)
    ensures priority != "none" ==>
      store.state == old(store.state).(tasks := SetManagerPriorityOf(old(store.state.tasks), taskId, ParsePriority(priority))) &&
      store.stored == Some(store.state.tasks)
  {
    if priority == "none" {
      var allTasks := store.GetAllUserTasks();
      var task := FindById(allTasks, taskId);
      if task.Some? {
        store.SetManagerPriority(taskId, None);
      }
    } else {
      store.SetManagerPriority(taskId, ParsePriority(priority));
    }
  }

  /** Clearing the manager priority of an id no task has would change no
      task: the guard of `handlePriorityChange` only spares the write to
      storage. */
  lemma {:induction false} ClearUnknownChangesNothing(s: seq<Task>, taskId: string)
    requires FindById(s, taskId).None?
    ensures SetManagerPriorityOf(s, taskId, None) == s
  {
    var r := SetManagerPriorityOf(s, taskId, None);
    forall i | 0 <= i < |s|
      ensures r[i] == s[i]
    {
      assert s[i] in s;
    }
  }

  /** `getPriorityColor` (lines 129-142): one class per priority name, a
      neutral class for anything else. */
  function PriorityColor(priority: string): (c: string)
    ensures ParsePriority(priority).None? <==> c == "bg-gray-100 text-gray-800"
    ensures ParsePriority(priority).Some? ==> c == "task-priority-" + priority
  {
    match priority
    case "low" => "task-priority-low"
    case "medium" => "task-priority-medium"
    case "high" => "task-priority-high"
    case "urgent" => "task-priority-urgent"
    case _ => "bg-gray-100 text-gray-800"
  }

  /** Distinct priorities are shown in distinct colours. */
  lemma PriorityColorsDistinct(p: Priority, q: Priority)
    requires p != q
    ensures PriorityColor(PriorityName(p)) != PriorityColor(PriorityName(q))
  {
  }
}
