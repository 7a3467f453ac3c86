/** The help sidebar (src/components/HelpRequiredSidebar.tsx): the incomplete
    tasks whose owner asked for help, each with a button that resolves the
    request, and the requester's first name. */
module HelpSidebar {
  import opened Optional
  import opened Seqs
  import opened TaskTypes
  import opened TaskReducer
  import opened TaskContext
  import TeamView

  /** The selection of line 16. */
  predicate AwaitingHelp(t: Task)
  {
    t.needsHelp && !t.isCompleted
  }

  /** `helpNeededTasks`: the tasks awaiting help, in input order. */
  function HelpNeeded(tasks: seq<Task>): (r: seq<Task>)
    ensures forall t :: t in r <==> t in tasks && t.needsHelp && !t.isCompleted
    ensures forall t: Task {:trigger multiset(r)[t]} :: (AwaitingHelp(t) ==> multiset(r)[t] == multiset(tasks)[t])
    ensures IsSubseq(r, tasks)
  {
    Filter(tasks, AwaitingHelp)
  }

  /** What the component renders: nothing, or the list of requests. */
  datatype Sidebar = Hidden | Requests(tasks: seq<Task>)

  /** Lines 16-18 and 35-38: hidden exactly when no task awaits help. */
  function RenderSidebar(tasks: seq<Task>): (s: Sidebar)
    ensures s.Hidden? <==> forall t :: t in tasks ==> !AwaitingHelp(t)
    ensures s.Requests? ==> s.tasks == HelpNeeded(tasks) && |s.tasks| > 0
  {
    var r := HelpNeeded(tasks);
    if |r| == 0 then Hidden
    else
      assert r[0] in r;
      Requests(r)
  }

  /** The task `handleResolveHelp` sends: the same task, help flag off. */
  function ResolveHelp(t: Task): (r: Task)
    ensures !r.needsHelp && r.(needsHelp := t.needsHelp) == t
    ensures !AwaitingHelp(r)
  {
    t.(needsHelp := false)
  }

  /** `handleResolveHelp` (lines 20-22). */
  method HandleResolveHelp(store: TaskProvider, task: Task)
    modifies store
    ensures store.state == old(store.state).(tasks := UpdateTasks(old(store.state.tasks), ResolveHelp(task)))
    ensures store.stored == Some(store.state.tasks)
  {
    store.UpdateTask(ResolveHelp(task));
  }

  /** After resolving, the resolved id leaves the sidebar and every other
      request stays, in order. */
  lemma {:induction false} ResolveLeavesSidebar(s: seq<Task>, t: Task)
    ensures HelpNeeded(UpdateTasks(s, ResolveHelp(t))) == DeleteTasks(HelpNeeded(s), t.id)
  {
    if s != [] {
      var rest := s[1..];
      var h := s[0];
      ResolveLeavesSidebar(rest, t);
      assert s == [h] + rest;
      var u := UpdateTasks(s, ResolveHelp(t));
      assert u == [u[0]] + UpdateTasks(rest, ResolveHelp(t));
      var hr := HelpNeeded(rest);
      if AwaitingHelp(h) {
        assert HelpNeeded(s) == [h] + hr;
        assert ([h] + hr)[1..] == hr;
      }
    }
  }

  /** The requester label of line 69. */
  function RequesterLabel(userId: string): (r: string)
    ensures r == "Unknown" <==> userId != "2" && userId != "3"
    ensures userId == "2" ==> r == "Alice"
    ensures userId == "3" ==> r == "Bob"
  {
    if userId == "2" then "Alice"
    else if userId == "3" then "Bob"
    else "Unknown"
  }

  /** A named requester is a team member, and the label is the start of
      that member's name. */
  lemma RequesterIsTeamMember(userId: string)
    requires RequesterLabel(userId) != "Unknown"
    ensures TeamView.GetTeamMember(userId).Some?
    ensures var first := RequesterLabel(userId); var full := TeamView.GetTeamMember(userId).value.name;
      |first| <= |full| && full[..|first|] == first
  {
  }
}
