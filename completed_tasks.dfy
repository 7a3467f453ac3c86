/** The completed-tasks page (src/pages/CompletedTasks.tsx): the user's
    completed tasks that match the search term, most recently completed
    first. */
module CompletedTasks {
  import opened Optional
  import opened Seqs
  import opened Text
  import opened TaskTypes
  import opened TaskFiltering

  /** The filter of lines 18-23. */
  predicate ShownAsCompleted(t: Task, searchTerm: string)
  {
    t.isCompleted && Matches(t, searchTerm)
  }

  function ShownAsCompletedWith(searchTerm: string): Task -> bool
  {
    t => ShownAsCompleted(t, searchTerm)
  }

  /** Lines 17-33: the completed tasks that match the search term, sorted
      newest completion first. */
  function CompletedView(tasks: seq<Task>, searchTerm: string): (r: seq<Task>)
    ensures |r| <= |tasks|
  {
    Sort(ByCompletedAtDesc, Filter(tasks, ShownAsCompletedWith(searchTerm)))
  }

  /** The page lists the completed, matching tasks, each as often as in the
      input. */
  lemma CompletedViewMembers(tasks: seq<Task>, searchTerm: string)
    ensures var r := CompletedView(tasks, searchTerm);
      forall t :: t in r <==> t in tasks && t.isCompleted && Matches(t, searchTerm)
    ensures var r := CompletedView(tasks, searchTerm);
      forall t: Task {:trigger multiset(r)[t]} ::
        (ShownAsCompleted(t, searchTerm) ==> multiset(r)[t] == multiset(tasks)[t])
  {
  }

  /** Newest completion first: a task without a completion time comes after
      every task with one. */
  lemma CompletedViewNewestFirst(tasks: seq<Task>, searchTerm: string)
    ensures var r := CompletedView(tasks, searchTerm);
      forall i, j :: 0 <= i < j < |r| ==> TimeLe(CompletionTime(r[j]), CompletionTime(r[i]))
  {
    SortSorted(ByCompletedAtDesc, Filter(tasks, ShownAsCompletedWith(searchTerm)));
  }

  /** Tasks with equal completion times keep their input order. */
  lemma CompletedViewStable(tasks: seq<Task>, searchTerm: string, x: Task)
    ensures Ties(ByCompletedAtDesc, CompletedView(tasks, searchTerm), x) ==
      Ties(ByCompletedAtDesc, Filter(tasks, ShownAsCompletedWith(searchTerm)), x)
  {
    SortStable(ByCompletedAtDesc, Filter(tasks, ShownAsCompletedWith(searchTerm)), x);
  }

  /** A task without a completion time is followed only by tasks without
      one. */
  lemma MissingCompletionLast(tasks: seq<Task>, searchTerm: string, i: int, j: int)
    requires var r := CompletedView(tasks, searchTerm); 0 <= i < j < |r| && CompletionTime(r[i]).None?
    ensures CompletionTime(CompletedView(tasks, searchTerm)[j]).None?
  {
    CompletedViewNewestFirst(tasks, searchTerm);
  }

  /** Of two present completion times, the later comes first. */
  lemma LaterCompletionFirst(tasks: seq<Task>, searchTerm: string, i: int, j: int)
    requires var r := CompletedView(tasks, searchTerm);
      0 <= i < |r| && 0 <= j < |r| &&
      CompletionTime(r[i]).Some? && CompletionTime(r[j]).Some? &&
      StrLt(CompletionTime(r[j]).value, CompletionTime(r[i]).value)
    ensures i < j
  {
    var r := CompletedView(tasks, searchTerm);
    CompletedViewNewestFirst(tasks, searchTerm);
    if j < i {
      assert TimeLe(CompletionTime(r[i]), CompletionTime(r[j]));
      StrLtNotGe(CompletionTime(r[j]).value, CompletionTime(r[i]).value);
    }
  }

  /** An empty search term lists every completed task. */
  lemma {:induction false} EmptyTermListsAllCompleted(tasks: seq<Task>)
    ensures forall t :: t in CompletedView(tasks, "") <==> t in tasks && t.isCompleted
    ensures forall t: Task {:trigger multiset(CompletedView(tasks, ""))[t]} ::
      (t.isCompleted ==> multiset(CompletedView(tasks, ""))[t] == multiset(tasks)[t])
  {
    CompletedViewMembers(tasks, "");
    forall t: Task
      ensures Matches(t, "")
    {
      EmptyTermMatches(t);
    }
  }
}
