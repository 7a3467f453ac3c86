/** The calendar page (src/pages/CalendarView.tsx): the user's tasks grouped
    into a dictionary keyed by due date, the lookup of the selected day's
    group and the marker shown on days that have tasks. A calendar day is
    given as its `YYYY-MM-DD` string; the conversion from a `Date` is not
    modelled. */
module CalendarView {
  import opened Optional
  import opened Seqs
  import opened TaskTypes

  /** The due dates of a task list. */
  function DueDates(tasks: seq<Task>): set<string>
  {
    set t | t in tasks :: t.dueDate
  }

  function DueOnDay(d: string): Task -> bool
  {
    (t: Task) => t.dueDate == d
  }

  /** The tasks due on `d`, in input order. */
  function DueOn(tasks: seq<Task>, d: string): (r: seq<Task>)
    ensures forall t :: t in r <==> t in tasks && t.dueDate == d
    ensures forall t: Task {:trigger multiset(r)[t]} ::
      (t.dueDate == d ==> multiset(r)[t] == multiset(tasks)[t])
    ensures IsSubseq(r, tasks)
  {
    Filter(tasks, DueOnDay(d))
  }

  /** The dictionary the page builds: one key per due date, holding the
      tasks due that day in input order. */
  function Grouping(tasks: seq<Task>): (g: map<string, seq<Task>>)
    ensures g.Keys == DueDates(tasks)
  {
    map d | d in DueDates(tasks) :: DueOn(tasks, d)
  }

  lemma DueOnAbsent(tasks: seq<Task>, d: string)
    requires d !in DueDates(tasks)
    ensures DueOn(tasks, d) == []
  {
    FilterNone(tasks, DueOnDay(d));
  }

  /** One more task joins the end of its own day's list only. */
  lemma DueOnSnoc(s: seq<Task>, t: Task, d: string)
    ensures DueOn(s + [t], d) == DueOn(s, d) + (if t.dueDate == d then [t] else [])
  {
    FilterAppend(s, [t], DueOnDay(d));
    assert [t][1..] == [];
  }

  /** The group a task joins: its day's group so far, or a fresh one. */
  function GroupSoFar(g: map<string, seq<Task>>, d: string): seq<Task>
  {
    if d in g then g[d] else []
  }

  lemma DueDatesSnoc(s: seq<Task>, t: Task)
    ensures DueDates(s + [t]) == DueDates(s) + {t.dueDate}
  {
    assert forall u :: u in s + [t] <==> u in s || u == t;
  }

  /** `g` holds, for each due date of `s` and no other key, the tasks due
      that day. */
  predicate Groups(g: map<string, seq<Task>>, s: seq<Task>)
  {
    g.Keys == DueDates(s) && forall d :: d in g ==> g[d] == DueOn(s, d)
  }

  lemma GroupsIsGrouping(g: map<string, seq<Task>>, s: seq<Task>)
    requires Groups(g, s)
    ensures g == Grouping(s)
  {
  }

  /** One step of the `reduce`: creating the day's array if missing and
      pushing the task onto it groups one more task. */
  lemma PushStep(g: map<string, seq<Task>>, s: seq<Task>, t: Task, next: map<string, seq<Task>>)
    requires Groups(g, s)
    requires next.Keys == g.Keys + {t.dueDate}
    requires next[t.dueDate] == GroupSoFar(g, t.dueDate) + [t]
    requires forall d :: d in g && d != t.dueDate ==> next[d] == g[d]
    ensures Groups(next, s + [t])
  {
    DueDatesSnoc(s, t);
    forall d | d in next
      ensures next[d] == DueOn(s + [t], d)
    {
      PushAt(g, s, t, d);
    }
  }

  /** The same step seen from one day: only the pushed task's day grows. */
  lemma PushAt(g: map<string, seq<Task>>, s: seq<Task>, t: Task, d: string)
    requires Groups(g, s)
    ensures DueOn(s + [t], d) == GroupSoFar(g, d) + (if d == t.dueDate then [t] else [])
  {
    DueOnSnoc(s, t, d);
    if d !in g {
      DueOnAbsent(s, d);
    }
  }

  /** The `reduce` of lines 18-25, pushing each task onto its day's array
      and creating the array on first use. */
  method GroupByDueDate(tasks: seq<Task>) returns (groups: map<string, seq<Task>>)
    ensures groups == Grouping(tasks)
  {
    groups := map[];
    ghost var seen: seq<Task> := [];
    var i := 0;
    while i < |tasks|
      invariant 0 <= i <= |tasks| && seen == tasks[..i]
      invariant Groups(groups, seen)
    {
      var task := tasks[i];
      var dateStr := task.dueDate;
      ghost var before := groups;
      if dateStr !in groups {
        groups := groups[dateStr := []];
      }
      groups := groups[dateStr := groups[dateStr] + [task]];
      PushStep(before, seen, task, groups);
      TakeSnoc(tasks, i);
      seen := seen + [task];
      i := i + 1;
    }
    assert seen == tasks;
    GroupsIsGrouping(groups, seen);
  }

  /** Every key of the dictionary has a non-empty group. */
  lemma GroupsNonEmpty(tasks: seq<Task>)
    ensures forall d :: d in Grouping(tasks) ==> Grouping(tasks)[d] != []
  {
    forall d | d in Grouping(tasks)
      ensures Grouping(tasks)[d] != []
    {
      var t :| t in tasks && t.dueDate == d;
      assert t in Grouping(tasks)[d];
    }
  }

  /** Each task is in the group of its due date and in no other group. */
  lemma TaskInExactlyOneGroup(tasks: seq<Task>, t: Task)
    requires t in tasks
    ensures t.dueDate in Grouping(tasks) && t in Grouping(tasks)[t.dueDate]
    ensures forall d :: d in Grouping(tasks) && d != t.dueDate ==> t !in Grouping(tasks)[d]
  {
  }

  /** Within a group, tasks keep their input order. */
  lemma GroupsKeepOrder(tasks: seq<Task>, d: string)
    requires d in Grouping(tasks)
    ensures IsSubseq(Grouping(tasks)[d], tasks)
  {
  }

  predicate NoDuplicates(keys: seq<string>)
  {
    forall i, j :: 0 <= i < j < |keys| ==> keys[i] != keys[j]
  }

  /** The summed sizes of the groups of `keys`, taken from the tasks. */
  function SizeSum(tasks: seq<Task>, keys: seq<string>): nat
  {
    if keys == [] then 0 else |DueOn(tasks, keys[0])| + SizeSum(tasks, keys[1..])
  }

  /** How often `d` occurs in `keys`. */
  function Occurrences(keys: seq<string>, d: string): nat
  {
    if keys == [] then 0 else (if keys[0] == d then 1 else 0) + Occurrences(keys[1..], d)
  }

  lemma {:induction false} OccursOnce(keys: seq<string>, d: string)
    requires NoDuplicates(keys) && d in keys
    ensures Occurrences(keys, d) == 1
  {
    if keys[0] != d {
      OccursOnce(keys[1..], d);
    } else {
      OccursNever(keys[1..], d);
    }
  }

  lemma {:induction false} OccursNever(keys: seq<string>, d: string)
    requires d !in keys
    ensures Occurrences(keys, d) == 0
  {
    if keys != [] {
      OccursNever(keys[1..], d);
    }
  }

  lemma {:induction false} SizeSumEmpty(keys: seq<string>)
    ensures SizeSum([], keys) == 0
  {
    if keys != [] {
      SizeSumEmpty(keys[1..]);
    }
  }

  /** Putting a task in front adds it to the group of each key equal to its
      due date. */
  lemma {:induction false} SizeSumCons(t: Task, rest: seq<Task>, keys: seq<string>)
    ensures SizeSum([t] + rest, keys) == Occurrences(keys, t.dueDate) + SizeSum(rest, keys)
  {
    if keys != [] {
      SizeSumCons(t, rest, keys[1..]);
      assert ([t] + rest)[1..] == rest;
    }
  }

  /** Summed over the distinct due dates, however enumerated, the group
      sizes add up to the number of tasks. */
  lemma {:induction false} GroupSizesSum(tasks: seq<Task>, keys: seq<string>)
    requires NoDuplicates(keys)
    requires forall t :: t in tasks ==> t.dueDate in keys
    ensures SizeSum(tasks, keys) == |tasks|
  {
    if tasks == [] {
      SizeSumEmpty(keys);
    } else {
      assert tasks == [tasks[0]] + tasks[1..];
      GroupSizesSum(tasks[1..], keys);
      SizeSumCons(tasks[0], tasks[1..], keys);
      OccursOnce(keys, tasks[0].dueDate);
    }
  }

  /** `getTasksForSelectedDate` (lines 27-31): nothing without a selected
      day, else that day's group, or nothing when the day has no key. */
  function TasksForSelectedDate(groups: map<string, seq<Task>>, selected: Option<string>): (r: seq<Task>)
    ensures selected.None? ==> r == []
    ensures selected.Some? && selected.value !in groups ==> r == []
    ensures selected.Some? && selected.value in groups ==> r == groups[selected.value]
  {
    if selected.None? then []
    else if selected.value in groups then groups[selected.value]
    else []
  }

  /** On the page's own dictionary, the lookup is exactly the tasks due on
      the selected day. */
  lemma SelectedDateIsDueOn(tasks: seq<Task>, selected: Option<string>)
    ensures TasksForSelectedDate(Grouping(tasks), selected) ==
      (if selected.None? then [] else DueOn(tasks, selected.value))
  {
    if selected.Some? && selected.value !in Grouping(tasks) {
      DueOnAbsent(tasks, selected.value);
    }
  }

  /** `hasTasks` in `dayWithTasks` (line 52): the day has a key and a
      non-empty group. */
  predicate HasTasks(groups: map<string, seq<Task>>, day: string)
  {
    day in groups && |groups[day]| > 0
  }

  /** A day shows a marker exactly when some task is due that day. */
  lemma MarkerIffTaskDue(tasks: seq<Task>, day: string)
    ensures HasTasks(Grouping(tasks), day) <==> exists t :: t in tasks && t.dueDate == day
  {
    GroupsNonEmpty(tasks);
  }
}
