/** The dashboard's status board
    (src/components/dashboard/TasksByStatus.tsx): three columns, one per
    status. The column is decided by `status` alone, not by `isCompleted`. */
module TasksByStatus {
  import opened Seqs
  import opened TaskTypes
  import opened TaskReducer

  function StatusIs(st: Status): Task -> bool
  {
    (t: Task) => t.status == st
  }

  /** The tasks whose status is `st`, in input order. */
  function Column(tasks: seq<Task>, st: Status): (r: seq<Task>)
    ensures forall t :: t in r <==> t in tasks && t.status == st
    ensures forall t: Task {:trigger multiset(r)[t]} :: (t.status == st ==> multiset(r)[t] == multiset(tasks)[t])
    ensures IsSubseq(r, tasks)
  {
    Filter(tasks, StatusIs(st))
  }

  datatype Columns = Columns(todo: seq<Task>, inProgress: seq<Task>, done: seq<Task>)

  /** Lines 12-15: the three columns. */
  function TasksByStatus(tasks: seq<Task>): (c: Columns)
    ensures forall t :: t in c.todo <==> t in tasks && t.status == Todo
    ensures forall t :: t in c.inProgress <==> t in tasks && t.status == InProgress
    ensures forall t :: t in c.done <==> t in tasks && t.status == Done
    ensures forall t: Task {:trigger multiset(c.todo)[t]} ::
      (t.status == Todo ==> multiset(c.todo)[t] == multiset(tasks)[t])
    ensures forall t: Task {:trigger multiset(c.inProgress)[t]} ::
      (t.status == InProgress ==> multiset(c.inProgress)[t] == multiset(tasks)[t])
    ensures forall t: Task {:trigger multiset(c.done)[t]} ::
      (t.status == Done ==> multiset(c.done)[t] == multiset(tasks)[t])
    ensures IsSubseq(c.todo, tasks) && IsSubseq(c.inProgress, tasks) && IsSubseq(c.done, tasks)
  {
    Columns(Column(tasks, Todo), Column(tasks, InProgress), Column(tasks, Done))
  }

  /** Every task lands in exactly one column: the sizes add up. */
  lemma {:induction false} ColumnSizesSum(tasks: seq<Task>)
    ensures var c := TasksByStatus(tasks);
      |c.todo| + |c.inProgress| + |c.done| == |tasks|
  {
    if tasks != [] {
      ColumnSizesSum(tasks[1..]);
    }
  }

  /** A task marked "done" that is not completed is still in the Done
      column, and a completed task whose status is not "done" is not. */
  lemma StatusAloneDecides(tasks: seq<Task>, t: Task)
    requires t in tasks
    ensures t.status == Done ==> t in TasksByStatus(tasks).done
    ensures t.status != Done ==> t !in TasksByStatus(tasks).done
  {
  }

  /** Lists that agree position by position on ids and statuses have
      columns with the same ids. */
  lemma {:induction false} ColumnIdsAgree(a: seq<Task>, b: seq<Task>, st: Status)
    requires |a| == |b|
    requires forall i :: 0 <= i < |a| ==> a[i].id == b[i].id && a[i].status == b[i].status
    ensures Ids(Column(a, st)) == Ids(Column(b, st))
  {
    if a != [] {
      var ra := Column(a[1..], st);
      var rb := Column(b[1..], st);
      assert Ids(ra) == Ids(rb) by {
        ColumnIdsAgree(a[1..], b[1..], st);
      }
      assert a == [a[0]] + a[1..] && b == [b[0]] + b[1..];
      if a[0].status == st {
        assert Column(a, st) == [a[0]] + ra;
        assert Column(b, st) == [b[0]] + rb;
        IdsCons(a[0], ra);
        IdsCons(b[0], rb);
      } else {
        assert Column(a, st) == ra;
        assert Column(b, st) == rb;
      }
    }
  }

  /** Completing a task leaves its status alone, so it stays in its column. */
  lemma CompletingKeepsColumns(s: seq<Task>, id: string, now: string, st: Status)
    ensures Ids(Column(CompleteTasks(s, id, now), st)) == Ids(Column(s, st))
  {
    var r := CompleteTasks(s, id, now);
    assert |Ids(r)| == |Ids(s)|;
    forall i | 0 <= i < |r|
      ensures r[i].id == s[i].id && r[i].status == s[i].status
    {
      if s[i].id == id {
        assert r[i].(isCompleted := s[i].isCompleted, completedAt := s[i].completedAt) == s[i];
      }
    }
    ColumnIdsAgree(r, s, st);
  }
}
