/** The dashboard's priority board
    (src/components/dashboard/TasksByPriority.tsx): four buckets, one per
    user priority. */
module TasksByPriority {
  import opened Optional
  import opened Seqs
  import opened TaskTypes
  import opened TaskReducer

  function PriorityIs(p: Priority): Task -> bool
  {
    (t: Task) => t.userPriority == p
  }

  /** The tasks whose own priority is `p`, in input order. */
  function Bucket(tasks: seq<Task>, p: Priority): (r: seq<Task>)
    ensures forall t :: t in r <==> t in tasks && t.userPriority == p
    ensures forall t: Task {:trigger multiset(r)[t]} :: (t.userPriority == p ==> multiset(r)[t] == multiset(tasks)[t])
    ensures IsSubseq(r, tasks)
  {
    Filter(tasks, PriorityIs(p))
  }

  datatype Buckets = Buckets(urgent: seq<Task>, high: seq<Task>, medium: seq<Task>, low: seq<Task>)

  /** Lines 12-16: the four buckets. */
  function TasksByPriority(tasks: seq<Task>): (b: Buckets)
    ensures forall t :: t in b.urgent <==> t in tasks && t.userPriority == Urgent
    ensures forall t :: t in b.high <==> t in tasks && t.userPriority == High
    ensures forall t :: t in b.medium <==> t in tasks && t.userPriority == Medium
    ensures forall t :: t in b.low <==> t in tasks && t.userPriority == Low
    ensures forall t: Task {:trigger multiset(b.urgent)[t]} ::
      (t.userPriority == Urgent ==> multiset(b.urgent)[t] == multiset(tasks)[t])
    ensures forall t: Task {:trigger multiset(b.high)[t]} ::
      (t.userPriority == High ==> multiset(b.high)[t] == multiset(tasks)[t])
    ensures forall t: Task {:trigger multiset(b.medium)[t]} ::
      (t.userPriority == Medium ==> multiset(b.medium)[t] == multiset(tasks)[t])
    ensures forall t: Task {:trigger multiset(b.low)[t]} ::
      (t.userPriority == Low ==> multiset(b.low)[t] == multiset(tasks)[t])
    ensures IsSubseq(b.urgent, tasks) && IsSubseq(b.high, tasks) && IsSubseq(b.medium, tasks) && IsSubseq(b.low, tasks)
  {
    Buckets(Bucket(tasks, Urgent), Bucket(tasks, High), Bucket(tasks, Medium), Bucket(tasks, Low))
  }

  /** Every task lands in exactly one bucket: the sizes add up. */
  lemma {:induction false} BucketSizesSum(tasks: seq<Task>)
    ensures var b := TasksByPriority(tasks);
      |b.urgent| + |b.high| + |b.medium| + |b.low| == |tasks|
  {
    if tasks != [] {
      BucketSizesSum(tasks[1..]);
    }
  }

  /** Lists that agree position by position on ids and own priorities have
      buckets with the same ids. */
  lemma {:induction false} BucketIdsAgree(a: seq<Task>, b: seq<Task>, p: Priority)
    requires |a| == |b|
    requires forall i :: 0 <= i < |a| ==> a[i].id == b[i].id && a[i].userPriority == b[i].userPriority
    ensures Ids(Bucket(a, p)) == Ids(Bucket(b, p))
  {
    if a != [] {
      var ra := Bucket(a[1..], p);
      var rb := Bucket(b[1..], p);
      assert Ids(ra) == Ids(rb) by {
        BucketIdsAgree(a[1..], b[1..], p);
      }
      assert a == [a[0]] + a[1..] && b == [b[0]] + b[1..];
      if a[0].userPriority == p {
        assert Bucket(a, p) == [a[0]] + ra;
        assert Bucket(b, p) == [b[0]] + rb;
        IdsCons(a[0], ra);
        IdsCons(b[0], rb);
      } else {
        assert Bucket(a, p) == ra;
        assert Bucket(b, p) == rb;
      }
    }
  }

  /** The manager priority plays no part: setting it moves no task to
      another bucket. */
  lemma ManagerPriorityKeepsBuckets(s: seq<Task>, id: string, m: Option<Priority>, p: Priority)
    ensures Ids(Bucket(SetManagerPriorityOf(s, id, m), p)) == Ids(Bucket(s, p))
  {
    var r := SetManagerPriorityOf(s, id, m);
    assert |Ids(r)| == |Ids(s)|;
    BucketIdsAgree(r, s, p);
  }
}
