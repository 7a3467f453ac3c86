/** `useTaskFiltering` (src/hooks/useTaskFiltering.ts): a case-insensitive
    search over title and description, then a stable comparator sort. The
    comparators of the other views (team view by due date, completed tasks
    by completion time, newest first) are defined here too, so that every
    view shares one stable sort.

    Orders on dates and timestamps are the lexicographic order of their ISO
    strings, which is their chronological order for well-formed
    `YYYY-MM-DD` dates and `toISOString` timestamps; `localeCompare` on
    titles is taken to be the same code-point order. */
module TaskFiltering {
  import opened Optional
  import opened Seqs
  import opened Text
  import opened TaskTypes

  /** The search predicate (lines 7-9): the lower-cased term occurs in the
      lower-cased title or description. */
  predicate Matches(t: Task, term: string)
  {
    Includes(Lower(t.title), Lower(term)) || Includes(Lower(t.description), Lower(term))
  }

  /** An empty search term matches every task. */
  lemma EmptyTermMatches(t: Task)
    ensures Matches(t, "")
  {
    assert Lower("") == "";
    IncludesEmpty(Lower(t.title));
  }

  /** The tasks matching `term`, in input order (lines 5-10). */
  function SearchResults(tasks: seq<Task>, term: string): (r: seq<Task>)
    ensures forall t :: t in r <==> t in tasks && Matches(t, term)
    ensures forall t: Task {:trigger multiset(r)[t]} :: Matches(t, term) ==> multiset(r)[t] == multiset(tasks)[t]
    ensures IsSubseq(r, tasks)
  {
    Filter(tasks, t => Matches(t, term))
  }

  /** An empty search term keeps every task, in order. */
  lemma {:induction false} EmptySearchKeepsAll(tasks: seq<Task>)
    ensures SearchResults(tasks, "") == tasks
  {
    forall t | t in tasks
      ensures Matches(t, "")
    {
      EmptyTermMatches(t);
    }
    FilterAll(tasks, t => Matches(t, ""));
  }

  /** `priorityOrder` (line 16). */
  function Rank(p: Priority): (n: nat)
    ensures n <= 3
    ensures n == 0 <==> p == Urgent
    ensures n == 3 <==> p == Low
  {
    match p
    case Urgent => 0
    case High => 1
    case Medium => 2
    case Low => 3
  }

  /** The comparators of the application's sorts. */
  datatype SortKey = ByDueDate | ByPriority | ByTitle | ByCompletedAtDesc | Unsorted

  /** The `sortBy` switch (lines 12-22): an unrecognised key compares every
      pair as equal. */
  function SortKeyOf(sortBy: string): (k: SortKey)
    ensures k == ByDueDate <==> sortBy == "dueDate"
    ensures k == ByPriority <==> sortBy == "priority"
    ensures k == ByTitle <==> sortBy == "title"
    ensures k == Unsorted <==> sortBy !in {"dueDate", "priority", "title"}
  {
    if sortBy == "dueDate" then ByDueDate
    else if sortBy == "priority" then ByPriority
    else if sortBy == "title" then ByTitle
    else Unsorted
  }

  /** Time order on an optional timestamp, absent counting as the epoch,
      before every present one. */
  predicate TimeLe(a: Option<string>, b: Option<string>)
  {
    match (a, b)
    case (None, _) => true
    case (Some(_), None) => false
    case (Some(x), Some(y)) => StrLe(x, y)
  }

  /** The completion time a comparator sees: JavaScript truthiness makes
      an absent and an empty `completedAt` both count as 0. */
  function CompletionTime(t: Task): (r: Option<string>)
    ensures r.None? <==> t.completedAt.None? || t.completedAt.value == ""
    ensures r.Some? ==> r == t.completedAt
  {
    if t.completedAt.Some? && t.completedAt.value != "" then t.completedAt else None
  }

  /** `a` may stay before `b`: the comparator's result for (a, b) is <= 0. */
  predicate Le(k: SortKey, a: Task, b: Task)
  {
    match k
    case ByDueDate => StrLe(a.dueDate, b.dueDate)
    case ByPriority => Rank(a.userPriority) <= Rank(b.userPriority)
    case ByTitle => StrLe(a.title, b.title)
    case ByCompletedAtDesc => TimeLe(CompletionTime(b), CompletionTime(a))
    case Unsorted => true
  }

  lemma LeTotal(k: SortKey, a: Task, b: Task)
    ensures Le(k, a, b) || Le(k, b, a)
  {
    match k
    case ByDueDate => StrLeTotal(a.dueDate, b.dueDate);
    case ByTitle => StrLeTotal(a.title, b.title);
    case ByCompletedAtDesc =>
      if CompletionTime(a).Some? && CompletionTime(b).Some? {
        StrLeTotal(CompletionTime(a).value, CompletionTime(b).value);
      }
    case _ =>
  }

  lemma LeTrans(k: SortKey, a: Task, b: Task, c: Task)
    requires Le(k, a, b) && Le(k, b, c)
    ensures Le(k, a, c)
  {
    match k
    case ByDueDate => StrLeTrans(a.dueDate, b.dueDate, c.dueDate);
    case ByTitle => StrLeTrans(a.title, b.title, c.title);
    case ByCompletedAtDesc =>
      if CompletionTime(a).Some? && CompletionTime(b).Some? && CompletionTime(c).Some? {
        StrLeTrans(CompletionTime(c).value, CompletionTime(b).value, CompletionTime(a).value);
      }
    case _ =>
  }

  /** Tasks the comparator cannot tell apart. */
  predicate Equiv(k: SortKey, a: Task, b: Task)
  {
    Le(k, a, b) && Le(k, b, a)
  }

  predicate Sorted(k: SortKey, s: seq<Task>)
  {
    forall i, j :: 0 <= i < j < |s| ==> Le(k, s[i], s[j])
  }

  /** Inserts `x` before the first element it may precede. */
  function Insert(k: SortKey, x: Task, r: seq<Task>): (q: seq<Task>)
    ensures |q| == |r| + 1
    ensures multiset(q) == multiset(r) + multiset{x}
  {
    if r == [] then [x]
    else if Le(k, x, r[0]) then [x] + r
    else
      assert r == [r[0]] + r[1..];
      [r[0]] + Insert(k, x, r[1..])
  }

  /** The stable sort JavaScript's `Array.prototype.sort` performs, as an
      insertion sort: a permutation of its input. */
  function Sort(k: SortKey, s: seq<Task>): (r: seq<Task>)
    ensures |r| == |s|
    ensures multiset(r) == multiset(s)
    ensures forall t :: t in r <==> t in s
  {
    if s == [] then []
    else
      assert s == [s[0]] + s[1..];
      var r := Insert(k, s[0], Sort(k, s[1..]));
      assert forall t :: t in r <==> t in multiset(r);
      r
  }

  lemma {:induction false} InsertSorted(k: SortKey, x: Task, r: seq<Task>)
    requires Sorted(k, r)
    ensures Sorted(k, Insert(k, x, r))
  {
    if r == [] {
    } else if Le(k, x, r[0]) {
      var q := [x] + r;
      forall i, j | 0 <= i < j < |q|
        ensures Le(k, q[i], q[j])
      {
        if i == 0 && j > 1 {
          LeTrans(k, x, r[0], r[j - 1]);
        }
      }
    } else {
      LeTotal(k, x, r[0]);
      InsertSorted(k, x, r[1..]);
      var rest := Insert(k, x, r[1..]);
      var q := [r[0]] + rest;
      forall j | 1 <= j < |q|
        ensures Le(k, q[0], q[j])
      {
        assert q[j] in multiset(rest);
        if q[j] != x {
          assert q[j] in r[1..];
        }
      }
    }
  }

  /** The sort orders its result by the comparator. */
  lemma {:induction false} SortSorted(k: SortKey, s: seq<Task>)
    ensures Sorted(k, Sort(k, s))
  {
    if s != [] {
      SortSorted(k, s[1..]);
      InsertSorted(k, s[0], Sort(k, s[1..]));
    }
  }

  /** The tasks of `s` the comparator ranks equal to `x`, in order. */
  function Ties(k: SortKey, s: seq<Task>, x: Task): (r: seq<Task>)
    ensures forall t :: t in r <==> t in s && Equiv(k, t, x)
    ensures IsSubseq(r, s)
  {
    Filter(s, EquivTo(k, x))
  }

  /** The filter predicate of `Ties`. */
  function EquivTo(k: SortKey, x: Task): Task -> bool
  {
    t => Equiv(k, t, x)
  }

  /** The tie filter on one task. */
  lemma TiesOne(k: SortKey, y: Task, x: Task)
    ensures Ties(k, [y], x) == if Equiv(k, y, x) then [y] else []
  {
    assert [y][1..] == [];
  }

  lemma {:induction false} InsertTies(k: SortKey, y: Task, r: seq<Task>, x: Task)
    ensures Ties(k, Insert(k, y, r), x) == Ties(k, [y], x) + Ties(k, r, x)
  {
    if r == [] {
      assert Insert(k, y, r) == [y] + r;
    } else if Le(k, y, r[0]) {
      FilterAppend([y], r, EquivTo(k, x));
    } else {
      InsertTies(k, y, r[1..], x);
      InsertTiesBehind(k, y, r, x);
    }
  }

  /** Ties distribute over a task put in front. */
  lemma TiesCons(k: SortKey, h: Task, s: seq<Task>, x: Task)
    ensures Ties(k, [h] + s, x) == Ties(k, [h], x) + Ties(k, s, x)
  {
    FilterAppend([h], s, EquivTo(k, x));
  }

  /** A task cannot tie with `x` both before and after one that strictly
      follows it. */
  lemma TiesNotBoth(k: SortKey, y: Task, h: Task, x: Task)
    requires !Le(k, y, h)
    ensures Ties(k, [h], x) == [] || Ties(k, [y], x) == []
  {
    TiesOne(k, y, x);
    TiesOne(k, h, x);
    if Equiv(k, y, x) && Equiv(k, h, x) {
      LeTrans(k, y, x, h);
    }
  }

  /** The step of `InsertTies` where `y` goes past the head of `r`. */
  lemma InsertTiesBehind(k: SortKey, y: Task, r: seq<Task>, x: Task)
    requires r != [] && !Le(k, y, r[0])
    requires Ties(k, Insert(k, y, r[1..]), x) == Ties(k, [y], x) + Ties(k, r[1..], x)
    ensures Ties(k, Insert(k, y, r), x) == Ties(k, [y], x) + Ties(k, r, x)
  {
    var head := Ties(k, [r[0]], x);
    var mine := Ties(k, [y], x);
    var tail := Ties(k, r[1..], x);
    assert Insert(k, y, r) == [r[0]] + Insert(k, y, r[1..]);
    TiesCons(k, r[0], Insert(k, y, r[1..]), x);
    assert r == [r[0]] + r[1..];
    TiesCons(k, r[0], r[1..], x);
    TiesNotBoth(k, y, r[0], x);
    SwapEmpty(head, mine, tail);
  }

  lemma SwapEmpty(a: seq<Task>, b: seq<Task>, c: seq<Task>)
    requires a == [] || b == []
    ensures a + (b + c) == b + (a + c)
  {
    if a == [] {
      assert a + (b + c) == b + c;
    } else {
      assert b + (a + c) == a + c;
    }
  }

  /** Stability: tasks the comparator ranks equal keep their input order. */
  lemma {:induction false} SortStable(k: SortKey, s: seq<Task>, x: Task)
    ensures Ties(k, Sort(k, s), x) == Ties(k, s, x)
  {
    if s != [] {
      SortStable(k, s[1..], x);
      InsertTies(k, s[0], Sort(k, s[1..]), x);
    }
  }

  /** A comparator that returns 0 for every pair leaves the order alone. */
  lemma {:induction false} UnsortedKeepsOrder(s: seq<Task>)
    ensures Sort(Unsorted, s) == s
  {
    if s != [] {
      UnsortedKeepsOrder(s[1..]);
      if |s| > 1 {
        assert [s[0]] + s[1..] == s;
      }
    }
  }

  /** `useTaskFiltering(tasks, searchTerm, sortBy)`: the matching tasks,
      each exactly as often as in the input, ordered by the comparator, with
      ties in input order. The input is a value and is not changed. */
  function UseTaskFiltering(tasks: seq<Task>, searchTerm: string, sortBy: string): (r: seq<Task>)
    ensures forall t :: t in r <==> t in tasks && Matches(t, searchTerm)
    ensures multiset(r) == multiset(SearchResults(tasks, searchTerm)) && multiset(r) <= multiset(tasks)
    ensures Sorted(SortKeyOf(sortBy), r)
    ensures forall x :: Ties(SortKeyOf(sortBy), r, x) == Ties(SortKeyOf(sortBy), SearchResults(tasks, searchTerm), x)
  {
    var k := SortKeyOf(sortBy);
    var found := SearchResults(tasks, searchTerm);
    SortSorted(k, found);
    forall x ensures Ties(k, Sort(k, found), x) == Ties(k, found, x) {
      SortStable(k, found, x);
    }
    Sort(k, found)
  }

  /** Sorting by "priority" puts urgent before high before medium before low. */
  lemma PrioritySortRanks(tasks: seq<Task>, searchTerm: string)
    ensures var r := UseTaskFiltering(tasks, searchTerm, "priority");
      forall i, j :: 0 <= i < j < |r| ==> Rank(r[i].userPriority) <= Rank(r[j].userPriority)
  {
  }

  /** Sorting by "dueDate" yields non-decreasing due dates. */
  lemma DueDateSortOrder(tasks: seq<Task>, searchTerm: string)
    ensures var r := UseTaskFiltering(tasks, searchTerm, "dueDate");
      forall i, j :: 0 <= i < j < |r| ==> StrLe(r[i].dueDate, r[j].dueDate)
  {
  }

  /** An unrecognised `sortBy` returns the matching tasks in input order. */
  lemma UnrecognisedKeyKeepsOrder(tasks: seq<Task>, searchTerm: string, sortBy: string)
    requires sortBy !in {"dueDate", "priority", "title"}
    ensures UseTaskFiltering(tasks, searchTerm, sortBy) == SearchResults(tasks, searchTerm)
  {
    UnsortedKeepsOrder(SearchResults(tasks, searchTerm));
  }

  /** An empty search term returns every task, as a permutation of the input. */
  lemma EmptyTermKeepsEveryTask(tasks: seq<Task>, sortBy: string)
    ensures multiset(UseTaskFiltering(tasks, "", sortBy)) == multiset(tasks)
  {
    EmptySearchKeepsAll(tasks);
  }
}
