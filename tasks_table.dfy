/** The task table (src/components/TasksTable.tsx): the help toggle of each
    row and the colour and label helpers of its cells. */
module TasksTable {
  import opened Optional
  import opened Text
  import opened TaskTypes
  import opened TaskReducer
  import opened TaskContext

  /** The task `handleAskHelp` sends: the same task with the help flag set
      to the negation of the flag the row showed. */
  function ToggleHelp(t: Task, currentNeedsHelp: bool): (r: Task)
    ensures r.needsHelp == !currentNeedsHelp && r.(needsHelp := t.needsHelp) == t
  {
    t.(needsHelp := !currentNeedsHelp)
  }

  /** Two clicks on the same row restore the task. */
  lemma ToggleTwice(t: Task)
    ensures var once := ToggleHelp(t, t.needsHelp); ToggleHelp(once, once.needsHelp) == t
  {
  }

  /** `handleAskHelp` (lines 23-28): look the id up in the displayed list;
      when found, update the store with the toggled task, else do nothing. */
  method HandleAskHelp(store: TaskProvider, tasks: seq<Task>, taskId: string, currentNeedsHelp: bool)
    modifies store
    ensures FindById(tasks, taskId).None? ==> store.state == old(store.state) && store.stored == old(store.stored)
    ensures FindById(tasks, taskId).Some? ==>
      store.state == old(store.state).(tasks := UpdateTasks(old(store.state.tasks),
                                                            ToggleHelp(FindById(tasks, taskId).value, currentNeedsHelp))) &&
      store.stored == Some(store.state.tasks)
  {
    var task := FindById(tasks, taskId);
    if task.Some? {
      store.UpdateTask(ToggleHelp(task.value, currentNeedsHelp));
    }
  }

  /** When the store holds the row's task and no other with its id, two
      clicks leave the stored list as it was. */
  lemma ToggleTwiceInStore(s: seq<Task>, t: Task)
    requires forall u :: u in s && u.id == t.id ==> u == t
    ensures var once := ToggleHelp(t, t.needsHelp);
      UpdateTasks(UpdateTasks(s, once), ToggleHelp(once, once.needsHelp)) == s
  {
    var once := ToggleHelp(t, t.needsHelp);
    var r := UpdateTasks(UpdateTasks(s, once), ToggleHelp(once, once.needsHelp));
    forall i | 0 <= i < |s|
      ensures r[i] == s[i]
    {
      assert s[i] in s;
    }
  }

  /** `getStatusColor` (lines 30-41). */
  function StatusColor(status: string): (c: string)
    ensures c == "" <==> status != "todo" && status != "in_progress" && status != "done"
    ensures status == "todo" ==> c == "text-red-500"
    ensures status == "in_progress" ==> c == "text-blue-500"
    ensures status == "done" ==> c == "text-green-500"
  {
    match status
    case "todo" => "text-red-500"
    case "in_progress" => "text-blue-500"
    case "done" => "text-green-500"
    case _ => ""
  }

  /** Each status has its own colour. */
  lemma StatusColorsDistinct(a: Status, b: Status)
    requires a != b
    ensures StatusColor(StatusName(a)) != StatusColor(StatusName(b))
    ensures StatusColor(StatusName(a)) != ""
  {
  }

  /** `getPriorityColor` (lines 43-56). */
  function PriorityBadgeColor(priority: string): (c: string)
    ensures ParsePriority(priority).None? <==> c == "bg-gray-100 text-gray-800"
    ensures priority == "urgent" ==> c == "bg-red-100 text-red-800"
    ensures priority == "high" ==> c == "bg-orange-100 text-orange-800"
    ensures priority == "medium" ==> c == "bg-yellow-100 text-yellow-800"
    ensures priority == "low" ==> c == "bg-blue-100 text-blue-800"
  {
    match priority
    case "urgent" => "bg-red-100 text-red-800"
    case "high" => "bg-orange-100 text-orange-800"
    case "medium" => "bg-yellow-100 text-yellow-800"
    case "low" => "bg-blue-100 text-blue-800"
    case _ => "bg-gray-100 text-gray-800"
  }

  /** Each priority has its own badge colour. */
  lemma PriorityBadgeColorsDistinct(p: Priority, q: Priority)
    requires p != q
    ensures PriorityBadgeColor(PriorityName(p)) != PriorityBadgeColor(PriorityName(q))
  {
  }

  /** `s.indexOf("_")`: the position of the first underscore, -1 if none. */
  function UnderscoreIndex(s: string): (i: int)
    ensures -1 <= i < |s|
    ensures i == -1 <==> '_' !in s
    ensures i >= 0 ==> s[i] == '_' && '_' !in s[..i]
  {
    if s == [] then -1
    else if s[0] == '_' then 0
    else
      var j := UnderscoreIndex(s[1..]);
      assert s == [s[0]] + s[1..];
      if j == -1 then -1
      else
        assert s[..j + 1] == [s[0]] + s[1..][..j];
        j + 1
  }

  /** `s.replace("_", " ")` with a string pattern: only the first
      underscore is replaced. */
  function ReplaceFirstUnderscore(s: string): (r: string)
    ensures |r| == |s|
    ensures '_' !in s ==> r == s
    ensures '_' in s ==> var i := UnderscoreIndex(s); r[i] == ' ' && r[..i] == s[..i] && r[i + 1..] == s[i + 1..]
  {
    var i := UnderscoreIndex(s);
    if i < 0 then s else s[..i] + " " + s[i + 1..]
  }

  /** `charAt(0).toUpperCase() + slice(1)`. */
  function Capitalize(s: string): (r: string)
    ensures |r| == |s|
    ensures |s| > 0 ==> r[0] == UpperChar(s[0]) && r[1..] == s[1..]
  {
    if s == [] then [] else [UpperChar(s[0])] + s[1..]
  }

  /** The status cell as written (lines 96-97): the first character is
      taken from the string with its underscore replaced, but the rest is
      sliced from the raw status, so the replacement is lost. */
  function StatusLabel(status: string): (r: string)
    ensures |r| == |status|
  {
    if status == [] then []
    else [UpperChar(ReplaceFirstUnderscore(status)[0])] + status[1..]
  }

  /** As written, the label of every status not starting with an
      underscore is just the capitalised raw status: the replacement has
      no effect. */
  lemma StatusLabelIgnoresReplace(status: string)
    requires status != [] && status[0] != '_'
    ensures StatusLabel(status) == Capitalize(status)
  {
    var r := ReplaceFirstUnderscore(status);
    if '_' in status {
      var i := UnderscoreIndex(status);
      assert r[0] == r[..i][0];
    }
  }

  /** The discrepancy: "in_progress" is shown as "In_progress". */
  lemma InProgressLabelKeepsUnderscore(status: string)
    requires status == StatusName(InProgress)
    ensures StatusLabel(status) == "In_progress"
  {
    StatusLabelIgnoresReplace(status);
    InProgressCapitalized(status);
  }

  lemma InProgressCapitalized(s: string)
    requires s == "in_progress"
    ensures Capitalize(s) == "In_progress"
  {
    assert UpperChar(s[0]) == 'I';
  }

  /** The label evidently intended: the status with its underscore replaced
      by a space, capitalised. */
  function StatusLabelIntended(status: string): (r: string)
    ensures |r| == |status|
  {
    Capitalize(ReplaceFirstUnderscore(status))
  }

  /** The intended label of "in_progress" is "In progress". */
  lemma InProgressIntendedLabel(status: string)
    requires status == StatusName(InProgress)
    ensures StatusLabelIntended(status) == "In progress"
  {
    InProgressReplaced(status);
    InProgressSpacedCapitalized(ReplaceFirstUnderscore(status));
  }

  lemma InProgressReplaced(s: string)
    requires s == "in_progress"
    ensures ReplaceFirstUnderscore(s) == "in progress"
  {
    assert s[2] == '_' && '_' !in s[..2];
    assert UnderscoreIndex(s) == 2;
  }

  lemma InProgressSpacedCapitalized(s: string)
    requires s == "in progress"
    ensures Capitalize(s) == "In progress"
  {
    assert UpperChar(s[0]) == 'I';
  }

  /** No underscore follows the first one. */
  predicate AtMostOneUnderscore(s: string)
  {
    UnderscoreIndex(s) >= 0 ==> '_' !in s[UnderscoreIndex(s) + 1..]
  }

  /** Replacing the first underscore of a string with at most one leaves
      none. */
  lemma ReplaceLeavesNoUnderscore(s: string)
    requires AtMostOneUnderscore(s)
    ensures '_' !in ReplaceFirstUnderscore(s)
  {
    var r := ReplaceFirstUnderscore(s);
    if '_' in s {
      var i := UnderscoreIndex(s);
      assert r == r[..i] + [r[i]] + r[i + 1..];
    }
  }

  /** Capitalising a string that starts with a lower-case letter and has no
      underscore gives one that starts with a capital and has none. */
  lemma CapitalizeReadable(s: string)
    requires '_' !in s && |s| > 0 && 'a' <= s[0] <= 'z'
    ensures '_' !in Capitalize(s) && 'A' <= Capitalize(s)[0] <= 'Z'
  {
    var c := Capitalize(s);
    assert c == [c[0]] + s[1..];
  }

  /** A label built from a status with at most one underscore and a
      lower-case first letter shows no underscore and starts with a capital
      letter. */
  lemma IntendedLabelReadable(status: string)
    requires AtMostOneUnderscore(status)
    requires |status| > 0 && 'a' <= status[0] <= 'z'
    ensures '_' !in StatusLabelIntended(status)
    ensures 'A' <= StatusLabelIntended(status)[0] <= 'Z'
  {
    ReplaceLeavesNoUnderscore(status);
    var r := ReplaceFirstUnderscore(status);
    assert r[0] == status[0];
    CapitalizeReadable(r);
  }

  /** Every status name has at most one underscore and a lower-case first
      letter, so its intended label is readable. */
  lemma IntendedLabelsReadable(st: Status, name: string)
    requires name == StatusName(st)
    ensures '_' !in StatusLabelIntended(name)
    ensures 'A' <= StatusLabelIntended(name)[0] <= 'Z'
  {
    if st == InProgress {
      assert name[2] == '_' && '_' !in name[..2];
      assert UnderscoreIndex(name) == 2;
      assert name[3..] == "progress";
    } else {
      assert forall k :: 0 <= k < |name| ==> name[k] != '_';
    }
    IntendedLabelReadable(name);
  }
}
