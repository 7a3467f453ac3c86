# PriorityPilot task store, views and guards in Dafny

PriorityPilot is a React task manager. Team members keep their own tasks, and
a manager oversees everyone's. This project models the part of it that holds
the logic:

- the task store: the `taskReducer` with its nine action kinds, and the
  `TaskProvider` facade around it, including the bulk rollover of overdue
  tasks;
- the selectors the pages build on that store: search and sort, the team
  view pipeline, the completed list, the calendar grouping, the priority and
  status boards, and the help sidebar;
- the task and attachment form rules and the exact record each submit hands
  to the store;
- the mock-credential session (`AuthProvider`);
- the guards of the edit and detail pages.

There is one module per source file. Pure code is written as functions and
lemmas. What the source updates in place is written as classes whose methods
state their whole new state:

- `TaskContext.TaskProvider` holds the reducer state and the "tasks" storage
  slot;
- `Auth.AuthProvider` holds the session, its loading flag and the "user"
  storage slot;
- `AddAttachment.AttachmentDialog` holds the dialog's form values and open
  flag.

Two further pieces of the source change values step by step:

- The team view's four successive filters are a method that reassigns its
  list.
- The calendar's `reduce` is a loop that builds a map.

Both are proved equal to a specification function, and the properties are
proved about that function.

Modelling choices:

- Clock readings are parameters: `now` for timestamps and `id` for
  generated identifiers, plus `today` and `yesterday`.
- Dates and timestamps are ISO strings ordered lexicographically (`Text.StrLe`).
- `managerPriority` and `completedAt` are `Option`s.
- Storage slots are `Option` fields: `None` means the key is absent.
- JavaScript truthiness is written out where the source relies on it: an
  empty member id, an empty `completedAt`, an empty route parameter and the
  form's `||` defaults.
- `Array.prototype.sort` is stable. It is modelled as a stable insertion sort
  (`TaskFiltering.Sort`) under a total preorder per sort key. Its result is
  proved to be sorted, a permutation of its input, and order-preserving on
  ties.

The code makes no check that task ids are unique. The model follows the code:

- `AppendTask` accepts a duplicate id;
- `UpdateTasks` and `DeleteTasks` act on every task with the id;
- lookups return the first match.

## Model

| member | source | states |
|---|---|---|
| TaskTypes.ParsePriority | src/contexts/TaskContext.tsx:6 | defined exactly on the four priority names, and the inverse of their spelling |
| TaskTypes.ParseKind | src/contexts/TaskContext.tsx:9 | defined exactly on "file", "link" and "email", and the inverse of their spelling |
| TaskReducer.AppendTask | src/contexts/TaskContext.tsx:191-197 | ADD_TASK: the payload becomes the last element and every earlier task keeps its place; no id check |
| TaskReducer.UpdateTasks | src/contexts/TaskContext.tsx:198-206 | UPDATE_TASK: same ids in the same order; positions with the payload's id become the payload, all others are unchanged |
| TaskReducer.DeleteTasks | src/contexts/TaskContext.tsx:207-213 | DELETE_TASK: exactly the tasks with another id, each as often as before, in input order |
| TaskReducer.Completed | src/contexts/TaskContext.tsx:216-222 | a completed task differs from the original only in `isCompleted` (true) and `completedAt` (now) |
| TaskReducer.CompleteTasks | src/contexts/TaskContext.tsx:214-229 | COMPLETE_TASK: matching tasks are completed at `now` with status, help flag and due date untouched; others unchanged |
| TaskReducer.AddAttachmentTo | src/contexts/TaskContext.tsx:230-244 | ADD_ATTACHMENT: matching tasks get the attachment appended at the end, nothing else changes |
| TaskReducer.WithoutAttachment | src/contexts/TaskContext.tsx:250-252 | the attachments whose id differs, each as often as before, in their original order |
| TaskReducer.RemoveAttachmentFrom | src/contexts/TaskContext.tsx:245-261 | REMOVE_ATTACHMENT: matching tasks lose every attachment with that id, nothing else changes |
| TaskReducer.SetManagerPriorityOf | src/contexts/TaskContext.tsx:262-276 | SET_MANAGER_PRIORITY: only `managerPriority` of matching tasks changes |
| TaskReducer.Reduce | src/contexts/TaskContext.tsx:176-280 | FETCH_TASKS_SUCCESS replaces the list and clears loading and error; FETCH_TASKS_ERROR records the error; an unknown action changes nothing; every mutating case stores exactly the list it returns and keeps loading and error |
| TaskReducer.ReduceMutating | src/contexts/TaskContext.tsx:191-276 | each mutating action yields its case's list |
| TaskReducer.ReduceFrame | src/contexts/TaskContext.tsx:191-276 | a task whose id the action does not name survives every mutating action unchanged |
| TaskReducer.UpdateUnknownId | src/contexts/TaskContext.tsx:198-206 | an update for an absent id leaves the list as it was |
| TaskReducer.DeleteUnknownId | src/contexts/TaskContext.tsx:207-213 | a delete of an absent id leaves the list as it was |
| TaskReducer.AddThenDelete | src/contexts/TaskContext.tsx:191-213 | adding a task with a fresh id and deleting that id restores the list |
| TaskReducer.CompleteTwice | src/contexts/TaskContext.tsx:214-229 | completing again only overwrites `completedAt` |
| TaskReducer.AddThenRemoveAttachment | src/contexts/TaskContext.tsx:230-261 | adding an attachment with a fresh id and removing that id restores the list |
| TaskContext.SeedListShape | src/contexts/TaskContext.tsx:69-162 | the seed list has ids "1" to "5", all open, "todo" and without help requests |
| TaskContext.LoadTasks | src/contexts/TaskContext.tsx:170-173 | the stored list when the slot holds one, else the seed list |
| TaskContext.FindById | src/contexts/TaskContext.tsx:326-328 | absent iff no task has the id; otherwise the first task with it |
| TaskContext.OwnedTasks | src/contexts/TaskContext.tsx:317 | exactly the user's tasks, each as often as before, in input order |
| TaskContext.NewTaskRecord | src/contexts/TaskContext.tsx:334-343 | the caller's fields with owner, id and creation time filled in, no attachments, open, "todo", no help |
| TaskContext.NewTaskIgnoresCallerDefaults | src/contexts/TaskContext.tsx:335-342 | the owner, status and help flag the caller passes make no difference |
| TaskContext.NewAttachmentRecord | src/contexts/TaskContext.tsx:372-376 | the caller's type, name and URL with a fresh id and creation time |
| TaskContext.Rollover | src/contexts/TaskContext.tsx:411-419 | open tasks due on or before yesterday move to today; every other task is unchanged |
| TaskContext.RolloverLeavesNothingOverdue | src/contexts/TaskContext.tsx:411-419 | when yesterday precedes today, no task is overdue after a rollover |
| TaskContext.RolloverIdempotent | src/contexts/TaskContext.tsx:407-424 | when yesterday precedes today, a second rollover changes nothing |
| TaskContext.TaskProvider.constructor | src/contexts/TaskContext.tsx:57-61 | the initial state: no tasks, not loading, no error |
| TaskContext.TaskProvider.Dispatch | src/contexts/TaskContext.tsx:304 | the state becomes the reducer's; mutating actions write their list to storage, others leave it |
| TaskContext.TaskProvider.LoadForUser | src/contexts/TaskContext.tsx:307-312 | with a user, the loaded list replaces the state; without one nothing changes |
| TaskContext.TaskProvider.GetUserTasks | src/contexts/TaskContext.tsx:315-318 | nothing without a user; otherwise exactly that user's tasks, each as often as stored, in order |
| TaskContext.TaskProvider.GetAllUserTasks | src/contexts/TaskContext.tsx:321-323 | the whole list |
| TaskContext.TaskProvider.GetTaskById | src/contexts/TaskContext.tsx:326-328 | absent iff no stored task has the id; otherwise the first stored task with it |
| TaskContext.TaskProvider.AddTask | src/contexts/TaskContext.tsx:331-347 | no-op without a user; otherwise the new record, owned by the user, is appended and stored |
| TaskContext.TaskProvider.UpdateTask | src/contexts/TaskContext.tsx:350-353 | UPDATE_TASK applied and stored |
| TaskContext.TaskProvider.DeleteTask | src/contexts/TaskContext.tsx:356-359 | DELETE_TASK applied and stored |
| TaskContext.TaskProvider.CompleteTask | src/contexts/TaskContext.tsx:362-365 | COMPLETE_TASK at `now` applied and stored |
| TaskContext.TaskProvider.AddAttachment | src/contexts/TaskContext.tsx:368-384 | the attachment record appended to the task and stored |
| TaskContext.TaskProvider.RemoveAttachment | src/contexts/TaskContext.tsx:387-394 | REMOVE_ATTACHMENT applied and stored |
| TaskContext.TaskProvider.SetManagerPriority | src/contexts/TaskContext.tsx:397-404 | SET_MANAGER_PRIORITY applied and stored |
| TaskContext.TaskProvider.RolloverIncompleteTasks | src/contexts/TaskContext.tsx:407-424 | the rolled-over list is stored and becomes the state, with loading and error cleared |
| Auth.FindUser | src/contexts/AuthContext.tsx:83 | found iff some account has both that email and that password; the account found is the first such entry |
| Auth.WithoutPassword | src/contexts/AuthContext.tsx:86 | the session user keeps every account field but the password |
| Auth.WrongPasswordRejected | src/contexts/AuthContext.tsx:27-52 | every mock account has the password "password"; any other password is rejected |
| Auth.OnlyManagerAccount | src/contexts/AuthContext.tsx:27-52 | a login opens a manager session iff it is John Manager's account |
| Auth.AuthProvider.constructor | src/contexts/AuthContext.tsx:59-60 | no user, loading |
| Auth.AuthProvider.LoadUser | src/contexts/AuthContext.tsx:63-73 | the stored user when present, else unchanged; loading ends |
| Auth.AuthProvider.Login | src/contexts/AuthContext.tsx:76-99 | succeeds iff an account matches; the session and the storage hold it without its password; a failure says "Invalid credentials" and keeps the session; loading ends either way |
| Auth.AuthProvider.Logout | src/contexts/AuthContext.tsx:102-106 | no user and no stored user |
| Auth.AuthProvider.IsManager | src/contexts/AuthContext.tsx:109-111 | true iff a user is signed in with the manager role |
| TaskFiltering.EmptyTermMatches | src/hooks/useTaskFiltering.ts:8-9 | every task matches the empty term |
| TaskFiltering.SearchResults | src/hooks/useTaskFiltering.ts:5-10 | exactly the tasks whose lower-cased title or description contains the lower-cased term, each as often as before, in order |
| TaskFiltering.EmptySearchKeepsAll | src/hooks/useTaskFiltering.ts:5-10 | the empty term keeps the whole list |
| TaskFiltering.Rank | src/hooks/useTaskFiltering.ts:16 | ranks 0 to 3, urgent first and low last |
| TaskFiltering.SortKeyOf | src/hooks/useTaskFiltering.ts:12-22 | "dueDate", "priority" and "title" select their comparator; anything else compares equal |
| TaskFiltering.CompletionTime | src/pages/CompletedTasks.tsx:27-28 | absent when `completedAt` is missing or empty, else `completedAt` |
| TaskFiltering.LeTotal | src/hooks/useTaskFiltering.ts:11-23 | every comparator relates any two tasks one way or the other |
| TaskFiltering.LeTrans | src/hooks/useTaskFiltering.ts:11-23 | every comparator is transitive |
| TaskFiltering.Sort | src/hooks/useTaskFiltering.ts:11 | the sort returns a permutation of its input |
| TaskFiltering.SortSorted | src/hooks/useTaskFiltering.ts:11-23 | the sort's result is ordered by the comparator |
| TaskFiltering.SortStable | src/hooks/useTaskFiltering.ts:11-23 | tasks the comparator ties keep their input order |
| TaskFiltering.UnsortedKeepsOrder | src/hooks/useTaskFiltering.ts:20-21 | with no comparator the order is the input's |
| TaskFiltering.UseTaskFiltering | src/hooks/useTaskFiltering.ts:4-26 | exactly the matching tasks, a permutation of the filtered list and no more than the input, ordered by the key, ties in input order |
| TaskFiltering.PrioritySortRanks | src/hooks/useTaskFiltering.ts:15-17 | "priority" yields non-decreasing rank |
| TaskFiltering.DueDateSortOrder | src/hooks/useTaskFiltering.ts:13-14 | "dueDate" yields non-decreasing due dates |
| TaskFiltering.UnrecognisedKeyKeepsOrder | src/hooks/useTaskFiltering.ts:20-21 | an unknown key returns the matching tasks in input order |
| TaskFiltering.EmptyTermKeepsEveryTask | src/hooks/useTaskFiltering.ts:5-10 | an empty term returns a permutation of the whole input |
| TeamView.GetTeamMember | src/pages/TeamView.tsx:124-126 | found iff the id is "2" or "3", and then that team member |
| TeamView.TeamTasks | src/pages/TeamView.tsx:75-93 | exactly the tasks that match the term, are not the manager's, belong to the chosen member if any, and are open, each as often as in the store; in due-date order |
| TeamView.TeamTasksStable | src/pages/TeamView.tsx:93 | tasks with equal due dates keep their store order (the sort is stable) |
| TeamView.FilterTeamTasks | src/pages/TeamView.tsx:74-96 | the four successive filters and the sort compute `TeamTasks` |
| TeamView.RenderTeamView | src/pages/TeamView.tsx:59-96 | "Access Denied" iff the session is not a manager's; otherwise the pipeline over every stored task |
| TeamView.HandleTeamMemberChange | src/pages/TeamView.tsx:104-106 | "all" clears the selection, any other value selects it |
| TeamView.AllMembersIsNoMemberFilter | src/pages/TeamView.tsx:74-106 | "all" lists every matching open task of every team member |
| TeamView.MemberChoiceNarrows | src/pages/TeamView.tsx:85-106 | choosing a member lists only that member's tasks, all of them also listed under "all" |
| TeamView.HandlePriorityChange | src/pages/TeamView.tsx:109-121 | "none" clears the manager priority only when the task is listed; a priority name is set unconditionally |
| TeamView.ClearUnknownChangesNothing | src/pages/TeamView.tsx:112-117 | clearing an absent id would not change the list |
| TeamView.PriorityColor | src/pages/TeamView.tsx:129-142 | a priority name maps to its own class, anything else to grey; CalendarView.tsx:34-47 has the same table |
| TeamView.PriorityColorsDistinct | src/pages/TeamView.tsx:129-142 | distinct priorities get distinct classes |
| CompletedTasks.CompletedView | src/pages/CompletedTasks.tsx:16-31 | the filtered, sorted list; never longer than the input |
| CompletedTasks.CompletedViewMembers | src/pages/CompletedTasks.tsx:17-22 | the page lists exactly the completed tasks matching the term, each as often as in the input |
| CompletedTasks.CompletedViewNewestFirst | src/pages/CompletedTasks.tsx:25-29 | along the list completion times never increase, and tasks without one come last |
| CompletedTasks.CompletedViewStable | src/pages/CompletedTasks.tsx:25-29 | tasks with equal completion times keep their input order |
| CompletedTasks.MissingCompletionLast | src/pages/CompletedTasks.tsx:26-30 | a task without a completion time is followed only by such tasks |
| CompletedTasks.LaterCompletionFirst | src/pages/CompletedTasks.tsx:26-30 | of two completion times, the later is listed first |
| CompletedTasks.EmptyTermListsAllCompleted | src/pages/CompletedTasks.tsx:18-23 | an empty term lists every completed task, each as often as in the input |
| CalendarView.DueOn | src/pages/CalendarView.tsx:18-25 | the tasks due on a day, each as often as in the input, in input order |
| CalendarView.Grouping | src/pages/CalendarView.tsx:18-25 | the keys are exactly the due dates present |
| CalendarView.PushStep | src/pages/CalendarView.tsx:19-24 | one reduce step (create the day's array if missing, push the task) keeps every key holding exactly the tasks due that day, in order, and adds the task's day as a key |
| CalendarView.GroupByDueDate | src/pages/CalendarView.tsx:18-25 | the reduce computes `Grouping` |
| CalendarView.GroupsNonEmpty | src/pages/CalendarView.tsx:19-25 | every key has a non-empty group |
| CalendarView.TaskInExactlyOneGroup | src/pages/CalendarView.tsx:18-25 | a task is in its due date's group and in no other |
| CalendarView.GroupsKeepOrder | src/pages/CalendarView.tsx:23 | each group keeps input order |
| CalendarView.GroupSizesSum | src/pages/CalendarView.tsx:18-25 | the group sizes over the distinct dates add up to the task count |
| CalendarView.TasksForSelectedDate | src/pages/CalendarView.tsx:27-31 | nothing without a date or without a group for it, else that group |
| CalendarView.SelectedDateIsDueOn | src/pages/CalendarView.tsx:27-31 | the selected day's list is the tasks due that day |
| CalendarView.MarkerIffTaskDue | src/pages/CalendarView.tsx:52 | a day has a marker iff some task is due that day |
| TasksByPriority.Bucket | src/components/dashboard/TasksByPriority.tsx:13-16 | exactly the tasks of one user priority, each as often as before, in input order |
| TasksByPriority.TasksByPriority | src/components/dashboard/TasksByPriority.tsx:13-16 | each bucket holds exactly its priority's tasks, each as often as in the input, in input order |
| TasksByPriority.BucketSizesSum | src/components/dashboard/TasksByPriority.tsx:13-16 | the four sizes add up to the task count |
| TasksByPriority.BucketIdsAgree | src/components/dashboard/TasksByPriority.tsx:13-16 | only ids and user priorities decide the buckets |
| TasksByPriority.ManagerPriorityKeepsBuckets | src/components/dashboard/TasksByPriority.tsx:13-16 | setting a manager priority moves no task between buckets |
| TasksByStatus.Column | src/components/dashboard/TasksByStatus.tsx:13-15 | exactly the tasks of one status, each as often as before, in input order |
| TasksByStatus.TasksByStatus | src/components/dashboard/TasksByStatus.tsx:13-15 | each column holds exactly its status's tasks, each as often as in the input, in input order |
| TasksByStatus.ColumnSizesSum | src/components/dashboard/TasksByStatus.tsx:13-15 | the three sizes add up to the task count |
| TasksByStatus.StatusAloneDecides | src/components/dashboard/TasksByStatus.tsx:15 | a task is in Done iff its status is "done", whatever `isCompleted` says |
| TasksByStatus.ColumnIdsAgree | src/components/dashboard/TasksByStatus.tsx:13-15 | only ids and statuses decide the columns |
| TasksByStatus.CompletingKeepsColumns | src/components/dashboard/TasksByStatus.tsx:13-15 | completing a task moves no task between columns |
| HelpSidebar.HelpNeeded | src/components/HelpRequiredSidebar.tsx:16 | exactly the open tasks with a help request, in input order |
| HelpSidebar.RenderSidebar | src/components/HelpRequiredSidebar.tsx:16-18 | hidden iff no task awaits help, else the non-empty list |
| HelpSidebar.ResolveHelp | src/components/HelpRequiredSidebar.tsx:21 | the same task with only the help flag turned off |
| HelpSidebar.HandleResolveHelp | src/components/HelpRequiredSidebar.tsx:20-22 | the store receives that update |
| HelpSidebar.ResolveLeavesSidebar | src/components/HelpRequiredSidebar.tsx:16-22 | after the update the resolved id leaves the sidebar and the other requests stay in order |
| HelpSidebar.RequesterLabel | src/components/HelpRequiredSidebar.tsx:69 | "2" gives "Alice", "3" gives "Bob", and "Unknown" iff the owner is neither |
| HelpSidebar.RequesterIsTeamMember | src/components/HelpRequiredSidebar.tsx:69 | a named requester is a team member whose name starts with the label |
| TasksTable.ToggleHelp | src/components/TasksTable.tsx:26 | the same task with the help flag set to the negated shown flag |
| TasksTable.ToggleTwice | src/components/TasksTable.tsx:26 | two toggles restore the task |
| TasksTable.HandleAskHelp | src/components/TasksTable.tsx:23-28 | an id absent from the rows issues no update; otherwise the toggled task is stored |
| TasksTable.ToggleTwiceInStore | src/components/TasksTable.tsx:23-28 | two toggles of a row restore the stored list |
| TasksTable.StatusColor | src/components/TasksTable.tsx:30-41 | "todo" red, "in_progress" blue, "done" green; empty iff the status is not one of the three |
| TasksTable.StatusColorsDistinct | src/components/TasksTable.tsx:30-41 | the three statuses get distinct, non-empty colours |
| TasksTable.PriorityBadgeColor | src/components/TasksTable.tsx:43-56 | urgent red, high orange, medium yellow, low blue; grey iff the string is not a priority name |
| TasksTable.PriorityBadgeColorsDistinct | src/components/TasksTable.tsx:43-56 | distinct priorities get distinct badges |
| TasksTable.StatusLabel | src/components/TasksTable.tsx:96-97 | the label as written has the status's length |
| TasksTable.StatusLabelIgnoresReplace | src/components/TasksTable.tsx:96-97 | as written, the label is the capitalised raw status |
| TasksTable.InProgressLabelKeepsUnderscore | src/components/TasksTable.tsx:96-97 | as written, "in_progress" shows as "In_progress" |
| TasksTable.InProgressIntendedLabel | src/components/TasksTable.tsx:96-97 | the intended label of "in_progress" is "In progress" |
| TasksTable.IntendedLabelsReadable | src/components/TasksTable.tsx:96-97 | every intended status label starts with a capital and shows no underscore |
| TaskForm.ValidateTask | src/components/TaskForm.tsx:30-41 | valid iff title has 3 or more characters, description 5 or more, a priority name and a non-empty due date; the parsed values are the fields |
| TaskForm.ValidateRoundTrip | src/components/TaskForm.tsx:30-41 | accepted values validate back to themselves |
| TaskForm.Defaults | src/components/TaskForm.tsx:59-64 | the task's values when editing, with an empty due date falling back to today; else "", "", "medium" and today |
| TaskForm.BlankFormInvalid | src/components/TaskForm.tsx:30-64 | the untouched add form does not validate |
| TaskForm.EditDefaultsValid | src/components/TaskForm.tsx:30-64 | a task meeting the rules can be resubmitted unchanged |
| TaskForm.SubmitAction | src/components/TaskForm.tsx:68-86 | an update iff editing with a task, with only the four form fields replaced; else an add with status "todo", no help and the user's id or "" |
| TaskForm.EditKeepsIdentity | src/components/TaskForm.tsx:69-74 | an edit keeps id, owner, attachments, completion, manager priority, status and help flag |
| TaskForm.AddedTaskOwnedBySessionUser | src/components/TaskForm.tsx:77-85 | the store's record of an added task belongs to the signed-in user whatever the form sent |
| TaskForm.OnSubmit | src/components/TaskForm.tsx:68-88 | exactly one of update or add reaches the store, then navigation to "/" |
| AddAttachment.ValidateAttachment | src/components/AddAttachment.tsx:36-44 | valid iff the type is a known kind and name and URL are non-empty; the parsed values are the fields |
| AddAttachment.DefaultsInvalid | src/components/AddAttachment.tsx:57-61 | the untouched form does not validate |
| AddAttachment.ValidateRoundTrip | src/components/AddAttachment.tsx:36-44 | every attachment validates from its own fields |
| AddAttachment.AttachmentDialog.constructor | src/components/AddAttachment.tsx:52-62 | closed, with the default values |
| AddAttachment.AttachmentDialog.SetOpen | src/components/AddAttachment.tsx:76 | only the open flag changes |
| AddAttachment.AttachmentDialog.Submit | src/components/AddAttachment.tsx:65-73 | rejected values change nothing; accepted ones are added to this task, the form is reset and the dialog closed; a second submit adds nothing |
| EditTask.EditTaskPage | src/pages/EditTask.tsx:15-44 | the form iff the id is given, the task exists and the visitor owns it; otherwise a redirect to "/" |
| EditTask.ManagersCannotEditOthersTasks | src/pages/EditTask.tsx:28-31 | a manager who is not the owner is redirected |
| EditTask.OwnerGetsForm | src/pages/EditTask.tsx:33-44 | the owner gets the form for that exact task, prefilled with its values |
| TaskDetail.ViewOf | src/pages/TaskDetail.tsx:130-218 | Complete, Edit and Add Attachment only while open; the completion date iff completed with a non-empty `completedAt` |
| TaskDetail.TaskDetailPage | src/pages/TaskDetail.tsx:46-62 | the page iff the id is given, the task exists and the visitor owns it or is a manager; otherwise a redirect to "/" |
| TaskDetail.ManagerEditLinkRedirects | src/pages/TaskDetail.tsx:211-218 | a manager is offered Edit on another user's open task, and the edit page redirects them |
| TaskDetail.EditableIsViewable | src/pages/TaskDetail.tsx:59-62 | whoever may edit a task may view it |
| TaskDetail.HandleComplete | src/pages/TaskDetail.tsx:64-66 | COMPLETE_TASK for this task, stored |
| TaskDetail.CompletedPageLocksActions | src/pages/TaskDetail.tsx:174-218 | after completing, the page shows the task completed at `now` and offers none of the three actions |
| TaskDetail.HandleDelete | src/pages/TaskDetail.tsx:68-71 | DELETE_TASK for this task, stored, then navigation to "/" |
| TaskDetail.DeletedTaskRedirects | src/pages/TaskDetail.tsx:46-56 | after a delete, the id's page redirects everyone |

## Left out

- Storage is an abstract slot. `localStorage` and JSON encoding are not modelled, so a stored value that fails to parse is not represented.
- The clock is not modelled. `Date.now()` and `new Date().toISOString()` are parameters, and generated ids are not claimed unique.
- JavaScript `Date` parsing and `getTime()` are replaced by ISO-string order. Invalid dates, which make the comparators return `NaN`, are not modelled. The page's `toISOString` conversion of the selected calendar day is not modelled; the day is given as its date string.
- Text.Lower: ASCII letters only, and likewise `Text.UpperChar` for `toUpperCase`; Unicode case mapping is not modelled.
- AddAttachment.AttachmentDialog.Edit: stands in for the user typing into the react-hook-form fields; the field-by-field form state of that library is not modelled, only the resulting values.
- TaskFiltering.Le: `localeCompare` on titles (and TeamView's on due dates) is plain character order, not locale collation.
- TaskForm.ValidateTask: lengths count Dafny characters (Unicode scalar values); zod counts UTF-16 code units, so they differ for characters outside the Basic Multilingual Plane.
- TeamView.FilterTeamTasks: the in-place `sort` on the filtered array is modelled as sorting a sequence value. The result is the same because the array is fresh, but the update in place is not modelled.
- TeamView.HandlePriorityChange: requires the choice to be "none" or a priority name, which are the only values its select offers. The source casts any string with `as any`.
- CalendarView.GroupByDueDate: the dictionary is a Dafny map. Plain-object key quirks of JavaScript (such as a due date spelled like an inherited property) are not modelled.
- Auth.AuthProvider.Login: the simulated one-second delay and the thrown error are modelled as a synchronous `Rejected` result.
- Toast notifications, JSX rendering beyond the shown or hidden parts named above, routing, and re-render timing are not modelled.
- Presentational helpers on the pages are not modelled: date formatting, days pending, and TaskDetail's priority badge.
- src/components/ManagerPriority.tsx, the theme context and the purely presentational components are not part of this model.
- The zod and react-hook-form machinery itself is not modelled. Only the stated length and enum rules are, and submit runs only on values they accept.

## Findings

| source | as written | input that shows it | evidently intended | confidence | as-written member | corrected member |
|---|---|---|---|---|---|---|
| src/components/TasksTable.tsx:96-97 | the first character comes from the string with `_` replaced, but the rest is `status.slice(1)` of the raw status, so the replacement is lost | status "in_progress" is shown as "In_progress" | "In progress": the status with its underscore replaced by a space, capitalised | high (not executed) | TasksTable.InProgressLabelKeepsUnderscore | TasksTable.IntendedLabelsReadable |
