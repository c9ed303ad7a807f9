# Task relocation and sort settings, modelled in Dafny

This project models two parts of the Tasks Android app.

**`TaskMover`** moves tasks, each with its whole subtree, into a
Google-Tasks list or a CalDAV calendar. Every binding of a task to a list
is a row of the association table (`CaldavTask`). A row whose `deleted`
stamp is 0 is live; any other row is a tombstone. A batch move:

- keeps the requested tasks that are not descendants of another requested
  task and are not read-only (the *processed* tasks);
- clears their parent pointers;
- moves each of them by one of three strategies, chosen from its current
  binding (a Google-Tasks row, else a CalDAV row, else none);
- records a parent roll-up for a CalDAV destination;
- touches every processed task;
- fires one refresh and one sync.

The strategies tombstone the old rows of the subtree and insert new ones.
They keep or rebuild the `remoteId`/`remoteParent` links that carry the
hierarchy on a CalDAV server. `getSingleFilter` decides whether a set of
tasks sits in exactly one list of exactly one backend kind.

**`SortSettingsViewModel`** holds six sort settings twice: in a
preferences object and in a view-state snapshot. Its setters apply fixed
coupling rules between the settings. `forceReload` reports whether manual
or Astrid sort differs from the state the dialog opened with.

Files:

- `wrappers.dfy`: `Option`.
- `task_store.dfy` (module `TaskStore`): the task table and the association
  table.
  - The DAO queries the mover issues are functions.
  - The DAO writes are the methods of class `Database`, each with a
    field-level `modifies` frame.
  - `getChildren` is a breadth-first walk, so it terminates on any table.
- `relocation.dfy` (module `Relocation`): each step of `TaskMover` twice.
  - As a pure function of a `World` snapshot: `GoogleMove`, `CaldavMove`,
    `LocalMove`, `ToGoogleTasks`, `Perform`, `PerformAll`, `BatchMove`.
  - As a method of class `TaskMover`, which makes the DAO calls step by
    step and is proved to end in the state that function describes.
  - The `moveLocalTask` loop that fills the `HashMap` is the method
    `BuildLinkedRows`, with its loop invariants.
- `relocation_props.dfy` (module `RelocationProps`): the properties a move
  promises, proved about those functions.
- `sort_settings.dfy` (module `SortSettings`): each setter as a function on
  `ViewState`, and the classes `SortPreferences` and
  `SortSettingsViewModel`, whose methods assign the fields as the source
  does.

`TaskMover.kt` below stands for `app/src/main/java/com/todoroo/astrid/service/TaskMover.kt`
and `SortSettingsViewModel.kt` for `app/src/main/java/org/tasks/dialogs/SortSettingsViewModel.kt`.

## Model

| member | source | states |
|---|---|---|
| Relocation.GetSingleFilter | app/src/main/java/com/todoroo/astrid/service/TaskMover.kt:36-49 | A Google-Tasks filter for list `l` exactly when the tasks have no live CalDAV row and their live Google-Tasks rows name only `l`. A CalDAV filter for `l` exactly when there is no live Google-Tasks row and the live CalDAV rows name only `l`. Otherwise none, which covers mixed selections and several lists. |
| TaskStore.ListsOf | app/src/main/java/com/todoroo/astrid/service/TaskMover.kt:37-38 | `getCalendars`/`getLists`: a list is reported iff a live row of that kind binds one of the tasks to it. |
| Relocation.Destination | app/src/main/java/com/todoroo/astrid/service/TaskMover.kt:51-60 | Resolves iff the calendar exists, names an account, and the account exists. The result is a Google-Tasks filter iff the account type is `TYPE_GOOGLE_TASKS`, otherwise a CalDAV filter. |
| Relocation.TaskMover.MoveToList | app/src/main/java/com/todoroo/astrid/service/TaskMover.kt:51-60 | If the calendar or its account does not resolve, nothing changes and no refresh or sync fires. Otherwise the result is exactly the batch move of `[task]` to the resolved destination. The frame names only the task table, the association table, the placements, the roll-ups, the counter, the cache moves, refresh and sync, so the calendar and account registries stay as they were. |
| Relocation.Roots | app/src/main/java/com/todoroo/astrid/service/TaskMover.kt:63-67 | A task is processed iff it is in the table, was requested, is not a descendant of a requested task, and is not read-only. |
| RelocationProps.DetachedAreRoots | app/src/main/java/com/todoroo/astrid/service/TaskMover.kt:63-69 | The parent reset to 0 is exactly that of each processed task. Every other task is unchanged. |
| Relocation.TaskMover.Move | app/src/main/java/com/todoroo/astrid/service/TaskMover.kt:62-79 | The new store is `BatchMove` of the old one. Refresh and sync each fire exactly once per batch. The calendar and account registries are outside its frame and stay as they were. |
| Relocation.TaskMover.constructor | app/src/main/java/com/todoroo/astrid/service/TaskMover.kt:119-119 | Starts the remote-id counter past every generated id the association table already holds, so the class invariant that no row names an id not yet handed out holds from the start. |
| RelocationProps.BatchCounter | app/src/main/java/com/todoroo/astrid/service/TaskMover.kt:62-79 | A batch keeps the counter past every generated id in the table, so each fresh remote id is new to the table. |
| Relocation.TaskMover.PerformMoves | app/src/main/java/com/todoroo/astrid/service/TaskMover.kt:70-70 | The loop performs each processed task's move in order: the state is `PerformAll` of the old one. |
| RelocationProps.PerformAllFrame | app/src/main/java/com/todoroo/astrid/service/TaskMover.kt:70-70 | The per-task moves never add or remove a task and never record a parent roll-up. |
| RelocationProps.BatchRollup | app/src/main/java/com/todoroo/astrid/service/TaskMover.kt:71-73 | A batch records an `updateParents` for the destination iff the destination is a CalDAV calendar. |
| RelocationProps.BatchTouches | app/src/main/java/com/todoroo/astrid/service/TaskMover.kt:74-76 | Every processed task ends with modification time `now`. Every other task, the descendants carried along included, stays present or absent as it was and keeps its modification time. |
| TaskStore.SubtreesApart | app/src/main/java/com/todoroo/astrid/service/TaskMover.kt:63-67 | Two distinct processed tasks have disjoint subtrees, since neither descends from a requested task. |
| TaskStore.DescendantsFrame | app/src/main/java/com/todoroo/astrid/service/TaskMover.kt:68-70 | Re-parenting tasks outside a subtree, none of them now under it, leaves that subtree as it was; so clearing the processed tasks' parents and moving one processed task leave the other subtrees intact. |
| RelocationProps.PerformPlaces | app/src/main/java/com/todoroo/astrid/service/TaskMover.kt:86-96 | One `performMove` to a valid destination, given what the chosen strategy expects of the subtree: a task already in the destination leaves the store as it was; otherwise the task and each descendant end with exactly one live row, in the destination. Every other task keeps its live rows. |
| RelocationProps.BatchPlaces | app/src/main/java/com/todoroo/astrid/service/TaskMover.kt:62-79 | After `move(ids, selectedList)` every processed task not already in the destination, and each of its descendants, has exactly one live row, in the destination. The subtree of a task already there keeps its rows. Every task outside the processed subtrees keeps its live rows. |
| RelocationProps.BatchAlreadyThere | app/src/main/java/com/todoroo/astrid/service/TaskMover.kt:62-79 | When every processed task already sits in the destination, the batch changes no association row, placement, remote-id counter or cached object. |
| Relocation.BindingOf | app/src/main/java/com/todoroo/astrid/service/TaskMover.kt:86-96 | A live Google-Tasks row wins. A CalDAV binding is chosen only when no live Google-Tasks row exists. Unbound iff the task has no live row. |
| TaskStore.FirstLive | app/src/main/java/com/todoroo/astrid/service/TaskMover.kt:87-91 | `getByTaskId`/`getTask`: a row is found iff a live row of that kind binds the task, and it is such a row. |
| Relocation.TaskMover.PerformMove | app/src/main/java/com/todoroo/astrid/service/TaskMover.kt:86-96 | The new store is `Perform` of the old one: the strategy chosen from the binding. |
| RelocationProps.SameListIsNoOp | app/src/main/java/com/todoroo/astrid/service/TaskMover.kt:99-101 | Moving a task to the Google-Tasks list or CalDAV calendar it is in (also lines 132-135) leaves the store exactly as it was. |
| TaskStore.Descendants | app/src/main/java/com/todoroo/astrid/service/TaskMover.kt:103-103 | `getChildren` lists distinct ids, each of a task in the table. |
| TaskStore.DescendantsComplete | app/src/main/java/com/todoroo/astrid/service/TaskMover.kt:103-103 | Every task whose parent is a root or a listed descendant is itself listed. With `DescendantsParentFirst` this makes the list exactly the subtree below the roots. |
| TaskStore.Database.MarkDeleted | app/src/main/java/com/todoroo/astrid/service/TaskMover.kt:104-104 | Every row of the given tasks is stamped with the one timestamp. Other rows are unchanged. |
| RelocationProps.MarkDeletedKills | app/src/main/java/com/todoroo/astrid/service/TaskMover.kt:104-104 | After `markDeleted`, no given task keeps a live row and every other task keeps its own. |
| Relocation.TaskMover.MoveGoogleTask | app/src/main/java/com/todoroo/astrid/service/TaskMover.kt:98-129 | The new store is `GoogleMove` of the old one. |
| Relocation.TaskMover.InsertGoogleRows | app/src/main/java/com/todoroo/astrid/service/TaskMover.kt:106-116 | Appends a Google-Tasks row with no remote id for the root (placed top or bottom), then one for each child. |
| Relocation.TaskMover.InsertMinted | app/src/main/java/com/todoroo/astrid/service/TaskMover.kt:117-126 | Appends a row with a fresh remote id for the root. Then each child gets a row with its own fresh id and the root's id as remote parent. |
| Relocation.TaskMover.NewCaldavTask | app/src/main/java/com/todoroo/astrid/service/TaskMover.kt:119-119 | `CaldavTask(id, listId)` draws the next fresh remote id and never repeats one. |
| RelocationProps.GoogleToGoogle | app/src/main/java/com/todoroo/astrid/service/TaskMover.kt:102-116 | Google list to another Google list: the old rows are tombstoned in place. The root and each descendant end with exactly one live row in the new list, with no remote id. Other tasks keep their rows. |
| RelocationProps.GoogleToCaldav | app/src/main/java/com/todoroo/astrid/service/TaskMover.kt:102-126 | Google list to a calendar: the old rows are tombstoned. The root ends with one live row with the next fresh remote id. Descendant `k` ends with one live row with fresh id `n+1+k` whose remote parent is the root's id. Other tasks keep their rows. |
| RelocationProps.MintedAfterTombstone | app/src/main/java/com/todoroo/astrid/service/TaskMover.kt:104-125 | Tombstoning a subtree and then appending the minted rows keeps the old rows in place. It binds each task of the subtree to its new row alone. |
| Relocation.TaskMover.MoveCaldavTask | app/src/main/java/com/todoroo/astrid/service/TaskMover.kt:131-165 | The new store is `CaldavMove` of the old one. |
| Relocation.TaskMover.CarryRows | app/src/main/java/com/todoroo/astrid/service/TaskMover.kt:146-161 | Appends the copies of the root's row and the children's rows in the new calendar. Queues one cached-object move per copied row. |
| TaskStore.LiveRowsOfMembers | app/src/main/java/com/todoroo/astrid/service/TaskMover.kt:141-141 | `getTasks(childIds)` returns exactly the live rows of those tasks. |
| RelocationProps.CaldavMoveRows | app/src/main/java/com/todoroo/astrid/service/TaskMover.kt:136-161 | Calendar to calendar: the new table is the old one tombstoned, then the root's copy, then the children's copies. |
| RelocationProps.CaldavToCaldav | app/src/main/java/com/todoroo/astrid/service/TaskMover.kt:136-161 | Calendar to calendar: old rows are tombstoned. The root ends with one live row keeping its remote id and object, with no remote parent. Each descendant ends with one live row keeping remote id, object and remote parent. Other tasks keep their rows. |
| RelocationProps.CaldavToGoogle | app/src/main/java/com/todoroo/astrid/service/TaskMover.kt:136-162 | Calendar to a Google list: old rows are tombstoned. The subtree is flattened under the root. Each task of it ends with one live Google-Tasks row with no remote id. |
| Relocation.TaskMover.MoveLocalTask | app/src/main/java/com/todoroo/astrid/service/TaskMover.kt:167-187 | The new store is `LocalMove` of the old one. |
| Relocation.TaskMover.LinkLocalSubtree | app/src/main/java/com/todoroo/astrid/service/TaskMover.kt:170-183 | The CalDAV branch of `moveLocalTask` ends in `LocalMove` of the old store. |
| Relocation.TaskMover.InsertLinked | app/src/main/java/com/todoroo/astrid/service/TaskMover.kt:174-183 | Appends the root's row with a fresh id, then the linked child rows. The counter advances by one per task. |
| Relocation.BuildLinkedRows | app/src/main/java/com/todoroo/astrid/service/TaskMover.kt:173-181 | The loop succeeds iff every child's parent is the root or an earlier child (otherwise the `!!` throws). On success it yields the rows `LinkedRows` describes. |
| Relocation.ChildrenFollowParents | app/src/main/java/com/todoroo/astrid/service/TaskMover.kt:175-179 | The children `getChildren` and `fetch` return come parent first, so the `!!` never throws. |
| TaskStore.DescendantsParentFirst | app/src/main/java/com/todoroo/astrid/service/TaskMover.kt:175-175 | Each descendant is in the table, and its parent is a root or an earlier descendant. |
| RelocationProps.LinkedRowLink | app/src/main/java/com/todoroo/astrid/service/TaskMover.kt:177-179 | A child's remote parent is the fresh id built for its parent: the root's when the parent is the root. |
| RelocationProps.LocalToCaldav | app/src/main/java/com/todoroo/astrid/service/TaskMover.kt:170-183 | Local subtree to a calendar: old rows are kept. Each task of the subtree ends with one live CalDAV row in the calendar with a remote id. The root's row has no remote parent. Other tasks keep their rows. |
| RelocationProps.LocalRemoteIdsDistinct | app/src/main/java/com/todoroo/astrid/service/TaskMover.kt:174-177 | The remote ids given to the tasks of a moved local subtree are pairwise distinct. |
| RelocationProps.LocalToCaldavLinks | app/src/main/java/com/todoroo/astrid/service/TaskMover.kt:173-183 | Each descendant's new remote parent is the new remote id of its own parent's row, which is the root's when the parent is the root. |
| RelocationProps.LocalToGoogle | app/src/main/java/com/todoroo/astrid/service/TaskMover.kt:169-169 | Local subtree to a Google list: the subtree is flattened under the root. Each task ends with one live Google-Tasks row with no remote id. |
| Relocation.TaskMover.MoveToGoogleTasks | app/src/main/java/com/todoroo/astrid/service/TaskMover.kt:189-201 | The new store is `ToGoogleTasks` of the old one. |
| RelocationProps.ToGoogleTasksFlattens | app/src/main/java/com/todoroo/astrid/service/TaskMover.kt:190-191 | If the root cannot be fetched, nothing changes. Otherwise every given descendant's parent becomes the root and all other tasks are unchanged. |
| TaskStore.FetchTask | app/src/main/java/com/todoroo/astrid/service/TaskMover.kt:190-190 | `fetch(id)` finds a task iff one with that id is in the table. |
| TaskStore.Database.SetParent | app/src/main/java/com/todoroo/astrid/service/TaskMover.kt:191-191 | The given tasks get the new parent and the others are unchanged. |
| TaskStore.Database.Touch | app/src/main/java/com/todoroo/astrid/service/TaskMover.kt:75-75 | The given tasks get modification time `now` and the others are unchanged. |
| TaskStore.Database.Insert | app/src/main/java/com/todoroo/astrid/service/TaskMover.kt:108-112 | Appends one row and records its top or bottom placement. |
| TaskStore.Database.InsertAll | app/src/main/java/com/todoroo/astrid/service/TaskMover.kt:115-115 | Appends the rows in order. |
| TaskStore.Database.UpdateParents | app/src/main/java/com/todoroo/astrid/service/TaskMover.kt:72-72 | Records the roll-up for the calendar. |
| SortSettings.WithSortAscending | app/src/main/java/org/tasks/dialogs/SortSettingsViewModel.kt:49-52 | Only `sortAscending` changes. |
| SortSettings.WithGroupAscending | app/src/main/java/org/tasks/dialogs/SortSettingsViewModel.kt:54-57 | Only `groupAscending` changes. |
| SortSettings.WithGroupMode | app/src/main/java/org/tasks/dialogs/SortSettingsViewModel.kt:59-79 | The group mode is stored. A mode other than `GROUP_NONE` turns manual and Astrid sort off; `GROUP_NONE` leaves them. `groupAscending` is false exactly for `SORT_MODIFIED` and `SORT_CREATED`. The sort fields are kept. |
| SortSettings.WithSortMode | app/src/main/java/org/tasks/dialogs/SortSettingsViewModel.kt:81-99 | The sort mode is stored and manual and Astrid sort are both off. `sortAscending` is false exactly for `SORT_MODIFIED` and `SORT_CREATED`. The group fields are kept. |
| SortSettings.WithManual | app/src/main/java/org/tasks/dialogs/SortSettingsViewModel.kt:101-112 | `manualSort` takes the value. Turning it on sets `GROUP_NONE`; turning it off keeps the group mode. Nothing else changes. |
| SortSettings.WithAstrid | app/src/main/java/org/tasks/dialogs/SortSettingsViewModel.kt:114-125 | `astridSort` takes the value. Turning it on sets `GROUP_NONE`; turning it off keeps the group mode. Nothing else changes. |
| SortSettings.SortSettingsViewModel.constructor | app/src/main/java/org/tasks/dialogs/SortSettingsViewModel.kt:38-46 | The opening state and the view state are copies of the preferences. |
| SortSettings.SortSettingsViewModel.SetSortAscending | app/src/main/java/org/tasks/dialogs/SortSettingsViewModel.kt:49-52 | Preferences and view state both become `WithSortAscending` of the old settings and stay equal. |
| SortSettings.SortSettingsViewModel.SetGroupAscending | app/src/main/java/org/tasks/dialogs/SortSettingsViewModel.kt:54-57 | Preferences and view state both become `WithGroupAscending` of the old settings. |
| SortSettings.SortSettingsViewModel.SetGroupMode | app/src/main/java/org/tasks/dialogs/SortSettingsViewModel.kt:59-79 | Preferences and view state both become `WithGroupMode` of the old settings. |
| SortSettings.SortSettingsViewModel.SetSortMode | app/src/main/java/org/tasks/dialogs/SortSettingsViewModel.kt:81-99 | Preferences and view state both become `WithSortMode` of the old settings. |
| SortSettings.SortSettingsViewModel.SetManual | app/src/main/java/org/tasks/dialogs/SortSettingsViewModel.kt:101-112 | Preferences and view state both become `WithManual` of the old settings. |
| SortSettings.SortSettingsViewModel.SetAstrid | app/src/main/java/org/tasks/dialogs/SortSettingsViewModel.kt:114-125 | Preferences and view state both become `WithAstrid` of the old settings. |
| SortSettings.ApplyKeepsExclusive | app/src/main/java/org/tasks/dialogs/SortSettingsViewModel.kt:59-125 | No setter lets grouping coexist with manual or Astrid sort once they are exclusive. |
| SortSettings.ChoosingMakesExclusive | app/src/main/java/org/tasks/dialogs/SortSettingsViewModel.kt:59-125 | Choosing a group mode, a sort mode, manual or Astrid sort leaves grouping and manual/Astrid sort exclusive. |
| SortSettings.RunKeepsExclusive | app/src/main/java/org/tasks/dialogs/SortSettingsViewModel.kt:59-125 | Exclusivity survives any sequence of setter calls. |
| SortSettings.ApplyIdempotent | app/src/main/java/org/tasks/dialogs/SortSettingsViewModel.kt:49-125 | Calling a setter twice with one argument equals calling it once. |
| SortSettings.ReloadsOnSortFlagsOnly | app/src/main/java/org/tasks/dialogs/SortSettingsViewModel.kt:127-129 | `forceReload` depends on manual and Astrid sort only. |
| SortSettings.RunKeepsReload | app/src/main/java/org/tasks/dialogs/SortSettingsViewModel.kt:49-79 | Setting the ascending flags, or choosing `GROUP_NONE`, never changes `forceReload`. |
| SortSettings.SortModeReloads | app/src/main/java/org/tasks/dialogs/SortSettingsViewModel.kt:81-99 | After a sort mode is chosen, `forceReload` holds iff the dialog opened with manual or Astrid sort on. |
| SortSettings.NoReloadAtStart | app/src/main/java/org/tasks/dialogs/SortSettingsViewModel.kt:127-129 | The opening state needs no reload. |

`forceReload` does change when `setSortMode`, or `setGroupMode` with a real group, turns manual or Astrid sort off (SortSettingsViewModel.kt:60-63, 82-83). `SortModeReloads` states this for the sort mode; `RunKeepsReload` covers only the setters that leave those two flags alone.

## Left out

- `migrateLocalTasks` (TaskMover.kt:81-84): it depends on Android resources to find the local list. It is only a call of the batch move.
- Dependency injection, coroutines, `SavedStateHandle`, the choice between widget and app preferences, and `MutableStateFlow` semantics. One preferences object and plain fields stand for them.
- Refresh and sync are counters. `vtodoCache.move` is a recorded call. `updateParents` is a recorded roll-up. The top/bottom ordering of `insertAndShift` and `insert(task, row, top)` is a recorded placement. The model records these calls but does not perform them.
- `DateUtilities.now()` is a parameter. The model uses one `now` for a whole batch; the source reads the clock on each `markDeleted`.
- `dbchunk()` is the identity: the concatenated chunks give the same queries and writes.
- The DAOs are not part of this model. The model takes their queries to behave as follows:
  - `markDeleted` stamps every row of the given tasks;
  - `getTasks` returns their live rows in table order;
  - `getChildren` returns all descendants, each once, parents first (breadth-first);
  - `fetch` returns the tasks in table order;
  - `getCalendars`/`getLists` return each calendar of a live row of that backend kind once (a `DISTINCT` query). `GetSingleFilter` removes repeats from `ListsOf` to match. Were the queries to keep repeats, two tasks in one calendar would give a list of size 2 and `getSingleFilter` would return null;
  - `getCalendars`, `getLists`, `getByTaskId` and `getTask` tell Google-Tasks rows from CalDAV rows by the account type of the row's calendar. The model reads a `kind` field stored on each row instead. Nothing ties that field to the calendar and account registries;
  - `googleTaskListDao.getByRemoteId` and `caldavDao.getCalendar` are replaced by the list id itself, so a list record that is missing is not modelled.
- The `HashMap` of `moveLocalTask` is iterated in insertion order. Its real order is unspecified; the set of rows inserted is the same.
- `CaldavTask(task, list)` is not part of this model. Its fresh remote ids are the tokens `Generated(n)` from a counter rather than UUID strings; only their distinctness is used. Its `object` field is left empty.
- The `!!` crashes in `moveCaldavTask` (a row with no calendar, or an unknown calendar) are not modelled. The `from` calendar is the row's calendar id.
- The release-build behaviour of `require(!BuildConfig.DEBUG)` is modelled. For a destination that is neither a Google-Tasks list nor a CalDAV calendar, the tombstones stay and nothing is inserted. The debug-build exception is not modelled.
- SortHelper is not part of this model. Its constants take the values `GROUP_NONE = -1`, `SORT_MODIFIED = 4` and `SORT_CREATED = 5`; only their distinctness matters.
- RelocationProps.CaldavToCaldav: requires each descendant has exactly one live row, which the source expects but does not check.
- RelocationProps.GoogleToGoogle: requires that the task is not its own descendant (no parent cycle) and a non-zero timestamp.
- RelocationProps.GoogleToCaldav: requires that the task is not its own descendant (no parent cycle) and a non-zero timestamp.
- RelocationProps.CaldavToCaldav: requires that the task is not its own descendant (no parent cycle) and a non-zero timestamp.
- RelocationProps.CaldavToGoogle: requires that the task is not its own descendant (no parent cycle) and a non-zero timestamp.
- RelocationProps.LocalToGoogle: requires that the task is not its own descendant (no parent cycle). It also requires that no task of the subtree has a live row; `performMove` checks this only for the root.
- RelocationProps.LocalToCaldav: requires that the task is not its own descendant (no parent cycle). It also requires that no task of the subtree has a live row; `performMove` checks this only for the root.
- RelocationProps.LocalRemoteIdsDistinct: requires that the task is not its own descendant (no parent cycle). It also requires that no task of the subtree has a live row; `performMove` checks this only for the root.
- RelocationProps.LocalToCaldavLinks: requires that the task is not its own descendant (no parent cycle). It also requires that no task of the subtree has a live row; `performMove` checks this only for the root.
- RelocationProps.BatchPlaces: requires a CalDAV or Google-Tasks destination, a non-zero timestamp, and of each processed task what its strategy expects: for a CalDAV-bound task moving to another calendar (one it is not already in), one live row per descendant; for an unbound task, no live row in its subtree. `performMove` checks neither. Nothing is asked of a task already in the destination, which `performMove` leaves alone.
- RelocationProps.PerformPlaces: requires the same of its one task, and that the task is in the table and is not its own descendant.
