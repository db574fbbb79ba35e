# ToDo API task lifecycle, in Dafny

A model of the core of a small FastAPI service that files todo items into the
four quadrants of an Eisenhower matrix. The service holds its tasks in one
module-global list, `tasks_db`. The `tasks` router creates, updates, completes,
deletes, filters, searches and counts those tasks. The `stats` router counts
them a second time, with list comprehensions.

Modules:

- `TaskModel` (task_model.dfy) holds the shared pieces. It defines the task
  record, the 400/404 errors as a `Result` value, and Python's substring test
  `q in s` (`Occurs`). It also defines `Select`, the order-preserving filter
  that every list comprehension and every collecting loop over `tasks_db`
  computes. Lemmas about `Select` show that it commutes with concatenation,
  so it keeps the store's order. They also show that completed and pending
  tasks partition the store, and that the four quadrant filters do so
  whenever every stored quadrant is one of `Q1`..`Q4`.
- `Stats` (stats.dfy) models `routers/stats.py`. `Summarize` is the
  comprehension-based `get_tasks_stats`.
- `Tasks` (tasks.dfy) models `routers/tasks.py`:
  - the quadrant classifier `Classify`;
  - the lookup `next(...)` by id (`FirstWithId`);
  - the id generator (`MaxId`);
  - the partial-update merge (`Supplied`, `AssignAll`, `Updated`);
  - the store invariant `WellFormed`: positive, distinct ids, and quadrants
    that agree with the flags;
  - the class `TaskStore`, whose field `tasks` is `tasks_db`. Its methods
    are the handlers. The four mutating handlers are `modifies this`
    methods. Each one states the whole new store and keeps `WellFormed`.
    The read-only handlers have no `modifies` clause, so they cannot change
    the store. The loops of the `tasks` router (stats, search, status,
    get-by-id, and the field-assignment loop of update) are `while` loops
    proved against `Select`, `LastWithId`, `AssignAll` and `Tally`.

The clock (`datetime.now()`) is a `now: Time` parameter. `Time` is an opaque
type. Errors are `Err(BadRequest)` (400) or `Err(NotFound)` (404), not
raised exceptions.

Where the intended design of the service and the code differ, the model
follows the code:

- Search is case-sensitive. It uses plain `in` (routers/tasks.py:99).
- An id can be handed out again. If the task with the highest id is deleted,
  `max + 1` returns that id to the next create (routers/tasks.py:147). The
  model proves only that a new id exceeds every live id.
- `completed_at` is not tied to `completed`. An update may set `completed`
  and leave `completed_at` as it was. `complete_task` refreshes
  `completed_at` on every call.
- `get_task_by_id` refuses every id outside 0..4 with 404. Otherwise it
  returns the LAST task with that id, or an empty record (`None` here).
  `LastIsFirstWhenUnique` shows that, in a store with distinct ids, this is
  the record the other handlers find.

## Model

| member | source | states |
|---|---|---|
| `TaskModel.Occurs` | routers/tasks.py:99 | Python's `q in s`: true exactly when `q` occurs at some position of `s`, compared character by character (so case-sensitive) |
| `TaskModel.Select` | routers/tasks.py:28-32 | the filtered list holds exactly the stored tasks that meet the condition and is no longer than the store |
| `TaskModel.SelectAppend` | routers/tasks.py:28-32 | filtering a concatenation is the concatenation of the filtered parts, so results stay in store order |
| `TaskModel.StatusPartition` | routers/stats.py:24-25 | completed and pending tasks together are the store as a multiset, so their counts add up to its length |
| `TaskModel.QuadrantPartition` | routers/stats.py:16-21 | when every quadrant is one of Q1..Q4, the four quadrant counts add up to the length of the store |
| `Stats.Summarize` | routers/stats.py:11-36 | `total_tasks` is the length of the store, and `completed + pending == total_tasks` |
| `Stats.QuadrantCountsCoverTotal` | routers/stats.py:16-21 | if every stored quadrant is a valid label, `Q1 + Q2 + Q3 + Q4 == total_tasks` |
| `Stats.QuadrantCountIsMultiplicity` | routers/stats.py:17-20 | each `by_quadrant[Qk]` is the number of store positions whose quadrant is `Qk` |
| `Tasks.Classify` | routers/tasks.py:138-145 | total map from the two flags into {Q1..Q4}; the label reads back both flags (Q1/Q2 important, Q1/Q3 urgent), so the map is one-to-one |
| `Tasks.ClassifyOnto` | routers/tasks.py:189-196 | every label in {Q1..Q4} is the classification of the flags it encodes, so the table is a bijection |
| `Tasks.WellFormedQuadrantsCoverTotal` | routers/tasks.py:138-160 | in a store that create and update keep consistent, the quadrant counts of the stats add up to the total |
| `Tasks.TallyIsSummarize` | routers/tasks.py:56-88 | counting task by task as the loop does (a status counter and at most one quadrant counter per task) gives, on every store, exactly the comprehension counts of the `stats` router |
| `Tasks.FirstWithId` | routers/tasks.py:169-175 | the lookup yields the first position holding that id, or nothing when no task has it |
| `Tasks.LastWithId` | routers/tasks.py:46-49 | the get-by-id loop yields the task at a position holding that id with no later position holding it (the last match, since the loop overwrites on every match), or nothing exactly when no task has the id |
| `Tasks.LastIsFirstWhenUnique` | routers/tasks.py:46-49 | with distinct ids, the last match of get-by-id is the first match of the other handlers |
| `Tasks.MaxId` | routers/tasks.py:147 | `max(ids, default=0)`: at least every stored id, 0 for an empty store, otherwise attained by a stored task |
| `Tasks.AppendKeepsWellFormed` | routers/tasks.py:147-160 | appending a classified task with id `max + 1` keeps ids positive and distinct and quadrants consistent |
| `Tasks.Supplied` | routers/tasks.py:182 | the dumped update contains an `is_important` (`is_urgent`) item exactly when that flag was supplied |
| `Tasks.AssignAllAppend` | routers/tasks.py:184-185 | writing two batches of fields in turn is writing their concatenation |
| `Tasks.SuppliedFieldsMerge` | routers/tasks.py:182-185 | the assignment loop over the dumped update overwrites exactly the supplied fields and keeps every other one |
| `Tasks.Updated` | routers/tasks.py:180-196 | only supplied fields change; the quadrant is recomputed from the merged flags if a flag was supplied and kept otherwise (a title-only update keeps it); a consistent quadrant stays consistent |
| `Tasks.ReplaceKeepsWellFormed` | routers/tasks.py:184-196 | writing back a consistent record under the same id keeps the store well formed |
| `Tasks.RemoveKeepsWellFormed` | routers/tasks.py:224 | removing a record keeps the store well formed and its id is then no longer found |
| `Tasks.TaskStore.constructor` | routers/tasks.py:5 | the store starts as the seeded `tasks_db` |
| `Tasks.TaskStore.AllTasks` | routers/tasks.py:15-19 | the whole store, in order, with `count` equal to its length |
| `Tasks.TaskStore.TasksByQuadrant` | routers/tasks.py:22-37 | 400 exactly for a label outside {Q1..Q4}; otherwise exactly the tasks with that quadrant, in store order, with `count` their number |
| `Tasks.TaskStore.TaskById` | routers/tasks.py:40-52 | 404 for ids outside 0..4; otherwise the last task with that id, or the empty record |
| `Tasks.TaskStore.TasksStats` | routers/tasks.py:55-88 | the counting loop returns the same counts as the comprehensions of the `stats` router; the store is only read |
| `Tasks.TaskStore.SearchTasks` | routers/tasks.py:91-110 | 400 for a query under 2 characters, 404 for no match; otherwise, in store order, exactly the tasks whose title or description (missing read as "") contains the query |
| `Tasks.TaskStore.TasksByStatus` | routers/tasks.py:113-130 | 404 for anything but "completed"/"pending"; otherwise exactly the tasks with that completion flag, in store order |
| `Tasks.TaskStore.Create` | routers/tasks.py:136-164 | appends one record with id `max + 1` (above every live id), the input's fields, the classified quadrant, `completed = false`, created now; earlier records unchanged; the invariant is kept |
| `Tasks.TaskStore.Update` | routers/tasks.py:167-198 | 404 with the store unchanged for an unknown id; otherwise only the first task with that id becomes `Updated(old, patch)`; the invariant is kept |
| `Tasks.TaskStore.Complete` | routers/tasks.py:201-212 | 404 with the store unchanged for an unknown id; otherwise only that task changes: `completed = true`, `completed_at = now`, on every call |
| `Tasks.TaskStore.Delete` | routers/tasks.py:215-226 | 404 with the store unchanged for an unknown id; otherwise that task is removed, the rest keep their order, and in a valid store its id is no longer found |

## Left out

- HTTP routing and framework plumbing are not modelled. This covers the decorators, the path prefixes, `response_model` and the status-code constants. The source would not import as written: the decorators are spelt `rouer`, and `status` and `Response` are never imported.
- The JSON shapes of the responses are records here. `by_quadrant` and `by_status` are fields of `Stats.Stats`, not dictionaries.
- The validation of `TaskCreate` and `TaskUpdate` (422, non-empty title) is not modelled. Those schemas are not part of this model. `NewTask` holds an already validated create request.
- The fields of `TaskUpdate` are assumed to be title, description, the two flags and `completed`, because its schema is not part of this model. A partial update is a record of `Option` fields.
- `Tasks.Patch`: an explicit `null` is modelled only for `description` (`Some(None)`). The `TaskUpdate` schema is assumed to reject `null` for `title`, `is_important`, `is_urgent` and `completed`, so a stored task always holds a string title and boolean flags. `model_dump(exclude_unset=True)` (routers/tasks.py:182) would keep such a `null` and the loop at routers/tasks.py:184-185 would store it. A `null` flag would then classify as false (routers/tasks.py:189-196). A `null` `completed` would match neither status filter (routers/tasks.py:124) while both stats versions count it as pending (routers/tasks.py:64-67, routers/stats.py:25), so `StatusPartition` would not describe the status endpoint on such a store.
- The clock is not modelled. `datetime.now()` is a `now` parameter of an opaque type.
- The seed data of `database.tasks_db` is not part of this model. The store's constructor takes any seed. `WellFormed` holds afterwards only if the seed satisfies it.
- Aliasing is not modelled. Update and complete change the stored dict in place, and the handler returns that same dict. The model writes the changed record back into the sequence and returns a copy. No other reference to it survives a handler call.
- `tasks_db.remove(task)` removes the first element equal to the found dict. No earlier element can be equal, since it would carry the same id and have been found first. So it is modelled as removal at the found position.
- `Tasks.TaskStore.TaskById`: the `{"task": ...}` wrapper and how `response_model` would treat it are not modelled. The result is the task, or `None` for the empty record.
- Concurrency is not modelled. `tasks_db` is shared without locking, and the model is one sequential store.
- `main.py` is not modelled: the app bootstrap, the welcome endpoint and the echoing stub `POST /tasks`.
