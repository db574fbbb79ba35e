/** The `/tasks` router: the Eisenhower-matrix quadrant classifier, the store
    of tasks (`tasks_db`) and the handlers that change or query it. */
module Tasks {
  import opened TaskModel
  import Stats

  // ---------------------------------------------------------------------------
  // Quadrant classifier
  // ---------------------------------------------------------------------------

  /** The two flags a quadrant label stands for, read off the matrix. */
  predicate IsImportant(q: string) { q == "Q1" || q == "Q2" }
  predicate IsUrgent(q: string) { q == "Q1" || q == "Q3" }

  /** The if-chain that both `create_task` and `update_task` run: total, and
      the label it picks encodes both flags, so it is one-to-one. */
  function Classify(important: bool, urgent: bool): (q: string)
    ensures q in Labels
    ensures IsImportant(q) == important && IsUrgent(q) == urgent
  {
    if important && urgent then "Q1"
    else if important && !urgent then "Q2"
    else if !important && urgent then "Q3"
    else "Q4"
  }

  /** Every label is the classification of the flags it encodes. */
  lemma ClassifyOnto(q: string)
    requires q in Labels
    ensures Classify(IsImportant(q), IsUrgent(q)) == q
  {
  }

  // ---------------------------------------------------------------------------
  // Store invariant
  // ---------------------------------------------------------------------------

  /** The stored quadrant agrees with the stored flags. */
  ghost predicate Classified(t: Task)
  {
    t.quadrant == Classify(t.important, t.urgent)
  }

  ghost predicate UniqueIds(db: seq<Task>)
  {
    forall i, j :: 0 <= i < j < |db| ==> db[i].id != db[j].id
  }

  /** What the handlers keep true of a store that starts out empty or valid:
      positive, distinct ids and quadrants consistent with the flags. */
  ghost predicate WellFormed(db: seq<Task>)
  {
    UniqueIds(db) && forall t :: t in db ==> t.id > 0 && Classified(t)
  }

  /** In a well-formed store the quadrant counts of the stats add up to the total. */
  lemma WellFormedQuadrantsCoverTotal(db: seq<Task>)
    requires WellFormed(db)
    ensures var s := Stats.Summarize(db); s.q1 + s.q2 + s.q3 + s.q4 == s.total
  {
    Stats.QuadrantCountsCoverTotal(db);
  }

  /** What the counting loop of `get_tasks_stats` has tallied after the tasks
      of `db`: one step per task, a status counter and at most one quadrant
      counter moved. */
  function Tally(db: seq<Task>): Stats.Stats
    decreases |db|
  {
    if db == [] then
      Stats.Stats(0, 0, 0, 0, 0, 0, 0)
    else
      var s := Tally(db[..|db| - 1]);
      var t := db[|db| - 1];
      Stats.Stats(
        s.total + 1,
        s.q1 + (if t.quadrant == "Q1" then 1 else 0),
        s.q2 + (if t.quadrant == "Q2" then 1 else 0),
        s.q3 + (if t.quadrant == "Q3" then 1 else 0),
        s.q4 + (if t.quadrant == "Q4" then 1 else 0),
        s.completed + (if t.completed then 1 else 0),
        s.pending + (if t.completed then 0 else 1))
  }

  lemma TallySnoc(db: seq<Task>, t: Task)
    ensures var s := Tally(db); Tally(db + [t]) == Stats.Stats(
      s.total + 1,
      s.q1 + (if t.quadrant == "Q1" then 1 else 0),
      s.q2 + (if t.quadrant == "Q2" then 1 else 0),
      s.q3 + (if t.quadrant == "Q3" then 1 else 0),
      s.q4 + (if t.quadrant == "Q4" then 1 else 0),
      s.completed + (if t.completed then 1 else 0),
      s.pending + (if t.completed then 0 else 1))
  {
    assert (db + [t])[..|db|] == db;
  }

  /** The counting loop and the comprehensions of the `stats` router agree on
      every store. */
  lemma {:induction false} TallyIsSummarize(db: seq<Task>)
    ensures Tally(db) == Stats.Summarize(db)
    decreases |db|
  {
    if db != [] {
      var init, last := db[..|db| - 1], db[|db| - 1];
      assert db == init + [last];
      TallyIsSummarize(init);
      Stats.SummarizeSnoc(init, last);
    }
  }

  // ---------------------------------------------------------------------------
  // Lookup by id
  // ---------------------------------------------------------------------------

  /** `next((task for task in tasks_db if task["id"] == task_id), None)`:
      the position of the first task with that id. */
  function FirstWithId(db: seq<Task>, id: int): (r: Option<nat>)
    ensures r.Some? ==> r.value < |db| && db[r.value].id == id
    ensures r.Some? ==> forall j :: 0 <= j < r.value ==> db[j].id != id
    ensures r.None? ==> forall j :: 0 <= j < |db| ==> db[j].id != id
  {
    if db == [] then None
    else if db[0].id == id then Some(0)
    else
      match FirstWithId(db[1..], id)
      case None => None
      case Some(k) => Some(k + 1)
  }

  /** The loop of `get_task_by_id`, which overwrites its result on every
      match: the last task with that id, or nothing. */
  function LastWithId(db: seq<Task>, id: int): (r: Option<Task>)
    ensures r.Some? ==> r.value in db && r.value.id == id
    ensures r.Some? ==> exists i :: 0 <= i < |db| && db[i] == r.value
                                 && (forall j :: i < j < |db| ==> db[j].id != id)
    ensures r.None? ==> forall t :: t in db ==> t.id != id
  {
    if db == [] then None
    else if db[|db| - 1].id == id then Some(db[|db| - 1])
    else
      var init := db[..|db| - 1];
      assert db == init + [db[|db| - 1]];
      var r := LastWithId(init, id);
      assert r.Some? ==> exists i :: 0 <= i < |db| && db[i] == r.value
                                   && (forall j :: i < j < |db| ==> db[j].id != id)
      by {
        if r.Some? {
          var i :| 0 <= i < |init| && init[i] == r.value
                   && (forall j :: i < j < |init| ==> init[j].id != id);
          assert db[i] == init[i];
          assert forall j :: i < j < |db| - 1 ==> db[j] == init[j];
        }
      }
      r
  }

  /** With distinct ids, the last match and the first match are the same record. */
  lemma LastIsFirstWhenUnique(db: seq<Task>, id: int)
    requires UniqueIds(db)
    ensures FirstWithId(db, id).None? ==> LastWithId(db, id) == None
    ensures FirstWithId(db, id).Some? ==> LastWithId(db, id) == Some(db[FirstWithId(db, id).value])
  {
  }

  // ---------------------------------------------------------------------------
  // Creation
  // ---------------------------------------------------------------------------

  /** The validated body of a create request. */
  datatype NewTask = NewTask(
    title: string,
    description: Option<string>,
    important: bool,
    urgent: bool)

  /** `max([t["id"] for t in tasks_db], default=0)`. */
  function MaxId(db: seq<Task>): (m: int)
    ensures forall t :: t in db ==> t.id <= m
    ensures db == [] ==> m == 0
    ensures db != [] ==> exists t :: t in db && t.id == m
  {
    if db == [] then 0
    else if |db| == 1 then db[0].id
    else
      assert db == [db[0]] + db[1..];
      var rest := MaxId(db[1..]);
      if db[0].id >= rest then db[0].id else rest
  }

  /** Appending a task whose id is one past the maximum keeps the store well formed. */
  lemma AppendKeepsWellFormed(db: seq<Task>, t: Task)
    requires WellFormed(db) && Classified(t) && t.id == MaxId(db) + 1
    ensures WellFormed(db + [t])
  {
  }

  // ---------------------------------------------------------------------------
  // Partial update
  // ---------------------------------------------------------------------------

  /** A partial update: a field is `Some` exactly when the request supplied it
      (a supplied `null` description is `Some(None)`). */
  datatype Patch = Patch(
    title: Option<string>,
    description: Option<Option<string>>,
    important: Option<bool>,
    urgent: Option<bool>,
    completed: Option<bool>)

  /** One `(field, value)` item of the dumped update. */
  datatype Field =
    | SetTitle(title: string)
    | SetDescription(description: Option<string>)
    | SetImportant(important: bool)
    | SetUrgent(urgent: bool)
    | SetCompleted(completed: bool)

  /** The dumped update holds `f` exactly when its field was supplied. */
  function Item(supplied: bool, f: Field): seq<Field>
  {
    if supplied then [f] else []
  }

  /** `task_update.model_dump(exclude_unset=True)`: the supplied fields, in schema order. */
  function Supplied(p: Patch): (fs: seq<Field>)
    ensures |fs| <= 5
    ensures (exists f :: f in fs && f.SetImportant?) <==> p.important.Some?
    ensures (exists f :: f in fs && f.SetUrgent?) <==> p.urgent.Some?
  {
    var a := Item(p.title.Some?, SetTitle(OrElse(p.title, "")));
    var b := Item(p.description.Some?, SetDescription(OrElse(p.description, None)));
    var c := Item(p.important.Some?, SetImportant(OrElse(p.important, false)));
    var d := Item(p.urgent.Some?, SetUrgent(OrElse(p.urgent, false)));
    var e := Item(p.completed.Some?, SetCompleted(OrElse(p.completed, false)));
    var fs := a + b + c + d + e;
    assert forall f :: f in fs <==> f in a || f in b || f in c || f in d || f in e;
    assert p.important.Some? ==> fs[|a| + |b|].SetImportant?;
    assert p.urgent.Some? ==> fs[|a| + |b| + |c|].SetUrgent?;
    fs
  }

  /** `task[field] = value`. */
  function Assign(t: Task, f: Field): Task
  {
    match f
    case SetTitle(s) => t.(title := s)
    case SetDescription(d) => t.(description := d)
    case SetImportant(b) => t.(important := b)
    case SetUrgent(b) => t.(urgent := b)
    case SetCompleted(b) => t.(completed := b)
  }

  /** The effect of the assignment loop over a list of fields. */
  function AssignAll(t: Task, fs: seq<Field>): Task
    decreases |fs|
  {
    if fs == [] then t else AssignAll(Assign(t, fs[0]), fs[1..])
  }

  lemma {:induction false} AssignAllAppend(t: Task, a: seq<Field>, b: seq<Field>)
    ensures AssignAll(t, a + b) == AssignAll(AssignAll(t, a), b)
    decreases |a|
  {
    if a == [] {
      assert a + b == b;
    } else {
      assert (a + b)[0] == a[0];
      assert (a + b)[1..] == a[1..] + b;
      AssignAllAppend(Assign(t, a[0]), a[1..], b);
    }
  }

  lemma AssignAllInTurn(t: Task, a: seq<Field>, b: seq<Field>, c: seq<Field>, d: seq<Field>, e: seq<Field>)
    ensures AssignAll(t, a + b + c + d + e)
         == AssignAll(AssignAll(AssignAll(AssignAll(AssignAll(t, a), b), c), d), e)
  {
    AssignAllAppend(t, a + b + c + d, e);
    AssignAllAppend(t, a + b + c, d);
    AssignAllAppend(t, a + b, c);
    AssignAllAppend(t, a, b);
  }

  // One supplied-or-not field at a time, each in a context of its own.

  lemma AssignTitle(t: Task, p: Patch)
    ensures AssignAll(t, Item(p.title.Some?, SetTitle(OrElse(p.title, ""))))
         == t.(title := OrElse(p.title, t.title))
  {
  }

  lemma AssignDescription(t: Task, p: Patch)
    ensures AssignAll(t, Item(p.description.Some?, SetDescription(OrElse(p.description, None))))
         == t.(description := OrElse(p.description, t.description))
  {
  }

  lemma AssignImportant(t: Task, p: Patch)
    ensures AssignAll(t, Item(p.important.Some?, SetImportant(OrElse(p.important, false))))
         == t.(important := OrElse(p.important, t.important))
  {
  }

  lemma AssignUrgent(t: Task, p: Patch)
    ensures AssignAll(t, Item(p.urgent.Some?, SetUrgent(OrElse(p.urgent, false))))
         == t.(urgent := OrElse(p.urgent, t.urgent))
  {
  }

  lemma AssignCompleted(t: Task, p: Patch)
    ensures AssignAll(t, Item(p.completed.Some?, SetCompleted(OrElse(p.completed, false))))
         == t.(completed := OrElse(p.completed, t.completed))
  {
  }

  /** Running the loop over the supplied fields overwrites exactly those fields. */
  lemma SuppliedFieldsMerge(t: Task, p: Patch)
    ensures AssignAll(t, Supplied(p)) == t.(
      title := OrElse(p.title, t.title),
      description := OrElse(p.description, t.description),
      important := OrElse(p.important, t.important),
      urgent := OrElse(p.urgent, t.urgent),
      completed := OrElse(p.completed, t.completed))
  {
    var a := Item(p.title.Some?, SetTitle(OrElse(p.title, "")));
    var b := Item(p.description.Some?, SetDescription(OrElse(p.description, None)));
    var c := Item(p.important.Some?, SetImportant(OrElse(p.important, false)));
    var d := Item(p.urgent.Some?, SetUrgent(OrElse(p.urgent, false)));
    var e := Item(p.completed.Some?, SetCompleted(OrElse(p.completed, false)));
    assert Supplied(p) == a + b + c + d + e;
    AssignAllInTurn(t, a, b, c, d, e);
    var ta := AssignAll(t, a);
    var tb := AssignAll(ta, b);
    var tc := AssignAll(tb, c);
    var td := AssignAll(tc, d);
    AssignTitle(t, p);
    AssignDescription(ta, p);
    AssignImportant(tb, p);
    AssignUrgent(tc, p);
    AssignCompleted(td, p);
  }

  /** `"is_important" in update_data or "is_urgent" in update_data`. */
  predicate FlagSupplied(p: Patch)
  {
    p.important.Some? || p.urgent.Some?
  }

  /** The record `update_task` leaves behind: the supplied fields written in a
      loop, then the quadrant re-derived when a flag was among them. */
  function Updated(t: Task, p: Patch): (r: Task)
    ensures r.id == t.id && r.createdAt == t.createdAt && r.completedAt == t.completedAt
    ensures r.title == OrElse(p.title, t.title)
    ensures r.description == OrElse(p.description, t.description)
    ensures r.important == OrElse(p.important, t.important)
    ensures r.urgent == OrElse(p.urgent, t.urgent)
    ensures r.completed == OrElse(p.completed, t.completed)
    ensures FlagSupplied(p) ==> Classified(r)
    ensures !FlagSupplied(p) ==> r.quadrant == t.quadrant
    ensures Classified(t) ==> Classified(r)
  {
    SuppliedFieldsMerge(t, p);
    var merged := AssignAll(t, Supplied(p));
    if FlagSupplied(p) then merged.(quadrant := Classify(merged.important, merged.urgent)) else merged
  }

  /** Writing back a record under the same id with a consistent quadrant keeps
      the store well formed. */
  lemma ReplaceKeepsWellFormed(db: seq<Task>, i: nat, t: Task)
    requires WellFormed(db) && i < |db| && t.id == db[i].id && Classified(t)
    ensures WellFormed(db[i := t])
  {
  }

  // ---------------------------------------------------------------------------
  // Deletion
  // ---------------------------------------------------------------------------

  /** Removing one record keeps the store well formed, and with distinct ids
      its id is then no longer found. */
  lemma RemoveKeepsWellFormed(db: seq<Task>, i: nat)
    requires WellFormed(db) && i < |db|
    ensures WellFormed(db[..i] + db[i + 1..])
    ensures FirstWithId(db[..i] + db[i + 1..], db[i].id).None?
  {
  }

  // ---------------------------------------------------------------------------
  // The store and its handlers
  // ---------------------------------------------------------------------------

  /** `tasks_db`: the ordered list of task records every handler reads or changes. */
  class TaskStore {
    var tasks: seq<Task>

    ghost predicate Valid()
      reads this
    {
      WellFormed(tasks)
    }

    /** The store as the `database` module seeds it. */
    constructor (seed: seq<Task>)
      ensures tasks == seed
    {
      tasks := seed;
    }

    /** `get_all_tasks`: the whole store and its length. */
    function AllTasks(): (r: Listing)
      reads this
      ensures r.All? && r.tasks == tasks && r.count == |r.tasks|
    {
      All(|tasks|, tasks)
    }

    /** `get_tasks_by_quadrant`: 400 for a label other than Q1..Q4, otherwise the
        tasks with that quadrant, in store order, and their number. */
    function TasksByQuadrant(q: string): (r: Result<Listing>)
      reads this
      ensures r.Err? <==> q !in Labels
      ensures r.Err? ==> r.error == BadRequest
      ensures r.Ok? ==> r.value.Labelled? && r.value.key == q && r.value.count == |r.value.tasks|
      ensures r.Ok? ==> r.value.tasks == Select(tasks, QuadrantIs(q))
      ensures r.Ok? ==> forall t :: t in r.value.tasks <==> t in tasks && t.quadrant == q
    {
      if q !in Labels then
        Err(BadRequest)
      else
        var filtered := Select(tasks, QuadrantIs(q));
        Ok(Labelled(q, |filtered|, filtered))
    }

    /** `get_task_by_id` as written: ids outside 0..4 are refused with 404;
        otherwise the last task with that id, or the empty record. */
    method TaskById(taskId: int) returns (r: Result<Option<Task>>)
      ensures (taskId > 4 || taskId < 0) ==> r == Err(NotFound)
      ensures 0 <= taskId <= 4 ==> r == Ok(LastWithId(tasks, taskId))
    {
      if taskId > 4 || taskId < 0 {
        return Err(NotFound);
      }
      var task: Option<Task> := None;
      var i := 0;
      while i < |tasks|
        invariant 0 <= i <= |tasks|
        invariant task == LastWithId(tasks[..i], taskId)
      {
        assert tasks[..i + 1][..i] == tasks[..i];
        if tasks[i].id == taskId {
          task := Some(tasks[i]);
        }
        i := i + 1;
      }
      assert tasks[..i] == tasks;
      r := Ok(task);
    }

    /** `get_tasks_stats` of the `tasks` router: one counting loop, which
        yields exactly the counts of the `stats` router. */
    method TasksStats() returns (s: Stats.Stats)
      ensures s == Stats.Summarize(tasks)
    {
      var total := |tasks|;
      var done: nat, open: nat := 0, 0;
      var q1: nat, q2: nat, q3: nat, q4: nat := 0, 0, 0, 0;
      var i := 0;
      while i < |tasks|
        invariant 0 <= i <= |tasks|
        invariant Stats.Stats(i, q1, q2, q3, q4, done, open) == Tally(tasks[..i])
      {
        var t := tasks[i];
        assert tasks[..i + 1] == tasks[..i] + [t];
        TallySnoc(tasks[..i], t);
        if t.completed {
          done := done + 1;
        } else {
          open := open + 1;
        }
        if t.quadrant == "Q1" {
          q1 := q1 + 1;
        } else if t.quadrant == "Q2" {
          q2 := q2 + 1;
        } else if t.quadrant == "Q3" {
          q3 := q3 + 1;
        } else if t.quadrant == "Q4" {
          q4 := q4 + 1;
        }
        i := i + 1;
      }
      assert tasks[..i] == tasks;
      TallyIsSummarize(tasks);
      s := Stats.Stats(total, q1, q2, q3, q4, done, open);
    }

    /** `search_tasks`: 400 for a query under two characters, 404 when nothing
        matches, otherwise the tasks whose title or description (a missing one
        read as "") contains the query, case-sensitively, in store order. */
    method SearchTasks(q: string) returns (r: Result<Listing>)
      ensures |q| < 2 ==> r == Err(BadRequest)
      ensures |q| >= 2 && Select(tasks, Mentions(q)) == [] ==> r == Err(NotFound)
      ensures |q| >= 2 && Select(tasks, Mentions(q)) != [] ==>
        r == Ok(Labelled(q, |Select(tasks, Mentions(q))|, Select(tasks, Mentions(q))))
      ensures r.Ok? ==> forall t :: t in r.value.tasks <==>
        t in tasks && (Occurs(q, t.title) || Occurs(q, OrElse(t.description, "")))
    {
      if |q| < 2 {
        return Err(BadRequest);
      }
      var found: seq<Task> := [];
      var i := 0;
      while i < |tasks|
        invariant 0 <= i <= |tasks|
        invariant found == Select(tasks[..i], Mentions(q))
      {
        var t := tasks[i];
        assert tasks[..i + 1] == tasks[..i] + [t];
        SelectSnoc(tasks[..i], t, Mentions(q));
        if Occurs(q, t.title) || Occurs(q, OrElse(t.description, "")) {
          found := found + [t];
        }
        i := i + 1;
      }
      assert tasks[..i] == tasks;
      if |found| == 0 {
        return Err(NotFound);
      }
      r := Ok(Labelled(q, |found|, found));
    }

    /** `get_tasks_by_status`: 404 for anything but "completed" or "pending",
        otherwise the tasks with that completion flag, in store order. */
    method TasksByStatus(status: string) returns (r: Result<Listing>)
      ensures status != "completed" && status != "pending" ==> r == Err(NotFound)
      ensures status == "completed" || status == "pending" ==>
        r == Ok(Labelled(status, |Select(tasks, StatusIs(status == "completed"))|,
                         Select(tasks, StatusIs(status == "completed"))))
      ensures r.Ok? ==> forall t :: t in r.value.tasks <==>
        t in tasks && t.completed == (status == "completed")
    {
      if status != "completed" && status != "pending" {
        return Err(NotFound);
      }
      var completed := false;
      if status == "completed" {
        completed := true;
      }
      var found: seq<Task> := [];
      var i := 0;
      while i < |tasks|
        invariant 0 <= i <= |tasks|
        invariant found == Select(tasks[..i], StatusIs(completed))
      {
        var t := tasks[i];
        assert tasks[..i + 1] == tasks[..i] + [t];
        SelectSnoc(tasks[..i], t, StatusIs(completed));
        if t.completed == completed {
          found := found + [t];
        }
        i := i + 1;
      }
      assert tasks[..i] == tasks;
      r := Ok(Labelled(status, |found|, found));
    }

    /** `create_task`: classify, take the next id, append with `completed = false`. */
    method Create(input: NewTask, now: Time) returns (t: Task)
      modifies this
      ensures tasks == old(tasks) + [t]
      ensures t.id == MaxId(old(tasks)) + 1
      ensures forall u :: u in old(tasks) ==> u.id < t.id
      ensures t.title == input.title && t.description == input.description
      ensures t.important == input.important && t.urgent == input.urgent
      ensures t.quadrant == Classify(input.important, input.urgent)
      ensures !t.completed && t.completedAt == None && t.createdAt == now
      ensures old(Valid()) ==> Valid()
    {
      var quadrant := Classify(input.important, input.urgent);
      var newId := MaxId(tasks) + 1;
      t := Task(newId, input.title, input.description, input.important, input.urgent,
                quadrant, false, None, now);
      ghost var before := tasks;
      tasks := tasks + [t];
      if WellFormed(before) {
        AppendKeepsWellFormed(before, t);
      }
    }

    /** `update_task`: 404 for an unknown id; otherwise the supplied fields are
        written one by one and the quadrant is re-derived when a flag was supplied. */
    method Update(taskId: int, p: Patch) returns (r: Result<Task>)
      modifies this
      ensures FirstWithId(old(tasks), taskId).None? ==> r == Err(NotFound) && tasks == old(tasks)
      ensures FirstWithId(old(tasks), taskId).Some? ==>
        var i := FirstWithId(old(tasks), taskId).value;
        r == Ok(Updated(old(tasks)[i], p)) && tasks == old(tasks)[i := r.value]
      ensures old(Valid()) ==> Valid()
    {
      var found := FirstWithId(tasks, taskId);
      if found.None? {
        return Err(NotFound);
      }
      var i := found.value;
      var updateData := Supplied(p);
      var task := tasks[i];
      var k := 0;
      while k < |updateData|
        invariant 0 <= k <= |updateData|
        invariant AssignAll(task, updateData[k..]) == AssignAll(tasks[i], updateData)
      {
        assert updateData[k..][1..] == updateData[k + 1..];
        task := Assign(task, updateData[k]);
        k := k + 1;
      }
      assert updateData[k..] == [];
      if FlagSupplied(p) {
        task := task.(quadrant := Classify(task.important, task.urgent));
      }
      assert task == Updated(tasks[i], p);
      ghost var before := tasks;
      tasks := tasks[i := task];
      r := Ok(task);
      if WellFormed(before) {
        ReplaceKeepsWellFormed(before, i, task);
      }
    }

    /** `complete_task`: 404 for an unknown id; otherwise `completed` is set and
        `completed_at` takes the given time, on every call. */
    method Complete(taskId: int, now: Time) returns (r: Result<Task>)
      modifies this
      ensures FirstWithId(old(tasks), taskId).None? ==> r == Err(NotFound) && tasks == old(tasks)
      ensures FirstWithId(old(tasks), taskId).Some? ==>
        var i := FirstWithId(old(tasks), taskId).value;
        r == Ok(old(tasks)[i].(completed := true, completedAt := Some(now)))
        && tasks == old(tasks)[i := r.value]
      ensures old(Valid()) ==> Valid()
    {
      var found := FirstWithId(tasks, taskId);
      if found.None? {
        return Err(NotFound);
      }
      var i := found.value;
      var task := tasks[i].(completed := true, completedAt := Some(now));
      ghost var before := tasks;
      tasks := tasks[i := task];
      r := Ok(task);
      if WellFormed(before) {
        ReplaceKeepsWellFormed(before, i, task);
      }
    }

    /** `delete_task`: 404 for an unknown id; otherwise that record is removed
        and the others keep their order. */
    method Delete(taskId: int) returns (r: Result<()>)
      modifies this
      ensures FirstWithId(old(tasks), taskId).None? ==> r == Err(NotFound) && tasks == old(tasks)
      ensures FirstWithId(old(tasks), taskId).Some? ==>
        var i := FirstWithId(old(tasks), taskId).value;
        r == Ok(()) && tasks == old(tasks)[..i] + old(tasks)[i + 1..]
      ensures old(Valid()) ==> Valid() && FirstWithId(tasks, taskId).None?
    {
      var found := FirstWithId(tasks, taskId);
      if found.None? {
        return Err(NotFound);
      }
      var i := found.value;
      ghost var before := tasks;
      tasks := tasks[..i] + tasks[i + 1..];
      r := Ok(());
      if WellFormed(before) {
        RemoveKeepsWellFormed(before, i);
      }
    }
  }
}
