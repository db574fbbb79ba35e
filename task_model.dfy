/** The task record shared by the `tasks` and `stats` routers, the error codes
    the handlers raise, and the order-preserving filter that every list
    comprehension and collecting loop over the store amounts to. */
module TaskModel {

  datatype Option<+T> = None | Some(value: T)

  /** `x or default` for a value that may be missing. */
  function OrElse<T>(o: Option<T>, default: T): T
  {
    match o
    case Some(v) => v
    case None => default
  }

  /** A point in time. Timestamps come from the clock and are only stored,
      never computed with, so they stay opaque and are passed in. */
  type Time(==, !new)

  /** One entry of the store (one dict of `tasks_db`). */
  datatype Task = Task(
    id: int,
    title: string,
    description: Option<string>,
    important: bool,
    urgent: bool,
    quadrant: string,
    completed: bool,
    completedAt: Option<Time>,
    createdAt: Time)

  /** The two HTTP errors the handlers raise. */
  datatype Error = BadRequest | NotFound
  {
    function Code(): (c: int)
      ensures 400 <= c < 500
      ensures (c == 404) <==> NotFound?
    {
      match this
      case BadRequest => 400
      case NotFound => 404
    }
  }

  datatype Result<+T> = Ok(value: T) | Err(error: Error)

  /** The response of a list endpoint: `{count, tasks}`, or with the echoed
      quadrant, status or query in front. */
  datatype Listing =
    | All(count: nat, tasks: seq<Task>)
    | Labelled(key: string, count: nat, tasks: seq<Task>)

  /** The four quadrant labels the handlers accept. */
  const Labels: seq<string> := ["Q1", "Q2", "Q3", "Q4"]

  /** `q` occurs in `s` starting at position `k`. */
  ghost predicate OccursAt(q: string, s: string, k: int)
  {
    0 <= k && k + |q| <= |s| && s[k..k + |q|] == q
  }

  lemma ShiftOccurrence(q: string, s: string, k: int)
    requires |s| > 0 && k >= 1
    ensures OccursAt(q, s, k) <==> OccursAt(q, s[1..], k - 1)
  {
  }

  /** Python's `q in s` on strings: case-sensitive substring test. */
  function Occurs(q: string, s: string): (r: bool)
    ensures r <==> exists k :: OccursAt(q, s, k)
    decreases |s|
  {
    if |q| > |s| then
      false
    else if s[..|q|] == q then
      assert OccursAt(q, s, 0);
      true
    else
      var r := Occurs(q, s[1..]);
      assert r ==> exists k :: OccursAt(q, s, k) by {
        if r {
          var k :| OccursAt(q, s[1..], k);
          ShiftOccurrence(q, s, k + 1);
        }
      }
      assert (exists k :: OccursAt(q, s, k)) ==> r by {
        if exists k :: OccursAt(q, s, k) {
          var k :| OccursAt(q, s, k);
          assert k != 0;
          ShiftOccurrence(q, s, k);
        }
      }
      r
  }

  /** The conditions the handlers filter the store by. */
  datatype Criterion =
    | QuadrantIs(quadrant: string)
    | StatusIs(done: bool)
    | Mentions(query: string)

  predicate Holds(c: Criterion, t: Task)
  {
    match c
    case QuadrantIs(q) => t.quadrant == q
    case StatusIs(b) => t.completed == b
    case Mentions(q) => Occurs(q, t.title) || Occurs(q, OrElse(t.description, ""))
  }

  /** `[t for t in db if c(t)]`: the tasks meeting `c`, in store order. */
  function Select(db: seq<Task>, c: Criterion): (r: seq<Task>)
    ensures |r| <= |db|
    ensures forall t :: t in r <==> t in db && Holds(c, t)
  {
    if db == [] then
      []
    else
      var last := db[|db| - 1];
      var rest := Select(db[..|db| - 1], c);
      assert db == db[..|db| - 1] + [last];
      if Holds(c, last) then rest + [last] else rest
  }

  /** One more task at the end of the store adds at most that task, at the end. */
  lemma SelectSnoc(db: seq<Task>, t: Task, c: Criterion)
    ensures Select(db + [t], c) == Select(db, c) + (if Holds(c, t) then [t] else [])
  {
  }

  /** Filtering commutes with concatenation, so it keeps the store's order. */
  lemma {:induction false} SelectAppend(a: seq<Task>, b: seq<Task>, c: Criterion)
    ensures Select(a + b, c) == Select(a, c) + Select(b, c)
    decreases |b|
  {
    if b == [] {
      assert a + b == a;
    } else {
      var init, last := b[..|b| - 1], b[|b| - 1];
      var tail := if Holds(c, last) then [last] else [];
      assert b == init + [last];
      assert a + b == (a + init) + [last];
      calc {
        Select(a + b, c);
        { SelectSnoc(a + init, last, c); }
        Select(a + init, c) + tail;
        { SelectAppend(a, init, c); }
        Select(a, c) + Select(init, c) + tail;
        { SelectSnoc(init, last, c); }
        Select(a, c) + Select(b, c);
      }
    }
  }

  /** Completed and pending tasks split the store: every task lands in exactly one. */
  lemma {:induction false} StatusPartition(db: seq<Task>)
    ensures multiset(Select(db, StatusIs(true))) + multiset(Select(db, StatusIs(false))) == multiset(db)
    ensures |Select(db, StatusIs(true))| + |Select(db, StatusIs(false))| == |db|
  {
    if db != [] {
      var init, last := db[..|db| - 1], db[|db| - 1];
      assert db == init + [last];
      StatusPartition(init);
      SelectSnoc(init, last, StatusIs(true));
      SelectSnoc(init, last, StatusIs(false));
    }
    assert |multiset(Select(db, StatusIs(true)))| == |Select(db, StatusIs(true))|;
    assert |multiset(Select(db, StatusIs(false)))| == |Select(db, StatusIs(false))|;
  }

  /** When every quadrant is a valid label, the four quadrant filters split the store. */
  lemma {:induction false} QuadrantPartition(db: seq<Task>)
    requires forall t :: t in db ==> t.quadrant in Labels
    ensures |Select(db, QuadrantIs("Q1"))| + |Select(db, QuadrantIs("Q2"))|
          + |Select(db, QuadrantIs("Q3"))| + |Select(db, QuadrantIs("Q4"))| == |db|
  {
    if db != [] {
      var init, last := db[..|db| - 1], db[|db| - 1];
      assert db == init + [last];
      QuadrantPartition(init);
      SelectSnoc(init, last, QuadrantIs("Q1"));
      SelectSnoc(init, last, QuadrantIs("Q2"));
      SelectSnoc(init, last, QuadrantIs("Q3"));
      SelectSnoc(init, last, QuadrantIs("Q4"));
    }
  }
}
