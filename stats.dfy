/** The `/stats` router: aggregate counts over the store, each one the length
    of a list comprehension over it. */
module Stats {
  import opened TaskModel

  /** The response `{total_tasks, by_quadrant: {Q1..Q4}, by_status: {completed, pending}}`. */
  datatype Stats = Stats(
    total: nat,
    q1: nat, q2: nat, q3: nat, q4: nat,
    completed: nat, pending: nat)

  /** `get_tasks_stats`: reads the store (a value here, so it cannot change it)
      and counts it. */
  function Summarize(db: seq<Task>): (s: Stats)
    ensures s.total == |db|
    ensures s.completed + s.pending == s.total
  {
    StatusPartition(db);
    Stats(
      |db|,
      |Select(db, QuadrantIs("Q1"))|,
      |Select(db, QuadrantIs("Q2"))|,
      |Select(db, QuadrantIs("Q3"))|,
      |Select(db, QuadrantIs("Q4"))|,
      |Select(db, StatusIs(true))|,
      |Select(db, StatusIs(false))|)
  }

  /** How one more task at the end of the store moves each count. */
  lemma SummarizeSnoc(db: seq<Task>, t: Task)
    ensures var s, s' := Summarize(db), Summarize(db + [t]);
      && s'.total == s.total + 1
      && s'.completed == s.completed + (if t.completed then 1 else 0)
      && s'.pending == s.pending + (if t.completed then 0 else 1)
      && s'.q1 == s.q1 + (if t.quadrant == "Q1" then 1 else 0)
      && s'.q2 == s.q2 + (if t.quadrant == "Q2" then 1 else 0)
      && s'.q3 == s.q3 + (if t.quadrant == "Q3" then 1 else 0)
      && s'.q4 == s.q4 + (if t.quadrant == "Q4" then 1 else 0)
  {
    SelectSnoc(db, t, StatusIs(true));
    SelectSnoc(db, t, StatusIs(false));
    SelectSnoc(db, t, QuadrantIs("Q1"));
    SelectSnoc(db, t, QuadrantIs("Q2"));
    SelectSnoc(db, t, QuadrantIs("Q3"));
    SelectSnoc(db, t, QuadrantIs("Q4"));
  }

  /** The quadrant counts add up to the total whenever every stored quadrant is
      one of the four labels (which the `tasks` router maintains). */
  lemma QuadrantCountsCoverTotal(db: seq<Task>)
    requires forall t :: t in db ==> t.quadrant in Labels
    ensures var s := Summarize(db); s.q1 + s.q2 + s.q3 + s.q4 == s.total
  {
    QuadrantPartition(db);
  }

  /** The positions of the store that hold a task with quadrant `q`. */
  ghost function Positions(db: seq<Task>, q: string): set<int>
  {
    set i | 0 <= i < |db| && db[i].quadrant == q
  }

  lemma PositionsSnoc(init: seq<Task>, last: Task, q: string)
    ensures |Positions(init + [last], q)| == |Positions(init, q)| + (if last.quadrant == q then 1 else 0)
  {
    var db := init + [last];
    var n := |init|;
    var extra: set<int> := if last.quadrant == q then {n} else {};
    assert forall i :: 0 <= i < n ==> db[i] == init[i];
    assert Positions(db, q) == Positions(init, q) + extra;
    assert n !in Positions(init, q);
  }

  /** Each quadrant count is the number of store positions whose quadrant is `q`. */
  lemma {:induction false} QuadrantCountIsMultiplicity(db: seq<Task>, q: string)
    ensures |Select(db, QuadrantIs(q))| == |Positions(db, q)|
  {
    if db != [] {
      var init, last := db[..|db| - 1], db[|db| - 1];
      assert db == init + [last];
      SelectSnoc(init, last, QuadrantIs(q));
      QuadrantCountIsMultiplicity(init, q);
      PositionsSnoc(init, last, q);
    }
  }
}
