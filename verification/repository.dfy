/**
  The task repository: the store as a sequence of rows, the SQL statements
  given their meaning over it, the analytics aggregation, the single-slot
  analytics cache and the import transaction.

  Every statement the driver runs takes an `Option<Error>` saying whether
  the database (or cache) reported a failure for it.
 */
module Repository {
  import opened Wrappers
  import opened Decimal
  import opened TimeLayout
  import opened Domain
  import opened TaskQuery

  datatype Error =
    | DbError(cause: string)      // failure reported by the database driver
    | NoRows                      // `pgx.ErrNoRows`: a single-row query matched nothing
    | CacheError(cause: string)   // failure reported by the cache, other than a miss

  /** The tasks table in storage order, and the next value of its id sequence. */
  datatype Db = Db(rows: seq<Task>, nextId: int)

  /** Ids are positive, below the sequence's next value, and unique. */
  predicate Valid(db: Db) {
    && db.nextId > 0
    && (forall i :: 0 <= i < |db.rows| ==> 0 < db.rows[i].id < db.nextId)
    && UniqueIds(db.rows)
  }

  predicate UniqueIds(rows: seq<Task>) {
    forall i, j :: 0 <= i < j < |rows| ==> rows[i].id != rows[j].id
  }

  /** The state after a statement, and what the repository method returns. */
  datatype Step<T> = Step(db: Db, result: Result<T, Error>)

  /** The five fields a client controls. */
  predicate SameContent(a: Task, b: Task) {
    a.title == b.title && a.description == b.description && a.status == b.status
    && a.priority == b.priority && a.dueDate == b.dueDate
  }

  /** The rows of `rows` satisfying `p`, in storage order. */
  function Keep(rows: seq<Task>, p: Task -> bool): (r: seq<Task>)
    ensures |r| <= |rows|
    ensures forall t :: multiset(r)[t] == if p(t) then multiset(rows)[t] else 0
    ensures forall i :: 0 <= i < |r| ==> p(r[i]) && r[i] in rows
  {
    if |rows| == 0 then []
    else
      assert rows == [rows[0]] + rows[1..];
      (if p(rows[0]) then [rows[0]] else []) + Keep(rows[1..], p)
  }

  /** The row conditions the aggregate queries count by. */
  datatype Criterion =
    | StatusIs(status: string)     // status = '...'
    | UnknownStatus                // none of the three statuses
    | DueSince(day: int)           // due_date >= day
    | DoneDueSince(day: int)       // status = 'done' AND due_date >= day
    | OpenDueSince(day: int)       // status != 'done' AND due_date >= day

  predicate Holds(c: Criterion, t: Task) {
    match c
    case StatusIs(s) => t.status == s
    case UnknownStatus => t.status != "done" && t.status != "in_progress" && t.status != "pending"
    case DueSince(day) => CivilDay(t.dueDate) >= day
    case DoneDueSince(day) => t.status == "done" && CivilDay(t.dueDate) >= day
    case OpenDueSince(day) => t.status != "done" && CivilDay(t.dueDate) >= day
  }

  /** COUNT(*) of the rows meeting `c`. */
  function Count(rows: seq<Task>, c: Criterion): nat {
    if |rows| == 0 then 0 else (if Holds(c, rows[0]) then 1 else 0) + Count(rows[1..], c)
  }

  /** Positions of the rows meeting `c`: the rows COUNT(*) counts, as a set. */
  function Where(rows: seq<Task>, c: Criterion): set<nat> {
    set i: nat | i < |rows| && Holds(c, rows[i])
  }

  lemma {:induction false} CountSnoc(rows: seq<Task>, t: Task, c: Criterion)
    ensures Count(rows + [t], c) == Count(rows, c) + (if Holds(c, t) then 1 else 0)
  {
    if |rows| == 0 {
      assert ([] + [t])[1..] == [];
    } else {
      assert (rows + [t])[1..] == rows[1..] + [t];
      CountSnoc(rows[1..], t, c);
    }
  }

  lemma WhereSnoc(rows: seq<Task>, t: Task, c: Criterion)
    ensures Where(rows + [t], c) == Where(rows, c) + (if Holds(c, t) then {|rows|} else {})
  {
    var both := rows + [t];
    forall i: nat | i < |rows|
      ensures both[i] == rows[i]
    {
    }
    assert both[|rows|] == t;
  }

  /** The recursive count is the number of matching positions. */
  lemma {:induction false} CountIsWhere(rows: seq<Task>, c: Criterion)
    ensures Count(rows, c) == |Where(rows, c)|
    decreases |rows|
  {
    if |rows| == 0 {
      assert Where(rows, c) == {};
    } else {
      var n := |rows| - 1;
      var init := rows[..n];
      assert rows == init + [rows[n]];
      CountIsWhere(init, c);
      CountSnoc(init, rows[n], c);
      WhereSnoc(init, rows[n], c);
      assert n !in Where(init, c);
    }
  }

  // ------------------------------------------------------------- Create

  /** The row INSERT stores: a fresh id from the sequence, timestamps from the database clock. */
  function Inserted(task: Task, id: int, now: string): Task {
    Task(id, task.title, task.description, task.status, task.priority, task.dueDate, now, now)
  }

  /**
    INSERT ... RETURNING id. The task's own id and timestamps are ignored;
    the new id comes back as decimal text.
   */
  function CreateTask(db: Db, task: Task, now: string, fault: Option<Error>): (s: Step<string>)
    ensures fault.Some? ==> s == Step(db, Failure(fault.value))
    ensures fault.None? ==> |s.db.rows| == |db.rows| + 1 && s.db.rows[..|db.rows|] == db.rows
    ensures fault.None? ==> var row := s.db.rows[|db.rows|];
      SameContent(row, task) && row.createdAt == now && row.updatedAt == now
    ensures fault.None? && Valid(db) ==>
      Valid(s.db) && forall i :: 0 <= i < |db.rows| ==> db.rows[i].id != s.db.rows[|db.rows|].id
    ensures fault.None? ==> s.result == Success(Itoa(s.db.rows[|db.rows|].id))
    ensures fault.None? && 0 <= db.nextId <= MaxInt64 ==>
      s.result.Success? && Atoi(s.result.value) == Success(s.db.rows[|db.rows|].id)
  {
    if fault.Some? then Step(db, Failure(fault.value))
    else
      var row := Inserted(task, db.nextId, now);
      var rows := db.rows + [row];
      assert rows[..|db.rows|] == db.rows;
      IdTextReadsBack(db.nextId);
      Step(Db(rows, db.nextId + 1), Success(Itoa(db.nextId)))
  }

  lemma IdTextReadsBack(id: int)
    ensures MinInt64 <= id <= MaxInt64 ==> Atoi(Itoa(id)) == Success(id)
  {
    if MinInt64 <= id <= MaxInt64 {
      AtoiOfItoa(id);
    }
  }

  // -------------------------------------------------------------- Listing

  /** A row satisfies the WHERE clause the filter's recognised parts produce. */
  predicate Matches(t: Task, f: TaskFilter) {
    var s := ShapeOf(f);
    && (s.status.Some? ==> t.status == StatusText(s.status.value))
    && (s.priority.Some? ==> t.priority == PriorityText(s.priority.value))
    && (s.byName ==> t.title == f.name)
  }

  /** Sort key for ORDER BY due_date in direction `d`. */
  function Key(t: Task, d: Direction): int {
    if d == Ascending then WallInstant(t.dueDate) else -WallInstant(t.dueDate)
  }

  /** Ascending by `key`. */
  predicate SortedBy(s: seq<Task>, key: Task -> int) {
    forall i, j :: 0 <= i < j < |s| ==> key(s[i]) <= key(s[j])
  }

  function Insert(x: Task, s: seq<Task>, key: Task -> int): (r: seq<Task>)
    requires SortedBy(s, key)
    ensures SortedBy(r, key)
    ensures multiset(r) == multiset(s) + multiset{x}
    ensures |r| == |s| + 1
    ensures r[0] == x || (|s| > 0 && r[0] == s[0])
  {
    if |s| == 0 then [x]
    else if key(x) <= key(s[0]) then [x] + s
    else
      assert s == [s[0]] + s[1..];
      [s[0]] + Insert(x, s[1..], key)
  }

  /** Insertion sort: a stable permutation of `s` in ascending `key` order. */
  function Sort(s: seq<Task>, key: Task -> int): (r: seq<Task>)
    ensures SortedBy(r, key)
    ensures multiset(r) == multiset(s)
  {
    if |s| == 0 then []
    else
      assert s == [s[0]] + s[1..];
      Insert(s[0], Sort(s[1..], key), key)
  }

  /** ORDER BY due_date in direction `d`, as an ascending sort key. */
  function OrderKey(d: Direction): Task -> int {
    (t: Task) => Key(t, d)
  }

  /** "low" lists earliest due first, "high" latest due first. */
  lemma OrderKeyMeaning(s: seq<Task>, d: Direction)
    requires SortedBy(s, OrderKey(d))
    ensures d == Ascending ==>
      forall i, j :: 0 <= i < j < |s| ==> WallInstant(s[i].dueDate) <= WallInstant(s[j].dueDate)
    ensures d == Descending ==>
      forall i, j :: 0 <= i < j < |s| ==> WallInstant(s[i].dueDate) >= WallInstant(s[j].dueDate)
  {
    forall i, j | 0 <= i < j < |s|
      ensures Key(s[i], d) <= Key(s[j], d)
    {
      assert OrderKey(d)(s[i]) <= OrderKey(d)(s[j]);
    }
  }

  /**
    The rows a well-formed listing query returns: the filter's predicates,
    ordered by due date when the sort is recognised. Ties are broken by
    storage order here; the database promises no particular tie order.
   */
  function Select(db: Db, f: TaskFilter): (r: seq<Task>)
    ensures forall t :: multiset(r)[t] == if Matches(t, f) then multiset(db.rows)[t] else 0
    ensures DirectionOf(f.sortBy).Some? ==> SortedBy(r, OrderKey(DirectionOf(f.sortBy).value))
    ensures DirectionOf(f.sortBy).None? ==> r == Keep(db.rows, (t: Task) => Matches(t, f))
  {
    var selected := Keep(db.rows, (t: Task) => Matches(t, f));
    match DirectionOf(f.sortBy)
    case Some(d) => Sort(selected, OrderKey(d))
    case None => selected
  }

  /** What the database answers to a statement it cannot parse. */
  const SyntaxError: Error := DbError("syntax error at or near \"AND\"")

  /**
    The listing as written: the database parses the statement BuildQuery
    produces, so a name search with a recognised sort, whose name predicate
    trails the ORDER BY clause, is rejected.
   */
  function GetTasks(db: Db, f: TaskFilter, fault: Option<Error>): (r: Result<seq<Task>, Error>)
    ensures fault.Some? ==> r == Failure(fault.value)
    ensures fault.None? ==> (r.Success? <==> f.name == "" || DirectionOf(f.sortBy).None?)
    ensures fault.None? && r.Failure? ==> r == Failure(SyntaxError)
    ensures r.Success? ==> forall t :: multiset(r.value)[t] == if Matches(t, f) then multiset(db.rows)[t] else 0
    ensures r.Success? && DirectionOf(f.sortBy).Some? ==> SortedBy(r.value, OrderKey(DirectionOf(f.sortBy).value))
    ensures r.Success? && DirectionOf(f.sortBy).None? ==> r.value == Keep(db.rows, (t: Task) => Matches(t, f))
    ensures f.name == "" || DirectionOf(f.sortBy).None? ==> r == GetTasksFixed(db, f, fault)
  {
    if fault.Some? then Failure(fault.value)
    else if Decode(BuildQuery(f).text).None? then
      QueryParses(f);
      Failure(SyntaxError)
    else
      QueryParses(f);
      Success(Select(db, f))
  }

  /** The as-written statement parses exactly when it is not a sorted name search. */
  lemma QueryParses(f: TaskFilter)
    ensures Decode(BuildQuery(f).text).Some? <==> f.name == "" || DirectionOf(f.sortBy).None?
  {
    if f.name != "" && DirectionOf(f.sortBy).Some? {
      NamePredicateAfterOrderBy(f);
    } else {
      AsWrittenAgreesWithoutNameAndSort(f);
      DecodeBuildFixed(f);
    }
  }

  /** The listing as intended, built with the name predicate before ORDER BY: only a fault makes it fail. */
  function GetTasksFixed(db: Db, f: TaskFilter, fault: Option<Error>): (r: Result<seq<Task>, Error>)
    ensures fault.Some? ==> r == Failure(fault.value)
    ensures fault.None? ==> r.Success?
    ensures r.Success? ==> forall t :: multiset(r.value)[t] == if Matches(t, f) then multiset(db.rows)[t] else 0
    ensures r.Success? && DirectionOf(f.sortBy).Some? ==> SortedBy(r.value, OrderKey(DirectionOf(f.sortBy).value))
  {
    if fault.Some? then Failure(fault.value)
    else
      DecodeBuildFixed(f);
      match Decode(BuildQueryFixed(f).text)
      case None => Failure(SyntaxError)
      case Some(_) => Success(Select(db, f))
  }

  /** A name search with a recognised sort never lists anything: the statement is rejected. */
  lemma SortedNameSearchFails(db: Db, f: TaskFilter)
    requires f.name != "" && DirectionOf(f.sortBy).Some?
    ensures GetTasks(db, f, None) == Failure(SyntaxError)
    ensures GetTasksFixed(db, f, None).Success?
  {
  }

  /** A filter with no recognised predicate and no sort lists the whole table in storage order. */
  lemma UnfilteredListing(db: Db, f: TaskFilter)
    requires StatusOf(f.status).None? && PriorityOf(f.priority).None? && f.name == ""
    requires DirectionOf(f.sortBy).None?
    ensures GetTasks(db, f, None) == Success(db.rows)
  {
    KeepAll(db.rows, (t: Task) => Matches(t, f));
  }

  lemma {:induction false} KeepAll(rows: seq<Task>, p: Task -> bool)
    requires forall t :: p(t)
    ensures Keep(rows, p) == rows
  {
    if |rows| > 0 {
      KeepAll(rows[1..], p);
      assert rows == [rows[0]] + rows[1..];
    }
  }

  // --------------------------------------------------------------- Update

  /** The row UPDATE leaves behind: the five client fields replaced, everything else kept. */
  function Updated(row: Task, task: Task): Task {
    row.(title := task.title, description := task.description, status := task.status,
         priority := task.priority, dueDate := task.dueDate)
  }

  predicate HasId(rows: seq<Task>, id: int) {
    exists i :: 0 <= i < |rows| && rows[i].id == id
  }

  /** Position of the first row carrying `id`. */
  function IndexOf(rows: seq<Task>, id: int): (i: nat)
    requires HasId(rows, id)
    ensures i < |rows| && rows[i].id == id
  {
    if rows[0].id == id then 0
    else
      assert HasId(rows[1..], id) by {
        var k :| 0 <= k < |rows| && rows[k].id == id;
        assert rows[1..][k - 1] == rows[k];
      }
      1 + IndexOf(rows[1..], id)
  }

  /** UPDATE ... WHERE id = $6 RETURNING the row; no matching row is `pgx.ErrNoRows`. */
  function UpdateTask(db: Db, task: Task, fault: Option<Error>): (s: Step<Task>)
    ensures fault.Some? ==> s == Step(db, Failure(fault.value))
    ensures fault.None? && !HasId(db.rows, task.id) ==> s == Step(db, Failure(NoRows))
    ensures fault.None? && HasId(db.rows, task.id) ==> s.result.Success?
    ensures s.result.Success? ==>
      && s.db.nextId == db.nextId
      && |s.db.rows| == |db.rows|
      && (forall i :: 0 <= i < |db.rows| && db.rows[i].id != task.id ==> s.db.rows[i] == db.rows[i])
      && (forall i :: 0 <= i < |db.rows| && db.rows[i].id == task.id ==>
            && SameContent(s.db.rows[i], task)
            && s.db.rows[i].id == db.rows[i].id
            && s.db.rows[i].createdAt == db.rows[i].createdAt
            && s.db.rows[i].updatedAt == db.rows[i].updatedAt)
    ensures s.result.Success? ==>
      s.result.value in s.db.rows && s.result.value.id == task.id && SameContent(s.result.value, task)
    ensures Valid(db) ==> Valid(s.db)
  {
    if fault.Some? then Step(db, Failure(fault.value))
    else if !HasId(db.rows, task.id) then Step(db, Failure(NoRows))
    else
      var i := IndexOf(db.rows, task.id);
      var rows := seq(|db.rows|, k requires 0 <= k < |db.rows| =>
        if db.rows[k].id == task.id then Updated(db.rows[k], task) else db.rows[k]);
      assert rows[i] == Updated(db.rows[i], task);
      Step(Db(rows, db.nextId), Success(Updated(db.rows[i], task)))
  }

  // --------------------------------------------------------------- Delete

  /**
    DELETE ... WHERE id = $1 with the id as text; text that is not an
    integer is rejected by the database. Deleting a missing id is no error.
   */
  function DeleteTask(db: Db, idText: string, fault: Option<Error>): (s: Step<()>)
    ensures fault.Some? ==> s == Step(db, Failure(fault.value))
    ensures Atoi(idText).Failure? ==> s.db == db && s.result.Failure?
    ensures fault.None? && Atoi(idText).Success? ==> s.result.Success?
    ensures s.result.Success? ==>
      && s.db.nextId == db.nextId
      && (forall i :: 0 <= i < |s.db.rows| ==> Success(s.db.rows[i].id) != Atoi(idText))
      && (forall t: Task :: Success(t.id) != Atoi(idText) ==> multiset(s.db.rows)[t] == multiset(db.rows)[t])
    ensures Valid(db) ==> Valid(s.db)
  {
    if fault.Some? then Step(db, Failure(fault.value))
    else match Atoi(idText)
      case Failure(_) => Step(db, Failure(DbError("invalid input syntax for type integer")))
      case Success(id) =>
        var rows := Keep(db.rows, (t: Task) => t.id != id);
        KeepValid(db, (t: Task) => t.id != id);
        Step(Db(rows, db.nextId), Success(()))
  }

  lemma KeepValid(db: Db, p: Task -> bool)
    ensures Valid(db) ==> Valid(Db(Keep(db.rows, p), db.nextId))
  {
    if Valid(db) {
      KeepUnique(db.rows, p);
      var rows := Keep(db.rows, p);
      forall i | 0 <= i < |rows|
        ensures 0 < rows[i].id < db.nextId
      {
        var a :| 0 <= a < |db.rows| && db.rows[a] == rows[i];
      }
    }
  }

  /** Keeping some rows of a table with unique ids keeps the ids unique. */
  lemma {:induction false} KeepUnique(rows: seq<Task>, p: Task -> bool)
    requires UniqueIds(rows)
    ensures UniqueIds(Keep(rows, p))
  {
    if |rows| > 0 {
      UniqueTail(rows);
      KeepUnique(rows[1..], p);
      var tail := Keep(rows[1..], p);
      if p(rows[0]) {
        forall j | 0 <= j < |tail|
          ensures tail[j].id != rows[0].id
        {
          KeepFrom(rows[1..], p, j);
        }
        ConsUnique(rows[0], tail);
      }
    }
  }

  lemma UniqueTail(rows: seq<Task>)
    requires |rows| > 0 && UniqueIds(rows)
    ensures UniqueIds(rows[1..])
  {
    forall i, j | 0 <= i < j < |rows[1..]|
      ensures rows[1..][i].id != rows[1..][j].id
    {
      assert rows[1..][i] == rows[i + 1] && rows[1..][j] == rows[j + 1];
    }
  }

  lemma ConsUnique(x: Task, s: seq<Task>)
    requires UniqueIds(s)
    requires forall j :: 0 <= j < |s| ==> s[j].id != x.id
    ensures UniqueIds([x] + s)
  {
    var r := [x] + s;
    forall i, j | 0 <= i < j < |r|
      ensures r[i].id != r[j].id
    {
      assert r[j] == s[j - 1];
      if i > 0 {
        assert r[i] == s[i - 1];
      }
    }
  }

  /** Every kept row sits at some position of the original table. */
  lemma KeepFrom(rows: seq<Task>, p: Task -> bool, j: nat)
    requires j < |Keep(rows, p)|
    ensures exists b :: 0 <= b < |rows| && rows[b] == Keep(rows, p)[j]
  {
    assert Keep(rows, p)[j] in rows;
  }

  /** Deleting an id no row carries succeeds and leaves the table as it was. */
  lemma DeleteMissingIsNoOp(db: Db, id: int)
    requires MinInt64 <= id <= MaxInt64
    requires !HasId(db.rows, id)
    ensures DeleteTask(db, Itoa(id), None) == Step(db, Success(()))
  {
    AtoiOfItoa(id);
    KeepEverything(db.rows, (t: Task) => t.id != id);
  }

  lemma {:induction false} KeepEverything(rows: seq<Task>, p: Task -> bool)
    requires forall i :: 0 <= i < |rows| ==> p(rows[i])
    ensures Keep(rows, p) == rows
  {
    if |rows| > 0 {
      KeepEverything(rows[1..], p);
      assert rows == [rows[0]] + rows[1..];
    }
  }

  // ---------------------------------------------------------------- Sweep

  /** The sweep's predicate: not done and due before the day a week ago. */
  predicate Stale(t: Task, today: int) {
    t.status != "done" && CivilDay(t.dueDate) < today - 7
  }

  /**
    DELETE FROM tasks WHERE status != 'done' AND due_date < CURRENT_DATE -
    7 days. `today` is the database's current date as a day number.
   */
  function ClearTasks(db: Db, today: int, fault: Option<Error>): (s: Step<()>)
    ensures fault.Some? ==> s == Step(db, Failure(fault.value))
    ensures fault.None? ==> s.result.Success? && s.db.nextId == db.nextId
    ensures fault.None? ==> forall t :: multiset(s.db.rows)[t] == if Stale(t, today) then 0 else multiset(db.rows)[t]
    ensures fault.None? ==> forall i :: 0 <= i < |s.db.rows| ==> !Stale(s.db.rows[i], today)
    ensures Valid(db) ==> Valid(s.db)
  {
    if fault.Some? then Step(db, Failure(fault.value))
    else
      KeepValid(db, (t: Task) => !Stale(t, today));
      Step(Db(Keep(db.rows, (t: Task) => !Stale(t, today)), db.nextId), Success(()))
  }

  /** A second sweep on the same day removes nothing. */
  lemma ClearTasksIdempotent(db: Db, today: int)
    ensures ClearTasks(ClearTasks(db, today, None).db, today, None) == ClearTasks(db, today, None)
  {
    var once := ClearTasks(db, today, None).db;
    KeepEverything(once.rows, (t: Task) => !Stale(t, today));
  }

  /** Done tasks survive the sweep however old they are. */
  lemma ClearTasksKeepsDone(db: Db, today: int, t: Task)
    requires t in db.rows && t.status == "done"
    ensures t in ClearTasks(db, today, None).db.rows
  {
    assert multiset(ClearTasks(db, today, None).db.rows)[t] == multiset(db.rows)[t];
  }

  // ------------------------------------------------------------ Analytics

  /** Outcome of each of the four aggregate queries, in the order they run. */
  datatype AnalyticsFaults = AnalyticsFaults(
    completed: Option<Error>, uncompleted: Option<Error>,
    byStatus: Option<Error>, average: Option<Error>)

  const NoFaults: AnalyticsFaults := AnalyticsFaults(None, None, None, None)

  /** The first failing query's error, if any. */
  function FirstFault(f: AnalyticsFaults): Option<Error> {
    if f.completed.Some? then f.completed
    else if f.uncompleted.Some? then f.uncompleted
    else if f.byStatus.Some? then f.byStatus
    else f.average
  }

  /**
    The four aggregate queries. `average` is the value of AVG(created_at -
    due_date) over done tasks; it is used only when there is a done task,
    since AVG over no rows is NULL and then the field is 0. `today` is the
    database's current date; "the trailing week" is every due date on or
    after the day a week ago, with no upper bound.
   */
  function GetAnalytics(db: Db, today: int, average: int, faults: AnalyticsFaults): (r: Result<Analyse, Error>)
    ensures FirstFault(faults).Some? ==> r == Failure(FirstFault(faults).value)
    ensures FirstFault(faults).None? ==> r.Success?
    ensures r.Success? ==> r.value.done + r.value.inProgress + r.value.pending
                           + Count(db.rows, UnknownStatus) == |db.rows|
    ensures r.Success? ==> r.value.weekly.completed + r.value.weekly.uncompleted
                           == Count(db.rows, DueSince(today - 7))
    ensures r.Success? ==>
      r.value.done == |Where(db.rows, StatusIs("done"))|
      && r.value.inProgress == |Where(db.rows, StatusIs("in_progress"))|
      && r.value.pending == |Where(db.rows, StatusIs("pending"))|
    ensures r.Success? ==>
      r.value.weekly.completed == |Where(db.rows, DueSince(today - 7)) * Where(db.rows, StatusIs("done"))|
      && r.value.weekly.uncompleted == |Where(db.rows, DueSince(today - 7)) - Where(db.rows, StatusIs("done"))|
    ensures r.Success? && r.value.done == 0 ==> r.value.averageTime == 0
  {
    if FirstFault(faults).Some? then Failure(FirstFault(faults).value)
    else
      var rows := db.rows;
      StatusCountsBound(rows);
      WeeklySplit(rows, today - 7);
      StatusCountsAreSizes(rows);
      WeeklyCountsAreSizes(rows, today - 7);
      var done := Count(rows, StatusIs("done"));
      Success(Analyse(
        done,
        Count(rows, StatusIs("in_progress")),
        Count(rows, StatusIs("pending")),
        if done == 0 then 0 else average,
        WeeklyReport(Count(rows, DoneDueSince(today - 7)), Count(rows, OpenDueSince(today - 7)))))
  }

  /** The faults decide only whether the report comes back, never what it says. */
  lemma FaultsOnlyFail(db: Db, today: int, average: int, faults: AnalyticsFaults)
    ensures GetAnalytics(db, today, average, faults)
      == if FirstFault(faults).Some? then Failure(FirstFault(faults).value)
         else GetAnalytics(db, today, average, NoFaults)
  {
  }

  /** Every row has one of the three statuses or an unknown one, so the counts partition the table. */
  lemma {:induction false} StatusCountsBound(rows: seq<Task>)
    ensures Count(rows, StatusIs("done")) + Count(rows, StatusIs("in_progress"))
            + Count(rows, StatusIs("pending")) + Count(rows, UnknownStatus) == |rows|
  {
    if |rows| > 0 {
      StatusCountsBound(rows[1..]);
    }
  }

  lemma StatusCountsAreSizes(rows: seq<Task>)
    ensures Count(rows, StatusIs("done")) == |Where(rows, StatusIs("done"))|
    ensures Count(rows, StatusIs("in_progress")) == |Where(rows, StatusIs("in_progress"))|
    ensures Count(rows, StatusIs("pending")) == |Where(rows, StatusIs("pending"))|
  {
    CountIsWhere(rows, StatusIs("done"));
    CountIsWhere(rows, StatusIs("in_progress"));
    CountIsWhere(rows, StatusIs("pending"));
  }

  /** Done and not-done rows due since `day` are the recently due positions split by the done ones. */
  lemma WeeklyCountsAreSizes(rows: seq<Task>, day: int)
    ensures Count(rows, DoneDueSince(day)) == |Where(rows, DueSince(day)) * Where(rows, StatusIs("done"))|
    ensures Count(rows, OpenDueSince(day)) == |Where(rows, DueSince(day)) - Where(rows, StatusIs("done"))|
  {
    CountIsWhere(rows, DoneDueSince(day));
    CountIsWhere(rows, OpenDueSince(day));
    assert Where(rows, DoneDueSince(day)) == Where(rows, DueSince(day)) * Where(rows, StatusIs("done"));
    assert Where(rows, OpenDueSince(day)) == Where(rows, DueSince(day)) - Where(rows, StatusIs("done"));
  }

  /** The weekly report splits the recently due tasks by whether they are done. */
  lemma {:induction false} WeeklySplit(rows: seq<Task>, day: int)
    ensures Count(rows, DoneDueSince(day)) + Count(rows, OpenDueSince(day)) == Count(rows, DueSince(day))
  {
    if |rows| > 0 {
      WeeklySplit(rows[1..], day);
    }
  }

  /**
    Two tasks done (due 3 and 10 days ago), one pending (due 2 days ago)
    and one in progress (due 9 days ago): the trailing week holds the done
    task due 3 days ago and the pending one only.
   */
  lemma AnalyticsExample(average: int)
    ensures var today := DaysFromCivil(2024, 6, 15);
      GetAnalytics(Db(ExampleRows(), 5), today, average, NoFaults)
        == Success(Analyse(2, 1, 1, average, WeeklyReport(1, 1)))
  {
    var today := DaysFromCivil(2024, 6, 15);
    AnalyticsByCounts(Db(ExampleRows(), 5), today, average);
    ExampleCounts();
  }

  /** With no failing query the report is the five counts, the average taken only when something is done. */
  lemma AnalyticsByCounts(db: Db, today: int, average: int)
    ensures var done := Count(db.rows, StatusIs("done"));
      GetAnalytics(db, today, average, NoFaults) == Success(Analyse(
        done, Count(db.rows, StatusIs("in_progress")), Count(db.rows, StatusIs("pending")),
        if done == 0 then 0 else average,
        WeeklyReport(Count(db.rows, DoneDueSince(today - 7)), Count(db.rows, OpenDueSince(today - 7)))))
  {
  }

  function ExampleRows(): seq<Task> {
    [Task(1, "a", "", "done", "low", Clock(2024, 6, 12, 0, 0, 0, 0, UTC), "", ""),
     Task(2, "b", "", "done", "low", Clock(2024, 6, 5, 0, 0, 0, 0, UTC), "", ""),
     Task(3, "c", "", "pending", "low", Clock(2024, 6, 13, 0, 0, 0, 0, UTC), "", ""),
     Task(4, "d", "", "in_progress", "low", Clock(2024, 6, 6, 0, 0, 0, 0, UTC), "", "")]
  }

  lemma ExampleCounts()
    ensures var today := DaysFromCivil(2024, 6, 15); var rows := ExampleRows();
      Count(rows, DoneDueSince(today - 7)) == 1 && Count(rows, OpenDueSince(today - 7)) == 1
      && Count(rows, StatusIs("done")) == 2 && Count(rows, StatusIs("in_progress")) == 1
      && Count(rows, StatusIs("pending")) == 1
  {
    var today := DaysFromCivil(2024, 6, 15);
    var rows := ExampleRows();
    assert CivilDay(rows[0].dueDate) == today - 3;
    assert CivilDay(rows[1].dueDate) == today - 10;
    assert CivilDay(rows[2].dueDate) == today - 2;
    assert CivilDay(rows[3].dueDate) == today - 9;
    assert rows[3..][1..] == [];
    assert rows[2..][1..] == rows[3..];
    assert rows[1..][1..] == rows[2..];
    assert Count(rows[3..], DoneDueSince(today - 7)) == 0;
    assert Count(rows[2..], DoneDueSince(today - 7)) == 0;
    assert Count(rows[1..], DoneDueSince(today - 7)) == 0;
    assert Count(rows[3..], OpenDueSince(today - 7)) == 0;
    assert Count(rows[2..], OpenDueSince(today - 7)) == 1;
    assert Count(rows[1..], OpenDueSince(today - 7)) == 1;
  }

  // ---------------------------------------------------------------- Cache

  /**
    GET "analytics": a cache error other than a miss is returned as is; a
    miss computes the analytics afresh without storing them; a hit returns
    the stored value.
   */
  function GetCachedAnalytics(slot: Option<Analyse>, getFault: Option<Error>,
                              db: Db, today: int, average: int, faults: AnalyticsFaults): (r: Result<Analyse, Error>)
    ensures getFault.Some? ==> r == Failure(getFault.value)
    ensures getFault.None? && slot.Some? ==> r == Success(slot.value)
    ensures getFault.None? && slot.None? ==> r == GetAnalytics(db, today, average, faults)
  {
    if getFault.Some? then Failure(getFault.value)
    else match slot
      case Some(a) => Success(a)
      case None => GetAnalytics(db, today, average, faults)
  }

  datatype SetResult = Stored(slot: Option<Analyse>) | SetFailed(error: Error) | NilDereference

  /**
    SET "analytics" with no expiry. The argument is a pointer: marshalling
    dereferences it first, so a nil pointer panics before the cache is
    reached.
   */
  function SetAnalytics(a: Option<Analyse>, fault: Option<Error>): (r: SetResult)
    ensures a.None? <==> r.NilDereference?
    ensures a.Some? && fault.Some? ==> r == SetFailed(fault.value)
    ensures a.Some? && fault.None? ==> r == Stored(Some(a.value))
  {
    match a
    case None => NilDereference
    case Some(v) => if fault.Some? then SetFailed(fault.value) else Stored(Some(v))
  }

  /** After a successful set, a read returns exactly the stored snapshot, whatever the table holds. */
  lemma SetThenGet(a: Analyse, db: Db, today: int, average: int, faults: AnalyticsFaults)
    ensures SetAnalytics(Some(a), None).Stored?
    ensures GetCachedAnalytics(SetAnalytics(Some(a), None).slot, None, db, today, average, faults) == Success(a)
  {
  }

  // --------------------------------------------------------------- Import

  /** What the driver reports for BEGIN, each INSERT, ROLLBACK and COMMIT. */
  datatype ImportIo = ImportIo(begin: Option<Error>, inserts: seq<Option<Error>>,
                               rollback: Option<Error>, commit: Option<Error>)

  /** Index of the first failing INSERT among the first `n`, if any. */
  function FirstFailedInsert(inserts: seq<Option<Error>>, n: nat): (k: Option<nat>)
    requires n <= |inserts|
    ensures k.Some? ==>
      k.value < n && inserts[k.value].Some? && forall i :: 0 <= i < k.value ==> inserts[i].None?
    ensures k.None? ==> forall i :: 0 <= i < n ==> inserts[i].None?
  {
    if n == 0 then None
    else if inserts[0].Some? then Some(0)
    else
      var k := FirstFailedInsert(inserts[1..], n - 1);
      if k.Some? then Some(k.value + 1) else None
  }

  /** The table after the whole batch is committed: rows appended in order with fresh ids. */
  function AppendAll(db: Db, tasks: seq<Task>, now: string): (d: Db)
    ensures |d.rows| == |db.rows| + |tasks| && d.rows[..|db.rows|] == db.rows
    ensures forall i :: 0 <= i < |tasks| ==>
      var row := d.rows[|db.rows| + i];
      SameContent(row, tasks[i]) && row.id == db.nextId + i && row.createdAt == now
    ensures d.nextId == db.nextId + |tasks|
    ensures Valid(db) ==> Valid(d)
  {
    var added := seq(|tasks|, i requires 0 <= i < |tasks| => Inserted(tasks[i], db.nextId + i, now));
    var d := Db(db.rows + added, db.nextId + |tasks|);
    assert d.rows[..|db.rows|] == db.rows;
    AppendValid(db, added, d);
    d
  }

  lemma AppendValid(db: Db, added: seq<Task>, d: Db)
    requires d == Db(db.rows + added, db.nextId + |added|)
    requires forall i :: 0 <= i < |added| ==> added[i].id == db.nextId + i
    ensures forall i :: 0 <= i < |added| ==> d.rows[|db.rows| + i] == added[i]
    ensures Valid(db) ==> Valid(d)
  {
    if Valid(db) {
      var n := |db.rows|;
      forall i | 0 <= i < |d.rows|
        ensures 0 < d.rows[i].id < d.nextId
      {
        if i >= n {
          assert d.rows[i] == added[i - n];
        }
      }
      forall i, j | 0 <= i < j < |d.rows|
        ensures d.rows[i].id != d.rows[j].id
      {
        if j >= n {
          assert d.rows[j] == added[j - n];
          if i >= n {
            assert d.rows[i] == added[i - n];
          }
        }
      }
    }
  }

  /**
    The import transaction as written: an INSERT failure rolls back and
    returns ROLLBACK's own result, which is no error when the rollback
    succeeds.
   */
  function ImportTasks(db: Db, tasks: seq<Task>, now: string, io: ImportIo): (s: Step<()>)
    requires |io.inserts| >= |tasks|
    ensures s.db == db || s.db == AppendAll(db, tasks, now)
    ensures io.begin.Some? ==> s == Step(db, Failure(io.begin.value))
    ensures io.begin.None? && FirstFailedInsert(io.inserts, |tasks|).Some? ==>
      s.db == db && s.result == (if io.rollback.Some? then Failure(io.rollback.value) else Success(()))
    ensures io.begin.None? && FirstFailedInsert(io.inserts, |tasks|).None? ==>
      s == ImportTasksFixed(db, tasks, now, io)
    ensures s.result.Failure? ==> s.db == db
  {
    if io.begin.Some? then Step(db, Failure(io.begin.value))
    else if FirstFailedInsert(io.inserts, |tasks|).Some? then
      Step(db, if io.rollback.Some? then Failure(io.rollback.value) else Success(()))
    else if io.commit.Some? then Step(db, Failure(io.commit.value))
    else Step(AppendAll(db, tasks, now), Success(()))
  }

  /** A failed INSERT followed by a clean rollback is reported as a successful import of nothing. */
  lemma ImportFailureReportedAsSuccess(db: Db, t: Task, now: string)
    ensures var s := ImportTasks(db, [t], now, ImportIo(None, [Some(DbError("insert"))], None, None));
      s.result.Success? && s.db == db && s.db != AppendAll(db, [t], now)
  {
  }

  /** The import as intended: the failing INSERT's error is what the caller sees. */
  function ImportTasksFixed(db: Db, tasks: seq<Task>, now: string, io: ImportIo): (s: Step<()>)
    requires |io.inserts| >= |tasks|
    ensures s.result.Success? <==>
      io.begin.None? && FirstFailedInsert(io.inserts, |tasks|).None? && io.commit.None?
    ensures s.result.Failure? ==> s.db == db
    ensures s.result.Success? ==> s.db == AppendAll(db, tasks, now)
    ensures io.begin.Some? ==> s == Step(db, Failure(io.begin.value))
    ensures io.begin.None? && FirstFailedInsert(io.inserts, |tasks|).Some? ==>
      s == Step(db, Failure(io.inserts[FirstFailedInsert(io.inserts, |tasks|).value].value))
    ensures io.begin.None? && FirstFailedInsert(io.inserts, |tasks|).None? && io.commit.Some? ==>
      s == Step(db, Failure(io.commit.value))
  {
    if io.begin.Some? then Step(db, Failure(io.begin.value))
    else match FirstFailedInsert(io.inserts, |tasks|)
      case Some(k) => Step(db, Failure(io.inserts[k].value))
      case None =>
        if io.commit.Some? then Step(db, Failure(io.commit.value))
        else Step(AppendAll(db, tasks, now), Success(()))
  }

  // --------------------------------------------------------------- Export

  /** SELECT of every row, in storage order. */
  function ExportTasks(db: Db, fault: Option<Error>): (r: Result<seq<Task>, Error>)
    ensures fault.Some? ==> r == Failure(fault.value)
    ensures r.Success? ==> r.value == db.rows
  {
    if fault.Some? then Failure(fault.value) else Success(db.rows)
  }

  /**
    Import then export: after a successful import every imported task is
    exported, with its content and a fresh id assigned by the store.
   */
  lemma ImportThenExport(db: Db, tasks: seq<Task>, now: string, io: ImportIo, i: nat)
    requires |io.inserts| >= |tasks| && i < |tasks|
    requires Valid(db)
    requires ImportTasksFixed(db, tasks, now, io).result.Success?
    ensures var out := ExportTasks(ImportTasksFixed(db, tasks, now, io).db, None).value;
      exists j :: 0 <= j < |out| && SameContent(out[j], tasks[i])
        && out[j].id >= db.nextId && (forall k :: 0 <= k < |db.rows| ==> db.rows[k].id != out[j].id)
  {
    var d := AppendAll(db, tasks, now);
    assert ImportTasksFixed(db, tasks, now, io).db == d;
    assert ExportTasks(d, None).value == d.rows;
    AppendedRowIsFresh(db, tasks, now, i);
  }

  /** Row |db.rows| + i of the committed batch carries task i's content under an id new to the table. */
  lemma AppendedRowIsFresh(db: Db, tasks: seq<Task>, now: string, i: nat)
    requires i < |tasks| && Valid(db)
    ensures var rows := AppendAll(db, tasks, now).rows;
      exists j :: 0 <= j < |rows| && SameContent(rows[j], tasks[i])
        && rows[j].id >= db.nextId && (forall k :: 0 <= k < |db.rows| ==> db.rows[k].id != rows[j].id)
  {
    var rows := AppendAll(db, tasks, now).rows;
    var j := |db.rows| + i;
    assert SameContent(rows[j], tasks[i]) && rows[j].id == db.nextId + i;
    assert forall k :: 0 <= k < |db.rows| ==> db.rows[k].id < db.nextId;
  }

}
