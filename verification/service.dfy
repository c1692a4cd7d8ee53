/**
  The task service: a facade that hands every request to the repository
  and passes its error back unchanged, and two background workers that
  wake on a ticker and retry a repository call a bounded number of times.

  One tick of a worker is modelled sequentially. The outcome of every
  attempt the worker could make is given up front, and the tick produces
  the trace of calls and sleeps it performs.
 */
module Service {
  import opened Wrappers
  import opened Domain
  import opened Repository

  // ------------------------------------------------------------- Facade

  /** The store and the analytics cache slot. */
  datatype State = State(db: Db, cache: Option<Analyse>)

  /** One facade request. */
  datatype Call =
    | CreateCall(task: Task)
    | GetTasksCall(filter: TaskFilter)
    | UpdateCall(task: Task)
    | DeleteCall(id: string)
    | AnalyticsCall
    | ImportCall(tasks: seq<Task>)
    | ExportCall

  /** What the facade hands back: the repository's value, or its error. */
  datatype Reply =
    | Created(id: string)
    | Listed(tasks: seq<Task>)
    | Changed(task: Task)
    | Removed
    | Computed(analyse: Analyse)
    | Imported
    | Exported(tasks: seq<Task>)
    | Failed(error: Error)

  /**
    What the outside world decides for one request: the database fault of
    its statement, the cache read's fault, the four aggregate queries'
    faults, the import transaction's outcomes, the database clock and the
    AVG value.
   */
  datatype Env = Env(fault: Option<Error>, cacheFault: Option<Error>, analyticsFaults: AnalyticsFaults,
                     io: ImportIo, now: string, today: int, average: int)

  datatype Outcome = Outcome(state: State, reply: Reply)

  function Answer<T>(r: Result<T, Error>, ok: T -> Reply): Reply {
    match r
    case Success(v) => ok(v)
    case Failure(e) => Failed(e)
  }

  /**
    The facade. Every call goes to the same-named repository operation;
    analytics go through the cache, and imports through the transaction
    as written, so a failed INSERT whose rollback succeeds comes back as
    no error.
   */
  function Serve(s: State, call: Call, env: Env): (out: Outcome)
    requires call.ImportCall? ==> |env.io.inserts| >= |call.tasks|
    ensures out.state.cache == s.cache
    ensures call.GetTasksCall? || call.AnalyticsCall? || call.ExportCall? ==> out.state.db == s.db
    ensures out.reply.Failed? ==> out.state.db == s.db
    ensures Valid(s.db) ==> Valid(out.state.db)
    ensures env.fault.Some? && !call.AnalyticsCall? && !call.ImportCall? ==> out.reply == Failed(env.fault.value)
    ensures call.CreateCall? ==> out.reply == Answer(CreateTask(s.db, call.task, env.now, env.fault).result, (id: string) => Created(id))
    ensures call.GetTasksCall? ==> out.reply == Answer(GetTasks(s.db, call.filter, env.fault), (ts: seq<Task>) => Listed(ts))
    ensures call.UpdateCall? ==> out.reply == Answer(UpdateTask(s.db, call.task, env.fault).result, (t: Task) => Changed(t))
    ensures call.DeleteCall? ==> out.reply == Answer(DeleteTask(s.db, call.id, env.fault).result, (_: ()) => Removed)
    ensures call.ImportCall? ==> out.reply == Answer(ImportTasks(s.db, call.tasks, env.now, env.io).result, (_: ()) => Imported)
    ensures call.ExportCall? ==> out.reply == Answer(ExportTasks(s.db, env.fault), (ts: seq<Task>) => Exported(ts))
    ensures call.ExportCall? && env.fault.None? ==> out.reply == Exported(s.db.rows)
    ensures call.AnalyticsCall? ==> out.reply == Answer(
      GetCachedAnalytics(s.cache, env.cacheFault, s.db, env.today, env.average, env.analyticsFaults),
      (a: Analyse) => Computed(a))
  {
    match call
    case CreateCall(t) =>
      var step := CreateTask(s.db, t, env.now, env.fault);
      Outcome(State(step.db, s.cache), Answer(step.result, (id: string) => Created(id)))
    case GetTasksCall(f) =>
      Outcome(s, Answer(GetTasks(s.db, f, env.fault), (ts: seq<Task>) => Listed(ts)))
    case UpdateCall(t) =>
      var step := UpdateTask(s.db, t, env.fault);
      Outcome(State(step.db, s.cache), Answer(step.result, (t: Task) => Changed(t)))
    case DeleteCall(id) =>
      var step := DeleteTask(s.db, id, env.fault);
      Outcome(State(step.db, s.cache), Answer(step.result, (_: ()) => Removed))
    case AnalyticsCall =>
      Outcome(s, Answer(GetCachedAnalytics(s.cache, env.cacheFault, s.db, env.today, env.average, env.analyticsFaults),
                        (a: Analyse) => Computed(a)))
    case ImportCall(ts) =>
      var step := ImportTasks(s.db, ts, env.now, env.io);
      Outcome(State(step.db, s.cache), Answer(step.result, (_: ()) => Imported))
    case ExportCall =>
      Outcome(s, Answer(ExportTasks(s.db, env.fault), (ts: seq<Task>) => Exported(ts)))
  }

  /**
    Analytics requests are served from the cache: a stored snapshot is
    returned even when every aggregate query would fail and whatever the
    table holds now; with no snapshot they are computed from the table.
   */
  lemma FacadeServesCachedSnapshot(s: State, env: Env)
    requires env.cacheFault.None?
    ensures s.cache.Some? ==> Serve(s, AnalyticsCall, env).reply == Computed(s.cache.value)
    ensures s.cache.None? && FirstFault(env.analyticsFaults).None? ==>
      Serve(s, AnalyticsCall, env).reply == Computed(GetAnalytics(s.db, env.today, env.average, NoFaults).value)
  {
  }

  /** A request never fills the cache: two analytics requests in a row on a miss both compute. */
  lemma FacadeNeverFillsCache(s: State, env: Env)
    requires s.cache.None?
    ensures Serve(s, AnalyticsCall, env).state == s
    ensures Serve(Serve(s, AnalyticsCall, env).state, AnalyticsCall, env) == Serve(s, AnalyticsCall, env)
  {
  }

  // ------------------------------------------------------------- Workers

  /** A worker's ticker period, retry bound and pause between attempts, in seconds. */
  datatype WorkerConfig = WorkerConfig(interval: nat, retryCount: nat, retryInterval: nat)

  const AnalyseWorker: WorkerConfig := WorkerConfig(6 * 3600, 3, 5)
  const SweepWorker: WorkerConfig := WorkerConfig(24 * 3600, 3, 5)

  /** What a worker does, in order. `Crash` is a panic in the worker goroutine, which ends the process. */
  datatype Event = Compute | SetCall | Clear | Sleep(seconds: nat) | Crash

  /** Index of the first successful attempt among the first `n`, if any. */
  function FirstSuccess(ok: seq<bool>, n: nat): (k: Option<nat>)
    requires n <= |ok|
    ensures k.Some? ==> k.value < n && ok[k.value] && forall i :: 0 <= i < k.value ==> !ok[i]
    ensures k.None? ==> forall i :: 0 <= i < n ==> !ok[i]
  {
    if n == 0 then None
    else if ok[0] then Some(0)
    else
      var k := FirstSuccess(ok[1..], n - 1);
      if k.Some? then Some(k.value + 1) else None
  }

  /** The first success is the attempt that succeeds after only failures. */
  lemma FirstSuccessAt(ok: seq<bool>, n: nat, i: nat)
    requires i < n <= |ok| && ok[i] && forall k :: 0 <= k < i ==> !ok[k]
    ensures FirstSuccess(ok, n) == Some(i)
  {
  }

  lemma FirstSuccessNone(ok: seq<bool>, n: nat)
    requires n <= |ok| && forall k :: 0 <= k < n ==> !ok[k]
    ensures FirstSuccess(ok, n) == None
  {
  }

  /** `k` failed attempts of `call`, each followed by a pause. */
  function Failures(call: Event, k: nat, pause: nat): (r: seq<Event>)
    ensures |r| == 2 * k
  {
    if k == 0 then [] else Failures(call, k - 1, pause) + [call, Sleep(pause)]
  }

  /**
    A bounded retry: up to `n` attempts, stopping at the first success,
    with a pause after every failure, the last one included.
   */
  function Retry(call: Event, ok: seq<bool>, n: nat, pause: nat): seq<Event>
    requires n <= |ok|
  {
    match FirstSuccess(ok, n)
    case Some(k) => Failures(call, k, pause) + [call]
    case None => Failures(call, n, pause)
  }

  lemma {:induction false} FailuresCount(call: Event, k: nat, pause: nat)
    requires !call.Sleep?
    ensures multiset(Failures(call, k, pause))[call] == k
    ensures multiset(Failures(call, k, pause))[Sleep(pause)] == k
  {
    if k > 0 {
      FailuresCount(call, k - 1, pause);
      var m := multiset(Failures(call, k - 1, pause)) + multiset([call, Sleep(pause)]);
      assert multiset(Failures(call, k, pause)) == m;
      assert multiset([call, Sleep(pause)])[call] == 1 && multiset([call, Sleep(pause)])[Sleep(pause)] == 1;
    }
  }

  /**
    Success on attempt k + 1 costs k + 1 calls and k pauses; when every
    attempt fails there are n calls and n pauses. Either way there are at
    most n calls.
   */
  lemma RetryCounts(call: Event, ok: seq<bool>, n: nat, pause: nat)
    requires n <= |ok| && !call.Sleep? && !call.Crash?
    ensures FirstSuccess(ok, n).Some? ==>
      var k := FirstSuccess(ok, n).value;
      multiset(Retry(call, ok, n, pause))[call] == k + 1 && multiset(Retry(call, ok, n, pause))[Sleep(pause)] == k
    ensures FirstSuccess(ok, n).None? ==>
      multiset(Retry(call, ok, n, pause))[call] == n && multiset(Retry(call, ok, n, pause))[Sleep(pause)] == n
    ensures multiset(Retry(call, ok, n, pause))[call] <= n
    ensures multiset(Retry(call, ok, n, pause))[Crash] == 0
  {
    match FirstSuccess(ok, n)
    case Some(k) =>
      FailuresCount(call, k, pause);
      FailuresNoCrash(call, k, pause);
    case None =>
      FailuresCount(call, n, pause);
      FailuresNoCrash(call, n, pause);
  }

  lemma {:induction false} FailuresNoCrash(call: Event, k: nat, pause: nat)
    requires !call.Crash?
    ensures multiset(Failures(call, k, pause))[Crash] == 0
  {
    if k > 0 {
      FailuresNoCrash(call, k - 1, pause);
    }
  }

  /** Which compute attempts succeed: an attempt fails when one of its four queries does. */
  function ComputeOk(faults: seq<AnalyticsFaults>): (ok: seq<bool>)
    ensures |ok| == |faults| && forall i :: 0 <= i < |faults| ==> ok[i] == FirstFault(faults[i]).None?
  {
    seq(|faults|, i requires 0 <= i < |faults| => FirstFault(faults[i]).None?)
  }

  /** Which cache or sweep attempts succeed. */
  function NoError(faults: seq<Option<Error>>): (ok: seq<bool>)
    ensures |ok| == |faults| && forall i :: 0 <= i < |faults| ==> ok[i] == faults[i].None?
  {
    seq(|faults|, i requires 0 <= i < |faults| => faults[i].None?)
  }

  /** The trace of a tick, the cache slot after it, and whether the worker panicked. */
  datatype Tick = Tick(trace: seq<Event>, cache: Option<Analyse>, crashed: bool)

  /**
    One analytics tick as the worker is written: the compute phase, then
    the set phase, which runs even when no compute attempt succeeded and
    then hands the nil result to the cache write.
   */
  function AnalyseTickSpec(db: Db, slot: Option<Analyse>, cfg: WorkerConfig, today: int, average: int,
                           computeFaults: seq<AnalyticsFaults>, setFaults: seq<Option<Error>>): Tick
    requires |computeFaults| >= cfg.retryCount && |setFaults| >= cfg.retryCount
  {
    var n := cfg.retryCount;
    var computeTrace := Retry(Compute, ComputeOk(computeFaults), n, cfg.retryInterval);
    if n == 0 then Tick([], slot, false)
    else match FirstSuccess(ComputeOk(computeFaults), n)
      case None => Tick(computeTrace + [SetCall, Crash], slot, true)
      case Some(_) =>
        var stored := FirstSuccess(NoError(setFaults), n).Some?;
        Tick(computeTrace + Retry(SetCall, NoError(setFaults), n, cfg.retryInterval),
             if stored then Some(GetAnalytics(db, today, average, NoFaults).value) else slot, false)
  }

  /**
    The analytics worker's tick, attempt by attempt. The result agrees with
    the retry reference; the worker panics exactly when there was an
    attempt and every compute attempt failed; otherwise the cache ends with
    the fresh analytics if some write succeeded and is untouched if not.
   */
  method AnalyseTick(db: Db, slot: Option<Analyse>, cfg: WorkerConfig, today: int, average: int,
                     computeFaults: seq<AnalyticsFaults>, setFaults: seq<Option<Error>>) returns (t: Tick)
    requires |computeFaults| >= cfg.retryCount && |setFaults| >= cfg.retryCount
    ensures t == AnalyseTickSpec(db, slot, cfg, today, average, computeFaults, setFaults)
    ensures t.crashed <==>
      cfg.retryCount > 0 && forall i :: 0 <= i < cfg.retryCount ==> FirstFault(computeFaults[i]).Some?
    ensures !t.crashed ==>
      t.cache == slot || t.cache == Some(GetAnalytics(db, today, average, NoFaults).value)
  {
    var n := cfg.retryCount;
    var computeTrace, analytics := ComputePhase(db, today, average, n, cfg.retryInterval, computeFaults);
    var setTrace, cache, crashed := SetPhase(analytics, slot, n, cfg.retryInterval, setFaults);
    t := Tick(computeTrace + setTrace, cache, crashed);
  }

  /** One attempt at the analytics queries: the report, or nothing when a query fails. */
  function Attempt(db: Db, today: int, average: int, faults: AnalyticsFaults): (r: Option<Analyse>)
    ensures r.Some? <==> FirstFault(faults).None?
    ensures r.Some? ==> r.value == GetAnalytics(db, today, average, NoFaults).value
  {
    FaultsOnlyFail(db, today, average, faults);
    match GetAnalytics(db, today, average, faults)
    case Failure(_) => None
    case Success(a) => Some(a)
  }

  /**
    The compute phase: up to `n` attempts at the analytics queries, a pause
    after each failed one. It yields the fresh analytics exactly when some
    attempt succeeded.
   */
  method ComputePhase(db: Db, today: int, average: int, n: nat, pause: nat,
                      computeFaults: seq<AnalyticsFaults>) returns (trace: seq<Event>, analytics: Option<Analyse>)
    requires |computeFaults| >= n
    ensures trace == Retry(Compute, ComputeOk(computeFaults), n, pause)
    ensures analytics.Some? <==> FirstSuccess(ComputeOk(computeFaults), n).Some?
    ensures analytics.Some? ==> analytics.value == GetAnalytics(db, today, average, NoFaults).value
  {
    ghost var ok := ComputeOk(computeFaults);
    trace := [];
    analytics := None;
    var i := 0;
    while i < n
      invariant 0 <= i <= n
      invariant analytics.None?
      invariant trace == Failures(Compute, i, pause)
      invariant forall k :: 0 <= k < i ==> !ok[k]
    {
      match Attempt(db, today, average, computeFaults[i])
      case None =>
        trace := trace + [Compute, Sleep(pause)];
        i := i + 1;
      case Some(a) =>
        FirstSuccessAt(ok, n, i);
        trace := trace + [Compute];
        analytics := Some(a);
        break;
    }
  }

  /**
    The set phase: up to `n` cache writes of the computed analytics, a
    pause after each failed one. A missing result makes the first write
    dereference nil, which panics the worker.
   */
  method SetPhase(analytics: Option<Analyse>, slot: Option<Analyse>, n: nat, pause: nat,
                  setFaults: seq<Option<Error>>) returns (trace: seq<Event>, cache: Option<Analyse>, crashed: bool)
    requires |setFaults| >= n
    ensures n == 0 ==> trace == [] && cache == slot && !crashed
    ensures n > 0 && analytics.None? ==> trace == [SetCall, Crash] && cache == slot && crashed
    ensures analytics.Some? ==> !crashed && trace == Retry(SetCall, NoError(setFaults), n, pause)
    ensures analytics.Some? ==>
      cache == (if FirstSuccess(NoError(setFaults), n).Some? then analytics else slot)
  {
    ghost var ok := NoError(setFaults);
    trace := [];
    cache := slot;
    crashed := false;
    var j := 0;
    while j < n
      invariant 0 <= j <= n
      invariant !crashed && cache == slot
      invariant analytics.None? ==> j == 0
      invariant trace == Failures(SetCall, j, pause)
      invariant forall k :: 0 <= k < j ==> !ok[k]
    {
      match SetAnalytics(analytics, setFaults[j])
      case NilDereference =>
        trace := trace + [SetCall, Crash];
        crashed := true;
        break;
      case SetFailed(_) =>
        trace := trace + [SetCall, Sleep(pause)];
        j := j + 1;
      case Stored(s) =>
        trace := trace + [SetCall];
        cache := s;
        break;
    }
  }

  /**
    The tick as intended: when every compute attempt fails there is nothing
    to store, so the set phase is skipped and the previous snapshot stays.
   */
  function AnalyseTickFixed(db: Db, slot: Option<Analyse>, cfg: WorkerConfig, today: int, average: int,
                            computeFaults: seq<AnalyticsFaults>, setFaults: seq<Option<Error>>): (t: Tick)
    requires |computeFaults| >= cfg.retryCount && |setFaults| >= cfg.retryCount
    ensures !t.crashed
    ensures t.cache == slot || t.cache == Some(GetAnalytics(db, today, average, NoFaults).value)
    ensures FirstSuccess(ComputeOk(computeFaults), cfg.retryCount).None? ==>
      t == Tick(Retry(Compute, ComputeOk(computeFaults), cfg.retryCount, cfg.retryInterval), slot, false)
    ensures FirstSuccess(ComputeOk(computeFaults), cfg.retryCount).Some? ==>
      t == AnalyseTickSpec(db, slot, cfg, today, average, computeFaults, setFaults)
  {
    var n := cfg.retryCount;
    var ok := ComputeOk(computeFaults);
    if FirstSuccess(ok, n).None? then Tick(Retry(Compute, ok, n, cfg.retryInterval), slot, false)
    else AnalyseTickSpec(db, slot, cfg, today, average, computeFaults, setFaults)
  }

  /**
    With the configured worker, a database outage lasting the three
    compute attempts makes the worker panic after three calls and three
    pauses, while the corrected tick keeps the old snapshot.
   */
  lemma ComputeOutageCrashesWorker(db: Db, slot: Option<Analyse>, today: int, average: int,
                                   outage: AnalyticsFaults, setFaults: seq<Option<Error>>)
    requires FirstFault(outage).Some? && |setFaults| >= 3
    ensures var t := AnalyseTickSpec(db, slot, AnalyseWorker, today, average, [outage, outage, outage], setFaults);
      t.crashed && t.trace[|t.trace| - 1] == Crash
      && multiset(t.trace)[Compute] == 3 && multiset(t.trace)[Sleep(5)] == 3
    ensures !AnalyseTickFixed(db, slot, AnalyseWorker, today, average, [outage, outage, outage], setFaults).crashed
  {
    var ok := ComputeOk([outage, outage, outage]);
    assert !ok[0] && !ok[1] && !ok[2];
    FirstSuccessNone(ok, 3);
    RetryCounts(Compute, ok, 3, 5);
  }

  /**
    One sweep tick: up to retryCount DELETE attempts, stopping at the first
    success. The table is swept when some attempt succeeds and unchanged
    otherwise; failures never end the loop early.
   */
  method SweepTick(db: Db, cfg: WorkerConfig, today: int, faults: seq<Option<Error>>)
    returns (trace: seq<Event>, after: Db)
    requires |faults| >= cfg.retryCount
    ensures trace == Retry(Clear, NoError(faults), cfg.retryCount, cfg.retryInterval)
    ensures FirstSuccess(NoError(faults), cfg.retryCount).Some? ==> after == ClearTasks(db, today, None).db
    ensures FirstSuccess(NoError(faults), cfg.retryCount).None? ==> after == db
  {
    var n := cfg.retryCount;
    var pause := cfg.retryInterval;
    ghost var ok := NoError(faults);
    trace := [];
    after := db;
    var i := 0;
    while i < n
      invariant 0 <= i <= n
      invariant trace == Failures(Clear, i, pause)
      invariant after == db
      invariant forall k :: 0 <= k < i ==> !ok[k]
    {
      var step := ClearTasks(after, today, faults[i]);
      if step.result.Failure? {
        trace := trace + [Clear, Sleep(pause)];
        i := i + 1;
      } else {
        trace := trace + [Clear];
        after := step.db;
        break;
      }
    }
  }

  /**
    A tick of either configured worker pauses at most five times 5
    seconds (two failed computes then three failed writes), far less than
    its ticker period, so a tick never outlasts the period.
   */
  lemma TickFitsInPeriod(db: Db, slot: Option<Analyse>, today: int, average: int,
                         computeFaults: seq<AnalyticsFaults>, setFaults: seq<Option<Error>>,
                         clearFaults: seq<Option<Error>>)
    requires |computeFaults| >= 3 && |setFaults| >= 3 && |clearFaults| >= 3
    ensures var t := AnalyseTickSpec(db, slot, AnalyseWorker, today, average, computeFaults, setFaults);
      multiset(t.trace)[Sleep(5)] <= 5 && multiset(t.trace)[Sleep(5)] * 5 < AnalyseWorker.interval
    ensures multiset(Retry(Clear, NoError(clearFaults), 3, 5))[Sleep(5)] <= 3
    ensures multiset(Retry(Clear, NoError(clearFaults), 3, 5))[Sleep(5)] * 5 < SweepWorker.interval
  {
    var ok := ComputeOk(computeFaults);
    RetryCounts(Compute, ok, 3, 5);
    RetryCounts(SetCall, NoError(setFaults), 3, 5);
    RetryCounts(Clear, NoError(clearFaults), 3, 5);
  }

  /** The bound is reached: two failed computes, then three failed cache writes. */
  lemma WorstTickPausesFive(db: Db, slot: Option<Analyse>, today: int, average: int, outage: AnalyticsFaults, e: Error)
    requires FirstFault(outage).Some?
    ensures var t := AnalyseTickSpec(db, slot, AnalyseWorker, today, average,
                                     [outage, outage, NoFaults], [Some(e), Some(e), Some(e)]);
      multiset(t.trace)[Sleep(5)] == 5 && !t.crashed && t.cache == slot
  {
    var computeFaults, setFaults := [outage, outage, NoFaults], [Some(e), Some(e), Some(e)];
    var ok := ComputeOk(computeFaults);
    assert !ok[0] && !ok[1] && ok[2];
    FirstSuccessAt(ok, 3, 2);
    var writes := NoError(setFaults);
    assert !writes[0] && !writes[1] && !writes[2];
    FirstSuccessNone(writes, 3);
    RetryCounts(Compute, ok, 3, 5);
    RetryCounts(SetCall, writes, 3, 5);
    var first, second := Retry(Compute, ok, 3, 5), Retry(SetCall, writes, 3, 5);
    var t := AnalyseTickSpec(db, slot, AnalyseWorker, today, average, computeFaults, setFaults);
    assert t == Tick(first + second, slot, false);
    assert multiset(first + second) == multiset(first) + multiset(second);
  }
}
