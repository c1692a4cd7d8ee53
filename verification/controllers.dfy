/**
  The REST handlers for tasks, with the HTTP framework reduced to its
  inputs (query parameters, path id, decoded JSON body) and its output (a
  status code and a JSON body). Each handler decides which facade call to
  make, if any, and turns the facade's reply into a response.
 */
module Controllers {
  import opened Wrappers
  import opened Decimal
  import opened Domain
  import opened Repository
  import opened Service
  import opened TaskQuery

  /** A request body after JSON decoding into a pointer: invalid JSON (an empty body included), `null`, or a value. */
  datatype Decoded<T> = Malformed | Null | Value(v: T)

  /** The JSON the handler writes. */
  datatype Body =
    | ErrorBody(error: string)                            // {"error": ...}
    | MessageBody(message: string)                        // {"message": ...}
    | IdBody(id: string)                                  // a JSON string
    | TaskBody(task: TaskResponse)
    | ListBody(list: Option<seq<Option<TaskResponse>>>)   // None is `null`; a None entry is `null`
    | AnalyticsBody(analyse: Analyse)
    | NoBody                                              // the handler wrote nothing

  /**
    What the client sees. `Dropped`: the handler panicked; with no
    recovering middleware the HTTP server closes the connection without a
    response.
   */
  datatype Response = Response(status: int, body: Body) | Dropped

  /** The facade call the handler made, if any, the state after it, and the response. */
  datatype Exchange = Exchange(call: Option<Call>, state: State, response: Response)

  const InvalidInput: Body := ErrorBody("Invalid input")

  /** A query parameter, or "" when absent. */
  function Param(query: map<string, string>, key: string): string {
    if key in query then query[key] else ""
  }

  /** Makes `call` through the facade and renders its reply with `render`. */
  function Through(s: State, call: Call, env: Env, render: Reply -> Response): (x: Exchange)
    requires call.ImportCall? ==> |env.io.inserts| >= |call.tasks|
    ensures x.call == Some(call) && x.state == Serve(s, call, env).state
  {
    var out := Serve(s, call, env);
    Exchange(Some(call), out.state, render(out.reply))
  }

  /** A response written without calling the facade. */
  function Refuse(s: State, body: Body): (x: Exchange)
    ensures x.call.None? && x.state == s && x.response == Response(400, body)
  {
    Exchange(None, s, Response(400, body))
  }

  // ------------------------------------------------------------- GetTasks

  function FilterOf(query: map<string, string>): TaskFilter {
    TaskFilter(Param(query, "status"), Param(query, "sort_by"), Param(query, "priority"), Param(query, "name"))
  }

  /** The listing rendered by appending to a nil slice: an empty listing stays `null`. */
  function Listing(ts: seq<Task>): (b: Body)
    ensures |ts| == 0 ==> b == ListBody(None)
    ensures |ts| > 0 ==>
      b.ListBody? && b.list.Some? && |b.list.value| == |ts|
      && forall i :: 0 <= i < |ts| ==> b.list.value[i] == Some(TaskToTaskResponse(ts[i]))
  {
    if |ts| == 0 then ListBody(None)
    else ListBody(Some(seq(|ts|, i requires 0 <= i < |ts| => Some(TaskToTaskResponse(ts[i])))))
  }

  function RenderList(reply: Reply): Response {
    match reply
    case Listed(ts) => Response(200, Listing(ts))
    case _ => Response(500, ErrorBody("Failed to get tasks"))
  }

  /** A name together with a recognised sort_by: the statement the database rejects. */
  predicate SortedNameSearch(query: map<string, string>) {
    Param(query, "name") != "" && DirectionOf(Param(query, "sort_by")).Some?
  }

  /**
    GET /tasks: the four query parameters go into the filter verbatim; a
    database error, including the rejected statement of a sorted name
    search, is a 500; otherwise 200 with the matching tasks, `null` when
    there are none.
   */
  function GetTasksHandler(s: State, env: Env, query: map<string, string>): (x: Exchange)
    ensures x.call == Some(GetTasksCall(FilterOf(query))) && x.state == s
    ensures x.call.value.filter.status == Param(query, "status") && x.call.value.filter.sortBy == Param(query, "sort_by")
      && x.call.value.filter.priority == Param(query, "priority") && x.call.value.filter.name == Param(query, "name")
    ensures env.fault.Some? || SortedNameSearch(query) <==> x.response == Response(500, ErrorBody("Failed to get tasks"))
    ensures env.fault.None? && !SortedNameSearch(query) ==>
      x.response == Response(200, Listing(Select(s.db, FilterOf(query))))
  {
    Through(s, GetTasksCall(FilterOf(query)), env, RenderList)
  }

  /** With no filter parameters and an empty table the listing is `null`, not `[]`. */
  lemma EmptyListingIsNull(s: State, env: Env)
    requires env.fault.None? && s.db.rows == []
    ensures GetTasksHandler(s, env, map[]).response == Response(200, ListBody(None))
  {
  }

  /** Every task matching the filter appears in the listing, rendered, unless the statement is rejected. */
  lemma ListingShowsMatches(s: State, env: Env, query: map<string, string>, t: Task)
    requires env.fault.None? && t in s.db.rows && Matches(t, FilterOf(query))
    ensures var b := GetTasksHandler(s, env, query).response.body;
      SortedNameSearch(query) <==> b == ErrorBody("Failed to get tasks")
    ensures var b := GetTasksHandler(s, env, query).response.body;
      !SortedNameSearch(query) ==> b.ListBody? && b.list.Some? && Some(TaskToTaskResponse(t)) in b.list.value
  {
    var ts := Select(s.db, FilterOf(query));
    assert multiset(ts)[t] == multiset(s.db.rows)[t];
    assert t in ts;
    ListingContains(ts, t);
  }

  /** A listed task is rendered somewhere in the listing. */
  lemma ListingContains(ts: seq<Task>, t: Task)
    requires t in ts
    ensures Listing(ts).ListBody? && Listing(ts).list.Some? && Some(TaskToTaskResponse(t)) in Listing(ts).list.value
  {
    var i :| 0 <= i < |ts| && ts[i] == t;
    assert Listing(ts).list.value[i] == Some(TaskToTaskResponse(t));
  }

  // ----------------------------------------------------------- CreateTask

  function RenderCreated(reply: Reply): Response {
    match reply
    case Created(id) => Response(201, IdBody(id))
    case _ => Response(500, ErrorBody("Failed to create task"))
  }

  /**
    POST /tasks: invalid JSON is a 400; a `null` body dereferences nil in
    the conversion and the connection is dropped; otherwise the converted
    request is created, 201 with the new id or 500.
   */
  function CreateTaskHandler(s: State, env: Env, body: Decoded<TaskRequest>): (x: Exchange)
    ensures body.Malformed? ==> x == Exchange(None, s, Response(400, InvalidInput))
    ensures body.Null? ==> x == Exchange(None, s, Dropped)
    ensures body.Value? ==> x.call == Some(CreateCall(TaskFromTaskRequest(body.v)))
    ensures body.Value? && env.fault.Some? ==> x.state == s && x.response == Response(500, ErrorBody("Failed to create task"))
    ensures body.Value? ==> x.state == Serve(s, x.call.value, env).state
    ensures body.Value? && env.fault.None? ==>
      |x.state.db.rows| == |s.db.rows| + 1
      && x.response == Response(201, IdBody(Itoa(x.state.db.rows[|s.db.rows|].id)))
    ensures body.Value? && env.fault.None? ==>
      x.state.db.rows[..|s.db.rows|] == s.db.rows && x.state.cache == s.cache
      && SameContent(x.state.db.rows[|s.db.rows|], TaskFromTaskRequest(body.v))
  {
    match body
    case Malformed => Refuse(s, InvalidInput)
    case Null => Exchange(None, s, Dropped)
    case Value(req) => Through(s, CreateCall(TaskFromTaskRequest(req)), env, RenderCreated)
  }

  // ----------------------------------------------------------- UpdateTask

  function RenderUpdated(reply: Reply): Response {
    match reply
    case Changed(t) => Response(200, TaskBody(TaskToTaskResponse(t)))
    case _ => Response(500, ErrorBody("Failed to update task"))
  }

  /**
    PUT /tasks/{id}: an id that is not a decimal int64 is a 400 before the
    body is read; then invalid JSON is a 400 and `null` drops the
    connection; otherwise the converted request, carrying the parsed id,
    is updated: 200 with the stored row, or 500 on any error, a missing id
    included.
   */
  function UpdateTaskHandler(s: State, env: Env, idText: string, body: Decoded<TaskRequest>): (x: Exchange)
    ensures Atoi(idText).Failure? ==> x == Exchange(None, s, Response(400, InvalidInput))
    ensures Atoi(idText).Success? && body.Malformed? ==> x == Exchange(None, s, Response(400, InvalidInput))
    ensures Atoi(idText).Success? && body.Null? ==> x == Exchange(None, s, Dropped)
    ensures Atoi(idText).Success? && body.Value? ==>
      x.call == Some(UpdateCall(TaskFromTaskRequest(body.v).(id := Atoi(idText).value)))
    ensures x.call.Some? ==> x.call.value.UpdateCall? && Success(x.call.value.task.id) == Atoi(idText)
    ensures x.call.Some? ==> x.state == Serve(s, x.call.value, env).state
    ensures x.call.Some? && env.fault.None? && HasId(s.db.rows, Atoi(idText).value) ==>
      x.response.Response? && x.response.status == 200 && x.response.body.TaskBody? && x.response.body.task.id == Atoi(idText).value
    ensures x.call.Some? && env.fault.None? && HasId(s.db.rows, Atoi(idText).value) ==>
      x.response == Response(200, TaskBody(TaskToTaskResponse(UpdateTask(s.db, x.call.value.task, None).result.value)))
    ensures x.call.Some? && (env.fault.Some? || !HasId(s.db.rows, Atoi(idText).value)) ==>
      x.state == s && x.response == Response(500, ErrorBody("Failed to update task"))
  {
    match Atoi(idText)
    case Failure(_) => Refuse(s, InvalidInput)
    case Success(id) =>
      match body
      case Malformed => Refuse(s, InvalidInput)
      case Null => Exchange(None, s, Dropped)
      case Value(req) => Through(s, UpdateCall(TaskFromTaskRequest(req).(id := id)), env, RenderUpdated)
  }

  // ----------------------------------------------------------- DeleteTask

  function RenderDeleted(reply: Reply): Response {
    match reply
    case Removed => Response(200, NoBody)
    case _ => Response(500, ErrorBody("Failed to delete task"))
  }

  /**
    DELETE /tasks/{id}: the raw path text goes to the store unchecked, so
    text that is not an integer becomes a database error, a 500; success
    writes nothing, which the server sends as an empty 200.
   */
  function DeleteTaskHandler(s: State, env: Env, idText: string): (x: Exchange)
    ensures x.call == Some(DeleteCall(idText))
    ensures env.fault.None? && Atoi(idText).Success? <==> x.response == Response(200, NoBody)
    ensures x.response != Response(200, NoBody) ==>
      x.response == Response(500, ErrorBody("Failed to delete task")) && x.state == s
  {
    Through(s, DeleteCall(idText), env, RenderDeleted)
  }

  /** A non-numeric id reaches the database and is reported as a server error, never as a 400. */
  lemma NonNumericDeleteIsServerError(s: State, env: Env)
    ensures DeleteTaskHandler(s, env, "abc").response == Response(500, ErrorBody("Failed to delete task"))
  {
    assert !IsDigit('a');
    assert Atoi("abc").Failure?;
  }

  // --------------------------------------------------------- GetAnalytics

  function RenderAnalytics(reply: Reply): Response {
    match reply
    case Computed(a) => Response(200, AnalyticsBody(a))
    case _ => Response(500, ErrorBody("Failed to get analytics"))
  }

  /** GET /analytics: the cached snapshot or fresh figures, 500 on any error. */
  function GetAnalyticsHandler(s: State, env: Env): (x: Exchange)
    ensures x.call == Some(AnalyticsCall) && x.state == s
    ensures env.cacheFault.None? && s.cache.Some? ==> x.response == Response(200, AnalyticsBody(s.cache.value))
    ensures env.cacheFault.Some? ==> x.response == Response(500, ErrorBody("Failed to get analytics"))
    ensures env.cacheFault.None? && s.cache.None? ==>
      (x.response == Response(200, AnalyticsBody(GetAnalytics(s.db, env.today, env.average, NoFaults).value)) <==> FirstFault(env.analyticsFaults).None?)
  {
    Through(s, AnalyticsCall, env, RenderAnalytics)
  }

  // ---------------------------------------------------------- ImportTasks

  function RenderImported(reply: Reply): Response {
    match reply
    case Imported => Response(200, MessageBody("Tasks imported successfully"))
    case _ => Response(500, ErrorBody("Failed to import tasks"))
  }

  predicate AllPresent<A>(reqs: seq<Option<A>>) {
    forall i :: 0 <= i < |reqs| ==> reqs[i].Some?
  }

  /**
    POST /tasks/import: invalid JSON, a `null` or empty array, or any
    `null` element is a 400 and nothing is imported; otherwise exactly one
    converted task per element, in order, goes to the import, and the
    reply is 200 or 500.
   */
  method ImportTasksHandler(s: State, env: Env, body: Decoded<seq<Option<TaskRequest>>>) returns (x: Exchange)
    requires body.Value? ==> |env.io.inserts| >= |body.v|
    ensures body.Malformed? ==> x == Exchange(None, s, Response(400, InvalidInput))
    ensures body.Null? || (body.Value? && |body.v| == 0) ==>
      x == Exchange(None, s, Response(400, ErrorBody("No tasks provided")))
    ensures body.Value? && |body.v| > 0 && !AllPresent(body.v) ==> x == Exchange(None, s, Response(400, InvalidInput))
    ensures x.call.Some? <==> body.Value? && |body.v| > 0 && AllPresent(body.v)
    ensures x.call.Some? ==>
      x.call.value.ImportCall? && |x.call.value.tasks| == |body.v|
      && forall i :: 0 <= i < |body.v| ==> x.call.value.tasks[i] == TaskFromTaskRequest(body.v[i].value)
    ensures x.call.Some? ==> x.state == Serve(s, x.call.value, env).state
    ensures x.call.Some? ==> x.response == RenderImported(Serve(s, x.call.value, env).reply)
  {
    match body
    case Malformed => return Refuse(s, InvalidInput);
    case Null => return Refuse(s, ErrorBody("No tasks provided"));
    case Value(reqs) =>
      if |reqs| == 0 {
        return Refuse(s, ErrorBody("No tasks provided"));
      }
      var tasks := ConvertAll(reqs, TaskFromTaskRequest);
      if tasks.None? {
        return Refuse(s, InvalidInput);
      }
      var out := Serve(s, ImportCall(tasks.value), env);
      x := Exchange(Some(ImportCall(tasks.value)), out.state, RenderImported(out.reply));
  }

  /** Converts the elements in order, giving up at the first `null` one. */
  method ConvertAll<A, B>(reqs: seq<Option<A>>, convert: A -> B) returns (tasks: Option<seq<B>>)
    ensures tasks.Some? <==> AllPresent(reqs)
    ensures tasks.Some? ==>
      |tasks.value| == |reqs| && forall i :: 0 <= i < |reqs| ==> tasks.value[i] == convert(reqs[i].value)
  {
    var done: seq<B> := [];
    var i := 0;
    while i < |reqs|
      invariant 0 <= i <= |reqs|
      invariant forall k :: 0 <= k < i ==> reqs[k].Some?
      invariant |done| == i && forall k :: 0 <= k < i ==> done[k] == convert(reqs[k].value)
    {
      if reqs[i].None? {
        return None;
      }
      done := done + [convert(reqs[i].value)];
      i := i + 1;
    }
    return Some(done);
  }

  /** The import answers 200 with the success message exactly when the transaction reports no error; any error is a 500. */
  lemma ImportAnswer(s: State, env: Env, tasks: seq<Task>)
    requires |env.io.inserts| >= |tasks|
    ensures var r := RenderImported(Serve(s, ImportCall(tasks), env).reply);
      (r == Response(200, MessageBody("Tasks imported successfully")) <==>
       ImportTasks(s.db, tasks, env.now, env.io).result.Success?)
      && (r != Response(200, MessageBody("Tasks imported successfully")) ==>
          r == Response(500, ErrorBody("Failed to import tasks")))
  {
  }

  /**
    A batch whose INSERT fails, with a clean rollback, is answered 200
    "Tasks imported successfully" although nothing was stored.
   */
  lemma FailedInsertAnswersSuccess(s: State, env: Env, t: Task)
    requires env.io == ImportIo(None, [Some(DbError("insert"))], None, None)
    ensures var out := Serve(s, ImportCall([t]), env);
      RenderImported(out.reply) == Response(200, MessageBody("Tasks imported successfully"))
      && out.state == s && out.state.db != AppendAll(s.db, [t], env.now)
  {
  }

  // ---------------------------------------------------------- ExportTasks

  /**
    GET /tasks/export: the list is made with length n and then appended
    to, so it holds n `null` entries followed by the n rendered tasks.
   */
  method ExportTasksHandler(s: State, env: Env) returns (x: Exchange)
    ensures x.call == Some(ExportCall) && x.state == s
    ensures env.fault.Some? <==> x.response == Response(500, ErrorBody("Failed to export tasks"))
    ensures env.fault.None? ==>
      x.response.Response? && x.response.status == 200 && x.response.body.ListBody? && x.response.body.list.Some?
    ensures env.fault.None? && x.response.Response? && x.response.body.ListBody? && x.response.body.list.Some? ==>
      ExportShape(x.response.body.list.value, s.db.rows)
  {
    var out := Serve(s, ExportCall, env);
    match out.reply
    case Exported(tasks) =>
      var list := ExportList(tasks);
      x := Exchange(Some(ExportCall), out.state, Response(200, ListBody(Some(list))));
    case _ =>
      x := Exchange(Some(ExportCall), out.state, Response(500, ErrorBody("Failed to export tasks")));
  }

  /** The shape of the export list for `rows`: n `null` entries, then every row rendered in order. */
  predicate ExportShape(list: seq<Option<TaskResponse>>, rows: seq<Task>) {
    && |list| == 2 * |rows|
    && (forall i :: 0 <= i < |rows| ==> list[i].None?)
    && (forall i :: 0 <= i < |rows| ==> list[|rows| + i] == Some(TaskToTaskResponse(rows[i])))
  }

  /** Builds the export list the way the handler does: made with length n, then appended to. */
  method ExportList(tasks: seq<Task>) returns (list: seq<Option<TaskResponse>>)
    ensures ExportShape(list, tasks)
  {
    list := seq(|tasks|, _ => None);
    var i := 0;
    while i < |tasks|
      invariant 0 <= i <= |tasks|
      invariant |list| == |tasks| + i
      invariant forall k :: 0 <= k < |tasks| ==> list[k].None?
      invariant forall k :: 0 <= k < i ==> list[|tasks| + k] == Some(TaskToTaskResponse(tasks[k]))
    {
      list := list + [Some(TaskToTaskResponse(tasks[i]))];
      i := i + 1;
    }
  }

  /** The export list as intended: made with capacity n, so it holds only the rendered tasks. */
  function ExportListFixed(tasks: seq<Task>): (list: seq<Option<TaskResponse>>)
    ensures |list| == |tasks| && forall i :: 0 <= i < |list| ==> list[i].Some?
  {
    seq(|tasks|, i requires 0 <= i < |tasks| => Some(TaskToTaskResponse(tasks[i])))
  }

  /** The as-written list is the intended list behind n `null` entries. */
  lemma ExportPaddedWithNulls(tasks: seq<Task>, list: seq<Option<TaskResponse>>)
    requires ExportShape(list, tasks)
    ensures forall i :: 0 <= i < |tasks| ==> list[i].None?
    ensures list[|tasks|..] == ExportListFixed(tasks)
  {
    var n := |tasks|;
    forall i | 0 <= i < n
      ensures list[n..][i] == ExportListFixed(tasks)[i]
    {
      assert list[n..][i] == list[n + i];
    }
  }

  /** Exporting one task answers a two-entry array whose first entry is `null`. */
  lemma ExportOfOneTask(t: Task, list: seq<Option<TaskResponse>>)
    requires ExportShape(list, [t])
    ensures list == [None, Some(TaskToTaskResponse(t))]
    ensures list != ExportListFixed([t])
  {
    assert [t][0] == t && list[1] == list[|[t]| + 0];
    assert list[0] == None && list[1] == Some(TaskToTaskResponse(t));
  }

  /** The intended list reads back into the rows, one entry per row. */
  lemma ExportFixedReadsBack(rows: seq<Task>)
    requires forall i :: 0 <= i < |rows| ==> LayoutExact(rows[i].dueDate)
    ensures |ExportListFixed(rows)| == |rows|
    ensures forall i :: 0 <= i < |rows| ==> TaskFromTaskResponse(ExportListFixed(rows)[i].value) == rows[i]
  {
    forall i | 0 <= i < |rows|
      ensures TaskFromTaskResponse(ExportListFixed(rows)[i].value) == rows[i]
    {
      ResponseRoundTrip(rows[i]);
    }
  }

  /** The entries of a list that are not `null`, in order. */
  function Present(list: seq<Option<TaskResponse>>): seq<TaskResponse> {
    if |list| == 0 then []
    else (if list[0].Some? then [list[0].value] else []) + Present(list[1..])
  }

  lemma {:induction false} PresentAppend(a: seq<Option<TaskResponse>>, b: seq<Option<TaskResponse>>)
    ensures Present(a + b) == Present(a) + Present(b)
  {
    if |a| > 0 {
      assert (a + b)[0] == a[0] && (a + b)[1..] == a[1..] + b;
      PresentAppend(a[1..], b);
      assert Present(a + b) == (if a[0].Some? then [a[0].value] else []) + Present(a[1..] + b);
    } else {
      assert a + b == b;
    }
  }

  lemma {:induction false} PresentOfNulls(a: seq<Option<TaskResponse>>)
    requires forall i :: 0 <= i < |a| ==> a[i].None?
    ensures Present(a) == []
  {
    if |a| > 0 {
      PresentOfNulls(a[1..]);
    }
  }

  lemma {:induction false} PresentOfValues(a: seq<Option<TaskResponse>>)
    requires forall i :: 0 <= i < |a| ==> a[i].Some?
    ensures |Present(a)| == |a| && forall i :: 0 <= i < |a| ==> Present(a)[i] == a[i].value
  {
    if |a| > 0 {
      PresentOfValues(a[1..]);
    }
  }

  /**
    The exported list reads back into the table: dropping the `null`
    entries and converting each remaining one back gives the stored rows,
    in order, when their due dates are whole-second UTC times in years 0
    to 9999.
   */
  lemma ExportReadsBack(rows: seq<Task>, list: seq<Option<TaskResponse>>)
    requires ExportShape(list, rows)
    requires forall i :: 0 <= i < |rows| ==> LayoutExact(rows[i].dueDate)
    ensures |Present(list)| == |rows|
    ensures forall i :: 0 <= i < |rows| ==> TaskFromTaskResponse(Present(list)[i]) == rows[i]
  {
    PresentOfExport(rows, list);
    forall i | 0 <= i < |rows|
      ensures TaskFromTaskResponse(Present(list)[i]) == rows[i]
    {
      ResponseRoundTrip(rows[i]);
    }
  }

  /** Dropping the `null` half of the export list leaves the rendered rows, in order. */
  lemma PresentOfExport(rows: seq<Task>, list: seq<Option<TaskResponse>>)
    requires ExportShape(list, rows)
    ensures |Present(list)| == |rows|
    ensures forall i :: 0 <= i < |rows| ==> Present(list)[i] == TaskToTaskResponse(rows[i])
  {
    var n := |rows|;
    var nulls, values := list[..n], list[n..];
    ExportHalves(list, rows);
    assert list == nulls + values;
    PresentAppend(nulls, values);
    PresentOfNulls(nulls);
    assert Present(list) == Present(values);
    PresentOfValues(values);
    forall i | 0 <= i < n
      ensures Present(list)[i] == TaskToTaskResponse(rows[i])
    {
      assert Present(values)[i] == values[i].value;
    }
  }

  /** The two halves of the export list: `null`s, then the rendered rows. */
  lemma ExportHalves(list: seq<Option<TaskResponse>>, rows: seq<Task>)
    requires ExportShape(list, rows)
    ensures forall i :: 0 <= i < |rows| ==> list[..|rows|][i].None?
    ensures |list[|rows|..]| == |rows|
    ensures forall i :: 0 <= i < |rows| ==> list[|rows|..][i] == Some(TaskToTaskResponse(rows[i]))
  {
    var n := |rows|;
    forall i | 0 <= i < n
      ensures list[n..][i] == Some(TaskToTaskResponse(rows[i]))
    {
      assert list[n..][i] == list[n + i];
    }
  }
}
