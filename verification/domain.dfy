/**
  The task records of the domain package and the conversions between the
  stored task and its request/response transfer objects.
 */
module Domain {
  import opened Wrappers
  import opened TimeLayout
  import Decimal

  /** A stored task. Timestamps other than the due date travel as text. */
  datatype Task = Task(
    id: int,
    title: string,
    description: string,
    status: string,
    priority: string,
    dueDate: Time,
    createdAt: string,
    updatedAt: string)

  /** What the HTTP layer returns: the due date rendered in the layout. */
  datatype TaskResponse = TaskResponse(
    id: int,
    title: string,
    description: string,
    status: string,
    priority: string,
    dueDate: string,
    createdAt: string,
    updatedAt: string)

  /** What a client sends to create, update or import a task. */
  datatype TaskRequest = TaskRequest(
    title: string,
    description: string,
    status: string,
    priority: string,
    dueDate: string)

  /** Query parameters of a task listing; "" means the parameter is absent. */
  datatype TaskFilter = TaskFilter(status: string, sortBy: string, priority: string, name: string)

  datatype WeeklyReport = WeeklyReport(completed: int, uncompleted: int)

  datatype Analyse = Analyse(
    done: int,
    inProgress: int,
    pending: int,
    averageTime: int,
    weekly: WeeklyReport)

  /** The parse error is discarded: text that does not parse gives the zero time. */
  function DueDateOf(text: string): Time {
    Parse(text).GetOr(ZeroTime)
  }

  /** Builds a task from a request; the id and the timestamps are left to the store. */
  function TaskFromTaskRequest(req: TaskRequest): (t: Task)
    ensures t.id == 0 && t.createdAt == "" && t.updatedAt == ""
    ensures t.title == req.title && t.description == req.description
    ensures t.status == req.status && t.priority == req.priority
    ensures Parse(req.dueDate).None? ==> t.dueDate == ZeroTime
    ensures Canonical(req.dueDate) && Parse(req.dueDate).Some? ==> Format(t.dueDate) == req.dueDate
  {
    CanonicalTextRestored(req.dueDate);
    Task(0, req.title, req.description, req.status, req.priority, DueDateOf(req.dueDate), "", "")
  }

  /** Renders a task for a response; every field but the due date is copied verbatim. */
  function TaskToTaskResponse(t: Task): (r: TaskResponse)
    ensures r.id == t.id && r.title == t.title && r.description == t.description
    ensures r.status == t.status && r.priority == t.priority
    ensures r.createdAt == t.createdAt && r.updatedAt == t.updatedAt
    ensures |r.dueDate| == 19 <==> 0 <= t.dueDate.year <= 9999
    ensures 0 <= t.dueDate.year <= 9999 ==> Canonical(r.dueDate)
  {
    FormatShape(t.dueDate);
    TaskResponse(t.id, t.title, t.description, t.status, t.priority,
                 Format(t.dueDate), t.createdAt, t.updatedAt)
  }

  /** Reads a response back into a task, parsing the due date as a request does. */
  function TaskFromTaskResponse(r: TaskResponse): (t: Task)
    ensures t.id == r.id && t.title == r.title && t.description == r.description
    ensures t.status == r.status && t.priority == r.priority
    ensures t.createdAt == r.createdAt && t.updatedAt == r.updatedAt
    ensures Parse(r.dueDate).None? ==> t.dueDate == ZeroTime
  {
    Task(r.id, r.title, r.description, r.status, r.priority, DueDateOf(r.dueDate),
         r.createdAt, r.updatedAt)
  }

  lemma CanonicalTextRestored(s: string)
    ensures Canonical(s) && Parse(s).Some? ==> Format(Parse(s).value) == s
  {
    if Canonical(s) && Parse(s).Some? {
      FormatParse(s, Parse(s).value);
    }
  }

  lemma FormatShape(t: Time)
    ensures |Format(t)| == 19 <==> 0 <= t.year <= 9999
    ensures 0 <= t.year <= 9999 ==> Canonical(Format(t))
  {
    FormatLength(t);
    if 0 <= t.year <= 9999 {
      FormatCanonical(t);
    }
  }

  /** A due date that survives the response layout unchanged. */
  predicate LayoutExact(t: Time) {
    t.loc == UTC && t.nanos == 0 && 0 <= t.year <= 9999
  }

  /** Task to response and back is the identity on UTC, whole-second, four-digit-year due dates. */
  lemma ResponseRoundTrip(t: Task)
    requires LayoutExact(t.dueDate)
    ensures TaskFromTaskResponse(TaskToTaskResponse(t)) == t
  {
    ParseFormat(t.dueDate);
  }

  /** Response to task and back is the identity when the due date text is canonical and valid. */
  lemma TextRoundTrip(r: TaskResponse)
    requires Canonical(r.dueDate) && Parse(r.dueDate).Some?
    ensures TaskToTaskResponse(TaskFromTaskResponse(r)) == r
  {
    FormatParse(r.dueDate, Parse(r.dueDate).value);
  }

  /**
    A request whose due date does not parse is accepted anyway and comes
    back with the zero time's rendering.
   */
  lemma UnparseableDueDate(req: TaskRequest)
    requires Parse(req.dueDate).None?
    ensures TaskToTaskResponse(TaskFromTaskRequest(req)).dueDate == "0001-01-01 00:00:00"
  {
    ZeroTimeText();
  }
}
