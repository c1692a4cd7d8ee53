# Task service with cached analytics — a Dafny model

This project models the task-management core of the `skillsrock` service, written in Go:

- the task repository: SQL statements over a tasks table, the analytics aggregation, the single-key analytics cache and the import transaction;
- the task service: a facade over the repository, and two background workers that retry with a bound (analytics refresh every 6 hours, stale-task sweep every 24 hours);
- the task records and their conversions, including the fixed due-date layout `2006-01-02 15:04:05`;
- the decisions the REST handlers make: validation, the facade call and the status code.

The model is pure Dafny:

- The table is a `seq<Task>` with the id sequence's next value.
- The cache is an `Option<Analyse>`.
- Every database or cache call takes its outcome (`Option<Error>`) as a parameter.
- The database clock is a parameter: `now` for timestamps, `today` as a day number.
- One worker tick is a sequential trace of calls, pauses and a possible panic, computed from the outcome of every attempt.

The modules follow the program's layers. Each one imports only the ones before it:

- `Wrappers`: `Option` and `Result`.
- `Decimal`: decimal text, `strconv.Atoi` with its 64-bit range.
- `TimeLayout`: Go's `time.Format` and `time.Parse` for the one layout the code uses, including Parse's leniencies (a one-digit hour, extra spaces, a fractional second).
- `Domain`: the records and their conversions.
- `TaskQuery`: the listing's SQL text builder and a decoder for its output.
- `Repository`, `Service`, `Controllers`.

## Model

| member | source | states |
|---|---|---|
| Decimal.Atoi | internal/controllers/rest/v1/task.go:98-102 | Empty text or a bare sign is a syntax error. All-digit text (after an optional sign) reads as its signed value when that lies in the signed 64-bit range, and is a range error beyond. Otherwise the digits are scanned left to right: if the digits before the first non-digit already exceed 2^64−1 the answer is a range error, else a syntax error. An accepted value is always within the signed 64-bit range. |
| Decimal.FastAtoi | internal/controllers/rest/v1/task.go:98-102 | The short-text path (1 to 18 characters) gives the same three answers as the general parser: no digits is a syntax error, all digits is the signed value, and a non-digit is a syntax error because 18 digits never overflow. |
| Decimal.ParseInt | internal/controllers/rest/v1/task.go:98-102 | The general path: no digits is a syntax error; all digits is the signed value or a range error outside the signed 64-bit range; a non-digit is a range error when the digits before it already exceed 2^64−1, and a syntax error otherwise. |
| Decimal.FastPathAgrees | internal/controllers/rest/v1/task.go:98-102 | On short text the fast path and the general parser give the same answer. |
| Decimal.OverflowBeforeGarbage | internal/controllers/rest/v1/task.go:98-102 | Twenty digits starting with 2 or more, followed by a non-digit, are a range error, not a syntax error: the scan overflows before it reaches the bad character. |
| Decimal.AtoiOfItoa | internal/repository/task.go:23-33 | Every 64-bit id the store hands back as decimal text parses back to the same number. |
| TimeLayout.Parse | internal/domain/task.go:36 | A parsed due date is a valid UTC calendar time with a year between 0 and 9999. |
| TimeLayout.FormatLength | internal/domain/task.go:53 | The rendered due date is 19 characters exactly when the year is between 0 and 9999. |
| TimeLayout.FormatCanonical | internal/domain/task.go:53 | For years 0 to 9999 the rendering has the zero-padded `dddd-dd-dd dd:dd:dd` shape. |
| TimeLayout.ParseFormat | internal/domain/task.go:53-60 | Parsing a rendered UTC whole-second time gives back that time. |
| TimeLayout.FormatParse | internal/domain/task.go:36-53 | Rendering a parsed canonical-shape text gives back the same text. |
| TimeLayout.ZeroTimeText | internal/domain/task.go:36 | The zero time renders as `0001-01-01 00:00:00`. |
| TimeLayout.LenientHour | internal/domain/task.go:36 | Dropping the hour's leading zero still parses to the same time, and rendering it does not give back the input. |
| TimeLayout.LenientFraction | internal/domain/task.go:36 | A trailing `.d` fraction is accepted as d tenths of a second. Rendering drops it. |
| Domain.TaskFromTaskRequest | internal/domain/task.go:35-44 | Title, description, status and priority are copied. The id is 0 and the timestamps are empty. An unparseable due date becomes the zero time. A canonical valid due date renders back to its text. |
| Domain.TaskToTaskResponse | internal/domain/task.go:46-57 | Id, title, description, status, priority and both timestamps are copied verbatim. The due date text is 19 characters exactly for years 0 to 9999, and then it has the canonical shape. |
| Domain.TaskFromTaskResponse | internal/domain/task.go:59-71 | Every field except the due date is copied. An unparseable due date becomes the zero time. |
| Domain.ResponseRoundTrip | internal/domain/task.go:46-71 | Task to response and back is the identity when the due date is UTC, whole seconds, and in years 0 to 9999. |
| Domain.TextRoundTrip | internal/domain/task.go:46-71 | Response to task and back is the identity when the due date text is canonical and valid. |
| Domain.UnparseableDueDate | internal/domain/task.go:35-53 | A request whose due date does not parse is accepted, and its due date then renders as `0001-01-01 00:00:00`. |
| TaskQuery.BuildQuery | internal/repository/task.go:35-73 | The listing query always starts with the fixed SELECT ... WHERE 1=1 prefix. The bound arguments are `[name]` exactly when a name is given, and empty otherwise. |
| TaskQuery.DecodeBuildFixed | internal/repository/task.go:36-67 | The query text determines which recognised status, priority and sort were applied, and whether a name was given. Unrecognised values append nothing. |
| TaskQuery.TextDependsOnlyOnShape | internal/repository/task.go:71-79 | The name is never spliced into the SQL text. Filters with the same recognised parts give the same text. |
| TaskQuery.TextDeterminesShape | internal/repository/task.go:36-67 | Two filters give the same text exactly when their recognised parts agree. |
| TaskQuery.AsWrittenAgreesWithoutNameAndSort | internal/repository/task.go:60-73 | Without both a name and a recognised sort, the as-written text equals the corrected one. |
| TaskQuery.NamePredicateAfterOrderBy | internal/repository/task.go:60-73 | With a name and a recognised sort, ` AND title = $1` follows `ORDER BY due_date ...`, and the text is not a well-formed listing query. |
| TaskQuery.SortedNameSearchText | internal/repository/task.go:60-73 | sort_by=low with name "report" produces `... WHERE 1=1 ORDER BY due_date ASC AND title = $1` with arguments `["report"]`. |
| TaskQuery.BuildQueryFixed | internal/repository/task.go:35-73 | The corrected builder has the same prefix and arguments, with the name predicate before ORDER BY. |
| Repository.CreateTask | internal/repository/task.go:23-33 | A fault leaves the table unchanged and is returned. Otherwise exactly one row is appended, carrying the task's content, a fresh id distinct from every existing one, and the database's timestamps. The returned text is that row's id in decimal, and it parses back to the id. |
| Repository.GetTasks | internal/repository/task.go:35-98 | A fault is returned. Without one, the listing succeeds exactly when there is no name or no recognised sort; a sorted name search is rejected with the syntax error. A successful result holds each matching row as often as the table does and nothing else, sorted by due date in the requested direction or in table order without a recognised sort. Outside the sorted name search it equals the corrected listing. |
| Repository.QueryParses | internal/repository/task.go:60-82 | The as-written statement is well-formed exactly when there is no name or no recognised sort. |
| Repository.Select | internal/repository/task.go:35-98 | The rows a well-formed listing returns: each matching row as often as the table holds it, sorted by due date in the requested direction, or the matching rows in table order without a recognised sort. |
| Repository.GetTasksFixed | internal/repository/task.go:35-98 | Corrected: only a fault makes the listing fail; the result has the matching rows, sorted when a sort is recognised. |
| Repository.SortedNameSearchFails | internal/repository/task.go:60-82 | A name search with a recognised sort fails with the syntax error, while the corrected listing succeeds. |
| Repository.OrderKeyMeaning | internal/repository/task.go:60-67 | "low" lists the earliest due date first and "high" the latest first. |
| Repository.UnfilteredListing | internal/repository/task.go:35-98 | A filter with no recognised part lists the whole table in table order. |
| Repository.UpdateTask | internal/repository/task.go:100-110 | A missing id is a no-rows error and changes nothing. Otherwise only the rows with that id change, and only in title, description, status, priority and due date. The updated row is returned. |
| Repository.DeleteTask | internal/repository/task.go:112-119 | Non-integer id text is a database error. Otherwise every row with that id is removed and all other rows are kept. |
| Repository.DeleteMissingIsNoOp | internal/repository/task.go:112-119 | Deleting an id no row carries succeeds and leaves the table as it was. |
| Repository.ClearTasks | internal/repository/task.go:121-127 | Exactly the rows that are not done and are due before today − 7 days are removed. Every other row stays. |
| Repository.ClearTasksIdempotent | internal/repository/task.go:121-127 | A second sweep on the same day removes nothing. |
| Repository.ClearTasksKeepsDone | internal/repository/task.go:121-127 | A done task survives the sweep however old it is. |
| Repository.GetAnalytics | internal/repository/task.go:147-209 | The first failing query's error is returned, and with no failing query the report comes back. Done, in_progress and pending are the numbers of rows with that status. Weekly completed is the number of done rows due on or after today − 7 days, and uncompleted the number of other rows due since then. The status counts plus the unknown-status count equal the table size. The average is 0 when nothing is done. |
| Repository.CountIsWhere | internal/repository/task.go:151-193 | The COUNT(*) of a condition is the number of row positions meeting it. |
| Repository.FaultsOnlyFail | internal/repository/task.go:147-209 | A failing query makes the whole report fail with its error. Otherwise the report does not depend on the faults. |
| Repository.StatusCountsBound | internal/repository/task.go:165-193 | The done, in_progress, pending and other-status counts partition the table. |
| Repository.WeeklySplit | internal/repository/task.go:151-163 | Completed plus uncompleted is the number of tasks due on or after today − 7 days. |
| Repository.AnalyticsExample | internal/repository/task.go:147-209 | Take two done tasks (due 3 and 10 days ago), a pending task (due 2 days ago) and an in-progress task (due 9 days ago). The result is done=2, in_progress=1, pending=1, weekly completed=1, uncompleted=1. |
| Repository.GetCachedAnalytics | internal/repository/task.go:129-145 | A cache error other than a miss is returned without computing. A miss computes afresh from the table and writes nothing back. A hit returns the stored snapshot. |
| Repository.SetAnalytics | internal/repository/task.go:211-222 | A nil snapshot is dereferenced before the cache is reached. A cache fault is returned. Otherwise the slot holds the snapshot. |
| Repository.SetThenGet | internal/repository/task.go:129-222 | After a successful set, a read returns exactly the stored snapshot, whatever the table holds. |
| Repository.FirstFailedInsert | internal/repository/task.go:229-235 | Finds the first failing INSERT of the batch, with every earlier one succeeding. |
| Repository.AppendAll | internal/repository/task.go:224-244 | A committed batch appends one row per task, in order, with consecutive fresh ids, and keeps ids unique. |
| Repository.ImportTasks | internal/repository/task.go:224-244 | As written: either nothing or the whole batch persists, and any reported error leaves the table as it was. A BEGIN failure is returned. After an INSERT failure the table is unchanged and the rollback's result is returned. When every INSERT succeeds the outcome is the corrected one: the COMMIT error, or the batch appended. |
| Repository.ImportFailureReportedAsSuccess | internal/repository/task.go:230-235 | A failed insert followed by a clean rollback reports success, with nothing imported. |
| Repository.ImportTasksFixed | internal/repository/task.go:224-244 | Success exactly when begin, every insert and commit succeed, and then the whole batch is appended. On any failure the table is unchanged and the failing step's error is returned: BEGIN's, the first failing INSERT's, or COMMIT's. |
| Repository.ExportTasks | internal/repository/task.go:246-267 | A fault is returned. Otherwise the result is every row, in table order. |
| Repository.ImportThenExport | internal/repository/task.go:224-267 | After a successful import, each imported task is exported with its content and an id the table did not hold before. |
| Service.Serve | internal/service/task.go:26-92 | Each facade call runs the same-named repository operation and passes its error through unchanged; imports go through the as-written transaction. Analytics go through the cache. No call writes the cache. Reads and failures leave the table as it was. The table invariant is preserved. |
| Service.FacadeServesCachedSnapshot | internal/service/task.go:66-74 | A cached snapshot is served even when every aggregate query would fail. On a miss the figures come from the table. |
| Service.FacadeNeverFillsCache | internal/service/task.go:66-74 | Two analytics requests in a row on a miss both compute, and the cache stays empty. |
| Service.FirstSuccess | internal/service/task.go:100-109 | Finds the first successful attempt, with every earlier attempt failing. |
| Service.RetryCounts | internal/service/task.go:100-120 | Success on attempt k takes k calls and k−1 pauses. When all n attempts fail there are n calls and n pauses. There are never more than n calls. |
| Service.AnalyseTick | internal/service/task.go:94-122 | As written, one tick equals the retry reference. The worker panics exactly when there was an attempt and every compute attempt failed. Otherwise the cache ends holding the fresh figures or is untouched. |
| Service.ComputeOutageCrashesWorker | internal/service/task.go:98-120 | With the configured (3, 5 s) worker, an outage across the three compute attempts takes three calls and three pauses, then a panic. The corrected tick does not panic. |
| Service.ComputePhase | internal/service/task.go:98-109 | The compute attempts follow the retry reference. Fresh figures come out exactly when some attempt succeeds, and they are the figures of the table. |
| Service.SetPhase | internal/service/task.go:111-120 | With figures, the cache writes follow the retry reference and the slot holds the figures exactly when some write succeeded. Without figures the first write panics. |
| Service.AnalyseTickFixed | internal/service/task.go:94-122 | Corrected: the set phase is skipped when nothing was computed. The tick never panics and keeps the previous snapshot. Otherwise it equals the as-written tick. |
| Service.SweepTick | internal/service/task.go:124-139 | Up to retryCount sweep attempts, stopping at the first success; the trace is the retry reference. The table is swept if some attempt succeeded and unchanged otherwise. |
| Service.TickFitsInPeriod | internal/service/task.go:17-24 | With the wiring constants (6 h / 24 h, 3 attempts, 5 s), an analytics tick pauses at most five times and a sweep tick at most three times. The pause time stays below the ticker period. |
| Service.WorstTickPausesFive | internal/service/task.go:94-122 | Example: two failed computes followed by three failed cache writes pause five times, without a panic, and leave the slot as it was. |
| Controllers.GetTasksHandler | internal/controllers/rest/v1/task.go:34-56 | status, sort_by, priority and name pass into the filter verbatim. A missing parameter is "". The answer is a 500 exactly when the database fails or a name comes with sort_by low or high. Otherwise a 200 with the rendered matching tasks. |
| Controllers.EmptyListingIsNull | internal/controllers/rest/v1/task.go:50-55 | With no parameters and an empty table the answer is 200 with `null`, not an empty array. |
| Controllers.Listing | internal/controllers/rest/v1/task.go:50-55 | An empty result renders as `null`. Otherwise the list has one rendered entry per task, in order. |
| Controllers.ListingShowsMatches | internal/controllers/rest/v1/task.go:40-55 | Every stored task matching the filter appears in the response, except that a sorted name search answers the error body instead. |
| Controllers.CreateTaskHandler | internal/controllers/rest/v1/task.go:68-82 | Invalid JSON gives a 400. A `null` body drops the connection. Otherwise the converted request is created: a fault gives a 500; the table becomes the facade's result; on success the old rows are kept in place, one row with the request's content is appended, and the answer is 201 with that row's id in decimal. |
| Controllers.UpdateTaskHandler | internal/controllers/rest/v1/task.go:95-118 | A non-integer id gives a 400 before the body is read and without a call. The task passed on carries the parsed id. The table becomes the facade's result. A missing id or a fault gives a 500 and changes nothing. Otherwise a 200 whose body is the response rendering of the row the update returns. |
| Controllers.DeleteTaskHandler | internal/controllers/rest/v1/task.go:129-138 | The raw id text is passed on. A 200 with an empty body comes exactly when the store accepts it. Anything else is a 500. |
| Controllers.NonNumericDeleteIsServerError | internal/controllers/rest/v1/task.go:129-138 | A non-numeric id is reported as a 500, never as a 400. |
| Controllers.GetAnalyticsHandler | internal/controllers/rest/v1/task.go:148-156 | A cached snapshot is a 200 with it. A cache error is a 500. On a miss the response is a 200 exactly when every aggregate query succeeds. |
| Controllers.ImportTasksHandler | internal/controllers/rest/v1/task.go:168-201 | Invalid JSON, a `null` or empty array, or any `null` element gives a 400 without a call. Otherwise the import receives exactly one converted task per element, in order, and the answer and the table are the as-written facade's. |
| Controllers.ConvertAll | internal/controllers/rest/v1/task.go:180-193 | Conversion succeeds exactly when no element is `null`, and then yields each element converted, in order (the handler passes the request-to-task conversion). |
| Controllers.ImportAnswer | internal/controllers/rest/v1/task.go:195-200 | The import answers 200 with the success message exactly when the as-written transaction reports no error. Otherwise it answers 500. |
| Controllers.FailedInsertAnswersSuccess | internal/controllers/rest/v1/task.go:195-200 | A one-task import whose INSERT fails, followed by a clean rollback, answers 200 "Tasks imported successfully" and stores nothing. |
| Controllers.ExportList | internal/controllers/rest/v1/task.go:217-221 | The list made with length n and then appended to holds n `null` entries followed by each task rendered, in order. |
| Controllers.ExportTasksHandler | internal/controllers/rest/v1/task.go:211-223 | The exported list has 2n entries. The first n are `null` and entry n+i renders row i. |
| Controllers.ExportReadsBack | internal/controllers/rest/v1/task.go:211-223 | Dropping the `null` entries and converting the rest back gives the stored rows in order, for UTC whole-second due dates. |
| Controllers.ExportPaddedWithNulls | internal/controllers/rest/v1/task.go:217-220 | The as-written list is n `null` entries followed by exactly the intended list. |
| Controllers.ExportOfOneTask | internal/controllers/rest/v1/task.go:217-222 | Exporting one task answers `[null, task]`, which differs from the intended one-entry array. |
| Controllers.ExportListFixed | internal/controllers/rest/v1/task.go:217-220 | Corrected: the list has one entry per task and none of them is `null`. |
| Controllers.ExportFixedReadsBack | internal/controllers/rest/v1/task.go:211-223 | Corrected: entry i of the intended list converts back to row i, for UTC whole-second due dates. |

## Left out

- Drivers, encoding and transport are not modelled: the database and cache clients, row scanning, JSON encoding and decoding, and the HTTP framework. A decoded body is given as malformed, `null` or a value.
- Logging, metrics, JWT authentication, configuration, routing, process lifecycle and the user service and repository are not modelled. They add nothing to the task logic.
- Tickers, goroutines and real time are not modelled. A worker tick runs to completion in isolation, and requests and workers do not interleave.
- Repository.GetAnalytics: the average completion time is an input. `AVG(created_at - due_date)` is a floating-point interval, and the code assigns it to an integer field (internal/repository/task.go:203 against internal/domain/task.go:84). Only the "0 when nothing is done" case is stated.
- Repository.GetAnalytics: due dates are compared with `CURRENT_DATE - 7 days` by calendar day. The time of day and zone of a due date are ignored. The status counts are taken directly rather than by scanning GROUP BY rows.
- Repository.GetCachedAnalytics: a snapshot that fails to unmarshal is not modelled. The slot only ever holds snapshots the worker itself marshalled.
- Repository.GetTasks: ties in due date keep storage order. The database promises no tie order.
- Repository.GetTasks, Repository.ExportTasks: an unsorted listing and the export are modelled in table order (the order of `db.rows`). The database promises no order for a SELECT without ORDER BY, and an UPDATE writes a new row version, so a scan may return an updated row later. Repository.UnfilteredListing, Repository.ImportThenExport and Controllers.ExportReadsBack rely on this table order.
- Repository.GetTasks: the database's parser is modelled only for the statements the listing can build. The well-formed ones are those TaskQuery.Decode accepts. The sorted name search is rejected with one fixed syntax error, whose exact text is not modelled.
- Repository.AppendAll: ids are consecutive from the sequence's next value. A real sequence also consumes values for rolled-back inserts, so ids may have gaps. Uniqueness, which the model proves, is unaffected.
- Repository.DeleteTask: the database's text-to-integer cast is modelled by the 64-bit decimal parser. Leniencies of the cast, such as surrounding whitespace, are not modelled.
- Repository.UpdateTask: `updated_at` is kept as it was, since the UPDATE statement does not set it. A database trigger that would change it is not part of this model.
- Repository.ImportTasks: the driver reports one outcome per INSERT, so the outcome list is at least as long as the batch.
- Repository.Valid: ids are unbounded integers. The 64-bit column bound is not modelled.
- Service.AnalyseTick: the compute phase calls the aggregate queries directly, as the worker does, and not through the cache.
- Repository.AnalyticsExample: take two done tasks due 3 and 10 days ago, one pending task due 2 days ago and one in progress due 9 days ago. The query's `due_date >= CURRENT_DATE - 7 days` then gives weekly uncompleted = 1, because the in-progress task falls outside the week.
- Controllers.ImportTasksHandler: the controller test for import (internal/controllers/rest/v1/task_test.go:144-160) expects 200 for an empty body. The handler decodes the empty body as invalid JSON and answers 400. The model follows the handler (Controllers.ImportTasksHandler, `Malformed`).

## Findings

| source | as written | input that shows it | evidently intended | confidence | as-written member | corrected member |
|---|---|---|---|---|---|---|
| internal/repository/task.go:60-73 | ` AND title = $1` is appended after the ORDER BY clause | sort_by=low, name=report gives `... WHERE 1=1 ORDER BY due_date ASC AND title = $1`, which the database rejects | the name predicate goes before ORDER BY | not executed | TaskQuery.BuildQuery, TaskQuery.NamePredicateAfterOrderBy, Repository.SortedNameSearchFails | TaskQuery.BuildQueryFixed, TaskQuery.DecodeBuildFixed, Repository.GetTasksFixed |
| internal/repository/task.go:230-235 | on an INSERT failure the function returns the rollback's result | one task whose INSERT fails, then a clean rollback, reports success with nothing imported | return the INSERT error after rolling back | not executed | Repository.ImportTasks, Repository.ImportFailureReportedAsSuccess, Controllers.FailedInsertAnswersSuccess | Repository.ImportTasksFixed, Repository.ImportThenExport |
| internal/service/task.go:98-120 | the set phase runs with the nil result after every compute attempt has failed, and SetAnalytics dereferences it (internal/repository/task.go:212) | three failing compute attempts panic the worker goroutine, which ends the process | skip the set phase and keep the previous snapshot | not executed | Service.AnalyseTick, Service.ComputeOutageCrashesWorker | Service.AnalyseTickFixed |
| internal/controllers/rest/v1/task.go:217-220 | the slice is made with length n and then appended to | one stored task exports as `[null, {...}]` | make the slice with capacity n, giving one entry per task | not executed | Controllers.ExportList, Controllers.ExportOfOneTask | Controllers.ExportListFixed, Controllers.ExportFixedReadsBack |
