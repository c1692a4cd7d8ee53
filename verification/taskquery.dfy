/**
  The SQL text the task listing sends to the store, built from a filter by
  string concatenation driven by closed `switch` tables.
 */
module TaskQuery {
  import opened Wrappers
  import opened Domain

  const SelectAll: string :=
    "SELECT id, title, description, status, priority, due_date, created_at, updated_at FROM tasks WHERE 1=1"

  /** Query text plus the arguments bound to its placeholders. */
  datatype SqlQuery = SqlQuery(text: string, args: seq<string>)

  datatype Status = Pending | InProgress | Done
  datatype Priority = Low | Medium | High
  datatype Direction = Ascending | Descending

  /** The status switch: only the three known values are recognised. */
  function StatusOf(s: string): Option<Status> {
    if s == "pending" then Some(Pending)
    else if s == "in_progress" then Some(InProgress)
    else if s == "done" then Some(Done)
    else None
  }

  function StatusText(s: Status): string {
    match s
    case Pending => "pending"
    case InProgress => "in_progress"
    case Done => "done"
  }

  /** The priority switch. */
  function PriorityOf(p: string): Option<Priority> {
    if p == "low" then Some(Low)
    else if p == "medium" then Some(Medium)
    else if p == "high" then Some(High)
    else None
  }

  function PriorityText(p: Priority): string {
    match p
    case Low => "low"
    case Medium => "medium"
    case High => "high"
  }

  /** The sort switch: "low" sorts by due date ascending, "high" descending. */
  function DirectionOf(sortBy: string): Option<Direction> {
    if sortBy == "low" then Some(Ascending)
    else if sortBy == "high" then Some(Descending)
    else None
  }

  function StatusClause(s: Status): string {
    " AND status = '" + StatusText(s) + "'"
  }

  function PriorityClause(p: Priority): string {
    " AND priority = '" + PriorityText(p) + "'"
  }

  function OrderClause(d: Direction): string {
    match d
    case Ascending => " ORDER BY due_date ASC"
    case Descending => " ORDER BY due_date DESC"
  }

  const NameClause: string := " AND title = $1"

  /** What a filter actually constrains once unrecognised values are dropped. */
  datatype Shape = Shape(status: Option<Status>, priority: Option<Priority>,
                         order: Option<Direction>, byName: bool)

  function ShapeOf(f: TaskFilter): Shape {
    Shape(StatusOf(f.status), PriorityOf(f.priority), DirectionOf(f.sortBy), f.name != "")
  }

  function StatusPart(s: Option<Status>): string {
    match s
    case Some(st) => StatusClause(st)
    case None => ""
  }

  function PriorityPart(p: Option<Priority>): string {
    match p
    case Some(pr) => PriorityClause(pr)
    case None => ""
  }

  function OrderPart(d: Option<Direction>): string {
    match d
    case Some(dir) => OrderClause(dir)
    case None => ""
  }

  function NamePart(byName: bool): string {
    if byName then NameClause else ""
  }

  function NameArgs(f: TaskFilter): seq<string> {
    if f.name != "" then [f.name] else []
  }

  /**
    The query exactly as the listing builds it: the name predicate is
    appended last, after any ORDER BY clause.
   */
  function BuildQuery(f: TaskFilter): (q: SqlQuery)
    ensures SelectAll <= q.text
    ensures q.args == (if f.name != "" then [f.name] else [])
  {
    var s := ShapeOf(f);
    SqlQuery(SelectAll + StatusPart(s.status) + PriorityPart(s.priority)
             + OrderPart(s.order) + NamePart(s.byName), NameArgs(f))
  }

  /** The query with the name predicate placed before ORDER BY, as intended. */
  function BuildQueryFixed(f: TaskFilter): (q: SqlQuery)
    ensures SelectAll <= q.text
    ensures q.args == (if f.name != "" then [f.name] else [])
  {
    var s := ShapeOf(f);
    SqlQuery(SelectAll + StatusPart(s.status) + PriorityPart(s.priority)
             + NamePart(s.byName) + OrderPart(s.order), NameArgs(f))
  }

  // ------------------------------------------------------------- Decoding

  /** Reads an optional status clause off the front of `s`. */
  function TakeStatus(s: string): (Option<Status>, string) {
    if StatusClause(Pending) <= s then (Some(Pending), s[|StatusClause(Pending)|..])
    else if StatusClause(InProgress) <= s then (Some(InProgress), s[|StatusClause(InProgress)|..])
    else if StatusClause(Done) <= s then (Some(Done), s[|StatusClause(Done)|..])
    else (None, s)
  }

  function TakePriority(s: string): (Option<Priority>, string) {
    if PriorityClause(Low) <= s then (Some(Low), s[|PriorityClause(Low)|..])
    else if PriorityClause(Medium) <= s then (Some(Medium), s[|PriorityClause(Medium)|..])
    else if PriorityClause(High) <= s then (Some(High), s[|PriorityClause(High)|..])
    else (None, s)
  }

  function TakeName(s: string): (bool, string) {
    if NameClause <= s then (true, s[|NameClause|..]) else (false, s)
  }

  function TakeOrder(s: string): (Option<Direction>, string) {
    if OrderClause(Ascending) <= s then (Some(Ascending), s[|OrderClause(Ascending)|..])
    else if OrderClause(Descending) <= s then (Some(Descending), s[|OrderClause(Descending)|..])
    else (None, s)
  }

  /**
    Reads a listing query back into what it constrains: the fixed prefix,
    then optional status, priority, name and ORDER BY clauses, in that
    order, and nothing else.
   */
  function Decode(text: string): Option<Shape> {
    if !(SelectAll <= text) then None
    else
      var st := TakeStatus(text[|SelectAll|..]);
      var pr := TakePriority(st.1);
      var nm := TakeName(pr.1);
      var od := TakeOrder(nm.1);
      if od.1 == "" then Some(Shape(st.0, pr.0, od.0, nm.0)) else None
  }

  // --------------------------------------------------------------- Lemmas

  lemma NotPrefix(a: string, b: string, i: nat)
    requires i < |a| && i < |b| && a[i] != b[i]
    ensures !(a <= b)
  {
  }

  /** Every clause text starts with a space and is told apart by its sixth character. */
  lemma ClauseHeads(s: Status, p: Priority, d: Direction)
    ensures |StatusClause(s)| > 6 && StatusClause(s)[5] == 's'
    ensures |PriorityClause(p)| > 6 && PriorityClause(p)[5] == 'p'
    ensures |NameClause| > 6 && NameClause[5] == 't'
    ensures |OrderClause(d)| > 6 && OrderClause(d)[5] == 'R'
  {
  }

  lemma PrefixOfConcat(a: string, rest: string)
    ensures a <= a + rest && (a + rest)[|a|..] == rest
  {
  }

  lemma TakeStatusPart(s: Option<Status>, rest: string)
    requires |rest| > 0 ==> |rest| > 6 && rest[5] != 's'
    ensures TakeStatus(StatusPart(s) + rest) == (s, rest)
  {
    var text := StatusPart(s) + rest;
    ClauseHeads(Pending, Low, Ascending);
    ClauseHeads(InProgress, Low, Ascending);
    ClauseHeads(Done, Low, Ascending);
    match s {
      case None =>
        assert text == rest;
        if rest != "" {
          NotPrefix(StatusClause(Pending), text, 5);
          NotPrefix(StatusClause(InProgress), text, 5);
          NotPrefix(StatusClause(Done), text, 5);
        }
      case Some(Pending) =>
        PrefixOfConcat(StatusClause(Pending), rest);
      case Some(InProgress) =>
        assert StatusClause(Pending)[15] == 'p' && StatusClause(InProgress)[15] == 'i';
        NotPrefix(StatusClause(Pending), text, 15);
        PrefixOfConcat(StatusClause(InProgress), rest);
      case Some(Done) =>
        assert StatusClause(Pending)[15] == 'p' && StatusClause(InProgress)[15] == 'i';
        assert StatusClause(Done)[15] == 'd';
        NotPrefix(StatusClause(Pending), text, 15);
        NotPrefix(StatusClause(InProgress), text, 15);
        PrefixOfConcat(StatusClause(Done), rest);
    }
  }

  lemma TakePriorityPart(p: Option<Priority>, rest: string)
    requires |rest| > 0 ==> |rest| > 6 && rest[5] != 'p'
    ensures TakePriority(PriorityPart(p) + rest) == (p, rest)
  {
    var text := PriorityPart(p) + rest;
    ClauseHeads(Pending, Low, Ascending);
    ClauseHeads(Pending, Medium, Ascending);
    ClauseHeads(Pending, High, Ascending);
    match p {
      case None =>
        assert text == rest;
        if rest != "" {
          NotPrefix(PriorityClause(Low), text, 5);
          NotPrefix(PriorityClause(Medium), text, 5);
          NotPrefix(PriorityClause(High), text, 5);
        }
      case Some(Low) =>
        PrefixOfConcat(PriorityClause(Low), rest);
      case Some(Medium) =>
        assert PriorityClause(Low)[17] == 'l' && PriorityClause(Medium)[17] == 'm';
        NotPrefix(PriorityClause(Low), text, 17);
        PrefixOfConcat(PriorityClause(Medium), rest);
      case Some(High) =>
        assert PriorityClause(Low)[17] == 'l' && PriorityClause(Medium)[17] == 'm';
        assert PriorityClause(High)[17] == 'h';
        NotPrefix(PriorityClause(Low), text, 17);
        NotPrefix(PriorityClause(Medium), text, 17);
        PrefixOfConcat(PriorityClause(High), rest);
    }
  }

  lemma TakeNamePart(byName: bool, rest: string)
    requires |rest| > 0 ==> |rest| > 6 && rest[5] != 't'
    ensures TakeName(NamePart(byName) + rest) == (byName, rest)
  {
    ClauseHeads(Pending, Low, Ascending);
    if byName {
      PrefixOfConcat(NameClause, rest);
    } else {
      assert NamePart(byName) + rest == rest;
      if rest != "" {
        NotPrefix(NameClause, rest, 5);
      }
    }
  }

  lemma TakeOrderPart(d: Option<Direction>, rest: string)
    requires |rest| > 0 ==> |rest| > 6 && rest[5] != 'R'
    ensures TakeOrder(OrderPart(d) + rest) == (d, rest)
  {
    var text := OrderPart(d) + rest;
    ClauseHeads(Pending, Low, Ascending);
    ClauseHeads(Pending, Low, Descending);
    match d {
      case None =>
        assert text == rest;
        if rest != "" {
          NotPrefix(OrderClause(Ascending), text, 5);
          NotPrefix(OrderClause(Descending), text, 5);
        }
      case Some(Ascending) =>
        PrefixOfConcat(OrderClause(Ascending), rest);
      case Some(Descending) =>
        assert OrderClause(Ascending)[19] == 'A' && OrderClause(Descending)[19] == 'D';
        NotPrefix(OrderClause(Ascending), text, 19);
        PrefixOfConcat(OrderClause(Descending), rest);
    }
  }

  /**
    The query text is the decoding's inverse: decoding the built query
    recovers exactly the recognised status, priority and sort direction and
    whether a name was given. Unrecognised values leave no trace in the text.
   */
  lemma DecodeBuildFixed(f: TaskFilter)
    ensures Decode(BuildQueryFixed(f).text) == Some(ShapeOf(f))
  {
    var s := ShapeOf(f);
    Associate(SelectAll, StatusPart(s.status), PriorityPart(s.priority), NamePart(s.byName), OrderPart(s.order));
    DecodePieces(s.status, s.priority, s.byName, s.order);
  }

  lemma Associate(a: string, b: string, c: string, d: string, e: string)
    ensures a + b + c + d + e == a + (b + (c + (d + e)))
  {
  }

  lemma DecodePieces(st: Option<Status>, pr: Option<Priority>, byName: bool, od: Option<Direction>)
    ensures Decode(SelectAll + (StatusPart(st) + (PriorityPart(pr) + (NamePart(byName) + OrderPart(od)))))
            == Some(Shape(st, pr, od, byName))
  {
    var o := OrderPart(od);
    var n := NamePart(byName) + o;
    var p := PriorityPart(pr) + n;
    ClauseHeads(Pending, Low, Ascending);
    ClauseHeads(Pending, Low, Descending);
    ClauseHeads(Pending, Medium, Ascending);
    ClauseHeads(Pending, High, Ascending);
    assert o + "" == o;
    TakeOrderPart(od, "");
    TakeNamePart(byName, o);
    TakePriorityPart(pr, n);
    TakeStatusPart(st, p);
    PrefixOfConcat(SelectAll, StatusPart(st) + p);
  }

  /** The text depends on nothing but the filter's shape: the name itself is never spliced in. */
  lemma TextDependsOnlyOnShape(f: TaskFilter, g: TaskFilter)
    requires ShapeOf(f) == ShapeOf(g)
    ensures BuildQueryFixed(f).text == BuildQueryFixed(g).text
    ensures BuildQuery(f).text == BuildQuery(g).text
  {
  }

  /** Two filters give the same text exactly when they have the same shape. */
  lemma TextDeterminesShape(f: TaskFilter, g: TaskFilter)
    ensures BuildQueryFixed(f).text == BuildQueryFixed(g).text <==> ShapeOf(f) == ShapeOf(g)
  {
    DecodeBuildFixed(f);
    DecodeBuildFixed(g);
  }

  /** Without both a name and a recognised sort the two builders agree. */
  lemma AsWrittenAgreesWithoutNameAndSort(f: TaskFilter)
    requires f.name == "" || DirectionOf(f.sortBy).None?
    ensures BuildQuery(f) == BuildQueryFixed(f)
  {
    var s := ShapeOf(f);
    var head := SelectAll + StatusPart(s.status) + PriorityPart(s.priority);
    if s.byName {
      assert OrderPart(s.order) == "";
      assert head + "" + NameClause == head + NameClause + "";
    } else {
      assert NamePart(s.byName) == "";
      assert head + OrderPart(s.order) + "" == head + "" + OrderPart(s.order);
    }
  }

  /**
    With a name and a recognised sort the as-written query ends in
    "ORDER BY due_date ... AND title = $1": the name predicate follows the
    ORDER BY clause, so the text is not a well-formed listing query.
   */
  lemma NamePredicateAfterOrderBy(f: TaskFilter)
    requires f.name != "" && DirectionOf(f.sortBy).Some?
    ensures BuildQuery(f).text == SelectAll + StatusPart(StatusOf(f.status)) + PriorityPart(PriorityOf(f.priority))
                                  + OrderClause(DirectionOf(f.sortBy).value) + NameClause
    ensures Decode(BuildQuery(f).text) == None
  {
    var s := ShapeOf(f);
    var d := s.order.value;
    assert OrderPart(s.order) == OrderClause(d) && NamePart(s.byName) == NameClause;
    Associate(SelectAll, StatusPart(s.status), PriorityPart(s.priority), OrderClause(d), NameClause);
    DecodeNameAfterOrder(s.status, s.priority, d);
  }

  lemma DecodeNameAfterOrder(st: Option<Status>, pr: Option<Priority>, d: Direction)
    ensures Decode(SelectAll + (StatusPart(st) + (PriorityPart(pr) + (OrderClause(d) + NameClause)))) == None
  {
    var tail := OrderClause(d) + NameClause;
    var p := PriorityPart(pr) + tail;
    ClauseHeads(Pending, Low, d);
    ClauseHeads(Pending, Medium, d);
    ClauseHeads(Pending, High, d);
    TakeStatusPart(st, p);
    TakePriorityPart(pr, tail);
    TakeNamePart(false, tail);
    assert NamePart(false) + tail == tail;
    TakeOrderPart(Some(d), NameClause);
    PrefixOfConcat(SelectAll, StatusPart(st) + p);
  }

  /** The concrete statement the as-written builder produces for a sorted name search. */
  lemma SortedNameSearchText()
    ensures BuildQuery(TaskFilter("", "low", "", "report")).text
            == SelectAll + " ORDER BY due_date ASC AND title = $1"
    ensures BuildQuery(TaskFilter("", "low", "", "report")).args == ["report"]
  {
    var f := TaskFilter("", "low", "", "report");
    assert ShapeOf(f) == Shape(None, None, Some(Ascending), true);
    assert StatusPart(None) + PriorityPart(None) == "";
    assert OrderPart(Some(Ascending)) + NamePart(true) == " ORDER BY due_date ASC AND title = $1";
  }
}
