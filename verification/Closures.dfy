/**
 School closures (internal/handlers/holidays.go) and the day types they decide
 (internal/handlers/attendance.go). A date is its day number, counted from Saturday 2000-01-01: the
 program compares YYYY-MM-DD text, whose order is the order of the dates (section 5.1 of RFC 3339).
 Creates and cancels hold the table lock, so each is one atomic step.
 */
module Closures {
  import opened Wrappers

  datatype Kind = Holiday | Pause

  /** `end` None is an open-ended pause. */
  datatype Closure = Closure(kind: Kind, start: int, end: Option<int>)

  type Table = map<nat, Closure>

  datatype Request = Request(kind: Kind, start: int, end: Option<int>, confirm: bool, dryRun: bool)

  datatype CreateProblem = EndBeforeStart | HolidayTooLong | NotConfirmed | PauseInPast | Overlaps

  datatype CancelProblem = NotFound | AlreadyOver

  datatype Answer<+T, +E> = Ok(value: T) | Refused(problem: E)

  const MAX_HOLIDAY_DAYS := 60

  predicate Covers(c: Closure, d: int) {
    c.start <= d && (c.end.Some? ==> d <= c.end.value)
  }

  /** The closure a request asks for: a holiday without an end is one day. */
  function Parse(r: Request, today: int): Answer<Closure, CreateProblem> {
    if r.end.Some? && r.end.value < r.start then Refused(EndBeforeStart)
    else match r.kind
      case Holiday =>
        var end := if r.end.Some? then r.end.value else r.start;
        if end - r.start >= MAX_HOLIDAY_DAYS then Refused(HolidayTooLong) else Ok(Closure(Holiday, r.start, Some(end)))
      case Pause =>
        if !r.confirm && !r.dryRun then Refused(NotConfirmed)
        else if r.start < today then Refused(PauseInPast)
        else Ok(Closure(Pause, r.start, r.end))
  }

  /** The overlap query: null ends compare as infinity. */
  predicate Conflicts(c: Closure, row: Closure) {
    (c.end.Some? ==> row.start <= c.end.value) && (row.end.Some? ==> row.end.value >= c.start)
  }

  function Create(t: Table, id: nat, r: Request, today: int): (Table, Answer<Closure, CreateProblem>) {
    match Parse(r, today)
    case Refused(p) => (t, Refused(p))
    case Ok(c) =>
      if exists k :: k in t && Conflicts(c, t[k]) then (t, Refused(Overlaps))
      else (if r.dryRun then t else t[id := c], Ok(c))
  }

  /** Cancelling takes effect from today onward. */
  function Cancel(t: Table, id: nat, today: int): (Table, Option<CancelProblem>) {
    if id !in t then (t, Some(NotFound))
    else if t[id].end.Some? && t[id].end.value < today then (t, Some(AlreadyOver))
    else if t[id].start >= today then (t - {id}, None)
    else (t[id := t[id].(end := Some(today - 1))], None)
  }

  // ---------------------------------------------------------------- the table over any run

  ghost predicate WellFormed(c: Closure) {
    && (c.end.Some? ==> c.start <= c.end.value)
    && (c.kind == Holiday ==> c.end.Some? && c.end.value - c.start < MAX_HOLIDAY_DAYS)
  }

  /** Every closure covers a date, and no two closures share one. */
  ghost predicate Sound(t: Table) {
    && (forall k :: k in t ==> WellFormed(t[k]))
    && (forall j, k, d :: j in t && k in t && Covers(t[j], d) && Covers(t[k], d) ==> j == k)
  }

  /** The overlap query finds a row exactly when some date is shared. */
  lemma ConflictsIsSharing(c: Closure, row: Closure)
    requires WellFormed(c) && WellFormed(row)
    ensures Conflicts(c, row) <==> exists d :: Covers(c, d) && Covers(row, d)
  {
    if Conflicts(c, row) {
      var d := if c.start <= row.start then row.start else c.start;
      assert Covers(c, d) && Covers(row, d);
    }
  }

  lemma CreateSound(t: Table, id: nat, r: Request, today: int)
    requires Sound(t) && id !in t
    ensures Sound(Create(t, id, r, today).0)
  {
    var (t', answer) := Create(t, id, r, today);
    if answer.Ok? {
      forall k | k in t ensures forall d :: !(Covers(answer.value, d) && Covers(t[k], d)) {
        ConflictsIsSharing(answer.value, t[k]);
      }
    }
  }

  lemma CancelSound(t: Table, id: nat, today: int)
    requires Sound(t)
    ensures Sound(Cancel(t, id, today).0)
  {
  }

  datatype Op = CreateOp(request: Request, on: int) | CancelOp(id: nat, on: int)

  /** The table and the next id after a run of creates and cancels, each on its own day. */
  function After(ops: seq<Op>): (Table, nat) {
    if ops == [] then (map[], 1)
    else
      var (t, next) := After(ops[..|ops| - 1]);
      match ops[|ops| - 1]
      case CreateOp(r, on) => (Create(t, next, r, on).0, next + 1)
      case CancelOp(id, on) => (Cancel(t, id, on).0, next)
  }

  /** After any sequence of creates and cancels, on any days, no two closures share a date. */
  lemma {:induction false} AlwaysSound(ops: seq<Op>)
    ensures Sound(After(ops).0)
    ensures forall k :: k in After(ops).0 ==> k < After(ops).1
  {
    if ops != [] {
      AlwaysSound(ops[..|ops| - 1]);
      var (t, next) := After(ops[..|ops| - 1]);
      match ops[|ops| - 1]
      case CreateOp(r, on) => CreateSound(t, next, r, on);
      case CancelOp(id, on) => CancelSound(t, id, on);
    }
  }

  // ---------------------------------------------------------------- days

  datatype Day = School | Weekend | Closed(kind: Kind, id: nat)

  /** Friday and Saturday; day 0 is a Saturday. */
  predicate IsWeekend(d: int) {
    d % 7 == 0 || d % 7 == 6
  }

  /** Closure k comes first for date d in the order pause before holiday, then start date. */
  predicate First(t: Table, d: int, k: nat) {
    && k in t && Covers(t[k], d)
    && forall j :: j in t && Covers(t[j], d) ==>
         if t[j].kind == t[k].kind then t[k].start <= t[j].start else t[k].kind == Pause
  }

  /** What DayOn answers: the weekend, the first covering closure, or a school day. */
  ghost predicate IsDayOn(t: Table, d: int, day: Day) {
    match day
    case Weekend => IsWeekend(d)
    case Closed(kind, k) => !IsWeekend(d) && First(t, d, k) && kind == t[k].kind
    case School => !IsWeekend(d) && forall k :: k in t ==> !Covers(t[k], d)
  }

  /** In a sound table every date has exactly one answer, from its only covering closure. */
  lemma DayOnUnique(t: Table, d: int) returns (day: Day)
    requires Sound(t)
    ensures IsDayOn(t, d, day)
    ensures forall other :: IsDayOn(t, d, other) ==> other == day
    ensures day.Closed? ==> forall k :: k in t && Covers(t[k], d) ==> k == day.id
  {
    if IsWeekend(d) {
      day := Weekend;
    } else if k :| k in t && Covers(t[k], d) {
      day := Closed(t[k].kind, k);
    } else {
      day := School;
    }
  }

  /**
   Cancelling on day T leaves what every closure covers before T as it was, and removes exactly the
   cancelled closure's dates from T on: those become school days or weekend.
   */
  lemma CancelFromTodayOn(t: Table, id: nat, today: int)
    requires Sound(t) && Cancel(t, id, today).1.None?
    ensures var u := Cancel(t, id, today).0;
      && (forall k, d :: (k in u && Covers(u[k], d)) <==> (k in t && Covers(t[k], d) && !(k == id && d >= today)))
      && (forall k :: k in u ==> k in t && u[k].kind == t[k].kind && u[k].start == t[k].start)
  {
  }

  lemma CancelReopens(t: Table, id: nat, today: int, d: int, day: Day)
    requires Sound(t) && Cancel(t, id, today).1.None?
    requires IsDayOn(Cancel(t, id, today).0, d, day)
    ensures Covers(t[id], d) && d >= today ==> day == if IsWeekend(d) then Weekend else School
    ensures !(Covers(t[id], d) && d >= today) ==> IsDayOn(t, d, day)
  {
    CancelFromTodayOn(t, id, today);
    CancelSound(t, id, today);
    var u := Cancel(t, id, today).0;
    if day.Closed? { assert Covers(u[day.id], d); }
  }

  // ---------------------------------------------------------------- the table object

  class ClosureTable {
    var rows: Table
    var next: nat

    ghost predicate Valid()
      reads this
    {
      Sound(rows) && forall k :: k in rows ==> k < next
    }

    constructor ()
      ensures Valid() && rows == map[]
    {
      rows, next := map[], 1;
    }

    /** POST: refused, previewed, or stored under a fresh id. */
    method Register(r: Request, today: int) returns (answer: Answer<Closure, CreateProblem>)
      requires Valid()
      modifies this
      ensures Valid() && (rows, answer) == Create(old(rows), old(next), r, today)
      ensures forall k :: k in old(rows) ==> k in rows && rows[k] == old(rows)[k]
      ensures answer.Ok? && !r.dryRun ==> old(next) in rows && rows[old(next)] == answer.value
    {
      CreateSound(rows, next, r, today);
      answer := Parse(r, today);
      if answer.Refused? {
        return;
      }
      if exists k :: k in rows && Conflicts(answer.value, rows[k]) {
        return Refused(Overlaps);
      }
      if !r.dryRun {
        rows := rows[next := answer.value];
        next := next + 1;
      }
    }

    /** Cancel from today onward: delete a closure not begun before today, else end it yesterday. */
    method CancelToday(id: nat, today: int) returns (problem: Option<CancelProblem>)
      requires Valid()
      modifies this`rows
      ensures Valid() && (rows, problem) == Cancel(old(rows), id, today)
    {
      CancelSound(rows, id, today);
      if id !in rows {
        return Some(NotFound);
      }
      var c := rows[id];
      if c.end.Some? && c.end.value < today {
        return Some(AlreadyOver);
      }
      if c.start > today || c.start == today {
        rows := rows - {id};
      } else {
        rows := rows[id := c.(end := Some(today - 1))];
      }
      return None;
    }
  }

  /** The school days a closure removes, as shown when it is created. */
  method SchoolDaysBetween(start: int, end: int) returns (n: nat)
    ensures n == |set d | start <= d <= end && !IsWeekend(d)|
  {
    n := 0;
    var d := start;
    ghost var counted: set<int> := {};
    while d <= end
      invariant start <= d && (d <= end + 1 || d == start)
      invariant counted == set x | start <= x < d && !IsWeekend(x)
      invariant n == |counted|
    {
      if !IsWeekend(d) {
        n := n + 1;
        counted := counted + {d};
      }
      d := d + 1;
    }
    assert counted == set x | start <= x <= end && !IsWeekend(x);
  }

  /** The day classes resume after a cancel: the first Sunday-to-Thursday date on or after t. */
  method NextSchoolWeekday(t: int) returns (d: int)
    ensures t <= d && !IsWeekend(d) && forall x :: t <= x < d ==> IsWeekend(x)
    ensures d <= t + 2
  {
    d := t;
    while IsWeekend(d)
      invariant t <= d <= t + 2
      invariant forall x :: t <= x < d ==> IsWeekend(x)
      decreases t + 2 - d
    {
      assert (d > t ==> IsWeekend(t)) && (d > t + 1 ==> IsWeekend(t + 1));
      d := d + 1;
    }
  }
}
