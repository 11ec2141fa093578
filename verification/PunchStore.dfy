/**
 Storing the punches of an ATTLOG batch, and the resend protocol around it (ADMSHandler and
 persistATTLOG in internal/handlers/hardware.go). A batch is stored in one transaction; the device
 keeps resending it until it receives OK.
 */
module PunchStore {
  import opened Wrappers
  import opened Text
  import opened AttLog

  datatype Row = Row(person: nat, at: DateTime)

  /** An attendance table: its unique key is (person, check_time), its value the device. */
  type Table = map<Row, string>

  /** The rows the database accepts; any other row is rejected for a data reason. */
  type Accepts = Row -> bool

  // ---------------------------------------------------------------- what a batch leaves

  /** The rows of the events whose PIN is a known person's, in order. */
  function RowsOf(events: seq<Event>, ids: map<string, nat>): seq<Row> {
    if events == [] then []
    else
      var e := events[|events| - 1];
      RowsOf(events[..|events| - 1], ids) + if e.pin in ids then [Row(ids[e.pin], e.at)] else []
  }

  /** The rows an insert really adds: accepted, not stored before, not earlier in the batch. */
  function Inserted(t: Table, rows: seq<Row>, accepts: Accepts): seq<Row> {
    if rows == [] then []
    else
      var before, r := rows[..|rows| - 1], rows[|rows| - 1];
      Inserted(t, before, accepts) + if accepts(r) && r !in t && r !in before then [r] else []
  }

  function Rejected(rows: seq<Row>, accepts: Accepts): nat {
    if rows == [] then 0
    else Rejected(rows[..|rows| - 1], accepts) + if accepts(rows[|rows| - 1]) then 0 else 1
  }

  /** Accepted rows that were stored before, or come again within the batch. */
  function Duplicates(t: Table, rows: seq<Row>, accepts: Accepts): nat {
    if rows == [] then 0
    else
      var before, r := rows[..|rows| - 1], rows[|rows| - 1];
      Duplicates(t, before, accepts) + if accepts(r) && (r in t || r in before) then 1 else 0
  }

  /** The table after the batch: the old rows as they were, and the accepted rows of the batch. */
  function Stored(t: Table, sn: string, rows: seq<Row>, accepts: Accepts): Table {
    map r | r in t.Keys + (set x | x in rows && accepts(x)) :: if r in t then t[r] else sn
  }

  lemma StoredStep(t: Table, sn: string, before: seq<Row>, r: Row, accepts: Accepts)
    ensures Stored(t, sn, before + [r], accepts) ==
      var u := Stored(t, sn, before, accepts); if accepts(r) && r !in u then u[r := sn] else u
  {
  }

  /** How one more row of the batch moves the table and the counts. */
  lemma BatchStep(t: Table, sn: string, rows: seq<Row>, i: nat, accepts: Accepts)
    requires i < |rows|
    ensures Stored(t, sn, rows[..i + 1], accepts) ==
      var u := Stored(t, sn, rows[..i], accepts); if accepts(rows[i]) && rows[i] !in u then u[rows[i] := sn] else u
    ensures Inserted(t, rows[..i + 1], accepts) == Inserted(t, rows[..i], accepts) +
      if accepts(rows[i]) && rows[i] !in Stored(t, sn, rows[..i], accepts) then [rows[i]] else []
    ensures Rejected(rows[..i + 1], accepts) == Rejected(rows[..i], accepts) + if accepts(rows[i]) then 0 else 1
  {
    assert rows[..i + 1] == rows[..i] + [rows[i]];
    StoredStep(t, sn, rows[..i], rows[i], accepts);
  }

  lemma BatchStart(t: Table, sn: string, accepts: Accepts)
    ensures Stored(t, sn, [], accepts) == t && Inserted(t, [], accepts) == [] && Rejected([], accepts) == 0
  {
  }

  /** Every event of a batch is inserted, a duplicate or rejected. */
  lemma {:induction false} Accounting(t: Table, rows: seq<Row>, accepts: Accepts)
    ensures |Inserted(t, rows, accepts)| + Duplicates(t, rows, accepts) + Rejected(rows, accepts) == |rows|
  {
    if rows != [] { Accounting(t, rows[..|rows| - 1], accepts); }
  }

  /** The inserted rows are exactly the new rows of the table, each once. */
  lemma {:induction false} InsertedExact(t: Table, sn: string, rows: seq<Row>, accepts: Accepts)
    ensures forall r :: r in Inserted(t, rows, accepts) <==> r in Stored(t, sn, rows, accepts) && r !in t
    ensures forall i, j :: 0 <= i < j < |Inserted(t, rows, accepts)| ==>
      Inserted(t, rows, accepts)[i] != Inserted(t, rows, accepts)[j]
  {
    if rows != [] {
      var before, r := rows[..|rows| - 1], rows[|rows| - 1];
      InsertedExact(t, sn, before, accepts);
      assert rows == before + [r];
      StoredStep(t, sn, before, r, accepts);
    }
  }

  lemma {:induction false} NothingNew(t: Table, rows: seq<Row>, accepts: Accepts)
    requires forall r :: r in rows && accepts(r) ==> r in t
    ensures Inserted(t, rows, accepts) == []
  {
    if rows != [] { NothingNew(t, rows[..|rows| - 1], accepts); }
  }

  /** Storing a batch again changes nothing and inserts nothing. */
  lemma StoredTwice(t: Table, sn: string, sn': string, rows: seq<Row>, accepts: Accepts)
    ensures var u := Stored(t, sn, rows, accepts);
      Stored(u, sn', rows, accepts) == u && Inserted(u, rows, accepts) == []
  {
    NothingNew(Stored(t, sn, rows, accepts), rows, accepts);
  }

  // ---------------------------------------------------------------- the insert statements

  datatype Reply<+T> = Done(value: T) | DataError | Transient

  /**
   One connection. fails(n) says that its n-th statement meets a transient error; `statements`
   counts the statements sent so far.
   */
  class Connection {
    const fails: nat -> bool
    var statements: nat

    constructor (fails: nat -> bool)
      ensures this.fails == fails && statements == 0
    {
      this.fails, statements := fails, 0;
    }

    /** Sends one statement; true when it fails transiently. */
    method Send() returns (failed: bool)
      modifies this
      ensures statements == old(statements) + 1 && failed == fails(old(statements))
    {
      failed := fails(statements);
      statements := statements + 1;
    }
  }

  predicate AllAccepted(rows: seq<Row>, accepts: Accepts) {
    forall i :: 0 <= i < |rows| ==> accepts(rows[i])
  }

  lemma {:induction false} NoneRejected(rows: seq<Row>, accepts: Accepts)
    requires AllAccepted(rows, accepts)
    ensures Rejected(rows, accepts) == 0
  {
    if rows != [] { NoneRejected(rows[..|rows| - 1], accepts); }
  }

  /** INSERT ... ON CONFLICT DO NOTHING RETURNING, for rows the database accepts. */
  method InsertRows(t: Table, sn: string, rows: seq<Row>, accepts: Accepts) returns (u: Table, inserted: seq<Row>)
    requires AllAccepted(rows, accepts)
    ensures u == Stored(t, sn, rows, accepts) && inserted == Inserted(t, rows, accepts)
  {
    hide Stored, Inserted;
    BatchStart(t, sn, accepts);
    u, inserted := t, [];
    for i := 0 to |rows|
      invariant u == Stored(t, sn, rows[..i], accepts) && inserted == Inserted(t, rows[..i], accepts)
    {
      BatchStep(t, sn, rows, i, accepts);
      if rows[i] !in u {
        u, inserted := u[rows[i] := sn], inserted + [rows[i]];
      }
    }
    assert rows[..|rows|] == rows;
  }

  /**
   insertPunchesBulk: the whole batch in one statement inside a savepoint. On a data error it rolls
   back to the savepoint, so the table is as before.
   */
  method InsertBulk(c: Connection, t: Table, sn: string, rows: seq<Row>, accepts: Accepts)
    returns (u: Table, reply: Reply<seq<Row>>)
    modifies c
    ensures reply.Done? ==>
      u == Stored(t, sn, rows, accepts) && reply.value == Inserted(t, rows, accepts) && Rejected(rows, accepts) == 0
    ensures reply.DataError? ==> u == t && !AllAccepted(rows, accepts)
    ensures (forall n :: !c.fails(n)) ==> !reply.Transient?
  {
    if rows == [] {
      assert Stored(t, sn, rows, accepts) == t;
      return t, Done([]);
    }
    var failed := c.Send();
    if failed { return t, Transient; }
    var savepoint := t;
    failed := c.Send();
    if failed { return t, Transient; }
    if exists i :: 0 <= i < |rows| && !accepts(rows[i]) {
      failed := c.Send();
      if failed { return t, Transient; }
      return savepoint, DataError;
    }
    NoneRejected(rows, accepts);
    var inserted;
    u, inserted := InsertRows(t, sn, rows, accepts);
    return u, Done(inserted);
  }

  /** insertPunchesEach: one savepoint and one insert a row; a rejected row is rolled back and skipped. */
  method InsertEach(c: Connection, t: Table, sn: string, rows: seq<Row>, accepts: Accepts)
    returns (u: Table, reply: Reply<(seq<Row>, nat)>)
    modifies c
    ensures reply.Done? ==>
      u == Stored(t, sn, rows, accepts) && reply.value == (Inserted(t, rows, accepts), Rejected(rows, accepts))
    ensures !reply.DataError?
    ensures (forall n :: !c.fails(n)) ==> !reply.Transient?
  {
    hide Stored, Inserted, Rejected;
    BatchStart(t, sn, accepts);
    var inserted: seq<Row>, rejected: nat := [], 0;
    u := t;
    for i := 0 to |rows|
      invariant u == Stored(t, sn, rows[..i], accepts)
      invariant inserted == Inserted(t, rows[..i], accepts) && rejected == Rejected(rows[..i], accepts)
    {
      BatchStep(t, sn, rows, i, accepts);
      var failed := c.Send();
      if failed { return t, Transient; }
      var savepoint := u;
      failed := c.Send();
      if failed { return t, Transient; }
      if !accepts(rows[i]) {
        failed := c.Send();
        if failed { return t, Transient; }
        u := savepoint;
        rejected := rejected + 1;
        continue;
      }
      if rows[i] !in u {
        u, inserted := u[rows[i] := sn], inserted + [rows[i]];
      }
      failed := c.Send();
      if failed { return t, Transient; }
    }
    assert rows[..|rows|] == rows;
    return u, Done((inserted, rejected));
  }

  // ---------------------------------------------------------------- unknown PINs

  predicate HasPin(events: seq<Event>, pin: string) {
    exists i :: 0 <= i < |events| && events[i].pin == pin
  }

  /** The distinct PINs of the events outside `known`, in order of first appearance. */
  function NewPins(events: seq<Event>, known: set<string>): seq<string> {
    if events == [] then []
    else
      var before, pin := events[..|events| - 1], events[|events| - 1].pin;
      NewPins(before, known) + if pin !in known && !HasPin(before, pin) then [pin] else []
  }

  /** It lists exactly the PINs of the batch outside `known`, each once. */
  lemma {:induction false} NewPinsExact(events: seq<Event>, known: set<string>)
    ensures forall pin :: pin in NewPins(events, known) <==> HasPin(events, pin) && pin !in known
    ensures forall i, j :: 0 <= i < j < |NewPins(events, known)| ==>
      NewPins(events, known)[i] != NewPins(events, known)[j]
  {
    if events != [] {
      var n := |events| - 1;
      NewPinsExact(events[..n], known);
      forall pin ensures HasPin(events, pin) <==> HasPin(events[..n], pin) || events[n].pin == pin {
        if i :| 0 <= i < n && events[i].pin == pin { assert events[..n][i].pin == pin; }
      }
    }
  }

  /** PostgreSQL takes every text except one with a U+0000 in it. */
  predicate Storable(pin: string) {
    '\0' !in pin
  }

  predicate PinsAreText(events: seq<Event>) {
    forall i :: 0 <= i < |events| ==> Storable(events[i].pin)
  }

  /** Some PIN of the list cannot be sent to the database. */
  predicate Refused(pins: seq<string>) {
    exists i :: 0 <= i < |pins| && !Storable(pins[i])
  }

  lemma RefusedExact(events: seq<Event>, known: set<string>)
    ensures Refused(NewPins(events, known)) ==> !PinsAreText(events)
    ensures known == {} && !PinsAreText(events) ==> Refused(NewPins(events, known))
  {
    var pins := NewPins(events, known);
    NewPinsExact(events, known);
    if i :| 0 <= i < |pins| && !Storable(pins[i]) {
      assert pins[i] in pins;
      var j :| 0 <= j < |events| && events[j].pin == pins[i];
      assert !Storable(events[j].pin);
    }
    if known == {} && !PinsAreText(events) {
      var i :| 0 <= i < |events| && !Storable(events[i].pin);
      assert HasPin(events, events[i].pin);
      var j :| 0 <= j < |pins| && pins[j] == events[i].pin;
      assert !Storable(pins[j]);
    }
  }

  /** A line with such a PIN is well formed: trimming leaves the U+0000, which is no space. */
  lemma NulBody(t: DateTime) returns (body: string)
    requires ValidTime(t)
    ensures Parse(body) == [Event("1\0", t)] && !PinsAreText(Parse(body))
  {
    hide Parse, Join;
    var e := Event("1\0", t);
    var line := Positional(e, []);
    assert Trimmed(e.pin) && e.pin[1] == '\0';
    body := Join(Texts([line]), '\n');
    ParsePrinted([line]);
    assert Events([line]) == [e];
    assert Parse(body)[0] == e && !Storable(e.pin);
  }

  /** PINs that match no student are looked for among the teachers; the rest stay unknown. */
  function Without(pins: seq<string>, known: set<string>): seq<string> {
    if pins == [] then []
    else Without(pins[..|pins| - 1], known) + if pins[|pins| - 1] in known then [] else [pins[|pins| - 1]]
  }

  lemma {:induction false} WithoutNewPins(events: seq<Event>, known: set<string>, more: set<string>)
    ensures Without(NewPins(events, known), more) == NewPins(events, known + more)
  {
    if events != [] {
      var before, pin := events[..|events| - 1], events[|events| - 1].pin;
      WithoutNewPins(before, known, more);
      var p := NewPins(before, known);
      assert (p + [pin])[..|p|] == p && p + [] == p;
    }
  }

  // ---------------------------------------------------------------- one batch

  datatype Summary = Summary(
    inserted: seq<Row>, duplicates: int, teacherInserted: int, teacherDuplicates: int,
    unknown: seq<string>, rejected: nat)

  datatype Device = Active | Disabled | Unregistered | LookupFailed(transient: bool)

  datatype Body = Read(text: string) | TooLarge | ReadError

  datatype Answer = OK | Retry

  predicate Before(a: (nat, nat, nat), b: (nat, nat, nat)) {
    a.0 < b.0 || (a.0 == b.0 && (a.1 < b.1 || (a.1 == b.1 && a.2 < b.2)))
  }

  function DayOf(t: DateTime): (nat, nat, nat) {
    (t.year, t.month, t.day)
  }

  /** The rows dated `today`, in order. */
  function OfDay(rows: seq<Row>, today: (nat, nat, nat)): seq<Row> {
    if rows == [] then []
    else OfDay(rows[..|rows| - 1], today) + if DayOf(rows[|rows| - 1].at) == today then [rows[|rows| - 1]] else []
  }

  /** How many rows are dated before `today`, a backlog, and after it, a wrong clock. */
  function Stale(rows: seq<Row>, today: (nat, nat, nat)): nat {
    if rows == [] then 0
    else Stale(rows[..|rows| - 1], today) + if Before(DayOf(rows[|rows| - 1].at), today) then 1 else 0
  }

  function Future(rows: seq<Row>, today: (nat, nat, nat)): nat {
    if rows == [] then 0
    else Future(rows[..|rows| - 1], today) + if Before(today, DayOf(rows[|rows| - 1].at)) then 1 else 0
  }

  lemma {:induction false} DaysAdd(rows: seq<Row>, today: (nat, nat, nat))
    ensures |OfDay(rows, today)| + Stale(rows, today) + Future(rows, today) == |rows|
  {
    if rows != [] { DaysAdd(rows[..|rows| - 1], today); }
  }

  method SplitPunchesByDay(rows: seq<Row>, today: (nat, nat, nat)) returns (todays: seq<Row>, stale: nat, future: nat)
    ensures todays == OfDay(rows, today) && stale == Stale(rows, today) && future == Future(rows, today)
    ensures |todays| + stale + future == |rows|
  {
    todays, stale, future := [], 0, 0;
    for i := 0 to |rows|
      invariant todays == OfDay(rows[..i], today) && stale == Stale(rows[..i], today)
        && future == Future(rows[..i], today)
    {
      assert rows[..i + 1][..i] == rows[..i];
      var day := DayOf(rows[i].at);
      if Before(day, today) { stale := stale + 1; }
      else if Before(today, day) { future := future + 1; }
      else { todays := todays + [rows[i]]; }
    }
    assert rows[..|rows|] == rows;
    DaysAdd(rows, today);
  }

  class Server {
    const accepts: Accepts
    const acceptsTeacher: Accepts
    var students: map<string, nat>
    var teachers: map<string, nat>
    var log: Table
    var teacherLog: Table
    /** Every punch that has entered the notification stage. */
    var notified: seq<Row>

    constructor (accepts: Accepts, acceptsTeacher: Accepts, students: map<string, nat>, teachers: map<string, nat>)
      ensures this.accepts == accepts && this.students == students && this.teachers == teachers
      ensures log == map[] && teacherLog == map[] && notified == []
    {
      this.accepts, this.acceptsTeacher := accepts, acceptsTeacher;
      this.students, this.teachers := students, teachers;
      log, teacherLog, notified := map[], map[], [];
    }

    /** The teacher rows of a batch: those whose PIN is no student's but a teacher's. */
    function TeacherRows(events: seq<Event>): seq<Row>
      reads this
    {
      RowsOf(events, Select(teachers, NewPins(events, students.Keys)))
    }

    /** The teachers' table after the batch: all of its teacher rows, or none when one is rejected. */
    function TeachersAfter(sn: string, events: seq<Event>): Table
      reads this
    {
      var rows := TeacherRows(events);
      if AllAccepted(rows, acceptsTeacher) then Stored(teacherLog, sn, rows, acceptsTeacher) else teacherLog
    }

    /** SELECT rfid_tag, id ... WHERE rfid_tag = ANY(pins) */
    static function Select(tags: map<string, nat>, pins: seq<string>): map<string, nat> {
      map p | p in pins && p in tags :: tags[p]
    }

    /** The query for the ids of the PINs. The database refuses the whole list when a PIN is no text. */
    method Lookup(c: Connection, tags: map<string, nat>, pins: seq<string>) returns (reply: Reply<map<string, nat>>)
      modifies c
      ensures reply.Done? ==> reply.value == Select(tags, pins) && !Refused(pins)
      ensures reply.DataError? ==> Refused(pins)
      ensures (forall n :: !c.fails(n)) ==> !reply.Transient?
    {
      var failed := c.Send();
      if failed { return Transient; }
      if Refused(pins) { return DataError; }
      return Done(Select(tags, pins));
    }

    /** The distinct PINs of the batch in order, and the table that marks each of them as seen. */
    method DistinctPins(events: seq<Event>) returns (pins: seq<string>, seen: map<string, bool>)
      ensures pins == NewPins(events, {})
      ensures forall p :: p in seen <==> HasPin(events, p)
      ensures forall p :: p in seen ==> seen[p]
    {
      pins, seen := [], map[];
      for i := 0 to |events|
        invariant pins == NewPins(events[..i], {})
        invariant forall p :: p in seen <==> HasPin(events[..i], p)
        invariant forall p :: p in seen ==> seen[p]
      {
        HasPinStep(events, i);
        if events[i].pin !in seen {
          seen := seen[events[i].pin := true];
          pins := pins + [events[i].pin];
        }
      }
      assert events[..|events|] == events;
    }

    /**
     The student rows of the batch and the PINs that match no student. The look-up answers with a
     data error exactly when a PIN of the batch is no text.
     */
    method Route(c: Connection, events: seq<Event>) returns (reply: Reply<(seq<Row>, seq<string>)>)
      modifies c
      ensures reply.Done? ==>
        PinsAreText(events) && reply.value == (RowsOf(events, students), NewPins(events, students.Keys))
      ensures reply.DataError? ==> !PinsAreText(events)
      ensures (forall n :: !c.fails(n)) ==> !reply.Transient?
    {
      var pins, seen := DistinctPins(events);
      RefusedExact(events, {});
      var found := Lookup(c, students, pins);
      match found
      case Transient => return Transient;
      case DataError => return DataError;
      case Done(ids) =>
        NewPinsExact(events, {});
        var batch, unknown := Match(events, ids, seen);
        return Done((batch, unknown));
    }

    /** The second loop over the batch, once the ids of its PINs are known. */
    method Match(events: seq<Event>, ids: map<string, nat>, marked: map<string, bool>)
      returns (batch: seq<Row>, unknown: seq<string>)
      requires forall p :: HasPin(events, p) ==> (p in ids <==> p in students)
      requires forall p :: p in ids ==> p in students && ids[p] == students[p]
      requires forall p :: p in marked <==> HasPin(events, p)
      requires forall p :: p in marked ==> marked[p]
      ensures batch == RowsOf(events, students) && unknown == NewPins(events, students.Keys)
    {
      var seen := marked;
      batch, unknown := [], [];
      for i := 0 to |events|
        invariant batch == RowsOf(events[..i], students)
        invariant unknown == NewPins(events[..i], students.Keys)
        invariant forall p :: p in seen <==> HasPin(events, p)
        invariant forall p :: p in seen && p !in students ==> (seen[p] <==> !HasPin(events[..i], p))
      {
        HasPinStep(events, i);
        var pin := events[i].pin;
        assert HasPin(events, pin);
        if pin !in ids {
          if seen[pin] {
            seen := seen[pin := false];
            unknown := unknown + [pin];
          }
          continue;
        }
        batch := batch + [Row(ids[pin], events[i].at)];
      }
      assert events[..|events|] == events;
    }

    /**
     storeTeacherPunches: the rows of the PINs that match a teacher. Rows the database rejects are
     all skipped, so the student punches still commit.
     */
    method StoreTeachers(c: Connection, sn: string, events: seq<Event>, pins: seq<string>)
      returns (u: Table, reply: Reply<(int, int, seq<string>)>)
      requires pins == NewPins(events, students.Keys)
      modifies c
      ensures reply.DataError? ==> !PinsAreText(events)
      ensures reply.Done? ==>
        && reply.value.2 == NewPins(events, students.Keys + teachers.Keys) && u == TeachersAfter(sn, events)
        && var rows := TeacherRows(events);
           if AllAccepted(rows, acceptsTeacher)
           then reply.value.0 == |Inserted(teacherLog, rows, acceptsTeacher)| && reply.value.0 + reply.value.1 == |rows|
           else reply.value.0 == reply.value.1 == 0
      ensures (forall n :: !c.fails(n)) ==> !reply.Transient?
    {
      u := teacherLog;
      RefusedExact(events, students.Keys);
      var found := Lookup(c, teachers, pins);
      if found.Transient? { return u, Transient; }
      if found.DataError? { return u, DataError; }
      var ids := found.value;
      var unknown: seq<string> := [];
      for i := 0 to |pins|
        invariant unknown == Without(pins[..i], teachers.Keys)
      {
        assert pins[..i + 1][..i] == pins[..i];
        if pins[i] !in ids { unknown := unknown + [pins[i]]; }
      }
      assert pins[..|pins|] == pins;
      WithoutNewPins(events, students.Keys, teachers.Keys);
      var rows := RowsOf(events, ids);
      if rows == [] {
        assert Stored(teacherLog, sn, rows, acceptsTeacher) == teacherLog;
        return u, Done((0, 0, unknown));
      }
      var inserted;
      u, inserted := InsertBulk(c, teacherLog, sn, rows, acceptsTeacher);
      match inserted
      case Transient => return teacherLog, Transient;
      case DataError => return teacherLog, Done((0, 0, unknown));
      case Done(stored) =>
        Accounting(teacherLog, rows, acceptsTeacher);
        AcceptedIfNoneRejected(rows, acceptsTeacher);
        return u, Done((|stored|, |rows| - |stored|, unknown));
    }

    /** The student punches: all in one statement, and one by one when that meets a data error. */
    method StoreStudents(c: Connection, sn: string, batch: seq<Row>) returns (u: Table, stored: Option<(seq<Row>, nat)>)
      modifies c
      ensures stored.Some? ==> u == Stored(log, sn, batch, accepts)
      ensures stored.Some? ==> stored.value == (Inserted(log, batch, accepts), Rejected(batch, accepts))
      ensures (forall n :: !c.fails(n)) ==> stored.Some?
    {
      var bulk;
      u, bulk := InsertBulk(c, log, sn, batch, accepts);
      match bulk
      case Transient => return u, None;
      case Done(inserted) => return u, Some((inserted, 0));
      case DataError =>
        var each;
        u, each := InsertEach(c, u, sn, batch, accepts);
        return u, if each.Done? then Some(each.value) else None;
    }

    /**
     persistATTLOG: one transaction; a transient error anywhere, or a data error of a look-up, leaves
     every table as it was.
     */
    method Persist(c: Connection, sn: string, events: seq<Event>) returns (result: Option<Summary>)
      modifies c, this`log, this`teacherLog
      ensures result.None? ==> log == old(log) && teacherLog == old(teacherLog)
      ensures result.Some? ==>
        var rows, s := RowsOf(events, students), result.value;
        && log == Stored(old(log), sn, rows, accepts)
        && s.inserted == Inserted(old(log), rows, accepts)
        && s.duplicates == Duplicates(old(log), rows, accepts)
        && s.rejected == Rejected(rows, accepts)
        && s.unknown == NewPins(events, students.Keys + teachers.Keys)
      ensures result.Some? ==> teacherLog == old(TeachersAfter(sn, events))
      ensures result.Some? ==> PinsAreText(events)
      ensures (forall n :: !c.fails(n)) ==> (result.Some? <==> PinsAreText(events))
    {
      var failed := c.Send();
      if failed { return None; }
      var routed := Route(c, events);
      if !routed.Done? { return None; }
      var batch, unknown := routed.value.0, routed.value.1;
      var tx, stored := StoreStudents(c, sn, batch);
      if stored.None? { return None; }
      var inserted, rejected := stored.value.0, stored.value.1;
      Accounting(log, batch, accepts);
      var teacherTx, teacherInserted, teacherDuplicates := teacherLog, 0, 0;
      if unknown != [] {
        var t;
        teacherTx, t := StoreTeachers(c, sn, events, unknown);
        if !t.Done? { return None; }
        teacherInserted, teacherDuplicates, unknown := t.value.0, t.value.1, t.value.2;
      } else {
        NoTeachers(sn, events);
      }
      failed := c.Send();
      if failed { return None; }
      log, teacherLog := tx, teacherTx;
      return Some(Summary(inserted, |batch| - |inserted| - rejected, teacherInserted, teacherDuplicates, unknown,
        rejected));
    }

    /** When every PIN is a student's, the teachers' table stays and no PIN is unknown. */
    lemma NoTeachers(sn: string, events: seq<Event>)
      requires NewPins(events, students.Keys) == []
      ensures TeachersAfter(sn, events) == teacherLog && NewPins(events, students.Keys + teachers.Keys) == []
    {
      WithoutNewPins(events, students.Keys, teachers.Keys);
      NoRows(events);
      assert Select(teachers, []) == map[];
      assert Stored(teacherLog, sn, [], acceptsTeacher) == teacherLog;
    }

    /**
     ADMSHandler for a POST: Retry (503) makes the device keep and resend the batch, and then nothing
     has changed. It is answered to a transient failure, and to every batch with a PIN that is no text.
     OK for a batch that was read from an active device means that its punches are
     stored and those of today have entered the notification stage.
     */
    method Handle(c: Connection, sn: string, device: Device, table: string, body: Body, today: (nat, nat, nat))
      returns (answer: Answer)
      modifies c, this`log, this`teacherLog, this`notified
      ensures answer == Retry ==> log == old(log) && teacherLog == old(teacherLog) && notified == old(notified)
      ensures answer == OK ==>
        if sn != "" && device == Active && table == "ATTLOG" && body.Read?
        then var rows := RowsOf(Parse(body.text), students);
          && log == Stored(old(log), sn, rows, accepts)
          && teacherLog == old(TeachersAfter(sn, Parse(body.text)))
          && notified == old(notified) + OfDay(Inserted(old(log), rows, accepts), today)
        else log == old(log) && teacherLog == old(teacherLog) && notified == old(notified)
      ensures answer == OK && sn != "" && device == Active && table == "ATTLOG" && body.Read? ==>
        PinsAreText(Parse(body.text))
      ensures (forall n :: !c.fails(n)) && body != ReadError && !(device.LookupFailed? && device.transient) ==>
        (answer == Retry <==>
          sn != "" && device == Active && table == "ATTLOG" && body.Read? && !PinsAreText(Parse(body.text)))
    {
      hide Parse;
      if sn == "" { return OK; }
      match device {
        case Unregistered | Disabled => return OK;
        case LookupFailed(transient) => return if transient then Retry else OK;
        case Active =>
      }
      if table != "ATTLOG" { return OK; }
      match body {
        case TooLarge => return OK;
        case ReadError => return Retry;
        case Read(_) =>
      }
      var events := ParseATTLOG(body.text);
      if events == [] {
        assert Stored(log, sn, [], accepts) == log && Stored(teacherLog, sn, [], acceptsTeacher) == teacherLog;
        return OK;
      }
      var result := Persist(c, sn, events);
      if result.None? { return Retry; }
      var todays, _, _ := SplitPunchesByDay(result.value.inserted, today);
      notified := notified + todays;
      return OK;
    }
  }

  /** Without PINs to look up there are no rows. */
  lemma {:induction false} NoRows(events: seq<Event>)
    ensures RowsOf(events, map[]) == []
  {
    if events != [] { NoRows(events[..|events| - 1]); }
  }

  lemma HasPinStep(events: seq<Event>, i: nat)
    requires i < |events|
    ensures events[..i + 1][..i] == events[..i]
    ensures forall p :: HasPin(events[..i + 1], p) <==> HasPin(events[..i], p) || p == events[i].pin
  {
    var before, longer := events[..i], events[..i + 1];
    assert longer == before + [events[i]] && longer[..i] == before;
    forall p ensures HasPin(longer, p) <==> HasPin(before, p) || p == events[i].pin {
      if k :| 0 <= k < |before| && before[k].pin == p { assert longer[k].pin == p; }
      if events[i].pin == p { assert longer[i].pin == p; }
      if k :| 0 <= k < |longer| && longer[k].pin == p { if k < i { assert before[k].pin == p; } }
    }
  }

  lemma {:induction false} AcceptedIfNoneRejected(rows: seq<Row>, accepts: Accepts)
    requires Rejected(rows, accepts) == 0
    ensures AllAccepted(rows, accepts)
  {
    if rows != [] { AcceptedIfNoneRejected(rows[..|rows| - 1], accepts); }
  }
}
