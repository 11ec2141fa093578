/**
 The resend protocol over whole runs: several devices, each with a queue of batches, push their head
 batch until they hear OK, while attempts fail transiently, replies get lost, devices are disabled
 and students come and go (ADMSHandler in internal/handlers/hardware.go).
 */
module PunchProtocol {
  import opened AttLog
  import opened PunchStore

  type Batch = seq<Event>

  type Students = map<string, nat>

  /** The batches each device will push, and which rows the database accepts. */
  datatype Setup = Setup(queues: map<string, seq<Batch>>, accepts: Accepts)

  /** Batch k of a device, stored for the students of that moment. */
  datatype Sent = Sent(sn: string, k: nat, students: Students)

  /**
   acked[sn] counts the batches the device has heard OK for; it now pushes the next one. `sent` and
   `ignored` record what the server did: batches it stored, and batches it answered OK without storing.
   */
  datatype World = World(
    log: Table, acked: map<string, nat>, notified: seq<Row>, sent: set<Sent>, ignored: set<(string, nat)>)

  /** Failed is 503; Ignored is OK for a device that is not active or a body that is too large. */
  datatype Outcome = Failed | Committed | Ignored

  /** One push of the head batch: what the server makes of it, and whether the reply is heard. */
  datatype Push = Push(sn: string, students: Students, outcome: Outcome, heard: bool, today: (nat, nat, nat))

  /** A batch with a PIN that is no text is never stored. */
  predicate Can(c: Setup, w: World, p: Push) {
    && p.sn in c.queues && p.sn in w.acked && w.acked[p.sn] < |c.queues[p.sn]|
    && (p.outcome == Committed ==> PinsAreText(c.queues[p.sn][w.acked[p.sn]]))
  }

  function Head(c: Setup, w: World, p: Push): seq<Row>
    requires Can(c, w, p)
  {
    RowsOf(c.queues[p.sn][w.acked[p.sn]], p.students)
  }

  /** What the push leaves, and whether the device drops the batch. */
  function Do(c: Setup, w: World, p: Push): World
    requires Can(c, w, p)
  {
    var k := w.acked[p.sn];
    var acked := if p.heard then w.acked[p.sn := k + 1] else w.acked;
    match p.outcome
    case Failed => w
    case Ignored => w.(acked := acked, ignored := w.ignored + {(p.sn, k)})
    case Committed =>
      World(
        Stored(w.log, p.sn, Head(c, w, p), c.accepts),
        acked,
        w.notified + OfDay(Inserted(w.log, Head(c, w, p), c.accepts), p.today),
        w.sent + {Sent(p.sn, k, p.students)},
        w.ignored)
  }

  /** One request as the server handles it is one push of the protocol; `p` says which. */
  method PushHead(
    server: Server, c: Connection, sn: string, device: Device, body: Body, today: (nat, nat, nat),
    ghost setup: Setup, ghost w: World, ghost heard: bool)
    returns (answer: Answer, ghost p: Push)
    requires setup.accepts == server.accepts && w.log == server.log && w.notified == server.notified
    requires sn in setup.queues && sn in w.acked && w.acked[sn] < |setup.queues[sn]|
    requires body.Read? ==> Parse(body.text) == setup.queues[sn][w.acked[sn]]
    modifies c, server`log, server`teacherLog, server`notified
    ensures Can(setup, w, p) && p.sn == sn && p.students == server.students && p.heard == heard
    ensures Do(setup, w, p).log == server.log && Do(setup, w, p).notified == server.notified
    ensures p.outcome == Failed <==> answer == Retry
    ensures p.outcome == Committed <==> answer == OK && sn != "" && device == Active && body.Read?
    ensures (forall n :: !c.fails(n)) && sn != "" && device == Active && body.Read? ==>
      p.outcome == if PinsAreText(setup.queues[sn][w.acked[sn]]) then Committed else Failed
  {
    answer := server.Handle(c, sn, device, "ATTLOG", body, today);
    p := Push(
      sn, server.students,
      if answer == Retry then Failed else if sn != "" && device == Active && body.Read? then Committed else Ignored,
      heard, today);
  }

  ghost predicate Next(c: Setup, w: World, u: World) {
    exists p :: Can(c, w, p) && u == Do(c, w, p)
  }

  /** Step i of the run. */
  ghost predicate Stepped(c: Setup, run: seq<World>, i: nat)
    requires 0 < i < |run|
  {
    Next(c, run[i - 1], run[i])
  }

  ghost predicate IsRun(c: Setup, run: seq<World>) {
    && run != [] && run[0].acked == (map sn | sn in c.queues :: 0)
    && run[0].notified == [] && run[0].sent == {} && run[0].ignored == {}
    && forall i :: 0 < i < |run| ==> Stepped(c, run, i)
  }

  /** The stored batch has an accepted punch of a student known then. */
  ghost predicate Sends(c: Setup, s: Sent, r: Row) {
    s.sn in c.queues && s.k < |c.queues[s.sn]| && r in RowsOf(c.queues[s.sn][s.k], s.students) && c.accepts(r)
  }

  ghost predicate Distinct(rows: seq<Row>) {
    forall i, j :: 0 <= i < j < |rows| ==> rows[i] != rows[j]
  }

  /** Some push stored batch k of the device. */
  ghost predicate WasSent(w: World, sn: string, k: nat) {
    exists students :: Sent(sn, k, students) in w.sent
  }

  /**
   Every batch a device let go was stored, or answered OK without being stored; nothing behind a
   device's head batch was, and no batch that is stored has a PIN that is no text.
   */
  ghost predicate Progress(c: Setup, w: World) {
    && w.acked.Keys == c.queues.Keys && (forall sn :: sn in c.queues ==> w.acked[sn] <= |c.queues[sn]|)
    && (forall sn, k: nat :: sn in w.acked && k < w.acked[sn] ==> (sn, k) in w.ignored || WasSent(w, sn, k))
    && (forall s :: s in w.sent ==>
      s.sn in c.queues && s.k < |c.queues[s.sn]| && s.k <= w.acked[s.sn] && PinsAreText(c.queues[s.sn][s.k]))
    && forall b :: b in w.ignored ==> b.0 in c.queues && b.1 <= w.acked[b.0]
  }

  /**
   The table is the old one and exactly the accepted punches of the batches stored, each once, under
   a device that sent it.
   */
  ghost predicate LogOk(c: Setup, start: Table, w: World) {
    && (forall r :: r in start ==> r in w.log && w.log[r] == start[r])
    && (forall r :: r in w.log && r !in start ==> exists s :: s in w.sent && s.sn == w.log[r] && Sends(c, s, r))
    && (forall s, r :: s in w.sent && Sends(c, s, r) ==> r in w.log)
  }

  /** A punch enters the notification stage at most once, and only once it is newly stored. */
  ghost predicate NotifiedOk(start: Table, w: World) {
    Distinct(w.notified) && forall r :: r in w.notified ==> r in w.log && r !in start
  }

  lemma {:induction false} OfDaySubset(rows: seq<Row>, today: (nat, nat, nat))
    requires Distinct(rows)
    ensures Distinct(OfDay(rows, today))
    ensures forall r :: r in OfDay(rows, today) ==> r in rows
  {
    if rows != [] {
      var before := rows[..|rows| - 1];
      OfDaySubset(before, today);
      var kept := OfDay(before, today);
      forall i | 0 <= i < |kept| ensures kept[i] != rows[|rows| - 1] { assert kept[i] in before; }
    }
  }

  lemma ProgressStep(c: Setup, w: World, p: Push)
    requires Progress(c, w) && Can(c, w, p)
    ensures Progress(c, Do(c, w, p))
  {
    var u, k := Do(c, w, p), w.acked[p.sn];
    forall sn, j: nat | sn in u.acked && j < u.acked[sn] ensures (sn, j) in u.ignored || WasSent(u, sn, j) {
      if sn == p.sn && j == k {
        assert p.outcome == Committed ==> Sent(sn, j, p.students) in u.sent;
      } else if (sn, j) !in w.ignored {
        var students :| Sent(sn, j, students) in w.sent;
        assert Sent(sn, j, students) in u.sent;
      }
    }
  }

  /** A new row of the table comes from a batch stored so far. */
  lemma LogSent(c: Setup, start: Table, w: World, p: Push, r: Row)
    requires LogOk(c, start, w) && Can(c, w, p) && p.outcome == Committed
    requires r in Do(c, w, p).log && r !in start
    ensures exists s :: s in Do(c, w, p).sent && s.sn == Do(c, w, p).log[r] && Sends(c, s, r)
  {
    var u := Do(c, w, p);
    if r !in w.log {
      assert Sends(c, Sent(p.sn, w.acked[p.sn], p.students), r);
    } else {
      var s :| s in w.sent && s.sn == w.log[r] && Sends(c, s, r);
      assert s in u.sent && s.sn == u.log[r];
    }
  }

  /** Every accepted punch of a batch stored so far is in the table. */
  lemma LogHolds(c: Setup, start: Table, w: World, p: Push, s: Sent, r: Row)
    requires LogOk(c, start, w) && Can(c, w, p) && p.outcome == Committed
    requires s in Do(c, w, p).sent && Sends(c, s, r)
    ensures r in Do(c, w, p).log
  {
  }

  lemma LogStep(c: Setup, start: Table, w: World, p: Push)
    requires LogOk(c, start, w) && Can(c, w, p)
    ensures LogOk(c, start, Do(c, w, p))
  {
    var u := Do(c, w, p);
    if p.outcome == Committed {
      forall r | r in u.log && r !in start
        ensures exists s :: s in u.sent && s.sn == u.log[r] && Sends(c, s, r)
      {
        LogSent(c, start, w, p, r);
      }
      forall s, r | s in u.sent && Sends(c, s, r) ensures r in u.log { LogHolds(c, start, w, p, s, r); }
    }
  }

  lemma NotifiedStep(c: Setup, start: Table, w: World, p: Push)
    requires NotifiedOk(start, w) && Can(c, w, p)
    requires forall r :: r in start ==> r in w.log
    ensures NotifiedOk(start, Do(c, w, p))
  {
    if p.outcome == Committed {
      var rows := Head(c, w, p);
      var inserted := Inserted(w.log, rows, c.accepts);
      InsertedExact(w.log, p.sn, rows, c.accepts);
      OfDaySubset(inserted, p.today);
      var todays := OfDay(inserted, p.today);
      assert forall j :: 0 <= j < |todays| ==> todays[j] in inserted;
      assert forall i :: 0 <= i < |w.notified| ==> w.notified[i] in w.notified;
    }
  }

  /**
   In any run of pushes, failures, lost replies and resends, by any number of devices, with any
   changes of students and devices in between: a batch that a device let go was stored, unless the
   server answered OK without storing it; the table holds the old rows and exactly the accepted
   punches of the stored batches, each once; and no punch enters the notification stage twice.
   */
  lemma {:induction false} AlwaysOk(c: Setup, run: seq<World>, i: nat)
    requires IsRun(c, run) && i < |run|
    ensures Progress(c, run[i]) && LogOk(c, run[0].log, run[i]) && NotifiedOk(run[0].log, run[i])
  {
    if i > 0 {
      AlwaysOk(c, run, i - 1);
      assert Stepped(c, run, i);
      var p :| Can(c, run[i - 1], p) && run[i] == Do(c, run[i - 1], p);
      ProgressStep(c, run[i - 1], p);
      LogStep(c, run[0].log, run[i - 1], p);
      NotifiedStep(c, run[0].log, run[i - 1], p);
    }
  }

  /** What a device heard OK for, and was not ignored, is stored for the students of some moment. */
  lemma AcknowledgedIsStored(c: Setup, run: seq<World>, i: nat, sn: string, k: nat) returns (students: Students)
    requires IsRun(c, run) && i < |run|
    requires sn in run[i].acked && k < run[i].acked[sn] && (sn, k) !in run[i].ignored
    ensures sn in c.queues && k < |c.queues[sn]|
    ensures forall r :: r in RowsOf(c.queues[sn][k], students) && c.accepts(r) ==> r in run[i].log
  {
    AlwaysOk(c, run, i);
    students :| Sent(sn, k, students) in run[i].sent;
    forall r | r in RowsOf(c.queues[sn][k], students) && c.accepts(r) ensures r in run[i].log {
      assert Sends(c, Sent(sn, k, students), r);
    }
  }

  /**
   A device whose batch k has a PIN that is no text stays at it, whatever it resends and however
   healthy the database is, until the server drops the batch unread: neither that batch nor any behind
   it is stored or dropped.
   */
  lemma BlockedBatch(c: Setup, run: seq<World>, i: nat, sn: string, k: nat)
    requires IsRun(c, run) && i < |run| && sn in c.queues && k < |c.queues[sn]|
    requires !PinsAreText(c.queues[sn][k]) && (sn, k) !in run[i].ignored
    ensures sn in run[i].acked && run[i].acked[sn] <= k
    ensures forall s :: s in run[i].sent && s.sn == sn ==> s.k < k
    ensures forall b :: b in run[i].ignored && b.0 == sn ==> b.1 < k
  {
    AlwaysOk(c, run, i);
    assert k < run[i].acked[sn] ==> WasSent(run[i], sn, k);
    forall b | b in run[i].ignored && b.0 == sn ensures b.1 < k { assert b == (sn, b.1); }
  }

  /**
   Once every queue is drained, none of it ignored and every batch stored for the same students, the
   rows do not depend on how many attempts that took.
   */
  lemma DrainedRows(c: Setup, run: seq<World>, i: nat, students: Students, r: Row)
    requires IsRun(c, run) && i < |run|
    requires run[i].acked == (map sn | sn in c.queues :: |c.queues[sn]|) && run[i].ignored == {}
    requires forall s :: s in run[i].sent ==> s.students == students
    ensures r in run[i].log <==> r in run[0].log || exists sn, k :: Sends(c, Sent(sn, k, students), r)
  {
    AlwaysOk(c, run, i);
    if r in run[i].log && r !in run[0].log {
      var s :| s in run[i].sent && s.sn == run[i].log[r] && Sends(c, s, r);
      assert s == Sent(s.sn, s.k, students);
    }
    if sn, k :| Sends(c, Sent(sn, k, students), r) {
      assert WasSent(run[i], sn, k);
      var other :| Sent(sn, k, other) in run[i].sent;
      assert other == students;
    }
  }

  /**
   With any number of devices, two runs that stored the same batches from the same table end with the
   same rows, whatever failed, was resent or was repeated in between.
   */
  lemma SameRows(c: Setup, a: seq<World>, i: nat, b: seq<World>, j: nat)
    requires IsRun(c, a) && IsRun(c, b) && i < |a| && j < |b|
    requires a[0].log == b[0].log && a[i].sent == b[j].sent
    ensures a[i].log.Keys == b[j].log.Keys
  {
    AlwaysOk(c, a, i);
    AlwaysOk(c, b, j);
  }

  /** With one device the whole tables agree, the device stored with each row included. */
  lemma OneDeviceTable(c: Setup, a: seq<World>, i: nat, b: seq<World>, j: nat, sn: string)
    requires IsRun(c, a) && IsRun(c, b) && i < |a| && j < |b|
    requires a[0].log == b[0].log && a[i].sent == b[j].sent && c.queues.Keys == {sn}
    ensures a[i].log == b[j].log
  {
    SameRows(c, a, i, b, j);
    forall r | r in a[i].log ensures a[i].log[r] == b[j].log[r] {
      OneDeviceRow(c, a, i, sn, r);
      OneDeviceRow(c, b, j, sn, r);
    }
  }

  lemma OneDeviceRow(c: Setup, run: seq<World>, i: nat, sn: string, r: Row)
    requires IsRun(c, run) && i < |run| && c.queues.Keys == {sn} && r in run[i].log
    ensures run[i].log[r] == if r in run[0].log then run[0].log[r] else sn
  {
    AlwaysOk(c, run, i);
    if r !in run[0].log {
      var s :| s in run[i].sent && s.sn == run[i].log[r] && Sends(c, s, r);
      assert s.sn in c.queues.Keys;
    }
  }
}
