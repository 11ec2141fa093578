/**
 Which punches are notified (notifyPunchesSQL in internal/handlers/hardware.go, with the windows of
 internal/handlers/attendance.go and of the status function, migration 000017). The query compares
 minute-precision text; the theorems say that this stands for "first punch of its window".
 */
module PunchWindows {
  import opened Decimal
  import opened AttLog

  const MINUTE := 60_000_000

  /** A time of day in microseconds after midnight. */
  type Clock = t: nat | t < 1440 * 60_000_000 witness 0

  /** A stored punch. */
  datatype Punch = Punch(student: nat, day: int, at: Clock)

  datatype Kind = In | Out

  /** The windows, in minutes after midnight: 06:30 to 09:31 and 11:30 to 13:31, ends excluded. */
  function Start(k: Kind): nat {
    if k == In then 6 * 60 + 30 else 11 * 60 + 30
  }

  function End(k: Kind): nat {
    if k == In then 9 * 60 + 31 else 13 * 60 + 31
  }

  predicate InWindow(at: nat, k: Kind) {
    Start(k) * MINUTE <= at < End(k) * MINUTE
  }

  /** The hour on a twelve-hour clock. */
  function Hour12(minute: nat): (h: nat)
    ensures 1 <= h <= 12
  {
    if minute / 60 % 12 == 0 then 12 else minute / 60 % 12
  }

  /** TO_CHAR(t, 'HH12:MI AM') */
  function MinuteText(at: Clock): string {
    var minute := at / MINUTE;
    Two(Hour12(minute)) + ":" + Two(minute % 60) + (if minute / 60 < 12 then " AM" else " PM")
  }

  lemma TwoInjective(a: nat, b: nat)
    requires a < 100 && b < 100 && Two(a) == Two(b)
    ensures a == b
  {
    assert DigitValue(Two(a)[0]) == a / 10 && DigitValue(Two(a)[1]) == a % 10;
    assert DigitValue(Two(b)[0]) == b / 10 && DigitValue(Two(b)[1]) == b % 10;
  }

  lemma TextParts(at: Clock)
    ensures |MinuteText(at)| == 8
    ensures MinuteText(at)[..2] == Two(Hour12(at / MINUTE)) && MinuteText(at)[3..5] == Two(at / MINUTE % 60)
    ensures MinuteText(at)[6] == if at / MINUTE / 60 < 12 then 'A' else 'P'
  {
  }

  /** The three parts of the text determine the minute of the day. */
  lemma PartsInjective(x: nat, y: nat)
    requires x < 1440 && y < 1440 && Hour12(x) == Hour12(y) && x % 60 == y % 60 && (x / 60 < 12 <==> y / 60 < 12)
    ensures x == y
  {
    assert x / 60 == y / 60;
  }

  /** Within one date, equal texts mean the same minute. */
  lemma MinuteTextInjective(a: Clock, b: Clock)
    ensures MinuteText(a) == MinuteText(b) <==> a / MINUTE == b / MINUTE
  {
    if MinuteText(a) == MinuteText(b) {
      TextParts(a);
      TextParts(b);
      TwoInjective(Hour12(a / MINUTE), Hour12(b / MINUTE));
      TwoInjective(a / MINUTE % 60, b / MINUTE % 60);
      PartsInjective(a / MINUTE, b / MINUTE);
    }
  }

  type Log = set<Punch>

  predicate SameDay(p: Punch, q: Punch) {
    p.student == q.student && p.day == q.day
  }

  /** p is the student's first punch of the window on its date. */
  predicate Earliest(log: Log, p: Punch, k: Kind) {
    p in log && InWindow(p.at, k) && forall q :: q in log && SameDay(p, q) && InWindow(q.at, k) ==> p.at <= q.at
  }

  /** `text` is first_check (In) or last_check (Out) of the status function for p's student and date. */
  ghost predicate StatusText(log: Log, p: Punch, k: Kind, text: string) {
    exists q :: Earliest(log, q, k) && SameDay(p, q) && text == MinuteText(q.at)
  }

  /** The WHERE clause of the notification query. */
  ghost predicate Selected(log: Log, p: Punch, school: int -> bool) {
    && (StatusText(log, p, In, MinuteText(p.at)) || StatusText(log, p, Out, MinuteText(p.at)))
    && (forall a :: a in log && SameDay(p, a) && a.at < p.at ==> a.at / MINUTE != p.at / MINUTE)
    && school(p.day)
  }

  ghost predicate SelectedAsCheckOut(log: Log, p: Punch) {
    StatusText(log, p, Out, MinuteText(p.at))
  }

  /** Window bounds are whole minutes, so a minute lies in a window or outside it as a whole. */
  lemma MinuteInWindow(a: nat, b: nat, k: Kind)
    requires a / MINUTE == b / MINUTE
    ensures InWindow(a, k) <==> InWindow(b, k)
  {
  }

  lemma TextMeansEarliest(log: Log, p: Punch, k: Kind)
    requires p in log
    requires forall a :: a in log && SameDay(p, a) && a.at < p.at ==> a.at / MINUTE != p.at / MINUTE
    ensures StatusText(log, p, k, MinuteText(p.at)) <==> Earliest(log, p, k)
  {
    if StatusText(log, p, k, MinuteText(p.at)) {
      var q :| Earliest(log, q, k) && SameDay(p, q) && MinuteText(p.at) == MinuteText(q.at);
      MinuteTextInjective(p.at, q.at);
      MinuteInWindow(p.at, q.at, k);
    }
  }

  /**
   The text test is exact: a stored punch is selected if and only if it falls on a school day and is
   the first punch of its check-in or check-out window; and it is called a check-out exactly when it
   is the first of the check-out window.
   */
  lemma SelectedExact(log: Log, p: Punch, school: int -> bool)
    requires p in log
    ensures Selected(log, p, school) <==> school(p.day) && (Earliest(log, p, In) || Earliest(log, p, Out))
    ensures Selected(log, p, school) ==> (SelectedAsCheckOut(log, p) <==> Earliest(log, p, Out))
  {
    if Earliest(log, p, In) || Earliest(log, p, Out) {
      var k := if Earliest(log, p, In) then In else Out;
      forall a | a in log && SameDay(p, a) && a.at < p.at ensures a.at / MINUTE != p.at / MINUTE {
        if a.at / MINUTE == p.at / MINUTE { MinuteInWindow(a.at, p.at, k); }
      }
      TextMeansEarliest(log, p, In);
      TextMeansEarliest(log, p, Out);
    } else if Selected(log, p, school) {
      TextMeansEarliest(log, p, In);
      TextMeansEarliest(log, p, Out);
    }
  }

  // ---------------------------------------------------------------- whole runs

  datatype Note = Note(punch: Punch, kind: Kind)

  /** `waiting`: committed punches dated that day whose notification query has not run yet. */
  datatype World = World(log: Log, waiting: set<Punch>, notes: seq<Note>)

  /**
   Batches commit and their queries run in any order, interleaved across devices. Commit also covers
   a manual entry, whose row enters the log too (`queued` is then empty). Each query asks which dates are
   school days at that moment: closures may come and go between queries.
   */
  datatype Action = Commit(rows: set<Punch>, queued: set<Punch>) | Query(p: Punch, school: int -> bool)

  ghost predicate Can(w: World, a: Action) {
    match a
    case Commit(rows, queued) => rows !! w.log && queued <= rows
    case Query(p, _) => p in w.waiting
  }

  ghost function Do(w: World, a: Action): World
    requires Can(w, a)
  {
    match a
    case Commit(rows, queued) => World(w.log + rows, w.waiting + queued, w.notes)
    case Query(p, school) =>
      World(w.log, w.waiting - {p},
        if Selected(w.log, p, school) then w.notes
          + [Note(p, if SelectedAsCheckOut(w.log, p) then Out else In)] else w.notes)
  }

  ghost predicate Ok(w: World) {
    && w.waiting <= w.log
    && forall i :: 0 <= i < |w.notes| ==>
      w.notes[i].punch in w.log - w.waiting && InWindow(w.notes[i].punch.at, w.notes[i].kind)
  }

  ghost predicate SameKey(a: Note, b: Note) {
    SameDay(a.punch, b.punch) && a.kind == b.kind
  }

  ghost predicate Decreasing(notes: seq<Note>) {
    forall i, j :: 0 <= i < j < |notes| && SameKey(notes[i], notes[j]) ==> notes[j].punch.at < notes[i].punch.at
  }

  ghost predicate Next(w: World, u: World) {
    exists a :: Can(w, a) && u == Do(w, a)
  }

  /** Step i of the run. */
  ghost predicate Stepped(run: seq<World>, i: nat)
    requires 0 < i < |run|
  {
    Next(run[i - 1], run[i])
  }

  ghost predicate IsRun(run: seq<World>) {
    run != [] && run[0] == World({}, {}, []) && forall i :: 0 < i < |run| ==> Stepped(run, i)
  }

  lemma NoteStep(w: World, a: Action)
    requires Ok(w) && Decreasing(w.notes) && Can(w, a)
    ensures Ok(Do(w, a)) && Decreasing(Do(w, a).notes)
  {
    if a.Query? {
      SelectedExact(w.log, a.p, a.school);
    }
  }

  lemma NoteNext(w: World, u: World)
    requires Ok(w) && Decreasing(w.notes) && Next(w, u)
    ensures Ok(u) && Decreasing(u.notes)
  {
    var a :| Can(w, a) && u == Do(w, a);
    NoteStep(w, a);
  }

  /**
   In every run, whatever closures change meanwhile,
     the check-ins (or check-outs) notified for one student and date have strictly
   decreasing times: a later notification only ever corrects to an earlier punch.
   */
  lemma {:induction false} NotesDecrease(run: seq<World>, i: nat)
    requires IsRun(run) && i < |run|
    ensures Ok(run[i]) && Decreasing(run[i].notes)
  {
    if i > 0 {
      NotesDecrease(run, i - 1);
      assert Stepped(run, i);
      NoteNext(run[i - 1], run[i]);
    }
  }

  /** Step i brings only punches later than every punch the same student already had that date. */
  ghost predicate InOrder(w: World, u: World) {
    forall p, q :: p in u.log - w.log && q in w.log && SameDay(p, q) ==> q.at < p.at
  }

  ghost predicate NotedOnce(w: World) {
    && (forall i :: 0 <= i < |w.notes| ==> Earliest(w.log, w.notes[i].punch, w.notes[i].kind))
    && forall i, j :: 0 <= i < j < |w.notes| ==> !SameKey(w.notes[i], w.notes[j])
  }

  lemma InOrderCommit(w: World, a: Action)
    requires NotedOnce(w) && Ok(w) && a.Commit? && Can(w, a) && InOrder(w, Do(w, a))
    ensures NotedOnce(Do(w, a))
  {
    var u := Do(w, a);
    forall i | 0 <= i < |u.notes| ensures Earliest(u.log, u.notes[i].punch, u.notes[i].kind) {
      assert Earliest(w.log, w.notes[i].punch, w.notes[i].kind);
    }
  }

  lemma InOrderQuery(w: World, p: Punch, school: int -> bool)
    requires NotedOnce(w) && Ok(w) && Can(w, Query(p, school))
    ensures NotedOnce(Do(w, Query(p, school)))
  {
    SelectedExact(w.log, p, school);
    if Selected(w.log, p, school) {
      var k := if SelectedAsCheckOut(w.log, p) then Out else In;
      forall i | 0 <= i < |w.notes| ensures !SameKey(w.notes[i], Note(p, k)) {
        assert Earliest(w.log, w.notes[i].punch, w.notes[i].kind);
      }
    }
  }

  /** When punches arrive in order, each student gets at most one check-in and one check-out a date. */
  lemma {:induction false} InOrderAtMostOne(run: seq<World>, n: nat)
    requires IsRun(run) && n < |run|
    requires forall i :: 0 < i <= n ==> InOrder(run[i - 1], run[i])
    ensures NotedOnce(run[n])
  {
    if n > 0 {
      NotesDecrease(run, n - 1);
      InOrderAtMostOne(run, n - 1);
      assert Stepped(run, n) && InOrder(run[n - 1], run[n]);
      var a :| Can(run[n - 1], a) && run[n] == Do(run[n - 1], a);
      match a
      case Commit(_, _) => InOrderCommit(run[n - 1], a);
      case Query(p, school) => InOrderQuery(run[n - 1], p, school);
    }
  }

  /**
   A manual check-in or check-out is refused when the student already has a punch in its window, so
   on a school day the new row is selected, and as the kind requested: the handler's check that the
   two agree never fails.
   */
  lemma ManualNeverMisclassified(log: Log, p: Punch, k: Kind, school: int -> bool)
    requires InWindow(p.at, k) && school(p.day)
    requires forall q :: q in log && SameDay(p, q) ==> !InWindow(q.at, k)
    ensures Selected(log + {p}, p, school)
    ensures SelectedAsCheckOut(log + {p}, p) <==> k == Out
  {
    SelectedExact(log + {p}, p, school);
  }
}
