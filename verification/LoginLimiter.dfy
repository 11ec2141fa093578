/**
 The keyed, fixed-window limiter of failed login attempts (internal/ratelimit/login.go).

 `State`, `Allowed` and `Finished` say what one call does; `LoginLimiter` is the object whose
 methods make those calls under its mutex, one atomic step each. A run is the sequence of calls
 with their clock readings, and the theorems are about every run.
 */
module LoginLimiter {
  import opened Wrappers
  import opened Sets

  type Key = string

  datatype Outcome = Released | Failed | Succeeded

  datatype Entry = Entry(start: int, failures: nat, inFlight: nat)

  /** Durations and times are nanoseconds; times count from Go's zero time, the initial lastSweep. */
  datatype Config = Config(maxFailures: nat, window: int, maxKeys: int)

  datatype State = State(entries: map<Key, Entry>, lastSweep: int)

  datatype Verdict = Verdict(ok: bool, retry: int)

  const SECOND := 1_000_000_000

  const INITIAL := State(map[], 0)

  predicate Expired(cfg: Config, e: Entry, now: int) {
    e.start + cfg.window <= now
  }

  predicate Full(cfg: Config, s: State) {
    cfg.maxKeys > 0 && |s.entries| >= cfg.maxKeys
  }

  function Swept(cfg: Config, s: State, now: int): State {
    if now - s.lastSweep < cfg.window then s
    else State(
      map k | k in s.entries && !(s.entries[k].inFlight == 0 && Expired(cfg, s.entries[k], now)) :: s.entries[k],
      now)
  }

  /** The state in which Allow looks the key up: swept, and swept again when a new key finds it full. */
  function Prepared(cfg: Config, s: State, key: Key, now: int): State {
    var s1 := Swept(cfg, s, now);
    if key !in s1.entries && Full(cfg, s1) && now - s1.lastSweep >= SECOND
    then Swept(cfg, s1.(lastSweep := now - cfg.window), now)
    else s1
  }

  /** The key's entry once Allow has opened a window for it if it had none that is still running. */
  function Opened(cfg: Config, s: State, key: Key, now: int): Entry {
    if key !in s.entries then Entry(now, 0, 0)
    else if Expired(cfg, s.entries[key], now) then s.entries[key].(start := now, failures := 0)
    else s.entries[key]
  }

  predicate NoRoom(cfg: Config, s: State, key: Key, now: int) {
    var p := Prepared(cfg, s, key, now);
    key !in p.entries && Full(cfg, p)
  }

  function Allowed(cfg: Config, s: State, key: Key, now: int): (State, Verdict) {
    var p := Prepared(cfg, s, key, now);
    if NoRoom(cfg, s, key, now) then (p, Verdict(false, cfg.window))
    else
      var e := Opened(cfg, p, key, now);
      if e.failures + e.inFlight >= cfg.maxFailures
      then (p.(entries := p.entries[key := e]), Verdict(false, e.start + cfg.window - now))
      else (p.(entries := p.entries[key := e.(inFlight := e.inFlight + 1)]), Verdict(true, 0))
  }

  function Finished(s: State, key: Key, outcome: Outcome): State {
    if key !in s.entries then s
    else
      var e := s.entries[key];
      var d := if e.inFlight > 0 then e.(inFlight := e.inFlight - 1) else e;
      match outcome
      case Released => s.(entries := s.entries[key := d])
      case Failed => s.(entries := s.entries[key := d.(failures := d.failures + 1)])
      case Succeeded =>
        if d.inFlight == 0 then s.(entries := s.entries - {key})
        else s.(entries := s.entries[key := d.(failures := 0)])
  }

  // ---------------------------------------------------------------- runs

  datatype Event =
    | Attempt(key: Key, at: int)
    | Ended(key: Key, outcome: Outcome, at: int)

  type Run = seq<Event>

  function Step(cfg: Config, s: State, ev: Event): State {
    match ev
    case Attempt(key, at) => Allowed(cfg, s, key, at).0
    case Ended(key, outcome, _) => Finished(s, key, outcome)
  }

  function After(cfg: Config, run: Run): State {
    if run == [] then INITIAL else Step(cfg, After(cfg, run[..|run| - 1]), run[|run| - 1])
  }

  predicate Granted(cfg: Config, s: State, ev: Event, key: Key) {
    ev.Attempt? && ev.key == key && Allowed(cfg, s, key, ev.at).1.ok
  }

  /** Reservations of the key that Allow granted and Finish has not ended yet. */
  function Outstanding(cfg: Config, run: Run, key: Key): int {
    if run == [] then 0
    else
      var last := run[|run| - 1];
      var before := run[..|run| - 1];
      Outstanding(cfg, before, key)
      + (if Granted(cfg, After(cfg, before), last, key) then 1 else 0)
      - (if last.Ended? && last.key == key then 1 else 0)
  }

  /**
   The runs the package promises its bounds for: the clock does not run backwards, and every Finish
   ends a reservation still outstanding. Any clock reading is at least one window after Go's zero
   time, since a Duration holds at most 292 years.
   */
  ghost predicate Legal(cfg: Config, run: Run) {
    && 0 < cfg.window
    && (forall i :: 0 <= i < |run| ==> cfg.window <= run[i].at)
    && (forall i, j :: 0 <= i < j < |run| ==> run[i].at <= run[j].at)
    && (forall i :: 0 <= i < |run| ==> Paired(cfg, run, i))
  }

  /** Call i, if it is a Finish, ends a reservation that is outstanding. */
  ghost predicate Paired(cfg: Config, run: Run, i: nat)
    requires i < |run|
  {
    run[i].Ended? ==> Outstanding(cfg, run[..i], run[i].key) > 0
  }

  lemma PrefixLegal(cfg: Config, run: Run, n: nat)
    requires Legal(cfg, run) && n <= |run|
    ensures Legal(cfg, run[..n])
  {
    forall i | 0 <= i < n ensures Paired(cfg, run[..n], i) {
      assert Paired(cfg, run, i);
      assert run[..n][..i] == run[..i];
    }
  }

  ghost predicate EntryOk(cfg: Config, e: Entry, now: int) {
    e.failures + e.inFlight <= cfg.maxFailures && e.start <= now
  }

  /** What every state between two calls satisfies, seen at `now`. */
  ghost predicate Sound(cfg: Config, s: State, now: int) {
    && s.lastSweep <= now
    && (forall k :: k in s.entries ==> EntryOk(cfg, s.entries[k], now))
    && (cfg.maxKeys > 0 ==> |s.entries| <= cfg.maxKeys)
  }

  /** The entry of a key counts its outstanding reservations; a key without entry has none. */
  function InFlight(s: State, key: Key): nat {
    if key in s.entries then s.entries[key].inFlight else 0
  }

  lemma SweptShrinks(cfg: Config, s: State, now: int)
    ensures Swept(cfg, s, now).entries.Keys <= s.entries.Keys
    ensures |Swept(cfg, s, now).entries| <= |s.entries|
    ensures forall k :: k in Swept(cfg, s, now).entries ==> Swept(cfg, s, now).entries[k] == s.entries[k]
    ensures forall k :: k in s.entries && k !in Swept(cfg, s, now).entries ==>
      s.entries[k].inFlight == 0 && Expired(cfg, s.entries[k], now)
  {
    var t := Swept(cfg, s, now);
    assert t.entries.Keys <= s.entries.Keys;
    SubsetSize(t.entries.Keys, s.entries.Keys);
    assert |t.entries| == |t.entries.Keys| && |s.entries| == |s.entries.Keys|;
  }

  lemma PreparedShrinks(cfg: Config, s: State, key: Key, now: int)
    ensures var p := Prepared(cfg, s, key, now);
      && p.entries.Keys <= s.entries.Keys
      && |p.entries| <= |s.entries|
      && (forall k :: k in p.entries ==> p.entries[k] == s.entries[k])
      && (forall k :: k in s.entries && k !in p.entries ==>
        s.entries[k].inFlight == 0 && Expired(cfg, s.entries[k], now))
  {
    var s1 := Swept(cfg, s, now);
    SweptShrinks(cfg, s, now);
    SweptShrinks(cfg, s1.(lastSweep := now - cfg.window), now);
  }

  lemma AllowedKeepsSound(cfg: Config, s: State, key: Key, now: int)
    requires 0 < cfg.window && Sound(cfg, s, now)
    ensures Sound(cfg, Allowed(cfg, s, key, now).0, now)
  {
    PreparedShrinks(cfg, s, key, now);
    var p := Prepared(cfg, s, key, now);
    if !NoRoom(cfg, s, key, now) {
      var t := Allowed(cfg, s, key, now).0;
      assert t.entries.Keys == p.entries.Keys + {key};
      assert |t.entries| == |t.entries.Keys| && |p.entries| == |p.entries.Keys|;
    }
  }

  lemma FinishedKeepsSound(cfg: Config, s: State, key: Key, outcome: Outcome, now: int)
    requires Sound(cfg, s, now) && InFlight(s, key) > 0
    ensures Sound(cfg, Finished(s, key, outcome), now)
  {
    var t := Finished(s, key, outcome);
    assert t.entries.Keys <= s.entries.Keys;
    SubsetSize(t.entries.Keys, s.entries.Keys);
    assert |t.entries| == |t.entries.Keys| && |s.entries| == |s.entries.Keys|;
  }

  lemma AllowedInFlight(cfg: Config, s: State, key: Key, now: int, k: Key)
    ensures InFlight(Allowed(cfg, s, key, now).0, k)
         == InFlight(s, k) + if k == key && Allowed(cfg, s, key, now).1.ok then 1 else 0
  {
    PreparedShrinks(cfg, s, key, now);
  }

  /** The three things Allow can do to the entry of a key: keep it, drop it expired, or open a window. */
  lemma AllowedEntry(cfg: Config, s: State, key: Key, now: int, k: Key)
    ensures var t := Allowed(cfg, s, key, now).0;
      || (k in s.entries && k in t.entries && t.entries[k].start == s.entries[k].start
        && t.entries[k].failures == s.entries[k].failures)
      || (k !in t.entries && (k in s.entries ==> s.entries[k].inFlight == 0 && Expired(cfg, s.entries[k], now)))
      || (k == key && k in t.entries && t.entries[k].start == now && t.entries[k].failures == 0
          && (k in s.entries ==> Expired(cfg, s.entries[k], now)))
  {
    PreparedShrinks(cfg, s, key, now);
  }

  lemma FinishedInFlight(s: State, key: Key, outcome: Outcome, k: Key)
    requires InFlight(s, key) > 0
    ensures InFlight(Finished(s, key, outcome), k) == InFlight(s, k) - if k == key then 1 else 0
  {
  }

  /** inFlight is exactly the number of reservations the callers still owe a Finish for. */
  lemma {:induction false} InFlightIsOutstanding(cfg: Config, run: Run, k: Key)
    requires Legal(cfg, run)
    ensures Outstanding(cfg, run, k) == InFlight(After(cfg, run), k)
  {
    if run != [] {
      var ev, before := run[|run| - 1], run[..|run| - 1];
      PrefixLegal(cfg, run, |run| - 1);
      assert Paired(cfg, run, |run| - 1);
      InFlightIsOutstanding(cfg, before, k);
      var s := After(cfg, before);
      match ev
      case Attempt(key, at) => AllowedInFlight(cfg, s, key, at, k);
      case Ended(key, outcome, _) =>
        InFlightIsOutstanding(cfg, before, key);
        FinishedInFlight(s, key, outcome, k);
    }
  }

  lemma SoundLater(cfg: Config, s: State, now: int, later: int)
    requires Sound(cfg, s, now) && now <= later
    ensures Sound(cfg, s, later)
  {
  }

  /** Every reachable state is within its bounds, at the time of the last call and later. */
  lemma {:induction false} AlwaysSound(cfg: Config, run: Run, now: int)
    requires Legal(cfg, run) && 0 <= now
    requires run != [] ==> run[|run| - 1].at <= now
    ensures Sound(cfg, After(cfg, run), now)
  {
    if run != [] {
      var n := |run| - 1;
      var ev, before := run[n], run[..n];
      PrefixLegal(cfg, run, n);
      assert n > 0 ==> before[n - 1] == run[n - 1];
      AlwaysSound(cfg, before, ev.at);
      var s := After(cfg, before);
      match ev
      case Attempt(key, at) => AllowedKeepsSound(cfg, s, key, at);
      case Ended(key, outcome, at) =>
        assert Paired(cfg, run, n);
        InFlightIsOutstanding(cfg, before, key);
        FinishedKeepsSound(cfg, s, key, outcome, at);
      SoundLater(cfg, After(cfg, run), ev.at, now);
    }
  }

  /** The facts every induction over runs uses about the last call. */
  lemma LastCall(cfg: Config, run: Run) returns (before: Run, ev: Event)
    requires Legal(cfg, run) && run != []
    ensures before == run[..|run| - 1] && ev == run[|run| - 1]
    ensures Legal(cfg, before) && After(cfg, run) == Step(cfg, After(cfg, before), ev)
    ensures 0 < cfg.window <= ev.at && Sound(cfg, After(cfg, before), ev.at) && Sound(cfg, After(cfg, run), ev.at)
    ensures ev.Ended? ==> InFlight(After(cfg, before), ev.key) > 0
  {
    var n := |run| - 1;
    before, ev := run[..n], run[n];
    PrefixLegal(cfg, run, n);
    assert n > 0 ==> before[n - 1] == run[n - 1];
    AlwaysSound(cfg, before, ev.at);
    AlwaysSound(cfg, run, ev.at);
    assert Paired(cfg, run, n);
    if ev.Ended? { InFlightIsOutstanding(cfg, before, ev.key); }
  }

  /** The same facts about call i. */
  lemma CallAt(cfg: Config, run: Run, i: nat)
    requires Legal(cfg, run) && i < |run|
    ensures Legal(cfg, run[..i]) && Sound(cfg, After(cfg, run[..i]), run[i].at)
    ensures run[i].Ended? ==> InFlight(After(cfg, run[..i]), run[i].key) > 0
  {
    PrefixLegal(cfg, run, i + 1);
    var before, _ := LastCall(cfg, run[..i + 1]);
    assert before == run[..i];
  }

  // ---------------------------------------------------------------- refusals

  /** Call i ran the sweep. */
  ghost predicate SweptAt(cfg: Config, run: Run, i: nat)
    requires i < |run|
  {
    run[i].Attempt? && After(cfg, run[..i]).lastSweep < After(cfg, run[..i + 1]).lastSweep == run[i].at
  }

  lemma AllowedSweep(cfg: Config, s: State, key: Key, now: int)
    requires 0 < cfg.window && s.lastSweep <= now
    ensures var t := Allowed(cfg, s, key, now).0;
      t.lastSweep == now || (t.lastSweep == s.lastSweep && now < s.lastSweep + cfg.window)
  {
  }

  lemma FinishedNoSweep(s: State, key: Key, outcome: Outcome)
    ensures Finished(s, key, outcome).lastSweep == s.lastSweep
  {
  }

  lemma StepSweep(cfg: Config, s: State, ev: Event)
    requires 0 < cfg.window && s.lastSweep <= ev.at
    ensures var t := Step(cfg, s, ev);
      t.lastSweep == s.lastSweep || (ev.Attempt? && s.lastSweep < t.lastSweep == ev.at)
    ensures ev.Attempt? ==> ev.at < Step(cfg, s, ev).lastSweep + cfg.window
  {
    match ev
    case Attempt(key, at) => AllowedSweep(cfg, s, key, at);
    case Ended(key, outcome, _) => FinishedNoSweep(s, key, outcome);
  }

  /** The last call either leaves lastSweep, or is an Allow that sweeps. */
  lemma LastCallSweep(cfg: Config, run: Run)
    requires Legal(cfg, run) && run != []
    ensures var n := |run| - 1;
      if After(cfg, run).lastSweep == After(cfg, run[..n]).lastSweep
      then run[n].Attempt? ==> After(cfg, run[..n]) != INITIAL
      else SweptAt(cfg, run, n) && After(cfg, run).lastSweep == run[n].at
  {
    var n := |run| - 1;
    var before, ev := LastCall(cfg, run);
    assert run[..n + 1] == run;
    StepSweep(cfg, After(cfg, before), ev);
  }

  lemma SweptEarlier(cfg: Config, run: Run, n: nat, i: nat)
    requires i < n <= |run| && SweptAt(cfg, run[..n], i)
    ensures SweptAt(cfg, run, i) && run[..n][i] == run[i]
  {
    assert run[..n][..i] == run[..i] && run[..n][..i + 1] == run[..i + 1];
  }

  /** lastSweep is the time of a call that really swept, once Allow has been called. */
  lemma {:induction false} LastSweepIsReal(cfg: Config, run: Run) returns (i: nat)
    requires Legal(cfg, run)
    requires exists j :: 0 <= j < |run| && run[j].Attempt?
    ensures i < |run| && SweptAt(cfg, run, i)
    ensures After(cfg, run).lastSweep == run[i].at
  {
    var n := |run| - 1;
    LastCallSweep(cfg, run);
    if After(cfg, run).lastSweep == After(cfg, run[..n]).lastSweep {
      PrefixLegal(cfg, run, n);
      NeverSwept(cfg, run[..n]);
      assert exists j :: 0 <= j < n && run[..n][j].Attempt?;
      i := LastSweepIsReal(cfg, run[..n]);
      SweptEarlier(cfg, run, n, i);
    } else {
      i := n;
    }
  }

  lemma {:induction false} NeverSwept(cfg: Config, run: Run)
    ensures (forall j :: 0 <= j < |run| ==> !run[j].Attempt?) ==> After(cfg, run) == INITIAL
  {
    if run != [] { NeverSwept(cfg, run[..|run| - 1]); }
  }

  /**
   A refusal always names a positive delay of at most one window. A refusal for lack of room
   happens only while MaxKeys keys are tracked and less than one second after a real sweep.
   */
  lemma RefusalDelay(cfg: Config, run: Run, key: Key, at: int)
    requires Legal(cfg, run + [Attempt(key, at)])
    requires !Allowed(cfg, After(cfg, run), key, at).1.ok
    ensures 0 < Allowed(cfg, After(cfg, run), key, at).1.retry <= cfg.window
    ensures NoRoom(cfg, After(cfg, run), key, at) ==>
      var now := run + [Attempt(key, at)];
      && |After(cfg, now).entries| == cfg.maxKeys
      && exists i :: 0 <= i < |now| && SweptAt(cfg, now, i) && at - SECOND < now[i].at <= at
  {
    var now := run + [Attempt(key, at)];
    var n := |run|;
    assert now[..n] == run;
    PrefixLegal(cfg, now, n);
    assert run != [] ==> run[n - 1] == now[n - 1];
    assert now[n].at == at;
    var s := After(cfg, run);
    AlwaysSound(cfg, run, at);
    AlwaysSound(cfg, now, at);
    PreparedShrinks(cfg, s, key, at);
    if NoRoom(cfg, s, key, at) {
      assert now[n].Attempt?;
      var i := LastSweepIsReal(cfg, now);
    }
  }

  lemma LockedStep(cfg: Config, s: State, ev: Event, key: Key)
    requires key in s.entries && s.entries[key].failures == cfg.maxFailures && s.entries[key].inFlight == 0
    requires ev.at < s.entries[key].start + cfg.window
    requires ev.Ended? ==> ev.key != key
    ensures key in Step(cfg, s, ev).entries && Step(cfg, s, ev).entries[key] == s.entries[key]
    ensures ev.Attempt? && ev.key == key ==>
      Allowed(cfg, s, key, ev.at).1 == Verdict(false, s.entries[key].start + cfg.window - ev.at)
  {
    if ev.Attempt? { PreparedShrinks(cfg, s, ev.key, ev.at); }
  }

  /**
   A key with maxFailures failures keeps its entry until its window ends, whatever the calls made
   for other keys: neither a sweep nor a full table nor a Finish removes or rewrites it.
   */
  lemma {:induction false} LockoutHolds(cfg: Config, run: Run, n: nat, key: Key)
    requires Legal(cfg, run) && n <= |run|
    requires key in After(cfg, run[..n]).entries
    requires var e := After(cfg, run[..n]).entries[key];
      && e.failures == cfg.maxFailures
      && forall i :: n <= i < |run| ==> run[i].at < e.start + cfg.window
    ensures key in After(cfg, run).entries
    ensures After(cfg, run).entries[key] == After(cfg, run[..n]).entries[key]
  {
    if n < |run| {
      var before, ev := LastCall(cfg, run);
      assert before[..n] == run[..n];
      LockoutHolds(cfg, before, n, key);
      LockedStep(cfg, After(cfg, before), ev, key);
    } else {
      assert run[..n] == run;
    }
  }

  /** Until its window ends, a locked key only sees refusals, each naming the end of the window. */
  lemma LockoutRefuses(cfg: Config, run: Run, n: nat, key: Key, i: nat)
    requires Legal(cfg, run) && n <= i < |run|
    requires key in After(cfg, run[..n]).entries
    requires var e := After(cfg, run[..n]).entries[key];
      && e.failures == cfg.maxFailures
      && forall j :: n <= j < |run| ==> run[j].at < e.start + cfg.window
    requires run[i].key == key
    ensures run[i].Attempt?
    ensures Allowed(cfg, After(cfg, run[..i]), key, run[i].at).1
         == Verdict(false, After(cfg, run[..n]).entries[key].start + cfg.window - run[i].at)
  {
    CallAt(cfg, run, i);
    assert run[..i][..n] == run[..n];
    LockoutHolds(cfg, run[..i], n, key);
    LockedStep(cfg, After(cfg, run[..i]), run[i], key);
  }

  // ---------------------------------------------------------------- failure bounds

  predicate Fails(ev: Event, key: Key) {
    ev.Ended? && ev.key == key && ev.outcome == Failed
  }

  predicate Succeeds(ev: Event, key: Key) {
    ev.Ended? && ev.key == key && ev.outcome == Succeeded
  }

  /** How many attempts for the key fail at a time in [from, to). */
  function Failures(run: Run, key: Key, from: int, to: int): nat {
    if run == [] then 0
    else
      var last := run[|run| - 1];
      Failures(run[..|run| - 1], key, from, to) + if Fails(last, key) && from <= last.at < to then 1 else 0
  }

  /** The failures of [from, from + window) against the counter of the window that is still open. */
  ghost predicate Charged(cfg: Config, s: State, key: Key, from: int, failed: nat) {
    if key !in s.entries then failed <= cfg.maxFailures
    else if s.entries[key].start < from then failed <= s.entries[key].failures
    else failed <= cfg.maxFailures + s.entries[key].failures
  }

  lemma {:induction false} NoFailuresBefore(run: Run, key: Key, from: int, to: int)
    requires forall i :: 0 <= i < |run| ==> run[i].at < from
    ensures Failures(run, key, from, to) == 0
  {
    if run != [] { NoFailuresBefore(run[..|run| - 1], key, from, to); }
  }

  lemma ChargedStep(cfg: Config, s: State, ev: Event, key: Key, from: int, failed: nat)
    requires 0 < cfg.window && Sound(cfg, s, ev.at) && Charged(cfg, s, key, from, failed)
    requires from <= ev.at < from + cfg.window && !Succeeds(ev, key)
    requires ev.Ended? ==> InFlight(s, ev.key) > 0
    ensures Charged(cfg, Step(cfg, s, ev), key, from, failed + if Fails(ev, key) then 1 else 0)
  {
    if ev.Attempt? { AllowedEntry(cfg, s, ev.key, ev.at, key); }
  }

  lemma FailuresLast(run: Run, key: Key, from: int, to: int)
    requires run != [] && from <= run[|run| - 1].at < to
    ensures Failures(run, key, from, to) == Failures(run[..|run| - 1], key, from, to)
      + if Fails(run[|run| - 1], key) then 1 else 0
  {
  }

  lemma ChargedNow(cfg: Config, s: State, run: Run, key: Key, from: int)
    requires run != [] && from <= run[|run| - 1].at < from + cfg.window && !Succeeds(run[|run| - 1], key)
    requires 0 < cfg.window && Sound(cfg, s, run[|run| - 1].at)
    requires Charged(cfg, s, key, from, Failures(run[..|run| - 1], key, from, from + cfg.window))
    requires run[|run| - 1].Ended? ==> InFlight(s, run[|run| - 1].key) > 0
    ensures Charged(cfg, Step(cfg, s, run[|run| - 1]), key, from, Failures(run, key, from, from + cfg.window))
  {
    FailuresLast(run, key, from, from + cfg.window);
    ChargedStep(cfg, s, run[|run| - 1], key, from, Failures(run[..|run| - 1], key, from, from + cfg.window));
  }

  lemma {:induction false} FailuresCharged(cfg: Config, run: Run, key: Key, from: int)
    requires Legal(cfg, run)
    requires forall i :: 0 <= i < |run| ==> run[i].at < from + cfg.window
    requires forall i :: 0 <= i < |run| && from <= run[i].at ==> !Succeeds(run[i], key)
    ensures Charged(cfg, After(cfg, run), key, from, Failures(run, key, from, from + cfg.window))
  {
    if run != [] {
      var before, ev := LastCall(cfg, run);
      if ev.at < from {
        assert forall i :: 0 <= i < |run| ==> run[i].at <= ev.at;
        NoFailuresBefore(run, key, from, from + cfg.window);
      } else {
        FailuresCharged(cfg, before, key, from);
        ChargedNow(cfg, After(cfg, before), run, key, from);
      }
    }
  }

  /**
   The rate bound: any stretch of time as long as the window in which no attempt for the key
   succeeds holds at most 2 * maxFailures failures of it, although attempts reserved in one window
   finish in the next and sweeps drop and recreate entries.
   */
  lemma {:induction false} RateBound(cfg: Config, run: Run, key: Key, from: int)
    requires Legal(cfg, run)
    requires forall i :: 0 <= i < |run| && from <= run[i].at < from + cfg.window ==> !Succeeds(run[i], key)
    ensures Failures(run, key, from, from + cfg.window) <= 2 * cfg.maxFailures
  {
    if run != [] {
      var n := |run| - 1;
      if run[n].at >= from + cfg.window {
        PrefixLegal(cfg, run, n);
        RateBound(cfg, run[..n], key, from);
      } else {
        FailuresCharged(cfg, run, key, from);
        AlwaysSound(cfg, run, if run[n].at < 0 then 0 else run[n].at);
      }
    }
  }

  /** Call i opens a window for the key: Allow creates its entry or restarts it. */
  ghost predicate Opens(cfg: Config, run: Run, i: nat, key: Key)
    requires i < |run|
  {
    var s, t := After(cfg, run[..i]), After(cfg, run[..i + 1]);
    key in t.entries && (key !in s.entries || s.entries[key].start != t.entries[key].start)
  }

  /** How many attempts for the key fail from call `from` on. */
  function FailuresFrom(run: Run, key: Key, from: nat): nat
    requires from <= |run|
  {
    if from == |run| then 0
    else FailuresFrom(run[..|run| - 1], key, from) + if Fails(run[|run| - 1], key) then 1 else 0
  }

  /** The failures since call `from`, against the counter of the only window since then. */
  ghost predicate Counted(cfg: Config, s: State, key: Key, failed: nat) {
    failed <= if key in s.entries then s.entries[key].failures else cfg.maxFailures
  }

  lemma CountedStep(cfg: Config, s: State, ev: Event, key: Key, failed: nat)
    requires Sound(cfg, s, ev.at) && Counted(cfg, s, key, failed)
    requires 0 < cfg.window && !Succeeds(ev, key)
    requires ev.Ended? ==> InFlight(s, ev.key) > 0
    requires ev.Attempt? && failed > 0 ==>
      var t := Step(cfg, s, ev); key in t.entries ==> key in s.entries && s.entries[key].start == t.entries[key].start
    ensures Counted(cfg, Step(cfg, s, ev), key, failed + if Fails(ev, key) then 1 else 0)
  {
    if ev.Attempt? { AllowedEntry(cfg, s, ev.key, ev.at, key); }
  }

  lemma {:induction false} WindowCharged(cfg: Config, run: Run, key: Key, from: nat)
    requires Legal(cfg, run) && from <= |run|
    requires forall i :: from < i < |run| ==> !Opens(cfg, run, i, key)
    requires forall i :: from <= i < |run| ==> !Succeeds(run[i], key)
    ensures Counted(cfg, After(cfg, run), key, FailuresFrom(run, key, from))
  {
    if from < |run| {
      var n := |run| - 1;
      var before, ev := LastCall(cfg, run);
      assert run[..n + 1] == run;
      forall i | from < i < n ensures !Opens(cfg, before, i, key) {
        assert before[..i] == run[..i] && before[..i + 1] == run[..i + 1];
        assert !Opens(cfg, run, i, key);
      }
      WindowCharged(cfg, before, key, from);
      assert from == n ==> FailuresFrom(before, key, from) == 0;
      assert from < n ==> !Opens(cfg, run, n, key);
      CountedStep(cfg, After(cfg, before), ev, key, FailuresFrom(before, key, from));
    }
  }

  /**
   The per-window bound: from the call that opens a window until the next one does, no more than
   maxFailures attempts for the key fail, as long as none succeeds (a success clears the counter).
   */
  lemma WindowBound(cfg: Config, run: Run, key: Key, from: nat, to: nat)
    requires Legal(cfg, run) && from <= to <= |run|
    requires forall i :: from < i < to ==> !Opens(cfg, run, i, key)
    requires forall i :: from <= i < to ==> !Succeeds(run[i], key)
    ensures FailuresFrom(run[..to], key, from) <= cfg.maxFailures
  {
    PrefixLegal(cfg, run, to);
    forall i | from < i < to ensures !Opens(cfg, run[..to], i, key) {
      assert run[..to][..i] == run[..i] && run[..to][..i + 1] == run[..i + 1];
      assert !Opens(cfg, run, i, key);
    }
    WindowCharged(cfg, run[..to], key, from);
    if to > 0 { var _, _ := LastCall(cfg, run[..to]); }
  }

  ghost predicate Timely(cfg: Config, run: Run, now: int) {
    Legal(cfg, run) && cfg.window <= now && forall i :: 0 <= i < |run| ==> run[i].at <= now
  }

  /** One call more: a granted reservation adds one outstanding for its key, a Finish takes one away. */
  lemma OutstandingMore(cfg: Config, run: Run, ev: Event, k: Key)
    ensures Outstanding(cfg, run + [ev], k) == Outstanding(cfg, run, k)
      + (if Granted(cfg, After(cfg, run), ev, k) then 1 else 0) - if ev.Ended? && ev.key == k then 1 else 0
  {
    assert (run + [ev])[..|run|] == run;
  }

  lemma Extend(cfg: Config, run: Run, ev: Event)
    requires Timely(cfg, run, ev.at)
    requires ev.Ended? ==> Outstanding(cfg, run, ev.key) > 0
    ensures Timely(cfg, run + [ev], ev.at) && (run + [ev])[..|run|] == run
    ensures After(cfg, run + [ev]) == Step(cfg, After(cfg, run), ev)
  {
    var longer := run + [ev];
    assert longer[..|run|] == run;
    forall i | 0 <= i < |longer| ensures Paired(cfg, longer, i) {
      if i < |run| {
        assert Paired(cfg, run, i);
        assert longer[..i] == run[..i];
      }
    }
  }

  lemma FailuresAppend(run: Run, ev: Event, key: Key, from: int, to: int)
    ensures Failures(run + [ev], key, from, to) == Failures(run, key, from, to)
      + if Fails(ev, key) && from <= ev.at < to then 1 else 0
  {
    assert (run + [ev])[..|run|] == run;
  }

  /** The run with the same call made n times more. */
  function Repeated(run: Run, ev: Event, n: nat): Run {
    if n == 0 then run else Repeated(run, ev, n - 1) + [ev]
  }

  lemma {:induction false} RepeatedFailures(run: Run, ev: Event, n: nat, key: Key, from: int, to: int)
    requires from <= ev.at < to
    ensures Failures(Repeated(run, ev, n), key, from, to) == Failures(run, key, from, to)
      + if Fails(ev, key) then n else 0
  {
    if n > 0 {
      RepeatedFailures(run, ev, n - 1, key, from, to);
      FailuresAppend(Repeated(run, ev, n - 1), ev, key, from, to);
    }
  }

  ghost predicate NoSuccess(run: Run, key: Key) {
    forall i :: 0 <= i < |run| ==> !Succeeds(run[i], key)
  }

  lemma {:induction false} RepeatedNoSuccess(run: Run, ev: Event, n: nat, key: Key)
    requires NoSuccess(run, key) && !Succeeds(ev, key)
    ensures NoSuccess(Repeated(run, ev, n), key)
  {
    if n > 0 { RepeatedNoSuccess(run, ev, n - 1, key); }
  }

  lemma {:induction false} RepeatedBefore(run: Run, ev: Event, n: nat, time: int)
    requires ev.at < time && forall i :: 0 <= i < |run| ==> run[i].at < time
    ensures forall i :: 0 <= i < |Repeated(run, ev, n)| ==> Repeated(run, ev, n)[i].at < time
  {
    if n > 0 { RepeatedBefore(run, ev, n - 1, time); }
  }

  /** The key alone, in a window that began at `start`; the last sweep was at `swept`. */
  function Alone(key: Key, start: int, failures: nat, inFlight: nat, swept: int): State {
    State(map[key := Entry(start, failures, inFlight)], swept)
  }

  /** A run that leaves the state s and can go on at `at`. */
  ghost predicate Leaves(cfg: Config, run: Run, at: int, s: State) {
    Timely(cfg, run, at) && After(cfg, run) == s
  }

  lemma LeavesMore(cfg: Config, run: Run, s: State, ev: Event)
    requires Leaves(cfg, run, ev.at, s) && (ev.Ended? ==> InFlight(s, ev.key) > 0)
    ensures Leaves(cfg, run + [ev], ev.at, Step(cfg, s, ev))
  {
    if ev.Ended? { InFlightIsOutstanding(cfg, run, ev.key); }
    Extend(cfg, run, ev);
  }

  /** The first attempt for the key, when only expired, idle entries are tracked and a sweep is due. */
  lemma FreshAttempt(cfg: Config, s: State, key: Key, at: int)
    requires 0 < cfg.window && 0 < cfg.maxFailures && s.lastSweep + cfg.window <= at
    requires forall k :: k in s.entries ==> s.entries[k].inFlight == 0 && Expired(cfg, s.entries[k], at)
    ensures Step(cfg, s, Attempt(key, at)) == Alone(key, at, 0, 1, at)
  {
    assert Swept(cfg, s, at) == State(map[], at);
    assert |Swept(cfg, s, at).entries| == 0;
  }

  lemma NextAttempt(cfg: Config, key: Key, at: int, n: nat)
    requires 0 < cfg.window && n < cfg.maxFailures
    ensures Step(cfg, Alone(key, at, 0, n, at), Attempt(key, at)) == Alone(key, at, 0, n + 1, at)
  {
    var s := Alone(key, at, 0, n, at);
    assert Prepared(cfg, s, key, at) == s;
  }

  lemma FailedAttempt(cfg: Config, key: Key, start: int, failures: nat, inFlight: nat, swept: int, at: int)
    requires inFlight > 0
    ensures InFlight(Alone(key, start, failures, inFlight, swept), key) > 0
    ensures Step(cfg, Alone(key, start, failures, inFlight, swept), Ended(key, Failed, at))
      == Alone(key, start, failures + 1, inFlight - 1, swept)
  {
  }

  /** n attempts at one instant, when the first opens a window: all are granted. */
  lemma {:induction false} ReserveAll(cfg: Config, run: Run, s: State, key: Key, at: int, n: nat)
    requires Leaves(cfg, run, at, s) && 0 < n <= cfg.maxFailures
    requires Step(cfg, s, Attempt(key, at)) == Alone(key, at, 0, 1, at)
    ensures Leaves(cfg, Repeated(run, Attempt(key, at), n), at, Alone(key, at, 0, n, at))
  {
    if n == 1 {
      LeavesMore(cfg, run, s, Attempt(key, at));
    } else {
      ReserveAll(cfg, run, s, key, at, n - 1);
      NextAttempt(cfg, key, at, n - 1);
      LeavesMore(cfg, Repeated(run, Attempt(key, at), n - 1), Alone(key, at, 0, n - 1, at), Attempt(key, at));
    }
  }

  /** i outstanding attempts end in failure at one instant, and `rest` stay. */
  lemma {:induction false} FailAll(cfg: Config, run: Run, key: Key, start: int, swept: int, rest: nat, at: int, i: nat)
    requires Leaves(cfg, run, at, Alone(key, start, 0, i + rest, swept))
    ensures Leaves(cfg, Repeated(run, Ended(key, Failed, at), i), at, Alone(key, start, i, rest, swept))
    decreases i
  {
    if i > 0 {
      var j, before := i - 1, Repeated(run, Ended(key, Failed, at), i - 1);
      assert j + (rest + 1) == i + rest;
      FailAll(cfg, run, key, start, swept, rest + 1, at, j);
      FailOne(cfg, before, key, start, swept, j, rest, at);
      assert j + 1 == i && Repeated(run, Ended(key, Failed, at), i) == before + [Ended(key, Failed, at)];
    }
  }

  lemma FailOne(cfg: Config, run: Run, key: Key, start: int, swept: int, failures: nat, rest: nat, at: int)
    requires Leaves(cfg, run, at, Alone(key, start, failures, rest + 1, swept))
    ensures Leaves(cfg, run + [Ended(key, Failed, at)], at, Alone(key, start, failures + 1, rest, swept))
  {
    FailedAttempt(cfg, key, start, failures, rest + 1, swept, at);
    LeavesMore(cfg, run, Alone(key, start, failures, rest + 1, swept), Ended(key, Failed, at));
  }

  /** maxFailures attempts at `start`, all failing at `at`. */
  function Volley(run: Run, key: Key, n: nat, start: int, at: int): Run {
    Repeated(Repeated(run, Attempt(key, start), n), Ended(key, Failed, at), n)
  }

  lemma VolleyLeaves(cfg: Config, run: Run, s: State, key: Key, start: int, at: int)
    requires 0 < cfg.maxFailures && start <= at && Leaves(cfg, run, start, s)
    requires Step(cfg, s, Attempt(key, start)) == Alone(key, start, 0, 1, start)
    ensures Leaves(cfg, Volley(run, key, cfg.maxFailures, start, at), at, Alone(key, start, cfg.maxFailures, 0, start))
  {
    ReserveAll(cfg, run, s, key, start, cfg.maxFailures);
    FailAll(cfg, Repeated(run, Attempt(key, start), cfg.maxFailures), key, start, start, 0, at, cfg.maxFailures);
  }

  lemma VolleyFailures(run: Run, key: Key, n: nat, start: int, at: int, from: int, to: int)
    requires from <= start && from <= at < to && start < to
    ensures Failures(Volley(run, key, n, start, at), key, from, to) == Failures(run, key, from, to) + n
  {
    RepeatedFailures(run, Attempt(key, start), n, key, from, to);
    RepeatedFailures(Repeated(run, Attempt(key, start), n), Ended(key, Failed, at), n, key, from, to);
  }

  /** The same, when the attempts were reserved before the stretch that is counted. */
  lemma VolleyInto(key: Key, n: nat, start: int, at: int, to: int)
    requires start < at < to
    ensures Failures(Volley([], key, n, start, at), key, at, to) == n
  {
    RepeatedBefore([], Attempt(key, start), n, at);
    NoFailuresBefore(Repeated([], Attempt(key, start), n), key, at, to);
    RepeatedFailures(Repeated([], Attempt(key, start), n), Ended(key, Failed, at), n, key, at, to);
  }

  lemma VolleyNoSuccess(run: Run, key: Key, n: nat, start: int, at: int)
    requires NoSuccess(run, key)
    ensures NoSuccess(Volley(run, key, n, start, at), key)
  {
    RepeatedNoSuccess(run, Attempt(key, start), n, key);
    RepeatedNoSuccess(Repeated(run, Attempt(key, start), n), Ended(key, Failed, at), n, key);
  }

  /** maxFailures attempts reserved one window earlier, then maxFailures more: all fail at `at`. */
  function Burst(cfg: Config, key: Key, at: int): Run {
    Volley(Volley([], key, cfg.maxFailures, at - cfg.window, at), key, cfg.maxFailures, at, at)
  }

  /**
   The rate bound is tight for every limit, window and key cap: a legal run without success has
   2 * maxFailures failures of the key, even at one instant.
   */
  lemma RateBoundIsTight(cfg: Config, key: Key, at: int)
    requires 0 < cfg.window && 2 * cfg.window <= at
    ensures Legal(cfg, Burst(cfg, key, at)) && NoSuccess(Burst(cfg, key, at), key)
    ensures forall to :: at < to ==> Failures(Burst(cfg, key, at), key, at, to) == 2 * cfg.maxFailures
  {
    BurstLegal(cfg, key, at);
    BurstNoSuccess(cfg, key, at);
    forall to | at < to ensures Failures(Burst(cfg, key, at), key, at, to) == 2 * cfg.maxFailures {
      BurstFailures(cfg, key, at, to);
    }
  }

  lemma BurstNoSuccess(cfg: Config, key: Key, at: int)
    ensures NoSuccess(Burst(cfg, key, at), key)
  {
    VolleyNoSuccess([], key, cfg.maxFailures, at - cfg.window, at);
    VolleyNoSuccess(Volley([], key, cfg.maxFailures, at - cfg.window, at), key, cfg.maxFailures, at, at);
  }

  lemma BurstFailures(cfg: Config, key: Key, at: int, to: int)
    requires 0 < cfg.window && at < to
    ensures Failures(Burst(cfg, key, at), key, at, to) == 2 * cfg.maxFailures
  {
    VolleyInto(key, cfg.maxFailures, at - cfg.window, at, to);
    VolleyFailures(Volley([], key, cfg.maxFailures, at - cfg.window, at), key, cfg.maxFailures, at, at, at, to);
  }

  lemma BurstLegal(cfg: Config, key: Key, at: int)
    requires 0 < cfg.window && 2 * cfg.window <= at
    ensures Legal(cfg, Burst(cfg, key, at))
  {
    var n, start := cfg.maxFailures, at - cfg.window;
    if n > 0 {
      FreshAttempt(cfg, INITIAL, key, start);
      VolleyLeaves(cfg, [], INITIAL, key, start, at);
      FreshAttempt(cfg, Alone(key, start, n, 0, start), key, at);
      VolleyLeaves(cfg, Volley([], key, n, start, at), Alone(key, start, n, 0, start), key, at, at);
    }
  }

  /**
   A stretch stays within maxFailures when no window of the key opens in it after a failure: the
   excess needs attempts that fail on both sides of a reset.
   */
  lemma StretchBound(cfg: Config, run: Run, key: Key, from: int)
    requires Legal(cfg, run)
    requires forall i :: 0 <= i < |run| ==> run[i].at < from + cfg.window
    requires forall i :: 0 <= i < |run| && from <= run[i].at ==> !Succeeds(run[i], key)
    requires OpensClean(cfg, run, key, from, from + cfg.window)
    ensures Failures(run, key, from, from + cfg.window) <= cfg.maxFailures
  {
    StretchCounted(cfg, run, key, from, from + cfg.window);
    if run != [] { var _, _ := LastCall(cfg, run); }
  }

  lemma CountedNow(cfg: Config, s: State, run: Run, key: Key, from: int, to: int)
    requires run != [] && from <= run[|run| - 1].at < to && !Succeeds(run[|run| - 1], key)
    requires 0 < cfg.window && Sound(cfg, s, run[|run| - 1].at)
    requires Counted(cfg, s, key, Failures(run[..|run| - 1], key, from, to))
    requires run[|run| - 1].Ended? ==> InFlight(s, run[|run| - 1].key) > 0
    requires var t := Step(cfg, s, run[|run| - 1]);
      key in t.entries && (key !in s.entries || s.entries[key].start != t.entries[key].start) ==>
      Failures(run[..|run| - 1], key, from, to) == 0
    ensures Counted(cfg, Step(cfg, s, run[|run| - 1]), key, Failures(run, key, from, to))
  {
    FailuresLast(run, key, from, to);
    CountedStep(cfg, s, run[|run| - 1], key, Failures(run[..|run| - 1], key, from, to));
  }

  /** No window of the key opens at or after `from` once it has failed there. */
  ghost predicate OpensClean(cfg: Config, run: Run, key: Key, from: int, to: int) {
    forall i :: 0 <= i < |run| && from <= run[i].at && Opens(cfg, run, i, key) ==>
      Failures(run[..i], key, from, to) == 0
  }

  lemma OpensCleanBefore(cfg: Config, run: Run, key: Key, from: int, to: int)
    requires run != [] && OpensClean(cfg, run, key, from, to)
    ensures OpensClean(cfg, run[..|run| - 1], key, from, to)
  {
    var before := run[..|run| - 1];
    forall i | 0 <= i < |before| && from <= before[i].at && Opens(cfg, before, i, key)
      ensures Failures(before[..i], key, from, to) == 0
    {
      assert before[..i] == run[..i] && before[..i + 1] == run[..i + 1];
      assert Opens(cfg, run, i, key);
    }
  }

  /** The last call of such a run: if it opens a window, the key has not failed yet. */
  lemma LastClean(cfg: Config, run: Run, key: Key, from: int, to: int)
    requires run != [] && OpensClean(cfg, run, key, from, to) && from <= run[|run| - 1].at
    ensures var s, t := After(cfg, run[..|run| - 1]), After(cfg, run);
      key in t.entries && (key !in s.entries || s.entries[key].start != t.entries[key].start) ==>
      Failures(run[..|run| - 1], key, from, to) == 0
  {
    assert run[..|run| - 1 + 1] == run;
    assert Opens(cfg, run, |run| - 1, key) ==> Failures(run[..|run| - 1], key, from, to) == 0;
  }

  lemma {:induction false} StretchCounted(cfg: Config, run: Run, key: Key, from: int, to: int)
    requires Legal(cfg, run) && OpensClean(cfg, run, key, from, to)
    requires forall i :: 0 <= i < |run| ==> run[i].at < to
    requires forall i :: 0 <= i < |run| && from <= run[i].at ==> !Succeeds(run[i], key)
    ensures Counted(cfg, After(cfg, run), key, Failures(run, key, from, to))
  {
    if run != [] {
      var before, ev := LastCall(cfg, run);
      if ev.at < from {
        NoFailuresYet(cfg, run, key, from, to);
      } else {
        OpensCleanBefore(cfg, run, key, from, to);
        StretchCounted(cfg, before, key, from, to);
        LastClean(cfg, run, key, from, to);
        CountedNow(cfg, After(cfg, before), run, key, from, to);
      }
    }
  }

  lemma NoFailuresYet(cfg: Config, run: Run, key: Key, from: int, to: int)
    requires Legal(cfg, run) && run != [] && run[|run| - 1].at < from
    ensures Failures(run, key, from, to) == 0
  {
    assert forall i :: 0 <= i < |run| ==> run[i].at <= run[|run| - 1].at;
    NoFailuresBefore(run, key, from, to);
  }

  // ---------------------------------------------------------------- the limiter object

  class Limiter {
    const cfg: Config
    var entries: map<Key, Entry>
    var lastSweep: int
    ghost var calls: Run

    /** The fields are what the calls made so far leave. */
    ghost predicate Valid()
      reads this
    {
      State(entries, lastSweep) == After(cfg, calls)
    }

    constructor (maxFailures: nat, window: int, maxKeys: int)
      ensures Valid() && calls == [] && cfg == Config(maxFailures, window, maxKeys)
    {
      cfg := Config(maxFailures, window, maxKeys);
      entries, lastSweep, calls := map[], 0, [];
    }

    method Allow(key: Key, now: int) returns (ok: bool, retry: int)
      requires Valid()
      modifies this
      ensures Valid() && calls == old(calls) + [Attempt(key, now)]
      ensures Verdict(ok, retry) == Allowed(cfg, After(cfg, old(calls)), key, now).1
    {
      calls := calls + [Attempt(key, now)];
      assert calls[..|calls| - 1] == old(calls);
      ok, retry := Reserve(key, now);
    }

    /** What Allow does while it holds the mutex. */
    method Reserve(key: Key, now: int) returns (ok: bool, retry: int)
      modifies this`entries, this`lastSweep
      ensures (State(entries, lastSweep), Verdict(ok, retry)) == Allowed(cfg, old(State(entries, lastSweep)), key, now)
    {
      ghost var s := State(entries, lastSweep);
      Sweep(now);
      var e;
      if key !in entries {
        if cfg.maxKeys > 0 && |entries| >= cfg.maxKeys {
          if now - lastSweep >= SECOND {
            lastSweep := now - cfg.window;
            Sweep(now);
          }
          if |entries| >= cfg.maxKeys {
            return false, cfg.window;
          }
        }
        e := Entry(now, 0, 0);
      } else {
        e := entries[key];
        if e.start + cfg.window <= now {
          e := e.(start := now, failures := 0);
        }
      }
      entries := entries[key := e];
      if e.failures + e.inFlight >= cfg.maxFailures {
        return false, e.start + cfg.window - now;
      }
      entries := entries[key := e.(inFlight := e.inFlight + 1)];
      assert entries == Allowed(cfg, s, key, now).0.entries;
      return true, 0;
    }

    method Finish(key: Key, outcome: Outcome, ghost now: int)
      requires Valid()
      modifies this
      ensures Valid() && calls == old(calls) + [Ended(key, outcome, now)]
    {
      calls := calls + [Ended(key, outcome, now)];
      assert calls[..|calls| - 1] == old(calls);
      if key !in entries {
        return;
      }
      var e := entries[key];
      if e.inFlight > 0 {
        e := e.(inFlight := e.inFlight - 1);
      }
      entries := entries[key := e];
      match outcome
      case Released =>
      case Failed => entries := entries[key := e.(failures := e.failures + 1)];
      case Succeeded =>
        entries := entries[key := e.(failures := 0)];
        if e.inFlight == 0 {
          entries := entries - {key};
        }
    }

    method Len() returns (n: nat)
      requires Valid()
      ensures n == |After(cfg, calls).entries|
    {
      n := |entries|;
    }

    /** Removes expired, idle entries, at most once per window. */
    method Sweep(now: int)
      modifies this`entries, this`lastSweep
      ensures State(entries, lastSweep) == Swept(cfg, old(State(entries, lastSweep)), now)
    {
      ghost var s := State(entries, lastSweep);
      if now - lastSweep < cfg.window {
        return;
      }
      lastSweep := now;
      var todo := entries.Keys;
      while todo != {}
        invariant todo <= old(entries).Keys && entries.Keys <= old(entries).Keys
        invariant todo <= entries.Keys && lastSweep == now
        invariant forall k :: k in entries ==> entries[k] == old(entries)[k]
        invariant forall k :: k in old(entries).Keys - todo ==>
          (k in entries <==> !(old(entries)[k].inFlight == 0 && Expired(cfg, old(entries)[k], now)))
      {
        var key :| key in todo;
        todo := todo - {key};
        var e := entries[key];
        if e.inFlight == 0 && e.start + cfg.window <= now {
          entries := entries - {key};
        }
      }
      assert entries == Swept(cfg, s, now).entries;
    }
  }
}
