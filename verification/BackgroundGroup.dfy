/**
 The group of background goroutines (internal/background/background.go) and the shutdown sequence
 that waits for it (cmd/api/main.go). Channels are numbered in the order they are made; `handed` is
 every channel that some Wait has taken to block on.
 */
module BackgroundGroup {
  import opened Wrappers

  datatype State = State(running: nat, idle: Option<nat>, made: nat, closed: set<nat>, handed: set<nat>)

  const ZERO := State(0, None, 0, {}, {})

  /** What one hold of the mutex does: the start of Go, the deferred end of Go, the start of Wait. */
  datatype Op = Start | Return | BeginWait

  predicate Enabled(s: State, op: Op) {
    op == Return ==> s.running > 0
  }

  function Apply(s: State, op: Op): State
    requires Enabled(s, op)
  {
    match op
    case Start => s.(running := s.running + 1)
    case Return =>
      if s.running == 1 && s.idle.Some?
      then s.(running := 0, closed := s.closed + {s.idle.value}, idle := None)
      else s.(running := s.running - 1)
    case BeginWait =>
      if s.running == 0 then s
      else if s.idle.None? then s.(idle := Some(s.made), made := s.made + 1, handed := s.handed + {s.made})
      else s.(handed := s.handed + {s.idle.value})
  }

  /** The channel Wait blocks on, or None when it returns at once. */
  function WaitChannel(s: State): Option<nat> {
    if s.running == 0 then None else Some(if s.idle.None? then s.made else s.idle.value)
  }

  /** A Return that closes a channel closed before would panic. */
  predicate ClosesTwice(s: State, op: Op) {
    op == Return && s.running == 1 && s.idle.Some? && s.idle.value in s.closed
  }

  ghost predicate Consistent(s: State) {
    && (forall c :: c in s.handed || c in s.closed || s.idle == Some(c) ==> c < s.made)
    && (s.idle.Some? ==> s.running > 0 && s.idle.value !in s.closed)
    && (forall c :: c in s.handed ==> c in s.closed || s.idle == Some(c))
  }

  ghost predicate Next(p: State, s: State) {
    exists op :: Enabled(p, op) && s == Apply(p, op)
  }

  /** Step i of the run. */
  ghost predicate Stepped(run: seq<State>, i: nat)
    requires 0 < i < |run|
  {
    Next(run[i - 1], run[i])
  }

  /** A run: the states between the atomic operations, any goroutines interleaved. */
  ghost predicate IsRun(run: seq<State>) {
    run != [] && run[0] == ZERO && forall i :: 0 < i < |run| ==> Stepped(run, i)
  }

  /**
   In every run no channel is closed twice and no wake-up is lost: a waiter's channel is closed, or
   it is the current idle channel and some goroutine is still running, whose return will close it.
   */
  lemma {:induction false} NoLostWakeup(run: seq<State>, i: nat)
    requires IsRun(run) && i < |run|
    ensures Consistent(run[i])
    ensures forall op :: Enabled(run[i], op) ==> !ClosesTwice(run[i], op)
    ensures forall c :: c in run[i].handed ==> c in run[i].closed || (run[i].idle == Some(c) && run[i].running > 0)
    ensures run[i].running == 0 ==> run[i].handed <= run[i].closed
  {
    if i > 0 {
      NoLostWakeup(run, i - 1);
      assert Stepped(run, i);
    }
  }

  // ---------------------------------------------------------------- the group object

  class Group {
    var running: nat
    var idle: Option<nat>
    var made: nat
    var closed: set<nat>
    ghost var handed: set<nat>

    ghost function Model(): State
      reads this
    {
      State(running, idle, made, closed, handed)
    }

    constructor ()
      ensures Model() == ZERO
    {
      running, idle, made, closed, handed := 0, None, 0, {}, {};
    }

    /** Closing a channel that is already closed panics, so the caller must exclude it. */
    method Close(c: nat)
      requires c !in closed
      modifies this`closed
      ensures closed == old(closed) + {c}
    {
      closed := closed + {c};
    }

    method Go()
      requires Consistent(Model())
      modifies this
      ensures Consistent(Model()) && Model() == Apply(old(Model()), Start)
    {
      running := running + 1;
    }

    /** The deferred end of a goroutine. */
    method Done()
      requires Consistent(Model()) && running > 0
      modifies this
      ensures Consistent(Model()) && Model() == Apply(old(Model()), Return)
    {
      running := running - 1;
      if running == 0 && idle != None {
        Close(idle.value);
        idle := None;
      }
    }

    /** Wait up to the point where it blocks: None means it returned with nothing pending. */
    method BeginWait() returns (channel: Option<nat>)
      requires Consistent(Model())
      modifies this
      ensures Consistent(Model()) && Model() == Apply(old(Model()), Op.BeginWait)
      ensures channel == WaitChannel(old(Model()))
      ensures channel.Some? ==> channel.value in handed && channel.value !in closed
    {
      if running == 0 {
        return None;
      }
      if idle == None {
        idle := Some(made);
        made := made + 1;
      }
      channel := idle;
      handed := handed + {channel.value};
    }
  }

  // ---------------------------------------------------------------- shutdown

  /**
   Shutdown stops the HTTP server, then the cron, then waits for the group, then closes the
   database. `Waiting(None)` is the wait that found nothing running.
   */
  datatype Phase = Serving | StoppingHttp | StoppingCron | Waiting(channel: Option<nat>) | Waited | Exited(code: int)

  /** Who can start a tracked task: a request handler, a cron job, or another tracked task. */
  datatype World = World(
    group: State,
    listening: bool, handlers: nat,
    cronOpen: bool, jobs: nat,
    phase: Phase, clean: bool, expired: bool, dbOpen: bool)

  predicate Initial(w: World) {
    w == World(ZERO, true, 0, true, 0, Serving, true, false, true)
  }

  datatype Action =
    | Accept | HandlerEnds | HandlerStartsTask
    | JobFires | JobEnds | JobStartsTask
    | TaskStartsTask | TaskReturns | OtherWait
    | Expire
    | Signal | HttpStopped | HttpTimeout | CronStopped | CronTimeout | WaitOver | WaitTimeout | Exit

  predicate Can(w: World, a: Action) {
    match a
    case Accept => w.listening
    case HandlerEnds | HandlerStartsTask => w.handlers > 0
    case JobFires => w.cronOpen
    case JobEnds | JobStartsTask => w.jobs > 0
    case TaskStartsTask | TaskReturns => w.group.running > 0
    case OtherWait => true
    case Expire => w.phase != Serving
    case Signal => w.phase == Serving
    case HttpStopped => w.phase == StoppingHttp && w.handlers == 0
    case HttpTimeout => w.phase == StoppingHttp && w.expired
    case CronStopped => w.phase == StoppingCron && w.jobs == 0
    case CronTimeout => w.phase == StoppingCron && w.expired
    case WaitOver => w.phase.Waiting? && (w.phase.channel.None? || w.phase.channel.value in w.group.closed)
    case WaitTimeout => w.phase.Waiting? && w.phase.channel.Some? && w.expired
    case Exit => w.phase == Waited
  }

  function BeginGroupWait(w: World): World {
    w.(phase := Waiting(WaitChannel(w.group)), group := Apply(w.group, BeginWait))
  }

  function Do(w: World, a: Action): World
    requires Can(w, a)
  {
    match a
    case Accept => w.(handlers := w.handlers + 1)
    case HandlerEnds => w.(handlers := w.handlers - 1)
    case JobFires => w.(jobs := w.jobs + 1)
    case JobEnds => w.(jobs := w.jobs - 1)
    case HandlerStartsTask | JobStartsTask | TaskStartsTask => w.(group := Apply(w.group, Start))
    case TaskReturns => w.(group := Apply(w.group, Return))
    case OtherWait => w.(group := Apply(w.group, BeginWait))
    case Expire => w.(expired := true)
    case Signal => w.(phase := StoppingHttp, listening := false)
    case HttpStopped => w.(phase := StoppingCron, cronOpen := false)
    case HttpTimeout => w.(phase := StoppingCron, cronOpen := false, clean := false)
    case CronStopped => BeginGroupWait(w)
    case CronTimeout => BeginGroupWait(w.(clean := false))
    case WaitOver => w.(phase := Waited)
    case WaitTimeout => w.(phase := Waited, clean := false)
    case Exit => if w.clean then w.(phase := Exited(0), dbOpen := false) else w.(phase := Exited(1))
  }

  /** Nothing tracked is running and nothing is left that could start it. */
  predicate Quiet(w: World) {
    w.group.running == 0 && !w.listening && w.handlers == 0 && !w.cronOpen && w.jobs == 0
  }

  predicate PastHttp(w: World) {
    w.phase != Serving && w.phase != StoppingHttp
  }

  predicate PastCron(w: World) {
    PastHttp(w) && w.phase != StoppingCron
  }

  ghost predicate Safe(w: World) {
    && Consistent(w.group)
    && (w.phase != Serving ==> !w.listening)
    && (PastHttp(w) ==> !w.cronOpen)
    && (PastHttp(w) && w.clean ==> w.handlers == 0)
    && (PastCron(w) && w.clean ==> w.jobs == 0)
    && (w.phase.Waiting? && w.phase.channel.Some? ==> w.phase.channel.value in w.group.handed)
    && (w.phase.Waiting? && w.clean ==> match w.phase.channel
        case None => w.group.running == 0
        case Some(c) => c in w.group.closed ==> w.group.running == 0)
    && (w.phase == Waited && w.clean ==> w.group.running == 0)
    && (w.dbOpen <==> w.phase != Exited(0))
    && (w.phase.Exited? ==> w.phase.code == if w.clean then 0 else 1)
    && (w.phase == Exited(0) ==> w.group.running == 0)
  }

  /** Requests, jobs and tasks come and go. */
  lemma WorkStep(w: World, a: Action)
    requires Safe(w) && Can(w, a)
    requires a in {Accept, HandlerEnds, HandlerStartsTask, JobFires, JobEnds, JobStartsTask}
    ensures Safe(Do(w, a))
  {
  }

  lemma TaskStep(w: World, a: Action)
    requires Safe(w) && Can(w, a) && a in {TaskStartsTask, TaskReturns, OtherWait, Expire}
    ensures Safe(Do(w, a))
  {
  }

  /** The phases up to the wait for the group. */
  lemma StopStep(w: World, a: Action)
    requires Safe(w) && Can(w, a) && a in {Signal, HttpStopped, HttpTimeout, CronStopped, CronTimeout}
    ensures Safe(Do(w, a))
  {
  }

  lemma EndStep(w: World, a: Action)
    requires Safe(w) && Can(w, a) && a in {WaitOver, WaitTimeout, Exit}
    ensures Safe(Do(w, a))
  {
  }

  lemma SafeStep(w: World, a: Action)
    requires Safe(w) && Can(w, a)
    ensures Safe(Do(w, a))
  {
    if a in {Accept, HandlerEnds, HandlerStartsTask, JobFires, JobEnds, JobStartsTask} {
      WorkStep(w, a);
    } else if a in {TaskStartsTask, TaskReturns, OtherWait, Expire} {
      TaskStep(w, a);
    } else if a in {Signal, HttpStopped, HttpTimeout, CronStopped, CronTimeout} {
      StopStep(w, a);
    } else {
      EndStep(w, a);
    }
  }

  ghost predicate WorldNext(p: World, w: World) {
    exists a :: Can(p, a) && w == Do(p, a)
  }

  /** Step i of the run. */
  ghost predicate WorldStepped(ws: seq<World>, i: nat)
    requires 0 < i < |ws|
  {
    WorldNext(ws[i - 1], ws[i])
  }

  ghost predicate IsExecution(ws: seq<World>) {
    ws != [] && Initial(ws[0]) && forall i :: 0 < i < |ws| ==> WorldStepped(ws, i)
  }

  lemma {:induction false} AlwaysSafe(ws: seq<World>, i: nat)
    requires IsExecution(ws) && i < |ws|
    ensures Safe(ws[i])
  {
    if i > 0 {
      AlwaysSafe(ws, i - 1);
      assert WorldStepped(ws, i);
      var a :| Can(ws[i - 1], a) && ws[i] == Do(ws[i - 1], a);
      SafeStep(ws[i - 1], a);
    }
  }

  /**
   Given that the server and the cron report stopped only once their handlers and jobs have ended,
   shutdown returns 0 exactly when it closes the database, and from then on no tracked task is
   running and none can start, whatever else happens.
   */
  lemma {:induction false} ShutdownSafe(ws: seq<World>, i: nat, j: nat)
    requires IsExecution(ws) && i <= j < |ws|
    ensures !ws[i].dbOpen <==> ws[i].phase == Exited(0)
    ensures !ws[i].dbOpen ==> ws[j].phase == Exited(0) && Quiet(ws[j])
    decreases j
  {
    AlwaysSafe(ws, i);
    if i < j {
      ShutdownSafe(ws, i, j - 1);
      assert WorldStepped(ws, j);
    }
  }

  /** A wait that nobody interrupts ends: when the last task returns, shutdown's channel is closed. */
  lemma WaitEnds(ws: seq<World>, i: nat)
    requires IsExecution(ws) && i < |ws|
    requires ws[i].phase.Waiting? && ws[i].group.running == 0
    ensures Can(ws[i], WaitOver)
  {
    AlwaysSafe(ws, i);
  }
}
