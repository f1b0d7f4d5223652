// Readiness of the background workers, kept in a few atomic fields per worker (src/workers.rs).
// The fields are a compact stand-in for the history of what each worker reported; `log` is that
// history.

module WorkerHealth {
  import opened Prelude

  type u64 = n: nat | n < 0x1_0000_0000_0000_0000

  const U64_MAX: u64 := 0xffff_ffff_ffff_ffff
  const U32_MAX: u32 := 0xffff_ffff
  const NEVER_RECORDED: u64 := 0
  const WORKER_COUNT: nat := 6
  const NANOS_PER_MILLI: int := 1_000_000

  datatype WorkerName = IssuerSync | SessionOutbox | EmailOutbox | KeySync | QuotaRefund | ResourceServiceRevoke

  // Timeouts in milliseconds.
  datatype Policy = Policy(heartbeatTimeout: nat, successTimeout: nat, maxConsecutiveFailures: nat)

  datatype Phase = Starting | Running | Draining | Stopped | Failed

  datatype Slot = Slot(phase: Phase, lastHeartbeat: u64, lastSuccess: u64, failures: u32, reportedUnready: bool)

  datatype Status = Status(phase: Phase, ready: bool, heartbeatAge: Age, successAge: Age, failures: u32)

  datatype Age = Never | Millis(age: nat)

  // Monotonic clock readings are in nanoseconds.
  datatype Event =
    | Start(worker: WorkerName, at: int)
    | Heartbeat(worker: WorkerName, at: int)
    | Success(worker: WorkerName, at: int)
    | Failure(worker: WorkerName, at: int, immediate: bool)
    | Finish(worker: WorkerName, panicking: bool)
    | BeginShutdown

  function PolicyOf(w: WorkerName): Policy {
    match w
    case IssuerSync => Policy(10_000, 10_000, 3)
    case SessionOutbox => Policy(10_000, 10_000, 3)
    case EmailOutbox => Policy(45_000, 120_000, 3)
    case KeySync => Policy(20_000, 30_000, 3)
    case QuotaRefund => Policy(150_000, 180_000, 3)
    case ResourceServiceRevoke => Policy(20_000, 60_000, 3)
  }

  function Index(w: WorkerName): (i: nat)
    ensures i < WORKER_COUNT
  {
    match w
    case IssuerSync => 0
    case SessionOutbox => 1
    case EmailOutbox => 2
    case KeySync => 3
    case QuotaRefund => 4
    case ResourceServiceRevoke => 5
  }

  const ALL: seq<WorkerName> := [IssuerSync, SessionOutbox, EmailOutbox, KeySync, QuotaRefund, ResourceServiceRevoke]

  // Milliseconds since `epoch`, plus one so that zero can mean "never", clipped at the top.
  function Timestamp(epoch: int, now: int): (t: u64)
    ensures t != NEVER_RECORDED
  {
    var millis := if now > epoch then (now - epoch) / NANOS_PER_MILLI else 0;
    (if millis < U64_MAX then millis else U64_MAX - 1) + 1
  }

  function AgeAt(epoch: int, stamp: u64, now: int): Age {
    if stamp == NEVER_RECORDED then Never
    else Millis(if Timestamp(epoch, now) >= stamp then Timestamp(epoch, now) - stamp else 0)
  }

  predicate Within(age: Age, timeout: nat) {
    age.Millis? && age.age <= timeout
  }

  function StatusOf(epoch: int, slot: Slot, w: WorkerName, now: int): Status {
    var heartbeat, success := AgeAt(epoch, slot.lastHeartbeat, now), AgeAt(epoch, slot.lastSuccess, now);
    var policy := PolicyOf(w);
    Status(slot.phase,
           slot.phase.Running? && Within(heartbeat, policy.heartbeatTimeout) && Within(success, policy.successTimeout)
           && slot.failures < policy.maxConsecutiveFailures && !slot.reportedUnready,
           heartbeat, success, slot.failures)
  }

  // -- the fields as a fold of the history ----------------------------------------------------

  const NEW_SLOT: Slot := Slot(Starting, NEVER_RECORDED, NEVER_RECORDED, 0, false)

  predicate ShuttingDown(log: seq<Event>) {
    BeginShutdown in log
  }

  function AfterEvent(epoch: int, slot: Slot, shuttingDown: bool, w: WorkerName, e: Event): Slot {
    match e
    case Start(worker, at) => if worker == w then Slot(Running, Timestamp(epoch, at), NEVER_RECORDED, 0, false) else slot
    case Heartbeat(worker, at) => if worker == w then slot.(lastHeartbeat := Timestamp(epoch, at)) else slot
    case Success(worker, at) =>
      if worker == w
      then slot.(lastHeartbeat := Timestamp(epoch, at), lastSuccess := Timestamp(epoch, at), failures := 0, reportedUnready := false)
      else slot
    case Failure(worker, at, immediate) =>
      if worker == w
      then slot.(lastHeartbeat := Timestamp(epoch, at),
                 failures := if slot.failures < U32_MAX then slot.failures + 1 else U32_MAX,
                 reportedUnready := slot.reportedUnready || immediate)
      else slot
    case Finish(worker, panicking) =>
      if worker != w || slot.phase.Failed? then slot
      else slot.(phase := if panicking || !shuttingDown then Failed else Stopped)
    case BeginShutdown => if slot.phase.Failed? || slot.phase.Stopped? then slot else slot.(phase := Draining)
  }

  function Fold(epoch: int, log: seq<Event>, w: WorkerName): Slot {
    if log == [] then NEW_SLOT
    else
      var before := log[..|log| - 1];
      AfterEvent(epoch, Fold(epoch, before, w), ShuttingDown(before), w, log[|log| - 1])
  }

  // -- what the history says, without any fields -------------------------------------------------

  datatype Kind = AStart | ABeat | ASuccess | AnEnd

  predicate Is(e: Event, k: Kind, w: WorkerName) {
    match k
    case AStart => e.Start? && e.worker == w
    case ABeat => (e.Start? || e.Heartbeat? || e.Success? || e.Failure?) && e.worker == w
    case ASuccess => e.Success? && e.worker == w
    case AnEnd => e.BeginShutdown? || (e.Finish? && e.worker == w)
  }

  predicate Fails(e: Event, w: WorkerName) {
    e.Failure? && e.worker == w
  }

  // The last position of such an event, or -1.
  function Last(log: seq<Event>, k: Kind, w: WorkerName): (i: int)
    ensures -1 <= i < |log|
    ensures i >= 0 ==> Is(log[i], k, w)
    ensures forall j :: 0 <= j < |log| && Is(log[j], k, w) ==> j <= i
  {
    if log == [] then -1
    else if Is(log[|log| - 1], k, w) then |log| - 1
    else Last(log[..|log| - 1], k, w)
  }

  // Failures of `w` from position `from` on.
  function Failures(log: seq<Event>, w: WorkerName, from: nat): nat {
    if |log| <= from then 0
    else Failures(log[..|log| - 1], w, from) + if Fails(log[|log| - 1], w) then 1 else 0
  }

  function Later(a: int, b: int): int {
    if a >= b then a else b
  }

  // The run is on: started, and not ended since.
  predicate IsRunning(log: seq<Event>, w: WorkerName) {
    Last(log, AStart, w) >= 0 && Last(log, AnEnd, w) < Last(log, AStart, w)
  }

  // What readiness means, in terms of what was reported and when.
  ghost predicate Ready(epoch: int, log: seq<Event>, w: WorkerName, now: int) {
    var beat, success := Last(log, ABeat, w), Last(log, ASuccess, w);
    && IsRunning(log, w)
    && success > Last(log, AStart, w)
    && Timestamp(epoch, now) - Timestamp(epoch, log[beat].at) <= PolicyOf(w).heartbeatTimeout
    && Timestamp(epoch, now) - Timestamp(epoch, log[success].at) <= PolicyOf(w).successTimeout
    && Failures(log, w, success + 1) < PolicyOf(w).maxConsecutiveFailures
    && forall i :: success < i < |log| && Fails(log[i], w) ==> !log[i].immediate
  }

  // Where the current count of failures began: the last start or success.
  function Reset(log: seq<Event>, w: WorkerName): int {
    Later(Last(log, AStart, w), Last(log, ASuccess, w))
  }

  predicate Reported(log: seq<Event>, w: WorkerName, from: int)
    requires from >= -1
  {
    exists i :: from < i < |log| && Fails(log[i], w) && log[i].immediate
  }

  lemma {:induction false} PhaseReflects(epoch: int, log: seq<Event>, w: WorkerName)
    ensures Fold(epoch, log, w).phase.Running? <==> IsRunning(log, w)
  {
    if log != [] {
      PhaseReflects(epoch, log[..|log| - 1], w);
    }
  }

  lemma {:induction false} BeatReflects(epoch: int, log: seq<Event>, w: WorkerName)
    ensures var beat := Last(log, ABeat, w);
            Fold(epoch, log, w).lastHeartbeat == if beat < 0 then NEVER_RECORDED else Timestamp(epoch, log[beat].at)
  {
    if log != [] {
      BeatReflects(epoch, log[..|log| - 1], w);
    }
  }

  lemma {:induction false} SuccessReflects(epoch: int, log: seq<Event>, w: WorkerName)
    ensures var success := Last(log, ASuccess, w);
            Fold(epoch, log, w).lastSuccess ==
              if success <= Last(log, AStart, w) then NEVER_RECORDED else Timestamp(epoch, log[success].at)
  {
    if log != [] {
      SuccessReflects(epoch, log[..|log| - 1], w);
    }
  }

  lemma {:induction false} FailuresReflect(epoch: int, log: seq<Event>, w: WorkerName)
    ensures var n := Failures(log, w, Reset(log, w) + 1);
            Fold(epoch, log, w).failures == if n < U32_MAX then n else U32_MAX
  {
    if log != [] {
      FailuresReflect(epoch, log[..|log| - 1], w);
    }
  }

  lemma ReportedByLast(log: seq<Event>, w: WorkerName, from: int)
    requires log != [] && -1 <= from < |log| - 1
    ensures var e := log[|log| - 1];
            Reported(log, w, from) <==> Reported(log[..|log| - 1], w, from) || (Fails(e, w) && e.immediate)
  {
    var before := log[..|log| - 1];
    if i :| from < i < |before| && Fails(before[i], w) && before[i].immediate {
      assert log[i] == before[i];
    }
    if i :| from < i < |log| && Fails(log[i], w) && log[i].immediate {
      assert i < |before| ==> before[i] == log[i];
    }
  }

  lemma {:induction false} ReportReflects(epoch: int, log: seq<Event>, w: WorkerName)
    ensures Fold(epoch, log, w).reportedUnready <==> Reported(log, w, Reset(log, w))
  {
    if log != [] {
      var before, e := log[..|log| - 1], log[|log| - 1];
      ReportReflects(epoch, before, w);
      if Reset(log, w) < |before| {
        ReportedByLast(log, w, Reset(log, w));
      }
    }
  }

  // The compact fields answer exactly the question about the history.
  lemma ReadyReflectsHistory(epoch: int, log: seq<Event>, w: WorkerName, now: int)
    ensures StatusOf(epoch, Fold(epoch, log, w), w, now).ready <==> Ready(epoch, log, w, now)
  {
    PhaseReflects(epoch, log, w);
    BeatReflects(epoch, log, w);
    SuccessReflects(epoch, log, w);
    FailuresReflect(epoch, log, w);
    ReportReflects(epoch, log, w);
  }

  // Once shutdown has begun, a worker that is not started again is never ready again.
  lemma ShutdownIsFinal(epoch: int, log: seq<Event>, w: WorkerName, now: int, b: nat)
    requires b < |log| && log[b].BeginShutdown? && forall i :: b < i < |log| ==> !Is(log[i], AStart, w)
    ensures !StatusOf(epoch, Fold(epoch, log, w), w, now).ready
  {
    assert Is(log[b], AnEnd, w);
    ReadyReflectsHistory(epoch, log, w, now);
  }

  // -- the shared object -----------------------------------------------------------------------------

  class WorkerHealth {
    const epoch: int
    var slots: array<Slot>
    var shuttingDown: bool
    var supervisorFailed: bool
    ghost var log: seq<Event>

    ghost predicate Valid()
      reads this, slots
    {
      && slots.Length == WORKER_COUNT
      && (shuttingDown <==> ShuttingDown(log))
      && (forall w :: slots[Index(w)] == Fold(epoch, log, w))
    }

    constructor (epoch: int)
      ensures Valid() && fresh(slots) && log == [] && this.epoch == epoch && !supervisorFailed
    {
      this.epoch := epoch;
      slots := new Slot[WORKER_COUNT](_ => NEW_SLOT);
      shuttingDown, supervisorFailed := false, false;
      log := [];
    }

    method StartWorker(w: WorkerName, now: int)
      requires Valid()
      modifies this`log, slots
      ensures Valid() && log == old(log) + [Start(w, now)]
    {
      hide Fold, ShuttingDown, Timestamp;
      var i := Index(w);
      slots[i] := slots[i].(lastSuccess := NEVER_RECORDED);
      slots[i] := slots[i].(failures := 0);
      slots[i] := slots[i].(reportedUnready := false);
      slots[i] := slots[i].(phase := Running);
      slots[i] := slots[i].(lastHeartbeat := Timestamp(epoch, now));
      Log(Start(w, now));
    }

    ghost method Log(e: Event)
      modifies this`log
      ensures log == old(log) + [e]
      ensures forall w :: Fold(epoch, log, w) == AfterEvent(epoch, Fold(epoch, old(log), w), ShuttingDown(old(log)), w, e)
      ensures ShuttingDown(log) <==> ShuttingDown(old(log)) || e.BeginShutdown?
    {
      log := log + [e];
      assert log[..|log| - 1] == old(log);
    }

    method BeginShuttingDown()
      requires Valid()
      modifies this`log, this`shuttingDown, slots
      ensures Valid() && log == old(log) + [BeginShutdown]
    {
      ghost var before := log;
      shuttingDown := true;
      var i := 0;
      while i < WORKER_COUNT
        invariant 0 <= i <= WORKER_COUNT && slots == old(slots) && log == before && shuttingDown
        invariant forall w :: Index(w) < i ==> slots[Index(w)] == AfterEvent(epoch, Fold(epoch, before, w), false, w, BeginShutdown)
        invariant forall w :: Index(w) >= i ==> slots[Index(w)] == Fold(epoch, before, w)
      {
        var phase := slots[i].phase;
        if !phase.Failed? && !phase.Stopped? {
          slots[i] := slots[i].(phase := Draining);
        }
        i := i + 1;
      }
      Log(BeginShutdown);
      forall w ensures slots[Index(w)] == Fold(epoch, log, w) {
        assert Fold(epoch, log, w) == AfterEvent(epoch, Fold(epoch, before, w), ShuttingDown(before), w, BeginShutdown);
      }
    }

    method FinishWorker(w: WorkerName, panicking: bool)
      requires Valid()
      modifies this`log, slots
      ensures Valid() && log == old(log) + [Finish(w, panicking)]
    {
      hide Fold, ShuttingDown, Timestamp;
      var i := Index(w);
      Log(Finish(w, panicking));
      if slots[i].phase.Failed? {
        return;
      }
      slots[i] := slots[i].(phase := if panicking || !shuttingDown then Failed else Stopped);
    }

    method RecordHeartbeat(w: WorkerName, now: int)
      requires Valid()
      modifies this`log, slots
      ensures Valid() && log == old(log) + [Heartbeat(w, now)]
    {
      hide Fold, ShuttingDown, Timestamp;
      var i := Index(w);
      slots[i] := slots[i].(lastHeartbeat := Timestamp(epoch, now));
      Log(Heartbeat(w, now));
    }

    method RecordSuccess(w: WorkerName, now: int)
      requires Valid()
      modifies this`log, slots
      ensures Valid() && log == old(log) + [Success(w, now)]
    {
      hide Fold, ShuttingDown, Timestamp;
      var i, stamp := Index(w), Timestamp(epoch, now);
      slots[i] := slots[i].(lastHeartbeat := stamp);
      slots[i] := slots[i].(lastSuccess := stamp);
      slots[i] := slots[i].(failures := 0);
      slots[i] := slots[i].(reportedUnready := false);
      Log(Success(w, now));
    }

    method RecordFailure(w: WorkerName, now: int, immediate: bool)
      requires Valid()
      modifies this`log, slots
      ensures Valid() && log == old(log) + [Failure(w, now, immediate)]
    {
      hide Fold, ShuttingDown, Timestamp;
      var i := Index(w);
      slots[i] := slots[i].(lastHeartbeat := Timestamp(epoch, now));
      var failures := slots[i].failures;
      slots[i] := slots[i].(failures := if failures < U32_MAX then failures + 1 else U32_MAX);
      if immediate {
        slots[i] := slots[i].(reportedUnready := true);
      }
      Log(Failure(w, now, immediate));
    }

    // Ready exactly when the history says so.
    method StatusAt(w: WorkerName, now: int) returns (s: Status)
      requires Valid()
      ensures s.ready <==> Ready(epoch, log, w, now)
      ensures s.phase.Running? <==> IsRunning(log, w)
    {
      s := StatusOf(epoch, slots[Index(w)], w, now);
      ReadyReflectsHistory(epoch, log, w, now);
      PhaseReflects(epoch, log, w);
    }

    method IsReady(now: int) returns (ready: bool)
      requires Valid()
      ensures ready <==> !supervisorFailed && forall w :: Ready(epoch, log, w, now)
    {
      hide Ready, IsRunning, Fold;
      ready := true;
      var i := 0;
      while i < |ALL|
        invariant 0 <= i <= |ALL|
        invariant ready <==> forall j :: 0 <= j < i ==> Ready(epoch, log, ALL[j], now)
      {
        var status := StatusAt(ALL[i], now);
        ready := ready && status.ready;
        i := i + 1;
      }
      if ready {
        forall w ensures Ready(epoch, log, w, now) {
          assert ALL[Index(w)] == w;
        }
      }
      ready := ready && !supervisorFailed;
    }
  }

  // -- loads and stores one at a time ---------------------------------------------------------

  // The phase field of one worker, the shutdown that walks over it, and any number of finishing
  // tasks, each somewhere between its load of the phase, its load of the flag and its store.
  datatype Cell = Cell(phase: Phase, shuttingDown: bool, shutdown: Walk, finishing: map<nat, Finishing>)

  datatype Finishing = PhaseLoaded | Decided(phase: Phase)

  datatype Walk = NotBegun | Flagged | Loaded(phase: Phase) | Done

  datatype Access =
    | StoreRunning
    | SetFlag
    | LoadForShutdown
    | StoreForShutdown
    | LoadPhaseForFinish(task: nat)
    | LoadFlagForFinish(task: nat, panicking: bool)
    | StoreForFinish(task: nat)

  predicate Terminal(p: Phase) {
    p.Failed? || p.Stopped?
  }

  function Execute(c: Cell, a: Access): Cell {
    match a
    case StoreRunning => c.(phase := Running)
    case SetFlag => if c.shutdown.NotBegun? then c.(shuttingDown := true, shutdown := Flagged) else c
    case LoadForShutdown => if c.shutdown.Flagged? then c.(shutdown := Loaded(c.phase)) else c
    case StoreForShutdown =>
      if !c.shutdown.Loaded? then c
      else c.(phase := if Terminal(c.shutdown.phase) then c.phase else Draining, shutdown := Done)
    case LoadPhaseForFinish(task) =>
      if c.phase.Failed? then c else c.(finishing := c.finishing[task := PhaseLoaded])
    case LoadFlagForFinish(task, panicking) =>
      if task in c.finishing && c.finishing[task].PhaseLoaded?
      then c.(finishing := c.finishing[task := Decided(if panicking || !c.shuttingDown then Failed else Stopped)])
      else c
    case StoreForFinish(task) =>
      if task in c.finishing && c.finishing[task].Decided?
      then c.(phase := c.finishing[task].phase, finishing := c.finishing - {task})
      else c
  }

  function Run(c: Cell, steps: seq<Access>): Cell
    decreases |steps|
  {
    if steps == [] then c else Run(Execute(c, steps[0]), steps[1..])
  }

  // Finishing tasks only ever store a terminal phase, and once the walk has passed, or has loaded a
  // terminal phase, the field does not say Running.
  ghost predicate Quenched(c: Cell) {
    && (forall t :: t in c.finishing && c.finishing[t].Decided? ==> Terminal(c.finishing[t].phase))
    && (c.shutdown.Loaded? && Terminal(c.shutdown.phase) ==> !c.phase.Running?)
    && (c.shutdown.Done? ==> !c.phase.Running?)
  }

  // However the single loads and stores of shutdown and finish interleave, after the walk has
  // passed a worker that is not started again, no load of its phase yields Running, so no status
  // computed from such a load is ready.
  lemma {:induction false} NeverRunningAfterShutdown(c: Cell, steps: seq<Access>)
    requires Quenched(c) && StoreRunning !in steps
    ensures Quenched(Run(c, steps))
    ensures Run(c, steps).shutdown.Done? ==> !Run(c, steps).phase.Running?
    decreases |steps|
  {
    if steps != [] {
      assert steps[0] != StoreRunning;
      NeverRunningAfterShutdown(Execute(c, steps[0]), steps[1..]);
    }
  }

  predicate NoFinish(steps: seq<Access>) {
    forall i :: 0 <= i < |steps| ==> !steps[i].StoreForFinish?
  }

  lemma {:induction false} UntilTheStore(c: Cell, steps: seq<Access>)
    requires c.shutdown.Loaded? && NoFinish(steps) && StoreForShutdown !in steps
    ensures var r := Run(c, steps);
            r.shutdown == c.shutdown && r.phase == if StoreRunning in steps then Running else c.phase
    decreases |steps|
  {
    if steps != [] {
      assert steps == [steps[0]] + steps[1..];
      UntilTheStore(Execute(c, steps[0]), steps[1..]);
    }
  }

  lemma {:induction false} AfterTheStore(c: Cell, steps: seq<Access>)
    requires c.shutdown.Done? && NoFinish(steps) && StoreRunning !in steps
    ensures Run(c, steps).phase == c.phase
    decreases |steps|
  {
    if steps != [] {
      assert steps == [steps[0]] + steps[1..];
      AfterTheStore(Execute(c, steps[0]), steps[1..]);
    }
  }

  lemma {:induction false} RunConcat(c: Cell, a: seq<Access>, b: seq<Access>)
    ensures Run(c, a + b) == Run(Run(c, a), b)
    decreases |a|
  {
    if a == [] {
      assert a + b == b;
    } else {
      RunConcat(Execute(c, a[0]), a[1..], b);
      assert (a + b)[0] == a[0] && (a + b)[1..] == a[1..] + b;
    }
  }

  // A start while the walk is at the worker, whatever else is loaded and stored in between, as long as
  // no task finishes: the worker runs on through the shutdown if and only if it had failed or stopped
  // when the walk loaded its phase, and the start came before the walk's store.
  lemma StartDuringWalk(c: Cell, before: seq<Access>, after: seq<Access>)
    requires c.shutdown.Flagged? && NoFinish(before) && NoFinish(after)
    requires StoreForShutdown !in before && StoreRunning !in after
    ensures Run(c, [LoadForShutdown] + before + [StoreForShutdown] + after).phase.Running? <==> Terminal(c.phase) && StoreRunning in before
  {
    var loaded := Execute(c, LoadForShutdown);
    var stored := Run(loaded, before);
    UntilTheStore(loaded, before);
    RunConcat(c, [LoadForShutdown] + before + [StoreForShutdown], after);
    RunConcat(c, [LoadForShutdown] + before, [StoreForShutdown]);
    RunConcat(c, [LoadForShutdown], before);
    OneAccess(c, LoadForShutdown);
    OneAccess(stored, StoreForShutdown);
    AfterTheStore(Execute(stored, StoreForShutdown), after);
  }

  lemma OneAccess(c: Cell, a: Access)
    ensures Run(c, [a]) == Execute(c, a)
  {
    assert [a][1..] == [] && Run(Execute(c, a), []) == Execute(c, a);
  }

  // A failed worker that is started again while the walk is at it: the shutdown is over, and the
  // worker is running.
  lemma StartOutlivesShutdown()
    ensures var r := Run(Cell(Failed, false, NotBegun, map[]), [SetFlag, LoadForShutdown, StoreRunning, StoreForShutdown]);
            r.shutdown.Done? && r.phase.Running?
  {
    var c := Cell(Failed, false, NotBegun, map[]);
    RunConcat(c, [SetFlag], [LoadForShutdown, StoreRunning, StoreForShutdown]);
    RunConcat(Run(c, [SetFlag]), [LoadForShutdown], [StoreRunning, StoreForShutdown]);
    RunConcat(Cell(Failed, true, Loaded(Failed), map[]), [StoreRunning], [StoreForShutdown]);
    assert [SetFlag] + [LoadForShutdown, StoreRunning, StoreForShutdown] == [SetFlag, LoadForShutdown, StoreRunning, StoreForShutdown];
    assert [LoadForShutdown] + [StoreRunning, StoreForShutdown] == [LoadForShutdown, StoreRunning, StoreForShutdown];
    assert [StoreRunning] + [StoreForShutdown] == [StoreRunning, StoreForShutdown];
  }
}
