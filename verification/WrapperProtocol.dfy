/**
 The wait, grant and unload protocol of policy_engine.c as a state machine: any
 number of calls inside enforce_syscall_policy, the timer, administrators who
 switch the monitor, and the unloader. Each step is one atomic access or one
 critical section; the timer's scan and a flush are one step per queue entry,
 taken under fifo_lock.
 */
module WrapperProtocol {
  import opened CTypes

  /** Calls are numbered; a number is never used twice. */
  type Tid = nat

  datatype Pc =
    | Entered      // counted in active_wrappers; about to read the monitor state
    | Verifying    // inside is_throttled
    | Blocking     // to be blocked; about to count itself in total_blocked_threads
    | Counted      // about to record the gauge (update_thread_stats)
    | Queuing      // about to enqueue its waiter
    | Preparing    // in wait_event_interruptible, about to prepare to sleep
    | Testing      // about to test the wake-up condition
    | Parked       // has called schedule(): sleeps while `armed`
    | Interrupted  // woken by a signal; about to take fifo_lock
    | Abandoning   // about to leave total_blocked_threads after a signal
    | Woken        // the condition held; about to leave total_blocked_threads
    | Measured     // about to record its delay (update_peak_delay)
    | Leaving      // about to decrement active_wrappers
    | Waking       // took active_wrappers to zero; about to wake the unloader

  /** `armed` is the sleeping task state, cleared by whoever wakes the task. `admitted`
      (is_throttled returned 0) is history. */
  datatype Thread = Thread(pc: Pc, granted: bool, armed: bool, signalled: bool, admitted: bool)

  datatype Timer = Idle | Resetting | Locking | Scanning(at: nat) | Rearming | Dead

  datatype Lock = Free | HeldByTimer | HeldByFlusher(agent: nat)

  /** An administrator inside set_global_monitor_state(0). */
  datatype Flush = Off | Flushing

  /** How far core_exit has got; the unloader itself is agent 0. */
  datatype Stage =
    | Loaded | Stopping | DeletingTimer
    | UnloadPreparing | UnloadTesting | UnloadParked
    | Quiescent | Unloaded

  const UNLOADER: nat := 0

  /** `calls` numbers the calls; `enqueued` (every waiter ever enqueued, in order)
      and `alwaysOn` (the monitor has never been switched off) are history. */
  datatype State = State(
    threads: map<Tid, Thread>,
    queue: seq<Tid>,
    active: int,
    blocked: int,
    monitor: bool,
    lock: Lock,
    timer: Timer,
    agents: map<nat, Flush>,
    stage: Stage,
    unloadArmed: bool,
    calls: nat,
    enqueued: seq<Tid>,
    alwaysOn: bool)

  const START: State :=
    State(map[], [], 0, 0, true, Free, Idle, map[], Loaded, false, 0, [], true)

  /** What a call inside the wrapper does next. */
  datatype Move =
    | CheckMonitor | Decide(block: bool) | CountIn | RecordGauge | Enqueue
    | Prepare | Test | Resume | Abandon | CountOut | RecordDelay

  datatype Action =
    | Enter
    | Step(tid: Tid, move: Move)
    | Signal(tid: Tid)
    | Leave(tid: Tid)
    | WakeUnloader(tid: Tid)
    | TimerFire | TimerReset | TimerLock | TimerAsk(grant: bool) | TimerUnlock | TimerRearm
    | SwitchOn
    | SwitchOff(agent: nat)
    | FlushLock(agent: nat) | FlushOne(agent: nat) | FlushUnlock(agent: nat)
    | BeginUnload | DeleteTimer | UnloadPrepare | UnloadTest | UnloadResume | FinishUnload

  // ------------------------------------------------------------------ steps

  function Without(queue: seq<Tid>, t: Tid): seq<Tid> {
    if queue == [] then []
    else Without(queue[..|queue| - 1], t) + (if queue[|queue| - 1] == t then [] else [queue[|queue| - 1]])
  }

  predicate MoveEnabled(s: State, th: Thread, m: Move) {
    match m
    case CheckMonitor => th.pc.Entered?
    case Decide(_) => th.pc.Verifying?
    case CountIn => th.pc.Blocking?
    case RecordGauge => th.pc.Counted?
    case Enqueue => th.pc.Queuing? && s.lock.Free?
    case Prepare => th.pc.Preparing?
    case Test => th.pc.Testing?
    case Resume => th.pc.Parked? && !th.armed
    case Abandon => th.pc.Interrupted? && s.lock.Free?
    case CountOut => th.pc.Abandoning? || th.pc.Woken?
    case RecordDelay => th.pc.Measured?
  }

  /** waiter.granted || !global_monitor_state */
  predicate MayProceed(s: State, th: Thread) {
    th.granted || !s.monitor
  }

  function Moved(s: State, th: Thread, m: Move): Thread {
    match m
    case CheckMonitor => th.(pc := if s.monitor then Verifying else Leaving)
    case Decide(block) => th.(pc := if block then Blocking else Leaving, admitted := !block)
    case CountIn => th.(pc := Counted)
    case RecordGauge => th.(pc := Queuing)
    case Enqueue => th.(pc := Preparing)
    case Prepare => th.(pc := Testing, armed := true)
    case Test =>
      if MayProceed(s, th) then th.(pc := Woken, armed := false)
      else if th.signalled then th.(pc := Interrupted, armed := false)
      else th.(pc := Parked)
    case Resume => th.(pc := Preparing)
    case Abandon => th.(pc := Abandoning)
    case CountOut => th.(pc := if th.pc.Woken? then Measured else Leaving)
    case RecordDelay => th.(pc := Leaving)
  }

  /** The queue after the move: only a waiter without a grant is unlinked by a signal. */
  function MovedQueue(s: State, t: Tid, th: Thread, m: Move): seq<Tid> {
    match m
    case Enqueue => s.queue + [t]
    case Abandon => if th.granted then s.queue else Without(s.queue, t)
    case _ => s.queue
  }

  function BlockedDelta(m: Move): int {
    match m
    case CountIn => 1
    case CountOut => -1
    case _ => 0
  }

  predicate Enabled(s: State, a: Action) {
    match a
    case Enter => !s.stage.Unloaded?
    case Step(t, m) => t in s.threads && MoveEnabled(s, s.threads[t], m)
    case Signal(t) => t in s.threads
    case Leave(t) => t in s.threads && s.threads[t].pc.Leaving?
    case WakeUnloader(t) => t in s.threads && s.threads[t].pc.Waking?
    case TimerFire => s.timer.Idle?
    case TimerReset => s.timer.Resetting?
    case TimerLock => s.timer.Locking? && s.lock.Free?
    case TimerAsk(_) => s.timer.Scanning? && s.timer.at < |s.queue|
    case TimerUnlock => s.timer.Scanning? && s.timer.at >= |s.queue|
    case TimerRearm => s.timer.Rearming?
    case SwitchOn => s.stage.Loaded?
    case SwitchOff(g) => s.stage.Loaded? && g != UNLOADER && g !in s.agents
    case FlushLock(g) => g in s.agents && s.agents[g].Off? && s.lock.Free?
    case FlushOne(g) => g in s.agents && s.agents[g].Flushing? && |s.queue| > 0
    case FlushUnlock(g) => g in s.agents && s.agents[g].Flushing? && |s.queue| == 0
    // an open device pins the module, so no administrator is in flight
    case BeginUnload => s.stage.Loaded? && s.agents == map[]
    // del_timer_sync waits for a running callback
    case DeleteTimer => s.stage.DeletingTimer? && s.timer.Idle?
    case UnloadPrepare => s.stage.UnloadPreparing?
    case UnloadTest => s.stage.UnloadTesting?
    case UnloadResume => s.stage.UnloadParked? && !s.unloadArmed
    case FinishUnload => s.stage.Quiescent?
  }

  /** Grant the waiter at position i, unlink it and wake its thread. */
  function Granted(s: State, i: nat): State
    requires i < |s.queue|
  {
    var t := s.queue[i];
    s.(queue := RemoveAt(s.queue, i),
       threads := if t in s.threads then s.threads[t := s.threads[t].(granted := true, armed := false)] else s.threads)
  }

  function DoStep(s: State, t: Tid, m: Move): State
    requires t in s.threads
  {
    var th := s.threads[t];
    s.(threads := s.threads[t := Moved(s, th, m)],
       queue := MovedQueue(s, t, th, m),
       blocked := s.blocked + BlockedDelta(m),
       enqueued := if m.Enqueue? then s.enqueued + [t] else s.enqueued)
  }

  function DoLeave(s: State, t: Tid): State
    requires t in s.threads
  {
    s.(active := s.active - 1,
       threads := if s.active - 1 == 0 then s.threads[t := s.threads[t].(pc := Waking)] else s.threads - {t})
  }

  function Apply(s: State, a: Action): State
    requires Enabled(s, a)
  {
    match a
    case Enter =>
      s.(threads := s.threads[s.calls := Thread(Entered, false, false, false, false)],
         active := s.active + 1, calls := s.calls + 1)
    case Step(t, m) => DoStep(s, t, m)
    case Signal(t) => s.(threads := s.threads[t := s.threads[t].(signalled := true, armed := false)])
    case Leave(t) => DoLeave(s, t)
    case WakeUnloader(t) => s.(threads := s.threads - {t}, unloadArmed := false)
    case TimerFire => s.(timer := Resetting)
    case TimerReset => s.(timer := Locking)
    case TimerLock => s.(timer := Scanning(0), lock := HeldByTimer)
    case TimerAsk(grant) =>
      if grant then Granted(s, s.timer.at) else s.(timer := Scanning(s.timer.at + 1))
    case TimerUnlock => s.(timer := Rearming, lock := Free)
    case TimerRearm => s.(timer := Idle)
    case SwitchOn => s.(monitor := true)
    case SwitchOff(g) => s.(monitor := false, alwaysOn := false, agents := s.agents[g := Off])
    case FlushLock(g) => s.(agents := s.agents[g := Flushing], lock := HeldByFlusher(g))
    case FlushOne(_) => Granted(s, 0)
    case FlushUnlock(g) =>
      s.(agents := s.agents - {g}, lock := Free, stage := if g == UNLOADER then DeletingTimer else s.stage)
    case BeginUnload =>
      s.(monitor := false, alwaysOn := false, agents := s.agents[UNLOADER := Off], stage := Stopping)
    case DeleteTimer => s.(timer := Dead, stage := UnloadPreparing)
    case UnloadPrepare => s.(stage := UnloadTesting, unloadArmed := true)
    case UnloadTest => if s.active == 0 then s.(stage := Quiescent) else s.(stage := UnloadParked)
    case UnloadResume => s.(stage := UnloadPreparing)
    case FinishUnload => s.(stage := Unloaded)
  }

  ghost predicate IsRun(states: seq<State>, actions: seq<Action>) {
    && |states| == |actions| + 1
    && states[0] == START
    && forall i {:trigger actions[i]} :: 0 <= i < |actions| ==>
         Enabled(states[i], actions[i]) && states[i + 1] == Apply(states[i], actions[i])
  }
}
