/**
 The main results about the wrapper protocol, over every run and for any number
 of calls, administrators and ticks.
 */
module WrapperRuns {
  import opened WrapperProtocol
  import opened WrapperSafety

  lemma {:induction false} RunKeepsInv(states: seq<State>, actions: seq<Action>, k: nat)
    requires IsRun(states, actions) && k < |states|
    ensures Inv(states[k])
  {
    if k == 0 {
      assert ActiveSet(START.threads) == {} && BlockedSet(START.threads) == {};
    } else {
      RunKeepsInv(states, actions, k - 1);
      StepKeepsInv(states[k - 1], actions[k - 1]);
    }
  }

  /** Counter accounting: active_wrappers is the number of calls between its increment and
      their decrement, total_blocked_threads the number between the block and the matching
      decrement, whichever way they leave; neither is negative and the second is the smaller. */
  lemma CounterAccounting(states: seq<State>, actions: seq<Action>, k: nat)
    requires IsRun(states, actions) && k < |states|
    ensures states[k].active == |set t | t in states[k].threads && !states[k].threads[t].pc.Waking?|
    ensures states[k].blocked == |set t | t in states[k].threads && CountsBlocked(states[k].threads[t].pc)|
    ensures 0 <= states[k].blocked <= states[k].active
  {
    RunKeepsInv(states, actions, k);
    var a, b := ActiveSet(states[k].threads), BlockedSet(states[k].threads);
    assert a == set t | t in states[k].threads && !states[k].threads[t].pc.Waking?;
    assert b == set t | t in states[k].threads && CountsBlocked(states[k].threads[t].pc);
    SubsetCard(b, a);
  }

  lemma {:induction false} SubsetCard(b: set<Tid>, a: set<Tid>)
    requires b <= a
    ensures |b| <= |a|
  {
    if b != {} {
      var x :| x in b;
      SubsetCard(b - {x}, a - {x});
    }
  }

  /** The gauge a call records is at least one. */
  lemma GaugeIsPositive(states: seq<State>, actions: seq<Action>, k: nat, t: Tid)
    requires IsRun(states, actions) && k < |actions| && actions[k] == Step(t, CountIn)
    ensures states[k + 1].blocked >= 1
  {
    RunKeepsInv(states, actions, k + 1);
    assert t in BlockedSet(states[k + 1].threads);
    SubsetCard({t}, BlockedSet(states[k + 1].threads));
  }

  /** Queue and threads: in every run whoever sleeps without a grant is in the queue, once; and
      while the monitor has stayed on, the queue is exactly the live waiters in the order in
      which they were enqueued. */
  lemma QueueMatchesThreads(states: seq<State>, actions: seq<Action>, k: nat)
    requires IsRun(states, actions) && k < |states|
    ensures forall t :: t in states[k].threads && Live(states[k].threads[t]) ==> t in states[k].queue
    ensures forall i, j :: 0 <= i < j < |states[k].queue| ==> states[k].queue[i] != states[k].queue[j]
    ensures states[k].alwaysOn ==>
              && states[k].queue == LiveOnly(states[k].enqueued, states[k].threads)
              && forall t :: t in states[k].queue <==> t in states[k].threads && Live(states[k].threads[t])
  {
    RunKeepsInv(states, actions, k);
    LiveOnlyMembers(states[k].enqueued, states[k].threads);
  }

  /** No free pass: while the monitor has stayed on, a call that is about to leave without a
      signal was admitted by its own verdict or granted a token by the timer. */
  lemma NoFreePass(states: seq<State>, actions: seq<Action>, k: nat, t: Tid)
    requires IsRun(states, actions) && k < |actions| && actions[k] == Leave(t)
    requires states[k].alwaysOn && !states[k].threads[t].signalled
    ensures states[k].threads[t].admitted || states[k].threads[t].granted
  {
    RunKeepsInv(states, actions, k);
  }

  // ---------------------------------------------------------------- shutdown

  /** Once a flush has completed with the monitor off, and until it is switched on again, no
      call is asleep on its waiter and none goes to sleep. */
  lemma {:induction false} QuietAfterFlush(states: seq<State>, actions: seq<Action>, i: nat, j: nat, agent: nat)
    requires IsRun(states, actions) && i < |actions| && i < j < |states|
    requires actions[i] == FlushUnlock(agent) && !states[i].monitor
    requires forall k :: i < k < j ==> !actions[k].SwitchOn?
    ensures !states[j].monitor && NoSleepers(states[j])
  {
    if j == i + 1 {
      assert NoSleepers(states[i]) by {
        RunKeepsInv(states, actions, i);
        EmptyQueueNoSleepers(states[i]);
      }
      StepKeepsAwake(states[i], actions[i]);
    } else {
      QuietAfterFlush(states, actions, i, j - 1, agent);
      StepKeepsAwake(states[j - 1], actions[j - 1]);
    }
  }

  /** The steps a call has left once the monitor is off, at most. */
  function StepsLeft(pc: Pc): nat {
    match pc
    case Entered => 12
    case Verifying => 11
    case Blocking => 10
    case Counted => 9
    case Queuing => 8
    case Parked => 7
    case Preparing => 6
    case Testing => 5
    case Interrupted => 4
    case Abandoning => 3
    case Woken => 4
    case Measured => 3
    case Leaving => 2
    case Waking => 1
  }

  function StepsLeftOf(s: State, t: Tid): nat {
    if t in s.threads then StepsLeft(s.threads[t].pc) else 0
  }

  /** The step is the call's own. */
  predicate OwnStep(a: Action, t: Tid) {
    (a.Step? && a.tid == t) || a == Leave(t) || a == WakeUnloader(t)
  }

  predicate NeedsLock(pc: Pc) {
    pc.Queuing? || pc.Interrupted?
  }

  /** The call's next step. */
  function NextOwn(s: State, t: Tid): Action
    requires t in s.threads
  {
    match s.threads[t].pc
    case Entered => Step(t, CheckMonitor)
    case Verifying => Step(t, Decide(false))
    case Blocking => Step(t, CountIn)
    case Counted => Step(t, RecordGauge)
    case Queuing => Step(t, Enqueue)
    case Preparing => Step(t, Prepare)
    case Testing => Step(t, Test)
    case Parked => Step(t, Resume)
    case Interrupted => Step(t, Abandon)
    case Abandoning => Step(t, CountOut)
    case Woken => Step(t, CountOut)
    case Measured => Step(t, RecordDelay)
    case Leaving => Leave(t)
    case Waking => WakeUnloader(t)
  }

  /** Nobody is stuck: with nobody asleep, every call inside has an enabled step, except that
      it may have to wait for fifo_lock, whose holder then has one. */
  lemma NobodyStuck(s: State, t: Tid)
    requires Inv(s) && NoSleepers(s) && t in s.threads
    ensures OwnStep(NextOwn(s, t), t)
    ensures Enabled(s, NextOwn(s, t)) || (NeedsLock(s.threads[t].pc) && !s.lock.Free?)
    ensures s.lock.HeldByTimer? ==> Enabled(s, if s.timer.at < |s.queue| then TimerAsk(true) else TimerUnlock)
    ensures s.lock.HeldByFlusher? ==>
              Enabled(s, if |s.queue| > 0 then FlushOne(s.lock.agent) else FlushUnlock(s.lock.agent))
  {
  }

  /** What the holder of fifo_lock still has to do. */
  function HoldLeft(s: State): int {
    match s.lock
    case Free => 0
    case HeldByTimer => 1 + |s.queue| - (if s.timer.Scanning? then s.timer.at else 0)
    case HeldByFlusher(_) => 1 + |s.queue|
  }

  predicate HolderStep(a: Action) {
    a.TimerAsk? || a.TimerUnlock? || a.FlushOne? || a.FlushUnlock?
  }

  /** The lock is held for a bounded time: each step of its holder brings the release nearer,
      and no other step puts it off. */
  lemma LockIsReleased(s: State, a: Action)
    requires Inv(s) && Enabled(s, a) && !s.lock.Free?
    ensures 0 <= HoldLeft(Apply(s, a))
    ensures HolderStep(a) ==> HoldLeft(Apply(s, a)) < HoldLeft(s)
    ensures !HolderStep(a) ==> HoldLeft(Apply(s, a)) == HoldLeft(s)
  {
    if !HolderStep(a) {
      OthersLeaveHolder(s, a);
    } else {
      HolderAdvances(s, a);
    }
  }

  lemma HolderAdvances(s: State, a: Action)
    requires LockInv(s) && Enabled(s, a) && HolderStep(a)
    ensures 0 <= HoldLeft(Apply(s, a)) < HoldLeft(s)
  {
  }

  lemma OthersLeaveHolder(s: State, a: Action)
    requires LockInv(s) && Enabled(s, a) && !s.lock.Free? && !HolderStep(a)
    ensures Apply(s, a).lock == s.lock && Apply(s, a).queue == s.queue
    ensures s.timer.Scanning? ==> Apply(s, a).timer == s.timer
  {
  }

  lemma OwnStepTowardsExit(s: State, a: Action, t: Tid)
    requires !s.monitor && Enabled(s, a) && t in s.threads && OwnStep(a, t)
    ensures StepsLeftOf(Apply(s, a), t) < StepsLeftOf(s, t)
  {
    if a.Step? {
      MoveTowardsExit(s, t, a.move);
    }
  }

  lemma MoveTowardsExit(s: State, t: Tid, m: Move)
    requires !s.monitor && Enabled(s, Step(t, m))
    ensures StepsLeft(Moved(s, s.threads[t], m).pc) < StepsLeft(s.threads[t].pc)
  {
  }

  lemma OtherStepKeepsPlace(s: State, a: Action, t: Tid)
    requires QueueInv(s) && Enabled(s, a) && !OwnStep(a, t) && t < s.calls
    ensures StepsLeftOf(Apply(s, a), t) == StepsLeftOf(s, t)
  {
    if !MovesThread(a) {
      OtherStepsKeepCalls(s, a);
    }
  }

  lemma CallsGrow(s: State, a: Action)
    requires Enabled(s, a)
    ensures Apply(s, a).calls >= s.calls
  {
  }

  /** With the monitor off each of a call's own steps brings it nearer its exit, and no step of
      anybody else takes it back; a call that has left takes no further step. */
  lemma StepTowardsExit(s: State, a: Action, t: Tid)
    requires QueueInv(s) && !s.monitor && Enabled(s, a) && t < s.calls
    ensures if OwnStep(a, t) then StepsLeftOf(Apply(s, a), t) < StepsLeftOf(s, t)
            else StepsLeftOf(Apply(s, a), t) == StepsLeftOf(s, t)
    ensures t < Apply(s, a).calls
  {
    CallsGrow(s, a);
    if OwnStep(a, t) {
      OwnStepTowardsExit(s, a, t);
    } else {
      OtherStepKeepsPlace(s, a, t);
    }
  }

  function OwnSteps(actions: seq<Action>, t: Tid): nat {
    if actions == [] then 0
    else OwnSteps(actions[..|actions| - 1], t) + (if OwnStep(actions[|actions| - 1], t) then 1 else 0)
  }

  lemma OwnStepsSlice(actions: seq<Action>, i: nat, j: nat, t: Tid)
    requires i < j <= |actions|
    ensures OwnSteps(actions[i..j], t) == OwnSteps(actions[i..j - 1], t) + if OwnStep(actions[j - 1], t) then 1 else 0
  {
    assert actions[i..j][..j - 1 - i] == actions[i..j - 1];
  }

  lemma RunQueueInv(states: seq<State>, actions: seq<Action>, k: nat)
    requires IsRun(states, actions) && k < |states|
    ensures QueueInv(states[k])
  {
    RunKeepsInv(states, actions, k);
  }

  /** The call's remaining steps fall with each of its own and never rise. */
  ghost predicate Progresses(s: State, a: Action, s': State, t: Tid) {
    StepsLeftOf(s', t) + (if OwnStep(a, t) then 1 else 0) <= StepsLeftOf(s, t)
  }

  lemma {:induction false} CallsGrowAlong(states: seq<State>, i: nat, j: nat)
    requires i <= j < |states|
    requires forall k :: 0 < k < |states| ==> states[k - 1].calls <= states[k].calls
    ensures states[i].calls <= states[j].calls
  {
    if i < j {
      CallsGrowAlong(states, i, j - 1);
    }
  }

  lemma CallsGrowInRun(states: seq<State>, actions: seq<Action>, i: nat, j: nat)
    requires IsRun(states, actions) && i <= j < |states|
    ensures states[i].calls <= states[j].calls
  {
    forall k | 0 < k < |states| ensures states[k - 1].calls <= states[k].calls {
      CallsGrow(states[k - 1], actions[k - 1]);
    }
    CallsGrowAlong(states, i, j);
  }

  lemma ProgressStep(states: seq<State>, actions: seq<Action>, j: nat, t: Tid)
    requires IsRun(states, actions) && 0 < j < |states| && !states[j - 1].monitor && t < states[j - 1].calls
    ensures Progresses(states[j - 1], actions[j - 1], states[j], t)
  {
    RunQueueInv(states, actions, j - 1);
    StepTowardsExit(states[j - 1], actions[j - 1], t);
  }

  lemma {:induction false} StepsAddUp(states: seq<State>, actions: seq<Action>, i: nat, j: nat, t: Tid)
    requires |states| == |actions| + 1 && i <= j < |states|
    requires forall k :: i < k <= j ==> Progresses(states[k - 1], actions[k - 1], states[k], t)
    ensures OwnSteps(actions[i..j], t) + StepsLeftOf(states[j], t) <= StepsLeftOf(states[i], t)
  {
    if i < j {
      StepsAddUp(states, actions, i, j - 1, t);
      assert Progresses(states[j - 1], actions[j - 1], states[j], t);
      OwnStepsSlice(actions, i, j, t);
    } else {
      assert actions[i..j] == [];
    }
  }

  lemma AtMostTwelve(s: State, t: Tid)
    ensures StepsLeftOf(s, t) <= 12
  {
  }

  /** Shutdown progress: for as long as the monitor stays off, every call inside takes at most
      as many further steps as its place in the code allows, at most twelve in all. */
  lemma ShutdownProgress(states: seq<State>, actions: seq<Action>, i: nat, j: nat, t: Tid)
    requires IsRun(states, actions) && i <= j < |states| && t in states[i].threads
    requires forall k :: i <= k < j ==> !states[k].monitor
    ensures OwnSteps(actions[i..j], t) + StepsLeftOf(states[j], t) <= StepsLeftOf(states[i], t) <= 12
  {
    RunQueueInv(states, actions, i);
    forall k | i < k <= j ensures Progresses(states[k - 1], actions[k - 1], states[k], t) {
      CallsGrowInRun(states, actions, i, k - 1);
      ProgressStep(states, actions, k, t);
    }
    StepsAddUp(states, actions, i, j, t);
    AtMostTwelve(states[i], t);
  }

  /** A call that has its grant, or has been sent a signal, or is gone. */
  predicate CalledOff(s: State, t: Tid) {
    t < s.calls && (t in s.threads ==> s.threads[t].granted || s.threads[t].signalled)
  }

  lemma CalledOffMove(s: State, t: Tid, m: Move)
    requires Enabled(s, Step(t, m)) && (s.threads[t].granted || s.threads[t].signalled)
    ensures StepsLeft(Moved(s, s.threads[t], m).pc) < StepsLeft(s.threads[t].pc)
    ensures Moved(s, s.threads[t], m).granted == s.threads[t].granted
    ensures Moved(s, s.threads[t], m).signalled == s.threads[t].signalled
  {
  }

  lemma OwnStepOfCalledOff(s: State, a: Action, t: Tid)
    requires Enabled(s, a) && OwnStep(a, t) && CalledOff(s, t)
    ensures StepsLeftOf(Apply(s, a), t) < StepsLeftOf(s, t) && CalledOff(Apply(s, a), t)
  {
    if a.Step? {
      CalledOffMove(s, t, a.move);
    }
  }

  lemma OthersKeepCalledOff(s: State, a: Action, t: Tid)
    requires QueueInv(s) && Enabled(s, a) && !OwnStep(a, t) && CalledOff(s, t)
    ensures CalledOff(Apply(s, a), t)
  {
    if !MovesThread(a) {
      OtherStepsKeepCalls(s, a);
    }
  }

  lemma CalledOffStep(s: State, a: Action, s': State, t: Tid)
    requires QueueInv(s) && Enabled(s, a) && s' == Apply(s, a) && CalledOff(s, t)
    ensures Progresses(s, a, s', t) && CalledOff(s', t)
  {
    if OwnStep(a, t) {
      OwnStepOfCalledOff(s, a, t);
    } else {
      OtherStepKeepsPlace(s, a, t);
      OthersKeepCalledOff(s, a, t);
    }
  }

  lemma CalledOffInRun(states: seq<State>, actions: seq<Action>, j: nat, t: Tid)
    requires IsRun(states, actions) && 0 < j < |states| && CalledOff(states[j - 1], t)
    ensures Progresses(states[j - 1], actions[j - 1], states[j], t) && CalledOff(states[j], t)
  {
    RunQueueInv(states, actions, j - 1);
    CalledOffStep(states[j - 1], actions[j - 1], states[j], t);
  }

  lemma {:induction false} CalledOffStays(states: seq<State>, actions: seq<Action>, i: nat, j: nat, t: Tid)
    requires IsRun(states, actions) && i <= j < |states| && CalledOff(states[i], t)
    ensures CalledOff(states[j], t)
  {
    if i < j {
      CalledOffStays(states, actions, i, j - 1, t);
      CalledOffInRun(states, actions, j, t);
    }
  }

  /** Whoever has a grant or a signal leaves, whether the monitor is on or off: it takes at most as
      many further steps as its place in the code allows, at most twelve in all, and does not sleep. */
  lemma CalledOffLeaves(states: seq<State>, actions: seq<Action>, i: nat, j: nat, t: Tid)
    requires IsRun(states, actions) && i <= j < |states| && t in states[i].threads
    requires states[i].threads[t].granted || states[i].threads[t].signalled
    ensures OwnSteps(actions[i..j], t) + StepsLeftOf(states[j], t) <= StepsLeftOf(states[i], t) <= 12
    ensures t in states[j].threads ==>
              Enabled(states[j], NextOwn(states[j], t)) || (NeedsLock(states[j].threads[t].pc) && !states[j].lock.Free?)
  {
    RunQueueInv(states, actions, i);
    forall k | i < k <= j ensures Progresses(states[k - 1], actions[k - 1], states[k], t) {
      CalledOffStays(states, actions, i, k - 1, t);
      CalledOffInRun(states, actions, k, t);
    }
    StepsAddUp(states, actions, i, j, t);
    AtMostTwelve(states[i], t);
    CalledOffStays(states, actions, i, j, t);
    if t in states[j].threads {
      CalledOffIsAwake(states, actions, j, t);
    }
  }

  lemma CalledOffIsAwake(states: seq<State>, actions: seq<Action>, j: nat, t: Tid)
    requires IsRun(states, actions) && j < |states| && CalledOff(states[j], t) && t in states[j].threads
    ensures Enabled(states[j], NextOwn(states[j], t)) || (NeedsLock(states[j].threads[t].pc) && !states[j].lock.Free?)
  {
    RunKeepsInv(states, actions, j);
    assert SleepInv(states[j]);
  }

  /** The unloader is never asleep with active_wrappers at zero and no wake-up on its way. */
  lemma UnloaderIsWoken(states: seq<State>, actions: seq<Action>, k: nat)
    requires IsRun(states, actions) && k < |states|
    requires states[k].stage.UnloadParked? && states[k].unloadArmed && states[k].active == 0
    ensures exists t :: Enabled(states[k], WakeUnloader(t))
                        && !Apply(states[k], WakeUnloader(t)).unloadArmed
  {
    RunKeepsInv(states, actions, k);
    var t :| t in states[k].threads && states[k].threads[t].pc.Waking?;
    assert Enabled(states[k], WakeUnloader(t));
  }

  // ---------------------------------------------------------------- teardown

  /** The places where the protocol reads a rule. */
  predicate ReadsRules(pc: Pc) {
    pc.Verifying? || pc.Counted? || pc.Measured?
  }

  ghost predicate NobodyReadsRules(s: State) {
    && (forall t :: t in s.threads ==> !ReadsRules(s.threads[t].pc))
    && !s.timer.Resetting? && !s.timer.Scanning?
  }

  lemma DrainedStays(s: State, a: Action)
    requires Drained(s) && Enabled(s, a) && UnloadInv(s)
    ensures Drained(Apply(s, a))
  {
  }

  lemma DrainedReadsNothing(s: State)
    requires Drained(s) && UnloadInv(s)
    ensures NobodyReadsRules(s)
  {
  }

  lemma RunUnloadInv(states: seq<State>, actions: seq<Action>, k: nat)
    requires IsRun(states, actions) && k < |states|
    ensures UnloadInv(states[k])
  {
    RunKeepsInv(states, actions, k);
  }

  lemma {:induction false} DrainedForever(states: seq<State>, actions: seq<Action>, i: nat, j: nat)
    requires IsRun(states, actions) && i <= j < |states| && Drained(states[i])
    ensures Drained(states[j])
  {
    if i < j {
      DrainedForever(states, actions, i, j - 1);
      RunUnloadInv(states, actions, j - 1);
      DrainedStays(states[j - 1], actions[j - 1]);
    }
  }

  /** Teardown safety: once the unloader has seen active_wrappers at zero, nobody reads a rule
      again, although new calls may still enter. */
  lemma TeardownSafety(states: seq<State>, actions: seq<Action>, i: nat, j: nat)
    requires IsRun(states, actions) && i <= j < |states| && Drained(states[i])
    ensures Drained(states[j]) && NobodyReadsRules(states[j])
  {
    DrainedForever(states, actions, i, j);
    RunUnloadInv(states, actions, j);
    DrainedReadsNothing(states[j]);
  }

  // ------------------------------------------------------------ stale entries

  /** A run in which the queue keeps the entry of a call that has already returned: the monitor
      is switched off between the enqueueing of the waiter and its test. */
  lemma StaleEntryExists() returns (states: seq<State>, actions: seq<Action>)
    ensures IsRun(states, actions)
    ensures states[|actions|] ==
            START.(calls := 1, queue := [0], enqueued := [0], monitor := false, alwaysOn := false,
                   agents := map[1 := Off])
  {
    forall i | 0 <= i < 13
      ensures Enabled(StaleState(i), StaleAction(i)) && StaleState(i + 1) == Apply(StaleState(i), StaleAction(i))
    {
      StaleStep(i);
    }
    states, actions := RunOf((i: nat) => StaleState(i), (i: nat) => StaleAction(i), 13);
  }

  /** The run that visits the states of `f` by the actions of `g`. */
  lemma RunOf(f: nat -> State, g: nat -> Action, n: nat) returns (states: seq<State>, actions: seq<Action>)
    requires f(0) == START
    requires forall i :: 0 <= i < n ==> Enabled(f(i), g(i)) && f(i + 1) == Apply(f(i), g(i))
    ensures IsRun(states, actions) && |actions| == n && states[n] == f(n)
  {
    states := seq(n + 1, i requires 0 <= i => f(i));
    actions := seq(n, i requires 0 <= i => g(i));
  }

  lemma StaleStep(i: nat)
    requires i < 13
    ensures Enabled(StaleState(i), StaleAction(i))
    ensures StaleState(i + 1) == Apply(StaleState(i), StaleAction(i))
  {
    if i < 4 {
      StaleStepIn(i);
    } else if i < 7 {
      StaleStepOn(i);
    } else if i < 10 {
      StaleStepOff(i);
    } else if i == 10 {
      StaleStepPast();
    } else if i < 12 {
      StaleStepOut();
    } else {
      StaleStepGone();
    }
  }

  function StaleAction(i: nat): Action {
    match i
    case 0 => Enter
    case 1 => Step(0, CheckMonitor)
    case 2 => Step(0, Decide(true))
    case 3 => Step(0, CountIn)
    case 4 => Step(0, RecordGauge)
    case 5 => Step(0, Enqueue)
    case 6 => Step(0, Prepare)
    case 7 => SwitchOff(1)
    case 8 => Step(0, Test)
    case 9 => Step(0, CountOut)
    case 10 => Step(0, RecordDelay)
    case 11 => Leave(0)
    case _ => WakeUnloader(0)
  }

  lemma StaleStepIn(i: nat)
    requires i < 4
    ensures Enabled(StaleState(i), StaleAction(i))
    ensures StaleState(i + 1) == Apply(StaleState(i), StaleAction(i))
  {
  }

  lemma StaleStepOn(i: nat)
    requires 4 <= i < 7
    ensures Enabled(StaleState(i), StaleAction(i))
    ensures StaleState(i + 1) == Apply(StaleState(i), StaleAction(i))
  {
  }

  lemma StaleStepOff(i: nat)
    requires 7 <= i < 10
    ensures Enabled(StaleState(i), StaleAction(i))
    ensures StaleState(i + 1) == Apply(StaleState(i), StaleAction(i))
  {
  }

  lemma StaleStepPast()
    ensures Enabled(StaleState(10), StaleAction(10))
    ensures StaleState(11) == Apply(StaleState(10), StaleAction(10))
  {
  }

  lemma StaleStepOut()
    ensures Enabled(StaleState(11), StaleAction(11))
    ensures StaleState(12) == Apply(StaleState(11), StaleAction(11))
  {
  }

  lemma StaleStepGone()
    ensures Enabled(StaleState(12), StaleAction(12))
    ensures StaleState(13) == Apply(StaleState(12), StaleAction(12))
  {
  }

  /** The states of that run. */
  function StaleState(i: nat): State {
    var waiting := START.(calls := 1, active := 1, blocked := 1);
    var queued := waiting.(queue := [0], enqueued := [0]);
    var off := queued.(monitor := false, alwaysOn := false, agents := map[1 := Off]);
    match i
    case 0 => START
    case 1 => waiting.(threads := At(Entered), blocked := 0)
    case 2 => waiting.(threads := At(Verifying), blocked := 0)
    case 3 => waiting.(threads := At(Blocking), blocked := 0)
    case 4 => waiting.(threads := At(Counted))
    case 5 => waiting.(threads := At(Queuing))
    case 6 => queued.(threads := At(Preparing))
    case 7 => queued.(threads := map[0 := Thread(Testing, false, true, false, false)])
    case 8 => off.(threads := map[0 := Thread(Testing, false, true, false, false)])
    case 9 => off.(threads := At(Woken))
    case 10 => off.(threads := At(Measured), blocked := 0)
    case 11 => off.(threads := At(Leaving), blocked := 0)
    case 12 => off.(threads := At(Waking), blocked := 0, active := 0)
    case _ => off.(threads := map[], blocked := 0, active := 0)
  }

  function At(pc: Pc): map<Tid, Thread> {
    map[0 := Thread(pc, false, false, false, false)]
  }
}
