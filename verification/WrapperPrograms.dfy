/**
 The order of the steps of each party, told by the steps alone: what a call does
 from its entry to its exit is a path through enforce_syscall_policy.
 */
module WrapperPrograms {
  import opened CTypes
  import opened WrapperProtocol
  import opened WrapperSafety
  import opened WrapperRuns
  import opened WrapperRecords

  // ------------------------------------------------------------- the words

  /** What a call that has found the monitor on and is over the limit does first. */
  function ToQueue(t: Tid): seq<Action> {
    [Step(t, CheckMonitor), Step(t, Decide(true)), Step(t, CountIn), Step(t, RecordGauge), Step(t, Enqueue)]
  }

  /** n vain turns of the wait loop: prepare to sleep, test in vain, sleep until woken. */
  function Turns(t: Tid, n: nat): seq<Action> {
    if n == 0 then [] else Turns(t, n - 1) + [Step(t, Prepare), Step(t, Test), Step(t, Resume)]
  }

  /** In the wait loop after any number of turns, and these steps of the last one. */
  ghost predicate InLoop(path: seq<Action>, t: Tid, tail: seq<Action>) {
    exists n: nat :: path == ToQueue(t) + Turns(t, n) + tail
  }

  /** A call's way up to its exit: past the policy, admitted, woken with its delay recorded, or
      interrupted. */
  ghost predicate IsWay(path: seq<Action>, t: Tid) {
    || path == [Step(t, CheckMonitor)]
    || path == [Step(t, CheckMonitor), Step(t, Decide(false))]
    || InLoop(path, t, [Step(t, Prepare), Step(t, Test), Step(t, CountOut), Step(t, RecordDelay)])
    || InLoop(path, t, [Step(t, Prepare), Step(t, Test), Step(t, Abandon), Step(t, CountOut)])
  }

  /** Who takes steps of its own in program order. */
  datatype Party = Call(tid: Tid) | Unloader

  predicate Takes(p: Party, a: Action) {
    match p
    case Call(t) => OwnStep(a, t)
    case Unloader => UnloaderStep(a)
  }

  /** The step is the unloader's own, its flush included. */
  predicate UnloaderStep(a: Action) {
    || a.BeginUnload? || a == FlushLock(UNLOADER) || a == FlushOne(UNLOADER) || a == FlushUnlock(UNLOADER)
    || a.DeleteTimer? || a.UnloadPrepare? || a.UnloadTest? || a.UnloadResume? || a.FinishUnload?
  }

  /** The steps of one party, in order. */
  function Path(actions: seq<Action>, p: Party): seq<Action> {
    if actions == [] then []
    else
      var last := actions[|actions| - 1];
      Path(actions[..|actions| - 1], p) + (if Takes(p, last) then [last] else [])
  }

  // ---------------------------------------------------------- the invariant

  /** The path leads to this place in the code. */
  ghost predicate LeadsTo(path: seq<Action>, t: Tid, pc: Pc) {
    match pc
    case Entered => path == []
    case Verifying => path == [Step(t, CheckMonitor)]
    case Blocking => path == ToQueue(t)[..2]
    case Counted => path == ToQueue(t)[..3]
    case Queuing => path == ToQueue(t)[..4]
    case Preparing => InLoop(path, t, [])
    case Testing => InLoop(path, t, [Step(t, Prepare)])
    case Parked => InLoop(path, t, [Step(t, Prepare), Step(t, Test)])
    case Interrupted => InLoop(path, t, [Step(t, Prepare), Step(t, Test)])
    case Woken => InLoop(path, t, [Step(t, Prepare), Step(t, Test)])
    case Abandoning => InLoop(path, t, [Step(t, Prepare), Step(t, Test), Step(t, Abandon)])
    case Measured => InLoop(path, t, [Step(t, Prepare), Step(t, Test), Step(t, CountOut)])
    case Leaving => IsWay(path, t)
    case Waking => exists way :: IsWay(way, t) && path == way + [Leave(t)]
  }

  /** The last turn grows by a step. */
  lemma LoopGoesOn(path: seq<Action>, t: Tid, tail: seq<Action>, a: Action, tail': seq<Action>)
    requires InLoop(path, t, tail) && tail' == tail + [a]
    ensures InLoop(path + [a], t, tail')
  {
    var n: nat :| path == ToQueue(t) + Turns(t, n) + tail;
    assert path + [a] == ToQueue(t) + Turns(t, n) + tail';
  }

  lemma LoopTurns(path: seq<Action>, t: Tid)
    requires InLoop(path, t, [Step(t, Prepare), Step(t, Test)])
    ensures InLoop(path + [Step(t, Resume)], t, [])
  {
    var n: nat :| path == ToQueue(t) + Turns(t, n) + [Step(t, Prepare), Step(t, Test)];
    assert Turns(t, n + 1) == Turns(t, n) + [Step(t, Prepare), Step(t, Test), Step(t, Resume)];
    assert path + [Step(t, Resume)] == ToQueue(t) + Turns(t, n + 1) + [];
  }

  lemma LoopBegins(path: seq<Action>, t: Tid)
    requires path == ToQueue(t)[..4]
    ensures InLoop(path + [Step(t, Enqueue)], t, [])
  {
    assert path + [Step(t, Enqueue)] == ToQueue(t) + Turns(t, 0) + [];
  }

  predicate Early(m: Move) {
    m.CheckMonitor? || m.Decide? || m.CountIn? || m.RecordGauge? || m.Enqueue?
  }

  lemma EarlyLeadsOn(s: State, path: seq<Action>, t: Tid, m: Move)
    requires Enabled(s, Step(t, m)) && LeadsTo(path, t, s.threads[t].pc) && Early(m)
    ensures LeadsTo(path + [Step(t, m)], t, Moved(s, s.threads[t], m).pc)
  {
    if m.Enqueue? {
      LoopBegins(path, t);
    }
  }

  lemma WaitLeadsOn(s: State, path: seq<Action>, t: Tid, m: Move)
    requires Enabled(s, Step(t, m)) && LeadsTo(path, t, s.threads[t].pc)
    requires m.Prepare? || m.Test? || m.Resume?
    ensures LeadsTo(path + [Step(t, m)], t, Moved(s, s.threads[t], m).pc)
  {
    if m.Resume? {
      LoopTurns(path, t);
    } else {
      LoopGoesOn(path, t, if m.Prepare? then [] else [Step(t, Prepare)], Step(t, m),
                 if m.Prepare? then [Step(t, Prepare)] else [Step(t, Prepare), Step(t, Test)]);
    }
  }

  lemma ExitLeadsOn(s: State, path: seq<Action>, t: Tid, m: Move)
    requires Enabled(s, Step(t, m)) && LeadsTo(path, t, s.threads[t].pc)
    requires m.Abandon? || m.CountOut? || m.RecordDelay?
    ensures LeadsTo(path + [Step(t, m)], t, Moved(s, s.threads[t], m).pc)
  {
    match s.threads[t].pc
    case Interrupted =>
      LoopGoesOn(path, t, [Step(t, Prepare), Step(t, Test)], Step(t, m),
                 [Step(t, Prepare), Step(t, Test), Step(t, Abandon)]);
    case Woken =>
      LoopGoesOn(path, t, [Step(t, Prepare), Step(t, Test)], Step(t, m),
                 [Step(t, Prepare), Step(t, Test), Step(t, CountOut)]);
    case Abandoning =>
      LoopGoesOn(path, t, [Step(t, Prepare), Step(t, Test), Step(t, Abandon)], Step(t, m),
                 [Step(t, Prepare), Step(t, Test), Step(t, Abandon), Step(t, CountOut)]);
    case Measured =>
      LoopGoesOn(path, t, [Step(t, Prepare), Step(t, Test), Step(t, CountOut)], Step(t, m),
                 [Step(t, Prepare), Step(t, Test), Step(t, CountOut), Step(t, RecordDelay)]);
  }

  lemma MoveLeadsOn(s: State, path: seq<Action>, t: Tid, m: Move)
    requires Enabled(s, Step(t, m)) && LeadsTo(path, t, s.threads[t].pc)
    ensures LeadsTo(path + [Step(t, m)], t, Moved(s, s.threads[t], m).pc)
  {
    if Early(m) {
      EarlyLeadsOn(s, path, t, m);
    } else if m.Prepare? || m.Test? || m.Resume? {
      WaitLeadsOn(s, path, t, m);
    } else {
      ExitLeadsOn(s, path, t, m);
    }
  }

  /** What call t has done so far: nothing yet, part of the code, or all of it. Whoever takes
      active_wrappers to zero wakes the unloader after that. */
  ghost predicate PathFits(s: State, path: seq<Action>, t: Tid) {
    if t >= s.calls then path == []
    else if t in s.threads then LeadsTo(path, t, s.threads[t].pc)
    else HasLeft(path, t)
  }

  ghost predicate HasLeft(path: seq<Action>, t: Tid) {
    exists way :: IsWay(way, t) && (path == way + [Leave(t)] || path == way + [Leave(t), WakeUnloader(t)])
  }

  lemma LeaveFits(s: State, path: seq<Action>, t: Tid)
    requires PathFits(s, path, t) && t < s.calls && Enabled(s, Leave(t))
    ensures PathFits(DoLeave(s, t), path + [Leave(t)], t)
  {
    assert IsWay(path, t) && path + [Leave(t)] == path + [Leave(t)];
  }

  lemma WakeFits(s: State, path: seq<Action>, t: Tid)
    requires PathFits(s, path, t) && t < s.calls && Enabled(s, WakeUnloader(t))
    ensures PathFits(Apply(s, WakeUnloader(t)), path + [WakeUnloader(t)], t)
  {
    var way :| IsWay(way, t) && path == way + [Leave(t)];
    assert path + [WakeUnloader(t)] == way + [Leave(t), WakeUnloader(t)];
  }

  lemma OwnStepFits(s: State, a: Action, path: seq<Action>, t: Tid)
    requires QueueInv(s) && Enabled(s, a) && OwnStep(a, t) && PathFits(s, path, t)
    ensures PathFits(Apply(s, a), path + [a], t)
  {
    assert t in s.threads && t < s.calls;
    match a
    case Step(_, m) => MoveLeadsOn(s, path, t, m);
    case Leave(_) => LeaveFits(s, path, t);
    case WakeUnloader(_) => WakeFits(s, path, t);
  }

  /** Nobody else moves a call. */
  lemma OthersKeepPlace(s: State, a: Action, t: Tid)
    requires QueueInv(s) && Enabled(s, a) && !OwnStep(a, t)
    ensures var s' := Apply(s, a);
            && (t < s.calls ==> t < s'.calls && (t in s'.threads <==> t in s.threads))
            && (t in s.threads ==> t in s'.threads && s'.threads[t].pc == s.threads[t].pc)
            && (t >= s.calls && t < s'.calls ==> a.Enter? && t in s'.threads && s'.threads[t].pc == Entered)
  {
    if !MovesThread(a) {
      OtherStepsKeepCalls(s, a);
    }
  }

  lemma StepFits(s: State, a: Action, s': State, path: seq<Action>, t: Tid)
    requires QueueInv(s) && Enabled(s, a) && s' == Apply(s, a) && PathFits(s, path, t)
    ensures PathFits(s', if OwnStep(a, t) then path + [a] else path, t)
  {
    if OwnStep(a, t) {
      OwnStepFits(s, a, path, t);
    } else {
      OthersKeepPlace(s, a, t);
    }
  }

  lemma StepFitsInRun(states: seq<State>, actions: seq<Action>, k: nat, path: seq<Action>, t: Tid)
    requires IsRun(states, actions) && 0 < k < |states| && PathFits(states[k - 1], path, t)
    ensures PathFits(states[k], if OwnStep(actions[k - 1], t) then path + [actions[k - 1]] else path, t)
  {
    RunQueueInv(states, actions, k - 1);
    StepFits(states[k - 1], actions[k - 1], states[k], path, t);
  }

  lemma PathGrows(actions: seq<Action>, k: nat, p: Party)
    requires 0 < k <= |actions|
    ensures Path(actions[..k], p) ==
            if Takes(p, actions[k - 1]) then Path(actions[..k - 1], p) + [actions[k - 1]] else Path(actions[..k - 1], p)
  {
    assert actions[..k][..k - 1] == actions[..k - 1];
  }

  /** In every run the steps of each call so far are a path through the code to its place, or all
      the way through it. */
  lemma {:induction false} CallsFollowCode(states: seq<State>, actions: seq<Action>, k: nat, t: Tid)
    requires IsRun(states, actions) && k < |states|
    ensures PathFits(states[k], Path(actions[..k], Call(t)), t)
  {
    if k == 0 {
      assert actions[..0] == [];
    } else {
      CallsFollowCode(states, actions, k - 1, t);
      StepFitsInRun(states, actions, k, Path(actions[..k - 1], Call(t)), t);
      PathGrows(actions, k, Call(t));
    }
  }

  /** A call that leaves has gone one of the four ways through enforce_syscall_policy, step by step. */
  lemma LeaversWentThrough(states: seq<State>, actions: seq<Action>, k: nat, t: Tid)
    requires IsRun(states, actions) && k < |actions| && actions[k] == Leave(t)
    ensures IsWay(Path(actions[..k], Call(t)), t)
  {
    CallsFollowCode(states, actions, k, t);
    RunQueueInv(states, actions, k);
  }

  // -------------------------------------------------- what is done just once

  /** Exactly one of the steps from i to j is `a`. */
  ghost predicate Once(actions: seq<Action>, i: nat, j: nat, a: Action) {
    j <= |actions| && exists x :: i <= x < j && actions[x] == a && forall y :: i <= y < j && actions[y] == a ==> y == x
  }

  lemma {:induction false} TwiceCounts(s: seq<Action>, x: nat, y: nat)
    requires x < y < |s| && s[x] == s[y]
    ensures multiset(s)[s[x]] >= 2
  {
    assert s == s[..y] + s[y..];
    assert s[..y][x] in multiset(s[..y]) && s[y..][0] in multiset(s[y..]);
  }

  lemma CountIsPlace(s: seq<Action>, a: Action) returns (x: nat)
    requires multiset(s)[a] == 1
    ensures x < |s| && s[x] == a && forall y :: 0 <= y < |s| && s[y] == a ==> y == x
  {
    assert a in multiset(s);
    x :| x < |s| && s[x] == a;
    forall y | 0 <= y < |s| && s[y] == a ensures y == x {
      if y < x {
        TwiceCounts(s, y, x);
      } else if x < y {
        TwiceCounts(s, x, y);
      }
    }
  }

  lemma SliceAt(actions: seq<Action>, i: nat, j: nat, y: nat)
    requires i <= y < j <= |actions|
    ensures actions[i..j][y - i] == actions[y]
  {
  }

  lemma OnceByCount(actions: seq<Action>, i: nat, j: nat, a: Action)
    requires i <= j <= |actions| && multiset(actions[i..j])[a] == 1
    ensures Once(actions, i, j, a)
  {
    var s := actions[i..j];
    var x := CountIsPlace(s, a);
    var z: nat := i + x;
    SliceAt(actions, i, j, z);
    forall y | i <= y < j && actions[y] == a ensures y == z {
      SliceAt(actions, i, j, y);
    }
  }

  lemma CountIfIn(s: seq<Action>, a: Action)
    ensures a in s <==> multiset(s)[a] > 0
  {
    assert a in s <==> a in multiset(s);
  }

  lemma OneMoreCounts(s: seq<Action>, x: Action, a: Action)
    ensures multiset(s + [x])[a] == multiset(s)[a] + if x == a then 1 else 0
  {
  }

  lemma {:induction false} PathCounts(actions: seq<Action>, p: Party, a: Action)
    requires Takes(p, a)
    ensures multiset(Path(actions, p))[a] == multiset(actions)[a]
  {
    if actions != [] {
      var last := |actions| - 1;
      var init, x := actions[..last], actions[last];
      PathCounts(init, p, a);
      assert actions == init + [x];
      OneMoreCounts(init, x, a);
      OneMoreCounts(Path(init, p), x, a);
    }
  }

  lemma SliceCounts(actions: seq<Action>, i: nat, j: nat, t: Tid, a: Action)
    requires i <= j <= |actions| && OwnStep(a, t)
    ensures multiset(Path(actions[..i], Call(t)))[a] + multiset(actions[i..j])[a] ==
            multiset(Path(actions[..j], Call(t)))[a]
  {
    assert actions[..j] == actions[..i] + actions[i..j];
    PathCounts(actions[..i], Call(t), a);
    PathCounts(actions[..j], Call(t), a);
  }

  lemma {:induction false} TurnsCount(t: Tid, n: nat, m: Move)
    requires !m.Prepare? && !m.Test? && !m.Resume?
    ensures multiset(Turns(t, n))[Step(t, m)] == 0
  {
    if n > 0 {
      TurnsCount(t, n - 1, m);
    }
  }

  /** What the turns of the loop do not touch, the rest of the path counts. */
  lemma LoopCounts(path: seq<Action>, t: Tid, tail: seq<Action>, m: Move)
    requires InLoop(path, t, tail) && !m.Prepare? && !m.Test? && !m.Resume?
    ensures multiset(path)[Step(t, m)] == multiset(ToQueue(t))[Step(t, m)] + multiset(tail)[Step(t, m)]
  {
    var n: nat :| path == ToQueue(t) + Turns(t, n) + tail;
    TurnsCount(t, n, m);
  }

  /** At its place in the queue a call has recorded the gauge once, and no delay. */
  lemma QueuingHasRecorded(states: seq<State>, actions: seq<Action>, e: nat, t: Tid)
    requires IsRun(states, actions) && e < |actions| && actions[e] == Step(t, Enqueue)
    ensures Path(actions[..e], Call(t)) == ToQueue(t)[..4]
  {
    CallsFollowCode(states, actions, e, t);
    RunQueueInv(states, actions, e);
  }

  /** Every call that joins the queue has recorded the gauge exactly once before. */
  lemma GaugeIsRecordedOnce(states: seq<State>, actions: seq<Action>, e: nat, t: Tid)
    requires IsRun(states, actions) && e < |actions| && actions[e] == Step(t, Enqueue)
    ensures Once(actions, 0, e, Step(t, RecordGauge))
  {
    QueuingHasRecorded(states, actions, e, t);
    SliceCounts(actions, 0, e, t, Step(t, RecordGauge));
    assert actions[..0] == [] && actions[0..e] == actions[..e];
    assert ToQueue(t)[..4] ==
           [Step(t, CheckMonitor), Step(t, Decide(true)), Step(t, CountIn), Step(t, RecordGauge)];
    OnceByCount(actions, 0, e, Step(t, RecordGauge));
  }

  lemma GivingUpCounts(path: seq<Action>, t: Tid)
    requires InLoop(path, t, [Step(t, Prepare), Step(t, Test), Step(t, Abandon), Step(t, CountOut)])
    ensures Step(t, Abandon) in path
  {
    LoopCounts(path, t, [Step(t, Prepare), Step(t, Test), Step(t, Abandon), Step(t, CountOut)], Abandon);
    CountIfIn(path, Step(t, Abandon));
  }

  lemma WakingCounts(path: seq<Action>, t: Tid)
    requires InLoop(path, t, [Step(t, Prepare), Step(t, Test), Step(t, CountOut), Step(t, RecordDelay)])
    ensures multiset(path)[Step(t, RecordDelay)] == 1
  {
    LoopCounts(path, t, [Step(t, Prepare), Step(t, Test), Step(t, CountOut), Step(t, RecordDelay)], RecordDelay);
  }

  lemma WayWithQueue(path: seq<Action>, t: Tid)
    requires IsWay(path, t) && Step(t, Enqueue) in path && Step(t, Abandon) !in path
    ensures multiset(path)[Step(t, RecordDelay)] == 1
  {
    if InLoop(path, t, [Step(t, Prepare), Step(t, Test), Step(t, CountOut), Step(t, RecordDelay)]) {
      WakingCounts(path, t);
    } else if InLoop(path, t, [Step(t, Prepare), Step(t, Test), Step(t, Abandon), Step(t, CountOut)]) {
      GivingUpCounts(path, t);
      assert false;
    }
  }

  lemma InPath(actions: seq<Action>, t: Tid, a: Action)
    requires OwnStep(a, t)
    ensures a in Path(actions, Call(t)) <==> a in actions
  {
    PathCounts(actions, Call(t), a);
    CountIfIn(Path(actions, Call(t)), a);
    CountIfIn(actions, a);
  }

  lemma NoDelayBeforeQueue(t: Tid)
    ensures multiset(ToQueue(t)[..4])[Step(t, RecordDelay)] == 0
  {
    CountIfIn(ToQueue(t)[..4], Step(t, RecordDelay));
  }

  lemma DelayCounts(states: seq<State>, actions: seq<Action>, e: nat, k: nat, t: Tid)
    requires IsRun(states, actions) && e < k < |actions|
    requires actions[e] == Step(t, Enqueue) && actions[k] == Leave(t) && Step(t, Abandon) !in actions[..k]
    ensures multiset(Path(actions[..e], Call(t)))[Step(t, RecordDelay)] == 0
    ensures multiset(Path(actions[..k], Call(t)))[Step(t, RecordDelay)] == 1
  {
    QueuingHasRecorded(states, actions, e, t);
    NoDelayBeforeQueue(t);
    LeaversWentThrough(states, actions, k, t);
    assert actions[..k][e] == Step(t, Enqueue);
    InPath(actions[..k], t, Step(t, Enqueue));
    InPath(actions[..k], t, Step(t, Abandon));
    WayWithQueue(Path(actions[..k], Call(t)), t);
  }

  /** Every call that was queued and has not given up records its delay exactly once before it
      leaves. */
  lemma DelayIsRecordedOnce(states: seq<State>, actions: seq<Action>, e: nat, k: nat, t: Tid)
    requires IsRun(states, actions) && e < k < |actions|
    requires actions[e] == Step(t, Enqueue) && actions[k] == Leave(t) && Step(t, Abandon) !in actions[..k]
    ensures Once(actions, e, k, Step(t, RecordDelay))
  {
    DelayCounts(states, actions, e, k, t);
    SliceCounts(actions, e, k, t, Step(t, RecordDelay));
    OnceByCount(actions, e, k, Step(t, RecordDelay));
  }

  lemma NoneByCount(actions: seq<Action>, i: nat, j: nat, a: Action, x: nat)
    requires i <= x < j <= |actions| && multiset(actions[i..j])[a] == 0
    ensures actions[x] != a
  {
    CountIfIn(actions[i..j], a);
    SliceAt(actions, i, j, x);
  }

  /** Before it joins the queue a call records no delay. */
  lemma NoDelayBefore(states: seq<State>, actions: seq<Action>, e: nat, t: Tid, x: nat)
    requires IsRun(states, actions) && x < e < |actions| && actions[e] == Step(t, Enqueue)
    ensures actions[x] != Step(t, RecordDelay)
  {
    QueuingHasRecorded(states, actions, e, t);
    NoDelayBeforeQueue(t);
    PathCounts(actions[..e], Call(t), Step(t, RecordDelay));
    assert actions[..e] == actions[0..e];
    NoneByCount(actions, 0, e, Step(t, RecordDelay), x);
  }

  lemma WokenCountsGauge(path: seq<Action>, t: Tid)
    requires InLoop(path, t, [Step(t, Prepare), Step(t, Test), Step(t, CountOut), Step(t, RecordDelay)])
    ensures multiset(path)[Step(t, RecordGauge)] == 1
  {
    LoopCounts(path, t, [Step(t, Prepare), Step(t, Test), Step(t, CountOut), Step(t, RecordDelay)], RecordGauge);
  }

  lemma GaveUpCountsGauge(path: seq<Action>, t: Tid)
    requires InLoop(path, t, [Step(t, Prepare), Step(t, Test), Step(t, Abandon), Step(t, CountOut)])
    ensures multiset(path)[Step(t, RecordGauge)] == 1
  {
    LoopCounts(path, t, [Step(t, Prepare), Step(t, Test), Step(t, Abandon), Step(t, CountOut)], RecordGauge);
  }

  lemma WayCountsGauge(path: seq<Action>, t: Tid)
    requires IsWay(path, t)
    ensures multiset(path)[Step(t, RecordGauge)] <= 1
  {
    if InLoop(path, t, [Step(t, Prepare), Step(t, Test), Step(t, CountOut), Step(t, RecordDelay)]) {
      WokenCountsGauge(path, t);
    } else if InLoop(path, t, [Step(t, Prepare), Step(t, Test), Step(t, Abandon), Step(t, CountOut)]) {
      GaveUpCountsGauge(path, t);
    }
  }

  lemma GaugeCounts(states: seq<State>, actions: seq<Action>, e: nat, t: Tid)
    requires IsRun(states, actions) && e < |actions| && actions[e] == Step(t, Enqueue)
    ensures multiset(Path(actions[..e], Call(t)))[Step(t, RecordGauge)] == 1
  {
    QueuingHasRecorded(states, actions, e, t);
    assert ToQueue(t)[..4] ==
           [Step(t, CheckMonitor), Step(t, Decide(true)), Step(t, CountIn), Step(t, RecordGauge)];
  }

  /** Once it has joined the queue it records no gauge. */
  lemma NoGaugeAfter(states: seq<State>, actions: seq<Action>, e: nat, k: nat, t: Tid, x: nat)
    requires IsRun(states, actions) && e <= x < k < |actions|
    requires actions[e] == Step(t, Enqueue) && actions[k] == Leave(t)
    ensures actions[x] != Step(t, RecordGauge)
  {
    LeaversWentThrough(states, actions, k, t);
    WayCountsGauge(Path(actions[..k], Call(t)), t);
    GaugeCounts(states, actions, e, t);
    SliceCounts(actions, e, k, t, Step(t, RecordGauge));
    NoneByCount(actions, e, k, Step(t, RecordGauge), x);
  }

  // ------------------------------------------------------------ the branches

  lemma PlaceStaysInRun(states: seq<State>, actions: seq<Action>, k: nat, t: Tid)
    requires IsRun(states, actions) && 0 < k < |states|
    requires t in states[k - 1].threads && !OwnStep(actions[k - 1], t)
    ensures t in states[k].threads && states[k].threads[t].pc == states[k - 1].threads[t].pc
  {
    RunQueueInv(states, actions, k - 1);
    OthersKeepPlace(states[k - 1], actions[k - 1], t);
  }

  lemma {:induction false} PlaceStays(states: seq<State>, actions: seq<Action>, i: nat, j: nat, t: Tid)
    requires IsRun(states, actions) && i <= j < |states| && t in states[i].threads
    requires forall k :: i <= k < j ==> !OwnStep(actions[k], t)
    ensures t in states[j].threads && states[j].threads[t].pc == states[i].threads[t].pc
  {
    if i < j {
      PlaceStays(states, actions, i, j - 1, t);
      PlaceStaysInRun(states, actions, j, t);
    }
  }

  /** Call t takes step x, and step y next. */
  ghost predicate Consecutive(actions: seq<Action>, x: nat, y: nat, t: Tid) {
    && x < y < |actions| && OwnStep(actions[x], t) && OwnStep(actions[y], t)
    && forall k :: x < k < y ==> !OwnStep(actions[k], t)
  }

  /** What a call does next after it has tested something. */
  ghost predicate Branches(s: State, a: Action, next: Action, t: Tid) {
    && (a == Step(t, CheckMonitor) ==>
          if s.monitor then next == Step(t, Decide(false)) || next == Step(t, Decide(true)) else next == Leave(t))
    && (a == Step(t, Decide(false)) ==> next == Leave(t))
    && (a == Step(t, Decide(true)) ==> next == Step(t, CountIn))
    && (a == Step(t, Test) && t in s.threads ==>
          next == if s.threads[t].granted || !s.monitor then Step(t, CountOut)
                  else if s.threads[t].signalled then Step(t, Abandon)
                  else Step(t, Resume))
    && (a == Leave(t) ==> s.active == 1 && next == WakeUnloader(t))
  }

  lemma OwnStepLeads(s: State, a: Action, t: Tid)
    requires Enabled(s, a) && OwnStep(a, t) && t in Apply(s, a).threads
    ensures t in s.threads
    ensures Apply(s, a).threads[t].pc == if a.Step? then Moved(s, s.threads[t], a.move).pc else Waking
    ensures a == Leave(t) ==> s.active == 1
  {
  }

  lemma NextFits(s: State, a: Action, s': State, next: Action, t: Tid, pc: Pc)
    requires t in s.threads && OwnStep(a, t) && Enabled(s, a)
    requires pc == if a.Step? then Moved(s, s.threads[t], a.move).pc else Waking
    requires a == Leave(t) ==> s.active == 1
    requires OwnStep(next, t) && Enabled(s', next) && s'.threads[t].pc == pc
    ensures Branches(s, a, next, t)
  {
  }

  lemma LeaverIsGone(states: seq<State>, actions: seq<Action>, x: nat, y: nat, t: Tid)
    requires IsRun(states, actions) && Consecutive(actions, x, y, t)
    ensures t in states[x].threads && t in states[x + 1].threads
  {
    RunQueueInv(states, actions, x);
    CallsStay(states, actions, x, t);
    if t !in states[x + 1].threads {
      GoneStays(states, actions, x + 1, y, t);
    }
  }

  lemma GoneInRun(states: seq<State>, actions: seq<Action>, k: nat, t: Tid)
    requires IsRun(states, actions) && 0 < k < |states| && t < states[k - 1].calls && t !in states[k - 1].threads
    ensures t < states[k].calls && t !in states[k].threads
  {
    RunQueueInv(states, actions, k - 1);
    OthersKeepPlace(states[k - 1], actions[k - 1], t);
  }

  lemma {:induction false} GoneStays(states: seq<State>, actions: seq<Action>, i: nat, j: nat, t: Tid)
    requires IsRun(states, actions) && i <= j < |states| && t < states[i].calls && t !in states[i].threads
    ensures t < states[j].calls && t !in states[j].threads
  {
    if i < j {
      GoneStays(states, actions, i, j - 1, t);
      GoneInRun(states, actions, j, t);
    }
  }

  lemma CallsStay(states: seq<State>, actions: seq<Action>, x: nat, t: Tid)
    requires IsRun(states, actions) && x < |actions| && t < states[x].calls
    ensures t < states[x + 1].calls
  {
    CallsGrow(states[x], actions[x]);
  }

  /** What a call does next follows from what it has found: the monitor, its verdict, its grant, a
      signal, and whether it was the last one inside. */
  lemma CallsBranch(states: seq<State>, actions: seq<Action>, x: nat, y: nat, t: Tid)
    requires IsRun(states, actions) && Consecutive(actions, x, y, t)
    ensures Branches(states[x], actions[x], actions[y], t)
  {
    LeaverIsGone(states, actions, x, y, t);
    PlaceStays(states, actions, x + 1, y, t);
    OwnStepLeads(states[x], actions[x], t);
    NextFits(states[x], actions[x], states[y], actions[y], t, states[y].threads[t].pc);
  }

  // --------------------------------------------------------------- the flags

  ghost predicate SweptAt(states: seq<State>, actions: seq<Action>, m: nat, t: Tid) {
    m < |actions| < |states| && Enabled(states[m], actions[m]) && Sweeps(states[m], actions[m], t)
  }

  ghost predicate SignalledAt(actions: seq<Action>, m: nat, t: Tid) {
    m < |actions| && actions[m] == Signal(t)
  }

  ghost predicate FlagsFollow(s: State, a: Action, s': State, t: Tid)
    requires Enabled(s, a)
  {
    t in s'.threads ==>
      && (s'.threads[t].granted <==> (t in s.threads && s.threads[t].granted) || Sweeps(s, a, t))
      && (s'.threads[t].signalled <==> (t in s.threads && s.threads[t].signalled) || a == Signal(t))
      && (t !in s.threads ==> t == s.calls)
  }

  lemma MoveFlags(s: State, a: Action, t: Tid)
    requires s.calls !in s.threads
    requires Enabled(s, a) && (a.Enter? || a.Step? || a.Signal? || a.Leave? || a.WakeUnloader?)
    ensures FlagsFollow(s, a, Apply(s, a), t)
  {
    if a.Step? {
      MovedKeepsFlags(s, s.threads[a.tid], a.move);
      assert Apply(s, a).threads == s.threads[a.tid := Moved(s, s.threads[a.tid], a.move)];
    }
  }

  lemma MovedKeepsFlags(s: State, th: Thread, m: Move)
    ensures Moved(s, th, m).granted == th.granted && Moved(s, th, m).signalled == th.signalled
  {
  }

  lemma SweepFlags(s: State, a: Action, t: Tid)
    requires Enabled(s, a) && (a.FlushOne? || (a.TimerAsk? && a.grant))
    ensures FlagsFollow(s, a, Apply(s, a), t)
  {
  }

  lemma FlagsStep(s: State, a: Action, s': State, t: Tid)
    requires s.calls !in s.threads && Enabled(s, a) && s' == Apply(s, a)
    ensures FlagsFollow(s, a, s', t)
  {
    if !MovesThread(a) {
      OtherStepsKeepCalls(s, a);
    } else if a.FlushOne? || a.TimerAsk? {
      SweepFlags(s, a, t);
    } else {
      MoveFlags(s, a, t);
    }
  }

  lemma FlagsStepInRun(states: seq<State>, actions: seq<Action>, k: nat, t: Tid)
    requires IsRun(states, actions) && 0 < k < |states| && t in states[k].threads
    ensures var s := states[k - 1];
            && (states[k].threads[t].granted <==>
                  (t in s.threads && s.threads[t].granted) || SweptAt(states, actions, k - 1, t))
            && (states[k].threads[t].signalled <==>
                  (t in s.threads && s.threads[t].signalled) || SignalledAt(actions, k - 1, t))
            && (t !in s.threads ==> t == s.calls)
  {
    RunQueueInv(states, actions, k - 1);
    FlagsStep(states[k - 1], actions[k - 1], states[k], t);
  }

  lemma KnownBefore(states: seq<State>, actions: seq<Action>, m: nat, k: nat, t: Tid)
    requires IsRun(states, actions) && m <= k < |states| && m < |actions|
    requires SweptAt(states, actions, m, t) || SignalledAt(actions, m, t)
    ensures t < states[k].calls
  {
    RunQueueInv(states, actions, m);
    CallsGrowInRun(states, actions, m, k);
    if SweptAt(states, actions, m, t) {
      assert t in states[m].queue;
    }
  }

  ghost predicate WasSwept(states: seq<State>, actions: seq<Action>, k: nat, t: Tid) {
    exists m: nat :: m < k && SweptAt(states, actions, m, t)
  }

  ghost predicate WasSignalled(actions: seq<Action>, k: nat, t: Tid) {
    exists m: nat :: m < k && SignalledAt(actions, m, t)
  }

  lemma OneMoreStep(states: seq<State>, actions: seq<Action>, k: nat, t: Tid)
    requires k > 0
    ensures WasSwept(states, actions, k, t) <==>
            WasSwept(states, actions, k - 1, t) || SweptAt(states, actions, k - 1, t)
    ensures WasSignalled(actions, k, t) <==> WasSignalled(actions, k - 1, t) || SignalledAt(actions, k - 1, t)
  {
  }

  lemma NobodyKnewIt(states: seq<State>, actions: seq<Action>, k: nat, t: Tid)
    requires IsRun(states, actions) && k < |states| && t >= states[k].calls
    ensures !WasSwept(states, actions, k, t) && !WasSignalled(actions, k, t)
  {
    forall m: nat | m < k ensures !SweptAt(states, actions, m, t) && !SignalledAt(actions, m, t) {
      if SweptAt(states, actions, m, t) || SignalledAt(actions, m, t) {
        KnownBefore(states, actions, m, k, t);
      }
    }
  }

  lemma NobodyAtFirst(states: seq<State>, actions: seq<Action>, t: Tid)
    requires IsRun(states, actions)
    ensures t !in states[0].threads
  {
  }

  /** The grant flag of a call inside says that a tick or a flush has taken its entry, and its signal
      flag that it has been sent a signal. */
  lemma {:induction false} FlagsAreHistory(states: seq<State>, actions: seq<Action>, k: nat, t: Tid)
    requires IsRun(states, actions) && k < |states| && t in states[k].threads
    ensures states[k].threads[t].granted <==> WasSwept(states, actions, k, t)
    ensures states[k].threads[t].signalled <==> WasSignalled(actions, k, t)
  {
    NobodyAtFirst(states, actions, t);
    FlagsStepInRun(states, actions, k, t);
    OneMoreStep(states, actions, k, t);
    if t in states[k - 1].threads {
      FlagsAreHistory(states, actions, k - 1, t);
    } else {
      NobodyKnewIt(states, actions, k - 1, t);
    }
  }
}
