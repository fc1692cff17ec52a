/**
 What every step of the wrapper protocol keeps.
 */
module WrapperSafety {
  import opened CTypes
  import opened WrapperProtocol

  // ----------------------------------------------------- counter accounting

  /** Between the increment of active_wrappers and its decrement on the way out. */
  predicate CountsActive(pc: Pc) {
    !pc.Waking?
  }

  /** Between the increment of total_blocked_threads and the matching decrement. */
  predicate CountsBlocked(pc: Pc) {
    pc.Counted? || pc.Queuing? || pc.Preparing? || pc.Testing? || pc.Parked? || pc.Interrupted?
    || pc.Abandoning? || pc.Woken?
  }

  ghost function ActiveSet(threads: map<Tid, Thread>): set<Tid> {
    set t | t in threads && CountsActive(threads[t].pc)
  }

  ghost function BlockedSet(threads: map<Tid, Thread>): set<Tid> {
    set t | t in threads && CountsBlocked(threads[t].pc)
  }

  ghost predicate Accounting(s: State) {
    && s.active == |ActiveSet(s.threads)|
    && s.blocked == |BlockedSet(s.threads)|
    && (forall t :: t in s.threads ==> t < s.calls)
  }

  lemma SetsAfterUpdate(threads: map<Tid, Thread>, t: Tid, th: Thread)
    ensures var threads' := threads[t := th];
            && ActiveSet(threads') ==
               (if CountsActive(th.pc) then ActiveSet(threads) + {t} else ActiveSet(threads) - {t})
            && BlockedSet(threads') ==
               (if CountsBlocked(th.pc) then BlockedSet(threads) + {t} else BlockedSet(threads) - {t})
  {
  }

  lemma SetsAfterRemoval(threads: map<Tid, Thread>, t: Tid)
    ensures ActiveSet(threads - {t}) == ActiveSet(threads) - {t}
    ensures BlockedSet(threads - {t}) == BlockedSet(threads) - {t}
  {
  }

  function One(b: bool): int {
    if b then 1 else 0
  }

  lemma ToggleCard(a: set<Tid>, t: Tid, b: bool)
    ensures |if b then a + {t} else a - {t}| == |a| - One(t in a) + One(b)
  {
    if t in a {
      assert a + {t} == a;
    } else {
      assert a - {t} == a;
    }
  }

  lemma CountsAfterUpdate(threads: map<Tid, Thread>, t: Tid, th: Thread)
    requires t in threads
    ensures |ActiveSet(threads[t := th])| ==
            |ActiveSet(threads)| - One(CountsActive(threads[t].pc)) + One(CountsActive(th.pc))
    ensures |BlockedSet(threads[t := th])| ==
            |BlockedSet(threads)| - One(CountsBlocked(threads[t].pc)) + One(CountsBlocked(th.pc))
  {
    SetsAfterUpdate(threads, t, th);
    ToggleCard(ActiveSet(threads), t, CountsActive(th.pc));
    ToggleCard(BlockedSet(threads), t, CountsBlocked(th.pc));
  }

  /** A thread may change all but what it counts in. */
  lemma SameCounts(threads: map<Tid, Thread>, t: Tid, th: Thread)
    requires t in threads
    requires CountsActive(th.pc) == CountsActive(threads[t].pc) && CountsBlocked(th.pc) == CountsBlocked(threads[t].pc)
    ensures ActiveSet(threads[t := th]) == ActiveSet(threads)
    ensures BlockedSet(threads[t := th]) == BlockedSet(threads)
  {
  }

  lemma GrantKeepsAccounting(s: State, i: nat)
    requires Accounting(s) && i < |s.queue|
    ensures Accounting(Granted(s, i))
  {
    var t := s.queue[i];
    if t in s.threads {
      SameCounts(s.threads, t, s.threads[t].(granted := true, armed := false));
    }
  }

  lemma MoveKeepsAccounting(s: State, t: Tid, m: Move)
    requires Accounting(s) && Enabled(s, Step(t, m))
    ensures Accounting(DoStep(s, t, m))
  {
    CountsAfterUpdate(s.threads, t, Moved(s, s.threads[t], m));
  }

  lemma LeaveKeepsAccounting(s: State, t: Tid)
    requires Accounting(s) && Enabled(s, Leave(t))
    ensures Accounting(DoLeave(s, t))
  {
    if s.active - 1 == 0 {
      CountsAfterUpdate(s.threads, t, s.threads[t].(pc := Waking));
    } else {
      RemovalKeepsAccounting(s, t);
    }
  }

  lemma RemovalKeepsAccounting(s: State, t: Tid)
    requires Accounting(s) && t in s.threads && !CountsBlocked(s.threads[t].pc)
    ensures var threads := s.threads - {t};
            && |ActiveSet(threads)| == s.active - One(CountsActive(s.threads[t].pc))
            && |BlockedSet(threads)| == s.blocked
  {
    SetsAfterRemoval(s.threads, t);
    ToggleCard(ActiveSet(s.threads), t, false);
    ToggleCard(BlockedSet(s.threads), t, false);
  }

  lemma EnterKeepsAccounting(s: State)
    requires Accounting(s) && Enabled(s, Enter)
    ensures Accounting(Apply(s, Enter))
  {
    SetsAfterUpdate(s.threads, s.calls, Thread(Entered, false, false, false, false));
    assert s.calls !in ActiveSet(s.threads) && s.calls !in BlockedSet(s.threads);
  }

  lemma StepKeepsAccounting(s: State, a: Action)
    requires Accounting(s) && Enabled(s, a)
    ensures Accounting(Apply(s, a))
  {
    match a
    case Enter => EnterKeepsAccounting(s);
    case Step(t, m) => MoveKeepsAccounting(s, t, m);
    case Signal(t) => SameCounts(s.threads, t, s.threads[t].(signalled := true, armed := false));
    case Leave(t) => LeaveKeepsAccounting(s, t);
    case WakeUnloader(t) => RemovalKeepsAccounting(s, t);
    case TimerAsk(grant) => if grant { GrantKeepsAccounting(s, s.timer.at); }
    case FlushOne(_) => GrantKeepsAccounting(s, 0);
    case _ =>
  }

  // ---------------------------------------------------------- lock and queue

  ghost predicate LockInv(s: State) {
    && (s.timer.Scanning? <==> s.lock.HeldByTimer?)
    && (forall g :: g in s.agents ==> (s.agents[g].Flushing? <==> s.lock == HeldByFlusher(g)))
    && (s.lock.HeldByFlusher? ==> s.lock.agent in s.agents)
    && (s.timer.Scanning? ==> s.timer.at <= |s.queue|)
  }

  lemma StepKeepsLock(s: State, a: Action)
    requires LockInv(s) && Enabled(s, a)
    ensures LockInv(Apply(s, a))
  {
    if a.Step? {
      MoveKeepsLock(s, a.tid, a.move);
    }
  }

  /** Whoever moves does not hold the lock, and shortens the queue only while it is free. */
  lemma MoveKeepsLock(s: State, t: Tid, m: Move)
    requires LockInv(s) && Enabled(s, Step(t, m))
    ensures LockInv(DoStep(s, t, m))
  {
  }

  /** On the waiter list and asking for a token. */
  predicate Live(th: Thread) {
    (th.pc.Preparing? || th.pc.Testing? || th.pc.Parked? || th.pc.Interrupted?) && !th.granted
  }

  predicate LiveIn(threads: map<Tid, Thread>, t: Tid) {
    t in threads && Live(threads[t])
  }

  predicate BeforeQueue(pc: Pc) {
    pc.Entered? || pc.Verifying? || pc.Blocking? || pc.Counted? || pc.Queuing?
  }

  ghost predicate Distinct(queue: seq<Tid>) {
    forall i, j :: 0 <= i < j < |queue| ==> queue[i] != queue[j]
  }

  /** The queue holds every live waiter once. */
  ghost predicate QueueInv(s: State) {
    && Distinct(s.queue)
    && (forall t :: t in s.queue ==> t < s.calls)
    && (forall t :: t in s.queue && t in s.threads ==>
          !s.threads[t].granted && !BeforeQueue(s.threads[t].pc) && !s.threads[t].pc.Abandoning?)
    && (forall t :: t in s.threads && Live(s.threads[t]) ==> t in s.queue)
    && (forall t :: t in s.threads && BeforeQueue(s.threads[t].pc) ==> !s.threads[t].granted)
    && (forall t :: t in s.threads ==> t < s.calls)
  }

  lemma {:induction false} WithoutIs(queue: seq<Tid>, t: Tid)
    ensures forall x :: x in Without(queue, t) <==> x in queue && x != t
    ensures Distinct(queue) ==> Distinct(Without(queue, t))
  {
    if queue != [] {
      var n := |queue| - 1;
      var w := Without(queue[..n], t);
      WithoutIs(queue[..n], t);
      assert queue == queue[..n] + [queue[n]];
      if Distinct(queue) {
        assert Distinct(queue[..n]);
        forall i | 0 <= i < |w| ensures w[i] != queue[n] {
          assert w[i] in queue[..n];
        }
      }
    }
  }

  lemma DroppedIs(queue: seq<Tid>, i: nat)
    requires Distinct(queue) && i < |queue|
    ensures forall x :: x in RemoveAt(queue, i) <==> x in queue && x != queue[i]
    ensures Distinct(RemoveAt(queue, i))
  {
    var d := RemoveAt(queue, i);
    forall x | x in queue && x != queue[i] ensures x in d {
      var j :| 0 <= j < |queue| && queue[j] == x;
      assert d[if j < i then j else j - 1] == x;
    }
  }

  lemma GrantKeepsQueue(s: State, i: nat)
    requires QueueInv(s) && i < |s.queue|
    ensures QueueInv(Granted(s, i))
  {
    DroppedIs(s.queue, i);
    assert s.queue[i] in s.queue;
  }

  lemma MoveKeepsQueue(s: State, t: Tid, m: Move)
    requires QueueInv(s) && Enabled(s, Step(t, m))
    ensures QueueInv(DoStep(s, t, m))
  {
    if m.Abandon? {
      AbandonKeepsQueue(s, t);
    } else if m.Enqueue? {
      EnqueueKeepsQueue(s, t);
    } else {
      OwnMoveKeepsQueue(s, t, m);
    }
  }

  lemma EnqueueKeepsQueue(s: State, t: Tid)
    requires QueueInv(s) && Enabled(s, Step(t, Enqueue))
    ensures QueueInv(DoStep(s, t, Enqueue))
  {
    assert forall i :: 0 <= i < |s.queue| ==> s.queue[i] in s.queue;
  }

  /** A move other than enqueueing and abandoning keeps the grant and does not newly wait. */
  lemma MovedOn(s: State, th: Thread, m: Move)
    requires MoveEnabled(s, th, m) && !m.Abandon? && !m.Enqueue?
    ensures var th' := Moved(s, th, m);
            && th'.granted == th.granted && !th'.pc.Abandoning?
            && (BeforeQueue(th'.pc) ==> BeforeQueue(th.pc))
            && (Live(th') ==> Live(th))
  {
  }

  lemma OwnMoveKeepsQueue(s: State, t: Tid, m: Move)
    requires QueueInv(s) && Enabled(s, Step(t, m)) && !m.Abandon? && !m.Enqueue?
    ensures QueueInv(DoStep(s, t, m))
  {
    MovedOn(s, s.threads[t], m);
    var th' := Moved(s, s.threads[t], m);
    assert DoStep(s, t, m).threads == s.threads[t := th'];
    assert DoStep(s, t, m).queue == s.queue;
  }

  lemma AbandonKeepsQueue(s: State, t: Tid)
    requires QueueInv(s) && Enabled(s, Step(t, Abandon))
    ensures QueueInv(DoStep(s, t, Abandon))
  {
    WithoutIs(s.queue, t);
  }

  lemma PassageKeepsQueue(s: State, a: Action)
    requires QueueInv(s) && Enabled(s, a)
    requires a.Enter? || a.Signal? || a.Leave? || a.WakeUnloader?
    ensures QueueInv(Apply(s, a))
  {
  }

  lemma StepKeepsQueue(s: State, a: Action)
    requires QueueInv(s) && Enabled(s, a)
    ensures QueueInv(Apply(s, a))
  {
    if !MovesThread(a) {
      OtherStepsKeepCalls(s, a);
    } else if a.Step? {
      MoveKeepsQueue(s, a.tid, a.move);
    } else if a.TimerAsk? {
      GrantKeepsQueue(s, s.timer.at);
    } else if a.FlushOne? {
      GrantKeepsQueue(s, 0);
    } else {
      PassageKeepsQueue(s, a);
    }
  }

  // ------------------------------------------------------- exact queue order

  /** The live waiters among `order`, in that order. */
  function LiveOnly(order: seq<Tid>, threads: map<Tid, Thread>): seq<Tid> {
    if order == [] then []
    else
      var n := |order| - 1;
      LiveOnly(order[..n], threads) + (if LiveIn(threads, order[n]) then [order[n]] else [])
  }

  /** The queue is exactly the waiters enqueued, not granted and not gone, in the order in
      which they were enqueued. */
  predicate QueueIsLive(s: State) {
    s.queue == LiveOnly(s.enqueued, s.threads)
  }

  ghost predicate OrderInv(s: State) {
    && Distinct(s.enqueued)
    && (forall t :: t in s.enqueued ==> t < s.calls && (t in s.threads ==> !BeforeQueue(s.threads[t].pc)))
    && (forall t :: t in s.threads && Live(s.threads[t]) ==> t in s.enqueued)
  }

  ghost predicate ExactQueue(s: State) {
    OrderInv(s) && (s.alwaysOn ==> s.monitor && QueueIsLive(s))
  }

  lemma {:induction false} LiveOnlySame(order: seq<Tid>, a: map<Tid, Thread>, b: map<Tid, Thread>)
    requires forall t :: t in order ==> (LiveIn(a, t) <==> LiveIn(b, t))
    ensures LiveOnly(order, a) == LiveOnly(order, b)
  {
    if order != [] {
      LiveOnlySame(order[..|order| - 1], a, b);
    }
  }

  /** One waiter stops being live: exactly its entry goes. */
  lemma {:induction false} LiveOnlyLess(order: seq<Tid>, a: map<Tid, Thread>, b: map<Tid, Thread>, gone: Tid)
    requires forall t :: t in order && t != gone ==> (LiveIn(a, t) <==> LiveIn(b, t))
    requires !LiveIn(b, gone)
    ensures LiveOnly(order, b) == Without(LiveOnly(order, a), gone)
  {
    if order != [] {
      var n := |order| - 1;
      LiveOnlyLess(order[..n], a, b, gone);
      if LiveIn(a, order[n]) {
        WithoutAppend(LiveOnly(order[..n], a), order[n], gone);
      } else {
        assert LiveOnly(order, a) == LiveOnly(order[..n], a);
      }
    }
  }

  lemma WithoutAppend(queue: seq<Tid>, last: Tid, t: Tid)
    ensures Without(queue + [last], t) == Without(queue, t) + (if last == t then [] else [last])
  {
    assert (queue + [last])[..|queue|] == queue;
  }

  lemma {:induction false} WithoutAbsent(queue: seq<Tid>, t: Tid)
    requires t !in queue
    ensures Without(queue, t) == queue
  {
    if queue != [] {
      var n := |queue| - 1;
      assert queue[n] in queue && queue == queue[..n] + [queue[n]];
      WithoutAbsent(queue[..n], t);
    }
  }

  lemma {:induction false} DroppedIsWithout(queue: seq<Tid>, i: nat)
    requires Distinct(queue) && i < |queue|
    ensures RemoveAt(queue, i) == Without(queue, queue[i])
  {
    var n := |queue| - 1;
    var init := queue[..n];
    assert queue == init + [queue[n]];
    if i == n {
      WithoutAbsent(init, queue[n]);
    } else {
      assert Distinct(init);
      DroppedIsWithout(init, i);
      assert RemoveAt(queue, i) == RemoveAt(init, i) + [queue[n]];
    }
  }

  lemma GrantKeepsLive(s: State, i: nat)
    requires OrderInv(s) && QueueInv(s) && i < |s.queue|
    ensures OrderInv(Granted(s, i))
    ensures QueueIsLive(s) ==> QueueIsLive(Granted(s, i))
  {
    var t, s' := s.queue[i], Granted(s, i);
    DroppedIsWithout(s.queue, i);
    LiveOnlyLess(s.enqueued, s.threads, s'.threads, t);
  }

  lemma EnqueueKeepsLive(s: State, t: Tid)
    requires OrderInv(s) && QueueInv(s) && Enabled(s, Step(t, Enqueue))
    ensures OrderInv(DoStep(s, t, Enqueue))
    ensures QueueIsLive(s) ==> QueueIsLive(DoStep(s, t, Enqueue))
  {
    var s' := DoStep(s, t, Enqueue);
    EnqueueKeepsOrder(s, t);
    assert s'.enqueued[..|s.enqueued|] == s.enqueued;
    LiveOnlySame(s.enqueued, s.threads, s'.threads);
  }

  lemma EnqueueKeepsOrder(s: State, t: Tid)
    requires OrderInv(s) && QueueInv(s) && Enabled(s, Step(t, Enqueue))
    ensures OrderInv(DoStep(s, t, Enqueue)) && t !in s.enqueued
  {
    assert t !in s.enqueued;
    assert forall i :: 0 <= i < |s.enqueued| ==> s.enqueued[i] in s.enqueued;
  }

  lemma AbandonKeepsLive(s: State, t: Tid)
    requires OrderInv(s) && QueueInv(s) && Enabled(s, Step(t, Abandon))
    ensures OrderInv(DoStep(s, t, Abandon))
    ensures QueueIsLive(s) ==> QueueIsLive(DoStep(s, t, Abandon))
  {
    var s' := DoStep(s, t, Abandon);
    if s.threads[t].granted {
      LiveOnlySame(s.enqueued, s.threads, s'.threads);
    } else {
      LiveOnlyLess(s.enqueued, s.threads, s'.threads, t);
    }
  }

  /** A waiter that goes on, without a grant, because the monitor is off. */
  predicate GoesOnUngranted(s: State, a: Action) {
    a.Step? && a.move.Test? && a.tid in s.threads && MayProceed(s, s.threads[a.tid]) && !s.threads[a.tid].granted
  }

  lemma MoveKeepsOrder(s: State, t: Tid, m: Move)
    requires OrderInv(s) && Enabled(s, Step(t, m)) && !m.Enqueue?
    ensures OrderInv(DoStep(s, t, m))
  {
  }

  /** Only enqueueing and giving up change who waits, and going on without a grant. */
  lemma MoveKeepsWaiting(s: State, t: Tid, m: Move)
    requires Enabled(s, Step(t, m)) && !m.Enqueue? && !m.Abandon? && !GoesOnUngranted(s, Step(t, m))
    ensures Live(Moved(s, s.threads[t], m)) <==> Live(s.threads[t])
  {
  }

  lemma MoveKeepsLive(s: State, t: Tid, m: Move)
    requires OrderInv(s) && QueueInv(s) && Enabled(s, Step(t, m)) && !m.Enqueue? && !m.Abandon?
    ensures OrderInv(DoStep(s, t, m))
    ensures QueueIsLive(s) && !GoesOnUngranted(s, Step(t, m)) ==> QueueIsLive(DoStep(s, t, m))
  {
    MoveKeepsOrder(s, t, m);
    if !GoesOnUngranted(s, Step(t, m)) {
      MoveKeepsWaiting(s, t, m);
      LiveOnlySame(s.enqueued, s.threads, DoStep(s, t, m).threads);
    }
  }

  /** The other steps of calls: entering, signals, leaving. */
  lemma PassageKeepsLive(s: State, a: Action)
    requires OrderInv(s) && QueueInv(s) && Enabled(s, a)
    requires a.Enter? || a.Signal? || a.Leave? || a.WakeUnloader?
    ensures OrderInv(Apply(s, a))
    ensures QueueIsLive(s) ==> QueueIsLive(Apply(s, a))
  {
    LiveOnlySame(s.enqueued, s.threads, Apply(s, a).threads);
  }

  predicate MovesThread(a: Action) {
    a.Enter? || a.Step? || a.Signal? || a.Leave? || a.WakeUnloader? || (a.TimerAsk? && a.grant) || a.FlushOne?
  }

  /** Every other step leaves the calls and the queue alone. */
  lemma OtherStepsKeepCalls(s: State, a: Action)
    requires Enabled(s, a) && !MovesThread(a)
    ensures var s' := Apply(s, a);
            && s'.threads == s.threads && s'.queue == s.queue && s'.enqueued == s.enqueued && s'.calls == s.calls
            && s'.active == s.active && s'.blocked == s.blocked
            && (s'.alwaysOn ==> s.alwaysOn && (s.monitor ==> s'.monitor))
  {
  }

  lemma StepKeepsLive(s: State, a: Action)
    requires OrderInv(s) && QueueInv(s) && Enabled(s, a)
    ensures OrderInv(Apply(s, a))
    ensures QueueIsLive(s) && !GoesOnUngranted(s, a) ==> QueueIsLive(Apply(s, a))
  {
    if !MovesThread(a) {
      OtherStepsKeepCalls(s, a);
    } else if a.Step? {
      if a.move.Enqueue? {
        EnqueueKeepsLive(s, a.tid);
      } else if a.move.Abandon? {
        AbandonKeepsLive(s, a.tid);
      } else {
        MoveKeepsLive(s, a.tid, a.move);
      }
    } else if a.TimerAsk? {
      GrantKeepsLive(s, s.timer.at);
    } else if a.FlushOne? {
      GrantKeepsLive(s, 0);
    } else {
      PassageKeepsLive(s, a);
    }
  }

  lemma MonitorSteps(s: State, a: Action)
    requires Enabled(s, a)
    ensures Apply(s, a).alwaysOn ==> s.alwaysOn && (s.monitor ==> Apply(s, a).monitor)
  {
  }

  lemma StepKeepsExact(s: State, a: Action)
    requires ExactQueue(s) && QueueInv(s) && Enabled(s, a)
    ensures ExactQueue(Apply(s, a))
  {
    StepKeepsLive(s, a);
    MonitorSteps(s, a);
  }

  lemma {:induction false} LiveOnlyMembers(order: seq<Tid>, threads: map<Tid, Thread>)
    ensures forall t :: t in LiveOnly(order, threads) ==> LiveIn(threads, t)
  {
    if order != [] {
      LiveOnlyMembers(order[..|order| - 1], threads);
    }
  }

  /** A queue of live waiters stays one exactly until a waiter goes on ungranted: that step
      leaves the entry of a call that no longer waits. */
  lemma StaleEntryIff(s: State, a: Action)
    requires OrderInv(s) && QueueInv(s) && Enabled(s, a) && QueueIsLive(s)
    ensures QueueIsLive(Apply(s, a)) <==> !GoesOnUngranted(s, a)
  {
    StepKeepsLive(s, a);
    if GoesOnUngranted(s, a) {
      var s' := Apply(s, a);
      assert a.tid in s.queue && s'.queue == s.queue;
      LiveOnlyMembers(s'.enqueued, s'.threads);
      assert !LiveIn(s'.threads, a.tid);
    }
  }

  // ------------------------------------------------------ sleepers and wakers

  predicate Sleeps(th: Thread) {
    th.pc.Parked? && th.armed
  }

  /** Who sleeps has no grant and no signal, and while the monitor is off a flush is due. */
  ghost predicate SleepInv(s: State) {
    forall t :: t in s.threads && Sleeps(s.threads[t]) ==>
      !s.threads[t].granted && !s.threads[t].signalled && (s.monitor || s.agents != map[])
  }

  ghost predicate NoSleepers(s: State) {
    forall t :: t in s.threads ==> !Sleeps(s.threads[t])
  }

  /** An empty queue means that nobody sleeps. */
  lemma EmptyQueueNoSleepers(s: State)
    requires QueueInv(s) && SleepInv(s) && s.queue == []
    ensures NoSleepers(s)
  {
  }

  lemma AgentStepsKeepSleep(s: State, a: Action)
    requires SleepInv(s) && QueueInv(s) && Enabled(s, a) && !MovesThread(a)
    ensures SleepInv(Apply(s, a))
  {
    OtherStepsKeepCalls(s, a);
    match a
    case FlushUnlock(_) => EmptyQueueNoSleepers(s);
    case SwitchOff(g) => assert g in Apply(s, a).agents;
    case BeginUnload => assert UNLOADER in Apply(s, a).agents;
    case FlushLock(g) => assert g in Apply(s, a).agents;
    case _ =>
  }

  lemma CallStepsKeepSleep(s: State, a: Action)
    requires SleepInv(s) && Enabled(s, a) && MovesThread(a)
    ensures SleepInv(Apply(s, a))
  {
  }

  lemma StepKeepsSleep(s: State, a: Action)
    requires SleepInv(s) && QueueInv(s) && Enabled(s, a)
    ensures SleepInv(Apply(s, a))
  {
    if MovesThread(a) {
      CallStepsKeepSleep(s, a);
    } else {
      AgentStepsKeepSleep(s, a);
    }
  }

  /** With the monitor off and nobody asleep, nobody falls asleep until it is switched on. */
  lemma StepKeepsAwake(s: State, a: Action)
    requires !s.monitor && NoSleepers(s) && Enabled(s, a) && !a.SwitchOn?
    ensures !Apply(s, a).monitor && NoSleepers(Apply(s, a))
  {
    if a.Step? {
      MoveKeepsAwake(s, a.tid, a.move);
    } else if a.TimerAsk? && a.grant {
      GrantKeepsAwake(s, s.timer.at);
    } else if a.FlushOne? {
      GrantKeepsAwake(s, 0);
    }
  }

  lemma MoveKeepsAwake(s: State, t: Tid, m: Move)
    requires !s.monitor && NoSleepers(s) && Enabled(s, Step(t, m))
    ensures NoSleepers(DoStep(s, t, m))
  {
  }

  lemma GrantKeepsAwake(s: State, i: nat)
    requires NoSleepers(s) && i < |s.queue|
    ensures NoSleepers(Granted(s, i))
  {
  }

  // ----------------------------------------------------------------- unload

  predicate UnloadBegun(s: State) {
    !s.stage.Loaded?
  }

  predicate TimerGone(s: State) {
    || s.stage.UnloadPreparing? || s.stage.UnloadTesting? || s.stage.UnloadParked?
    || s.stage.Quiescent? || s.stage.Unloaded?
  }

  predicate Drained(s: State) {
    s.stage.Quiescent? || s.stage.Unloaded?
  }

  /** Calls that found the monitor off, or are on their way to finding it off. */
  predicate OnlyPassing(pc: Pc) {
    pc.Entered? || pc.Leaving? || pc.Waking?
  }

  ghost predicate UnloadInv(s: State) {
    && (UnloadBegun(s) ==> !s.monitor && s.agents.Keys <= {UNLOADER})
    && (UNLOADER in s.agents <==> s.stage.Stopping?)
    && (TimerGone(s) <==> s.timer.Dead?)
    && (Drained(s) ==> forall t :: t in s.threads ==> OnlyPassing(s.threads[t].pc))
  }

  /** Once drained, a call can only find the monitor off and leave. */
  lemma CallStepsKeepUnload(s: State, a: Action)
    requires UnloadInv(s) && QueueInv(s) && Enabled(s, a) && MovesThread(a)
    ensures UnloadInv(Apply(s, a))
  {
  }

  lemma AgentStepsKeepUnload(s: State, a: Action)
    requires UnloadInv(s) && Accounting(s) && Enabled(s, a) && !MovesThread(a)
    ensures UnloadInv(Apply(s, a))
  {
    OtherStepsKeepCalls(s, a);
    if a.UnloadTest? && s.active == 0 {
      assert forall t :: t in s.threads ==> t !in ActiveSet(s.threads);
    }
  }

  lemma StepKeepsUnload(s: State, a: Action)
    requires UnloadInv(s) && Accounting(s) && QueueInv(s) && Enabled(s, a)
    ensures UnloadInv(Apply(s, a))
  {
    if MovesThread(a) {
      CallStepsKeepUnload(s, a);
    } else {
      AgentStepsKeepUnload(s, a);
    }
  }

  /** The unloader is never left asleep: while it sleeps some call is inside, or one is on
      its way to waking it. */
  ghost predicate WakeInv(s: State) {
    s.stage.UnloadParked? && s.unloadArmed ==>
      s.active > 0 || exists t :: t in s.threads && s.threads[t].pc.Waking?
  }

  lemma StepKeepsWake(s: State, a: Action)
    requires WakeInv(s) && Accounting(s) && Enabled(s, a)
    ensures WakeInv(Apply(s, a))
  {
    var s' := Apply(s, a);
    if s.stage.UnloadParked? && s.unloadArmed && s.active <= 0 && !a.WakeUnloader? {
      var t :| t in s.threads && s.threads[t].pc.Waking?;
      assert t in s'.threads && s'.threads[t].pc.Waking?;
    } else if a.Leave? && s.active == 1 {
      assert s'.threads[a.tid].pc.Waking?;
    }
  }

  // ---------------------------------------------------------- no free pass

  /** While the monitor has stayed on, whoever goes on holds a grant, and whoever is on the way
      out was admitted, granted a token, or signalled. */
  ghost predicate PassInv(s: State) {
    s.alwaysOn ==> s.monitor && forall t :: t in s.threads ==>
      var th := s.threads[t];
      && (th.pc.Woken? || th.pc.Measured? ==> th.granted)
      && (th.pc.Interrupted? || th.pc.Abandoning? ==> th.signalled)
      && (th.pc.Leaving? || th.pc.Waking? ==> th.admitted || th.granted || th.signalled)
  }

  lemma CallStepsKeepPass(s: State, a: Action)
    requires PassInv(s) && Enabled(s, a) && MovesThread(a)
    ensures PassInv(Apply(s, a))
  {
  }

  lemma StepKeepsPass(s: State, a: Action)
    requires PassInv(s) && Enabled(s, a)
    ensures PassInv(Apply(s, a))
  {
    if MovesThread(a) {
      CallStepsKeepPass(s, a);
    } else {
      MonitorSteps(s, a);
      OtherStepsKeepCalls(s, a);
    }
  }

  ghost predicate Inv(s: State) {
    && Accounting(s)
    && LockInv(s)
    && QueueInv(s)
    && ExactQueue(s)
    && SleepInv(s)
    && UnloadInv(s)
    && WakeInv(s)
    && PassInv(s)
  }

  lemma StepKeepsInv(s: State, a: Action)
    requires Inv(s) && Enabled(s, a)
    ensures Inv(Apply(s, a))
  {
    StepKeepsAccounting(s, a);
    StepKeepsLock(s, a);
    StepKeepsQueue(s, a);
    StepKeepsExact(s, a);
    StepKeepsSleep(s, a);
    StepKeepsUnload(s, a);
    StepKeepsWake(s, a);
    StepKeepsPass(s, a);
  }
}
