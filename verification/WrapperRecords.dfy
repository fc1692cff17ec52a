/**
 The waiter records behind the queue entries. A record lives on the stack of the
 call that enqueued it, so that it is gone once the call has returned: which steps
 touch which records, and exactly when a touched record may be gone.
 */
module WrapperRecords {
  import opened CTypes
  import opened WrapperProtocol
  import opened WrapperSafety
  import WrapperRuns

  predicate Near(queue: seq<Tid>, i: int, t: Tid) {
    && 0 <= i < |queue|
    && (queue[i] == t || (i > 0 && queue[i - 1] == t) || (i + 1 < |queue| && queue[i + 1] == t))
  }

  /** Entry `t` and its neighbours in the list. */
  function Around(queue: seq<Tid>, t: Tid): set<Tid> {
    set i | 0 <= i < |queue| && Near(queue, i, t) :: queue[i]
  }

  /** The queued records a step reads or writes: unlinking an entry writes its neighbours, and
      enqueueing writes the last entry. */
  function Touched(s: State, a: Action): set<Tid>
    requires Enabled(s, a)
  {
    match a
    case Step(t, m) =>
      if m.Enqueue? && s.queue != [] then {s.queue[|s.queue| - 1]}
      else if m.Abandon? && !s.threads[t].granted then Around(s.queue, t)
      else {}
    case TimerAsk(grant) =>
      var t := s.queue[s.timer.at];
      if grant then Around(s.queue, t) else {t}
    case FlushOne(_) => Around(s.queue, s.queue[0])
    case _ => {}
  }

  lemma TouchedIsQueued(s: State, a: Action)
    requires Enabled(s, a)
    ensures forall t :: t in Touched(s, a) ==> t in s.queue
  {
  }

  /** The step grants the entry of `t` and takes it out of the queue. */
  predicate Sweeps(s: State, a: Action, t: Tid)
    requires Enabled(s, a)
  {
    || (a.TimerAsk? && a.grant && s.queue[s.timer.at] == t)
    || (a.FlushOne? && s.queue[0] == t)
  }

  /** Call t goes on without a grant, which leaves its entry in the queue. */
  predicate LeavesEntry(s: State, a: Action, t: Tid) {
    GoesOnUngranted(s, a) && a.tid == t
  }

  /** The call has gone on from its wait, or has returned. */
  predicate Past(s: State, t: Tid) {
    t < s.calls &&
    (t in s.threads ==>
       var pc := s.threads[t].pc;
       pc.Woken? || pc.Measured? || pc.Leaving? || pc.Waking?)
  }

  lemma SweepRemoves(s: State, a: Action, t: Tid)
    requires QueueInv(s) && Enabled(s, a) && Sweeps(s, a, t)
    ensures t !in Apply(s, a).queue
  {
    DroppedIs(s.queue, if a.TimerAsk? then s.timer.at else 0);
  }

  lemma OwnStepStaysPast(s: State, t: Tid, m: Move)
    requires Enabled(s, Step(t, m)) && Past(s, t)
    ensures Past(DoStep(s, t, m), t)
  {
  }

  lemma PastStays(s: State, a: Action, t: Tid)
    requires Enabled(s, a) && Past(s, t)
    ensures Past(Apply(s, a), t)
  {
    if a.Step? && a.tid == t {
      OwnStepStaysPast(s, t, a.move);
    } else if !MovesThread(a) {
      OtherStepsKeepCalls(s, a);
    }
  }

  /** Nobody but a sweep takes out the entry of a call that has gone on. */
  lemma PastEntryStays(s: State, a: Action, t: Tid)
    requires QueueInv(s) && Enabled(s, a) && Past(s, t) && t in s.queue && !Sweeps(s, a, t)
    ensures t in Apply(s, a).queue
  {
    if a.Step? {
      if a.move.Abandon? {
        WithoutIs(s.queue, a.tid);
      }
    } else if a.TimerAsk? && a.grant {
      DroppedIs(s.queue, s.timer.at);
    } else if a.FlushOne? {
      DroppedIs(s.queue, 0);
    }
  }

  lemma EntryIsLeft(s: State, a: Action, t: Tid)
    requires QueueInv(s) && Enabled(s, a) && LeavesEntry(s, a, t)
    ensures Past(Apply(s, a), t) && t in Apply(s, a).queue
  {
  }

  /** An entry without a live waiter was one before the step, or is left by it. */
  lemma StaleBefore(s: State, a: Action, t: Tid)
    requires QueueInv(s) && Enabled(s, a)
    requires t in Apply(s, a).queue && !LiveIn(Apply(s, a).threads, t)
    ensures LeavesEntry(s, a, t) || (t in s.queue && !LiveIn(s.threads, t) && !Sweeps(s, a, t))
  {
    if t in s.queue {
      if Sweeps(s, a, t) {
        SweepRemoves(s, a, t);
      } else if LiveIn(s.threads, t) {
        LiveUntilLeft(s, a, t);
      }
    } else {
      OnlyEnqueueAdds(s, a, t);
    }
  }

  lemma OnlyEnqueueAdds(s: State, a: Action, t: Tid)
    requires QueueInv(s) && Enabled(s, a) && t !in s.queue && t in Apply(s, a).queue
    ensures LiveIn(Apply(s, a).threads, t)
  {
    if a.Step? && a.move.Abandon? {
      WithoutIs(s.queue, a.tid);
    }
  }

  lemma OwnStepLeaves(s: State, t: Tid, m: Move)
    requires QueueInv(s) && Enabled(s, Step(t, m)) && Live(s.threads[t])
    requires !Live(Moved(s, s.threads[t], m)) && t in MovedQueue(s, t, s.threads[t], m)
    ensures LeavesEntry(s, Step(t, m), t)
  {
    WithoutIs(s.queue, t);
  }

  lemma OthersKeepLive(s: State, a: Action, t: Tid)
    requires QueueInv(s) && Enabled(s, a) && LiveIn(s.threads, t) && !Sweeps(s, a, t)
    requires !(a.Step? && a.tid == t)
    ensures LiveIn(Apply(s, a).threads, t)
  {
    if !MovesThread(a) {
      OtherStepsKeepCalls(s, a);
    }
  }

  lemma LiveUntilLeft(s: State, a: Action, t: Tid)
    requires QueueInv(s) && Enabled(s, a) && LiveIn(s.threads, t) && !LiveIn(Apply(s, a).threads, t)
    requires t in Apply(s, a).queue && !Sweeps(s, a, t)
    ensures LeavesEntry(s, a, t)
  {
    if a.Step? && a.tid == t {
      OwnStepLeaves(s, t, a.move);
    } else {
      OthersKeepLive(s, a, t);
    }
  }

  /** Call t left its entry at step m, and no sweep has taken it out up to state k. */
  ghost predicate EntryLeftAt(states: seq<State>, actions: seq<Action>, m: nat, k: nat, t: Tid)
    requires WrapperProtocol.IsRun(states, actions) && k < |states|
  {
    && m < k && LeavesEntry(states[m], actions[m], t)
    && forall j :: m < j < k ==> !Sweeps(states[j], actions[j], t)
  }

  lemma {:induction false} LeftEntryStays(states: seq<State>, actions: seq<Action>, m: nat, k: nat, t: Tid)
    requires IsRun(states, actions) && k < |states| && EntryLeftAt(states, actions, m, k, t)
    ensures Past(states[k], t) && t in states[k].queue
  {
    WrapperRuns.RunQueueInv(states, actions, k - 1);
    if k == m + 1 {
      EntryIsLeft(states[m], actions[m], t);
    } else {
      LeftEntryStays(states, actions, m, k - 1, t);
      PastStays(states[k - 1], actions[k - 1], t);
      PastEntryStays(states[k - 1], actions[k - 1], t);
    }
  }

  lemma {:induction false} StaleWasLeft(states: seq<State>, actions: seq<Action>, k: nat, t: Tid) returns (m: nat)
    requires IsRun(states, actions) && k < |states|
    requires t in states[k].queue && !LiveIn(states[k].threads, t)
    ensures EntryLeftAt(states, actions, m, k, t)
  {
    assert k > 0;
    WrapperRuns.RunQueueInv(states, actions, k - 1);
    StaleBefore(states[k - 1], actions[k - 1], t);
    if LeavesEntry(states[k - 1], actions[k - 1], t) {
      m := k - 1;
    } else {
      m := StaleWasLeft(states, actions, k - 1, t);
    }
  }

  /** In every run, a call that is not waiting has an entry in the queue if and only if it went on
      from its wait without a grant, and no sweep has taken the entry out since. */
  lemma StaleEntryExactly(states: seq<State>, actions: seq<Action>, k: nat, t: Tid)
    requires IsRun(states, actions) && k < |states| && !LiveIn(states[k].threads, t)
    ensures t in states[k].queue <==> exists m :: EntryLeftAt(states, actions, m, k, t)
  {
    if t in states[k].queue {
      var m := StaleWasLeft(states, actions, k, t);
    }
    if m :| EntryLeftAt(states, actions, m, k, t) {
      LeftEntryStays(states, actions, m, k, t);
    }
  }

  /** Exactly which steps touch the record of a call that waits no longer, and so may have
      returned: those that touch an entry that was left and not swept since. */
  lemma StaleTouchExactly(states: seq<State>, actions: seq<Action>, k: nat, t: Tid)
    requires IsRun(states, actions) && k < |actions| && t in Touched(states[k], actions[k])
    ensures !LiveIn(states[k].threads, t) <==> exists m :: EntryLeftAt(states, actions, m, k, t)
  {
    TouchedIsQueued(states[k], actions[k]);
    if !LiveIn(states[k].threads, t) {
      StaleEntryExactly(states, actions, k, t);
    }
    if m :| EntryLeftAt(states, actions, m, k, t) {
      LeftEntryStays(states, actions, m, k, t);
    }
  }

  /** While the monitor has stayed on, every step touches only records of calls that wait. */
  lemma TouchedAreLive(states: seq<State>, actions: seq<Action>, k: nat, t: Tid)
    requires IsRun(states, actions) && k < |actions| && t in Touched(states[k], actions[k])
    requires states[k].alwaysOn
    ensures LiveIn(states[k].threads, t)
  {
    TouchedIsQueued(states[k], actions[k]);
    WrapperRuns.QueueMatchesThreads(states, actions, k);
  }

  /** One step of an exact queue: it stays exact unless a waiter goes on without a grant. */
  ghost predicate ExactStep(s: State, a: Action, s': State) {
    QueueIsLive(s) ==> (QueueIsLive(s') <==> !GoesOnUngranted(s, a))
  }

  lemma {:induction false} ExactAlong(states: seq<State>, actions: seq<Action>, k: nat)
    requires |states| == |actions| + 1 && k < |states| && QueueIsLive(states[0])
    requires forall j :: 0 < j < |states| ==> ExactStep(states[j - 1], actions[j - 1], states[j])
    ensures (forall j :: 0 <= j <= k ==> QueueIsLive(states[j])) <==>
            (forall j :: 0 <= j < k ==> !GoesOnUngranted(states[j], actions[j]))
  {
    if k > 0 {
      ExactAlong(states, actions, k - 1);
      assert ExactStep(states[k - 1], actions[k - 1], states[k]);
    }
  }

  lemma ExactStepInRun(states: seq<State>, actions: seq<Action>, k: nat)
    requires IsRun(states, actions) && 0 < k < |states|
    ensures ExactStep(states[k - 1], actions[k - 1], states[k])
  {
    WrapperRuns.RunKeepsInv(states, actions, k - 1);
    if QueueIsLive(states[k - 1]) {
      StaleEntryIff(states[k - 1], actions[k - 1]);
    }
  }

  /** The queue is the live waiters in order, in every state up to the k-th, if and only if nobody
      has gone on from its wait without a grant. */
  lemma ExactUntilLeft(states: seq<State>, actions: seq<Action>, k: nat)
    requires IsRun(states, actions) && k < |states|
    ensures (forall j :: 0 <= j <= k ==> QueueIsLive(states[j])) <==>
            (forall j :: 0 <= j < k ==> !GoesOnUngranted(states[j], actions[j]))
  {
    forall j | 0 < j < |states| ensures ExactStep(states[j - 1], actions[j - 1], states[j]) {
      ExactStepInRun(states, actions, j);
    }
    ExactAlong(states, actions, k);
  }

  lemma Extend(states: seq<State>, actions: seq<Action>, a: Action) returns (states': seq<State>, actions': seq<Action>)
    requires IsRun(states, actions) && Enabled(states[|actions|], a)
    ensures IsRun(states', actions') && |actions'| == |actions| + 1
    ensures states'[|actions|] == states[|actions|] && actions'[|actions|] == a
    ensures states'[|actions'|] == Apply(states[|actions|], a)
  {
    states', actions' := states + [Apply(states[|actions|], a)], actions + [a];
    forall i | 0 <= i < |actions'|
      ensures Enabled(states'[i], actions'[i]) && states'[i + 1] == Apply(states'[i], actions'[i])
    {
      if i < |actions| {
        assert actions'[i] == actions[i];
      }
    }
  }

  /** A run whose last step, a flush, touches the record of a call that has returned: the entry
      was left when the monitor was switched off, before the flush took the lock. */
  lemma StaleTouchExists() returns (states: seq<State>, actions: seq<Action>)
    ensures IsRun(states, actions) && |actions| > 0
    ensures var s, a := states[|actions| - 1], actions[|actions| - 1];
            a == FlushOne(1) && 0 in Touched(s, a) && 0 < s.calls && 0 !in s.threads
  {
    states, actions := WrapperRuns.StaleEntryExists();
    states, actions := Extend(states, actions, FlushLock(1));
    assert Near([0], 0, 0) && [0][0] == 0;
    states, actions := Extend(states, actions, FlushOne(1));
  }

  /** The same for the timer, whose tick falls between the two. */
  lemma StaleAskExists() returns (states: seq<State>, actions: seq<Action>)
    ensures IsRun(states, actions) && |actions| > 0
    ensures var s, a := states[|actions| - 1], actions[|actions| - 1];
            a == TimerAsk(false) && 0 in Touched(s, a) && 0 < s.calls && 0 !in s.threads
  {
    states, actions := WrapperRuns.StaleEntryExists();
    states, actions := Extend(states, actions, TimerFire);
    states, actions := Extend(states, actions, TimerReset);
    states, actions := Extend(states, actions, TimerLock);
    states, actions := Extend(states, actions, TimerAsk(false));
  }
}
