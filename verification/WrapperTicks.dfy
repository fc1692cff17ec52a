/**
 Ticks and flushes as wholes: a tick resets before it locks the queue, and both it
 and a flush reach every waiter that was queued at the lock, once and in order.
 */
module WrapperTicks {
  import opened CTypes
  import opened WrapperProtocol
  import opened WrapperSafety
  import opened WrapperRuns

  predicate TimerStep(a: Action) {
    a.TimerFire? || a.TimerReset? || a.TimerLock? || a.TimerAsk? || a.TimerUnlock? || a.TimerRearm?
  }

  ghost predicate NoTimerStep(actions: seq<Action>, i: nat, j: nat) {
    forall k :: i <= k < j <= |actions| ==> !TimerStep(actions[k])
  }

  ghost predicate OnlyAsks(actions: seq<Action>, i: nat, j: nat) {
    forall k :: i <= k < j <= |actions| ==> TimerStep(actions[k]) ==> actions[k].TimerAsk?
  }

  // ----------------------------------------------------------- who is reached

  /** Whom the timer asks for in this step. */
  function Asks(s: State, a: Action): seq<Tid> {
    if a.TimerAsk? && s.timer.Scanning? && s.timer.at < |s.queue| then [s.queue[s.timer.at]] else []
  }

  /** Whom it asks for in vain. */
  function Refuses(s: State, a: Action): seq<Tid> {
    if a == TimerAsk(false) then Asks(s, a) else []
  }

  function Asked(states: seq<State>, actions: seq<Action>, i: nat, j: nat): seq<Tid>
    requires j <= |actions| < |states|
  {
    if i >= j then [] else Asked(states, actions, i, j - 1) + Asks(states[j - 1], actions[j - 1])
  }

  function Refused(states: seq<State>, actions: seq<Action>, i: nat, j: nat): seq<Tid>
    requires j <= |actions| < |states|
  {
    if i >= j then [] else Refused(states, actions, i, j - 1) + Refuses(states[j - 1], actions[j - 1])
  }

  /** Between its steps the scan stands between those it has refused and those still to ask. */
  ghost predicate ScanStands(s: State, queue: seq<Tid>, asked: seq<Tid>, refused: seq<Tid>) {
    && s.timer.Scanning? && s.timer.at <= |s.queue|
    && s.queue[..s.timer.at] == refused
    && queue == asked + s.queue[s.timer.at..]
  }

  lemma AskMovesOn(s: State, grant: bool, queue: seq<Tid>, asked: seq<Tid>, refused: seq<Tid>)
    requires Enabled(s, TimerAsk(grant)) && ScanStands(s, queue, asked, refused)
    ensures ScanStands(Apply(s, TimerAsk(grant)), queue, asked + Asks(s, TimerAsk(grant)),
                       refused + Refuses(s, TimerAsk(grant)))
  {
    var at := s.timer.at;
    assert s.queue[at..] == [s.queue[at]] + s.queue[at + 1..];
    if grant {
      assert RemoveAt(s.queue, at)[at..] == s.queue[at + 1..];
      assert RemoveAt(s.queue, at)[..at] == s.queue[..at];
      assert refused + [] == refused;
    } else {
      assert s.queue[..at + 1] == s.queue[..at] + [s.queue[at]];
    }
  }

  lemma ScanStandsStill(s: State, a: Action, queue: seq<Tid>, asked: seq<Tid>, refused: seq<Tid>)
    requires LockInv(s) && Enabled(s, a) && !TimerStep(a) && ScanStands(s, queue, asked, refused)
    ensures ScanStands(Apply(s, a), queue, asked, refused)
    ensures Asks(s, a) == [] && Refuses(s, a) == []
  {
    OthersLeaveHolder(s, a);
  }

  // ------------------------------------------------------------ a whole tick

  /** Where a tick's four turning points lie; the later ones count only once they are reached. */
  datatype Tick = Tick(fire: nat, reset: nat, lock: nat, unlock: nat)

  ghost predicate HasFired(actions: seq<Action>, k: nat, x: Tick) {
    x.fire < k <= |actions| && actions[x.fire] == TimerFire
  }

  /** The reset is the first thing the timer does after it has fired. */
  ghost predicate HasReset(actions: seq<Action>, k: nat, x: Tick) {
    && HasFired(actions, k, x)
    && x.fire < x.reset < k && actions[x.reset] == TimerReset && NoTimerStep(actions, x.fire + 1, x.reset)
  }

  /** The lock is the next. */
  ghost predicate HasLocked(actions: seq<Action>, k: nat, x: Tick) {
    && HasReset(actions, k, x)
    && x.reset < x.lock < k && actions[x.lock] == TimerLock && NoTimerStep(actions, x.reset + 1, x.lock)
  }

  /** Then it asks for everybody in the queue, once and in order; those it refuses stay. */
  ghost predicate HasUnlocked(states: seq<State>, actions: seq<Action>, k: nat, x: Tick)
    requires |actions| < |states|
  {
    && HasLocked(actions, k, x)
    && x.lock < x.unlock < k && actions[x.unlock] == TimerUnlock && OnlyAsks(actions, x.lock + 1, x.unlock)
    && Asked(states, actions, x.lock + 1, x.unlock) == states[x.lock].queue
    && Refused(states, actions, x.lock + 1, x.unlock) == states[x.unlock].queue
  }

  /** How far the tick has got. */
  ghost predicate TickStands(states: seq<State>, actions: seq<Action>, k: nat, x: Tick)
    requires k <= |actions| < |states|
  {
    match states[k].timer
    case Idle => true
    case Dead => true
    case Resetting => HasFired(actions, k, x) && NoTimerStep(actions, x.fire + 1, k)
    case Locking => HasReset(actions, k, x) && NoTimerStep(actions, x.reset + 1, k)
    case Scanning(_) =>
      && HasLocked(actions, k, x) && OnlyAsks(actions, x.lock + 1, k)
      && ScanStands(states[k], states[x.lock].queue, Asked(states, actions, x.lock + 1, k),
                    Refused(states, actions, x.lock + 1, k))
    case Rearming => HasUnlocked(states, actions, k, x) && NoTimerStep(actions, x.unlock + 1, k)
  }

  /** What the step makes of it. */
  function After(k: nat, a: Action, x: Tick): Tick {
    match a
    case TimerFire => x.(fire := k)
    case TimerReset => x.(reset := k)
    case TimerLock => x.(lock := k)
    case TimerUnlock => x.(unlock := k)
    case _ => x
  }

  lemma TimerStandsStill(s: State, a: Action)
    requires LockInv(s) && Enabled(s, a) && !TimerStep(a)
    ensures Apply(s, a).timer == s.timer || (s.timer.Idle? && Apply(s, a).timer.Dead?)
  {
  }

  /** A step of somebody else leaves the tick where it stands. */
  lemma OthersKeepTick(states: seq<State>, actions: seq<Action>, k: nat, x: Tick)
    requires k < |actions| < |states| && LockInv(states[k])
    requires Enabled(states[k], actions[k]) && states[k + 1] == Apply(states[k], actions[k]) && !TimerStep(actions[k])
    requires TickStands(states, actions, k, x)
    ensures TickStands(states, actions, k + 1, x)
  {
    TimerStandsStill(states[k], actions[k]);
    if states[k].timer.Scanning? {
      ScanStandsStill(states[k], actions[k], states[x.lock].queue, Asked(states, actions, x.lock + 1, k),
                      Refused(states, actions, x.lock + 1, k));
    }
  }

  lemma AskKeepsTick(states: seq<State>, actions: seq<Action>, k: nat, x: Tick)
    requires k < |actions| < |states| && actions[k].TimerAsk?
    requires Enabled(states[k], actions[k]) && states[k + 1] == Apply(states[k], actions[k])
    requires TickStands(states, actions, k, x)
    ensures TickStands(states, actions, k + 1, x)
  {
    assert states[k].timer.Scanning?;
    AskMovesOn(states[k], actions[k].grant, states[x.lock].queue, Asked(states, actions, x.lock + 1, k),
               Refused(states, actions, x.lock + 1, k));
    AsksGrow(states, actions, k, x);
  }

  lemma AsksGrow(states: seq<State>, actions: seq<Action>, k: nat, x: Tick)
    requires x.lock < k < |actions| < |states|
    ensures Asked(states, actions, x.lock + 1, k + 1) ==
            Asked(states, actions, x.lock + 1, k) + Asks(states[k], actions[k])
    ensures Refused(states, actions, x.lock + 1, k + 1) ==
            Refused(states, actions, x.lock + 1, k) + Refuses(states[k], actions[k])
  {
  }

  lemma TurnKeepsTick(states: seq<State>, actions: seq<Action>, k: nat, x: Tick)
    requires k < |actions| < |states|
    requires Enabled(states[k], actions[k]) && states[k + 1] == Apply(states[k], actions[k])
    requires TimerStep(actions[k]) && !actions[k].TimerAsk?
    requires TickStands(states, actions, k, x)
    ensures TickStands(states, actions, k + 1, After(k, actions[k], x))
  {
    if actions[k].TimerUnlock? {
      assert states[k].queue[states[k].timer.at..] == [];
      assert states[k].queue[..states[k].timer.at] == states[k].queue;
    } else if actions[k].TimerLock? {
      assert states[k].queue[..0] == [] && states[k].queue[0..] == states[k].queue;
    }
  }

  lemma LockInRun(states: seq<State>, actions: seq<Action>, k: nat)
    requires IsRun(states, actions) && k < |states|
    ensures LockInv(states[k])
  {
    RunKeepsInv(states, actions, k);
  }

  lemma TickInRun(states: seq<State>, actions: seq<Action>, k: nat, x: Tick)
    requires IsRun(states, actions) && k < |actions| && TickStands(states, actions, k, x)
    ensures TickStands(states, actions, k + 1, After(k, actions[k], x))
  {
    LockInRun(states, actions, k);
    if !TimerStep(actions[k]) {
      OthersKeepTick(states, actions, k, x);
    } else if actions[k].TimerAsk? {
      AskKeepsTick(states, actions, k, x);
    } else {
      TurnKeepsTick(states, actions, k, x);
    }
  }

  lemma TickUpTo(states: seq<State>, actions: seq<Action>, k: nat, before: Tick, x: Tick)
    requires IsRun(states, actions) && 0 < k < |states| && TickStands(states, actions, k - 1, before)
    requires x == After(k - 1, actions[k - 1], before)
    ensures TickStands(states, actions, k, x)
  {
    TickInRun(states, actions, k - 1, before);
  }

  lemma IdleAtFirst(states: seq<State>, actions: seq<Action>, x: Tick)
    requires IsRun(states, actions)
    ensures TickStands(states, actions, 0, x)
  {
  }

  lemma {:induction false} TickSoFar(states: seq<State>, actions: seq<Action>, k: nat) returns (x: Tick)
    requires IsRun(states, actions) && k < |states|
    ensures TickStands(states, actions, k, x)
  {
    if k == 0 {
      x := Tick(0, 0, 0, 0);
      IdleAtFirst(states, actions, x);
    } else {
      var before := TickSoFar(states, actions, k - 1);
      x := After(k - 1, actions[k - 1], before);
      TickUpTo(states, actions, k, before, x);
    }
  }

  /** The timer locks the queue only after it has fired and then reset, with no step of its own in
      between. */
  lemma ResetsBeforeLock(states: seq<State>, actions: seq<Action>, k: nat) returns (x: Tick)
    requires IsRun(states, actions) && k < |actions| && actions[k] == TimerLock
    ensures HasReset(actions, k, x) && NoTimerStep(actions, x.reset + 1, k)
  {
    x := TickSoFar(states, actions, k);
  }

  /** A whole tick: the timer has fired, reset, locked, asked for each waiter that was queued at the
      lock, once and in order, left those it refused, in order, and unlocked; it did nothing else, and
      is idle again. */
  lemma TickIsWhole(states: seq<State>, actions: seq<Action>, k: nat) returns (x: Tick)
    requires IsRun(states, actions) && k < |actions| && actions[k] == TimerRearm
    ensures HasUnlocked(states, actions, k, x) && NoTimerStep(actions, x.unlock + 1, k)
    ensures states[k + 1].timer == Idle
  {
    x := TickSoFar(states, actions, k);
  }

  /** What the timer has left to do once it holds the lock. */
  function TickLeft(s: State): int {
    match s.timer
    case Scanning(at) => |s.queue| - at + 2
    case Rearming => 1
    case _ => 0
  }

  /** From the lock on each step of the timer brings it nearer to being idle, and nobody puts it off:
      after the lock it takes as many steps as there are waiters, and two. */
  lemma TickNears(s: State, a: Action)
    requires LockInv(s) && Enabled(s, a) && (s.timer.Scanning? || s.timer.Rearming?)
    ensures var s' := Apply(s, a);
            && TickLeft(s') + (if TimerStep(a) then 1 else 0) == TickLeft(s)
            && (s'.timer.Scanning? || s'.timer.Rearming? || (s'.timer.Idle? && TickLeft(s) == 1))
  {
    if s.timer.Scanning? && !TimerStep(a) {
      OthersLeaveHolder(s, a);
    }
  }

  lemma LockStarts(s: State)
    requires Enabled(s, TimerLock)
    ensures TickLeft(Apply(s, TimerLock)) == |s.queue| + 2
  {
  }

  // ------------------------------------------------------------ a whole flush

  /** Whom the flush of this agent grants and takes out. */
  function Flushes(s: State, a: Action, g: nat): seq<Tid> {
    if a == FlushOne(g) && s.queue != [] then [s.queue[0]] else []
  }

  function Flushed(states: seq<State>, actions: seq<Action>, g: nat, i: nat, j: nat): seq<Tid>
    requires j <= |actions| < |states|
  {
    if i >= j then [] else Flushed(states, actions, g, i, j - 1) + Flushes(states[j - 1], actions[j - 1], g)
  }

  /** The flush that locked the queue at step l stands where it has flushed this much. */
  ghost predicate FlushStands(states: seq<State>, actions: seq<Action>, k: nat, g: nat, l: nat)
    requires k <= |actions| < |states|
  {
    && l < k && actions[l] == FlushLock(g)
    && (forall m :: l < m < k ==> actions[m] != FlushUnlock(g))
    && states[l].queue == Flushed(states, actions, g, l + 1, k) + states[k].queue
  }

  lemma FlushMovesOn(s: State, a: Action, g: nat)
    requires LockInv(s) && Enabled(s, a) && g in s.agents && s.agents[g].Flushing? && a != FlushUnlock(g)
    ensures s.queue == Flushes(s, a, g) + Apply(s, a).queue
    ensures g in Apply(s, a).agents && Apply(s, a).agents[g].Flushing?
  {
    if a.FlushOne? {
      assert s.queue == [s.queue[0]] + s.queue[1..];
      assert RemoveAt(s.queue, 0) == s.queue[1..];
    } else {
      OthersLeaveHolder(s, a);
    }
  }

  lemma FlushStandsOn(states: seq<State>, actions: seq<Action>, k: nat, g: nat, l: nat)
    requires k < |actions| < |states| && actions[k] != FlushUnlock(g)
    requires states[k].queue == Flushes(states[k], actions[k], g) + states[k + 1].queue
    requires FlushStands(states, actions, k, g, l)
    ensures FlushStands(states, actions, k + 1, g, l)
  {
    var done, now := Flushed(states, actions, g, l + 1, k), Flushes(states[k], actions[k], g);
    assert Flushed(states, actions, g, l + 1, k + 1) == done + now;
    assert done + (now + states[k + 1].queue) == done + now + states[k + 1].queue;
  }

  lemma FlushInRun(states: seq<State>, actions: seq<Action>, k: nat, g: nat)
    requires IsRun(states, actions) && 0 < k < |states| && g in states[k].agents && states[k].agents[g].Flushing?
    ensures actions[k - 1] != FlushUnlock(g)
    ensures actions[k - 1] == FlushLock(g) ==> states[k].queue == states[k - 1].queue
    ensures actions[k - 1] != FlushLock(g) ==>
              && g in states[k - 1].agents && states[k - 1].agents[g].Flushing?
              && states[k - 1].queue == Flushes(states[k - 1], actions[k - 1], g) + states[k].queue
  {
    LockInRun(states, actions, k - 1);
    FlusherBefore(states[k - 1], actions[k - 1], g);
    if actions[k - 1] != FlushLock(g) {
      FlushMovesOn(states[k - 1], actions[k - 1], g);
    }
  }

  lemma NobodyFlushesAtFirst(states: seq<State>, actions: seq<Action>, g: nat)
    requires IsRun(states, actions)
    ensures g !in states[0].agents
  {
  }

  lemma FlusherBefore(s: State, a: Action, g: nat)
    requires Enabled(s, a) && g in Apply(s, a).agents && Apply(s, a).agents[g].Flushing?
    ensures a != FlushUnlock(g)
    ensures a == FlushLock(g) || (g in s.agents && s.agents[g].Flushing?)
  {
  }

  lemma {:induction false} FlushSoFar(states: seq<State>, actions: seq<Action>, k: nat, g: nat) returns (l: nat)
    requires IsRun(states, actions) && k < |states| && g in states[k].agents && states[k].agents[g].Flushing?
    ensures FlushStands(states, actions, k, g, l)
  {
    NobodyFlushesAtFirst(states, actions, g);
    FlushInRun(states, actions, k, g);
    if actions[k - 1] == FlushLock(g) {
      l := k - 1;
    } else {
      l := FlushSoFar(states, actions, k - 1, g);
      FlushStandsOn(states, actions, k - 1, g, l);
    }
  }

  /** A whole flush: whoever was queued when it locked the queue has been granted and taken out, once
      and in order, and nobody is left in the queue. */
  lemma FlushIsWhole(states: seq<State>, actions: seq<Action>, k: nat, g: nat) returns (l: nat)
    requires IsRun(states, actions) && k < |actions| && actions[k] == FlushUnlock(g)
    ensures FlushStands(states, actions, k, g, l)
    ensures Flushed(states, actions, g, l + 1, k) == states[l].queue && states[k].queue == []
  {
    l := FlushSoFar(states, actions, k, g);
  }
}
