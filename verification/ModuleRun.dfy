/**
 The whole module in motion: the rule list and the wrapper protocol stepped
 together, from loading to the end of core_exit. A call that verifies its policy
 is a reader of the list, the timer is one too, and core_exit frees the rules
 without a grace period.
 */
module ModuleRun {
  import opened CTypes
  import opened Rules
  import R = RcuRegistry
  import RS = RcuSafety
  import P = WrapperProtocol
  import PS = WrapperSafety
  import PR = WrapperRuns

  /** `caller` (what each call asked for) is recorded in its waiter. */
  datatype State = State(reg: R.State, prot: P.State, caller: map<P.Tid, Call>)

  const START: State := State(R.EMPTY, P.START, map[])

  /** The timer's sections carry number 0, those of call t number t + 1. */
  const TIMER: R.Tid := 0

  function ReaderOf(t: P.Tid): R.Tid {
    t + 1
  }

  datatype Action =
    | Protocol(move: P.Action)                  // a step that reads no rule
    | BeginVerdict(tid: P.Tid, call: Call)      // is_throttled: rcu_read_lock
    | EndVerdict(tid: P.Tid)                    // is_throttled: rcu_read_unlock, return
    | Walk(step: R.Action)                      // a reader follows a pointer or examines a rule
    | RecordStats(tid: P.Tid, num: int, index: nat)  // update_thread_stats, update_peak_delay
    | BeginReset | EndReset                     // reset_all_counters
    | BeginAsk(call: Call) | EndAsk             // the timer asks on behalf of a waiter
    | Admin(step: R.Action)                     // add_rule, remove_rule, get/reset statistics
    | BeginUnload
    | Cleanup                                   // one iteration of cleanup_registry
    | FinishUnload

  /** Protocol steps that touch no rule and do not start or end the unloading. */
  predicate Plain(a: P.Action) {
    match a
    case Step(_, m) => !m.Decide? && !m.RecordGauge? && !m.RecordDelay?
    case TimerReset => false
    case TimerAsk(_) => false
    case BeginUnload => false
    case FinishUnload => false
    case _ => true
  }

  predicate AdminStep(a: R.Action) {
    a.Publish? || a.Unlink? || a.Synchronize? || a.Free? || a.StatsTouch? || a.StatsMiss?
  }

  predicate PcIs(s: P.State, t: P.Tid, pc: P.Pc) {
    t in s.threads && s.threads[t].pc == pc
  }

  predicate HasFinished(s: R.State, r: R.Tid) {
    r in s.readers && s.readers[r].phase.Finished?
  }

  predicate Enabled(s: State, a: Action) {
    match a
    case Protocol(move) => Plain(move) && P.Enabled(s.prot, move)
    case BeginVerdict(t, _) => PcIs(s.prot, t, P.Verifying) && ReaderOf(t) !in s.reg.readers
    case EndVerdict(t) => PcIs(s.prot, t, P.Verifying) && HasFinished(s.reg, ReaderOf(t))
    case Walk(step) => (step.FollowNext? || step.Examine?) && R.Enabled(s.reg, step)
    case RecordStats(t, num, index) =>
      && (PcIs(s.prot, t, P.Counted) || PcIs(s.prot, t, P.Measured))
      && t in s.caller && num == s.caller[t].syscallNum
      && (R.FoundAt(s.reg, num, index) || (index == |s.reg.linked| && R.Missing(s.reg, num)))
    case BeginReset => s.prot.timer.Resetting? && TIMER !in s.reg.readers
    case EndReset => s.prot.timer.Resetting? && HasFinished(s.reg, TIMER)
    case BeginAsk(call) =>
      && s.prot.timer.Scanning? && s.prot.timer.at < |s.prot.queue| && TIMER !in s.reg.readers
      && var t := s.prot.queue[s.prot.timer.at];
      // the record of a call that has returned may hold anything
      (t in s.prot.threads && t in s.caller ==> call == s.caller[t])
    case EndAsk => s.prot.timer.Scanning? && s.prot.timer.at < |s.prot.queue| && HasFinished(s.reg, TIMER)
    // commands come through an open device, which pins the module
    case Admin(step) => AdminStep(step) && s.prot.stage.Loaded? && R.Enabled(s.reg, step)
    case BeginUnload =>
      && P.Enabled(s.prot, P.BeginUnload)
      && forall p :: p in s.reg.dead ==> p in s.reg.freed
    case Cleanup => s.prot.stage.Quiescent? && |s.reg.linked| > 0
    case FinishUnload => s.prot.stage.Quiescent? && s.reg.linked == []
  }

  /** The statistics walk: to the first rule with the number, or over the whole list. */
  function StatsWalk(s: R.State, num: int, index: nat): (a: R.Action)
    requires R.FoundAt(s, num, index) || (index == |s.linked| && R.Missing(s, num))
    ensures R.Enabled(s, a)
  {
    if index < |s.linked| then R.StatsTouch(num, index, false) else R.StatsMiss(num)
  }

  function Verdict(s: R.State, r: R.Tid): bool
    requires HasFinished(s, r)
  {
    s.readers[r].phase.blocked
  }

  function Apply(s: State, a: Action): State
    requires Enabled(s, a)
  {
    match a
    case Protocol(move) => s.(prot := P.Apply(s.prot, move))
    case BeginVerdict(t, call) =>
      s.(reg := R.Apply(s.reg, R.Begin(ReaderOf(t), R.Charge(call))), caller := s.caller[t := call])
    case EndVerdict(t) =>
      s.(reg := R.Apply(s.reg, R.End(ReaderOf(t))),
         prot := P.Apply(s.prot, P.Step(t, P.Decide(Verdict(s.reg, ReaderOf(t))))))
    case Walk(step) => s.(reg := R.Apply(s.reg, step))
    case RecordStats(t, num, index) =>
      s.(reg := R.Apply(s.reg, StatsWalk(s.reg, num, index)),
         prot := P.Apply(s.prot, P.Step(t, if s.prot.threads[t].pc.Counted? then P.RecordGauge else P.RecordDelay)))
    case BeginReset => s.(reg := R.Apply(s.reg, R.Begin(TIMER, R.ZeroAll)))
    case EndReset => s.(reg := R.Apply(s.reg, R.End(TIMER)), prot := P.Apply(s.prot, P.TimerReset))
    case BeginAsk(call) => s.(reg := R.Apply(s.reg, R.Begin(TIMER, R.Charge(call))))
    case EndAsk =>
      s.(reg := R.Apply(s.reg, R.End(TIMER)),
         prot := P.Apply(s.prot, P.TimerAsk(!Verdict(s.reg, TIMER))))
    case Admin(step) => s.(reg := R.Apply(s.reg, step))
    case BeginUnload => s.(prot := P.Apply(s.prot, P.BeginUnload))
    case Cleanup => s.(reg := R.Apply(s.reg, R.Reclaim))
    case FinishUnload => s.(prot := P.Apply(s.prot, P.FinishUnload))
  }

  ghost predicate IsRun(states: seq<State>, actions: seq<Action>) {
    && |states| == |actions| + 1
    && states[0] == START
    && forall i {:trigger actions[i]} :: 0 <= i < |actions| ==>
         Enabled(states[i], actions[i]) && states[i + 1] == Apply(states[i], actions[i])
  }

  // -------------------------------------------------------------- invariant

  /** Whoever is inside a read-side section is where the protocol says it reads rules. */
  ghost predicate Coupled(s: State) {
    forall r :: r in s.reg.readers ==>
      if r == TIMER then
        s.prot.timer.Resetting? || (s.prot.timer.Scanning? && s.prot.timer.at < |s.prot.queue|)
      else PcIs(s.prot, r - 1, P.Verifying)
  }

  /** Once the unloading has begun no removed rule awaits its remover, and before the last
      wrapper has left only cleanup may shorten the list. */
  ghost predicate Ownership(s: State) {
    && (!s.prot.stage.Loaded? ==> forall p :: p in s.reg.dead ==> p in s.reg.freed)
    && (s.prot.stage.Unloaded? ==> s.reg.linked == [])
  }

  /** Where a call is known to have asked for its verdict. */
  predicate Asked(pc: P.Pc) {
    !pc.Entered? && !pc.Verifying? && !pc.Leaving? && !pc.Waking?
  }

  /** Every section works on the call it belongs to. */
  ghost predicate OnBehalf(s: State) {
    && (forall r :: r in s.reg.readers && r != TIMER ==>
          r - 1 in s.caller && s.reg.readers[r].walk == R.Charge(s.caller[r - 1]))
    && (forall t :: t in s.prot.threads && Asked(s.prot.threads[t].pc) ==> t in s.caller)
    && (forall t :: t in s.prot.queue ==> t in s.caller)
    && (TIMER in s.reg.readers && s.prot.timer.Resetting? ==> s.reg.readers[TIMER].walk.ZeroAll?)
    && (TIMER in s.reg.readers && s.prot.timer.Scanning? && s.prot.timer.at < |s.prot.queue| ==>
          var t := s.prot.queue[s.prot.timer.at];
          s.reg.readers[TIMER].walk.Charge?
          && (t in s.prot.threads ==> t in s.caller && s.reg.readers[TIMER].walk == R.Charge(s.caller[t])))
  }

  ghost predicate Inv(s: State) {
    && R.Inv(s.reg)
    && PS.Inv(s.prot)
    && Coupled(s)
    && Ownership(s)
    && OnBehalf(s)
  }

  /** With the wrappers drained no section is open. */
  lemma DrainedHasNoReaders(s: State)
    requires PS.UnloadInv(s.prot) && Coupled(s) && PS.Drained(s.prot)
    ensures s.reg.readers == map[]
  {
    assert forall t: P.Tid :: !PcIs(s.prot, t, P.Verifying);
    assert s.prot.timer.Dead?;
    assert forall r :: r !in s.reg.readers;
  }

  /** The protocol's part of a step is a step of the protocol. */
  function ProtocolPart(s: State, a: Action): Option<P.Action>
    requires Enabled(s, a)
  {
    match a
    case Protocol(move) => Some(move)
    case EndVerdict(t) => Some(P.Step(t, P.Decide(Verdict(s.reg, ReaderOf(t)))))
    case RecordStats(t, _, _) =>
      Some(P.Step(t, if s.prot.threads[t].pc.Counted? then P.RecordGauge else P.RecordDelay))
    case EndReset => Some(P.TimerReset)
    case EndAsk => Some(P.TimerAsk(!Verdict(s.reg, TIMER)))
    case BeginUnload => Some(P.BeginUnload)
    case FinishUnload => Some(P.FinishUnload)
    case _ => None
  }

  lemma StepKeepsProtocol(s: State, a: Action)
    requires PS.Inv(s.prot) && Enabled(s, a)
    ensures ProtocolPart(s, a).Some? ==> P.Enabled(s.prot, ProtocolPart(s, a).value)
    ensures Apply(s, a).prot == match ProtocolPart(s, a) { case Some(p) => P.Apply(s.prot, p) case None => s.prot }
    ensures PS.Inv(Apply(s, a).prot)
  {
    match ProtocolPart(s, a)
    case Some(p) => PS.StepKeepsInv(s.prot, p);
    case None =>
  }

  /** The list's part of a step. */
  function RegistryPart(s: State, a: Action): Option<R.Action>
    requires Enabled(s, a)
  {
    match a
    case BeginVerdict(t, call) => Some(R.Begin(ReaderOf(t), R.Charge(call)))
    case EndVerdict(t) => Some(R.End(ReaderOf(t)))
    case Walk(step) => Some(step)
    case RecordStats(_, num, index) => Some(StatsWalk(s.reg, num, index))
    case BeginReset => Some(R.Begin(TIMER, R.ZeroAll))
    case EndReset => Some(R.End(TIMER))
    case BeginAsk(call) => Some(R.Begin(TIMER, R.Charge(call)))
    case EndAsk => Some(R.End(TIMER))
    case Admin(step) => Some(step)
    case Cleanup => Some(R.Reclaim)
    case _ => None
  }

  lemma CleanupIsDrained(s: State, a: Action)
    requires PS.UnloadInv(s.prot) && Coupled(s) && Enabled(s, a)
    requires RegistryPart(s, a) == Some(R.Reclaim)
    ensures s.reg.readers == map[]
  {
    assert a.Cleanup?;
    DrainedHasNoReaders(s);
  }

  lemma StepKeepsRegistry(s: State, a: Action)
    requires Inv(s) && Enabled(s, a)
    ensures R.Inv(Apply(s, a).reg)
  {
    match RegistryPart(s, a)
    case Some(r) =>
      if r.Reclaim? {
        CleanupIsDrained(s, a);
      }
      RS.StepKeeps(s.reg, r);
    case None =>
  }

  /** A protocol step that reads no rule leaves every verifying call verifying and the timer
      where it reads rules, if that is where it was. */
  lemma PlainStepsKeepReaders(s: P.State, a: P.Action)
    requires PS.QueueInv(s) && PS.LockInv(s) && Plain(a) && P.Enabled(s, a)
    ensures forall t: P.Tid :: PcIs(s, t, P.Verifying) ==> PcIs(P.Apply(s, a), t, P.Verifying)
    ensures s.timer.Resetting? ==> P.Apply(s, a).timer.Resetting?
    ensures s.timer.Scanning? && s.timer.at < |s.queue| ==>
              P.Apply(s, a).timer == s.timer && P.Apply(s, a).queue == s.queue
  {
    forall t: P.Tid | PcIs(s, t, P.Verifying) ensures PcIs(P.Apply(s, a), t, P.Verifying) {
      assert t < s.calls;
    }
  }

  lemma ProtocolKeepsCoupled(s: State, a: P.Action)
    requires Coupled(s) && PS.QueueInv(s.prot) && PS.LockInv(s.prot) && Enabled(s, Protocol(a))
    ensures Coupled(Apply(s, Protocol(a)))
  {
    PlainStepsKeepReaders(s.prot, a);
  }

  /** A call's own step leaves the other calls and the timer alone. */
  lemma OwnStepKeepsReaders(s: P.State, t: P.Tid, m: P.Move)
    requires P.Enabled(s, P.Step(t, m)) && (m.Decide? || m.RecordGauge? || m.RecordDelay?)
    ensures var s' := P.Apply(s, P.Step(t, m));
            && s'.timer == s.timer && s'.queue == s.queue
            && forall x: P.Tid :: x != t && PcIs(s, x, P.Verifying) ==> PcIs(s', x, P.Verifying)
  {
  }

  lemma GrantKeepsVerifying(s: P.State, i: nat)
    requires i < |s.queue|
    ensures forall t: P.Tid :: PcIs(s, t, P.Verifying) ==> PcIs(P.Granted(s, i), t, P.Verifying)
  {
  }

  /** A verdict closes the call's own section before the call moves on. */
  lemma VerdictKeepsCoupled(s: State, t: P.Tid)
    requires Coupled(s) && Enabled(s, EndVerdict(t))
    ensures Coupled(Apply(s, EndVerdict(t)))
  {
    OwnStepKeepsReaders(s.prot, t, P.Decide(Verdict(s.reg, ReaderOf(t))));
  }

  lemma StatsKeepCoupled(s: State, a: Action)
    requires Coupled(s) && a.RecordStats? && Enabled(s, a)
    ensures Coupled(Apply(s, a))
  {
    OwnStepKeepsReaders(s.prot, a.tid, if s.prot.threads[a.tid].pc.Counted? then P.RecordGauge else P.RecordDelay);
  }

  /** The timer closes its section before it moves on. */
  lemma TimerKeepsCoupled(s: State, a: Action)
    requires Coupled(s) && (a.EndReset? || a.EndAsk?) && Enabled(s, a)
    ensures Coupled(Apply(s, a))
  {
    if a.EndAsk? {
      GrantKeepsVerifying(s.prot, s.prot.timer.at);
    }
  }

  lemma RegistryKeepsCoupled(s: State, a: Action)
    requires Coupled(s) && Enabled(s, a)
    requires a.Walk? || a.Admin? || a.Cleanup?
    ensures Coupled(Apply(s, a))
  {
    WalkKeepsCall(s.reg, RegistryPart(s, a).value);
  }

  lemma BeginKeepsCoupled(s: State, a: Action)
    requires Coupled(s) && Enabled(s, a)
    requires a.BeginVerdict? || a.BeginReset? || a.BeginAsk?
    ensures Coupled(Apply(s, a))
  {
  }

  lemma UnloadKeepsCoupled(s: State, a: Action)
    requires Coupled(s) && Enabled(s, a) && (a.BeginUnload? || a.FinishUnload?)
    ensures Coupled(Apply(s, a))
  {
  }

  lemma StepKeepsCoupled(s: State, a: Action)
    requires Coupled(s) && PS.QueueInv(s.prot) && PS.LockInv(s.prot) && Enabled(s, a)
    ensures Coupled(Apply(s, a))
  {
    match a
    case Protocol(move) => ProtocolKeepsCoupled(s, move);
    case EndVerdict(t) => VerdictKeepsCoupled(s, t);
    case RecordStats(_, _, _) => StatsKeepCoupled(s, a);
    case EndReset => TimerKeepsCoupled(s, a);
    case EndAsk => TimerKeepsCoupled(s, a);
    case Walk(_) => RegistryKeepsCoupled(s, a);
    case Admin(_) => RegistryKeepsCoupled(s, a);
    case Cleanup => RegistryKeepsCoupled(s, a);
    case BeginUnload => UnloadKeepsCoupled(s, a);
    case FinishUnload => UnloadKeepsCoupled(s, a);
    case _ => BeginKeepsCoupled(s, a);
  }

  /** Only BeginUnload leaves the loaded stage, and only FinishUnload ends the unloading. */
  lemma StagesOfPlainSteps(s: P.State, a: P.Action)
    requires PS.UnloadInv(s) && P.Enabled(s, a) && !a.BeginUnload? && !a.FinishUnload?
    ensures s.stage.Loaded? <==> P.Apply(s, a).stage.Loaded?
    ensures s.stage.Unloaded? <==> P.Apply(s, a).stage.Unloaded?
  {
  }

  lemma ListOfStep(s: R.State, a: R.Action)
    requires R.Enabled(s, a) && !AdminStep(a)
    ensures s.linked == [] ==> R.Apply(s, a).linked == []
    ensures forall p :: p in R.Apply(s, a).dead && p !in R.Apply(s, a).freed ==> p in s.dead && p !in s.freed
  {
  }

  lemma StatsWalkKeepsList(s: R.State, num: int, index: nat)
    requires R.FoundAt(s, num, index) || (index == |s.linked| && R.Missing(s, num))
    ensures var s' := R.Apply(s, StatsWalk(s, num, index));
            s'.linked == s.linked && s'.dead == s.dead && s'.freed == s.freed && s'.readers == s.readers
  {
  }

  lemma StatsKeepOwnership(s: State, a: Action)
    requires Ownership(s) && PS.UnloadInv(s.prot) && Enabled(s, a) && a.RecordStats?
    ensures Ownership(Apply(s, a))
  {
    StagesOfPlainSteps(s.prot, ProtocolPart(s, a).value);
    StatsWalkKeepsList(s.reg, a.num, a.index);
  }

  lemma StageStepKeepsOwnership(s: State, a: Action)
    requires Ownership(s) && Enabled(s, a) && (a.Admin? || a.BeginUnload? || a.FinishUnload?)
    ensures Ownership(Apply(s, a))
  {
  }

  lemma StepKeepsOwnership(s: State, a: Action)
    requires Ownership(s) && PS.UnloadInv(s.prot) && Enabled(s, a)
    ensures Ownership(Apply(s, a))
  {
    if a.Admin? || a.BeginUnload? || a.FinishUnload? {
      StageStepKeepsOwnership(s, a);
    } else if a.RecordStats? {
      StatsKeepOwnership(s, a);
    } else {
      OtherStepKeepsOwnership(s, a);
    }
  }

  lemma OtherStepKeepsOwnership(s: State, a: Action)
    requires Ownership(s) && PS.UnloadInv(s.prot) && Enabled(s, a)
    requires !a.Admin? && !a.BeginUnload? && !a.FinishUnload? && !a.RecordStats?
    ensures Ownership(Apply(s, a))
  {
    var p, r := ProtocolPart(s, a), RegistryPart(s, a);
    if p.Some? {
      StagesOfPlainSteps(s.prot, p.value);
    }
    if r.Some? {
      ListOfStep(s.reg, r.value);
    }
  }

  lemma WalkKeepsCall(s: R.State, a: R.Action)
    requires R.Enabled(s, a)
    ensures forall r :: r in R.Apply(s, a).readers && !(a.Begin? && a.tid == r) ==>
              r in s.readers && R.Apply(s, a).readers[r].walk == s.readers[r].walk
  {
  }

  /** What a protocol step adds to the queue has asked before. */
  lemma QueueOfStep(s: P.State, a: P.Action)
    requires PS.QueueInv(s) && P.Enabled(s, a)
    ensures forall t :: t in P.Apply(s, a).queue ==> t in s.queue || (t in s.threads && Asked(s.threads[t].pc))
    ensures forall t :: t in P.Apply(s, a).threads && Asked(P.Apply(s, a).threads[t].pc) ==>
              t in s.threads && (Asked(s.threads[t].pc) || a == P.Step(t, P.Decide(true)))
  {
    if !PS.MovesThread(a) {
      PS.OtherStepsKeepCalls(s, a);
    } else {
      QueueOfMove(s, a);
      AskedBeforeMove(s, a);
    }
  }

  lemma QueueOfMove(s: P.State, a: P.Action)
    requires PS.MovesThread(a) && P.Enabled(s, a)
    ensures forall t :: t in P.Apply(s, a).queue ==> t in s.queue || (t in s.threads && Asked(s.threads[t].pc))
  {
    if a.Step? && a.move.Abandon? {
      PS.WithoutIs(s.queue, a.tid);
    }
  }

  lemma AskedBeforeMove(s: P.State, a: P.Action)
    requires PS.MovesThread(a) && P.Enabled(s, a)
    ensures forall t :: t in P.Apply(s, a).threads && Asked(P.Apply(s, a).threads[t].pc) ==>
              t in s.threads && (Asked(s.threads[t].pc) || a == P.Step(t, P.Decide(true)))
  {
    if a.Step? {
      AskedBeforeOwnMove(s, s.threads[a.tid], a.move);
      assert P.Apply(s, a).threads == s.threads[a.tid := P.Moved(s, s.threads[a.tid], a.move)];
    }
  }

  lemma AskedBeforeOwnMove(s: P.State, th: P.Thread, m: P.Move)
    requires P.MoveEnabled(s, th, m)
    ensures Asked(P.Moved(s, th, m).pc) ==> Asked(th.pc) || m == P.Decide(true)
  {
  }

  lemma ProtocolKeepsOnBehalf(s: State, a: P.Action)
    requires OnBehalf(s) && PS.QueueInv(s.prot) && PS.LockInv(s.prot) && Coupled(s) && Enabled(s, Protocol(a))
    ensures OnBehalf(Apply(s, Protocol(a)))
  {
    QueueOfStep(s.prot, a);
    PlainStepsKeepReaders(s.prot, a);
  }

  lemma RegistryKeepsOnBehalf(s: State, a: Action)
    requires OnBehalf(s) && Enabled(s, a)
    requires a.Walk? || a.Admin? || a.Cleanup?
    ensures OnBehalf(Apply(s, a))
  {
    WalkKeepsCall(s.reg, RegistryPart(s, a).value);
  }

  lemma BeginKeepsOnBehalf(s: State, a: Action)
    requires OnBehalf(s) && PS.QueueInv(s.prot) && Enabled(s, a)
    requires a.BeginVerdict? || a.BeginReset? || a.BeginAsk?
    ensures OnBehalf(Apply(s, a))
  {
    if a.BeginAsk? {
      assert s.prot.queue[s.prot.timer.at] in s.prot.queue;
    }
  }

  /** A verdict adds nobody to the queue and closes the section of the call it is about. */
  lemma VerdictChanges(s: State, t: P.Tid)
    requires Enabled(s, EndVerdict(t))
    ensures var s' := Apply(s, EndVerdict(t));
            && s'.reg.readers == s.reg.readers - {ReaderOf(t)}
            && s'.caller == s.caller
            && s'.prot.threads.Keys == s.prot.threads.Keys
            && s'.prot.queue == s.prot.queue && s'.prot.timer == s.prot.timer
            && forall x :: x in s.prot.threads && x != t ==> s'.prot.threads[x] == s.prot.threads[x]
  {
  }

  lemma VerdictKeepsOnBehalf(s: State, t: P.Tid)
    requires OnBehalf(s) && Coupled(s) && Enabled(s, EndVerdict(t))
    ensures OnBehalf(Apply(s, EndVerdict(t)))
  {
    VerdictChanges(s, t);
    assert ReaderOf(t) in s.reg.readers;
  }

  lemma TimerKeepsOnBehalf(s: State, a: Action)
    requires OnBehalf(s) && PS.QueueInv(s.prot) && Coupled(s) && Enabled(s, a)
    requires a.EndReset? || a.EndAsk?
    ensures OnBehalf(Apply(s, a))
  {
    QueueOfStep(s.prot, ProtocolPart(s, a).value);
  }

  lemma StatsChange(s: State, a: Action)
    requires Enabled(s, a) && a.RecordStats?
    ensures var s' := Apply(s, a);
            && s'.reg.readers == s.reg.readers
            && s'.caller == s.caller
            && s'.prot.threads.Keys == s.prot.threads.Keys
            && s'.prot.queue == s.prot.queue && s'.prot.timer == s.prot.timer
            && forall x :: x in s.prot.threads && x != a.tid ==> s'.prot.threads[x] == s.prot.threads[x]
  {
    StatsWalkKeepsList(s.reg, a.num, a.index);
  }

  lemma StatsKeepOnBehalf(s: State, a: Action)
    requires OnBehalf(s) && Enabled(s, a) && a.RecordStats?
    ensures OnBehalf(Apply(s, a))
  {
    StatsChange(s, a);
  }

  lemma UnloadKeepsOnBehalf(s: State, a: Action)
    requires OnBehalf(s) && PS.QueueInv(s.prot) && Enabled(s, a)
    requires a.BeginUnload? || a.FinishUnload?
    ensures OnBehalf(Apply(s, a))
  {
    PS.OtherStepsKeepCalls(s.prot, ProtocolPart(s, a).value);
  }

  lemma StepKeepsOnBehalf(s: State, a: Action)
    requires OnBehalf(s) && PS.QueueInv(s.prot) && PS.LockInv(s.prot) && Coupled(s) && Enabled(s, a)
    ensures OnBehalf(Apply(s, a))
  {
    match a
    case Protocol(move) => ProtocolKeepsOnBehalf(s, move);
    case Walk(_) => RegistryKeepsOnBehalf(s, a);
    case Admin(_) => RegistryKeepsOnBehalf(s, a);
    case Cleanup => RegistryKeepsOnBehalf(s, a);
    case BeginVerdict(_, _) => BeginKeepsOnBehalf(s, a);
    case BeginReset => BeginKeepsOnBehalf(s, a);
    case BeginAsk(_) => BeginKeepsOnBehalf(s, a);
    case EndVerdict(t) => VerdictKeepsOnBehalf(s, t);
    case EndReset => TimerKeepsOnBehalf(s, a);
    case EndAsk => TimerKeepsOnBehalf(s, a);
    case RecordStats(_, _, _) => StatsKeepOnBehalf(s, a);
    case _ => UnloadKeepsOnBehalf(s, a);
  }

  lemma StepKeepsInv(s: State, a: Action)
    requires Inv(s) && Enabled(s, a)
    ensures Inv(Apply(s, a))
  {
    StepKeepsOnBehalf(s, a);
    StepKeepsProtocol(s, a);
    StepKeepsRegistry(s, a);
    StepKeepsCoupled(s, a);
    assert PS.UnloadInv(s.prot);
    StepKeepsOwnership(s, a);
  }

  lemma {:induction false} InvAlong(states: seq<State>, k: nat)
    requires k < |states| && Inv(states[0])
    requires forall j :: 0 < j < |states| && Inv(states[j - 1]) ==> Inv(states[j])
    ensures Inv(states[k])
  {
    if k > 0 {
      InvAlong(states, k - 1);
    }
  }

  lemma RunKeepsInv(states: seq<State>, actions: seq<Action>, k: nat)
    requires IsRun(states, actions) && k < |states|
    ensures Inv(states[k])
  {
    StartInv(states[0]);
    forall j | 0 < j < |states| && Inv(states[j - 1]) ensures Inv(states[j]) {
      StepLeadsToInv(states[j - 1], actions[j - 1], states[j]);
    }
    InvAlong(states, k);
  }

  lemma StepLeadsToInv(s: State, a: Action, s': State)
    requires Inv(s) && Enabled(s, a) && s' == Apply(s, a)
    ensures Inv(s')
  {
    StepKeepsInv(s, a);
  }

  lemma StartInv(s: State)
    requires s == START
    ensures Inv(s)
  {
    assert PS.ActiveSet(P.START.threads) == {} && PS.BlockedSet(P.START.threads) == {};
  }

  // ----------------------------------------------------------- main results

  /** Teardown safety for the rules of the whole module: in every run, up to and through core_exit,
      no step touches the memory of a freed rule, although cleanup frees without a grace period;
      and once the unloader has seen active_wrappers at zero no section is open and nobody reads a
      rule. The waiter records are another matter (see WrapperRecords). */
  lemma ModuleSafety(states: seq<State>, actions: seq<Action>, k: nat)
    requires IsRun(states, actions) && k < |states|
    ensures !states[k].reg.fault
    ensures PS.Drained(states[k].prot) ==> states[k].reg.readers == map[] && PR.NobodyReadsRules(states[k].prot)
  {
    RunKeepsInv(states, actions, k);
    if PS.Drained(states[k].prot) {
      DrainedHasNoReaders(states[k]);
      PR.DrainedReadsNothing(states[k].prot);
    }
  }

  /** Over a whole run each rule is freed exactly once: never twice, and when the unloading is
      over every rule ever added has been freed and only the list head is left. */
  lemma EveryRuleFreedOnce(states: seq<State>, actions: seq<Action>, k: nat)
    requires IsRun(states, actions) && k < |states|
    ensures forall i, j :: 0 <= i < j < |states[k].reg.freed| ==> states[k].reg.freed[i] != states[k].reg.freed[j]
    ensures states[k].prot.stage.Unloaded? ==>
              && (forall p :: 1 <= p <= states[k].reg.last ==> p in states[k].reg.freed)
              && states[k].reg.mem.Keys == {R.HEAD}
  {
    RunKeepsInv(states, actions, k);
    var s := states[k].reg;
    if states[k].prot.stage.Unloaded? {
      forall p | 1 <= p <= s.last ensures p in s.freed {
        assert p in s.rules;
      }
      forall p | p in s.mem ensures p == R.HEAD {
        assert p == R.HEAD || p in s.rules;
      }
    }
  }
}
