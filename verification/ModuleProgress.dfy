/**
 Nobody is stuck in the whole module: whoever is inside the wrapper, the timer and
 whoever holds fifo_lock has a next step, down to the single steps of their walks
 over the rules, and the walks come to an end.
 */
module ModuleProgress {
  import opened CTypes
  import opened Rules
  import opened ModuleRun
  import opened ModuleVerdicts
  import R = RcuRegistry
  import RR = RcuRuns
  import RV = RcuVerdicts
  import P = WrapperProtocol
  import PS = WrapperSafety
  import PR = WrapperRuns

  /** The step is the call's own. */
  predicate OwnAction(a: Action, t: P.Tid) {
    match a
    case Protocol(move) => PR.OwnStep(move, t)
    case BeginVerdict(x, _) => x == t
    case EndVerdict(x) => x == t
    case Walk(step) => RV.OwnWalkStep(step, ReaderOf(t))
    case RecordStats(x, _, _) => x == t
    case _ => false
  }

  predicate TimerAction(a: Action) {
    match a
    case Protocol(move) => move.TimerFire? || move.TimerLock? || move.TimerUnlock? || move.TimerRearm?
    case BeginReset => true
    case EndReset => true
    case BeginAsk(_) => true
    case EndAsk => true
    case Walk(step) => RV.OwnWalkStep(step, TIMER)
    case _ => false
  }

  /** The next step of an open section. */
  function NextWalkStep(s: R.State, r: R.Tid): R.Action
    requires r in s.readers && !s.readers[r].phase.Finished?
  {
    if s.readers[r].phase.Load? then R.FollowNext(r) else R.Examine(r)
  }

  lemma WalkProceeds(s: R.State, r: R.Tid)
    requires r in s.readers && !s.readers[r].phase.Finished?
    ensures R.Enabled(s, NextWalkStep(s, r)) && RV.OwnWalkStep(NextWalkStep(s, r), r)
  {
  }

  /** A writer's search always stops somewhere. */
  lemma SearchEnds(s: R.State, num: int) returns (index: nat)
    requires R.Cells(s)
    ensures R.FoundAt(s, num, index) || (index == |s.linked| && R.Missing(s, num))
  {
    var rules := RR.LinkedRules(s);
    index := FirstWithNumber(rules, num);
  }

  lemma VerdictProceeds(s: State, t: P.Tid) returns (a: Action)
    requires PcIs(s.prot, t, P.Verifying)
    ensures Enabled(s, a) && OwnAction(a, t)
  {
    var r := ReaderOf(t);
    if r !in s.reg.readers {
      a := BeginVerdict(t, Call(0, "", 0));
    } else if s.reg.readers[r].phase.Finished? {
      a := EndVerdict(t);
    } else {
      WalkProceeds(s.reg, r);
      a := Walk(NextWalkStep(s.reg, r));
    }
  }

  lemma StatsProceed(s: State, t: P.Tid) returns (a: Action)
    requires R.Cells(s.reg) && t in s.caller && (PcIs(s.prot, t, P.Counted) || PcIs(s.prot, t, P.Measured))
    ensures Enabled(s, a) && OwnAction(a, t)
  {
    var index := SearchEnds(s.reg, s.caller[t].syscallNum);
    a := RecordStats(t, s.caller[t].syscallNum, index);
  }

  lemma MoveProceeds(s: State, t: P.Tid) returns (a: Action)
    requires t in s.prot.threads
    requires var th := s.prot.threads[t];
             && !th.pc.Verifying? && !th.pc.Counted? && !th.pc.Measured? && !PS.Sleeps(th)
             && (PR.NeedsLock(th.pc) ==> s.prot.lock.Free?)
    ensures Enabled(s, a) && OwnAction(a, t)
  {
    a := Protocol(PR.NextOwn(s.prot, t));
  }

  lemma AskedCaller(s: State, t: P.Tid)
    requires Inv(s) && t in s.prot.threads && Asked(s.prot.threads[t].pc)
    ensures t in s.caller && R.Cells(s.reg)
  {
  }

  /** Every call inside the wrapper has an enabled step of its own, unless it sleeps on its waiter or
      waits for fifo_lock. */
  lemma CallProceeds(s: State, t: P.Tid) returns (a: Action)
    requires Inv(s) && t in s.prot.threads && !PS.Sleeps(s.prot.threads[t])
    requires PR.NeedsLock(s.prot.threads[t].pc) ==> s.prot.lock.Free?
    ensures Enabled(s, a) && OwnAction(a, t)
  {
    var pc := s.prot.threads[t].pc;
    if pc.Verifying? {
      a := VerdictProceeds(s, t);
    } else if pc.Counted? || pc.Measured? {
      AskedCaller(s, t);
      a := StatsProceed(s, t);
    } else {
      a := MoveProceeds(s, t);
    }
  }

  lemma TimerWalkProceeds(s: State) returns (a: Action)
    requires s.prot.timer.Resetting? || (s.prot.timer.Scanning? && s.prot.timer.at < |s.prot.queue|)
    ensures Enabled(s, a) && TimerAction(a)
  {
    if TIMER !in s.reg.readers {
      if s.prot.timer.Resetting? {
        a := BeginReset;
      } else {
        var t := s.prot.queue[s.prot.timer.at];
        a := BeginAsk(if t in s.caller then s.caller[t] else Call(0, "", 0));
      }
    } else if s.reg.readers[TIMER].phase.Finished? {
      a := if s.prot.timer.Resetting? then EndReset else EndAsk;
    } else {
      WalkProceeds(s.reg, TIMER);
      a := Walk(NextWalkStep(s.reg, TIMER));
    }
  }

  /** The timer has an enabled step until it is deleted, unless it waits for fifo_lock. */
  lemma TimerProceeds(s: State) returns (a: Action)
    requires Inv(s) && !s.prot.timer.Dead? && (s.prot.timer.Locking? ==> s.prot.lock.Free?)
    ensures Enabled(s, a) && TimerAction(a)
  {
    match s.prot.timer
    case Idle => a := Protocol(P.TimerFire);
    case Resetting => a := TimerWalkProceeds(s);
    case Locking => a := Protocol(P.TimerLock);
    case Scanning(at) =>
      if at < |s.prot.queue| {
        a := TimerWalkProceeds(s);
      } else {
        a := Protocol(P.TimerUnlock);
      }
    case Rearming => a := Protocol(P.TimerRearm);
  }

  /** Whoever holds fifo_lock has an enabled step: the timer, or a flusher. */
  lemma HolderProceeds(s: State) returns (a: Action)
    requires Inv(s) && !s.prot.lock.Free?
    ensures Enabled(s, a)
    ensures if s.prot.lock.HeldByTimer? then TimerAction(a)
            else a == Protocol(P.FlushOne(s.prot.lock.agent)) || a == Protocol(P.FlushUnlock(s.prot.lock.agent))
  {
    if s.prot.lock.HeldByTimer? {
      assert s.prot.timer.Scanning?;
      a := TimerProceeds(s);
    } else {
      assert PS.LockInv(s.prot);
      a := Protocol(if |s.prot.queue| > 0 then P.FlushOne(s.prot.lock.agent) else P.FlushUnlock(s.prot.lock.agent));
    }
  }

  lemma WalkMoves(s: R.State, a: R.Action, r: R.Tid)
    requires R.Inv(s) && R.Enabled(s, a) && r in s.readers && a != R.End(r)
    ensures var s' := R.Apply(s, a);
            && r in s'.readers
            && 0 <= RV.WalkLeft(s', s'.readers[r])
            && if RV.OwnWalkStep(a, r) then RV.WalkLeft(s', s'.readers[r]) < RV.WalkLeft(s, s.readers[r])
               else RV.WalkLeft(s', s'.readers[r]) <= RV.WalkLeft(s, s.readers[r]) + if a.Publish? then 2 else 0
  {
    RV.WalkIsAhead(s, r);
    if RV.OwnWalkStep(a, r) {
      RV.WalkAdvances(s, a, r);
      RR.SectionStep(s, a, r);
    } else {
      WalkStands(s, a, r);
    }
  }

  lemma WalkStands(s: R.State, a: R.Action, r: R.Tid)
    requires R.Enabled(s, a) && r in s.readers && a != R.End(r) && !RV.OwnWalkStep(a, r)
    ensures var s' := R.Apply(s, a);
            && r in s'.readers
            && RV.WalkLeft(s, s.readers[r]) <= RV.WalkLeft(s', s'.readers[r]) <=
               RV.WalkLeft(s, s.readers[r]) + if a.Publish? then 2 else 0
  {
    RV.OthersLeaveWalk(s, a, r);
  }

  /** In the whole module, too, every step of a walk brings its end nearer, and nobody else puts it
      off except by adding a rule. */
  lemma WalkNearsEnd(s: State, a: Action, r: R.Tid)
    requires R.Inv(s.reg) && Enabled(s, a) && r in s.reg.readers && RegistryPart(s, a) != Some(R.End(r))
    ensures var s' := Apply(s, a);
            && r in s'.reg.readers
            && 0 <= RV.WalkLeft(s'.reg, s'.reg.readers[r])
            && if a.Walk? && RV.OwnWalkStep(a.step, r)
               then RV.WalkLeft(s'.reg, s'.reg.readers[r]) < RV.WalkLeft(s.reg, s.reg.readers[r])
               else RV.WalkLeft(s'.reg, s'.reg.readers[r]) <=
                    RV.WalkLeft(s.reg, s.reg.readers[r]) + if a.Admin? && a.step.Publish? then 2 else 0
  {
    match RegistryPart(s, a)
    case Some(p) => WalkMoves(s.reg, p, r);
    case None => RV.WalkIsAhead(s.reg, r);
  }

  // ---------------------------------------------------------------- shutdown

  /** What a section has left to do before it ends, its beginning included. */
  function WalkAhead(s: R.State, r: R.Tid): int {
    if r in s.readers then RV.WalkLeft(s, s.readers[r]) else 2 * s.last + 2
  }

  /** The steps a call has left once the monitor is off, at most, down to those of its walk. */
  function StepsAhead(s: State, t: P.Tid): int {
    PR.StepsLeftOf(s.prot, t) + if PcIs(s.prot, t, P.Verifying) then WalkAhead(s.reg, ReaderOf(t)) else 0
  }

  predicate OwnSectionStep(a: R.Action, r: R.Tid) {
    RV.OwnWalkStep(a, r) || (a.Begin? && a.tid == r)
  }

  function One(b: bool): nat {
    if b then 1 else 0
  }

  lemma OnlyBeginOpens(s: R.State, a: R.Action, r: R.Tid)
    requires R.Enabled(s, a) && r !in s.readers && !(a.Begin? && a.tid == r)
    ensures r !in R.Apply(s, a).readers
  {
  }

  lemma BeginCounts(s: R.State, a: R.Action, r: R.Tid)
    requires R.Enabled(s, a) && a.Begin? && a.tid == r
    ensures WalkAhead(R.Apply(s, a), r) == 2 * s.last + 1 && R.Apply(s, a).last == s.last
  {
  }

  lemma PublishAdds(s: R.State, a: R.Action)
    requires R.Enabled(s, a)
    ensures R.Apply(s, a).last >= s.last
  {
    if !a.Publish? {
      RR.OnlyPublishAdds(s, a);
    }
  }

  lemma SectionBalance(s: R.State, a: R.Action, r: R.Tid)
    requires R.Inv(s) && R.Enabled(s, a) && a != R.End(r)
    ensures WalkAhead(R.Apply(s, a), r) + One(OwnSectionStep(a, r)) - 2 * R.Apply(s, a).last <=
            WalkAhead(s, r) - 2 * s.last
  {
    if r in s.readers {
      RV.WalkBalance(s, a, r);
    } else if a.Begin? && a.tid == r {
      BeginCounts(s, a, r);
    } else {
      OnlyBeginOpens(s, a, r);
    }
  }

  /** From one state to the next a call takes at most as many own actions as it comes nearer its exit,
      two for each rule added allowed for. */
  ghost predicate Balanced(s: State, a: Action, s': State, t: P.Tid) {
    StepsAhead(s', t) + One(OwnAction(a, t)) - 2 * s'.reg.last <= StepsAhead(s, t) - 2 * s.reg.last
  }

  lemma VerifyingIsEleven(s: P.State, t: P.Tid)
    ensures PcIs(s, t, P.Verifying) <==> PR.StepsLeftOf(s, t) == 11
  {
  }

  /** A step that belongs to both, or to the list alone. */
  lemma ListPartBalance(s: State, a: Action, t: P.Tid)
    requires R.Inv(s.reg) && Enabled(s, a) && RegistryPart(s, a).Some? && RegistryPart(s, a) != Some(R.End(ReaderOf(t)))
    requires PR.StepsLeftOf(Apply(s, a).prot, t) == PR.StepsLeftOf(s.prot, t)
    requires OwnAction(a, t) ==> PcIs(s.prot, t, P.Verifying) && OwnSectionStep(RegistryPart(s, a).value, ReaderOf(t))
    ensures Balanced(s, a, Apply(s, a), t)
  {
    RegistryStep(s, a);
    SectionBalance(s.reg, RegistryPart(s, a).value, ReaderOf(t));
    PublishAdds(s.reg, RegistryPart(s, a).value);
    VerifyingIsEleven(s.prot, t);
    VerifyingIsEleven(Apply(s, a).prot, t);
  }

  lemma OwnPartIsOwn(s: State, a: Action, t: P.Tid)
    requires Enabled(s, a) && ProtocolPart(s, a).Some?
    ensures PR.OwnStep(ProtocolPart(s, a).value, t) <==> OwnAction(a, t)
    ensures RegistryPart(s, a) == Some(R.End(ReaderOf(t))) ==> OwnAction(a, t)
  {
  }

  lemma OwnPartVerifiesNothing(s: P.State, p: P.Action, t: P.Tid)
    requires P.Enabled(s, p) && PR.OwnStep(p, t) && !s.monitor
    ensures !PcIs(P.Apply(s, p), t, P.Verifying)
  {
  }

  lemma WalkAheadIsNat(s: R.State, r: R.Tid)
    requires R.Cells(s) && R.ReadersHold(s)
    ensures 0 <= WalkAhead(s, r)
  {
    if r in s.readers {
      RV.WalkIsAhead(s, r);
    }
  }

  lemma ListGrows(s: State, a: Action)
    requires Enabled(s, a)
    ensures Apply(s, a).reg.last >= s.reg.last
  {
    RegistryStep(s, a);
    if RegistryPart(s, a).Some? {
      PublishAdds(s.reg, RegistryPart(s, a).value);
    }
  }

  /** A step of the call itself in the protocol. */
  lemma OwnPartBalance(s: State, a: Action, t: P.Tid)
    requires R.Inv(s.reg) && PS.Inv(s.prot) && Enabled(s, a) && !s.prot.monitor && t < s.prot.calls
    requires ProtocolPart(s, a).Some? && OwnAction(a, t)
    ensures Balanced(s, a, Apply(s, a), t)
  {
    StepKeepsProtocol(s, a);
    OwnPartIsOwn(s, a, t);
    PR.StepTowardsExit(s.prot, ProtocolPart(s, a).value, t);
    OwnPartVerifiesNothing(s.prot, ProtocolPart(s, a).value, t);
    WalkAheadIsNat(s.reg, ReaderOf(t));
    ListGrows(s, a);
  }

  /** A step of somebody else in the protocol. */
  lemma OtherPartBalance(s: State, a: Action, t: P.Tid)
    requires R.Inv(s.reg) && PS.Inv(s.prot) && Enabled(s, a) && !s.prot.monitor && t < s.prot.calls
    requires ProtocolPart(s, a).Some? && !OwnAction(a, t)
    ensures Balanced(s, a, Apply(s, a), t)
  {
    StepKeepsProtocol(s, a);
    OwnPartIsOwn(s, a, t);
    PR.StepTowardsExit(s.prot, ProtocolPart(s, a).value, t);
    if RegistryPart(s, a).Some? {
      ListPartBalance(s, a, t);
    } else {
      RegistryStep(s, a);
      VerifyingIsEleven(s.prot, t);
      VerifyingIsEleven(Apply(s, a).prot, t);
    }
  }

  lemma WalkerVerifies(s: State, a: Action, t: P.Tid)
    requires Coupled(s) && Enabled(s, a) && ProtocolPart(s, a).None? && OwnAction(a, t)
    ensures RegistryPart(s, a).Some? && PcIs(s.prot, t, P.Verifying)
    ensures OwnSectionStep(RegistryPart(s, a).value, ReaderOf(t))
  {
    assert ReaderOf(t) - 1 == t;
  }

  lemma ListAloneNeverEnds(s: State, a: Action, r: R.Tid)
    requires Enabled(s, a) && ProtocolPart(s, a).None?
    ensures RegistryPart(s, a).Some? && RegistryPart(s, a) != Some(R.End(r)) && Apply(s, a).prot == s.prot
  {
  }

  lemma ListAloneBalance(s: State, a: Action, t: P.Tid)
    requires R.Inv(s.reg) && Coupled(s) && Enabled(s, a) && ProtocolPart(s, a).None?
    ensures Balanced(s, a, Apply(s, a), t)
  {
    ListAloneNeverEnds(s, a, ReaderOf(t));
    if OwnAction(a, t) {
      WalkerVerifies(s, a, t);
    }
    ListPartBalance(s, a, t);
  }

  lemma StepBalance(s: State, a: Action, s': State, t: P.Tid)
    requires R.Inv(s.reg) && PS.Inv(s.prot) && Coupled(s) && Enabled(s, a) && s' == Apply(s, a)
    requires !s.prot.monitor && t < s.prot.calls
    ensures Balanced(s, a, s', t) && t < s'.prot.calls
  {
    StepKeepsProtocol(s, a);
    if ProtocolPart(s, a).None? {
      ListAloneBalance(s, a, t);
    } else {
      PR.CallsGrow(s.prot, ProtocolPart(s, a).value);
      if OwnAction(a, t) {
        OwnPartBalance(s, a, t);
      } else {
        OtherPartBalance(s, a, t);
      }
    }
  }

  lemma PartsInRun(states: seq<State>, actions: seq<Action>, k: nat)
    requires IsRun(states, actions) && k < |states|
    ensures R.Inv(states[k].reg) && PS.Inv(states[k].prot) && Coupled(states[k])
  {
    RunKeepsInv(states, actions, k);
  }

  lemma BalanceInRun(states: seq<State>, actions: seq<Action>, k: nat, t: P.Tid)
    requires IsRun(states, actions) && 0 < k < |states|
    requires !states[k - 1].prot.monitor && t < states[k - 1].prot.calls
    ensures Balanced(states[k - 1], actions[k - 1], states[k], t) && t < states[k].prot.calls
  {
    PartsInRun(states, actions, k - 1);
    StepBalance(states[k - 1], actions[k - 1], states[k], t);
  }

  function OwnActions(actions: seq<Action>, t: P.Tid): nat {
    if actions == [] then 0
    else OwnActions(actions[..|actions| - 1], t) + One(OwnAction(actions[|actions| - 1], t))
  }

  lemma OwnActionsSlice(actions: seq<Action>, i: nat, j: nat, t: P.Tid)
    requires i < j <= |actions|
    ensures OwnActions(actions[i..j], t) == OwnActions(actions[i..j - 1], t) + One(OwnAction(actions[j - 1], t))
  {
    assert actions[i..j][..j - 1 - i] == actions[i..j - 1];
  }

  lemma {:induction false} BalanceAddsUp(states: seq<State>, actions: seq<Action>, i: nat, j: nat, t: P.Tid)
    requires IsRun(states, actions) && i <= j < |states| && t < states[i].prot.calls
    requires forall k :: i <= k < j ==> !states[k].prot.monitor
    ensures t < states[j].prot.calls
    ensures OwnActions(actions[i..j], t) + StepsAhead(states[j], t) - 2 * states[j].reg.last <=
            StepsAhead(states[i], t) - 2 * states[i].reg.last
  {
    if i < j {
      BalanceAddsUp(states, actions, i, j - 1, t);
      BalanceInRun(states, actions, j, t);
      OwnActionsSlice(actions, i, j, t);
    } else {
      assert actions[i..j] == [];
    }
  }

  lemma AheadIsBounded(s: State, t: P.Tid)
    requires Inv(s)
    ensures 0 <= StepsAhead(s, t) <= 13 + 2 * s.reg.last
  {
    WalkAheadIsNat(s.reg, ReaderOf(t));
    PR.AtMostTwelve(s.prot, t);
    VerifyingIsEleven(s.prot, t);
    if ReaderOf(t) in s.reg.readers {
      assert R.ReaderHolds(s.reg, s.reg.readers[ReaderOf(t)]);
      RV.InsertionNumbers(s.reg, R.Cursor(s.reg.readers[ReaderOf(t)]));
    }
  }

  /** Shutdown progress in the whole module: while the monitor stays off, the actions a call takes
      itself, down to the single steps of its walk over the rules, are bounded when the monitor goes
      off by what it has ahead, except that each rule added meanwhile allows it two more. */
  lemma ShutdownIsBounded(states: seq<State>, actions: seq<Action>, i: nat, j: nat, t: P.Tid)
    requires IsRun(states, actions) && i <= j < |states| && t in states[i].prot.threads
    requires forall k :: i <= k < j ==> !states[k].prot.monitor
    ensures OwnActions(actions[i..j], t) + StepsAhead(states[j], t) <=
            StepsAhead(states[i], t) + 2 * (states[j].reg.last - states[i].reg.last)
    ensures 0 <= StepsAhead(states[j], t) && StepsAhead(states[i], t) <= 13 + 2 * states[i].reg.last
  {
    RunKeepsInv(states, actions, i);
    RunKeepsInv(states, actions, j);
    AheadIsBounded(states[i], t);
    AheadIsBounded(states[j], t);
    BalanceAddsUp(states, actions, i, j, t);
  }
}
