/**
 What the module's verdicts mean over whole runs of list and protocol together:
 each is the policy's on that very call, the tokens handed out are bounded by the
 rules, and whoever asks for a verdict gets one.
 */
module ModuleVerdicts {
  import opened CTypes
  import opened Rules
  import opened ModuleRun
  import R = RcuRegistry
  import RR = RcuRuns
  import RV = RcuVerdicts
  import P = WrapperProtocol
  import PS = WrapperSafety
  import PR = WrapperRuns

  // ------------------------------------------------------- steps of the list

  lemma RegistryStep(s: State, a: Action)
    requires Enabled(s, a)
    ensures match RegistryPart(s, a) {
              case Some(r) => R.Enabled(s.reg, r) && Apply(s, a).reg == R.Apply(s.reg, r)
              case None => Apply(s, a).reg == s.reg
            }
  {
  }

  /** An open section that began before the step was open before it. */
  lemma SectionBefore(s: R.State, a: R.Action, r: R.Tid)
    requires R.Enabled(s, a) && r in R.Apply(s, a).readers && R.Apply(s, a).readers[r].start != s.clock
    ensures r in s.readers && s.readers[r].start == R.Apply(s, a).readers[r].start
  {
    if a.Examine? {
      ExamineKeepsSections(s, a.tid);
    } else if a.FollowNext? {
      FollowKeepsSections(s, a.tid);
    }
  }

  lemma ExamineKeepsSections(s: R.State, tid: R.Tid)
    requires R.Enabled(s, R.Examine(tid))
    ensures forall r :: r in R.DoExamine(s, tid).readers ==>
              r in s.readers && R.DoExamine(s, tid).readers[r].start == s.readers[r].start
  {
  }

  lemma FollowKeepsSections(s: R.State, tid: R.Tid)
    requires R.Enabled(s, R.FollowNext(tid))
    ensures forall r :: r in R.DoFollowNext(s, tid).readers ==>
              r in s.readers && R.DoFollowNext(s, tid).readers[r].start == s.readers[r].start
  {
  }

  ghost predicate SameSection(s: R.State, r: R.Tid, rd: R.Reader) {
    r in s.readers && s.readers[r].start == rd.start
  }

  lemma SectionBeforeStep(s: State, a: Action, s': State, r: R.Tid)
    requires Enabled(s, a) && s' == Apply(s, a) && r in s'.reg.readers
    requires s'.reg.readers[r].start < s.reg.clock
    ensures SameSection(s.reg, r, s'.reg.readers[r])
  {
    RegistryStep(s, a);
    match RegistryPart(s, a)
    case Some(p) => SectionBefore(s.reg, p, r);
    case None =>
  }

  lemma SectionBeforeInRun(states: seq<State>, actions: seq<Action>, k: nat, r: R.Tid)
    requires IsRun(states, actions) && 0 < k < |states| && r in states[k].reg.readers
    requires states[k].reg.readers[r].start < states[k - 1].reg.clock
    ensures SameSection(states[k - 1].reg, r, states[k].reg.readers[r])
  {
    SectionBeforeStep(states[k - 1], actions[k - 1], states[k], r);
  }

  lemma DeadKeptStep(s: State, a: Action, s': State)
    requires R.Cells(s.reg) && Enabled(s, a) && s' == Apply(s, a)
    ensures RR.DeadKept(s.reg, s'.reg, s.reg.clock)
  {
    RegistryStep(s, a);
    match RegistryPart(s, a)
    case Some(p) => RR.DeadStep(s.reg, p);
    case None =>
  }

  lemma ListInRun(states: seq<State>, actions: seq<Action>, k: nat)
    requires IsRun(states, actions) && k < |states|
    ensures R.Inv(states[k].reg)
  {
    RunKeepsInv(states, actions, k);
  }

  lemma CellsInRun(states: seq<State>, actions: seq<Action>, k: nat)
    requires IsRun(states, actions) && k < |states|
    ensures R.Cells(states[k].reg)
  {
    ListInRun(states, actions, k);
  }

  lemma DeadKeptInRun(states: seq<State>, actions: seq<Action>, k: nat)
    requires IsRun(states, actions) && 0 < k < |states|
    ensures RR.DeadKept(states[k - 1].reg, states[k].reg, states[k - 1].reg.clock)
  {
    CellsInRun(states, actions, k - 1);
    DeadKeptStep(states[k - 1], actions[k - 1], states[k]);
  }

  lemma TimedInRun(states: seq<State>, actions: seq<Action>, k: nat)
    requires IsRun(states, actions) && k < |states|
    ensures R.Timed(states[k].reg)
    ensures k == 0 ==> states[k].reg.dead == map[] && states[k].reg.readers == map[]
  {
    RunKeepsInv(states, actions, k);
  }

  /** A rule that was unlinked after the section began was in the list while it was open. */
  lemma {:induction false} WasLinked(states: seq<State>, actions: seq<Action>, k: nat, r: R.Tid, p: R.Ptr)
    returns (m: nat)
    requires IsRun(states, actions) && k < |states| && r in states[k].reg.readers
    requires p in states[k].reg.linked
             || (p in states[k].reg.dead && states[k].reg.dead[p] > states[k].reg.readers[r].start)
    ensures m <= k && SameSection(states[m].reg, r, states[k].reg.readers[r]) && p in states[m].reg.linked
  {
    m := k;
    if p !in states[k].reg.linked {
      TimedInRun(states, actions, k);
      TimedInRun(states, actions, k - 1);
      DeadKeptInRun(states, actions, k);
      SectionBeforeInRun(states, actions, k, r);
      if p in states[k - 1].reg.dead {
        m := WasLinked(states, actions, k - 1, r, p);
      } else {
        m := k - 1;
      }
    }
  }

  // -------------------------------------------------------- verdict and charge

  /** Step m is the charge that ended the walk of section rd of reader r. */
  ghost predicate IsCharge(states: seq<State>, actions: seq<Action>, m: int, r: R.Tid, rd: R.Reader) {
    && 0 <= m < |actions| < |states|
    && actions[m] == Walk(R.Examine(r))
    && RV.ChargedBy(states[m].reg, R.Examine(r), r, rd)
  }

  /** Reader r has ended its walk with a pick and is rd. */
  ghost predicate Picked(s: R.State, r: R.Tid, rd: R.Reader) {
    r in s.readers && s.readers[r] == rd && rd.phase.Finished? && rd.phase.hit != R.HEAD
  }

  lemma FinishedStep(s: State, a: Action, s': State, r: R.Tid, rd: R.Reader)
    requires R.Inv(s.reg) && Enabled(s, a) && s' == Apply(s, a) && Picked(s'.reg, r, rd)
    ensures Picked(s.reg, r, rd) || (a == Walk(R.Examine(r)) && RV.ChargedBy(s.reg, R.Examine(r), r, rd))
  {
    RegistryStep(s, a);
    match RegistryPart(s, a)
    case Some(p) => RV.FinishedStep(s.reg, p, r);
    case None =>
  }

  lemma FinishedStepInRun(states: seq<State>, actions: seq<Action>, k: nat, r: R.Tid, rd: R.Reader)
    requires IsRun(states, actions) && 0 < k < |states| && Picked(states[k].reg, r, rd)
    ensures Picked(states[k - 1].reg, r, rd) || IsCharge(states, actions, k - 1, r, rd)
  {
    ListInRun(states, actions, k - 1);
    FinishedStep(states[k - 1], actions[k - 1], states[k], r, rd);
  }

  /** The reader has its pick, and stands still, from state m to state k. */
  ghost predicate Stood(states: seq<State>, m: nat, k: nat, r: R.Tid, rd: R.Reader) {
    forall x :: m <= x <= k < |states| ==> Picked(states[x].reg, r, rd)
  }

  lemma NobodyAtFirst(states: seq<State>, actions: seq<Action>, r: R.Tid, rd: R.Reader)
    requires IsRun(states, actions)
    ensures !Picked(states[0].reg, r, rd)
  {
  }

  lemma {:induction false} WasCharged(states: seq<State>, actions: seq<Action>, k: nat, r: R.Tid, rd: R.Reader)
    returns (m: nat)
    requires IsRun(states, actions) && k < |states| && Picked(states[k].reg, r, rd)
    ensures m < k && IsCharge(states, actions, m, r, rd) && Stood(states, m + 1, k, r, rd)
  {
    NobodyAtFirst(states, actions, r, rd);
    FinishedStepInRun(states, actions, k, r, rd);
    if IsCharge(states, actions, k - 1, r, rd) {
      m := k - 1;
    } else {
      m := WasCharged(states, actions, k - 1, r, rd);
    }
  }

  /** What the policy says in state k about the call of the finished section of reader r: with a
      pick, the rule matches the call, was in the list while the section was open, and no older
      rule in the list matches; the call is blocked if and only if the charge that ended the walk
      took that rule's counter over its limit. Without a pick the call is not blocked, and no rule
      that was in the list when the section began and still is matches. */
  ghost predicate PolicyVerdict(states: seq<State>, actions: seq<Action>, k: nat, r: R.Tid, call: Call)
    requires k < |states|
  {
    var s := states[k].reg;
    && r in s.readers
    && var rd := s.readers[r];
    && rd.phase.Finished? && rd.walk == R.Charge(call)
    && var hit := rd.phase.hit;
    if hit == R.HEAD then
      && !rd.phase.blocked
      && forall n :: n in s.linked && n in s.born && s.born[n] < rd.start ==> n in s.rules && !Matches(s.rules[n], call)
    else
      && hit in s.rules && Matches(s.rules[hit], call)
      && (forall n :: n in s.linked && n < hit ==> n in s.rules && !Matches(s.rules[n], call))
      && (exists m: nat :: m <= k && SameSection(states[m].reg, r, rd) && hit in states[m].reg.linked)
      && exists m :: m < k && IsCharge(states, actions, m, r, rd)
  }

  lemma FinishedDecides(s: R.State, r: R.Tid, call: Call)
    requires R.Inv(s) && HasFinished(s, r) && s.readers[r].walk == R.Charge(call)
    ensures var hit := s.readers[r].phase.hit;
            if hit == R.HEAD then
              && !s.readers[r].phase.blocked
              && forall n :: n in s.linked && n in s.born && s.born[n] < s.readers[r].start ==>
                   n in s.rules && !Matches(s.rules[n], call)
            else
              && hit in s.rules && Matches(s.rules[hit], call)
              && (forall n :: n in s.linked && n < hit ==> n in s.rules && !Matches(s.rules[n], call))
              && (hit in s.linked || (hit in s.dead && s.dead[hit] > s.readers[r].start))
  {
    assert R.VisitsOf(s, s.readers[r]) && R.ReaderHolds(s, s.readers[r]);
  }

  lemma SectionDecides(states: seq<State>, actions: seq<Action>, k: nat, r: R.Tid, call: Call)
    requires IsRun(states, actions) && k < |states|
    requires HasFinished(states[k].reg, r) && states[k].reg.readers[r].walk == R.Charge(call)
    ensures PolicyVerdict(states, actions, k, r, call)
  {
    ListInRun(states, actions, k);
    FinishedDecides(states[k].reg, r, call);
    if states[k].reg.readers[r].phase.hit != R.HEAD {
      var l := WasLinked(states, actions, k, r, states[k].reg.readers[r].phase.hit);
      var c := WasCharged(states, actions, k, r, states[k].reg.readers[r]);
    }
  }

  lemma OnBehalfInRun(states: seq<State>, actions: seq<Action>, k: nat)
    requires IsRun(states, actions) && k < |actions|
    ensures OnBehalf(states[k]) && PS.QueueInv(states[k].prot) && Enabled(states[k], actions[k])
    ensures states[k + 1] == Apply(states[k], actions[k])
  {
    RunKeepsInv(states, actions, k);
  }

  /** In every run of the module the verdict on a call is the policy's on that very call, and the
      call goes on or is blocked accordingly. */
  lemma CallVerdictsFollowPolicy(states: seq<State>, actions: seq<Action>, k: nat)
    requires IsRun(states, actions) && k < |actions| && actions[k].EndVerdict?
    ensures var t := actions[k].tid;
            && t in states[k].caller
            && PolicyVerdict(states, actions, k, ReaderOf(t), states[k].caller[t])
            && t in states[k + 1].prot.threads
            && var blocked := Verdict(states[k].reg, ReaderOf(t));
            && states[k + 1].prot.threads[t].admitted == !blocked
            && states[k + 1].prot.threads[t].pc == if blocked then P.Blocking else P.Leaving
  {
    OnBehalfInRun(states, actions, k);
    var t := actions[k].tid;
    SectionDecides(states, actions, k, ReaderOf(t), states[k].caller[t]);
  }

  lemma AskGrants(s: State)
    requires Enabled(s, EndAsk) && PS.QueueInv(s.prot)
    ensures var t := s.prot.queue[s.prot.timer.at]; var granted := !Verdict(s.reg, TIMER);
            && (t in Apply(s, EndAsk).prot.queue <==> !granted)
            && (t in s.prot.threads ==>
                  t in Apply(s, EndAsk).prot.threads && Apply(s, EndAsk).prot.threads[t].granted == granted)
  {
    PS.DroppedIs(s.prot.queue, s.prot.timer.at);
    assert s.prot.queue[s.prot.timer.at] in s.prot.queue;
  }

  /** The timer's verdict on a waiter whose call has not returned is the policy's on that call, and
      the waiter is granted and unlinked, or kept, accordingly. */
  lemma TimerVerdictsFollowPolicy(states: seq<State>, actions: seq<Action>, k: nat)
    requires IsRun(states, actions) && k < |actions| && actions[k].EndAsk?
    ensures var t := states[k].prot.queue[states[k].prot.timer.at]; var granted := !Verdict(states[k].reg, TIMER);
            && (t in states[k + 1].prot.queue <==> !granted)
            && (t in states[k].prot.threads ==>
                  && t in states[k].caller
                  && PolicyVerdict(states, actions, k, TIMER, states[k].caller[t])
                  && t in states[k + 1].prot.threads
                  && states[k + 1].prot.threads[t].granted == granted)
  {
    OnBehalfInRun(states, actions, k);
    var t := states[k].prot.queue[states[k].prot.timer.at];
    AskGrants(states[k]);
    if t in states[k].prot.threads {
      SectionDecides(states, actions, k, TIMER, states[k].caller[t]);
    }
  }
}
