/**
 How unloading ends: once nobody is inside, the unloader gets from its wait to
 the end of core_exit in a bounded number of steps, and no rule is left.
 */
module ModuleUnload {
  import opened CTypes
  import opened ModuleRun
  import opened ModuleVerdicts
  import opened ModuleExcess
  import R = RcuRegistry
  import P = WrapperProtocol
  import PS = WrapperSafety
  import PU = WrapperUnload

  predicate UnloadAction(a: Action) {
    match a
    case Protocol(move) => PU.WaitStep(move)
    case Cleanup => true
    case FinishUnload => true
    case _ => false
  }

  /** The steps the unloader has left once nobody is inside. */
  function UnloadAhead(s: State): int {
    match s.prot.stage
    case Unloaded => 0
    case _ => PU.UnloadLeft(s.prot) + |s.reg.linked| + 1
  }

  predicate Ends(s: P.State) {
    PU.Waits(s) || s.stage.Quiescent?
  }

  lemma WaitPart(s: State, a: Action)
    requires Enabled(s, a) && PU.Waits(s.prot)
    ensures UnloadAction(a) <==> ProtocolPart(s, a).Some? && PU.WaitStep(ProtocolPart(s, a).value)
    ensures !a.Cleanup?
  {
  }

  lemma WaitNears(s: State, a: Action)
    requires PS.Inv(s.prot) && PU.FlusherIsStopping(s.prot) && PU.Waits(s.prot) && s.prot.active == 0 && Enabled(s, a)
    ensures var s' := Apply(s, a);
            && Ends(s'.prot)
            && UnloadAhead(s') + (if UnloadAction(a) then 1 else 0) == UnloadAhead(s)
  {
    WaitPart(s, a);
    StepKeepsProtocol(s, a);
    ListStays(s, a);
    if ProtocolPart(s, a).Some? {
      PU.UnloadNears(s.prot, ProtocolPart(s, a).value);
    }
  }

  /** Nobody but cleanup changes the list while the module is being unloaded. */
  lemma ListStays(s: State, a: Action)
    requires Enabled(s, a) && !s.prot.stage.Loaded?
    ensures Apply(s, a).reg.linked == if a.Cleanup? then s.reg.linked[1..] else s.reg.linked
  {
    if a.RecordStats? {
      StatsWalkKeepsList(s.reg, a.num, a.index);
    }
  }

  /** Nobody else moves the unloader from where it has found nobody inside. */
  lemma QuiescentStays(s: P.State, a: P.Action)
    requires PU.FlusherIsStopping(s) && s.stage.Quiescent? && P.Enabled(s, a) && !a.FinishUnload?
    ensures P.Apply(s, a).stage == s.stage
  {
  }

  lemma QuiescentNears(s: State, a: Action)
    requires PU.FlusherIsStopping(s.prot) && s.prot.stage.Quiescent? && Enabled(s, a)
    ensures var s' := Apply(s, a);
            && (s'.prot.stage.Quiescent? || s'.prot.stage.Unloaded?)
            && UnloadAhead(s') + (if UnloadAction(a) then 1 else 0) == UnloadAhead(s)
  {
    var p := ProtocolPart(s, a);
    if p.Some? && !a.FinishUnload? {
      QuiescentStays(s.prot, p.value);
    }
    ListStays(s, a);
  }

  /** Each step of the unloader from its wait on brings it nearer the end of core_exit by one, and
      nobody else puts it off, as long as nobody is inside. */
  lemma UnloadNears(s: State, a: Action)
    requires Inv(s) && Ends(s.prot) && Enabled(s, a)
    requires PU.Waits(s.prot) ==> s.prot.active == 0
    ensures var s' := Apply(s, a);
            && (Ends(s'.prot) || s'.prot.stage.Unloaded?)
            && UnloadAhead(s') + (if UnloadAction(a) then 1 else 0) == UnloadAhead(s)
  {
    FlusherKnown(s);
    if PU.Waits(s.prot) {
      WaitNears(s, a);
    } else {
      QuiescentNears(s, a);
    }
  }

  lemma FlusherKnown(s: State)
    requires Inv(s)
    ensures PU.FlusherIsStopping(s.prot) && PS.Inv(s.prot)
  {
  }

  lemma OldestIsFirst(list: seq<R.Ptr>)
    requires |list| > 0 && R.Increasing(list)
    ensures forall q :: q in list ==> list[0] <= q
    ensures forall q :: q in list[1..] <==> q in list && q != list[0]
  {
    forall q | q in list[1..] ensures q != list[0] {
      var i :| 0 <= i < |list| - 1 && list[1..][i] == q;
      assert list[0] < list[i + 1];
    }
    assert list == [list[0]] + list[1..];
  }

  /** Cleanup takes the rules oldest first: each of its turns frees the oldest rule in the list, and
      takes no other out of it. */
  lemma CleanupTakesOldest(states: seq<State>, actions: seq<Action>, k: nat)
    requires IsRun(states, actions) && k < |actions| && actions[k] == Cleanup
    ensures exists p :: p in states[k].reg.linked && (forall q :: q in states[k].reg.linked ==> p <= q)
                        && states[k + 1].reg.freed == states[k].reg.freed + [p]
                        && forall q :: q in states[k + 1].reg.linked <==> q in states[k].reg.linked && q != p
  {
    ListInRun(states, actions, k);
    CleanupStep(states[k]);
    OldestIsFirst(states[k].reg.linked);
    assert states[k].reg.linked[0] in states[k].reg.linked;
  }

  lemma CleanupStep(s: State)
    requires Enabled(s, Cleanup)
    ensures var s' := Apply(s, Cleanup);
            s'.reg.freed == s.reg.freed + [s.reg.linked[0]] && s'.reg.linked == s.reg.linked[1..]
  {
  }

  // -------------------------------------------------------- to the very end

  lemma Goes(h: Run, a: Action) returns (h': Run)
    requires IsRun(h.states, h.actions) && Enabled(Last(h), a)
    ensures IsRun(h'.states, h'.actions) && Continues(h, h')
    ensures |h'.actions| == |h.actions| + 1 && Last(h') == Apply(Last(h), a)
  {
    h' := Then(h, a, Apply(Last(h), a));
    ThenIsRun(h, a, Apply(Last(h), a));
  }

  /** The wake-up of the last call that is still due. */
  function WakeDue(s: P.State): nat {
    if s.stage.UnloadParked? && s.unloadArmed then 1 else 0
  }

  lemma WaitTurn(s: State) returns (a: Action)
    requires Inv(s) && PU.Waits(s.prot) && s.prot.active == 0
    ensures Enabled(s, a)
    ensures var s' := Apply(s, a);
            && Ends(s'.prot) && s'.prot.active == 0 && s'.reg == s.reg
            && PU.UnloadLeft(s'.prot) + WakeDue(s'.prot) < PU.UnloadLeft(s.prot) + WakeDue(s.prot)
  {
    FlusherKnown(s);
    var p := PU.UnloadProceeds(s.prot);
    PU.UnloadNears(s.prot, p);
    a := Protocol(p);
  }

  /** Goes on from h with at most so many steps. */
  ghost predicate EndsWithin(h: Run, h': Run, steps: int) {
    IsRun(h'.states, h'.actions) && Continues(h, h') && |h'.actions| <= |h.actions| + steps
  }

  lemma EndsWithinBoth(h: Run, m: Run, h': Run, first: int, second: int, all: int)
    requires EndsWithin(h, m, first) && EndsWithin(m, h', second) && first + second <= all
    ensures EndsWithin(h, h', all)
  {
    ContinuesOn(h, m, h');
  }

  lemma {:induction false} ToQuiescent(h: Run, left: nat) returns (h': Run)
    requires IsRun(h.states, h.actions) && Ends(Last(h).prot)
    requires PU.Waits(Last(h).prot) ==> Last(h).prot.active == 0
    requires left == PU.UnloadLeft(Last(h).prot) + WakeDue(Last(h).prot)
    ensures EndsWithin(h, h', left) && Last(h').prot.stage.Quiescent? && Last(h').reg == Last(h).reg
    decreases left
  {
    if PU.Waits(Last(h).prot) {
      InvAtLast(h);
      var a := WaitTurn(Last(h));
      var m := Goes(h, a);
      var rest := PU.UnloadLeft(Last(m).prot) + WakeDue(Last(m).prot);
      h' := ToQuiescent(m, rest);
      EndsWithinBoth(h, m, h', 1, rest, left);
    } else {
      h' := h;
    }
  }

  lemma CleansUp(s: State) returns (a: Action)
    requires s.prot.stage.Quiescent?
    ensures Enabled(s, a)
    ensures if s.reg.linked == [] then a == FinishUnload && Apply(s, a).prot.stage.Unloaded? && Apply(s, a).reg == s.reg
            else a == Cleanup && Apply(s, a).prot == s.prot && Apply(s, a).reg.linked == s.reg.linked[1..]
  {
    a := if s.reg.linked == [] then FinishUnload else Cleanup;
  }

  lemma {:induction false} ToUnloaded(h: Run, rules: nat) returns (h': Run)
    requires IsRun(h.states, h.actions) && Last(h).prot.stage.Quiescent? && |Last(h).reg.linked| == rules
    ensures EndsWithin(h, h', rules + 1) && Last(h').prot.stage.Unloaded?
    decreases rules
  {
    var a := CleansUp(Last(h));
    var m := Goes(h, a);
    if rules == 0 {
      h' := m;
    } else {
      h' := ToUnloaded(m, rules - 1);
      EndsWithinBoth(h, m, h', 1, rules, rules + 1);
    }
  }

  /** From every state in which the timer is deleted and nobody is inside, unloading can run to its
      end: in at most four steps (the wake-up of the last call included) the unloader has found nobody
      inside, and after as many more as there are rules, and one, the module is unloaded, every rule
      ever added has been freed, and only the list head is left. */
  lemma UnloadingEnds(h: Run) returns (h': Run)
    requires IsRun(h.states, h.actions) && Ends(Last(h).prot)
    requires PU.Waits(Last(h).prot) ==> Last(h).prot.active == 0
    ensures EndsWithin(h, h', 4 + |Last(h).reg.linked| + 1) && Last(h').prot.stage.Unloaded?
    ensures forall p :: 1 <= p <= Last(h').reg.last ==> p in Last(h').reg.freed
    ensures Last(h').reg.mem.Keys == {R.HEAD}
  {
    var left := PU.UnloadLeft(Last(h).prot) + WakeDue(Last(h).prot);
    var rules := |Last(h).reg.linked|;
    var m := ToQuiescent(h, left);
    h' := ToUnloaded(m, rules);
    EndsWithinBoth(h, m, h', left, rules + 1, 4 + rules + 1);
    EveryRuleFreedOnce(h'.states, h'.actions, |h'.actions|);
  }
}
