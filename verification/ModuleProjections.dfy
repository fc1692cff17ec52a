/**
 What the two parts of the module prove of themselves holds in the module: the
 protocol's steps of every run form a run of the protocol, and the list's steps a
 run of the list.
 */
module ModuleProjections {
  import opened CTypes
  import opened Rules
  import opened ModuleRun
  import opened ModuleVerdicts
  import R = RcuRegistry
  import RR = RcuRuns
  import P = WrapperProtocol
  import PS = WrapperSafety
  import PR = WrapperRuns
  import PW = WrapperRecords

  // ------------------------------------------------------------ the protocol

  /** Steps of the protocol among the first k, in order. */
  datatype ProtocolRun = ProtocolRun(at: seq<nat>, states: seq<P.State>, actions: seq<P.Action>)

  ghost predicate ProtocolStepAt(states: seq<State>, actions: seq<Action>, m: nat) {
    m < |actions| < |states| && Enabled(states[m], actions[m]) && ProtocolPart(states[m], actions[m]).Some?
  }

  /** The x-th step of h is the protocol's part of step at[x]. */
  ghost predicate ProtocolAgrees(states: seq<State>, actions: seq<Action>, h: ProtocolRun, x: nat)
    requires x < |h.at| == |h.actions| < |h.states|
  {
    var m := h.at[x];
    && ProtocolStepAt(states, actions, m)
    && ProtocolPart(states[m], actions[m]) == Some(h.actions[x])
    && h.states[x] == states[m].prot
  }

  ghost predicate Ascending(at: seq<nat>) {
    forall x, y :: 0 <= x < y < |at| ==> at[x] < at[y]
  }

  lemma AscendingGrows(at: seq<nat>, k: nat)
    requires Ascending(at) && forall m :: m in at ==> m < k
    ensures Ascending(at + [k]) && forall m :: m in at + [k] <==> m in at || m == k
  {
    forall x | 0 <= x < |at| ensures at[x] < k {
      assert at[x] in at;
    }
    assert (at + [k])[|at|] == k;
  }

  /** h is what the protocol sees of the run up to state k. */
  ghost predicate ProjectsProtocol(states: seq<State>, actions: seq<Action>, k: nat, h: ProtocolRun) {
    && k < |states| && |h.at| == |h.actions| == |h.states| - 1
    && h.states[|h.actions|] == states[k].prot
    && Ascending(h.at) && (forall m :: m in h.at ==> m < k)
    && (forall x :: 0 <= x < |h.at| ==> ProtocolAgrees(states, actions, h, x))
    && (forall m: nat :: m < k && ProtocolStepAt(states, actions, m) ==> m in h.at)
  }

  lemma ProtocolRunGrows(ps: seq<P.State>, pa: seq<P.Action>, p: P.Action, s': P.State)
    requires P.IsRun(ps, pa) && P.Enabled(ps[|pa|], p) && s' == P.Apply(ps[|pa|], p)
    ensures P.IsRun(ps + [s'], pa + [p])
  {
  }

  function ProtocolThen(h: ProtocolRun, m: nat, p: P.Action, s': P.State): ProtocolRun {
    ProtocolRun(h.at + [m], h.states + [s'], h.actions + [p])
  }

  lemma ProtocolTakes(states: seq<State>, actions: seq<Action>, k: nat, h: ProtocolRun, p: P.Action)
    requires ProjectsProtocol(states, actions, k, h) && ProtocolStepAt(states, actions, k)
    requires k + 1 < |states| && ProtocolPart(states[k], actions[k]) == Some(p)
    ensures ProjectsProtocol(states, actions, k + 1, ProtocolThen(h, k, p, states[k + 1].prot))
  {
    var h' := ProtocolThen(h, k, p, states[k + 1].prot);
    forall x | 0 <= x < |h'.at| ensures ProtocolAgrees(states, actions, h', x) {
      if x < |h.at| {
        assert ProtocolAgrees(states, actions, h, x);
      }
    }
    AscendingGrows(h.at, k);
  }

  lemma ProtocolSkips(states: seq<State>, actions: seq<Action>, k: nat, h: ProtocolRun)
    requires ProjectsProtocol(states, actions, k, h) && !ProtocolStepAt(states, actions, k)
    requires k + 1 < |states| && states[k + 1].prot == states[k].prot
    ensures ProjectsProtocol(states, actions, k + 1, h)
  {
  }

  lemma ProtocolStepInRun(states: seq<State>, actions: seq<Action>, k: nat)
    requires IsRun(states, actions) && k < |actions|
    ensures ProtocolStepAt(states, actions, k) <==> ProtocolPart(states[k], actions[k]).Some?
    ensures match ProtocolPart(states[k], actions[k])
            case Some(p) => P.Enabled(states[k].prot, p) && states[k + 1].prot == P.Apply(states[k].prot, p)
            case None => states[k + 1].prot == states[k].prot
  {
    RunKeepsInv(states, actions, k);
    StepKeepsProtocol(states[k], actions[k]);
  }

  lemma ProtocolProjectionStep(states: seq<State>, actions: seq<Action>, k: nat, h: ProtocolRun)
    returns (h': ProtocolRun)
    requires IsRun(states, actions) && k < |actions|
    requires P.IsRun(h.states, h.actions) && ProjectsProtocol(states, actions, k, h)
    ensures P.IsRun(h'.states, h'.actions) && ProjectsProtocol(states, actions, k + 1, h')
  {
    ProtocolStepInRun(states, actions, k);
    match ProtocolPart(states[k], actions[k])
    case Some(p) =>
      ProtocolRunGrows(h.states, h.actions, p, states[k + 1].prot);
      ProtocolTakes(states, actions, k, h, p);
      h' := ProtocolThen(h, k, p, states[k + 1].prot);
    case None =>
      ProtocolSkips(states, actions, k, h);
      h' := h;
  }

  /** The protocol's steps of every run of the module form a run of the protocol, in the same states
      and the same order, and no step of it is left out. */
  lemma {:induction false} ProtocolProjection(states: seq<State>, actions: seq<Action>, k: nat) returns (h: ProtocolRun)
    requires IsRun(states, actions) && k < |states|
    ensures P.IsRun(h.states, h.actions) && ProjectsProtocol(states, actions, k, h)
  {
    if k == 0 {
      h := ProtocolRun([], [P.START], []);
    } else {
      var before := ProtocolProjection(states, actions, k - 1);
      h := ProtocolProjectionStep(states, actions, k - 1, before);
    }
  }

  /** Counter accounting in the whole module. */
  lemma CountersAreExact(states: seq<State>, actions: seq<Action>, k: nat)
    requires IsRun(states, actions) && k < |states|
    ensures var s := states[k].prot;
            && s.active == |set t | t in s.threads && !s.threads[t].pc.Waking?|
            && s.blocked == |set t | t in s.threads && PS.CountsBlocked(s.threads[t].pc)|
            && 0 <= s.blocked <= s.active
  {
    var h := ProtocolProjection(states, actions, k);
    PR.CounterAccounting(h.states, h.actions, |h.actions|);
  }

  /** Queue and threads in the whole module. */
  lemma QueueIsOfWaiters(states: seq<State>, actions: seq<Action>, k: nat)
    requires IsRun(states, actions) && k < |states|
    ensures var s := states[k].prot;
            && (forall t :: t in s.threads && PS.Live(s.threads[t]) ==> t in s.queue)
            && (forall i, j :: 0 <= i < j < |s.queue| ==> s.queue[i] != s.queue[j])
            && (s.alwaysOn ==>
                  && s.queue == PS.LiveOnly(s.enqueued, s.threads)
                  && forall t :: t in s.queue <==> t in s.threads && PS.Live(s.threads[t]))
  {
    var h := ProtocolProjection(states, actions, k);
    PR.QueueMatchesThreads(h.states, h.actions, |h.actions|);
  }

  /** The unloader of the whole module is never asleep at count zero without a wake-up on its way. */
  lemma UnloaderWakes(states: seq<State>, actions: seq<Action>, k: nat)
    requires IsRun(states, actions) && k < |states|
    requires var s := states[k].prot; s.stage.UnloadParked? && s.unloadArmed && s.active == 0
    ensures exists t :: Enabled(states[k], Protocol(P.WakeUnloader(t)))
                        && !Apply(states[k], Protocol(P.WakeUnloader(t))).prot.unloadArmed
  {
    var h := ProtocolProjection(states, actions, k);
    PR.UnloaderIsWoken(h.states, h.actions, |h.actions|);
    var t :| P.Enabled(states[k].prot, P.WakeUnloader(t)) && !P.Apply(states[k].prot, P.WakeUnloader(t)).unloadArmed;
    assert Enabled(states[k], Protocol(P.WakeUnloader(t)));
  }

  // ----------------------------------------------------------------- records

  ghost predicate LeavesEntryAt(states: seq<State>, actions: seq<Action>, m: nat, t: P.Tid) {
    && ProtocolStepAt(states, actions, m)
    && PW.LeavesEntry(states[m].prot, ProtocolPart(states[m], actions[m]).value, t)
  }

  ghost predicate SweepsAt(states: seq<State>, actions: seq<Action>, m: nat, t: P.Tid) {
    && ProtocolStepAt(states, actions, m)
    && var p := ProtocolPart(states[m], actions[m]).value;
    && P.Enabled(states[m].prot, p)
    && PW.Sweeps(states[m].prot, p, t)
  }

  /** Call t left its entry at step m of the module, and no sweep has taken it out up to state k. */
  ghost predicate LeftAt(states: seq<State>, actions: seq<Action>, m: nat, k: nat, t: P.Tid) {
    && m < k && LeavesEntryAt(states, actions, m, t)
    && forall j: nat :: m < j < k ==> !SweepsAt(states, actions, j, t)
  }

  lemma StepInProjection(states: seq<State>, actions: seq<Action>, k: nat, h: ProtocolRun, x: nat, t: P.Tid)
    requires ProjectsProtocol(states, actions, k, h) && P.IsRun(h.states, h.actions) && x < |h.at|
    ensures LeavesEntryAt(states, actions, h.at[x], t) <==> PW.LeavesEntry(h.states[x], h.actions[x], t)
    ensures SweepsAt(states, actions, h.at[x], t) <==>
            P.Enabled(h.states[x], h.actions[x]) && PW.Sweeps(h.states[x], h.actions[x], t)
  {
    assert ProtocolAgrees(states, actions, h, x);
  }

  lemma StepIsProjected(states: seq<State>, actions: seq<Action>, k: nat, h: ProtocolRun, m: nat) returns (x: nat)
    requires ProjectsProtocol(states, actions, k, h) && m < k && ProtocolStepAt(states, actions, m)
    ensures x < |h.at| && h.at[x] == m
  {
    x :| x < |h.at| && h.at[x] == m;
  }

  lemma LeftInProjection(states: seq<State>, actions: seq<Action>, k: nat, h: ProtocolRun, x: nat, t: P.Tid)
    requires ProjectsProtocol(states, actions, k, h) && P.IsRun(h.states, h.actions)
    requires PW.EntryLeftAt(h.states, h.actions, x, |h.actions|, t)
    ensures LeftAt(states, actions, h.at[x], k, t)
  {
    StepInProjection(states, actions, k, h, x, t);
    assert h.at[x] in h.at;
    forall j: nat | h.at[x] < j < k ensures !SweepsAt(states, actions, j, t) {
      if ProtocolStepAt(states, actions, j) {
        var y := StepIsProjected(states, actions, k, h, j);
        StepInProjection(states, actions, k, h, y, t);
      }
    }
  }

  lemma LeftFromProjection(states: seq<State>, actions: seq<Action>, k: nat, h: ProtocolRun, m: nat, t: P.Tid)
    returns (x: nat)
    requires ProjectsProtocol(states, actions, k, h) && P.IsRun(h.states, h.actions)
    requires LeftAt(states, actions, m, k, t)
    ensures PW.EntryLeftAt(h.states, h.actions, x, |h.actions|, t)
  {
    x := StepIsProjected(states, actions, k, h, m);
    StepInProjection(states, actions, k, h, x, t);
    forall y | x < y < |h.actions| ensures !PW.Sweeps(h.states[y], h.actions[y], t) {
      StepInProjection(states, actions, k, h, y, t);
      assert h.at[x] < h.at[y] && h.at[y] in h.at;
      assert !SweepsAt(states, actions, h.at[y], t);
    }
  }

  /** Which steps of the whole module touch the record of a call that waits no longer: those that
      touch an entry that was left and not swept since. */
  lemma StaleTouches(states: seq<State>, actions: seq<Action>, k: nat, t: P.Tid)
    requires IsRun(states, actions) && ProtocolStepAt(states, actions, k)
    requires P.Enabled(states[k].prot, ProtocolPart(states[k], actions[k]).value)
    requires t in PW.Touched(states[k].prot, ProtocolPart(states[k], actions[k]).value)
    ensures !PS.LiveIn(states[k].prot.threads, t) <==> exists m :: LeftAt(states, actions, m, k, t)
  {
    var h := ProtocolProjection(states, actions, k);
    PW.TouchedIsQueued(states[k].prot, ProtocolPart(states[k], actions[k]).value);
    if !PS.LiveIn(states[k].prot.threads, t) {
      PW.StaleEntryExactly(h.states, h.actions, |h.actions|, t);
      var x :| PW.EntryLeftAt(h.states, h.actions, x, |h.actions|, t);
      LeftInProjection(states, actions, k, h, x, t);
    }
    if m :| LeftAt(states, actions, m, k, t) {
      var x := LeftFromProjection(states, actions, k, h, m, t);
      PW.LeftEntryStays(h.states, h.actions, x, |h.actions|, t);
    }
  }

  // ---------------------------------------------------------------- the list

  /** Steps of the list among the first k, in order. */
  datatype ListRun = ListRun(at: seq<nat>, states: seq<R.State>, actions: seq<R.Action>)

  ghost predicate ListStepAt(states: seq<State>, actions: seq<Action>, m: nat) {
    m < |actions| < |states| && Enabled(states[m], actions[m]) && RegistryPart(states[m], actions[m]).Some?
  }

  /** The x-th step of h is the list's part of step at[x]. */
  ghost predicate ListAgrees(states: seq<State>, actions: seq<Action>, h: ListRun, x: nat)
    requires x < |h.at| == |h.actions| < |h.states|
  {
    var m := h.at[x];
    && ListStepAt(states, actions, m)
    && RegistryPart(states[m], actions[m]) == Some(h.actions[x])
    && h.states[x] == states[m].reg
  }

  /** h is what the list sees of the run up to state k. */
  ghost predicate ProjectsList(states: seq<State>, actions: seq<Action>, k: nat, h: ListRun) {
    && k < |states| && |h.at| == |h.actions| == |h.states| - 1
    && h.states[|h.actions|] == states[k].reg
    && Ascending(h.at) && (forall m :: m in h.at ==> m < k)
    && (forall x :: 0 <= x < |h.at| ==> ListAgrees(states, actions, h, x))
    && (forall m: nat :: m < k && ListStepAt(states, actions, m) ==> m in h.at)
  }

  lemma ListRunGrows(rs: seq<R.State>, ra: seq<R.Action>, r: R.Action, s': R.State)
    requires RR.IsRun(rs, ra) && R.Enabled(rs[|ra|], r) && s' == R.Apply(rs[|ra|], r)
    requires r.Reclaim? ==> rs[|ra|].readers == map[]
    ensures RR.IsRun(rs + [s'], ra + [r])
  {
  }

  function ListThen(h: ListRun, m: nat, r: R.Action, s': R.State): ListRun {
    ListRun(h.at + [m], h.states + [s'], h.actions + [r])
  }

  lemma ListTakes(states: seq<State>, actions: seq<Action>, k: nat, h: ListRun, r: R.Action)
    requires ProjectsList(states, actions, k, h) && ListStepAt(states, actions, k)
    requires k + 1 < |states| && RegistryPart(states[k], actions[k]) == Some(r)
    ensures ProjectsList(states, actions, k + 1, ListThen(h, k, r, states[k + 1].reg))
  {
    var h' := ListThen(h, k, r, states[k + 1].reg);
    forall x | 0 <= x < |h'.at| ensures ListAgrees(states, actions, h', x) {
      if x < |h.at| {
        assert ListAgrees(states, actions, h, x);
      }
    }
    AscendingGrows(h.at, k);
  }

  lemma ListSkips(states: seq<State>, actions: seq<Action>, k: nat, h: ListRun)
    requires ProjectsList(states, actions, k, h) && !ListStepAt(states, actions, k)
    requires k + 1 < |states| && states[k + 1].reg == states[k].reg
    ensures ProjectsList(states, actions, k + 1, h)
  {
  }

  /** What the list requires of its steps. */
  ghost predicate ListStep(s: R.State, r: R.Action, s': R.State) {
    R.Enabled(s, r) && s' == R.Apply(s, r) && (r.Reclaim? ==> s.readers == map[])
  }

  lemma ListStepOf(s: State, a: Action, s': State)
    requires PS.UnloadInv(s.prot) && Coupled(s) && Enabled(s, a) && s' == Apply(s, a)
    ensures match RegistryPart(s, a)
            case Some(r) => ListStep(s.reg, r, s'.reg)
            case None => s'.reg == s.reg
  {
    RegistryStep(s, a);
    if RegistryPart(s, a) == Some(R.Reclaim) {
      CleanupIsDrained(s, a);
    }
  }

  lemma CoupledInRun(states: seq<State>, actions: seq<Action>, k: nat)
    requires IsRun(states, actions) && k < |states|
    ensures PS.UnloadInv(states[k].prot) && Coupled(states[k])
  {
    RunKeepsInv(states, actions, k);
  }

  lemma ListStepInRun(states: seq<State>, actions: seq<Action>, k: nat)
    requires IsRun(states, actions) && k < |actions|
    ensures ListStepAt(states, actions, k) <==> RegistryPart(states[k], actions[k]).Some?
    ensures match RegistryPart(states[k], actions[k])
            case Some(r) => ListStep(states[k].reg, r, states[k + 1].reg)
            case None => states[k + 1].reg == states[k].reg
  {
    CoupledInRun(states, actions, k);
    ListStepOf(states[k], actions[k], states[k + 1]);
  }

  lemma ListProjectionStep(states: seq<State>, actions: seq<Action>, k: nat, h: ListRun) returns (h': ListRun)
    requires IsRun(states, actions) && k < |actions|
    requires RR.IsRun(h.states, h.actions) && ProjectsList(states, actions, k, h)
    ensures RR.IsRun(h'.states, h'.actions) && ProjectsList(states, actions, k + 1, h')
  {
    ListStepInRun(states, actions, k);
    match RegistryPart(states[k], actions[k])
    case Some(r) =>
      ListRunGrows(h.states, h.actions, r, states[k + 1].reg);
      ListTakes(states, actions, k, h, r);
      h' := ListThen(h, k, r, states[k + 1].reg);
    case None =>
      ListSkips(states, actions, k, h);
      h' := h;
  }

  /** The list's steps of every run of the module form a run of the list, which frees at once only
      when no section is open. */
  lemma {:induction false} ListProjection(states: seq<State>, actions: seq<Action>, k: nat) returns (h: ListRun)
    requires IsRun(states, actions) && k < |states|
    ensures RR.IsRun(h.states, h.actions) && ProjectsList(states, actions, k, h)
  {
    if k == 0 {
      h := ListRun([], [R.EMPTY], []);
    } else {
      var before := ListProjection(states, actions, k - 1);
      h := ListProjectionStep(states, actions, k - 1, before);
    }
  }

  /** In the whole module, too, nothing a reader stands on or can reach by `next` has been freed. */
  lemma ReachableIsAllocated(states: seq<State>, actions: seq<Action>, k: nat, r: R.Tid, path: seq<R.Ptr>)
    requires IsRun(states, actions) && k < |states|
    requires r in states[k].reg.readers && |path| > 0 && path[0] == R.Cursor(states[k].reg.readers[r])
    requires forall i :: 0 <= i < |path| - 1 ==> R.Next(states[k].reg, path[i]) == path[i + 1]
    ensures forall p :: p in path ==> p in states[k].reg.mem && p !in states[k].reg.freed
  {
    var h := ListProjection(states, actions, k);
    RR.SafeReclamation(h.states, h.actions, |h.actions|, r, path);
  }

  /** Reader r is inside one read-side section between states i + 1 and j of the module. */
  ghost predicate InSection(states: seq<State>, actions: seq<Action>, r: R.Tid, walk: R.Walk, i: nat, j: nat) {
    && IsRun(states, actions) && i < j < |states|
    && RegistryPart(states[i], actions[i]) == Some(R.Begin(r, walk))
    && forall k :: i < k < j ==> RegistryPart(states[k], actions[k]) != Some(R.End(r))
  }

  lemma SectionProjects(states: seq<State>, actions: seq<Action>, r: R.Tid, walk: R.Walk, i: nat, j: nat)
    returns (h: ListRun, x: nat)
    requires InSection(states, actions, r, walk, i, j)
    ensures RR.InSection(h.states, h.actions, r, walk, x, |h.actions|)
    ensures ProjectsList(states, actions, j, h) && h.at[x] == i
    ensures h.states[x] == states[i].reg && h.states[|h.actions|] == states[j].reg
  {
    h := ListProjection(states, actions, j);
    assert ListStepAt(states, actions, i);
    x :| x < |h.at| && h.at[x] == i;
    assert ListAgrees(states, actions, h, x);
    forall y | x < y < |h.actions| ensures h.actions[y] != R.End(r) {
      assert ListAgrees(states, actions, h, y);
      assert h.at[x] < h.at[y] && h.at[y] in h.at;
    }
  }

  /** A finished reset of the timer has visited every rule that was in the list at both its ends. */
  lemma TimerResetsAll(states: seq<State>, actions: seq<Action>, i: nat, j: nat, n: R.Ptr)
    requires InSection(states, actions, TIMER, R.ZeroAll, i, j) && HasFinished(states[j].reg, TIMER)
    requires n in states[i].reg.linked && n in states[j].reg.linked
    ensures n in states[j].reg.readers[TIMER].visited
  {
    var h, x := SectionProjects(states, actions, TIMER, R.ZeroAll, i, j);
    RR.ResetReachesEveryStableRule(h.states, h.actions, TIMER, x, |h.actions|, n);
  }

  /** A verdict over which the list did not lose its pick and gained nothing is the first-match
      policy's on the list. */
  lemma QuietVerdictIsFirstMatch(states: seq<State>, actions: seq<Action>, r: R.Tid, call: Call, i: nat, j: nat)
    requires InSection(states, actions, r, R.Charge(call), i, j) && HasFinished(states[j].reg, r)
    requires var hit := states[j].reg.readers[r].phase.hit; hit == R.HEAD || hit in states[j].reg.linked
    requires forall n :: n in states[j].reg.linked ==> n in states[i].reg.linked
    ensures R.Cells(states[j].reg)
    ensures var s := states[j].reg; R.CellAt(s.linked, FirstMatch(RR.LinkedRules(s), call)) == s.readers[r].phase.hit
  {
    var h, x := SectionProjects(states, actions, r, R.Charge(call), i, j);
    RR.QuietSectionIsFirstMatch(h.states, h.actions, r, call, x, |h.actions|);
  }
}
