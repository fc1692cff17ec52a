/**
 The order of steps in the whole module: what a tick does to the counters, which
 statistics a call records, which rule a command takes, and how unloading ends.
 */
module ModulePrograms {
  import opened CTypes
  import opened Rules
  import opened ModuleRun
  import opened ModuleVerdicts
  import opened ModuleTokens
  import opened ModuleProjections
  import R = RcuRegistry
  import RR = RcuRuns
  import RW = RcuWriters
  import P = WrapperProtocol
  import PS = WrapperSafety
  import PR = WrapperRuns
  import PP = WrapperPrograms
  import PT = WrapperTicks
  import PU = WrapperUnload

  // ------------------------------------------------------------------- ticks

  lemma SectionStep(s: State, a: Action, s': State, r: R.Tid)
    requires Enabled(s, a) && s' == Apply(s, a) && r in s'.reg.readers
    ensures RegistryPart(s, a) != Some(R.End(r))
    ensures RegistryPart(s, a) == Some(R.Begin(r, s'.reg.readers[r].walk))
            || (r in s.reg.readers && s.reg.readers[r].walk == s'.reg.readers[r].walk)
  {
    RegistryStep(s, a);
    if RegistryPart(s, a).Some? {
      WalkKeepsCall(s.reg, RegistryPart(s, a).value);
    }
  }

  /** Step m does not end the section of reader r. */
  ghost predicate LeavesOpen(states: seq<State>, actions: seq<Action>, m: nat, r: R.Tid) {
    m < |actions| < |states| && Enabled(states[m], actions[m]) && RegistryPart(states[m], actions[m]) != Some(R.End(r))
  }

  ghost predicate Opens(states: seq<State>, actions: seq<Action>, m: nat, r: R.Tid, walk: R.Walk) {
    && m < |actions| < |states| && Enabled(states[m], actions[m])
    && RegistryPart(states[m], actions[m]) == Some(R.Begin(r, walk))
  }

  ghost predicate IsOpen(s: R.State, r: R.Tid, walk: R.Walk) {
    r in s.readers && s.readers[r].walk == walk
  }

  lemma SectionInRun(states: seq<State>, actions: seq<Action>, j: nat, r: R.Tid, walk: R.Walk)
    requires IsRun(states, actions) && 0 < j < |states| && IsOpen(states[j].reg, r, walk)
    ensures LeavesOpen(states, actions, j - 1, r)
    ensures Opens(states, actions, j - 1, r, walk) || IsOpen(states[j - 1].reg, r, walk)
  {
    SectionStep(states[j - 1], actions[j - 1], states[j], r);
  }

  /** A section that is open now and was not at state f has begun in between. */
  lemma {:induction false} BeganSince(states: seq<State>, actions: seq<Action>, f: nat, j: nat, r: R.Tid, walk: R.Walk)
    returns (i: nat)
    requires IsRun(states, actions) && f <= j < |states|
    requires r !in states[f].reg.readers && IsOpen(states[j].reg, r, walk)
    ensures f <= i && StaysOpen(states, actions, r, walk, i, j)
  {
    SectionInRun(states, actions, j, r, walk);
    if Opens(states, actions, j - 1, r, walk) {
      i := j - 1;
    } else {
      i := BeganSince(states, actions, f, j - 1, r, walk);
    }
  }

  /** The section of reader r that began at step i is open up to state j. */
  ghost predicate StaysOpen(states: seq<State>, actions: seq<Action>, r: R.Tid, walk: R.Walk, i: nat, j: nat) {
    i < j && Opens(states, actions, i, r, walk) && forall m :: i < m < j ==> LeavesOpen(states, actions, m, r)
  }

  lemma OpenIsSection(states: seq<State>, actions: seq<Action>, r: R.Tid, walk: R.Walk, i: nat, j: nat)
    requires IsRun(states, actions) && j < |states| && StaysOpen(states, actions, r, walk, i, j)
    ensures InSection(states, actions, r, walk, i, j)
  {
    forall m | i < m < j ensures RegistryPart(states[m], actions[m]) != Some(R.End(r)) {
      assert LeavesOpen(states, actions, m, r);
    }
  }

  /** Step y of the projection is step h.at[y] of the module. */
  lemma TurnsOfTick(states: seq<State>, actions: seq<Action>, k: nat, h: ProtocolRun, y: nat)
    requires IsRun(states, actions) && ProjectsProtocol(states, actions, k, h) && y < |h.at|
    ensures h.at[y] < k && h.at[y] < |actions|
    ensures h.actions[y] == P.TimerFire <==> actions[h.at[y]] == Protocol(P.TimerFire)
    ensures h.actions[y] == P.TimerReset <==> actions[h.at[y]] == EndReset
  {
    assert ProtocolAgrees(states, actions, h, y);
    assert h.at[y] in h.at;
  }

  lemma FireIsProjected(states: seq<State>, actions: seq<Action>, k: nat, h: ProtocolRun, m: nat) returns (y: nat)
    requires IsRun(states, actions) && ProjectsProtocol(states, actions, k, h)
    requires m < k && m < |actions| && actions[m] == Protocol(P.TimerFire)
    ensures y < |h.at| && h.at[y] == m && h.actions[y] == P.TimerFire
  {
    assert ProtocolStepAt(states, actions, m);
    y := StepIsProjected(states, actions, k, h, m);
    TurnsOfTick(states, actions, k, h, y);
  }

  lemma NoFireBetween(states: seq<State>, actions: seq<Action>, k: nat, h: ProtocolRun, x: PT.Tick, m: nat)
    requires IsRun(states, actions) && ProjectsProtocol(states, actions, k, h)
    requires PT.HasReset(h.actions, |h.actions|, x) && PT.NoTimerStep(h.actions, x.reset + 1, |h.actions|)
    requires h.at[x.fire] < m < k && m < |actions|
    ensures actions[m] != Protocol(P.TimerFire)
  {
    if actions[m] == Protocol(P.TimerFire) {
      var y := FireIsProjected(states, actions, k, h, m);
      assert false;
    }
  }

  lemma ReadsAtEnd(states: seq<State>, actions: seq<Action>, j: nat)
    requires IsRun(states, actions) && j < |actions| && actions[j] == EndReset
    ensures IsOpen(states[j].reg, TIMER, R.ZeroAll) && HasFinished(states[j].reg, TIMER)
  {
    OnBehalfInRun(states, actions, j);
  }

  lemma ReadsNothingAtFire(states: seq<State>, actions: seq<Action>, f: nat)
    requires IsRun(states, actions) && f < |actions| && actions[f] == Protocol(P.TimerFire)
    ensures TIMER !in states[f].reg.readers
  {
    CoupledInRun(states, actions, f);
  }

  lemma OpensByBeginReset(states: seq<State>, actions: seq<Action>, f: nat, i: nat)
    requires Opens(states, actions, i, TIMER, R.ZeroAll) && f < |actions| && actions[f] == Protocol(P.TimerFire)
    ensures actions[i] == BeginReset && i != f
  {
  }

  /** Where the tick fired and where its reset ended. */
  lemma TickEnds(states: seq<State>, actions: seq<Action>, k: nat) returns (f: nat, j: nat)
    requires IsRun(states, actions) && k < |actions| && actions[k] == Protocol(P.TimerLock)
    ensures f < j < k && actions[f] == Protocol(P.TimerFire) && actions[j] == EndReset
    ensures forall m :: f < m < k ==> actions[m] != Protocol(P.TimerFire)
  {
    var h := ProtocolProjection(states, actions, k);
    var x := PT.TickSoFar(h.states, h.actions, |h.actions|);
    f, j := h.at[x.fire], h.at[x.reset];
    TurnsOfTick(states, actions, k, h, x.fire);
    TurnsOfTick(states, actions, k, h, x.reset);
    forall m | f < m < k ensures actions[m] != Protocol(P.TimerFire) {
      NoFireBetween(states, actions, k, h, x, m);
    }
  }

  /** Where the reset that ends at step j has begun, after the timer fired at step f. */
  lemma ResetSince(states: seq<State>, actions: seq<Action>, f: nat, j: nat) returns (i: nat)
    requires IsRun(states, actions) && f < j < |actions|
    requires actions[f] == Protocol(P.TimerFire) && actions[j] == EndReset
    ensures f < i < j && actions[i] == BeginReset && StaysOpen(states, actions, TIMER, R.ZeroAll, i, j)
  {
    ReadsAtEnd(states, actions, j);
    ReadsNothingAtFire(states, actions, f);
    i := BeganSince(states, actions, f, j, TIMER, R.ZeroAll);
    OpensByBeginReset(states, actions, f, i);
  }

  lemma ZeroingIsProjected(states: seq<State>, actions: seq<Action>, j: nat, h: ListRun, y: nat, n: R.Ptr)
    requires IsRun(states, actions) && ProjectsList(states, actions, j, h) && y < |h.at|
    requires RR.Zeroes(h.states[y], h.actions[y], n)
    ensures h.at[y] < j && h.at[y] < |actions|
    ensures ZeroesRule(states[h.at[y]], actions[h.at[y]], n)
  {
    assert ListAgrees(states, actions, h, y);
    assert h.at[y] in h.at;
    ZeroesInModule(states[h.at[y]], actions[h.at[y]], n);
  }

  lemma ZeroesInModule(s: State, a: Action, n: R.Ptr)
    requires Enabled(s, a) && RegistryPart(s, a).Some? && RR.Zeroes(s.reg, RegistryPart(s, a).value, n)
    ensures ZeroesRule(s, a, n)
  {
  }

  lemma ZeroedAfter(states: seq<State>, actions: seq<Action>, m: nat, n: R.Ptr)
    requires IsRun(states, actions) && m < |actions| && ZeroesRule(states[m], actions[m], n)
    ensures RR.CountOf(states[m + 1].reg, n) == Some(0)
  {
    ListInRun(states, actions, m);
    ZeroedStep(states[m], actions[m], n);
  }

  lemma ZeroedStep(s: State, a: Action, n: R.Ptr)
    requires R.Inv(s.reg) && Enabled(s, a) && ZeroesRule(s, a, n)
    ensures RR.CountOf(Apply(s, a).reg, n) == Some(0)
  {
    RR.ZeroingZeroes(s.reg, a.step, n);
  }

  /** The section of a reset zeroes each rule that stays in the list. */
  lemma SectionZeroes(states: seq<State>, actions: seq<Action>, r: R.Tid, i: nat, j: nat, n: R.Ptr) returns (m: nat)
    requires IsRun(states, actions) && j < |states| && StaysOpen(states, actions, r, R.ZeroAll, i, j)
    requires HasFinished(states[j].reg, r) && n in states[i].reg.linked && n in states[j].reg.linked
    ensures i < m < j && ZeroesRule(states[m], actions[m], n) && RR.CountOf(states[m + 1].reg, n) == Some(0)
  {
    OpenIsSection(states, actions, r, R.ZeroAll, i, j);
    var h, x := SectionProjects(states, actions, r, R.ZeroAll, i, j);
    var y := RR.ResetZeroesEveryStableRule(h.states, h.actions, r, x, |h.actions|, n);
    ZeroingIsProjected(states, actions, j, h, y, n);
    m := h.at[y];
    ZeroedAfter(states, actions, m, n);
  }

  /** Rule n is zeroed by a step between i and j. */
  ghost predicate ZeroedBetween(states: seq<State>, actions: seq<Action>, n: R.Ptr, i: nat, j: nat) {
    exists m :: i < m < j < |actions| < |states| && ZeroesRule(states[m], actions[m], n)
                && RR.CountOf(states[m + 1].reg, n) == Some(0)
  }

  /** The last tick before step k fired at step f and ended its reset at step j. */
  ghost predicate LastTick(actions: seq<Action>, k: nat, f: nat, j: nat) {
    && f < j < k <= |actions| && actions[f] == Protocol(P.TimerFire) && actions[j] == EndReset
    && forall m :: f < m < k ==> actions[m] != Protocol(P.TimerFire)
  }

  /** Every tick begins with a reset: before it locks the queue the timer has fired, walked over the
      rules from one end of a reset to the other, and set the counter of each rule that stayed in the
      list to zero. */
  lemma TickResetsCounters(states: seq<State>, actions: seq<Action>, k: nat) returns (f: nat, i: nat, j: nat)
    requires IsRun(states, actions) && k < |actions| && actions[k] == Protocol(P.TimerLock)
    ensures LastTick(actions, k, f, j)
    ensures f < i < j && actions[i] == BeginReset
    ensures forall n :: n in states[i].reg.linked && n in states[j].reg.linked ==>
              ZeroedBetween(states, actions, n, i, j)
  {
    f, j := TickEnds(states, actions, k);
    i := ResetSince(states, actions, f, j);
    ReadsAtEnd(states, actions, j);
    forall n | n in states[i].reg.linked && n in states[j].reg.linked
      ensures ZeroedBetween(states, actions, n, i, j)
    {
      var m := SectionZeroes(states, actions, TIMER, i, j, n);
    }
  }

  // -------------------------------------------------------------- statistics

  /** The call records something: the gauge or its delay. */
  predicate Records(a: Action, t: P.Tid) {
    a.RecordStats? && a.tid == t
  }

  /** Exactly one of the steps from i to j records something for the call. */
  ghost predicate RecordsOnce(actions: seq<Action>, i: nat, j: nat, t: P.Tid) {
    j <= |actions| && exists x :: i <= x < j && Records(actions[x], t)
                                  && forall y :: i <= y < j && Records(actions[y], t) ==> y == x
  }

  lemma OnceAt(actions: seq<Action>, i: nat, j: nat, t: P.Tid, x: nat)
    requires i <= x < j <= |actions| && Records(actions[x], t)
    requires forall y :: i <= y < j && Records(actions[y], t) ==> y == x
    ensures RecordsOnce(actions, i, j, t)
  {
  }

  lemma RecordIsStep(s: State, a: Action, t: P.Tid)
    requires Enabled(s, a)
    ensures Records(a, t) <==>
            ProtocolPart(s, a) == Some(P.Step(t, P.RecordGauge)) || ProtocolPart(s, a) == Some(P.Step(t, P.RecordDelay))
  {
  }

  /** What it records is recorded against the first rule in the list with its own number. */
  lemma RecordsAgainstOwn(states: seq<State>, actions: seq<Action>, m: nat, t: P.Tid)
    requires IsRun(states, actions) && m < |actions| && Records(actions[m], t)
    ensures t in states[m].caller && actions[m].num == states[m].caller[t].syscallNum
    ensures R.Cells(states[m].reg)
    ensures actions[m].index == FirstWithNumber(RR.LinkedRules(states[m].reg), actions[m].num)
  {
    CellsInRun(states, actions, m);
    RW.SearchIsFirst(states[m].reg, actions[m].num, actions[m].index);
  }

  /** Step y of the projection, as far as the call's statistics go. */
  lemma RecordOfStep(states: seq<State>, actions: seq<Action>, k: nat, h: ProtocolRun, y: nat, t: P.Tid)
    requires ProjectsProtocol(states, actions, k, h) && y < |h.at|
    ensures h.at[y] < k && h.at[y] < |actions|
    ensures Records(actions[h.at[y]], t) <==>
            h.actions[y] == P.Step(t, P.RecordGauge) || h.actions[y] == P.Step(t, P.RecordDelay)
  {
    assert ProtocolAgrees(states, actions, h, y);
    assert h.at[y] in h.at;
    RecordIsStep(states[h.at[y]], actions[h.at[y]], t);
  }

  lemma RecordIsProjected(states: seq<State>, actions: seq<Action>, k: nat, h: ProtocolRun, m: nat, t: P.Tid)
    returns (y: nat)
    requires IsRun(states, actions) && ProjectsProtocol(states, actions, k, h)
    requires m < k && m < |actions| && Records(actions[m], t)
    ensures y < |h.at| && h.at[y] == m
    ensures h.actions[y] == P.Step(t, P.RecordGauge) || h.actions[y] == P.Step(t, P.RecordDelay)
  {
    assert ProtocolStepAt(states, actions, m);
    y := StepIsProjected(states, actions, k, h, m);
    RecordOfStep(states, actions, k, h, y, t);
  }

  /** Step y of the projection is this protocol step of the module. */
  lemma PlainIsProjected(states: seq<State>, actions: seq<Action>, k: nat, h: ProtocolRun, m: nat, p: P.Action)
    returns (y: nat)
    requires IsRun(states, actions) && ProjectsProtocol(states, actions, k, h)
    requires m < k && m < |actions| && actions[m] == Protocol(p)
    ensures y < |h.at| && h.at[y] == m && h.actions[y] == p
  {
    assert ProtocolStepAt(states, actions, m);
    y := StepIsProjected(states, actions, k, h, m);
    assert ProtocolAgrees(states, actions, h, y);
  }

  /** The order of steps and the order of their places agree. */
  lemma PlacesAgree(at: seq<nat>, x: nat, y: nat)
    requires Ascending(at) && x < |at| && y < |at|
    ensures at[x] < at[y] <==> x < y
    ensures at[x] == at[y] <==> x == y
  {
  }

  ghost predicate Projects(states: seq<State>, actions: seq<Action>, k: nat, h: ProtocolRun) {
    P.IsRun(h.states, h.actions) && ProjectsProtocol(states, actions, k, h)
  }

  /** What records in the module before step q of the projection is the gauge. */
  lemma OnlyGaugeBefore(states: seq<State>, actions: seq<Action>, k: nat, h: ProtocolRun, q: nat, t: P.Tid, m: nat)
    returns (y: nat)
    requires IsRun(states, actions) && Projects(states, actions, k, h) && q < |h.at|
    requires h.actions[q] == P.Step(t, P.Enqueue)
    requires m < h.at[q] && m < k && m < |actions| && Records(actions[m], t)
    ensures y < q && h.at[y] == m && h.actions[y] == P.Step(t, P.RecordGauge)
  {
    y := RecordIsProjected(states, actions, k, h, m, t);
    PlacesAgree(h.at, y, q);
    PP.NoDelayBefore(h.states, h.actions, q, t, y);
  }

  lemma OnceIs(actions: seq<P.Action>, i: nat, j: nat, a: P.Action) returns (x: nat)
    requires PP.Once(actions, i, j, a)
    ensures i <= x < j <= |actions| && actions[x] == a
    ensures forall y :: i <= y < j && actions[y] == a ==> y == x
  {
    x :| i <= x < j && actions[x] == a && forall y :: i <= y < j && actions[y] == a ==> y == x;
  }

  /** The gauge, in the projection. */
  lemma GaugeInProjection(states: seq<State>, actions: seq<Action>, k: nat, h: ProtocolRun, q: nat, t: P.Tid)
    returns (x: nat)
    requires IsRun(states, actions) && Projects(states, actions, k, h) && q < |h.at|
    requires h.actions[q] == P.Step(t, P.Enqueue)
    ensures x < q && h.at[x] < h.at[q] && h.at[x] < |actions| && Records(actions[h.at[x]], t)
    ensures forall y :: 0 <= y < q && h.actions[y] == P.Step(t, P.RecordGauge) ==> y == x
  {
    PP.GaugeIsRecordedOnce(h.states, h.actions, q, t);
    x := OnceIs(h.actions, 0, q, P.Step(t, P.RecordGauge));
    RecordOfStep(states, actions, k, h, x, t);
    PlacesAgree(h.at, x, q);
  }

  lemma GaugeIsThat(states: seq<State>, actions: seq<Action>, k: nat, h: ProtocolRun, q: nat, t: P.Tid, x: nat, m: nat)
    requires IsRun(states, actions) && Projects(states, actions, k, h) && x < q < |h.at|
    requires h.actions[q] == P.Step(t, P.Enqueue)
    requires forall y :: 0 <= y < q && h.actions[y] == P.Step(t, P.RecordGauge) ==> y == x
    requires m < h.at[q] && m < k && m < |actions| && Records(actions[m], t)
    ensures m == h.at[x]
  {
    var y := OnlyGaugeBefore(states, actions, k, h, q, t, m);
  }

  /** Before it joins the queue a call has recorded exactly once: its gauge. */
  lemma GaugeIsRecorded(states: seq<State>, actions: seq<Action>, e: nat, t: P.Tid)
    requires IsRun(states, actions) && e < |actions| && actions[e] == Protocol(P.Step(t, P.Enqueue))
    ensures RecordsOnce(actions, 0, e, t)
  {
    var h := ProtocolProjection(states, actions, e + 1);
    var q := PlainIsProjected(states, actions, e + 1, h, e, P.Step(t, P.Enqueue));
    var x := GaugeInProjection(states, actions, e + 1, h, q, t);
    forall m | 0 <= m < e && Records(actions[m], t) ensures m == h.at[x] {
      GaugeIsThat(states, actions, e + 1, h, q, t, x, m);
    }
    OnceAt(actions, 0, e, t, h.at[x]);
  }

  /** What records in the module between the steps q and l of the projection is the delay. */
  lemma OnlyDelayAfter(states: seq<State>, actions: seq<Action>, k: nat, h: ProtocolRun, q: nat, l: nat,
                       t: P.Tid, m: nat) returns (y: nat)
    requires IsRun(states, actions) && Projects(states, actions, k, h) && q < |h.at| && l < |h.at|
    requires h.actions[q] == P.Step(t, P.Enqueue) && h.actions[l] == P.Leave(t)
    requires h.at[q] <= m < h.at[l] && m < k && m < |actions| && Records(actions[m], t)
    ensures q <= y < l && h.at[y] == m && h.actions[y] == P.Step(t, P.RecordDelay)
  {
    y := RecordIsProjected(states, actions, k, h, m, t);
    PlacesAgree(h.at, y, q);
    PlacesAgree(h.at, y, l);
    PP.NoGaugeAfter(h.states, h.actions, q, l, t, y);
  }

  lemma NoAbandonProjected(states: seq<State>, actions: seq<Action>, k: nat, h: ProtocolRun, l: nat, t: P.Tid)
    requires IsRun(states, actions) && Projects(states, actions, k, h) && l < |h.at|
    requires Protocol(P.Step(t, P.Abandon)) !in actions[..k] && k <= |actions|
    ensures P.Step(t, P.Abandon) !in h.actions[..l]
  {
    forall y | 0 <= y < l ensures h.actions[y] != P.Step(t, P.Abandon) {
      assert ProtocolAgrees(states, actions, h, y);
      assert h.at[y] in h.at && actions[..k][h.at[y]] == actions[h.at[y]];
      if h.actions[y] == P.Step(t, P.Abandon) {
        AbandonIsPlain(states[h.at[y]], actions[h.at[y]], t);
      }
    }
  }

  lemma AbandonIsPlain(s: State, a: Action, t: P.Tid)
    requires Enabled(s, a) && ProtocolPart(s, a) == Some(P.Step(t, P.Abandon))
    ensures a == Protocol(P.Step(t, P.Abandon))
  {
  }

  lemma NoneInLonger(actions: seq<Action>, k: nat, a: Action)
    requires k < |actions| && a !in actions[..k] && a != actions[k]
    ensures a !in actions[..k + 1]
  {
    assert actions[..k + 1] == actions[..k] + [actions[k]];
  }

  /** The delay, in the projection. */
  lemma DelayInProjection(states: seq<State>, actions: seq<Action>, k: nat, h: ProtocolRun, q: nat, l: nat, t: P.Tid)
    returns (x: nat)
    requires IsRun(states, actions) && Projects(states, actions, k, h) && q < l < |h.at|
    requires h.actions[q] == P.Step(t, P.Enqueue) && h.actions[l] == P.Leave(t)
    requires k <= |actions| && Protocol(P.Step(t, P.Abandon)) !in actions[..k]
    ensures q <= x < l && h.at[q] <= h.at[x] < h.at[l] <= |actions| && Records(actions[h.at[x]], t)
    ensures forall y :: q <= y < l && h.actions[y] == P.Step(t, P.RecordDelay) ==> y == x
  {
    NoAbandonProjected(states, actions, k, h, l, t);
    PP.DelayIsRecordedOnce(h.states, h.actions, q, l, t);
    x := OnceIs(h.actions, q, l, P.Step(t, P.RecordDelay));
    RecordOfStep(states, actions, k, h, x, t);
    PlacesAgree(h.at, x, q);
    PlacesAgree(h.at, x, l);
    assert h.at[l] in h.at;
  }

  lemma DelayIsThat(states: seq<State>, actions: seq<Action>, k: nat, h: ProtocolRun, q: nat, l: nat,
                    t: P.Tid, x: nat, m: nat)
    requires IsRun(states, actions) && Projects(states, actions, k, h) && q <= x < l < |h.at|
    requires h.actions[q] == P.Step(t, P.Enqueue) && h.actions[l] == P.Leave(t)
    requires forall y :: q <= y < l && h.actions[y] == P.Step(t, P.RecordDelay) ==> y == x
    requires h.at[q] <= m < h.at[l] && m < k && m < |actions| && Records(actions[m], t)
    ensures m == h.at[x]
  {
    var y := OnlyDelayAfter(states, actions, k, h, q, l, t, m);
  }

  /** The records between the steps q and l of the projection, in the module. */
  lemma DelayInModule(states: seq<State>, actions: seq<Action>, k: nat, h: ProtocolRun, q: nat, l: nat, t: P.Tid)
    requires IsRun(states, actions) && Projects(states, actions, k, h) && q < l < |h.at|
    requires h.actions[q] == P.Step(t, P.Enqueue) && h.actions[l] == P.Leave(t)
    requires h.at[l] < k <= |actions| && Protocol(P.Step(t, P.Abandon)) !in actions[..k]
    ensures RecordsOnce(actions, h.at[q], h.at[l], t)
  {
    var x := DelayInProjection(states, actions, k, h, q, l, t);
    forall m | h.at[q] <= m < h.at[l] && Records(actions[m], t) ensures m == h.at[x] {
      DelayIsThat(states, actions, k, h, q, l, t, x, m);
    }
    OnceAt(actions, h.at[q], h.at[l], t, h.at[x]);
  }

  /** From the queue to its exit a call that has not given up records exactly once: its delay. */
  lemma DelayIsRecorded(states: seq<State>, actions: seq<Action>, e: nat, k: nat, t: P.Tid)
    requires IsRun(states, actions) && e < k < |actions|
    requires actions[e] == Protocol(P.Step(t, P.Enqueue)) && actions[k] == Protocol(P.Leave(t))
    requires Protocol(P.Step(t, P.Abandon)) !in actions[..k]
    ensures RecordsOnce(actions, e, k, t)
  {
    var n: nat := k + 1;
    var h := ProtocolProjection(states, actions, n);
    var q := PlainIsProjected(states, actions, n, h, e, P.Step(t, P.Enqueue));
    var l := PlainIsProjected(states, actions, n, h, k, P.Leave(t));
    PlacesAgree(h.at, q, l);
    NoneInLonger(actions, k, Protocol(P.Step(t, P.Abandon)));
    DelayInModule(states, actions, n, h, q, l, t);
  }

  // ---------------------------------------------------------------- commands

  lemma ListedInRun(states: seq<State>, actions: seq<Action>, k: nat)
    requires IsRun(states, actions) && k < |states|
    ensures RW.ListedBefore(states[k].reg)
  {
    ListInRun(states, actions, k);
  }

  /** In the whole module remove_rule takes out the oldest rule in the list with the number, and no
      other. */
  lemma RemovalTakesOldest(states: seq<State>, actions: seq<Action>, k: nat, num: int, index: nat)
    requires IsRun(states, actions) && k < |actions| && actions[k] == Admin(R.Unlink(num, index))
    ensures exists p :: RW.IsOldest(states[k].reg, num, p)
                        && forall q :: q in states[k + 1].reg.linked <==> q in states[k].reg.linked && q != p
  {
    ListedInRun(states, actions, k);
    RW.FoundIsOldest(states[k].reg, num, index);
    RW.UnlinkTakes(states[k].reg, num, index);
    assert RW.IsOldest(states[k].reg, num, states[k].reg.linked[index]);
  }

  /** And reset_rule_stats zeroes the counter of the oldest one, and of no other. */
  lemma ResetZeroesOldest(states: seq<State>, actions: seq<Action>, k: nat, num: int, index: nat)
    requires IsRun(states, actions) && k < |actions| && actions[k] == Admin(R.StatsTouch(num, index, true))
    ensures exists p :: RW.IsOldest(states[k].reg, num, p) && RR.CountOf(states[k + 1].reg, p) == Some(0)
                        && forall q :: q != p ==> RR.CountOf(states[k + 1].reg, q) == RR.CountOf(states[k].reg, q)
  {
    ListedInRun(states, actions, k);
    RW.FoundIsOldest(states[k].reg, num, index);
    RW.ZeroTouches(states[k].reg, num, index);
    assert RW.IsOldest(states[k].reg, num, states[k].reg.linked[index]);
  }

  /** While the module is loaded any rule can be added, and is then the last of the list. */
  lemma RulesCanBeAdded(states: seq<State>, actions: seq<Action>, k: nat, rule: Rule)
    requires IsRun(states, actions) && k < |states| && states[k].prot.stage.Loaded?
    ensures Enabled(states[k], Admin(R.Publish(rule)))
    ensures var s, s' := states[k].reg, Apply(states[k], Admin(R.Publish(rule))).reg;
            && s'.linked == s.linked + [s.last + 1] && s.last + 1 !in s.linked
            && s.last + 1 in s'.rules && s'.rules[s.last + 1] == rule
            && RR.CountOf(s', s.last + 1) == Some(0)
  {
    CellsInRun(states, actions, k);
    AddedRule(states[k].reg, rule);
  }

  lemma AddedRule(s: R.State, rule: Rule)
    requires R.Cells(s)
    ensures s.last + 1 !in s.linked && RR.CountOf(R.DoPublish(s, rule), s.last + 1) == Some(0)
  {
  }

  lemma FirstCanBeRemoved(s: R.State, num: int)
    requires R.Cells(s)
    ensures RW.NobodyHas(s, num) || R.Enabled(s, R.Unlink(num, FirstWithNumber(RR.LinkedRules(s), num)))
  {
    RW.MissingIsNone(s, num);
    RW.SearchIsFirst(s, num, FirstWithNumber(RR.LinkedRules(s), num));
  }

  /** While it is loaded the oldest rule with a number can be removed, unless nobody has the number;
      a removed rule can be waited for, and freed once all sections open began after the wait did. */
  lemma RulesCanBeRemoved(states: seq<State>, actions: seq<Action>, k: nat, num: int, p: R.Ptr)
    requires IsRun(states, actions) && k < |states| && states[k].prot.stage.Loaded?
    ensures RW.NobodyHas(states[k].reg, num) || exists index: nat :: Enabled(states[k], Admin(R.Unlink(num, index)))
    ensures var s := states[k].reg;
            p in s.dead && p !in s.freed ==>
              if p !in s.waits then Enabled(states[k], Admin(R.Synchronize(p)))
              else (forall r :: r in s.readers ==> s.readers[r].start > s.waits[p])
                   ==> Enabled(states[k], Admin(R.Free(p)))
  {
    CellsInRun(states, actions, k);
    FirstCanBeRemoved(states[k].reg, num);
    var first := FirstWithNumber(RR.LinkedRules(states[k].reg), num);
    assert R.Enabled(states[k].reg, R.Unlink(num, first)) ==> Enabled(states[k], Admin(R.Unlink(num, first)));
  }

  lemma FirstHasStatistics(s: R.State, num: int, zero: bool)
    requires R.Cells(s)
    ensures if RW.NobodyHas(s, num) then R.Enabled(s, R.StatsMiss(num))
            else R.Enabled(s, R.StatsTouch(num, FirstWithNumber(RR.LinkedRules(s), num), zero))
  {
    RW.MissingIsNone(s, num);
    RW.SearchIsFirst(s, num, FirstWithNumber(RR.LinkedRules(s), num));
  }

  /** And the statistics of the oldest rule with a number can be read or reset at any time; if nobody
      has the number the search runs over the whole list. */
  lemma StatisticsCanBeReached(states: seq<State>, actions: seq<Action>, k: nat, num: int, zero: bool)
    requires IsRun(states, actions) && k < |states| && states[k].prot.stage.Loaded?
    ensures if RW.NobodyHas(states[k].reg, num) then Enabled(states[k], Admin(R.StatsMiss(num)))
            else exists index: nat :: Enabled(states[k], Admin(R.StatsTouch(num, index, zero)))
  {
    CellsInRun(states, actions, k);
    FirstHasStatistics(states[k].reg, num, zero);
    if !RW.NobodyHas(states[k].reg, num) {
      var first := FirstWithNumber(RR.LinkedRules(states[k].reg), num);
      assert Enabled(states[k], Admin(R.StatsTouch(num, first, zero)));
    }
  }

  /** In the whole module, too, calls go in, signals are sent and administrators switch the monitor
      whenever they like, and unloading begins once no administrator and no removal is under way. */
  lemma ChoicesAreFree(s: State, t: P.Tid, g: nat)
    ensures !s.prot.stage.Unloaded? ==> Enabled(s, Protocol(P.Enter))
    ensures t in s.prot.threads ==> Enabled(s, Protocol(P.Signal(t)))
    ensures s.prot.stage.Loaded? ==> Enabled(s, Protocol(P.SwitchOn))
    ensures s.prot.stage.Loaded? && g != P.UNLOADER && g !in s.prot.agents ==> Enabled(s, Protocol(P.SwitchOff(g)))
    ensures s.prot.stage.Loaded? && s.prot.agents == map[] && (forall p :: p in s.reg.dead ==> p in s.reg.freed) ==>
              Enabled(s, BeginUnload) && !Apply(s, BeginUnload).prot.monitor
  {
  }

  // ----------------------------------------------------------------- parties

  /** In the whole module each call and the unloader go through their code step by step: this is so of
      the protocol's steps, none of which is left out. */
  lemma PartiesFollowCode(states: seq<State>, actions: seq<Action>, k: nat) returns (h: ProtocolRun)
    requires IsRun(states, actions) && k < |states|
    ensures Projects(states, actions, k, h)
    ensures forall t :: PP.PathFits(states[k].prot, PP.Path(h.actions, PP.Call(t)), t)
    ensures PU.UnloadLeadsTo(PP.Path(h.actions, PP.Unloader), states[k].prot)
  {
    h := ProtocolProjection(states, actions, k);
    assert h.actions[..|h.actions|] == h.actions;
    forall t ensures PP.PathFits(states[k].prot, PP.Path(h.actions, PP.Call(t)), t) {
      PP.CallsFollowCode(h.states, h.actions, |h.actions|, t);
    }
    PU.UnloaderFollowsCode(h.states, h.actions, |h.actions|);
  }

  /** And every tick is a whole one: reset, lock, each waiter that was queued at the lock asked for
      once and in order, unlock. */
  lemma TicksAreWhole(states: seq<State>, actions: seq<Action>, k: nat) returns (h: ProtocolRun, x: PT.Tick)
    requires IsRun(states, actions) && k < |actions| && actions[k] == Protocol(P.TimerRearm)
    ensures Projects(states, actions, k, h)
    ensures PT.HasUnlocked(h.states, h.actions, |h.actions|, x)
    ensures PT.NoTimerStep(h.actions, x.unlock + 1, |h.actions|)
  {
    h := ProtocolProjection(states, actions, k);
    x := PT.TickSoFar(h.states, h.actions, |h.actions|);
  }
}
