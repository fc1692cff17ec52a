/**
 How many calls a window can let through at most: when it opens with sections that
 have been admitted and have not returned, it has a continuation that lets through
 one call for each of them, and as many new ones as the rule allows.
 */
module ModuleExcess {
  import opened CTypes
  import opened Rules
  import opened ModuleRun
  import opened ModuleVerdicts
  import opened ModuleTokens
  import opened ModulePasses
  import R = RcuRegistry
  import RR = RcuRuns
  import P = WrapperProtocol
  import PS = WrapperSafety

  /** A run, from loading on. */
  datatype Run = Run(states: seq<State>, actions: seq<Action>)

  function Last(h: Run): State
    requires |h.states| > 0
  {
    h.states[|h.states| - 1]
  }

  predicate Continues(h: Run, h': Run) {
    h.states <= h'.states && h.actions <= h'.actions
  }

  function PassLog(states: seq<State>, actions: seq<Action>, n: R.Ptr, i: nat, j: nat): seq<bool>
    requires i <= j <= |actions| < |states|
  {
    seq(j - i, k requires 0 <= k < j - i => LetsThrough(states[i + k], actions[i + k], n))
  }

  /** The log of a stretch of steps from step i on says so of step k. */
  predicate IsLogged(log: seq<bool>, i: nat, k: nat) {
    i <= k < i + |log| && log[k - i]
  }

  lemma {:induction false} CardOfLog(log: seq<bool>, i: nat)
    ensures |set k: nat | k < i + |log| && IsLogged(log, i, k)| == CountTrue(log)
  {
    var all := set k: nat | k < i + |log| && IsLogged(log, i, k);
    if log == [] {
      assert all == {};
    } else {
      var last := |log| - 1;
      var init := set k: nat | k < i + last && IsLogged(log[..last], i, k);
      CardOfLog(log[..last], i);
      assert all == if log[last] then init + {i + last} else init;
    }
  }

  lemma PassesAreLogged(states: seq<State>, actions: seq<Action>, n: R.Ptr, i: nat, j: nat)
    requires i <= j <= |actions| < |states|
    ensures |Passes(states, actions, n, i, j)| == CountTrue(PassLog(states, actions, n, i, j))
  {
    var log := PassLog(states, actions, n, i, j);
    CardOfLog(log, i);
    forall k: nat | i <= k < j ensures IsLogged(log, i, k) <==> LetsThrough(states[k], actions[k], n) {
      assert i + (k - i) == k;
    }
    assert Passes(states, actions, n, i, j) == set k: nat | k < i + |log| && IsLogged(log, i, k);
  }

  lemma ContinuesOn(h: Run, m: Run, h': Run)
    requires Continues(h, m) && Continues(m, h')
    ensures Continues(h, h')
  {
  }

  /** Rule n has a window from state i to the end of the run, with so many charges and passes. */
  ghost predicate Tally(h: Run, n: R.Ptr, i: nat, charges: nat, passes: nat) {
    && IsWindow(h.states, h.actions, n, i, |h.actions|)
    && CountTrue(ChargeLog(h.states, h.actions, n, i, |h.actions|)) == charges
    && CountTrue(PassLog(h.states, h.actions, n, i, |h.actions|)) == passes
  }

  /** One step more. */
  function Then(h: Run, a: Action, s': State): Run {
    Run(h.states + [s'], h.actions + [a])
  }

  // ------------------------------------------------------ one step at a time

  lemma ThenIsRun(h: Run, a: Action, s': State)
    requires IsRun(h.states, h.actions) && Enabled(Last(h), a) && s' == Apply(Last(h), a)
    ensures IsRun(Then(h, a, s').states, Then(h, a, s').actions)
  {
  }

  ghost predicate Unzeroed(h: Run, n: R.Ptr, i: nat) {
    |h.states| == |h.actions| + 1 && forall k :: i <= k < |h.actions| ==> !ZeroesRule(h.states[k], h.actions[k], n)
  }

  lemma ThenIsUnzeroed(h: Run, n: R.Ptr, i: nat, a: Action, s': State)
    requires Unzeroed(h, n, i) && !ZeroesRule(Last(h), a, n)
    ensures Unzeroed(Then(h, a, s'), n, i)
  {
  }

  lemma ThenIsWindow(h: Run, n: R.Ptr, i: nat, a: Action, s': State)
    requires IsWindow(h.states, h.actions, n, i, |h.actions|) && !ZeroesRule(Last(h), a, n)
    requires IsRun(Then(h, a, s').states, Then(h, a, s').actions)
    ensures var h' := Then(h, a, s'); IsWindow(h'.states, h'.actions, n, i, |h'.actions|)
  {
    assert Unzeroed(h, n, i);
    ThenIsUnzeroed(h, n, i, a, s');
  }

  lemma ThenLogs(h: Run, n: R.Ptr, i: nat, a: Action, s': State)
    requires |h.states| == |h.actions| + 1 && i <= |h.actions|
    ensures ChargeLog(Then(h, a, s').states, Then(h, a, s').actions, n, i, |h.actions| + 1) ==
            ChargeLog(h.states, h.actions, n, i, |h.actions|) + [ChargesRule(Last(h), a, n)]
  {
  }

  function One(b: bool): nat {
    if b then 1 else 0
  }

  lemma ThenCharges(h: Run, n: R.Ptr, i: nat, a: Action, s': State)
    requires |h.states| == |h.actions| + 1 && i <= |h.actions|
    ensures var h' := Then(h, a, s');
            CountTrue(ChargeLog(h'.states, h'.actions, n, i, |h'.actions|)) ==
            CountTrue(ChargeLog(h.states, h.actions, n, i, |h.actions|)) + One(ChargesRule(Last(h), a, n))
  {
    ThenLogs(h, n, i, a, s');
    var log := ChargeLog(h.states, h.actions, n, i, |h.actions|);
    assert (log + [ChargesRule(Last(h), a, n)])[..|log|] == log;
  }

  lemma ThenPasses(h: Run, n: R.Ptr, i: nat, a: Action, s': State)
    requires |h.states| == |h.actions| + 1 && i <= |h.actions|
    ensures var h' := Then(h, a, s');
            CountTrue(PassLog(h'.states, h'.actions, n, i, |h'.actions|)) ==
            CountTrue(PassLog(h.states, h.actions, n, i, |h.actions|)) + One(LetsThrough(Last(h), a, n))
  {
    var h', log := Then(h, a, s'), PassLog(h.states, h.actions, n, i, |h.actions|);
    assert PassLog(h'.states, h'.actions, n, i, |h'.actions|) == log + [LetsThrough(Last(h), a, n)];
    assert (log + [LetsThrough(Last(h), a, n)])[..|log|] == log;
  }

  lemma TallyIsRun(h: Run, n: R.Ptr, i: nat, charges: nat, passes: nat)
    requires Tally(h, n, i, charges, passes)
    ensures |h.states| == |h.actions| + 1 && IsRun(h.states, h.actions)
  {
  }

  lemma ThenTally(h: Run, n: R.Ptr, i: nat, charges: nat, passes: nat, a: Action, s': State)
    requires Tally(h, n, i, charges, passes) && !ZeroesRule(Last(h), a, n)
    requires IsRun(Then(h, a, s').states, Then(h, a, s').actions)
    ensures Tally(Then(h, a, s'), n, i, charges + One(ChargesRule(Last(h), a, n)),
                  passes + One(LetsThrough(Last(h), a, n)))
  {
    ThenIsWindow(h, n, i, a, s');
    ThenCharges(h, n, i, a, s');
    ThenPasses(h, n, i, a, s');
  }

  lemma Step(h: Run, n: R.Ptr, i: nat, charges: nat, passes: nat, a: Action) returns (h': Run)
    requires Tally(h, n, i, charges, passes) && Enabled(Last(h), a) && !ZeroesRule(Last(h), a, n)
    ensures Continues(h, h') && |h'.states| > 0 && Last(h') == Apply(Last(h), a)
    ensures Tally(h', n, i, charges + One(ChargesRule(Last(h), a, n)), passes + One(LetsThrough(Last(h), a, n)))
  {
    TallyIsRun(h, n, i, charges, passes);
    var s' := Apply(Last(h), a);
    ThenIsRun(h, a, s');
    ThenTally(h, n, i, charges, passes, a, s');
    h' := Then(h, a, s');
  }

  lemma InvAtLast(h: Run)
    requires IsRun(h.states, h.actions)
    ensures Inv(Last(h))
  {
    RunKeepsInv(h.states, h.actions, |h.actions|);
  }

  // -------------------------------------------------------- a walk to the rule

  /** A call whose first match is rule n, at its place in the list. */
  datatype Aim = Aim(n: R.Ptr, rule: Rule, call: Call, place: nat)

  ghost predicate AimedAt(s: R.State, aim: Aim, count: int) {
    && aim.place < |s.linked| && s.linked[aim.place] == aim.n
    && aim.n in s.rules && s.rules[aim.n] == aim.rule && Matches(aim.rule, aim.call)
    && (forall x :: 0 <= x < aim.place ==> s.linked[x] in s.rules && !Matches(s.rules[s.linked[x]], aim.call))
    && RR.CountOf(s, aim.n) == Some(count)
  }

  ghost predicate Stands(s: R.State, r: R.Tid, aim: Aim, phase: R.Phase) {
    r in s.readers && s.readers[r].walk == R.Charge(aim.call) && s.readers[r].phase == phase
  }

  lemma FollowsTo(s: R.State, r: R.Tid, aim: Aim, count: int, j: nat)
    requires R.Cells(s) && R.Chained(s) && AimedAt(s, aim, count) && j <= aim.place
    requires Stands(s, r, aim, R.Load(R.CellBefore(s.linked, j)))
    ensures R.Enabled(s, R.FollowNext(r))
    ensures var s' := R.Apply(s, R.FollowNext(r));
            && AimedAt(s', aim, count) && s'.linked == s.linked
            && Stands(s', r, aim, R.Look(s.linked[j]))
  {
    assert R.Next(s, R.CellBefore(s.linked, j)) == R.CellAt(s.linked, j);
    assert s.linked[j] in s.linked;
  }

  lemma LooksPast(s: R.State, r: R.Tid, aim: Aim, count: int, j: nat)
    requires R.Cells(s) && R.Increasing(s.linked) && AimedAt(s, aim, count) && j < aim.place
    requires Stands(s, r, aim, R.Look(s.linked[j]))
    ensures R.Enabled(s, R.Examine(r)) && !RR.Charges(s, R.Examine(r), aim.n) && !RR.Zeroes(s, R.Examine(r), aim.n)
    ensures var s' := R.Apply(s, R.Examine(r));
            && AimedAt(s', aim, count) && s'.linked == s.linked
            && Stands(s', r, aim, R.Load(R.CellBefore(s'.linked, j + 1)))
  {
    assert s.linked[j] in s.linked && s.linked[j] < aim.n;
  }

  lemma LooksAtRule(s: R.State, r: R.Tid, aim: Aim, count: int)
    requires R.Cells(s) && AimedAt(s, aim, count) && count < INT_MAX
    requires Stands(s, r, aim, R.Look(aim.n))
    ensures R.Enabled(s, R.Examine(r)) && RR.Charges(s, R.Examine(r), aim.n) && !RR.Zeroes(s, R.Examine(r), aim.n)
    ensures var s' := R.Apply(s, R.Examine(r));
            && AimedAt(s', aim, count + 1)
            && Stands(s', r, aim, R.Finished(aim.n, count + 1 > aim.rule.maxCalls))
  {
    assert s.linked[aim.place] in s.linked;
  }

  lemma WalkStep(h: Run, n: R.Ptr, i: nat, charges: nat, passes: nat, step: R.Action) returns (h': Run)
    requires Tally(h, n, i, charges, passes) && (step.FollowNext? || step.Examine?)
    requires R.Enabled(Last(h).reg, step) && !RR.Zeroes(Last(h).reg, step, n)
    ensures Continues(h, h') && |h'.states| > 0 && Last(h').prot == Last(h).prot
    ensures Last(h').reg == R.Apply(Last(h).reg, step)
    ensures Tally(h', n, i, charges + One(RR.Charges(Last(h).reg, step, n)), passes)
  {
    h' := Step(h, n, i, charges, passes, Walk(step));
  }

  /** The reader walks on towards the rule, which has charged and let through so many. */
  ghost predicate Walks(h: Run, i: nat, passes: nat, r: R.Tid, aim: Aim, count: nat, phase: R.Phase) {
    && Tally(h, aim.n, i, count, passes)
    && AimedAt(Last(h).reg, aim, count) && Stands(Last(h).reg, r, aim, phase)
  }

  lemma ListAtLast(h: Run, n: R.Ptr, i: nat, charges: nat, passes: nat)
    requires Tally(h, n, i, charges, passes)
    ensures |h.states| > 0 && R.Cells(Last(h).reg) && R.Chained(Last(h).reg)
  {
    InvAtLast(h);
  }

  /** It is about to follow the pointer to the j-th rule of the list. */
  ghost predicate Nears(h: Run, i: nat, passes: nat, r: R.Tid, aim: Aim, count: nat, j: nat) {
    && |h.states| > 0 && j <= aim.place < |Last(h).reg.linked|
    && Walks(h, i, passes, r, aim, count, R.Load(R.CellBefore(Last(h).reg.linked, j)))
  }

  /** It has found and charged the rule. */
  ghost predicate Arrives(h: Run, i: nat, passes: nat, r: R.Tid, aim: Aim, count: nat) {
    && |h.states| > 0
    && Walks(h, i, passes, r, aim, count, R.Finished(aim.n, count > aim.rule.maxCalls))
  }

  /** h' continues h without a step of the protocol. */
  predicate WalksOn(h: Run, h': Run) {
    Continues(h, h') && |h.states| > 0 && |h'.states| > 0 && Last(h').prot == Last(h).prot
  }

  lemma WalksFarther(h: Run, m: Run, h': Run)
    requires WalksOn(h, m) && WalksOn(m, h')
    ensures WalksOn(h, h')
  {
  }

  /** It is about to examine the j-th rule of the list. */
  ghost predicate Meets(h: Run, i: nat, passes: nat, r: R.Tid, aim: Aim, count: nat, j: nat) {
    && |h.states| > 0 && j <= aim.place < |Last(h).reg.linked|
    && Walks(h, i, passes, r, aim, count, R.Look(Last(h).reg.linked[j]))
  }

  lemma WalkNext(h: Run, i: nat, passes: nat, r: R.Tid, aim: Aim, count: nat, j: nat) returns (h': Run)
    requires Nears(h, i, passes, r, aim, count, j)
    ensures WalksOn(h, h') && Meets(h', i, passes, r, aim, count, j)
  {
    ListAtLast(h, aim.n, i, count, passes);
    FollowsTo(Last(h).reg, r, aim, count, j);
    h' := WalkStep(h, aim.n, i, count, passes, R.FollowNext(r));
  }

  /** Past a rule that does not match. */
  lemma WalkPast(h: Run, i: nat, passes: nat, r: R.Tid, aim: Aim, count: nat, j: nat) returns (h': Run)
    requires Meets(h, i, passes, r, aim, count, j) && j < aim.place
    ensures WalksOn(h, h') && Nears(h', i, passes, r, aim, count, j + 1)
  {
    ListAtLast(h, aim.n, i, count, passes);
    LooksPast(Last(h).reg, r, aim, count, j);
    h' := WalkStep(h, aim.n, i, count, passes, R.Examine(r));
  }

  /** On to the rule, with the walk's one charge. */
  lemma WalkOnto(h: Run, i: nat, passes: nat, r: R.Tid, aim: Aim, count: nat) returns (h': Run)
    requires Meets(h, i, passes, r, aim, count, aim.place) && count < INT_MAX
    ensures WalksOn(h, h') && Arrives(h', i, passes, r, aim, count + 1)
  {
    ListAtLast(h, aim.n, i, count, passes);
    LooksAtRule(Last(h).reg, r, aim, count);
    h' := WalkStep(h, aim.n, i, count, passes, R.Examine(r));
  }

  lemma WalkCell(h: Run, i: nat, passes: nat, r: R.Tid, aim: Aim, count: nat, j: nat) returns (h': Run)
    requires Nears(h, i, passes, r, aim, count, j) && j < aim.place
    ensures WalksOn(h, h') && Nears(h', i, passes, r, aim, count, j + 1)
  {
    var m := WalkNext(h, i, passes, r, aim, count, j);
    h' := WalkPast(m, i, passes, r, aim, count, j);
    WalksFarther(h, m, h');
  }

  lemma WalkHome(h: Run, i: nat, passes: nat, r: R.Tid, aim: Aim, count: nat) returns (h': Run)
    requires Nears(h, i, passes, r, aim, count, aim.place) && count < INT_MAX
    ensures WalksOn(h, h') && Arrives(h', i, passes, r, aim, count + 1)
  {
    var m := WalkNext(h, i, passes, r, aim, count, aim.place);
    h' := WalkOnto(m, i, passes, r, aim, count);
    WalksFarther(h, m, h');
  }

  lemma {:induction false} WalkAlong(h: Run, i: nat, passes: nat, r: R.Tid, aim: Aim, count: nat, j: nat)
    returns (h': Run)
    requires Nears(h, i, passes, r, aim, count, j) && j <= aim.place && count < INT_MAX
    ensures WalksOn(h, h') && Arrives(h', i, passes, r, aim, count + 1)
    decreases aim.place - j
  {
    if j == aim.place {
      h' := WalkHome(h, i, passes, r, aim, count);
    } else {
      var m := WalkCell(h, i, passes, r, aim, count, j);
      h' := WalkAlong(m, i, passes, r, aim, count, j + 1);
      WalksFarther(h, m, h');
    }
  }

  // --------------------------------------------------------- one call through

  /** The rule has charged and let through so many, and the module is in service. */
  ghost predicate Serves(h: Run, i: nat, passes: nat, aim: Aim, count: nat) {
    && |h.states| > 0 && Tally(h, aim.n, i, count, passes)
    && AimedAt(Last(h).reg, aim, count) && InService(Last(h).prot)
  }

  predicate InService(s: P.State) {
    s.stage.Loaded? && s.monitor
  }

  lemma Enters(s: State)
    requires InService(s.prot)
    ensures Enabled(s, Protocol(P.Enter))
    ensures var s' := Apply(s, Protocol(P.Enter));
            && s'.reg == s.reg && InService(s'.prot)
            && PcIs(s'.prot, s.prot.calls, P.Entered)
  {
  }

  lemma FindsMonitorOn(s: State, t: P.Tid)
    requires InService(s.prot) && PcIs(s.prot, t, P.Entered)
    ensures Enabled(s, Protocol(P.Step(t, P.CheckMonitor)))
    ensures var s' := Apply(s, Protocol(P.Step(t, P.CheckMonitor)));
            && s'.reg == s.reg && InService(s'.prot)
            && PcIs(s'.prot, t, P.Verifying)
  {
  }

  lemma ReadsNothingYet(s: State, t: P.Tid)
    requires Coupled(s) && PcIs(s.prot, t, P.Entered)
    ensures ReaderOf(t) !in s.reg.readers
  {
    assert ReaderOf(t) - 1 == t;
  }

  lemma BeginsWalk(s: State, t: P.Tid, aim: Aim, count: int)
    requires InService(s.prot) && PcIs(s.prot, t, P.Verifying) && ReaderOf(t) !in s.reg.readers
    requires AimedAt(s.reg, aim, count)
    ensures Enabled(s, BeginVerdict(t, aim.call))
    ensures var s' := Apply(s, BeginVerdict(t, aim.call));
            && s'.prot == s.prot && AimedAt(s'.reg, aim, count)
            && Stands(s'.reg, ReaderOf(t), aim, R.Load(R.CellBefore(s'.reg.linked, 0)))
  {
  }

  lemma Returns(s: State, t: P.Tid, aim: Aim, count: int)
    requires InService(s.prot) && PcIs(s.prot, t, P.Verifying)
    requires AimedAt(s.reg, aim, count) && Stands(s.reg, ReaderOf(t), aim, R.Finished(aim.n, false))
    ensures Enabled(s, EndVerdict(t)) && LetsThrough(s, EndVerdict(t), aim.n)
    ensures var s' := Apply(s, EndVerdict(t)); InService(s'.prot) && AimedAt(s'.reg, aim, count)
  {
  }

  lemma EnterCall(h: Run, i: nat, passes: nat, aim: Aim, count: nat) returns (h': Run, t: P.Tid)
    requires Serves(h, i, passes, aim, count)
    ensures Continues(h, h') && Serves(h', i, passes, aim, count) && PcIs(Last(h').prot, t, P.Entered)
  {
    t := Last(h).prot.calls;
    Enters(Last(h));
    h' := Step(h, aim.n, i, count, passes, Protocol(P.Enter));
  }

  lemma CheckMonitor(h: Run, i: nat, passes: nat, aim: Aim, count: nat, t: P.Tid) returns (h': Run)
    requires Serves(h, i, passes, aim, count) && PcIs(Last(h).prot, t, P.Entered)
    ensures Continues(h, h') && Serves(h', i, passes, aim, count)
    ensures PcIs(Last(h').prot, t, P.Verifying) && Last(h').reg == Last(h).reg
  {
    FindsMonitorOn(Last(h), t);
    h' := Step(h, aim.n, i, count, passes, Protocol(P.Step(t, P.CheckMonitor)));
  }

  lemma StartCall(h: Run, i: nat, passes: nat, aim: Aim, count: nat) returns (h': Run, t: P.Tid)
    requires Serves(h, i, passes, aim, count)
    ensures Continues(h, h') && Serves(h', i, passes, aim, count)
    ensures PcIs(Last(h').prot, t, P.Verifying) && ReaderOf(t) !in Last(h').reg.readers
  {
    var m, t' := EnterCall(h, i, passes, aim, count);
    t := t';
    CoupledAtLast(m, aim.n, i, count, passes);
    ReadsNothingYet(Last(m), t);
    h' := CheckMonitor(m, i, passes, aim, count, t);
    ContinuesOn(h, m, h');
  }

  lemma CoupledAtLast(h: Run, n: R.Ptr, i: nat, charges: nat, passes: nat)
    requires Tally(h, n, i, charges, passes)
    ensures |h.states| > 0 && Coupled(Last(h))
  {
    InvAtLast(h);
  }

  lemma StartWalk(h: Run, i: nat, passes: nat, aim: Aim, count: nat, t: P.Tid) returns (h': Run)
    requires Serves(h, i, passes, aim, count)
    requires PcIs(Last(h).prot, t, P.Verifying) && ReaderOf(t) !in Last(h).reg.readers
    ensures WalksOn(h, h') && Nears(h', i, passes, ReaderOf(t), aim, count, 0)
  {
    BeginsWalk(Last(h), t, aim, count);
    h' := Step(h, aim.n, i, count, passes, BeginVerdict(t, aim.call));
  }

  /** The call is inside is_throttled. */
  predicate Asks(s: P.State, t: P.Tid) {
    InService(s) && PcIs(s, t, P.Verifying)
  }

  lemma EndCall(h: Run, i: nat, passes: nat, aim: Aim, count: nat, t: P.Tid) returns (h': Run)
    requires Arrives(h, i, passes, ReaderOf(t), aim, count) && count <= aim.rule.maxCalls
    requires Asks(Last(h).prot, t)
    ensures Continues(h, h') && Serves(h', i, passes + 1, aim, count)
  {
    Returns(Last(h), t, aim, count);
    h' := Step(h, aim.n, i, count, passes, EndVerdict(t));
  }

  lemma StartAsking(h: Run, i: nat, passes: nat, aim: Aim, count: nat) returns (h': Run, t: P.Tid)
    requires Serves(h, i, passes, aim, count)
    ensures Continues(h, h') && Nears(h', i, passes, ReaderOf(t), aim, count, 0) && Asks(Last(h').prot, t)
  {
    var m, t' := StartCall(h, i, passes, aim, count);
    t := t';
    h' := StartWalk(m, i, passes, aim, count, t);
    ContinuesOn(h, m, h');
  }

  lemma FinishAsking(h: Run, i: nat, passes: nat, aim: Aim, count: nat, t: P.Tid, passes': nat, count': nat)
    returns (h': Run)
    requires Nears(h, i, passes, ReaderOf(t), aim, count, 0) && Asks(Last(h).prot, t)
    requires count < aim.rule.maxCalls && passes' == passes + 1 && count' == count + 1
    ensures Continues(h, h') && Serves(h', i, passes', aim, count')
  {
    var m := WalkAlong(h, i, passes, ReaderOf(t), aim, count, 0);
    h' := EndCall(m, i, passes, aim, count', t);
    ContinuesOn(h, m, h');
  }

  /** A new call is let through, with one more charge, as long as the rule has a token left. */
  lemma OneMore(h: Run, i: nat, passes: nat, aim: Aim, count: nat, passes': nat, count': nat) returns (h': Run)
    requires Serves(h, i, passes, aim, count) && count < aim.rule.maxCalls
    requires passes' == passes + 1 && count' == count + 1
    ensures Continues(h, h') && Serves(h', i, passes', aim, count')
  {
    var m, t := StartAsking(h, i, passes, aim, count);
    h' := FinishAsking(m, i, passes, aim, count, t, passes', count');
    ContinuesOn(h, m, h');
  }

  /** The run has been continued, with so many passes and charges. */
  ghost predicate Carried(h: Run, h': Run, i: nat, passes: nat, aim: Aim, count: nat) {
    Continues(h, h') && Serves(h', i, passes, aim, count)
  }

  lemma CarriedOn(h: Run, m: Run, i: nat, passes: nat, aim: Aim, count: nat, passes': nat, count': nat)
    returns (h': Run)
    requires Carried(h, m, i, passes, aim, count) && count < aim.rule.maxCalls
    requires passes' == passes + 1 && count' == count + 1
    ensures Carried(h, h', i, passes', aim, count')
  {
    h' := OneMore(m, i, passes, aim, count, passes', count');
    ContinuesOn(h, m, h');
  }

  lemma CarriedNowhere(h: Run, i: nat, passes: nat, aim: Aim, count: nat)
    requires Serves(h, i, passes, aim, count)
    ensures Carried(h, h, i, passes, aim, count)
  {
  }

  /** As many more as the rule has tokens left. */
  lemma {:induction false} ManyMore(h: Run, i: nat, passes: nat, aim: Aim, count: nat, passes': nat, count': nat)
    returns (h': Run)
    requires Serves(h, i, passes, aim, count) && count <= count' <= Max(0, aim.rule.maxCalls)
    requires passes' - passes == count' - count
    ensures Carried(h, h', i, passes', aim, count')
    decreases count'
  {
    if count == count' {
      h' := h;
      CarriedNowhere(h, i, passes, aim, count);
    } else {
      var m := ManyMore(h, i, passes, aim, count, passes' - 1, count' - 1);
      h' := CarriedOn(h, m, i, passes' - 1, aim, count' - 1, passes', count');
    }
  }

  // ------------------------------------------------------ the pending sections

  /** Which step ends the section of reader r. */
  function EndOf(r: R.Tid): Action {
    if r == TIMER then EndAsk else EndVerdict(r - 1)
  }

  /** A pending section can end, whether it is a call's or the timer's. */
  lemma PendingEnds(s: State, n: R.Ptr, r: R.Tid)
    requires Coupled(s) && n != R.HEAD && IsPending(s.reg, n, r)
    requires r == TIMER ==> !s.prot.timer.Resetting?
    ensures Enabled(s, EndOf(r)) && LetsThrough(s, EndOf(r), n)
  {
  }

  lemma PendingAsks(s: State, n: R.Ptr)
    requires R.Visits(s.reg) && OnBehalf(s) && n != R.HEAD && IsPending(s.reg, n, TIMER)
    ensures !s.prot.timer.Resetting?
  {
    assert R.VisitsOf(s.reg, s.reg.readers[TIMER]);
  }

  /** The rest of the state when a section has ended. */
  ghost predicate OnlyEnded(s: State, s': State, r: R.Tid) {
    && R.Enabled(s.reg, R.End(r)) && s'.reg == R.Apply(s.reg, R.End(r))
    && s'.prot.stage == s.prot.stage && s'.prot.monitor == s.prot.monitor
  }

  lemma CallEnded(s: State, t: P.Tid)
    requires Enabled(s, EndVerdict(t))
    ensures OnlyEnded(s, Apply(s, EndVerdict(t)), ReaderOf(t))
  {
  }

  lemma AskEnded(s: State)
    requires Enabled(s, EndAsk)
    ensures OnlyEnded(s, Apply(s, EndAsk), TIMER)
  {
  }

  /** Among the rules in the list, a pending section's call has its rule as first match. */
  lemma PendingAims(s: R.State, n: R.Ptr, r: R.Tid) returns (aim: Aim)
    requires R.Inv(s) && n in s.linked && IsPending(s, n, r) && RR.CountOf(s, n) == Some(0)
    ensures aim.n == n && aim.rule == s.rules[n] && AimedAt(s, aim, 0)
  {
    assert R.VisitsOf(s, s.readers[r]);
    var place := RR.PositionOf(s.linked, n);
    aim := Aim(n, s.rules[n], s.readers[r].walk.call, place);
    forall x | 0 <= x < place ensures s.linked[x] in s.rules && !Matches(s.rules[s.linked[x]], aim.call) {
      assert s.linked[x] in s.linked && s.linked[x] < n;
    }
  }

  /** Nothing has been charged yet; the monitor may be off. */
  ghost predicate Opens(h: Run, i: nat, passes: nat, aim: Aim) {
    && |h.states| > 0 && Tally(h, aim.n, i, 0, passes)
    && AimedAt(Last(h).reg, aim, 0) && Last(h).prot.stage.Loaded?
  }

  lemma PendingCanEnd(h: Run, i: nat, passes: nat, aim: Aim, r: R.Tid)
    requires Opens(h, i, passes, aim) && aim.n != R.HEAD && IsPending(Last(h).reg, aim.n, r)
    ensures Enabled(Last(h), EndOf(r)) && LetsThrough(Last(h), EndOf(r), aim.n)
  {
    InvAtLast(h);
    if r == TIMER {
      PendingAsks(Last(h), aim.n);
    }
    PendingEnds(Last(h), aim.n, r);
  }

  lemma SectionEnded(s: State, r: R.Tid)
    requires Enabled(s, EndOf(r))
    ensures OnlyEnded(s, Apply(s, EndOf(r)), r)
  {
    if r == TIMER {
      AskEnded(s);
    } else {
      CallEnded(s, r - 1);
    }
  }

  lemma EndingKeepsAim(s: State, s': State, aim: Aim, r: R.Tid)
    requires OnlyEnded(s, s', r) && AimedAt(s.reg, aim, 0) && s.prot.stage.Loaded?
    ensures AimedAt(s'.reg, aim, 0) && s'.prot.stage.Loaded?
    ensures Pending(s'.reg, aim.n) == Pending(s.reg, aim.n) - {r}
    ensures forall a :: EndedBy(a).Some? ==> !ChargesRule(s, a, aim.n) && !ZeroesRule(s, a, aim.n)
  {
  }

  lemma EndPending(h: Run, i: nat, passes: nat, aim: Aim, r: R.Tid) returns (h': Run)
    requires Opens(h, i, passes, aim) && aim.n != R.HEAD && IsPending(Last(h).reg, aim.n, r)
    ensures Continues(h, h') && Opens(h', i, passes + 1, aim)
    ensures Pending(Last(h').reg, aim.n) == Pending(Last(h).reg, aim.n) - {r}
  {
    PendingCanEnd(h, i, passes, aim, r);
    SectionEnded(Last(h), r);
    EndingKeepsAim(Last(h), Apply(Last(h), EndOf(r)), aim, r);
    h' := Step(h, aim.n, i, 0, passes, EndOf(r));
  }

  lemma {:induction false} EndAllPending(h: Run, i: nat, passes: nat, aim: Aim, passes': nat) returns (h': Run)
    requires Opens(h, i, passes, aim) && aim.n != R.HEAD
    requires passes' == passes + |Pending(Last(h).reg, aim.n)|
    ensures Continues(h, h') && Opens(h', i, passes', aim)
    decreases |Pending(Last(h).reg, aim.n)|
  {
    if r :| r in Pending(Last(h).reg, aim.n) {
      var m := EndPending(h, i, passes, aim, r);
      h' := EndAllPending(m, i, passes + 1, aim, passes');
      ContinuesOn(h, m, h');
    } else {
      h' := h;
    }
  }

  lemma SwitchesOn(s: State)
    requires s.prot.stage.Loaded?
    ensures Enabled(s, Protocol(P.SwitchOn))
    ensures var s' := Apply(s, Protocol(P.SwitchOn)); s'.reg == s.reg && InService(s'.prot)
  {
  }

  lemma SwitchOn(h: Run, i: nat, passes: nat, aim: Aim) returns (h': Run)
    requires Opens(h, i, passes, aim)
    ensures Continues(h, h') && Serves(h', i, passes, aim, 0)
  {
    SwitchesOn(Last(h));
    h' := Step(h, aim.n, i, 0, passes, Protocol(P.SwitchOn));
  }

  lemma WindowOpensAtLast(h: Run, n: R.Ptr)
    requires IsRun(h.states, h.actions) && RR.CountOf(Last(h).reg, n) == Some(0)
    ensures Tally(h, n, |h.actions|, 0, 0)
  {
    assert ChargeLog(h.states, h.actions, n, |h.actions|, |h.actions|) == [];
    assert PassLog(h.states, h.actions, n, |h.actions|, |h.actions|) == [];
  }

  lemma ListedIsNotHead(s: R.State, n: R.Ptr)
    requires R.Cells(s) && n in s.linked
    ensures n != R.HEAD && n in s.rules
  {
  }

  // ----------------------------------------------------------- main results

  /** The run goes on as a window of rule n in which so many charges fall and so many passes. */
  ghost predicate GoesOn(h: Run, h': Run, n: R.Ptr, charges: nat, passes: nat) {
    && Continues(h, h') && IsWindow(h'.states, h'.actions, n, |h.actions|, |h'.actions|)
    && CountTrue(ChargeLog(h'.states, h'.actions, n, |h.actions|, |h'.actions|)) == charges
    && |Passes(h'.states, h'.actions, n, |h.actions|, |h'.actions|)| == passes
  }

  lemma TallyGoesOn(h: Run, h': Run, n: R.Ptr, charges: nat, passes: nat)
    requires Continues(h, h') && Tally(h', n, |h.actions|, charges, passes)
    ensures GoesOn(h, h', n, charges, passes)
  {
    PassesAreLogged(h'.states, h'.actions, n, |h.actions|, |h'.actions|);
  }

  lemma PendingOpens(h: Run, n: R.Ptr, r: R.Tid) returns (aim: Aim)
    requires IsRun(h.states, h.actions) && n in Last(h).reg.linked && Last(h).prot.stage.Loaded?
    requires RR.CountOf(Last(h).reg, n) == Some(0) && IsPending(Last(h).reg, n, r)
    ensures n != R.HEAD && n in Last(h).reg.rules
    ensures aim.n == n && aim.rule == Last(h).reg.rules[n] && Opens(h, |h.actions|, 0, aim)
  {
    InvAtLast(h);
    ListedIsNotHead(Last(h).reg, n);
    aim := PendingAims(Last(h).reg, n, r);
    WindowOpensAtLast(h, n);
  }

  lemma AllThrough(h: Run, i: nat, aim: Aim, passes: nat, calls: nat) returns (h': Run)
    requires Opens(h, i, 0, aim) && aim.n != R.HEAD && calls == Max(0, aim.rule.maxCalls)
    requires passes == |Pending(Last(h).reg, aim.n)|
    ensures Continues(h, h') && Tally(h', aim.n, i, calls, passes + calls)
  {
    var m := EndAllPending(h, i, 0, aim, passes);
    var l := SwitchOn(m, i, passes, aim);
    h' := ManyMore(l, i, passes, aim, 0, passes + calls, calls);
    ContinuesOn(h, m, l);
    ContinuesOn(h, l, h');
  }

  /** The bound is attained: wherever a window of a rule in the list opens while sections admitted
      by that rule are pending, the run can go on so that max(0, maxCalls) calls and one more for
      each of those sections are let through, with max(0, maxCalls) charges. */
  lemma BoundIsAttained(h: Run, n: R.Ptr) returns (h': Run)
    requires IsRun(h.states, h.actions) && n in Last(h).reg.linked && Last(h).prot.stage.Loaded?
    requires RR.CountOf(Last(h).reg, n) == Some(0) && Pending(Last(h).reg, n) != {}
    ensures n in Last(h).reg.rules
    ensures var calls := Max(0, Last(h).reg.rules[n].maxCalls);
            GoesOn(h, h', n, calls, |Pending(Last(h).reg, n)| + calls)
  {
    var r :| r in Pending(Last(h).reg, n);
    var aim := PendingOpens(h, n, r);
    var calls := Max(0, aim.rule.maxCalls);
    h' := AllThrough(h, |h.actions|, aim, |Pending(Last(h).reg, n)|, calls);
    TallyGoesOn(h, h', n, calls, |Pending(Last(h).reg, n)| + calls);
  }

  /** However the run goes on to h', if that is still the same window and its counter has not
      wrapped, no more calls have been let through in it than the limit says. */
  ghost predicate KeepsLimit(h: Run, h': Run, n: R.Ptr, limit: int) {
    IsWindow(h'.states, h'.actions, n, |h.actions|, |h'.actions|)
    && CountTrue(ChargeLog(h'.states, h'.actions, n, |h.actions|, |h'.actions|)) <= INT_MAX
    ==> |Passes(h'.states, h'.actions, n, |h.actions|, |h'.actions|)| <= limit
  }

  lemma NonePendingKeepsLimit(h: Run, h': Run, n: R.Ptr, limit: int)
    requires Continues(h, h') && |h.states| == |h.actions| + 1 && n in Last(h).reg.rules
    requires limit == Max(0, Last(h).reg.rules[n].maxCalls) && Pending(Last(h).reg, n) == {}
    ensures KeepsLimit(h, h', n, limit)
  {
    if IsWindow(h'.states, h'.actions, n, |h.actions|, |h'.actions|)
       && CountTrue(ChargeLog(h'.states, h'.actions, n, |h.actions|, |h'.actions|)) <= INT_MAX {
      assert h'.states[|h.actions|] == Last(h);
      PassesAreBounded(h'.states, h'.actions, n, |h.actions|, |h'.actions|);
    }
  }

  lemma SomePendingBreaksLimit(h: Run, n: R.Ptr) returns (h': Run)
    requires IsRun(h.states, h.actions) && n in Last(h).reg.linked && Last(h).prot.stage.Loaded?
    requires RR.CountOf(Last(h).reg, n) == Some(0) && Pending(Last(h).reg, n) != {}
    ensures Continues(h, h') && n in Last(h).reg.rules
    ensures !KeepsLimit(h, h', n, Max(0, Last(h).reg.rules[n].maxCalls))
  {
    h' := BoundIsAttained(h, n);
    assert |Pending(Last(h).reg, n)| > 0;
  }

  /** When exactly the module keeps its promise: when a window of a rule in the list opens, no way of
      going on lets more than max(0, maxCalls) calls through in it, if and only if no section that
      the rule has admitted is pending then. */
  lemma LimitIsKeptIff(h: Run, n: R.Ptr)
    requires IsRun(h.states, h.actions) && n in Last(h).reg.linked && Last(h).prot.stage.Loaded?
    requires RR.CountOf(Last(h).reg, n) == Some(0)
    ensures n in Last(h).reg.rules
    ensures Pending(Last(h).reg, n) == {} <==>
            forall h' :: Continues(h, h') ==> KeepsLimit(h, h', n, Max(0, Last(h).reg.rules[n].maxCalls))
  {
    ListAtLastOfRun(h, n);
    var limit := Max(0, Last(h).reg.rules[n].maxCalls);
    if Pending(Last(h).reg, n) == {} {
      forall h' | Continues(h, h') ensures KeepsLimit(h, h', n, limit) {
        NonePendingKeepsLimit(h, h', n, limit);
      }
    } else {
      var h' := SomePendingBreaksLimit(h, n);
    }
  }

  lemma ListAtLastOfRun(h: Run, n: R.Ptr)
    requires IsRun(h.states, h.actions) && n in Last(h).reg.linked
    ensures n in Last(h).reg.rules
  {
    InvAtLast(h);
    ListedIsNotHead(Last(h).reg, n);
  }
}
