/**
 The unloader: the order of its steps through core_exit, and how near it is to
 the moment at which it finds nobody inside.
 */
module WrapperUnload {
  import opened CTypes
  import opened WrapperProtocol
  import opened WrapperSafety
  import opened WrapperRuns
  import opened WrapperPrograms

  // --------------------------------------------------------------- its code

  function Flushes(n: nat): seq<Action> {
    if n == 0 then [] else Flushes(n - 1) + [FlushOne(UNLOADER)]
  }

  /** n vain turns of its wait loop. */
  function UnloadTurns(n: nat): seq<Action> {
    if n == 0 then [] else UnloadTurns(n - 1) + [UnloadPrepare, UnloadTest, UnloadResume]
  }

  /** Monitor off, then the flush of so many waiters. */
  ghost predicate InFlush(path: seq<Action>, tail: seq<Action>) {
    exists n: nat :: path == [BeginUnload, FlushLock(UNLOADER)] + Flushes(n) + tail
  }

  /** The timer deleted after that, and in the wait loop after any number of turns. */
  ghost predicate InUnloadLoop(path: seq<Action>, tail: seq<Action>) {
    exists n: nat, before ::
      InFlush(before, [FlushUnlock(UNLOADER), DeleteTimer]) && path == before + UnloadTurns(n) + tail
  }

  /** The path leads to this stage of core_exit. */
  ghost predicate UnloadLeadsTo(path: seq<Action>, s: State) {
    match s.stage
    case Loaded => path == []
    case Stopping =>
      if UNLOADER in s.agents && s.agents[UNLOADER].Flushing? then InFlush(path, []) else path == [BeginUnload]
    case DeletingTimer => InFlush(path, [FlushUnlock(UNLOADER)])
    case UnloadPreparing => InUnloadLoop(path, [])
    case UnloadTesting => InUnloadLoop(path, [UnloadPrepare])
    case UnloadParked => InUnloadLoop(path, [UnloadPrepare, UnloadTest])
    case Quiescent => InUnloadLoop(path, [UnloadPrepare, UnloadTest])
    case Unloaded => InUnloadLoop(path, [UnloadPrepare, UnloadTest, FinishUnload])
  }

  lemma FlushGoesOn(path: seq<Action>)
    requires InFlush(path, [])
    ensures InFlush(path + [FlushOne(UNLOADER)], []) && InFlush(path + [FlushUnlock(UNLOADER)], [FlushUnlock(UNLOADER)])
  {
    var n: nat :| path == [BeginUnload, FlushLock(UNLOADER)] + Flushes(n) + [];
    assert Flushes(n + 1) == Flushes(n) + [FlushOne(UNLOADER)];
    assert path + [FlushOne(UNLOADER)] == [BeginUnload, FlushLock(UNLOADER)] + Flushes(n + 1) + [];
    assert path + [FlushUnlock(UNLOADER)] ==
           [BeginUnload, FlushLock(UNLOADER)] + Flushes(n) + [FlushUnlock(UNLOADER)];
  }

  lemma FlushBegins()
    ensures InFlush([BeginUnload, FlushLock(UNLOADER)], [])
  {
    assert [BeginUnload, FlushLock(UNLOADER)] == [BeginUnload, FlushLock(UNLOADER)] + Flushes(0) + [];
  }

  lemma TimerIsDeleted(path: seq<Action>)
    requires InFlush(path, [FlushUnlock(UNLOADER)])
    ensures InUnloadLoop(path + [DeleteTimer], [])
  {
    var n: nat :| path == [BeginUnload, FlushLock(UNLOADER)] + Flushes(n) + [FlushUnlock(UNLOADER)];
    var before := path + [DeleteTimer];
    assert before == [BeginUnload, FlushLock(UNLOADER)] + Flushes(n) + [FlushUnlock(UNLOADER), DeleteTimer];
    assert InFlush(before, [FlushUnlock(UNLOADER), DeleteTimer]);
    assert before == before + UnloadTurns(0) + [];
  }

  lemma UnloadLoopGoesOn(path: seq<Action>, tail: seq<Action>, a: Action, tail': seq<Action>)
    requires InUnloadLoop(path, tail) && tail' == tail + [a]
    ensures InUnloadLoop(path + [a], tail')
  {
    var n: nat, before :|
      InFlush(before, [FlushUnlock(UNLOADER), DeleteTimer]) && path == before + UnloadTurns(n) + tail;
    assert path + [a] == before + UnloadTurns(n) + tail';
  }

  lemma UnloadLoopTurns(path: seq<Action>)
    requires InUnloadLoop(path, [UnloadPrepare, UnloadTest])
    ensures InUnloadLoop(path + [UnloadResume], [])
  {
    var n: nat, before :|
      InFlush(before, [FlushUnlock(UNLOADER), DeleteTimer])
      && path == before + UnloadTurns(n) + [UnloadPrepare, UnloadTest];
    assert UnloadTurns(n + 1) == UnloadTurns(n) + [UnloadPrepare, UnloadTest, UnloadResume];
    assert path + [UnloadResume] == before + UnloadTurns(n + 1) + [];
  }

  /** The places of the unloader agree: it is among the flushers just while it stops the engine. */
  predicate FlusherIsStopping(s: State) {
    UNLOADER in s.agents <==> s.stage.Stopping?
  }

  lemma UnloadStepLeadsOn(s: State, a: Action, path: seq<Action>)
    requires FlusherIsStopping(s) && Enabled(s, a) && UnloaderStep(a) && UnloadLeadsTo(path, s)
    ensures UnloadLeadsTo(path + [a], Apply(s, a))
  {
    match a
    case BeginUnload => assert path + [a] == [BeginUnload];
    case FlushLock(_) => FlushBegins(); assert path + [a] == [BeginUnload, FlushLock(UNLOADER)];
    case FlushOne(_) => FlushGoesOn(path);
    case FlushUnlock(_) => FlushGoesOn(path);
    case DeleteTimer => TimerIsDeleted(path);
    case UnloadPrepare => UnloadLoopGoesOn(path, [], a, [UnloadPrepare]);
    case UnloadTest => UnloadLoopGoesOn(path, [UnloadPrepare], a, [UnloadPrepare, UnloadTest]);
    case UnloadResume => UnloadLoopTurns(path);
    case FinishUnload =>
      UnloadLoopGoesOn(path, [UnloadPrepare, UnloadTest], a, [UnloadPrepare, UnloadTest, FinishUnload]);
  }

  /** Nobody else moves the unloader. */
  lemma OthersKeepUnloader(s: State, a: Action)
    requires FlusherIsStopping(s) && Enabled(s, a) && !UnloaderStep(a)
    ensures var s' := Apply(s, a);
            && s'.stage == s.stage
            && (UNLOADER in s'.agents <==> UNLOADER in s.agents)
            && (UNLOADER in s.agents ==> s'.agents[UNLOADER] == s.agents[UNLOADER])
  {
  }

  lemma UnloadStepFits(s: State, a: Action, s': State, path: seq<Action>)
    requires UnloadInv(s) && Enabled(s, a) && s' == Apply(s, a) && UnloadLeadsTo(path, s)
    ensures UnloadLeadsTo(if UnloaderStep(a) then path + [a] else path, s')
  {
    if UnloaderStep(a) {
      UnloadStepLeadsOn(s, a, path);
    } else {
      OthersKeepUnloader(s, a);
    }
  }

  lemma UnloadInRun(states: seq<State>, actions: seq<Action>, k: nat)
    requires IsRun(states, actions) && k < |states|
    ensures UnloadInv(states[k])
  {
    RunKeepsInv(states, actions, k);
  }

  lemma UnloadStepFitsInRun(states: seq<State>, actions: seq<Action>, k: nat, path: seq<Action>)
    requires IsRun(states, actions) && 0 < k < |states| && UnloadLeadsTo(path, states[k - 1])
    ensures UnloadLeadsTo(if UnloaderStep(actions[k - 1]) then path + [actions[k - 1]] else path, states[k])
  {
    UnloadInRun(states, actions, k - 1);
    UnloadStepFits(states[k - 1], actions[k - 1], states[k], path);
  }

  /** In every run the unloader's steps so far are a path through core_exit to its stage: monitor off,
      the waiters flushed, the timer deleted, then the test of active_wrappers, again after every
      wake-up, and the end after the test that found nobody inside. */
  lemma {:induction false} UnloaderFollowsCode(states: seq<State>, actions: seq<Action>, k: nat)
    requires IsRun(states, actions) && k < |states|
    ensures UnloadLeadsTo(Path(actions[..k], Unloader), states[k])
  {
    if k == 0 {
      assert actions[..0] == [];
    } else {
      UnloaderFollowsCode(states, actions, k - 1);
      UnloadStepFitsInRun(states, actions, k, Path(actions[..k - 1], Unloader));
      PathGrows(actions, k, Unloader);
    }
  }

  // ------------------------------------------------------------- its wait

  /** The steps the unloader has left until it finds nobody inside, while nobody is. */
  function UnloadLeft(s: State): nat {
    match s.stage
    case UnloadParked => 3
    case UnloadPreparing => 2
    case UnloadTesting => 1
    case _ => 0
  }

  predicate Waits(s: State) {
    s.stage.UnloadParked? || s.stage.UnloadPreparing? || s.stage.UnloadTesting?
  }

  predicate WaitStep(a: Action) {
    a.UnloadPrepare? || a.UnloadTest? || a.UnloadResume?
  }

  /** With nobody inside each of its steps brings the unloader nearer, and nobody else moves it; at
      the end it has found nobody inside. */
  lemma UnloadNears(s: State, a: Action)
    requires FlusherIsStopping(s) && Waits(s) && s.active == 0 && Enabled(s, a)
    ensures var s' := Apply(s, a);
            && (Waits(s') || s'.stage.Quiescent?)
            && UnloadLeft(s') + (if WaitStep(a) then 1 else 0) == UnloadLeft(s)
  {
  }

  /** It has a next step, or one call's wake-up leads to one. */
  lemma UnloadProceeds(s: State) returns (a: Action)
    requires Inv(s) && Waits(s) && s.active == 0
    ensures Enabled(s, a)
    ensures WaitStep(a) || (a.WakeUnloader? && !Apply(s, a).unloadArmed && s.stage.UnloadParked? && s.unloadArmed)
  {
    match s.stage
    case UnloadPreparing => a := UnloadPrepare;
    case UnloadTesting => a := UnloadTest;
    case UnloadParked =>
      if s.unloadArmed {
        var t :| t in s.threads && s.threads[t].pc.Waking?;
        a := WakeUnloader(t);
      } else {
        a := UnloadResume;
      }
  }

  function WaitSteps(actions: seq<Action>): nat {
    if actions == [] then 0
    else WaitSteps(actions[..|actions| - 1]) + (if WaitStep(actions[|actions| - 1]) then 1 else 0)
  }

  lemma WaitStepsSlice(actions: seq<Action>, i: nat, j: nat)
    requires i < j <= |actions|
    ensures WaitSteps(actions[i..j]) == WaitSteps(actions[i..j - 1]) + if WaitStep(actions[j - 1]) then 1 else 0
  {
    assert actions[i..j][..j - 1 - i] == actions[i..j - 1];
  }

  /** The step brings the unloader nearer by what it does itself. */
  ghost predicate Nearer(s: State, a: Action, s': State) {
    && (Waits(s') || s'.stage.Quiescent?)
    && UnloadLeft(s') + (if WaitStep(a) then 1 else 0) == UnloadLeft(s)
  }

  lemma NearsInRun(states: seq<State>, actions: seq<Action>, k: nat)
    requires IsRun(states, actions) && 0 < k < |states| && Waits(states[k - 1]) && states[k - 1].active == 0
    ensures Nearer(states[k - 1], actions[k - 1], states[k])
  {
    UnloadInRun(states, actions, k - 1);
    UnloadNears(states[k - 1], actions[k - 1]);
  }

  lemma {:induction false} NearsAlong(states: seq<State>, actions: seq<Action>, i: nat, j: nat)
    requires i <= j <= |actions| < |states|
    requires forall k :: i < k <= j ==> Nearer(states[k - 1], actions[k - 1], states[k])
    ensures WaitSteps(actions[i..j]) + UnloadLeft(states[j]) == UnloadLeft(states[i])
  {
    if i < j {
      NearsAlong(states, actions, i, j - 1);
      assert Nearer(states[j - 1], actions[j - 1], states[j]);
      WaitStepsSlice(actions, i, j);
    } else {
      assert actions[i..j] == [];
    }
  }

  /** The wait for the last call ends: from any state in which nobody is inside, and as long as nobody
      enters, the unloader has found nobody inside after at most three steps of its own. */
  lemma UnloaderGetsThrough(states: seq<State>, actions: seq<Action>, i: nat, j: nat)
    requires IsRun(states, actions) && i < j < |states|
    requires forall k :: i <= k < j ==> states[k].active == 0 && Waits(states[k])
    ensures Waits(states[j]) || states[j].stage.Quiescent?
    ensures WaitSteps(actions[i..j]) + UnloadLeft(states[j]) == UnloadLeft(states[i]) <= 3
    ensures states[j].stage.Quiescent? <==> WaitSteps(actions[i..j]) == UnloadLeft(states[i])
  {
    forall k | i < k <= j ensures Nearer(states[k - 1], actions[k - 1], states[k]) {
      NearsInRun(states, actions, k);
    }
    NearsAlong(states, actions, i, j);
    assert Nearer(states[j - 1], actions[j - 1], states[j]);
  }
}
