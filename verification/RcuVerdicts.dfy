/**
 What a read-side section decides and how long it takes: its verdict is that of
 its one charge, and its walk is bounded by the rules added so far.
 */
module RcuVerdicts {
  import opened CTypes
  import opened Rules
  import opened RcuRegistry
  import opened RcuSafety
  import opened RcuRuns

  // ------------------------------------------------------ verdict and charge

  /** The step is the charge that ended the walk of section r of reader t: it increments the
      counter of the rule picked, and the verdict says whether the new count exceeds the limit. */
  ghost predicate ChargedBy(s: State, a: Action, t: Tid, r: Reader) {
    && a == Examine(t)
    && r.phase.Finished?
    && Charges(s, a, r.phase.hit)
    && s.readers[t].start == r.start && s.readers[t].walk == r.walk
    && (r.phase.blocked <==> AtomicIncReturn(s.mem[r.phase.hit].count) > s.mem[r.phase.hit].rule.maxCalls)
  }

  /** A walk that has ended with a pick had ended before the step, or was ended by its charge. */
  lemma FinishedStep(s: State, a: Action, t: Tid)
    requires Inv(s) && Enabled(s, a) && t in Apply(s, a).readers
    requires Apply(s, a).readers[t].phase.Finished? && Apply(s, a).readers[t].phase.hit != HEAD
    ensures var r := Apply(s, a).readers[t];
            (t in s.readers && s.readers[t] == r) || ChargedBy(s, a, t, r)
  {
    if a == Examine(t) {
      ExamineFinishes(s, t);
    } else {
      OthersKeepReader(s, a, t);
    }
  }

  lemma ExamineFinishes(s: State, t: Tid)
    requires Inv(s) && Enabled(s, Examine(t))
    ensures var r := DoExamine(s, t).readers[t]; r.phase.Finished? ==> ChargedBy(s, Examine(t), t, r)
    ensures forall n :: Charges(s, Examine(t), n) ==>
              DoExamine(s, t).readers[t].phase.Finished? && DoExamine(s, t).readers[t].phase.hit == n
  {
    CursorAllocated(s, t);
    assert ReaderHolds(s, s.readers[t]);
  }

  /** Whoever has ended its walk, or stands still, is left alone by the others. */
  lemma OthersKeepReader(s: State, a: Action, t: Tid)
    requires Enabled(s, a) && t in Apply(s, a).readers && a != Examine(t)
    ensures Apply(s, a).readers[t].phase.Finished? && Apply(s, a).readers[t].phase.hit != HEAD ==>
              t in s.readers && s.readers[t] == Apply(s, a).readers[t]
  {
    if a.Examine? {
      ExamineTouchesOne(s, a.tid);
    } else if a.FollowNext? {
      FollowTouchesOne(s, a.tid);
      FollowFindsNoMatch(s, a.tid);
    }
  }

  lemma ExamineTouchesOne(s: State, tid: Tid)
    requires Enabled(s, Examine(tid))
    ensures DoExamine(s, tid).readers.Keys == s.readers.Keys
    ensures forall t :: t in s.readers && t != tid ==> DoExamine(s, tid).readers[t] == s.readers[t]
  {
  }

  lemma FollowTouchesOne(s: State, tid: Tid)
    requires Enabled(s, FollowNext(tid))
    ensures DoFollowNext(s, tid).readers.Keys == s.readers.Keys
    ensures forall t :: t in s.readers && t != tid ==> DoFollowNext(s, tid).readers[t] == s.readers[t]
  {
  }

  lemma FollowFindsNoMatch(s: State, tid: Tid)
    requires Enabled(s, FollowNext(tid))
    ensures var r := DoFollowNext(s, tid).readers[tid]; r.phase.Finished? ==> r.phase.hit == HEAD
  {
  }

  lemma FinishedStays(s: State, a: Action, t: Tid)
    requires Enabled(s, a) && t in s.readers && s.readers[t].phase.Finished? && a != End(t)
    ensures t in Apply(s, a).readers && Apply(s, a).readers[t] == s.readers[t]
  {
    if a.Examine? {
      ExamineTouchesOne(s, a.tid);
    } else if a.FollowNext? {
      FollowTouchesOne(s, a.tid);
    }
  }

  lemma FinishedStepInRun(states: seq<State>, actions: seq<Action>, t: Tid, k: nat)
    requires IsRun(states, actions) && 0 < k < |states| && t in states[k].readers
    requires states[k].readers[t].phase.Finished? && states[k].readers[t].phase.hit != HEAD
    ensures (t in states[k - 1].readers && states[k - 1].readers[t] == states[k].readers[t])
            || ChargedBy(states[k - 1], actions[k - 1], t, states[k].readers[t])
  {
    RunKeepsInv(states, actions, k - 1);
    FinishedStep(states[k - 1], actions[k - 1], t);
  }

  lemma FinishedStaysInRun(states: seq<State>, actions: seq<Action>, t: Tid, k: nat)
    requires IsRun(states, actions) && 0 < k < |states| && t in states[k - 1].readers
    requires states[k - 1].readers[t].phase.Finished? && actions[k - 1] != End(t)
    ensures t in states[k].readers && states[k].readers[t] == states[k - 1].readers[t]
  {
    FinishedStays(states[k - 1], actions[k - 1], t);
  }

  lemma ChargeFinishesInRun(states: seq<State>, actions: seq<Action>, t: Tid, m: nat, n: Ptr)
    requires IsRun(states, actions) && m < |actions|
    requires actions[m] == Examine(t) && Charges(states[m], actions[m], n)
    ensures t in states[m + 1].readers && ChargedBy(states[m], actions[m], t, states[m + 1].readers[t])
    ensures states[m + 1].readers[t].phase.hit == n
  {
    RunKeepsInv(states, actions, m);
    ExamineFinishes(states[m], t);
  }

  /** After its charge the section does nothing but end. */
  lemma {:induction false} ChargeEndsWalk(states: seq<State>, actions: seq<Action>, t: Tid, walk: Walk,
                                          i: nat, m: nat, j: nat, n: Ptr)
    requires InSection(states, actions, t, walk, i, j) && i < m < j
    requires actions[m] == Examine(t) && Charges(states[m], actions[m], n)
    ensures t in states[j].readers && ChargedBy(states[m], actions[m], t, states[j].readers[t])
    ensures states[j].readers[t].phase.hit == n
  {
    if j == m + 1 {
      ChargeFinishesInRun(states, actions, t, m, n);
    } else {
      ChargeEndsWalk(states, actions, t, walk, i, m, j - 1, n);
      FinishedStaysInRun(states, actions, t, j);
    }
  }

  lemma {:induction false} PickWasCharged(states: seq<State>, actions: seq<Action>, t: Tid, walk: Walk, i: nat, j: nat)
    returns (m: nat)
    requires InSection(states, actions, t, walk, i, j)
    requires t in states[j].readers && states[j].readers[t].phase.Finished? && states[j].readers[t].phase.hit != HEAD
    ensures i < m < j && ChargedBy(states[m], actions[m], t, states[j].readers[t])
  {
    FinishedStepInRun(states, actions, t, j);
    if ChargedBy(states[j - 1], actions[j - 1], t, states[j].readers[t]) {
      m := j - 1;
    } else {
      assert j - 1 != i by { assert Enabled(states[i], actions[i]); }
      m := PickWasCharged(states, actions, t, walk, i, j - 1);
    }
  }

  /** Step m is a charge of the section of t that began at step i and is still open at j. */
  ghost predicate IsCharge(states: seq<State>, actions: seq<Action>, t: Tid, i: nat, j: nat, m: nat, n: Ptr) {
    i < m < j <= |actions| < |states| && actions[m] == Examine(t) && Charges(states[m], actions[m], n)
  }

  lemma ChargeIsOfRule(states: seq<State>, actions: seq<Action>, m: nat, n: Ptr)
    requires IsRun(states, actions) && m < |actions| && Charges(states[m], actions[m], n)
    ensures n != HEAD
  {
    RunKeepsInv(states, actions, m);
  }

  lemma OneCharge(states: seq<State>, actions: seq<Action>, t: Tid, walk: Walk, i: nat, j: nat,
                  m: nat, n: Ptr, m': nat, n': Ptr)
    requires InSection(states, actions, t, walk, i, j)
    requires IsCharge(states, actions, t, i, j, m, n) && IsCharge(states, actions, t, i, j, m', n')
    ensures m >= m'
  {
    if m < m' {
      ChargeEndsWalk(states, actions, t, walk, i, m, m', n);
    }
  }

  /** The verdict of a section: a finished walk with a pick charged that rule exactly once, and no
      other, and blocks the call if and only if that charge took the counter over the limit; a
      finished walk without a pick charged nothing. */
  lemma VerdictIsCharge(states: seq<State>, actions: seq<Action>, t: Tid, walk: Walk, i: nat, j: nat)
    requires InSection(states, actions, t, walk, i, j)
    requires t in states[j].readers && states[j].readers[t].phase.Finished?
    ensures states[j].readers[t].phase.hit != HEAD ==>
              exists m :: i < m < j && ChargedBy(states[m], actions[m], t, states[j].readers[t])
    ensures forall m, n :: IsCharge(states, actions, t, i, j, m, n) ==> n == states[j].readers[t].phase.hit != HEAD
    ensures forall m, n, m', n' ::
              IsCharge(states, actions, t, i, j, m, n) && IsCharge(states, actions, t, i, j, m', n') ==> m == m'
  {
    if states[j].readers[t].phase.hit != HEAD {
      var m := PickWasCharged(states, actions, t, walk, i, j);
    }
    forall m, n | IsCharge(states, actions, t, i, j, m, n) ensures n == states[j].readers[t].phase.hit != HEAD {
      ChargeEndsWalk(states, actions, t, walk, i, m, j, n);
      ChargeIsOfRule(states, actions, m, n);
    }
    forall m, n, m', n' | IsCharge(states, actions, t, i, j, m, n) && IsCharge(states, actions, t, i, j, m', n')
      ensures m == m'
    {
      OneCharge(states, actions, t, walk, i, j, m, n, m', n');
      OneCharge(states, actions, t, walk, i, j, m', n', m, n);
    }
  }

  // ------------------------------------------------------------ late verdicts

  const LATE_RULE: Rule := Rule(1000, "", 7, 1)
  const LATE_CALL: Call := Call(1000, "make", 7)

  function LateAction(i: nat): Action {
    match i
    case 0 => Publish(LATE_RULE)
    case 1 => Begin(1, Charge(LATE_CALL))
    case 2 => FollowNext(1)
    case 3 => Examine(1)
    case 4 => StatsTouch(7, 0, true)
    case 5 => Begin(2, Charge(LATE_CALL))
    case 6 => FollowNext(2)
    case 7 => Examine(2)
    case 8 => End(1)
    case _ => End(2)
  }

  function LateReader(start: nat, phase: Phase): Reader {
    Reader(start, Charge(LATE_CALL), phase, if phase.Finished? then [1] else [])
  }

  function LateState(i: nat): State {
    var admitted := Finished(1, false);
    var listed := (count: Int32, readers: map<Tid, Reader>, clock: nat) =>
      State(map[HEAD := Head(1, 1), 1 := Entry(HEAD, HEAD, LATE_RULE, count)], [1], map[1 := LATE_RULE], map[1 := 0],
            map[], map[], [], readers, 1, clock, false);
    match i
    case 0 => EMPTY
    case 1 => listed(0, map[], 1)
    case 2 => listed(0, map[1 := LateReader(1, Load(HEAD))], 2)
    case 3 => listed(0, map[1 := LateReader(1, Look(1))], 3)
    case 4 => listed(1, map[1 := LateReader(1, admitted)], 4)
    case 5 => listed(0, map[1 := LateReader(1, admitted)], 5)
    case 6 => listed(0, map[1 := LateReader(1, admitted), 2 := LateReader(5, Load(HEAD))], 6)
    case 7 => listed(0, map[1 := LateReader(1, admitted), 2 := LateReader(5, Look(1))], 7)
    case 8 => listed(1, map[1 := LateReader(1, admitted), 2 := LateReader(5, admitted)], 8)
    case 9 => listed(1, map[2 := LateReader(5, admitted)], 9)
    case _ => listed(1, map[], 10)
  }

  ghost predicate LateStep(i: nat) {
    Enabled(LateState(i), LateAction(i)) && LateState(i + 1) == Apply(LateState(i), LateAction(i))
  }

  lemma LatePublish()
    ensures LateStep(0)
  {
    var s := DoPublish(EMPTY, LATE_RULE);
    assert s.mem == LateState(1).mem && s.linked == [1];
    assert s.rules == map[1 := LATE_RULE] && s.born == map[1 := 0];
    assert Apply(LateState(0), LateAction(0)) == LateState(1);
  }

  lemma LateEarly(i: nat)
    requires 1 <= i < 4
    ensures LateStep(i)
  {
    var s := LateState(i);
    var none: seq<Ptr> := [];
    assert none + [1] == [1];
    assert Apply(s, LateAction(i)).mem == LateState(i + 1).mem;
    assert Apply(s, LateAction(i)).readers == LateState(i + 1).readers;
    assert Apply(s, LateAction(i)) == LateState(i + 1);
  }

  lemma LateZero()
    ensures LateStep(4)
  {
    var s := LateState(4);
    assert s.linked[0] in s.rules && s.linked[0] in s.mem;
    assert FoundAt(s, 7, 0);
    assert !DoStatsTouch(s, 0, true).fault;
    assert SetCount(s.mem, 1, 0) == LateState(5).mem;
    assert DoStatsTouch(s, 0, true) == LateState(5);
    assert LateAction(4) == StatsTouch(7, 0, true);
    assert Enabled(s, LateAction(4));
    assert Apply(s, LateAction(4)) == LateState(5);
  }

  lemma LateCharge()
    ensures LateStep(7)
  {
    var s := LateState(7);
    var none: seq<Ptr> := [];
    assert none + [1] == [1];
    assert Apply(s, LateAction(7)).mem == LateState(8).mem;
    assert Apply(s, LateAction(7)).readers == LateState(8).readers;
    assert Apply(s, LateAction(7)) == LateState(8);
  }

  lemma LateBegin()
    ensures LateStep(5)
  {
    var s := LateState(5);
    assert Apply(s, LateAction(5)).readers == LateState(6).readers;
    assert Apply(s, LateAction(5)) == LateState(6);
  }

  lemma LateFollow()
    ensures LateStep(6)
  {
    var s := LateState(6);
    assert Apply(s, LateAction(6)).readers == LateState(7).readers;
    assert Apply(s, LateAction(6)) == LateState(7);
  }

  lemma LateEnd(i: nat)
    requires 8 <= i < 10
    ensures LateStep(i)
  {
    var s := LateState(i);
    assert s.readers - {i - 7} == LateState(i + 1).readers;
    assert Enabled(s, LateAction(i));
    assert LateAction(i) == End(i - 7);
    assert Apply(s, LateAction(i)) == LateState(i + 1);
  }

  lemma LateSteps(i: nat)
    requires i < 10
    ensures LateStep(i)
  {
    if i == 0 {
      LatePublish();
    } else if i < 4 {
      LateEarly(i);
    } else if i == 4 {
      LateZero();
    } else if i == 5 {
      LateBegin();
    } else if i == 6 {
      LateFollow();
    } else if i == 7 {
      LateCharge();
    } else {
      LateEnd(i);
    }
  }

  lemma RunOf(f: nat -> State, g: nat -> Action, n: nat) returns (states: seq<State>, actions: seq<Action>)
    requires f(0) == EMPTY
    requires forall i :: 0 <= i < n ==> Enabled(f(i), g(i)) && !g(i).Reclaim? && f(i + 1) == Apply(f(i), g(i))
    ensures IsRun(states, actions) && |actions| == n
    ensures forall i :: 0 <= i < n ==> actions[i] == g(i)
    ensures forall i :: 0 <= i <= n ==> states[i] == f(i)
  {
    states := seq(n + 1, i requires 0 <= i => f(i));
    actions := seq(n, i requires 0 <= i => g(i));
  }

  lemma LateRun() returns (states: seq<State>, actions: seq<Action>)
    ensures IsRun(states, actions) && |actions| == 10
    ensures forall i :: 0 <= i < 10 ==> actions[i] == LateAction(i)
    ensures forall i :: 0 <= i <= 10 ==> states[i] == LateState(i)
  {
    forall i: nat | i < 10
      ensures Enabled(LateState(i), LateAction(i)) && LateState(i + 1) == Apply(LateState(i), LateAction(i))
      ensures !LateAction(i).Reclaim?
    {
      LateSteps(i);
    }
    states, actions := RunOf((i: nat) => LateState(i), (i: nat) => LateAction(i), 10);
  }

  /** A window bounds the charges in it, not the verdicts that end in it: here two calls end
      unblocked in one window of a rule that allows one call, because the first was charged in the
      window before. */
  lemma LateVerdictExists() returns (states: seq<State>, actions: seq<Action>)
    ensures |states| == |actions| + 1 == 11 && IsWindow(states, actions, 1, 5, 10)
    ensures 1 in states[5].rules && states[5].rules[1].maxCalls == 1
    ensures actions[8] == End(1) && 1 in states[8].readers && states[8].readers[1].phase == Finished(1, false)
    ensures actions[9] == End(2) && 2 in states[9].readers && states[9].readers[2].phase == Finished(1, false)
  {
    states, actions := LateRun();
    forall k | 5 <= k < 10 ensures !Zeroes(states[k], actions[k], 1) {
      LateNeverZeroes(k);
    }
    LateEnds();
    assert states[5] == LateState(5) && states[8] == LateState(8) && states[9] == LateState(9);
    assert actions[8] == LateAction(8) && actions[9] == LateAction(9);
  }

  lemma LateEnds()
    ensures CountOf(LateState(5), 1) == Some(0) && LateState(5).rules == map[1 := LATE_RULE]
    ensures 1 in LateState(8).readers && LateState(8).readers[1].phase == Finished(1, false)
    ensures 2 in LateState(9).readers && LateState(9).readers[2].phase == Finished(1, false)
    ensures LateAction(8) == End(1) && LateAction(9) == End(2)
  {
  }

  lemma LateNeverZeroes(k: nat)
    requires 5 <= k < 10
    ensures !Zeroes(LateState(k), LateAction(k), 1)
  {
  }

  // --------------------------------------------------------- length of a walk

  /** Twice the insertion numbers still ahead of the section, and one step for its last look. */
  function WalkLeft(s: State, r: Reader): int {
    match r.phase
    case Load(from) => 2 * (s.last - from) + 1
    case Look(at) => 2 * (s.last - at) + 2
    case Finished(_, _) => 0
  }

  predicate OwnWalkStep(a: Action, t: Tid) {
    a == FollowNext(t) || a == Examine(t)
  }

  /** Each step of a walk brings its end nearer. */
  lemma WalkAdvances(s: State, a: Action, t: Tid)
    requires Inv(s) && Enabled(s, a) && OwnWalkStep(a, t)
    ensures 0 <= WalkLeft(Apply(s, a), Apply(s, a).readers[t]) < WalkLeft(s, s.readers[t])
  {
    CursorAllocated(s, t);
    assert ReaderHolds(s, s.readers[t]);
    InsertionNumbers(s, Cursor(s.readers[t]));
    if a.FollowNext? {
      FollowAdvances(s, t);
    } else {
      ExamineAdvances(s, t);
    }
  }

  lemma FollowAdvances(s: State, t: Tid)
    requires Structure(s) && Enabled(s, FollowNext(t)) && s.readers[t].phase.from in s.mem
    requires SeenSince(s, s.readers[t].phase.from, s.readers[t].start) && s.readers[t].phase.from <= s.last
    ensures var s' := DoFollowNext(s, t);
            t in s'.readers && 0 <= WalkLeft(s', s'.readers[t]) < WalkLeft(s, s.readers[t])
  {
    var p := s.readers[t].phase.from;
    NextIsHeld(s, p, s.readers[t].start);
    InsertionNumbers(s, Next(s, p));
  }

  lemma ExamineAdvances(s: State, t: Tid)
    requires Enabled(s, Examine(t)) && s.readers[t].phase.at in s.mem && s.mem[s.readers[t].phase.at].Entry?
    requires s.readers[t].phase.at <= s.last
    ensures var s' := DoExamine(s, t);
            t in s'.readers && 0 <= WalkLeft(s', s'.readers[t]) < WalkLeft(s, s.readers[t])
  {
  }

  lemma InsertionNumbers(s: State, p: Ptr)
    requires Cells(s) && (p == HEAD || p in s.linked || p in s.dead)
    ensures HEAD <= p <= s.last
  {
    assert p != HEAD ==> p in s.rules;
  }

  lemma WalkIsAhead(s: State, t: Tid)
    requires Cells(s) && ReadersHold(s) && t in s.readers
    ensures 0 <= WalkLeft(s, s.readers[t])
  {
    assert ReaderHolds(s, s.readers[t]);
    InsertionNumbers(s, Cursor(s.readers[t]));
  }

  lemma WalkIsAheadInRun(states: seq<State>, actions: seq<Action>, t: Tid, k: nat)
    requires IsRun(states, actions) && k < |states| && t in states[k].readers
    ensures 0 <= WalkLeft(states[k], states[k].readers[t])
  {
    RunKeepsInv(states, actions, k);
    WalkIsAhead(states[k], t);
  }

  /** Nobody else puts the end off, except by adding a rule, which costs two steps. */
  lemma OthersLeaveWalk(s: State, a: Action, t: Tid)
    requires Enabled(s, a) && t in s.readers && !OwnWalkStep(a, t) && a != End(t)
    ensures t in Apply(s, a).readers && Apply(s, a).readers[t] == s.readers[t]
    ensures Apply(s, a).last == s.last + if a.Publish? then 1 else 0
  {
    if a.Examine? {
      ExamineTouchesOne(s, a.tid);
    } else if a.FollowNext? {
      FollowTouchesOne(s, a.tid);
    }
  }

  function OwnWalkSteps(actions: seq<Action>, t: Tid): nat {
    if actions == [] then 0
    else OwnWalkSteps(actions[..|actions| - 1], t) + (if OwnWalkStep(actions[|actions| - 1], t) then 1 else 0)
  }

  lemma OwnWalkStepsSlice(actions: seq<Action>, i: nat, j: nat, t: Tid)
    requires i < j <= |actions|
    ensures OwnWalkSteps(actions[i..j], t) ==
            OwnWalkSteps(actions[i..j - 1], t) + if OwnWalkStep(actions[j - 1], t) then 1 else 0
  {
    assert actions[i..j][..j - 1 - i] == actions[i..j - 1];
  }

  /** How one step moves the balance of steps taken and steps left. */
  lemma WalkBalance(s: State, a: Action, t: Tid)
    requires Inv(s) && Enabled(s, a) && t in s.readers && a != End(t)
    ensures var s' := Apply(s, a);
            && t in s'.readers
            && WalkLeft(s', s'.readers[t]) + (if OwnWalkStep(a, t) then 1 else 0) - 2 * s'.last <=
               WalkLeft(s, s.readers[t]) - 2 * s.last
  {
    if OwnWalkStep(a, t) {
      WalkAdvances(s, a, t);
      OnlyPublishAdds(s, a);
    } else {
      OthersLeaveWalk(s, a, t);
    }
  }

  lemma BeginBalance(s: State, t: Tid, walk: Walk)
    requires Enabled(s, Begin(t, walk))
    ensures var s' := Apply(s, Begin(t, walk));
            t in s'.readers && WalkLeft(s', s'.readers[t]) == 2 * s'.last + 1
  {
  }

  /** From one state to the next the section takes at most as many steps as it comes nearer its end,
      two for each rule added allowed for. */
  ghost predicate Balanced(s: State, a: Action, s': State, t: Tid) {
    && t in s.readers && t in s'.readers
    && WalkLeft(s', s'.readers[t]) + (if OwnWalkStep(a, t) then 1 else 0) - 2 * s'.last <=
       WalkLeft(s, s.readers[t]) - 2 * s.last
  }

  lemma WalkBalanceInRun(states: seq<State>, actions: seq<Action>, t: Tid, walk: Walk, i: nat, j: nat, k: nat)
    requires InSection(states, actions, t, walk, i, j) && i + 1 < k <= j
    ensures Balanced(states[k - 1], actions[k - 1], states[k], t)
  {
    SectionStart(states, actions, t, walk, i, k - 1);
    RunKeepsInv(states, actions, k - 1);
    WalkBalance(states[k - 1], actions[k - 1], t);
  }

  lemma {:induction false} BalanceAlong(states: seq<State>, actions: seq<Action>, t: Tid, i: nat, j: nat)
    requires |states| == |actions| + 1 && i <= j < |states| && t in states[i].readers
    requires forall k :: i < k <= j ==> Balanced(states[k - 1], actions[k - 1], states[k], t)
    ensures t in states[j].readers
    ensures OwnWalkSteps(actions[i..j], t) + WalkLeft(states[j], states[j].readers[t]) - 2 * states[j].last <=
            WalkLeft(states[i], states[i].readers[t]) - 2 * states[i].last
  {
    if i < j {
      BalanceAlong(states, actions, t, i, j - 1);
      assert Balanced(states[j - 1], actions[j - 1], states[j], t);
      OwnWalkStepsSlice(actions, i, j, t);
    } else {
      assert actions[i..j] == [];
    }
  }

  lemma BeginBalanceInRun(states: seq<State>, actions: seq<Action>, t: Tid, walk: Walk, i: nat)
    requires IsRun(states, actions) && i < |actions| && actions[i] == Begin(t, walk)
    ensures t in states[i + 1].readers
    ensures WalkLeft(states[i + 1], states[i + 1].readers[t]) == 2 * states[i + 1].last + 1
  {
    BeginBalance(states[i], t, walk);
  }

  /** The walk of a section takes at most twice as many steps as rules have been added up to then,
      and one: as long as no rule is added it ends within a bound fixed when it began. */
  lemma WalkIsBounded(states: seq<State>, actions: seq<Action>, t: Tid, walk: Walk, i: nat, j: nat)
    requires InSection(states, actions, t, walk, i, j)
    ensures t in states[j].readers && 0 <= WalkLeft(states[j], states[j].readers[t])
    ensures OwnWalkSteps(actions[i + 1..j], t) + WalkLeft(states[j], states[j].readers[t]) <= 2 * states[j].last + 1
  {
    BeginBalanceInRun(states, actions, t, walk, i);
    forall k | i + 1 < k <= j ensures Balanced(states[k - 1], actions[k - 1], states[k], t) {
      WalkBalanceInRun(states, actions, t, walk, i, j, k);
    }
    BalanceAlong(states, actions, t, i + 1, j);
    WalkIsAheadInRun(states, actions, t, j);
  }
}
