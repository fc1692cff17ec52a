/**
 The main results about the RCU rule list, over every run: any number of
 readers, adders and simultaneous removers, interleaved in any order.
 */
module RcuRuns {
  import opened CTypes
  import opened Rules
  import opened RcuRegistry
  import opened RcuSafety

  /** A run. Cleanup frees without a grace period, once no section is open. */
  ghost predicate IsRun(states: seq<State>, actions: seq<Action>) {
    && |states| == |actions| + 1
    && states[0] == EMPTY
    && forall i {:trigger actions[i]} :: 0 <= i < |actions| ==>
         && Enabled(states[i], actions[i])
         && (actions[i].Reclaim? ==> states[i].readers == map[])
         && states[i + 1] == Apply(states[i], actions[i])
  }

  lemma {:induction false} RunKeepsInv(states: seq<State>, actions: seq<Action>, k: nat)
    requires IsRun(states, actions) && k < |states|
    ensures Inv(states[k]) && states[k].clock == k
  {
    if k > 0 {
      RunKeepsInv(states, actions, k - 1);
      StepKeeps(states[k - 1], actions[k - 1]);
      ClockTicks(states[k - 1], actions[k - 1]);
    }
  }

  lemma ClockTicks(s: State, a: Action)
    requires Enabled(s, a)
    ensures Apply(s, a).clock == s.clock + 1
  {
  }

  // ------------------------------------------------------- safe reclamation

  /** A pointer chase: each cell is the next of the one before it. */
  ghost predicate IsPath(s: State, path: seq<Ptr>) {
    forall i :: 0 <= i < |path| - 1 ==> path[i] in s.mem && path[i + 1] == s.mem[path[i]].next
  }

  lemma {:induction false} PathIsHeld(s: State, path: seq<Ptr>, since: nat, k: nat)
    requires Inv(s) && k < |path|
    requires forall i :: 0 <= i < k ==> Next(s, path[i]) == path[i + 1]
    requires SeenSince(s, path[0], since)
    requires forall f :: f in s.freed ==> s.dead[f] < since
    ensures path[k] in s.mem && SeenSince(s, path[k], since)
  {
    if k > 0 {
      PathIsHeld(s, path, since, k - 1);
      NextIsHeld(s, path[k - 1], since);
      assert path[k] == Next(s, path[k - 1]);
    }
  }

  /** No run follows a pointer to freed memory, and whatever a reader can still
      reach from its cursor, through unlinked rules or not, is not freed. */
  lemma SafeReclamation(states: seq<State>, actions: seq<Action>, k: nat, t: Tid, path: seq<Ptr>)
    requires IsRun(states, actions) && k < |states|
    requires t in states[k].readers && |path| > 0 && path[0] == Cursor(states[k].readers[t])
    requires forall i :: 0 <= i < |path| - 1 ==> Next(states[k], path[i]) == path[i + 1]
    ensures !states[k].fault
    ensures forall p :: p in path ==> p in states[k].mem && p !in states[k].freed
    ensures IsPath(states[k], path)
  {
    var s := states[k];
    RunKeepsInv(states, actions, k);
    assert ReaderHolds(s, s.readers[t]);
    forall i | 0 <= i < |path| ensures path[i] in s.mem {
      PathIsHeld(s, path, s.readers[t].start, i);
    }
  }

  /** Over a whole run a rule is freed at most once, only after it was unlinked, and
      every rule not freed is still in memory: in the list, or awaiting its remover. */
  lemma FreedOnce(states: seq<State>, actions: seq<Action>, k: nat)
    requires IsRun(states, actions) && k < |states|
    ensures forall i, j :: 0 <= i < j < |states[k].freed| ==> states[k].freed[i] != states[k].freed[j]
    ensures forall p :: 1 <= p <= states[k].last ==>
              (p in states[k].mem <==> p !in states[k].freed)
              && (p in states[k].linked <==> p !in states[k].dead)
    ensures forall p :: p in states[k].freed ==> p in states[k].dead
  {
    RunKeepsInv(states, actions, k);
    var s := states[k];
    assert forall p :: 1 <= p <= s.last ==> p in s.rules;
  }

  // ------------------------------------------------------ traversal meaning

  /** The rules in the list, oldest first. */
  ghost function LinkedRules(s: State): (r: seq<Rule>)
    requires Cells(s)
    ensures |r| == |s.linked|
    ensures forall k :: 0 <= k < |r| ==> s.linked[k] in s.rules && r[k] == s.rules[s.linked[k]]
  {
    assert forall p :: p in s.linked ==> p in s.rules;
    seq(|s.linked|, i requires 0 <= i < |s.linked| && s.linked[i] in s.rules => s.rules[s.linked[i]])
  }

  /** The history of `s` is part of that of `s'`. */
  ghost predicate Extends(s: State, s': State) {
    && s.last <= s'.last
    && (forall p :: p in s.rules ==> p in s'.rules && s'.rules[p] == s.rules[p])
    && (forall p :: p in s.born ==> p in s'.born && s'.born[p] == s.born[p])
  }

  lemma ExtendsTransitive(s: State, m: State, s': State)
    requires Extends(s, m) && Extends(m, s')
    ensures Extends(s, s')
  {
  }

  lemma HistoryGrows(s: State, a: Action)
    requires Cells(s) && Timed(s) && Enabled(s, a)
    ensures Extends(s, Apply(s, a))
  {
    if !a.Publish? {
      OnlyPublishAdds(s, a);
    }
  }

  lemma OnlyPublishAdds(s: State, a: Action)
    requires Enabled(s, a) && !a.Publish?
    ensures Apply(s, a).last == s.last && Apply(s, a).rules == s.rules && Apply(s, a).born == s.born
  {
  }

  lemma HistoryGrowsInRun(states: seq<State>, actions: seq<Action>, j: nat)
    requires IsRun(states, actions) && 0 < j < |states|
    ensures Extends(states[j - 1], states[j])
  {
    RunKeepsInv(states, actions, j - 1);
    HistoryGrows(states[j - 1], actions[j - 1]);
  }

  lemma {:induction false} ExtendsAlong(states: seq<State>, i: nat, j: nat)
    requires i <= j < |states|
    requires forall k :: 0 < k < |states| ==> Extends(states[k - 1], states[k])
    ensures Extends(states[i], states[j])
  {
    if i < j {
      ExtendsAlong(states, i, j - 1);
      ExtendsTransitive(states[i], states[j - 1], states[j]);
    }
  }

  lemma HistoryKept(states: seq<State>, actions: seq<Action>, i: nat, j: nat)
    requires IsRun(states, actions) && i <= j < |states|
    ensures Extends(states[i], states[j])
  {
    forall k | 0 < k < |states| ensures Extends(states[k - 1], states[k]) {
      HistoryGrowsInRun(states, actions, k);
    }
    ExtendsAlong(states, i, j);
  }

  /** Unlink times are kept, and a new one is the clock of the step that took the rule out. */
  ghost predicate DeadKept(s: State, s': State, clock: nat) {
    forall p :: p in s'.dead ==>
      if p in s.dead then s'.dead[p] == s.dead[p] else s'.dead[p] == clock && p in s.linked
  }

  lemma DeadStep(s: State, a: Action)
    requires Cells(s) && Enabled(s, a)
    ensures DeadKept(s, Apply(s, a), s.clock)
  {
    if a.Unlink? {
      assert s.linked[a.index] in s.linked;
    } else if a.Reclaim? {
      assert s.linked[0] in s.linked;
    }
  }

  lemma DeadInRun(states: seq<State>, actions: seq<Action>, j: nat)
    requires IsRun(states, actions) && 0 < j < |states|
    ensures DeadKept(states[j - 1], states[j], j - 1)
  {
    RunKeepsInv(states, actions, j - 1);
    DeadStep(states[j - 1], actions[j - 1]);
  }

  lemma {:induction false} UnlinkedAlong(states: seq<State>, j: nat, p: Ptr)
    requires j < |states| && states[0].dead == map[] && p in states[j].dead
    requires forall k: nat :: 0 < k < |states| ==> DeadKept(states[k - 1], states[k], k - 1)
    ensures states[j].dead[p] < j && p in states[states[j].dead[p]].linked
  {
    assert j > 0;
    assert DeadKept(states[j - 1], states[j], j - 1);
    if p in states[j - 1].dead {
      UnlinkedAlong(states, j - 1, p);
    }
  }

  lemma ListedIsAlive(states: seq<State>, actions: seq<Action>, k: nat)
    requires IsRun(states, actions) && k < |states|
    ensures forall p :: p in states[k].linked ==> p !in states[k].dead
  {
    RunKeepsInv(states, actions, k);
  }

  lemma DeadStayStep(s: State, a: Action)
    requires Enabled(s, a)
    ensures forall p :: p in s.dead ==> p in Apply(s, a).dead
  {
  }

  lemma DeadStayInRun(states: seq<State>, actions: seq<Action>, k: nat)
    requires IsRun(states, actions) && 0 < k < |states|
    ensures forall p :: p in states[k - 1].dead ==> p in states[k].dead
  {
    DeadStayStep(states[k - 1], actions[k - 1]);
  }

  /** From its unlink time on the rule is out of the list. */
  lemma {:induction false} OutSince(states: seq<State>, j: nat, p: Ptr, m: nat)
    requires m <= j < |states| && p in states[j].dead && states[j].dead[p] < m
    requires forall k: nat :: 0 < k < |states| ==> DeadKept(states[k - 1], states[k], k - 1)
    ensures p in states[m].dead
  {
    if m < j {
      assert DeadKept(states[j - 1], states[j], j - 1);
      OutSince(states, j - 1, p, m);
    }
  }

  /** The unlink time of a rule is the last instant at which it was in the list. */
  lemma UnlinkTime(states: seq<State>, actions: seq<Action>, j: nat, p: Ptr)
    requires IsRun(states, actions) && j < |states| && p in states[j].dead
    ensures states[j].dead[p] < j && p in states[states[j].dead[p]].linked
    ensures forall m :: states[j].dead[p] < m < |states| ==> p !in states[m].linked
  {
    UnlinkInstant(states, actions, j, p);
    forall m | states[j].dead[p] < m < |states| ensures p !in states[m].linked {
      ListedIsAlive(states, actions, m);
      if m <= j {
        forall k: nat | 0 < k < |states| ensures DeadKept(states[k - 1], states[k], k - 1) {
          DeadInRun(states, actions, k);
        }
        OutSince(states, j, p, m);
      } else {
        StaysDead(states, actions, j, m, p);
      }
    }
  }

  lemma {:induction false} StaysDead(states: seq<State>, actions: seq<Action>, j: nat, m: nat, p: Ptr)
    requires IsRun(states, actions) && j <= m < |states| && p in states[j].dead
    ensures p in states[m].dead
  {
    if j < m {
      StaysDead(states, actions, j, m - 1, p);
      DeadStayInRun(states, actions, m);
    }
  }

  lemma UnlinkInstant(states: seq<State>, actions: seq<Action>, j: nat, p: Ptr)
    requires IsRun(states, actions) && j < |states| && p in states[j].dead
    ensures states[j].dead[p] < j && p in states[states[j].dead[p]].linked
  {
    forall k: nat | 0 < k < |states| ensures DeadKept(states[k - 1], states[k], k - 1) {
      DeadInRun(states, actions, k);
    }
    UnlinkedAlong(states, j, p);
  }

  /** `t` is inside one read-side section between states i + 1 and j. */
  ghost predicate InSection(states: seq<State>, actions: seq<Action>, t: Tid, walk: Walk, i: nat, j: nat) {
    && IsRun(states, actions) && i < j < |states|
    && actions[i] == Begin(t, walk)
    && forall k :: i < k < j ==> actions[k] != End(t)
  }

  lemma SectionStep(s: State, a: Action, t: Tid)
    requires Enabled(s, a) && t in s.readers && a != End(t)
    ensures t in Apply(s, a).readers
    ensures Apply(s, a).readers[t].start == s.readers[t].start && Apply(s, a).readers[t].walk == s.readers[t].walk
  {
    if a.FollowNext? {
      FollowKeepsSection(s, a.tid, t);
    } else if a.Examine? {
      ExamineKeepsSection(s, a.tid, t);
    }
  }

  lemma FollowKeepsSection(s: State, tid: Tid, t: Tid)
    requires Enabled(s, FollowNext(tid)) && t in s.readers
    ensures var s' := DoFollowNext(s, tid);
            t in s'.readers && s'.readers[t].start == s.readers[t].start && s'.readers[t].walk == s.readers[t].walk
  {
  }

  lemma ExamineKeepsSection(s: State, tid: Tid, t: Tid)
    requires Enabled(s, Examine(tid)) && t in s.readers
    ensures var s' := DoExamine(s, tid);
            t in s'.readers && s'.readers[t].start == s.readers[t].start && s'.readers[t].walk == s.readers[t].walk
  {
  }

  lemma {:induction false} SectionStart(states: seq<State>, actions: seq<Action>, t: Tid, walk: Walk, i: nat, j: nat)
    requires InSection(states, actions, t, walk, i, j)
    ensures t in states[j].readers && states[j].readers[t].start == i && states[j].readers[t].walk == walk
  {
    if j == i + 1 {
      assert states[i].clock == i by { RunKeepsInv(states, actions, i); }
    } else {
      SectionStart(states, actions, t, walk, i, j - 1);
      SectionStep(states[j - 1], actions[j - 1], t);
    }
  }

  /** A section that has ended its walk passed rules in insertion order; the rule it
      picked matches and was in the list during the section; and no older rule (no
      rule at all, if it picked none) that was in the list when the section began
      and still is matches the caller. */
  lemma TraversalMeaning(states: seq<State>, actions: seq<Action>, t: Tid, call: Call, i: nat, j: nat)
    requires InSection(states, actions, t, Charge(call), i, j)
    requires t in states[j].readers && states[j].readers[t].phase.Finished?
    ensures var s, r := states[j], states[j].readers[t]; var hit := r.phase.hit;
            && Increasing(r.visited)
            && (hit != HEAD ==>
                  && hit in s.rules && Matches(s.rules[hit], call)
                  && exists k :: i <= k <= j && hit in states[k].linked)
            && (hit == HEAD ==> !r.phase.blocked)
            && (forall n :: n in states[i].linked && n in s.linked && (hit == HEAD || n < hit) ==>
                  n in s.rules && n in r.visited && !Matches(s.rules[n], call))
  {
    RunKeepsInv(states, actions, i);
    RunKeepsInv(states, actions, j);
    SectionStart(states, actions, t, Charge(call), i, j);
    HistoryKept(states, actions, i, j);
    var s, r := states[j], states[j].readers[t];
    assert ReaderHolds(s, r) && VisitsOf(s, r);
    if r.phase.hit != HEAD {
      if r.phase.hit in s.linked {
        assert r.phase.hit in states[j].linked;
      } else {
        UnlinkTime(states, actions, j, r.phase.hit);
      }
    }
    assert forall n :: n in states[i].linked ==> n in s.born && s.born[n] < r.start;
  }

  /** A section over which the list did not lose its pick and gained nothing decides
      exactly as the first-match policy on the list. */
  lemma QuietSectionIsFirstMatch(states: seq<State>, actions: seq<Action>, t: Tid, call: Call, i: nat, j: nat)
    requires InSection(states, actions, t, Charge(call), i, j)
    requires t in states[j].readers && states[j].readers[t].phase.Finished?
    requires states[j].readers[t].phase.hit == HEAD || states[j].readers[t].phase.hit in states[j].linked
    requires forall n :: n in states[j].linked ==> n in states[i].linked
    ensures Cells(states[j])
    ensures CellAt(states[j].linked, FirstMatch(LinkedRules(states[j]), call)) == states[j].readers[t].phase.hit
  {
    RunKeepsInv(states, actions, j);
    TraversalMeaning(states, actions, t, call, i, j);
    var s, hit := states[j], states[j].readers[t].phase.hit;
    assert Cells(s) && Chained(s);
    assert hit != HEAD ==> hit in s.linked && Matches(s.rules[hit], call);
    forall n | n in s.linked && (hit == HEAD || n < hit) ensures !Matches(s.rules[n], call) {
      assert n in states[i].linked;
    }
    PickIsFirstMatch(s, hit, call);
  }

  lemma PickIsFirstMatch(s: State, hit: Ptr, call: Call)
    requires Cells(s) && Increasing(s.linked)
    requires hit != HEAD ==> hit in s.linked && Matches(s.rules[hit], call)
    requires forall n :: n in s.linked && (hit == HEAD || n < hit) ==> !Matches(s.rules[n], call)
    ensures CellAt(s.linked, FirstMatch(LinkedRules(s), call)) == hit
  {
    var rules, k := LinkedRules(s), if hit == HEAD then |s.linked| else PositionOf(s.linked, hit);
    forall m | 0 <= m < k ensures !Matches(rules[m], call) {
      assert s.linked[m] in s.linked;
    }
    FirstMatchIs(rules, call, k);
  }

  function PositionOf(list: seq<Ptr>, p: Ptr): (k: nat)
    requires p in list
    ensures k < |list| && list[k] == p
  {
    if list[0] == p then 0 else 1 + PositionOf(list[1..], p)
  }

  /** A finished reset (reset_all_counters) visited every rule that stayed in the list. */
  lemma ResetReachesEveryStableRule(states: seq<State>, actions: seq<Action>, t: Tid, i: nat, j: nat, n: Ptr)
    requires InSection(states, actions, t, ZeroAll, i, j)
    requires t in states[j].readers && states[j].readers[t].phase.Finished?
    requires n in states[i].linked && n in states[j].linked
    ensures n in states[j].readers[t].visited
  {
    RunKeepsInv(states, actions, i);
    RunKeepsInv(states, actions, j);
    SectionStart(states, actions, t, ZeroAll, i, j);
    HistoryKept(states, actions, i, j);
    var s, r := states[j], states[j].readers[t];
    assert VisitsOf(s, r);
    assert s.born[n] < r.start;
  }

  // ------------------------------------------------------ token conservation

  /** The step charges a matching call to rule n. */
  predicate Charges(s: State, a: Action, n: Ptr) {
    && a.Examine?
    && a.tid in s.readers
    && s.readers[a.tid].phase == Look(n)
    && s.readers[a.tid].walk.Charge?
    && n in s.mem && s.mem[n].Entry?
    && Matches(s.mem[n].rule, s.readers[a.tid].walk.call)
  }

  /** The step is such a charge and is_throttled will return 0. */
  predicate Admits(s: State, a: Action, n: Ptr) {
    && Charges(s, a, n)
    && Enabled(s, a)
    && DoExamine(s, a.tid).readers[a.tid].phase == Finished(n, false)
  }

  /** The step zeroes the counter of rule n: a reset by the timer, or a statistics reset. */
  predicate Zeroes(s: State, a: Action, n: Ptr) {
    || (a.Examine? && a.tid in s.readers && s.readers[a.tid].phase == Look(n) && s.readers[a.tid].walk.ZeroAll?)
    || (a.StatsTouch? && a.zero && a.index < |s.linked| && s.linked[a.index] == n)
  }

  /** Which steps from state i to state j charge rule n. */
  function ChargeLog(states: seq<State>, actions: seq<Action>, n: Ptr, i: nat, j: nat): seq<bool>
    requires |states| == |actions| + 1 && i <= j < |states|
  {
    seq(j - i, k requires 0 <= k < j - i => Charges(states[i + k], actions[i + k], n))
  }

  /** Which of them are admitted. */
  function AdmitLog(states: seq<State>, actions: seq<Action>, n: Ptr, i: nat, j: nat): seq<bool>
    requires |states| == |actions| + 1 && i <= j < |states|
  {
    seq(j - i, k requires 0 <= k < j - i => Admits(states[i + k], actions[i + k], n))
  }

  function CountOf(s: State, n: Ptr): Option<Int32> {
    if n in s.mem && s.mem[n].Entry? then Some(s.mem[n].count) else None
  }

  function CountLog(states: seq<State>, n: Ptr, i: nat, j: nat): seq<Option<Int32>>
    requires i <= j < |states|
  {
    seq(j - i + 1, k requires 0 <= k < j - i + 1 => CountOf(states[i + k], n))
  }

  /** A window of rule n: it starts with a zero counter and no step in it zeroes it. */
  ghost predicate IsWindow(states: seq<State>, actions: seq<Action>, n: Ptr, i: nat, j: nat) {
    && IsRun(states, actions) && i <= j < |states|
    && CountOf(states[i], n) == Some(0)
    && forall k :: i <= k < j ==> !Zeroes(states[k], actions[k], n)
  }

  lemma ZeroingZeroes(s: State, a: Action, n: Ptr)
    requires Inv(s) && Enabled(s, a)
    requires Zeroes(s, a, n) || (a.Publish? && n == s.last + 1)
    ensures CountOf(Apply(s, a), n) == Some(0)
  {
    if a.Publish? {
      PublishCells(s, a.rule);
    } else if a.Examine? {
      CursorAllocated(s, a.tid);
      assert ReaderHolds(s, s.readers[a.tid]);
    } else {
      assert n in s.linked;
    }
  }

  lemma VisitStep(s: State, a: Action, t: Tid, n: Ptr)
    requires Enabled(s, a) && t in s.readers && a != End(t)
    requires t in Apply(s, a).readers && n in Apply(s, a).readers[t].visited
    ensures n in s.readers[t].visited || (a == Examine(t) && s.readers[t].phase == Look(n))
  {
    if a.Examine? {
      VisitOfExamine(s, a.tid, t, n);
    }
  }

  lemma VisitOfExamine(s: State, tid: Tid, t: Tid, n: Ptr)
    requires Enabled(s, Examine(tid)) && t in s.readers
    requires t in DoExamine(s, tid).readers && n in DoExamine(s, tid).readers[t].visited
    ensures n in s.readers[t].visited || (tid == t && s.readers[t].phase == Look(n))
  {
  }

  lemma BeginVisitsNothing(states: seq<State>, actions: seq<Action>, t: Tid, walk: Walk, i: nat)
    requires IsRun(states, actions) && i < |actions| && actions[i] == Begin(t, walk)
    ensures t in states[i + 1].readers && states[i + 1].readers[t].visited == []
  {
  }

  /** Whatever a section has visited it has examined. */
  lemma {:induction false} VisitWasExamined(states: seq<State>, actions: seq<Action>, t: Tid, walk: Walk,
                                            i: nat, j: nat, n: Ptr) returns (m: nat)
    requires InSection(states, actions, t, walk, i, j)
    requires t in states[j].readers && n in states[j].readers[t].visited
    ensures i < m < j && actions[m] == Examine(t)
    ensures t in states[m].readers && states[m].readers[t].phase == Look(n) && states[m].readers[t].walk == walk
  {
    BeginVisitsNothing(states, actions, t, walk, i);
    assert i + 1 < j;
    SectionStart(states, actions, t, walk, i, j - 1);
    VisitStep(states[j - 1], actions[j - 1], t, n);
    if n in states[j - 1].readers[t].visited {
      m := VisitWasExamined(states, actions, t, walk, i, j - 1, n);
    } else {
      m := j - 1;
    }
  }

  /** A finished reset zeroed every rule that stayed in the list, between its two ends. */
  lemma ResetZeroesEveryStableRule(states: seq<State>, actions: seq<Action>, t: Tid, i: nat, j: nat, n: Ptr)
    returns (m: nat)
    requires InSection(states, actions, t, ZeroAll, i, j)
    requires t in states[j].readers && states[j].readers[t].phase.Finished?
    requires n in states[i].linked && n in states[j].linked
    ensures i < m < j && Zeroes(states[m], actions[m], n) && CountOf(states[m + 1], n) == Some(0)
  {
    ResetReachesEveryStableRule(states, actions, t, i, j, n);
    m := VisitWasExamined(states, actions, t, ZeroAll, i, j, n);
    RunKeepsInv(states, actions, m);
    ZeroingZeroes(states[m], actions[m], n);
  }

  /** Adding a rule and zeroing its counter open a window, which lasts until the next zeroing. */
  lemma WindowOpens(states: seq<State>, actions: seq<Action>, n: Ptr, i: nat, j: nat)
    requires IsRun(states, actions) && i < j < |states|
    requires Zeroes(states[i], actions[i], n) || (actions[i].Publish? && n == states[i].last + 1)
    requires forall k :: i < k < j ==> !Zeroes(states[k], actions[k], n)
    ensures IsWindow(states, actions, n, i + 1, j)
  {
    RunKeepsInv(states, actions, i);
    ZeroingZeroes(states[i], actions[i], n);
  }

  lemma CounterOfExamine(s: State, t: Tid, n: Ptr)
    requires Enabled(s, Examine(t)) && s.readers[t].phase.at in s.mem && s.mem[s.readers[t].phase.at].Entry?
    requires !Zeroes(s, Examine(t), n)
    ensures CountOf(DoExamine(s, t), n) ==
            if Charges(s, Examine(t), n) then Some(AtomicIncReturn(CountOf(s, n).value)) else CountOf(s, n)
  {
  }

  lemma CounterOfWriter(s: State, a: Action, n: Ptr)
    requires Cells(s) && Enabled(s, a) && !a.Examine? && n in s.rules && !Zeroes(s, a, n)
    ensures CountOf(Apply(s, a), n).Some? ==> CountOf(Apply(s, a), n) == CountOf(s, n)
  {
    if a.Unlink? {
      SpliceKeepsCounts(s, s.linked[a.index], n);
    } else if a.Reclaim? {
      SpliceKeepsCounts(s, s.linked[0], n);
    }
  }

  /** Relinking changes pointers only. */
  lemma SpliceKeepsCounts(s: State, p: Ptr, n: Ptr)
    ensures n in Spliced(s, p) <==> n in s.mem
    ensures n in s.mem ==> Spliced(s, p)[n].Entry? == s.mem[n].Entry?
    ensures n in s.mem && s.mem[n].Entry? ==> Spliced(s, p)[n].count == s.mem[n].count
  {
  }

  /** How one step that does not zero rule n moves its counter. */
  lemma CounterStep(s: State, a: Action, n: Ptr)
    requires Inv(s) && Enabled(s, a) && n in s.rules && !Zeroes(s, a, n)
    ensures CountOf(Apply(s, a), n).Some? ==>
              && CountOf(s, n).Some?
              && CountOf(Apply(s, a), n).value ==
                 if Charges(s, a, n) then AtomicIncReturn(CountOf(s, n).value) else CountOf(s, n).value
  {
    if a.Examine? {
      assert s.readers[a.tid].phase.at in s.mem && s.mem[s.readers[a.tid].phase.at].Entry? by {
        CursorAllocated(s, a.tid);
        assert ReaderHolds(s, s.readers[a.tid]);
      }
      CounterOfExamine(s, a.tid, n);
    } else {
      CounterOfWriter(s, a, n);
    }
  }

  lemma ChargeStep(s: State, a: Action, n: Ptr)
    requires Inv(s) && Enabled(s, a) && Charges(s, a, n)
    ensures n in s.rules && CountOf(s, n).Some?
    ensures Admits(s, a, n) <==> AtomicIncReturn(CountOf(s, n).value) <= s.rules[n].maxCalls
  {
  }

  lemma StepOfWindow(states: seq<State>, actions: seq<Action>, n: Ptr, i: nat, k: nat)
    requires IsRun(states, actions) && i <= k < |actions|
    requires n in states[i].rules && !Zeroes(states[k], actions[k], n)
    ensures WindowStep(states[i].rules[n].maxCalls, Charges(states[k], actions[k], n),
                       Admits(states[k], actions[k], n), CountOf(states[k], n), CountOf(states[k + 1], n))
  {
    var s, a := states[k], actions[k];
    assert Inv(s) by { RunKeepsInv(states, actions, k); }
    assert n in s.rules && s.rules[n] == states[i].rules[n] by { HistoryKept(states, actions, i, k); }
    CounterStep(s, a, n);
    if Charges(s, a, n) {
      ChargeStep(s, a, n);
    }
  }

  /** The logs of a stretch of steps that all move the counter like a window. */
  lemma WindowLogs(states: seq<State>, actions: seq<Action>, n: Ptr, maxCalls: Int32, i: nat, j: nat)
    requires |states| == |actions| + 1 && i <= j < |states| && CountOf(states[i], n) == Some(0)
    requires forall m :: i <= m < j ==>
               WindowStep(maxCalls, Charges(states[m], actions[m], n), Admits(states[m], actions[m], n),
                          CountOf(states[m], n), CountOf(states[m + 1], n))
    ensures CountTrue(AdmitLog(states, actions, n, i, j)) ==
            Granted(maxCalls, CountTrue(ChargeLog(states, actions, n, i, j)))
  {
    var charged, admitted := ChargeLog(states, actions, n, i, j), AdmitLog(states, actions, n, i, j);
    var counts := CountLog(states, n, i, j);
    assert counts[0] == Some(0) by { assert states[i + 0] == states[i]; }
    forall k | 0 <= k < |charged|
      ensures WindowStep(maxCalls, charged[k], admitted[k], counts[k], counts[k + 1])
    {
      var m := i + k;
      assert counts[k + 1] == CountOf(states[m + 1], n);
    }
    WindowCounts(maxCalls, charged, admitted, counts);
  }

  /** Token conservation: in every window of a rule, under any interleaving of its
      callers and the timer, exactly min(charges, max(0, maxCalls)) of the charges are
      admitted, if and only if the 32-bit counter does not wrap in the window. */
  lemma TokenConservation(states: seq<State>, actions: seq<Action>, n: Ptr, i: nat, j: nat)
    requires IsWindow(states, actions, n, i, j)
    ensures n in states[i].rules
    ensures var charges := CountTrue(ChargeLog(states, actions, n, i, j));
            CountTrue(AdmitLog(states, actions, n, i, j)) == Min(charges, Max(0, states[i].rules[n].maxCalls))
            <==> charges <= INT_MAX
  {
    assert n in states[i].rules by { RunKeepsInv(states, actions, i); }
    var maxCalls := states[i].rules[n].maxCalls;
    forall m | i <= m < j
      ensures WindowStep(maxCalls, Charges(states[m], actions[m], n), Admits(states[m], actions[m], n),
                         CountOf(states[m], n), CountOf(states[m + 1], n))
    {
      StepOfWindow(states, actions, n, i, m);
    }
    WindowLogs(states, actions, n, maxCalls, i, j);
    TokensExactIffNoWrap(maxCalls, CountTrue(ChargeLog(states, actions, n, i, j)));
  }
}
