/**
 The writers of the rule list: which rule a search for a number stops at, and the
 order in which a removed rule is unlinked, waited for and freed.
 */
module RcuWriters {
  import opened CTypes
  import opened Rules
  import opened RcuRegistry
  import opened RcuSafety
  import opened RcuRuns

  // ------------------------------------------------------------- the search

  /** A writer's search stops at the first rule with the number; it runs over the whole list if
      and only if there is none. */
  lemma SearchIsFirst(s: State, num: int, index: nat)
    requires Cells(s)
    ensures FoundAt(s, num, index) <==> index == FirstWithNumber(LinkedRules(s), num) < |s.linked|
    ensures Missing(s, num) <==> FirstWithNumber(LinkedRules(s), num) == |s.linked|
  {
    var rules := LinkedRules(s);
    var first := FirstWithNumber(rules, num);
    assert forall j :: 0 <= j < |rules| ==> rules[j] == s.rules[s.linked[j]];
    if FoundAt(s, num, index) {
      FirstWithNumberIs(rules, num, index);
    }
    if Missing(s, num) {
      FirstWithNumberIs(rules, num, |rules|);
    }
  }

  /** The oldest rule in the list with exactly the number. */
  ghost predicate IsOldest(s: State, num: int, p: Ptr) {
    && p in s.linked && p in s.rules && s.rules[p].syscallNum == num
    && forall q :: q in s.linked && q in s.rules && s.rules[q].syscallNum == num ==> p <= q
  }

  lemma FoundIsOldest(s: State, num: int, index: nat)
    requires Cells(s) && Increasing(s.linked) && FoundAt(s, num, index)
    ensures IsOldest(s, num, s.linked[index])
  {
    var p := s.linked[index];
    forall q | q in s.linked && q in s.rules && s.rules[q].syscallNum == num ensures p <= q {
      var j :| 0 <= j < |s.linked| && s.linked[j] == q;
      assert !(j < index);
      assert index < j ==> p < s.linked[j];
    }
  }

  ghost predicate NobodyHas(s: State, num: int) {
    forall q :: q in s.linked && q in s.rules ==> s.rules[q].syscallNum != num
  }

  lemma MissingIsNone(s: State, num: int)
    requires Cells(s)
    ensures Missing(s, num) <==> NobodyHas(s, num)
  {
    var first := FirstWithNumber(LinkedRules(s), num);
    SearchIsFirst(s, num, first);
    if first < |s.linked| {
      var q := s.linked[first];
      assert q in s.linked && q in s.rules && s.rules[q].syscallNum == num;
    } else {
      forall q | q in s.linked && q in s.rules ensures s.rules[q].syscallNum != num {
        var j :| 0 <= j < |s.linked| && s.linked[j] == q;
        assert LinkedRules(s)[j].syscallNum != num;
      }
    }
  }

  ghost predicate ListedBefore(s: State) {
    Cells(s) && Increasing(s.linked)
  }

  lemma ListInRun(states: seq<State>, actions: seq<Action>, k: nat)
    requires IsRun(states, actions) && k < |states|
    ensures ListedBefore(states[k])
  {
    RunKeepsInv(states, actions, k);
  }

  lemma UnlinkTakes(s: State, num: int, index: nat)
    requires ListedBefore(s) && Enabled(s, Unlink(num, index))
    ensures var s' := DoUnlink(s, index); var p := s.linked[index];
            && p !in s'.linked && p in s'.mem
            && forall q :: q != p ==> (q in s'.linked <==> q in s.linked)
  {
    WithoutMembers(s.linked, index);
    assert s.linked[index] in s.linked;
    SpliceKeepsCounts(s, s.linked[index], s.linked[index]);
  }

  /** remove_rule takes the oldest rule with the number out of the list, and no other; its memory
      stays in use. */
  lemma RemovalTakesOldest(states: seq<State>, actions: seq<Action>, k: nat, num: int, index: nat)
    requires IsRun(states, actions) && k < |actions| && actions[k] == Unlink(num, index)
    ensures exists p :: IsOldest(states[k], num, p) && p in states[k + 1].mem
                        && forall q :: q in states[k + 1].linked <==> q in states[k].linked && q != p
  {
    ListInRun(states, actions, k);
    var s := states[k];
    FoundIsOldest(s, num, index);
    UnlinkTakes(s, num, index);
    var p := s.linked[index];
    assert IsOldest(s, num, p);
  }

  lemma ZeroTouches(s: State, num: int, index: nat)
    requires ListedBefore(s) && Enabled(s, StatsTouch(num, index, true))
    ensures var s' := DoStatsTouch(s, index, true); var p := s.linked[index];
            CountOf(s', p) == Some(0) && forall q :: q != p ==> CountOf(s', q) == CountOf(s, q)
  {
    assert s.linked[index] in s.linked;
  }

  /** reset_rule_stats zeroes the counter of the oldest rule with the number, and no other. */
  lemma ResetZeroesOldest(states: seq<State>, actions: seq<Action>, k: nat, num: int, index: nat)
    requires IsRun(states, actions) && k < |actions| && actions[k] == StatsTouch(num, index, true)
    ensures exists p :: IsOldest(states[k], num, p) && CountOf(states[k + 1], p) == Some(0)
                        && forall q :: q != p ==> CountOf(states[k + 1], q) == CountOf(states[k], q)
  {
    ListInRun(states, actions, k);
    FoundIsOldest(states[k], num, index);
    ZeroTouches(states[k], num, index);
    assert IsOldest(states[k], num, states[k].linked[index]);
  }

  /** A command fails to find the number if and only if no rule in the list has it. */
  lemma CommandFails(states: seq<State>, actions: seq<Action>, k: nat, num: int)
    requires IsRun(states, actions) && k < |states|
    ensures (forall index: nat :: !Enabled(states[k], Unlink(num, index))) <==> NobodyHas(states[k], num)
  {
    ListInRun(states, actions, k);
    var first := FirstWithNumber(LinkedRules(states[k]), num);
    MissingIsNone(states[k], num);
    SearchIsFirst(states[k], num, first);
    if first == |states[k].linked| {
      forall index: nat ensures !Enabled(states[k], Unlink(num, index)) {
        SearchIsFirst(states[k], num, index);
      }
    } else {
      assert Enabled(states[k], Unlink(num, first));
    }
  }

  // ------------------------------------------------------- order of a removal

  ghost predicate WaitKept(s: State, a: Action, s': State, clock: nat) {
    forall p :: p in s'.waits ==>
      if p in s.waits then s'.waits[p] == s.waits[p] else s'.waits[p] == clock && a == Synchronize(p) && p in s.dead
  }

  lemma WaitStep(s: State, a: Action)
    requires Enabled(s, a)
    ensures WaitKept(s, a, Apply(s, a), s.clock)
  {
  }

  lemma WaitInRun(states: seq<State>, actions: seq<Action>, k: nat)
    requires IsRun(states, actions) && 0 < k < |states|
    ensures WaitKept(states[k - 1], actions[k - 1], states[k], k - 1)
  {
    RunKeepsInv(states, actions, k - 1);
    WaitStep(states[k - 1], actions[k - 1]);
  }

  /** The recorded time is that of the step that entered synchronize_rcu. */
  lemma {:induction false} WaitsAlong(states: seq<State>, actions: seq<Action>, k: nat, p: Ptr)
    requires k <= |actions| < |states| && states[0].waits == map[] && p in states[k].waits
    requires forall j: nat :: 0 < j <= k ==> WaitKept(states[j - 1], actions[j - 1], states[j], j - 1)
    ensures var w := states[k].waits[p]; w < k && actions[w] == Synchronize(p) && p in states[w].dead
  {
    assert k > 0;
    assert WaitKept(states[k - 1], actions[k - 1], states[k], k - 1);
    if p in states[k - 1].waits {
      WaitsAlong(states, actions, k - 1, p);
    }
  }

  /** The recorded time is that of the step that entered synchronize_rcu. */
  lemma WaitsSince(states: seq<State>, actions: seq<Action>, k: nat, p: Ptr)
    requires IsRun(states, actions) && k < |states| && p in states[k].waits
    ensures var w := states[k].waits[p]; w < k && actions[w] == Synchronize(p) && p in states[w].dead
  {
    forall j: nat | 0 < j <= k ensures WaitKept(states[j - 1], actions[j - 1], states[j], j - 1) {
      WaitInRun(states, actions, j);
    }
    WaitsAlong(states, actions, k, p);
  }

  lemma FreeNeeds(states: seq<State>, actions: seq<Action>, k: nat, p: Ptr)
    requires IsRun(states, actions) && k < |actions| && actions[k] == Free(p)
    ensures p in states[k].waits
    ensures forall t :: t in states[k].readers ==> states[k].readers[t].start > states[k].waits[p]
  {
  }

  /** A removed rule is freed only after it was unlinked, its remover entered synchronize_rcu after
      that, and every section that was open then has ended: those still open began later. */
  lemma RemovalOrder(states: seq<State>, actions: seq<Action>, k: nat, p: Ptr)
    requires IsRun(states, actions) && k < |actions| && actions[k] == Free(p)
    ensures exists u, w :: 0 <= u < w < k
              && p in states[u].linked && (forall m :: u < m < |states| ==> p !in states[m].linked)
              && actions[w] == Synchronize(p)
              && forall t :: t in states[k].readers ==> states[k].readers[t].start > w
  {
    FreeNeeds(states, actions, k, p);
    WaitsSince(states, actions, k, p);
    var w := states[k].waits[p];
    UnlinkTime(states, actions, w, p);
    var u := states[w].dead[p];
    assert actions[w] == Synchronize(p);
  }
}
