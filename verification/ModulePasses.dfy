/**
 The promise of the module, as its user sees it: how many calls are let through,
 and how many waiters granted, between one zeroing of a rule and the next.
 */
module ModulePasses {
  import opened CTypes
  import opened Rules
  import opened ModuleRun
  import opened ModuleVerdicts
  import opened ModuleTokens
  import R = RcuRegistry
  import RR = RcuRuns

  /** The reader has been admitted by rule n and has not returned yet. */
  predicate IsPending(s: R.State, n: R.Ptr, r: R.Tid) {
    r in s.readers && s.readers[r].phase == R.Finished(n, false)
  }

  function Pending(s: R.State, n: R.Ptr): set<R.Tid> {
    set r | r in s.readers && s.readers[r].phase == R.Finished(n, false)
  }

  /** Whose verdict the step ends. */
  function EndedBy(a: Action): Option<R.Tid> {
    match a
    case EndVerdict(t) => Some(ReaderOf(t))
    case EndAsk => Some(TIMER)
    case _ => None
  }

  /** The step lets a call through, or grants a waiter, after a pick of rule n. */
  predicate LetsThrough(s: State, a: Action, n: R.Ptr) {
    EndedBy(a).Some? && IsPending(s.reg, n, EndedBy(a).value)
  }

  ghost function Passes(states: seq<State>, actions: seq<Action>, n: R.Ptr, i: nat, j: nat): set<nat>
    requires j <= |actions| < |states|
  {
    set k: nat | i <= k < j && LetsThrough(states[k], actions[k], n)
  }

  // ------------------------------------------------------------- upper bound

  /** The passes whose charge fell into an earlier window. */
  ghost function Late(states: seq<State>, actions: seq<Action>, n: R.Ptr, i: nat, j: nat): set<nat>
    requires j <= |actions| && |states| == |actions| + 1
  {
    Passes(states, actions, n, i, j) - Tokens(states, actions, n, i, j)
  }

  lemma PassIsTokenOrPending(states: seq<State>, actions: seq<Action>, n: R.Ptr, i: nat, j: nat, k: nat)
    requires IsRun(states, actions) && i <= k < j < |states| && n != R.HEAD && LetsThrough(states[k], actions[k], n)
    ensures var r := EndedBy(actions[k]).value;
            k in Tokens(states, actions, n, i, j) || Stood(states, i, k, r, states[k].reg.readers[r])
  {
    var r := EndedBy(actions[k]).value;
    var m := WasCharged(states, actions, k, r, states[k].reg.readers[r]);
    if m >= i {
      assert EndsVerdict(actions[k], r);
      assert HandsToken(states, actions, n, m, k);
    }
  }

  lemma LateWasPending(states: seq<State>, actions: seq<Action>, n: R.Ptr, i: nat, j: nat, k: nat)
    requires IsRun(states, actions) && i <= j < |states| && n != R.HEAD && k in Late(states, actions, n, i, j)
    ensures var r := EndedBy(actions[k]).value;
            IsPending(states[i].reg, n, r) && states[i].reg.readers[r] == states[k].reg.readers[r]
  {
    PassIsTokenOrPending(states, actions, n, i, j, k);
  }

  /** A section that was pending when the window opened ends once. */
  lemma LateEndsOnce(states: seq<State>, actions: seq<Action>, n: R.Ptr, i: nat, j: nat, k: nat, k': nat)
    requires IsRun(states, actions) && i <= j < |states| && n != R.HEAD
    requires k in Late(states, actions, n, i, j) && k' in Late(states, actions, n, i, j)
    requires EndedBy(actions[k]) == EndedBy(actions[k'])
    ensures k >= k'
  {
    if k < k' {
      var r := EndedBy(actions[k]).value;
      LateWasPending(states, actions, n, i, j, k);
      LateWasPending(states, actions, n, i, j, k');
      TimedInRun(states, actions, k);
      SectionsAfter(states, actions, k, k', r);
      assert false;
    }
  }

  /** Whose sections the late passes end. */
  ghost function Latecomers(states: seq<State>, actions: seq<Action>, n: R.Ptr, i: nat, j: nat): (f: map<nat, nat>)
    requires j <= |actions| && |states| == |actions| + 1
    ensures f.Keys == Late(states, actions, n, i, j)
    ensures forall k :: k in f ==> k < |actions| && EndedBy(actions[k]) == Some(f[k])
  {
    map k: nat | k in Late(states, actions, n, i, j) :: EndedBy(actions[k]).value
  }

  lemma LatecomerWasPending(states: seq<State>, actions: seq<Action>, n: R.Ptr, i: nat, j: nat, k: nat)
    requires IsRun(states, actions) && i <= j < |states| && n != R.HEAD && k in Latecomers(states, actions, n, i, j)
    ensures Latecomers(states, actions, n, i, j)[k] in Pending(states[i].reg, n)
  {
    LateWasPending(states, actions, n, i, j, k);
  }

  lemma LatecomersDiffer(states: seq<State>, actions: seq<Action>, n: R.Ptr, i: nat, j: nat, k: nat, k': nat)
    requires IsRun(states, actions) && i <= j < |states| && n != R.HEAD
    requires k in Latecomers(states, actions, n, i, j) && k' in Latecomers(states, actions, n, i, j)
    requires Latecomers(states, actions, n, i, j)[k] == Latecomers(states, actions, n, i, j)[k']
    ensures k == k'
  {
    LateEndsOnce(states, actions, n, i, j, k, k');
    LateEndsOnce(states, actions, n, i, j, k', k);
  }

  lemma LateAreFew(states: seq<State>, actions: seq<Action>, n: R.Ptr, i: nat, j: nat)
    requires IsRun(states, actions) && i <= j < |states| && n != R.HEAD
    ensures |Late(states, actions, n, i, j)| <= |Pending(states[i].reg, n)|
  {
    var f := Latecomers(states, actions, n, i, j);
    forall k | k in f.Keys ensures f[k] in Pending(states[i].reg, n) {
      LatecomerWasPending(states, actions, n, i, j, k);
    }
    forall k, k' | k in f.Keys && k' in f.Keys && f[k] == f[k'] ensures k == k' {
      LatecomersDiffer(states, actions, n, i, j, k, k');
    }
    InjectionCard(f.Keys, Pending(states[i].reg, n), f);
  }

  lemma CountedIsRule(states: seq<State>, actions: seq<Action>, n: R.Ptr, i: nat, j: nat)
    requires IsWindow(states, actions, n, i, j)
    ensures n != R.HEAD && n in states[i].reg.rules
  {
    CellsInRun(states, actions, i);
    CountedRule(states[i].reg, n);
  }

  lemma CardOfDifference(a: set<nat>, b: set<nat>)
    ensures |a| <= |b| + |a - b|
  {
    InjectionCard(a * b, b, map x | x in a * b :: x);
    assert a == a * b + (a - b);
  }

  /** What the module promises, and how far it keeps the promise: between one zeroing of a rule and
      the next it lets through at most max(0, maxCalls) calls, those it grants included, and one more
      for each section that had been admitted when the window opened and had not returned yet; as
      long as fewer than 2^31 charges fall into the window. */
  lemma PassesAreBounded(states: seq<State>, actions: seq<Action>, n: R.Ptr, i: nat, j: nat)
    requires IsWindow(states, actions, n, i, j)
    requires CountTrue(ChargeLog(states, actions, n, i, j)) <= INT_MAX
    ensures n in states[i].reg.rules
    ensures |Passes(states, actions, n, i, j)| <=
            Max(0, states[i].reg.rules[n].maxCalls) + |Pending(states[i].reg, n)|
    ensures Pending(states[i].reg, n) == {} ==>
              |Passes(states, actions, n, i, j)| <= Max(0, states[i].reg.rules[n].maxCalls)
  {
    CountedIsRule(states, actions, n, i, j);
    TokensAreBounded(states, actions, n, i, j);
    LateAreFew(states, actions, n, i, j);
    CardOfDifference(Passes(states, actions, n, i, j), Tokens(states, actions, n, i, j));
  }
}
