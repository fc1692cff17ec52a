/**
 Tokens end to end: calls that are let through by their own verdict and waiters
 that the timer grants draw on the same counter, and together they are no more
 than its rule allows.
 */
module ModuleTokens {
  import opened CTypes
  import opened Rules
  import opened ModuleRun
  import opened ModuleVerdicts
  import R = RcuRegistry
  import RR = RcuRuns
  import RV = RcuVerdicts

  // ------------------------------------------------------------- the counter

  predicate ChargesRule(s: State, a: Action, n: R.Ptr) {
    a.Walk? && RR.Charges(s.reg, a.step, n)
  }

  predicate AdmitsRule(s: State, a: Action, n: R.Ptr) {
    a.Walk? && RR.Admits(s.reg, a.step, n)
  }

  predicate ZeroesRule(s: State, a: Action, n: R.Ptr) {
    (a.Walk? || a.Admin?) && RR.Zeroes(s.reg, a.step, n)
  }

  /** A window of rule n: it starts with a zero counter and no step in it zeroes it. */
  ghost predicate IsWindow(states: seq<State>, actions: seq<Action>, n: R.Ptr, i: nat, j: nat) {
    && IsRun(states, actions) && i <= j < |states|
    && RR.CountOf(states[i].reg, n) == Some(0)
    && forall k :: i <= k < j ==> !ZeroesRule(states[k], actions[k], n)
  }

  /** Which steps from state i to state j charge rule n, and which of them are admitted. */
  function ChargeLog(states: seq<State>, actions: seq<Action>, n: R.Ptr, i: nat, j: nat): seq<bool>
    requires |states| == |actions| + 1 && i <= j < |states|
  {
    seq(j - i, k requires 0 <= k < j - i => ChargesRule(states[i + k], actions[i + k], n))
  }

  function AdmitLog(states: seq<State>, actions: seq<Action>, n: R.Ptr, i: nat, j: nat): seq<bool>
    requires |states| == |actions| + 1 && i <= j < |states|
  {
    seq(j - i, k requires 0 <= k < j - i => AdmitsRule(states[i + k], actions[i + k], n))
  }

  lemma CounterStep(s: State, a: Action, n: R.Ptr)
    requires R.Inv(s.reg) && Enabled(s, a) && n in s.reg.rules && !ZeroesRule(s, a, n)
    ensures WindowStep(s.reg.rules[n].maxCalls, ChargesRule(s, a, n), AdmitsRule(s, a, n),
                       RR.CountOf(s.reg, n), RR.CountOf(Apply(s, a).reg, n))
  {
    RegistryStep(s, a);
    match RegistryPart(s, a)
    case Some(p) =>
      RR.CounterStep(s.reg, p, n);
      if a.Walk? && RR.Charges(s.reg, p, n) {
        RR.ChargeStep(s.reg, p, n);
      }
    case None =>
  }

  lemma CounterStepTo(s: State, a: Action, s': State, n: R.Ptr, rule: Rule)
    requires R.Inv(s.reg) && Enabled(s, a) && s' == Apply(s, a) && !ZeroesRule(s, a, n)
    requires n in s.reg.rules && s.reg.rules[n] == rule
    ensures WindowStep(rule.maxCalls, ChargesRule(s, a, n), AdmitsRule(s, a, n),
                       RR.CountOf(s.reg, n), RR.CountOf(s'.reg, n))
  {
    CounterStep(s, a, n);
  }

  lemma ListGrows(s: State, a: Action, s': State)
    requires R.Cells(s.reg) && R.Timed(s.reg) && Enabled(s, a) && s' == Apply(s, a)
    ensures RR.Extends(s.reg, s'.reg)
  {
    RegistryStep(s, a);
    match RegistryPart(s, a)
    case Some(p) => RR.HistoryGrows(s.reg, p);
    case None =>
  }

  lemma RulesKept(states: seq<State>, actions: seq<Action>, i: nat, j: nat)
    requires IsRun(states, actions) && i <= j < |states|
    ensures RR.Extends(states[i].reg, states[j].reg)
  {
    var regs := seq(|states|, k requires 0 <= k < |states| => states[k].reg);
    forall k | 0 < k < |regs| ensures RR.Extends(regs[k - 1], regs[k]) {
      CellsInRun(states, actions, k - 1);
      TimedInRun(states, actions, k - 1);
      ListGrows(states[k - 1], actions[k - 1], states[k]);
    }
    RR.ExtendsAlong(regs, i, j);
  }

  lemma StepOfWindow(states: seq<State>, actions: seq<Action>, n: R.Ptr, i: nat, j: nat, k: nat)
    requires IsWindow(states, actions, n, i, j) && n in states[i].reg.rules && i <= k < j
    ensures WindowStep(states[i].reg.rules[n].maxCalls, ChargesRule(states[k], actions[k], n),
                       AdmitsRule(states[k], actions[k], n),
                       RR.CountOf(states[k].reg, n), RR.CountOf(states[k + 1].reg, n))
  {
    ListInRun(states, actions, k);
    RulesKept(states, actions, i, k);
    CounterStepTo(states[k], actions[k], states[k + 1], n, states[i].reg.rules[n]);
  }

  lemma CountedRule(s: R.State, n: R.Ptr)
    requires R.Cells(s) && RR.CountOf(s, n).Some?
    ensures n in s.rules
  {
  }

  /** The logs of a stretch of steps that all move the counter like a window. */
  lemma WindowLogs(states: seq<State>, actions: seq<Action>, n: R.Ptr, maxCalls: Int32, i: nat, j: nat)
    requires |states| == |actions| + 1 && i <= j < |states| && RR.CountOf(states[i].reg, n) == Some(0)
    requires forall k :: i <= k < j ==>
               WindowStep(maxCalls, ChargesRule(states[k], actions[k], n), AdmitsRule(states[k], actions[k], n),
                          RR.CountOf(states[k].reg, n), RR.CountOf(states[k + 1].reg, n))
    ensures CountTrue(AdmitLog(states, actions, n, i, j)) ==
            Granted(maxCalls, CountTrue(ChargeLog(states, actions, n, i, j)))
  {
    var charged, admitted := ChargeLog(states, actions, n, i, j), AdmitLog(states, actions, n, i, j);
    var counts := seq(j - i + 1, k requires 0 <= k < j - i + 1 => RR.CountOf(states[i + k].reg, n));
    assert counts[0] == Some(0) by { assert states[i + 0] == states[i]; }
    forall k | 0 <= k < |charged|
      ensures WindowStep(maxCalls, charged[k], admitted[k], counts[k], counts[k + 1])
    {
      var m := i + k;
      assert counts[k + 1] == RR.CountOf(states[m + 1].reg, n);
    }
    WindowCounts(maxCalls, charged, admitted, counts);
  }

  /** In every window of a rule, whoever charges it and whatever else the module does, exactly
      min(charges, max(0, maxCalls)) charges are admitted if and only if the counter does not wrap. */
  lemma WindowAdmits(states: seq<State>, actions: seq<Action>, n: R.Ptr, i: nat, j: nat)
    requires IsWindow(states, actions, n, i, j)
    ensures n in states[i].reg.rules
    ensures var charges := CountTrue(ChargeLog(states, actions, n, i, j));
            CountTrue(AdmitLog(states, actions, n, i, j)) == Min(charges, Max(0, states[i].reg.rules[n].maxCalls))
            <==> charges <= INT_MAX
  {
    assert n in states[i].reg.rules by {
      CellsInRun(states, actions, i);
      CountedRule(states[i].reg, n);
    }
    var maxCalls := states[i].reg.rules[n].maxCalls;
    forall k | i <= k < j
      ensures WindowStep(maxCalls, ChargesRule(states[k], actions[k], n), AdmitsRule(states[k], actions[k], n),
                         RR.CountOf(states[k].reg, n), RR.CountOf(states[k + 1].reg, n))
    {
      StepOfWindow(states, actions, n, i, j, k);
    }
    WindowLogs(states, actions, n, maxCalls, i, j);
    TokensExactIffNoWrap(maxCalls, CountTrue(ChargeLog(states, actions, n, i, j)));
  }

  // -------------------------------------------------------------- the tokens

  /** The step ends a verdict: of a call, or of the timer on behalf of a waiter. */
  predicate EndsVerdict(a: Action, r: R.Tid) {
    (a.EndVerdict? && r == ReaderOf(a.tid)) || (a.EndAsk? && r == TIMER)
  }

  /** Step k lets a call through, or grants a waiter, and the section it ends was admitted by its
      charge to rule n at step m. */
  ghost predicate HandsToken(states: seq<State>, actions: seq<Action>, n: R.Ptr, m: nat, k: nat)
    requires |states| == |actions| + 1 && k < |actions|
  {
    exists r: R.Tid {:trigger EndsVerdict(actions[k], r)} ::
      && EndsVerdict(actions[k], r) && HasFinished(states[k].reg, r)
      && !states[k].reg.readers[r].phase.blocked && states[k].reg.readers[r].phase.hit == n
      && m < k && IsCharge(states, actions, m, r, states[k].reg.readers[r])
  }

  ghost predicate HandsTokenIn(states: seq<State>, actions: seq<Action>, n: R.Ptr, i: nat, j: nat, k: nat)
    requires |states| == |actions| + 1 && k < |actions|
  {
    exists m :: i <= m < j && HandsToken(states, actions, n, m, k)
  }

  lemma ChargeAdmits(s: R.State, r: R.Tid, rd: R.Reader)
    requires R.Enabled(s, R.Examine(r)) && RV.ChargedBy(s, R.Examine(r), r, rd) && !rd.phase.blocked
    ensures RR.Admits(s, R.Examine(r), rd.phase.hit)
  {
  }

  lemma TokenWasAdmitted(states: seq<State>, actions: seq<Action>, n: R.Ptr, m: nat, k: nat)
    requires IsRun(states, actions) && k < |actions| && HandsToken(states, actions, n, m, k)
    ensures m < k && AdmitsRule(states[m], actions[m], n)
  {
    var r: R.Tid :| EndsVerdict(actions[k], r) && HasFinished(states[k].reg, r)
      && !states[k].reg.readers[r].phase.blocked && states[k].reg.readers[r].phase.hit == n
      && m < k && IsCharge(states, actions, m, r, states[k].reg.readers[r]);
    EnabledInRun(states, actions, m);
    ChargeAdmits(states[m].reg, r, states[k].reg.readers[r]);
  }

  lemma EnabledInRun(states: seq<State>, actions: seq<Action>, m: nat)
    requires IsRun(states, actions) && m < |actions| && actions[m].Walk?
    ensures R.Enabled(states[m].reg, actions[m].step)
  {
  }

  /** Once a verdict has ended its section, every later section of the same reader is a new one. */
  lemma FreshStep(s: State, a: Action, s': State, r: R.Tid, since: nat)
    requires Enabled(s, a) && s' == Apply(s, a) && s.reg.clock >= since
    requires EndsVerdict(a, r) || (r in s.reg.readers ==> s.reg.readers[r].start >= since)
    ensures s'.reg.clock >= since
    ensures r in s'.reg.readers ==> s'.reg.readers[r].start >= since
  {
    RegistryStep(s, a);
    match RegistryPart(s, a)
    case Some(p) =>
      RR.ClockTicks(s.reg, p);
      if r in s'.reg.readers && s'.reg.readers[r].start != s.reg.clock {
        SectionBefore(s.reg, p, r);
      }
    case None =>
  }

  lemma {:induction false} SectionsAfter(states: seq<State>, actions: seq<Action>, k: nat, k': nat, r: R.Tid)
    requires IsRun(states, actions) && k < k' < |states| && EndsVerdict(actions[k], r)
    ensures states[k'].reg.clock >= states[k].reg.clock
    ensures r in states[k'].reg.readers ==> states[k'].reg.readers[r].start >= states[k].reg.clock
  {
    if k' > k + 1 {
      SectionsAfter(states, actions, k, k' - 1, r);
    }
    FreshStep(states[k' - 1], actions[k' - 1], states[k'], r, states[k].reg.clock);
  }

  /** One charge, one token. */
  lemma OneTokenPerCharge(states: seq<State>, actions: seq<Action>, n: R.Ptr, m: nat, k: nat, k': nat)
    requires IsRun(states, actions) && k < |actions| && k' < |actions|
    requires HandsToken(states, actions, n, m, k) && HandsToken(states, actions, n, m, k')
    ensures k >= k'
  {
    if k < k' {
      var r: R.Tid :| EndsVerdict(actions[k], r) && HasFinished(states[k].reg, r)
        && IsCharge(states, actions, m, r, states[k].reg.readers[r]);
      var r': R.Tid :| EndsVerdict(actions[k'], r') && HasFinished(states[k'].reg, r')
        && IsCharge(states, actions, m, r', states[k'].reg.readers[r']);
      assert r == r';
      SectionsAfter(states, actions, k, k', r);
      TimedInRun(states, actions, k);
      assert false;
    }
  }

  lemma {:induction false} InjectionCard(a: set<nat>, b: set<nat>, f: map<nat, nat>)
    requires a <= f.Keys && (forall x :: x in a ==> f[x] in b)
    requires forall x, y :: x in a && y in a && f[x] == f[y] ==> x == y
    ensures |a| <= |b|
  {
    if a != {} {
      var x :| x in a;
      InjectionCard(a - {x}, b - {f[x]}, f);
    }
  }

  lemma {:induction false} CountIsCard(log: seq<bool>)
    ensures CountTrue(log) == |set k: nat | k < |log| && log[k]|
  {
    var all := set k: nat | k < |log| && log[k];
    if log == [] {
      assert all == {};
    } else {
      var n := |log| - 1;
      var init := set k: nat | k < n && log[..n][k];
      CountIsCard(log[..n]);
      assert all == if log[n] then init + {n} else init;
    }
  }

  /** Which steps of the run hand out a token of rule n charged between states i and j. */
  ghost function Tokens(states: seq<State>, actions: seq<Action>, n: R.Ptr, i: nat, j: nat): set<nat>
    requires |states| == |actions| + 1
  {
    set k: nat | k < |actions| && HandsTokenIn(states, actions, n, i, j, k)
  }

  lemma TokenIsAdmission(states: seq<State>, actions: seq<Action>, n: R.Ptr, i: nat, j: nat, k: nat, m: nat)
    requires IsRun(states, actions) && i <= j < |states|
    requires k < |actions| && HandsTokenIn(states, actions, n, i, j, k)
    requires i + m == ChargeOf(states, actions, n, i, j, k)
    ensures m < |AdmitLog(states, actions, n, i, j)| && AdmitLog(states, actions, n, i, j)[m]
  {
    TokenWasAdmitted(states, actions, n, i + m, k);
  }

  lemma TokensDiffer(states: seq<State>, actions: seq<Action>, n: R.Ptr, i: nat, j: nat, k: nat, k': nat)
    requires IsRun(states, actions) && i <= j < |states|
    requires k in Tokens(states, actions, n, i, j) && k' in Tokens(states, actions, n, i, j)
    requires ChargeOf(states, actions, n, i, j, k) == ChargeOf(states, actions, n, i, j, k')
    ensures k == k'
  {
    OneTokenPerCharge(states, actions, n, ChargeOf(states, actions, n, i, j, k), k, k');
    OneTokenPerCharge(states, actions, n, ChargeOf(states, actions, n, i, j, k), k', k);
  }

  ghost predicate IntoLog(a: set<nat>, log: seq<bool>, f: map<nat, nat>) {
    a <= f.Keys && forall x :: x in a ==> f[x] < |log| && log[f[x]]
  }

  ghost predicate OneToOne(a: set<nat>, f: map<nat, nat>)
    requires a <= f.Keys
  {
    forall x, y :: x in a && y in a && f[x] == f[y] ==> x == y
  }

  /** A set that is mapped one to one into the set places of a log is no larger than their number. */
  lemma InjectionIntoLog(a: set<nat>, log: seq<bool>, f: map<nat, nat>)
    requires IntoLog(a, log, f) && OneToOne(a, f)
    ensures |a| <= CountTrue(log)
  {
    var places := set k: nat | k < |log| && log[k];
    InjectionCard(a, places, f);
    CountIsCard(log);
  }

  /** The charge of each token, by its place in the log of the window. */
  ghost function Charges(states: seq<State>, actions: seq<Action>, n: R.Ptr, i: nat, j: nat): (f: map<nat, nat>)
    requires |states| == |actions| + 1
    ensures f.Keys == Tokens(states, actions, n, i, j)
    ensures forall k :: k in f ==> f[k] == ChargeOf(states, actions, n, i, j, k) - i
  {
    map k: nat | k in Tokens(states, actions, n, i, j) :: ChargeOf(states, actions, n, i, j, k) - i
  }

  lemma ChargesIntoLog(states: seq<State>, actions: seq<Action>, n: R.Ptr, i: nat, j: nat)
    requires IsRun(states, actions) && i <= j < |states|
    ensures IntoLog(Tokens(states, actions, n, i, j), AdmitLog(states, actions, n, i, j),
                    Charges(states, actions, n, i, j))
  {
    var tokens, log := Tokens(states, actions, n, i, j), AdmitLog(states, actions, n, i, j);
    var f := Charges(states, actions, n, i, j);
    forall k | k in tokens ensures f[k] < |log| && log[f[k]] {
      ChargeIsPlaced(states, actions, n, i, j, k);
      TokenIsAdmission(states, actions, n, i, j, k, f[k]);
    }
  }

  lemma ChargeIsPlaced(states: seq<State>, actions: seq<Action>, n: R.Ptr, i: nat, j: nat, k: nat)
    requires |states| == |actions| + 1 && i <= j < |states|
    requires k < |actions| && HandsTokenIn(states, actions, n, i, j, k) && k in Charges(states, actions, n, i, j)
    ensures Charges(states, actions, n, i, j)[k] == ChargeOf(states, actions, n, i, j, k) - i
  {
  }

  lemma SameCharge(states: seq<State>, actions: seq<Action>, n: R.Ptr, i: nat, j: nat, k: nat, k': nat)
    requires |states| == |actions| + 1 && i <= j < |states| && k < |actions| && k' < |actions|
    requires HandsTokenIn(states, actions, n, i, j, k) && k in Charges(states, actions, n, i, j)
    requires HandsTokenIn(states, actions, n, i, j, k') && k' in Charges(states, actions, n, i, j)
    requires Charges(states, actions, n, i, j)[k] == Charges(states, actions, n, i, j)[k']
    ensures ChargeOf(states, actions, n, i, j, k) == ChargeOf(states, actions, n, i, j, k')
  {
    ChargeIsPlaced(states, actions, n, i, j, k);
    ChargeIsPlaced(states, actions, n, i, j, k');
  }

  lemma ChargesOneToOne(states: seq<State>, actions: seq<Action>, n: R.Ptr, i: nat, j: nat)
    requires IsRun(states, actions) && i <= j < |states|
    ensures OneToOne(Tokens(states, actions, n, i, j), Charges(states, actions, n, i, j))
  {
    var tokens, f := Tokens(states, actions, n, i, j), Charges(states, actions, n, i, j);
    forall k, k' | k in tokens && k' in tokens && f[k] == f[k'] ensures k == k' {
      SameCharge(states, actions, n, i, j, k, k');
      TokensDiffer(states, actions, n, i, j, k, k');
    }
  }

  lemma TokensAreAdmissions(states: seq<State>, actions: seq<Action>, n: R.Ptr, i: nat, j: nat)
    requires IsRun(states, actions) && i <= j < |states|
    ensures |Tokens(states, actions, n, i, j)| <= CountTrue(AdmitLog(states, actions, n, i, j))
  {
    ChargesIntoLog(states, actions, n, i, j);
    ChargesOneToOne(states, actions, n, i, j);
    InjectionIntoLog(Tokens(states, actions, n, i, j), AdmitLog(states, actions, n, i, j),
                     Charges(states, actions, n, i, j));
  }

  ghost function ChargeOf(states: seq<State>, actions: seq<Action>, n: R.Ptr, i: nat, j: nat, k: nat): (m: nat)
    requires |states| == |actions| + 1 && k < |actions| && HandsTokenIn(states, actions, n, i, j, k)
    ensures i <= m < j && HandsToken(states, actions, n, m, k)
  {
    var m: nat :| i <= m < j && HandsToken(states, actions, n, m, k);
    m
  }

  /** The token bound end to end: of the calls let through and the waiters granted by a charge to a
      rule within one window of its counter, there are at most max(0, maxCalls), as long as fewer
      than 2^31 charges fall into the window. */
  lemma TokensAreBounded(states: seq<State>, actions: seq<Action>, n: R.Ptr, i: nat, j: nat)
    requires IsWindow(states, actions, n, i, j)
    requires CountTrue(ChargeLog(states, actions, n, i, j)) <= INT_MAX
    ensures n in states[i].reg.rules
    ensures |Tokens(states, actions, n, i, j)| <= Max(0, states[i].reg.rules[n].maxCalls)
  {
    WindowAdmits(states, actions, n, i, j);
    TokensAreAdmissions(states, actions, n, i, j);
  }

  /** Every call let through and every waiter granted after a pick draws a token of that rule. */
  lemma PassesDrawTokens(states: seq<State>, actions: seq<Action>, k: nat, r: R.Tid)
    requires IsRun(states, actions) && k < |actions| && EndsVerdict(actions[k], r)
    requires HasFinished(states[k].reg, r) && states[k].reg.readers[r].phase.hit != R.HEAD
    requires !states[k].reg.readers[r].phase.blocked
    ensures exists m :: HandsToken(states, actions, states[k].reg.readers[r].phase.hit, m, k)
  {
    var m := WasCharged(states, actions, k, r, states[k].reg.readers[r]);
    assert HandsToken(states, actions, states[k].reg.readers[r].phase.hit, m, k);
  }
}
