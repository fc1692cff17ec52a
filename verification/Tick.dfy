/**
 One tick of the timer: the counters are zeroed, then the queue is scanned in
 order and each waiter asks for a token. The scan shares its counters; the
 results below say which waiters it grants without mentioning them.
 */
module Tick {
  import opened CTypes
  import opened Rules
  import opened Registry

  /** The rules after each call in turn has been charged. */
  function AfterCharges(v: seq<RuleState>, calls: seq<Call>): seq<RuleState> {
    if calls == [] then v
    else Charged(AfterCharges(v, calls[..|calls| - 1]), calls[|calls| - 1])
  }

  /** The scan grants the k-th waiter: its charge, after those before it, is within the limit. */
  predicate GrantedAt(v: seq<RuleState>, calls: seq<Call>, k: nat)
    requires k < |calls|
  {
    !Blocks(AfterCharges(v, calls[..k]), calls[k])
  }

  /** The waiters the scan leaves in the queue, in order. */
  function Kept<T>(v: seq<RuleState>, calls: seq<Call>, items: seq<T>): (kept: seq<T>)
    requires |items| == |calls|
  {
    if calls == [] then []
    else
      var n := |calls| - 1;
      Kept(v, calls[..n], items[..n]) + (if GrantedAt(v, calls, n) then [] else [items[n]])
  }

  /** How many of the calls have rule m as their first match. */
  function Rank(rules: seq<Rule>, calls: seq<Call>, m: nat): nat {
    if calls == [] then 0
    else
      Rank(rules, calls[..|calls| - 1], m) + (if FirstMatch(rules, calls[|calls| - 1]) == m then 1 else 0)
  }

  lemma ChargedSame(v: seq<RuleState>, call: Call)
    ensures |Charged(v, call)| == |v|
    ensures RulesOf(Charged(v, call)) == RulesOf(v)
  {
  }

  lemma ChargedCell(v: seq<RuleState>, call: Call, m: nat)
    requires m < |v|
    ensures |Charged(v, call)| == |v|
    ensures Charged(v, call)[m] == if Matched(v, call) == m then v[m].(calls := AtomicIncReturn(v[m].calls)) else v[m]
  {
  }

  lemma {:induction false} AfterChargesSame(v: seq<RuleState>, calls: seq<Call>)
    ensures |AfterCharges(v, calls)| == |v|
    ensures RulesOf(AfterCharges(v, calls)) == RulesOf(v)
  {
    if calls != [] {
      AfterChargesSame(v, calls[..|calls| - 1]);
      ChargedSame(AfterCharges(v, calls[..|calls| - 1]), calls[|calls| - 1]);
    }
  }

  /** From zeroed counters, each counter is the number of calls its rule was charged. */
  lemma {:induction false} CountersAreRanks(v: seq<RuleState>, calls: seq<Call>, m: nat)
    requires m < |v| && v[m].calls == 0
    ensures |AfterCharges(v, calls)| == |v|
    ensures AfterCharges(v, calls)[m].calls == CountAfter(Rank(RulesOf(v), calls, m))
    ensures AfterCharges(v, calls)[m].rule == v[m].rule
  {
    if calls != [] {
      var init := calls[..|calls| - 1];
      CountersAreRanks(v, init, m);
      AfterChargesSame(v, init);
      ChargedCell(AfterCharges(v, init), calls[|calls| - 1], m);
    }
  }

  /** Whether the k-th waiter deserves a token, by counting: nobody limits it, or its rank
      among the waiters with the same first match is within the limit. */
  predicate Deserves(rules: seq<Rule>, calls: seq<Call>, k: nat)
    requires k < |calls|
  {
    var m := FirstMatch(rules, calls[k]);
    m == |rules| || Rank(rules, calls[..k + 1], m) <= Max(0, rules[m].maxCalls)
  }

  /** The scan right after a reset grants the k-th waiter if and only if its rank, taken as a
      32-bit counter, is within the limit. */
  lemma GrantIsCount(v: seq<RuleState>, calls: seq<Call>, k: nat)
    requires k < |calls|
    ensures var rules := RulesOf(v); var m := FirstMatch(rules, calls[k]);
            GrantedAt(ZeroCalls(v), calls, k) <==>
            m == |rules| || CountAfter(Rank(rules, calls[..k + 1], m)) <= rules[m].maxCalls
  {
    var z := ZeroCalls(v);
    assert RulesOf(z) == RulesOf(v);
    var m := FirstMatch(RulesOf(v), calls[k]);
    AfterChargesSame(z, calls[..k]);
    assert calls[..k + 1][..k] == calls[..k];
    if m < |v| {
      CountersAreRanks(z, calls[..k], m);
    }
  }

  /** Tick refinement: while fewer than 2^31 waiters share a first match, the scan with
      shared counters grants exactly the deserving waiters. */
  lemma TickGrantsDeserving(v: seq<RuleState>, calls: seq<Call>, k: nat)
    requires k < |calls|
    requires Rank(RulesOf(v), calls[..k + 1], FirstMatch(RulesOf(v), calls[k])) <= INT_MAX
    ensures GrantedAt(ZeroCalls(v), calls, k) <==> Deserves(RulesOf(v), calls, k)
  {
    var rules := RulesOf(v);
    var m := FirstMatch(rules, calls[k]);
    GrantIsCount(v, calls, k);
    CountBelowWrap(Rank(rules, calls[..k + 1], m));
    assert calls[..k + 1][k] == calls[k];
  }

  /** A rule with no positive limit never grants from the queue; a waiter no rule matches
      is always granted. */
  lemma TickCornerCases(v: seq<RuleState>, calls: seq<Call>, k: nat)
    requires k < |calls|
    ensures var rules := RulesOf(v); var m := FirstMatch(rules, calls[k]);
            && (m == |rules| ==> GrantedAt(ZeroCalls(v), calls, k))
            && (m < |rules| && rules[m].maxCalls <= 0 && Rank(rules, calls[..k + 1], m) <= INT_MAX ==>
                  !GrantedAt(ZeroCalls(v), calls, k))
  {
    var rules := RulesOf(v);
    var m := FirstMatch(rules, calls[k]);
    GrantIsCount(v, calls, k);
    if m < |rules| && Rank(rules, calls[..k + 1], m) <= INT_MAX {
      CountBelowWrap(Rank(rules, calls[..k + 1], m));
      assert calls[..k + 1][k] == calls[k];
    }
  }

  lemma {:induction false} RankSplit(rules: seq<Rule>, a: seq<Call>, b: seq<Call>, m: nat)
    ensures Rank(rules, a + b, m) == Rank(rules, a, m) + Rank(rules, b, m)
  {
    if b == [] {
      assert a + b == a;
    } else {
      assert (a + b)[..|a + b| - 1] == a + b[..|b| - 1];
      RankSplit(rules, a, b[..|b| - 1], m);
    }
  }

  lemma RankMonotone(rules: seq<Rule>, calls: seq<Call>, i: nat, j: nat, m: nat)
    requires i <= j <= |calls|
    ensures Rank(rules, calls[..i], m) <= Rank(rules, calls[..j], m)
  {
    assert calls[..j] == calls[..i] + calls[i..j];
    RankSplit(rules, calls[..i], calls[i..j], m);
  }

  lemma {:induction false} KeptIsFilter<T>(v: seq<RuleState>, calls: seq<Call>, items: seq<T>, k: nat)
    requires |items| == |calls| && k < |calls|
    ensures GrantedAt(v, calls, k) ==>
              Kept(v, calls[..k + 1], items[..k + 1]) == Kept(v, calls[..k], items[..k])
    ensures !GrantedAt(v, calls, k) ==>
              Kept(v, calls[..k + 1], items[..k + 1]) == Kept(v, calls[..k], items[..k]) + [items[k]]
  {
    assert calls[..k + 1][..k] == calls[..k] && items[..k + 1][..k] == items[..k];
  }

  /** `positions` lists, in increasing order, exactly the places where the flag is set. */
  ghost predicate Lists(positions: seq<nat>, flags: seq<bool>) {
    && (forall i, j :: 0 <= i < j < |positions| ==> positions[i] < positions[j])
    && (forall k :: k in positions <==> 0 <= k < |flags| && flags[k])
  }

  /** `kept` is the flagged items, in order. */
  ghost predicate Selects<T>(kept: seq<T>, items: seq<T>, flags: seq<bool>, positions: seq<nat>) {
    && Lists(positions, flags)
    && |kept| == |positions|
    && forall j :: 0 <= j < |positions| ==> positions[j] < |items| && kept[j] == items[positions[j]]
  }

  lemma SelectsExtend<T>(kept: seq<T>, items: seq<T>, flags: seq<bool>, positions: seq<nat>, flag: bool)
    requires Selects(kept, items, flags, positions) && |flags| < |items|
    ensures Selects(kept + (if flag then [items[|flags|]] else []), items, flags + [flag],
                    positions + if flag then [|flags|] else [])
  {
    assert forall j :: 0 <= j < |positions| ==> positions[j] in positions;
    var flags', positions' := flags + [flag], positions + if flag then [|flags|] else [];
    forall k ensures k in positions' <==> 0 <= k < |flags'| && flags'[k] {
      assert k in positions' <==> k in positions || (flag && k == |flags|);
    }
  }

  /** Which waiters the scan does not grant. */
  function Refusals(v: seq<RuleState>, calls: seq<Call>): (flags: seq<bool>)
    ensures |flags| == |calls|
    ensures forall k {:trigger flags[k]} :: 0 <= k < |calls| ==> flags[k] == !GrantedAt(v, calls, k)
  {
    seq(|calls|, k requires 0 <= k < |calls| => !GrantedAt(v, calls, k))
  }

  lemma RefusalsPrefix(v: seq<RuleState>, calls: seq<Call>, n: nat)
    requires n < |calls|
    ensures Refusals(v, calls[..n + 1]) == Refusals(v, calls[..n]) + [!GrantedAt(v, calls, n)]
  {
    forall k | 0 <= k <= n ensures GrantedAt(v, calls[..n + 1], k) == GrantedAt(v, calls, k) {
      assert calls[..n + 1][..k] == calls[..k];
    }
    forall k | 0 <= k < n ensures GrantedAt(v, calls[..n], k) == GrantedAt(v, calls, k) {
      assert calls[..n][..k] == calls[..k];
    }
  }

  lemma ScanStep<T>(v: seq<RuleState>, calls: seq<Call>, items: seq<T>, n: nat) returns (refused: bool)
    requires |items| == |calls| && n < |calls|
    ensures Refusals(v, calls[..n + 1]) == Refusals(v, calls[..n]) + [refused]
    ensures Kept(v, calls[..n + 1], items[..n + 1]) ==
            Kept(v, calls[..n], items[..n]) + if refused then [items[n]] else []
  {
    refused := !GrantedAt(v, calls, n);
    RefusalsPrefix(v, calls, n);
    KeptIsFilter(v, calls, items, n);
  }

  lemma {:induction false} ScanSelects<T>(v: seq<RuleState>, calls: seq<Call>, items: seq<T>, n: nat)
    returns (positions: seq<nat>)
    requires |items| == |calls| && n <= |calls|
    ensures Selects(Kept(v, calls[..n], items[..n]), items, Refusals(v, calls[..n]), positions)
  {
    positions := [];
    if n > 0 {
      positions := ScanSelects(v, calls, items, n - 1);
      var refused := ScanStep(v, calls, items, n - 1);
      SelectsExtend(Kept(v, calls[..n - 1], items[..n - 1]), items, Refusals(v, calls[..n - 1]), positions, refused);
      positions := positions + if refused then [n - 1] else [];
    }
  }

  /** Exactly the granted waiters go: the others are kept, and in queue order. */
  lemma KeptIsSubsequence<T>(v: seq<RuleState>, calls: seq<Call>, items: seq<T>) returns (positions: seq<nat>)
    requires |items| == |calls|
    ensures Selects(Kept(v, calls, items), items, Refusals(v, calls), positions)
  {
    positions := ScanSelects(v, calls, items, |calls|);
    assert calls[..|calls|] == calls && items[..|calls|] == items;
  }

  lemma ChargesStep(v: seq<RuleState>, calls: seq<Call>, k: nat)
    requires k < |calls|
    ensures AfterCharges(v, calls[..k + 1]) == Charged(AfterCharges(v, calls[..k]), calls[k])
  {
    assert calls[..k + 1][..k] == calls[..k];
  }

  lemma KeptRankStep(rules: seq<Rule>, z: seq<RuleState>, calls: seq<Call>, m: nat)
    requires |calls| > 0
    ensures var n := |calls| - 1;
            Rank(rules, Kept(z, calls, calls), m) ==
            Rank(rules, Kept(z, calls[..n], calls[..n]), m) +
            if FirstMatch(rules, calls[n]) == m && !GrantedAt(z, calls, n) then 1 else 0
  {
    var n := |calls| - 1;
    RankOfOne(rules, Kept(z, calls[..n], calls[..n]), calls[n], m);
    if GrantedAt(z, calls, n) {
      assert Kept(z, calls, calls) == Kept(z, calls[..n], calls[..n]);
    }
  }

  lemma LastGrant(v: seq<RuleState>, calls: seq<Call>, m: nat)
    requires |calls| > 0 && m < |v| && FirstMatch(RulesOf(v), calls[|calls| - 1]) == m
    ensures GrantedAt(ZeroCalls(v), calls, |calls| - 1) <==>
            CountAfter(Rank(RulesOf(v), calls[..|calls| - 1], m) + 1) <= v[m].rule.maxCalls
  {
    assert calls[..|calls| - 1 + 1] == calls;
    GrantIsCount(v, calls, |calls| - 1);
  }

  /** The waiters of rule m the scan leaves are those past the limit. */
  ghost predicate KeepsPastLimit(v: seq<RuleState>, calls: seq<Call>, m: nat)
    requires m < |v|
  {
    var rank := Rank(RulesOf(v), calls, m);
    Rank(RulesOf(v), Kept(ZeroCalls(v), calls, calls), m) == rank - Granted(v[m].rule.maxCalls, rank)
  }

  /** What the last call adds to the two ranks. */
  lemma LastCall(v: seq<RuleState>, calls: seq<Call>, m: nat) returns (matches: bool, granted: bool)
    requires |calls| > 0 && m < |v|
    ensures var n := |calls| - 1; var rules, z := RulesOf(v), ZeroCalls(v); var rank := Rank(rules, calls[..n], m);
            && Rank(rules, calls, m) == rank + (if matches then 1 else 0)
            && Rank(rules, Kept(z, calls, calls), m) ==
               Rank(rules, Kept(z, calls[..n], calls[..n]), m) + (if matches && !granted then 1 else 0)
            && (matches ==> (granted <==> CountAfter(rank + 1) <= v[m].rule.maxCalls))
  {
    var n := |calls| - 1;
    matches, granted := FirstMatch(RulesOf(v), calls[n]) == m, GrantedAt(ZeroCalls(v), calls, n);
    KeptRankStep(RulesOf(v), ZeroCalls(v), calls, m);
    if matches {
      LastGrant(v, calls, m);
    }
  }

  lemma OneMore(maxCalls: Int32, rank: nat, kept: nat, matches: bool, granted: bool)
    requires kept == rank - Granted(maxCalls, rank)
    requires matches ==> (granted <==> CountAfter(rank + 1) <= maxCalls)
    ensures var rank' := rank + if matches then 1 else 0;
            kept + (if matches && !granted then 1 else 0) == rank' - Granted(maxCalls, rank')
  {
  }

  lemma KeptRankExtends(v: seq<RuleState>, calls: seq<Call>, m: nat)
    requires |calls| > 0 && m < |v| && KeepsPastLimit(v, calls[..|calls| - 1], m)
    ensures KeepsPastLimit(v, calls, m)
  {
    var init := calls[..|calls| - 1];
    var matches, granted := LastCall(v, calls, m);
    OneMore(v[m].rule.maxCalls, Rank(RulesOf(v), init, m),
            Rank(RulesOf(v), Kept(ZeroCalls(v), init, init), m), matches, granted);
  }

  /** How many of one rule's waiters the scan grants: one for each count within the limit. */
  lemma {:induction false} KeptRank(v: seq<RuleState>, calls: seq<Call>, m: nat)
    requires m < |v|
    ensures KeepsPastLimit(v, calls, m)
  {
    if calls != [] {
      KeptRank(v, calls[..|calls| - 1], m);
      KeptRankExtends(v, calls, m);
    }
  }

  lemma RankOfOne(rules: seq<Rule>, calls: seq<Call>, call: Call, m: nat)
    ensures Rank(rules, calls + [call], m) ==
            Rank(rules, calls, m) + if FirstMatch(rules, call) == m then 1 else 0
  {
    assert (calls + [call])[..|calls|] == calls;
  }

  /** The queue with the deserving waiters taken out. */
  function Undeserving<T>(rules: seq<Rule>, calls: seq<Call>, items: seq<T>): (rest: seq<T>)
    requires |items| == |calls|
  {
    if calls == [] then []
    else
      var n := |calls| - 1;
      Undeserving(rules, calls[..n], items[..n]) + (if Deserves(rules, calls, n) then [] else [items[n]])
  }

  /** Tick refinement for the whole queue: the in-place scan leaves exactly the undeserving
      waiters, in order. */
  lemma {:induction false} TickRefinesFilter<T>(v: seq<RuleState>, calls: seq<Call>, items: seq<T>)
    requires |items| == |calls| <= INT_MAX
    ensures Kept(ZeroCalls(v), calls, items) == Undeserving(RulesOf(v), calls, items)
  {
    if calls != [] {
      var n := |calls| - 1;
      TickRefinesFilter(v, calls[..n], items[..n]);
      RankBound(RulesOf(v), calls[..n + 1], FirstMatch(RulesOf(v), calls[n]));
      TickGrantsDeserving(v, calls, n);
    }
  }

  lemma {:induction false} RankBound(rules: seq<Rule>, calls: seq<Call>, m: nat)
    ensures Rank(rules, calls, m) <= |calls|
  {
    if calls != [] {
      RankBound(rules, calls[..|calls| - 1], m);
    }
  }
}
