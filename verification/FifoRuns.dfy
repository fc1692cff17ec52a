/**
 Fairness of the queue over whole runs, with "decide and enqueue" and "reset and
 scan" each taken as one step: nobody overtakes, and every waiter's turn comes.
 */
module FifoRuns {
  import opened CTypes
  import opened Rules
  import opened Registry
  import opened Tick

  datatype Waiting = Waiting(id: nat, call: Call)

  /** `arrivals` numbers the calls, so that an identifier is never used twice. */
  datatype State = State(rules: seq<RuleState>, queue: seq<Waiting>, arrivals: nat)

  datatype Event =
    | Arrive(call: Call)
    | TimerTick
    | Signal(position: nat)      // the waiter at this position is interrupted
    | AppendRule(rule: Rule)     // add_rule
    | ResetStats(num: int)       // reset_rule_stats: also zeroes the token counter

  function CallsIn(queue: seq<Waiting>): (calls: seq<Call>)
    ensures |calls| == |queue|
    ensures forall k :: 0 <= k < |queue| ==> calls[k] == queue[k].call
  {
    seq(|queue|, k requires 0 <= k < |queue| => queue[k].call)
  }

  predicate Enabled(s: State, e: Event) {
    e.Signal? ==> e.position < |s.queue|
  }

  function Next(s: State, e: Event): State
    requires Enabled(s, e)
  {
    match e
    case Arrive(call) =>
      State(Charged(s.rules, call),
            if Blocks(s.rules, call) then s.queue + [Waiting(s.arrivals, call)] else s.queue,
            s.arrivals + 1)
    case TimerTick =>
      var zeroed, calls := ZeroCalls(s.rules), CallsIn(s.queue);
      s.(rules := AfterCharges(zeroed, calls), queue := Kept(zeroed, calls, s.queue))
    case Signal(i) => s.(queue := RemoveAt(s.queue, i))
    case AppendRule(rule) => s.(rules := s.rules + [FreshRule(rule)])
    case ResetStats(num) =>
      var i := Numbered(s.rules, num);
      s.(rules := if i < |s.rules| then s.rules[i := FreshRule(s.rules[i].rule)] else s.rules)
  }

  ghost predicate IsRun(states: seq<State>, events: seq<Event>) {
    && |states| == |events| + 1
    && states[0] == State([], [], 0)
    && forall i {:trigger events[i]} :: 0 <= i < |events| ==>
         Enabled(states[i], events[i]) && states[i + 1] == Next(states[i], events[i])
  }

  // ----------------------------------------------------------- no overtaking

  /** The first match of the waiter at position k. */
  function MatchAt(s: State, k: nat): nat
    requires k < |s.queue|
  {
    Matched(s.rules, s.queue[k].call)
  }

  /** How far the counters stand above the limits: with margin 1 a counter exceeds its limit, with
      margin 0 the next charge will. */
  type Margin = d: int | 0 <= d <= 1

  ghost predicate Spent(s: State, k: nat, margin: Margin)
    requires k < |s.queue|
  {
    var m := MatchAt(s, k);
    m < |s.rules| && s.rules[m].calls >= s.rules[m].rule.maxCalls + margin
  }

  /** Whoever waits, waits for a rule that has no token left. */
  ghost predicate NoTokenLeft(s: State, margin: Margin) {
    forall k :: 0 <= k < |s.queue| ==> Spent(s, k, margin)
  }

  /** The counter the call would charge stands at its largest value. */
  predicate AboutToWrap(s: State, call: Call) {
    var m := Matched(s.rules, call);
    m < |s.rules| && s.rules[m].calls == INT_MAX
  }

  /** Some waiter has the same first match as the call. */
  ghost predicate SomeoneWaits(s: State, call: Call) {
    exists k :: 0 <= k < |s.queue| && MatchAt(s, k) == Matched(s.rules, call)
  }

  /** When nobody waits for a token that is there, a newcomer passes somebody who waits on
      the same rule if and only if the rule's counter is about to wrap. */
  lemma OvertakesIffWraps(s: State, call: Call)
    requires NoTokenLeft(s, 0) && SomeoneWaits(s, call)
    ensures !Blocks(s.rules, call) <==> AboutToWrap(s, call)
  {
    var k :| 0 <= k < |s.queue| && MatchAt(s, k) == Matched(s.rules, call);
    assert Spent(s, k, 0);
  }

  /** After a statistics reset a newcomer passes somebody who waits on the same rule if and only if
      the reset zeroed that rule and it allows calls, or its counter is about to wrap as it was. */
  lemma OvertakesAfterResetIff(s: State, num: int, call: Call)
    requires NoTokenLeft(s, 0) && SomeoneWaits(s, call)
    ensures var m := Matched(s.rules, call);
            && m < |s.rules|
            && (!Blocks(Next(s, ResetStats(num)).rules, call) <==>
                if m == Numbered(s.rules, num) then s.rules[m].rule.maxCalls >= 1 else AboutToWrap(s, call))
  {
    var k :| 0 <= k < |s.queue| && MatchAt(s, k) == Matched(s.rules, call);
    assert Spent(s, k, 0);
    assert RulesOf(Next(s, ResetStats(num)).rules) == RulesOf(s.rules);
  }

  lemma ArriveKeeps(s: State, call: Call, margin: Margin)
    requires NoTokenLeft(s, margin) && !AboutToWrap(s, call)
    ensures NoTokenLeft(Next(s, Arrive(call)), margin)
  {
    var s' := Next(s, Arrive(call));
    ChargedSame(s.rules, call);
    forall k | 0 <= k < |s'.queue| ensures Spent(s', k, margin) {
      if k < |s.queue| {
        assert Spent(s, k, margin);
      }
    }
  }

  /** The scan keeps a waiter only if it leaves its rule's counter over the limit. */
  lemma KeptIsSpent(v: seq<RuleState>, calls: seq<Call>, k: nat)
    requires k < |calls| <= INT_MAX && !GrantedAt(ZeroCalls(v), calls, k)
    ensures var m := FirstMatch(RulesOf(v), calls[k]); var after := AfterCharges(ZeroCalls(v), calls);
            |after| == |v| && m < |v| && after[m].calls > v[m].rule.maxCalls
  {
    var rules := RulesOf(v);
    var m := FirstMatch(rules, calls[k]);
    GrantIsCount(v, calls, k);
    RankMonotone(rules, calls, k + 1, |calls|, m);
    RankBound(rules, calls, m);
    assert calls[..|calls|] == calls;
    CountBelowWrap(Rank(rules, calls[..k + 1], m));
    CountBelowWrap(Rank(rules, calls, m));
    assert RulesOf(ZeroCalls(v)) == rules;
    CountersAreRanks(ZeroCalls(v), calls, m);
  }

  /** Each kept waiter comes from a position the scan did not grant. */
  lemma KeptFrom<T>(v: seq<RuleState>, calls: seq<Call>, items: seq<T>, j: nat) returns (k: nat)
    requires |items| == |calls| && j < |Kept(v, calls, items)|
    ensures k < |calls| && Kept(v, calls, items)[j] == items[k] && !GrantedAt(v, calls, k)
  {
    var positions := KeptIsSubsequence(v, calls, items);
    k := positions[j];
    assert k in positions;
  }

  lemma TickKeepsNoToken(s: State, margin: Margin)
    requires |s.queue| <= INT_MAX
    ensures NoTokenLeft(Next(s, TimerTick), margin)
  {
    var s' := Next(s, TimerTick);
    var z, calls := ZeroCalls(s.rules), CallsIn(s.queue);
    AfterChargesSame(z, calls);
    assert RulesOf(z) == RulesOf(s.rules);
    forall j | 0 <= j < |s'.queue| ensures Spent(s', j, margin) {
      var k := KeptFrom(z, calls, s.queue, j);
      KeptIsSpent(s.rules, calls, k);
      assert RulesOf(s'.rules)[MatchAt(s', j)] == RulesOf(s.rules)[MatchAt(s', j)];
    }
  }

  lemma AppendKeeps(s: State, rule: Rule, margin: Margin)
    requires NoTokenLeft(s, margin)
    ensures NoTokenLeft(Next(s, AppendRule(rule)), margin)
  {
    var s' := Next(s, AppendRule(rule));
    assert RulesOf(s'.rules) == RulesOf(s.rules) + [rule];
    forall k | 0 <= k < |s'.queue| ensures Spent(s', k, margin) {
      assert Spent(s, k, margin);
      FirstMatchAppend(RulesOf(s.rules), s.queue[k].call, rule);
    }
  }

  lemma SignalKeeps(s: State, i: nat, margin: Margin)
    requires NoTokenLeft(s, margin) && i < |s.queue|
    ensures NoTokenLeft(Next(s, Signal(i)), margin)
  {
    var s' := Next(s, Signal(i));
    forall k | 0 <= k < |s'.queue| ensures Spent(s', k, margin) {
      var j := if k < i then k else k + 1;
      assert Spent(s, j, margin);
    }
  }

  /** The reset hands tokens to nobody who waits: their rules allow no calls. */
  ghost predicate ResetHarmless(s: State, num: int, margin: Margin) {
    forall k :: 0 <= k < |s.queue| && MatchAt(s, k) == Numbered(s.rules, num) && MatchAt(s, k) < |s.rules| ==>
      s.rules[MatchAt(s, k)].rule.maxCalls + margin <= 0
  }

  /** A statistics reset keeps the property exactly when the rule it zeroes is one that nobody
      waits on, or that allows no calls. */
  lemma ResetKeepsIff(s: State, num: int, margin: Margin)
    requires NoTokenLeft(s, margin)
    ensures NoTokenLeft(Next(s, ResetStats(num)), margin) <==> ResetHarmless(s, num, margin)
  {
    var s' := Next(s, ResetStats(num));
    var i := Numbered(s.rules, num);
    assert RulesOf(s'.rules) == RulesOf(s.rules);
    forall k | 0 <= k < |s.queue|
      ensures MatchAt(s', k) == MatchAt(s, k)
      ensures Spent(s', k, margin) <==>
              (MatchAt(s, k) == i && i < |s.rules| ==> s.rules[i].rule.maxCalls + margin <= 0)
    {
      assert Spent(s, k, margin);
    }
  }

  /** Steps that leave no token to someone who waits. */
  ghost predicate Orderly(s: State, e: Event, margin: Margin) {
    match e
    case Arrive(call) => !AboutToWrap(s, call)
    case TimerTick => |s.queue| <= INT_MAX
    case ResetStats(num) => ResetHarmless(s, num, margin)
    case _ => true
  }

  lemma {:induction false} RunKeepsNoTokenLeft(states: seq<State>, events: seq<Event>, k: nat, margin: Margin)
    requires IsRun(states, events) && k < |states|
    requires forall i :: 0 <= i < k ==> Orderly(states[i], events[i], margin)
    ensures NoTokenLeft(states[k], margin)
  {
    if k > 0 {
      RunKeepsNoTokenLeft(states, events, k - 1, margin);
      var s := states[k - 1];
      match events[k - 1]
      case Arrive(call) => ArriveKeeps(s, call, margin);
      case TimerTick => TickKeepsNoToken(s, margin);
      case Signal(i) => SignalKeeps(s, i, margin);
      case AppendRule(rule) => AppendKeeps(s, rule, margin);
      case ResetStats(num) => ResetKeepsIff(s, num, margin);
    }
  }

  /** No overtaking: in every run in which no counter wraps and no statistics reset zeroes a rule
      that allows calls and is waited for, a newcomer that is let through has the first match of
      nobody in the queue. */
  lemma NoOvertaking(states: seq<State>, events: seq<Event>, k: nat)
    requires IsRun(states, events) && k < |events| && events[k].Arrive?
    requires forall i :: 0 <= i <= k ==> Orderly(states[i], events[i], 0)
    ensures !Blocks(states[k].rules, events[k].call) ==> !SomeoneWaits(states[k], events[k].call)
  {
    RunKeepsNoTokenLeft(states, events, k, 0);
    if SomeoneWaits(states[k], events[k].call) {
      OvertakesIffWraps(states[k], events[k].call);
    }
  }

  /** Without statistics resets, whoever waits, waits for a counter that exceeds its limit. */
  lemma WaitersAreOverLimit(states: seq<State>, events: seq<Event>, k: nat, q: nat)
    requires IsRun(states, events) && k < |states| && q < |states[k].queue|
    requires forall i :: 0 <= i < k ==> !events[i].ResetStats? && Orderly(states[i], events[i], 1)
    ensures var m := MatchAt(states[k], q);
            m < |states[k].rules| && states[k].rules[m].calls > states[k].rules[m].rule.maxCalls
  {
    RunKeepsNoTokenLeft(states, events, k, 1);
    assert Spent(states[k], q, 1);
  }

  /** A run in which a newcomer overtakes: a rule that allows one call, a call that passes, a call
      that waits, a statistics reset, and a third call that passes while the second waits. */
  lemma OvertakingExists() returns (states: seq<State>, events: seq<Event>)
    ensures IsRun(states, events) && |events| == 5 && events[3] == ResetStats(7) && events[4].Arrive?
    ensures SomeoneWaits(states[4], events[4].call) && !Blocks(states[4].rules, events[4].call)
  {
    var rule, call := Rule(1000, "", 7, 1), Call(1000, "make", 7);
    events := [AppendRule(rule), Arrive(call), Arrive(call), ResetStats(7), Arrive(call)];
    var entry := FreshRule(rule);
    var s0, s1 := State([], [], 0), State([entry], [], 0);
    var s2 := State([entry.(calls := 1)], [], 1);
    var s3 := State([entry.(calls := 2)], [Waiting(1, call)], 2);
    var s4 := State([entry], [Waiting(1, call)], 2);
    var s5 := State([entry.(calls := 1)], [Waiting(1, call)], 3);
    OneRule(rule, call, entry);
    OneRule(rule, call, entry.(calls := 1));
    OneRule(rule, call, entry.(calls := 2));
    states := [s0, s1, s2, s3, s4, s5];
    assert Next(s0, events[0]) == s1 && Next(s1, events[1]) == s2 && Next(s2, events[2]) == s3;
    assert Next(s3, events[3]) == s4 && Next(s4, events[4]) == s5;
    assert MatchAt(s4, 0) == Matched(s4.rules, call);
  }

  lemma OneRule(rule: Rule, call: Call, r: RuleState)
    requires r.rule == rule && Matches(rule, call)
    ensures Matched([r], call) == 0 && Numbered([r], rule.syscallNum) == 0
    ensures Charged([r], call) == [r.(calls := AtomicIncReturn(r.calls))]
    ensures Blocks([r], call) <==> AtomicIncReturn(r.calls) > rule.maxCalls
  {
    assert RulesOf([r]) == [rule];
    FirstMatchIs([rule], call, 0);
    FirstWithNumberIs([rule], rule.syscallNum, 0);
  }

  // ------------------------------------------------------------ bounded wait

  /** Rank of the waiter at position k among the waiters with its first match, itself included. */
  function RankAt(s: State, k: nat): nat
    requires k < |s.queue|
  {
    Rank(RulesOf(s.rules), CallsIn(s.queue)[..k + 1], MatchAt(s, k))
  }

  /** After the step the waiter is gone, or stands at a position `k'` of rank at most `bound`. */
  ghost predicate MovedUp(s: State, k: nat, s': State, bound: int)
    requires k < |s.queue|
  {
    forall k' :: 0 <= k' < |s'.queue| && s'.queue[k'].id == s.queue[k].id ==>
      && s'.queue[k'] == s.queue[k]
      && MatchAt(s', k') == MatchAt(s, k) < |s'.rules|
      && RankAt(s', k') <= bound
  }

  ghost predicate DistinctIds(s: State) {
    && Distinct(s.queue)
    && (forall i :: 0 <= i < |s.queue| ==> s.queue[i].id < s.arrivals)
  }

  lemma {:induction false} CallsOfKept(v: seq<RuleState>, calls: seq<Call>, queue: seq<Waiting>)
    requires calls == CallsIn(queue)
    ensures CallsIn(Kept(v, calls, queue)) == Kept(v, calls, calls)
  {
    if calls != [] {
      var n := |calls| - 1;
      assert CallsIn(queue[..n]) == calls[..n];
      CallsOfKept(v, calls[..n], queue[..n]);
    }
  }

  lemma {:induction false} KeptPrefix<T>(v: seq<RuleState>, calls: seq<Call>, items: seq<T>, n: nat)
    requires |items| == |calls| && n <= |calls|
    ensures Kept(v, calls[..n], items[..n]) <= Kept(v, calls, items)
    decreases |calls| - n
  {
    if n < |calls| {
      KeptIsFilter(v, calls, items, n);
      KeptPrefix(v, calls, items, n + 1);
    } else {
      assert calls[..n] == calls && items[..n] == items;
    }
  }

  /** The waiter at position k after a tick: granted and gone, or up by a whole limit. */
  lemma TickMovesUp(s: State, k: nat)
    requires DistinctIds(s) && k < |s.queue| && MatchAt(s, k) < |s.rules|
    ensures MovedUp(s, k, Next(s, TimerTick), RankAt(s, k) - Max(0, s.rules[MatchAt(s, k)].rule.maxCalls))
  {
    var s' := Next(s, TimerTick);
    var z, calls := ZeroCalls(s.rules), CallsIn(s.queue);
    assert RulesOf(s'.rules) == RulesOf(s.rules) by {
      AfterChargesSame(z, calls);
      assert RulesOf(z) == RulesOf(s.rules);
    }
    KeptIds(s, z);
    forall k' | 0 <= k' < |s'.queue| && s'.queue[k'].id == s.queue[k].id
      ensures s'.queue[k'] == s.queue[k]
      ensures RankAt(s', k') <= RankAt(s, k) - Max(0, s.rules[MatchAt(s, k)].rule.maxCalls)
    {
      var from := KeptFrom(z, calls, s.queue, k');
      assert from == k;
      KeptRankAt(s, k, k');
    }
  }

  lemma {:induction false} KeptMembers<T>(v: seq<RuleState>, calls: seq<Call>, items: seq<T>)
    requires |items| == |calls|
    ensures forall w :: w in Kept(v, calls, items) ==> w in items
  {
    forall w | w in Kept(v, calls, items) ensures w in items {
      var j :| 0 <= j < |Kept(v, calls, items)| && Kept(v, calls, items)[j] == w;
      var k := KeptFrom(v, calls, items, j);
    }
  }

  ghost predicate Distinct(queue: seq<Waiting>) {
    forall i, j :: 0 <= i < j < |queue| ==> queue[i].id != queue[j].id
  }

  lemma {:induction false} KeptDistinct(v: seq<RuleState>, calls: seq<Call>, queue: seq<Waiting>)
    requires |queue| == |calls| && Distinct(queue)
    ensures Distinct(Kept(v, calls, queue))
  {
    if calls != [] {
      var n := |calls| - 1;
      KeptDistinct(v, calls[..n], queue[..n]);
      KeptMembers(v, calls[..n], queue[..n]);
      var init := Kept(v, calls[..n], queue[..n]);
      forall i | 0 <= i < |init| ensures init[i].id != queue[n].id {
        assert init[i] in queue[..n];
      }
    }
  }

  lemma KeptIds(s: State, v: seq<RuleState>)
    requires DistinctIds(s)
    ensures DistinctIds(s.(queue := Kept(v, CallsIn(s.queue), s.queue)))
    ensures forall w :: w in Kept(v, CallsIn(s.queue), s.queue) ==> w in s.queue
  {
    KeptDistinct(v, CallsIn(s.queue), s.queue);
    KeptMembers(v, CallsIn(s.queue), s.queue);
    var q := Kept(v, CallsIn(s.queue), s.queue);
    assert forall i :: 0 <= i < |q| ==> q[i] in q && q[i] in s.queue;
  }

  /** The rank a kept waiter has after the tick. */
  lemma KeptRankAt(s: State, k: nat, k': nat)
    requires DistinctIds(s) && k < |s.queue| && MatchAt(s, k) < |s.rules|
    requires var q := Kept(ZeroCalls(s.rules), CallsIn(s.queue), s.queue); k' < |q| && q[k'] == s.queue[k]
    requires !GrantedAt(ZeroCalls(s.rules), CallsIn(s.queue), k)
    ensures var q := Kept(ZeroCalls(s.rules), CallsIn(s.queue), s.queue);
            Rank(RulesOf(s.rules), CallsIn(q)[..k' + 1], MatchAt(s, k)) <=
            RankAt(s, k) - Max(0, s.rules[MatchAt(s, k)].rule.maxCalls)
  {
    var z, calls, rules, m := ZeroCalls(s.rules), CallsIn(s.queue), RulesOf(s.rules), MatchAt(s, k);
    var q := Kept(z, calls, s.queue);
    var head, hcalls := s.queue[..k + 1], calls[..k + 1];
    var qhead := Kept(z, hcalls, head);
    KeptIsFilter(z, calls, s.queue, k);
    KeptPrefix(z, calls, s.queue, k + 1);
    assert qhead[|qhead| - 1] == s.queue[k] && q[|qhead| - 1] == s.queue[k];
    KeptIds(s, z);
    assert k' == |qhead| - 1;
    assert CallsIn(head) == hcalls;
    CallsOfKept(z, hcalls, head);
    assert CallsIn(q)[..k' + 1] == CallsIn(qhead);
    KeptRank(s.rules, hcalls, m);
    RankAndTokens(s, k);
  }

  /** A waiter that is not granted has a rank above the limit, and the limit's worth of
      waiters at or before it were granted. */
  lemma RankAndTokens(s: State, k: nat)
    requires k < |s.queue| && MatchAt(s, k) < |s.rules|
    requires !GrantedAt(ZeroCalls(s.rules), CallsIn(s.queue), k)
    ensures var maxCalls := s.rules[MatchAt(s, k)].rule.maxCalls;
            Granted(maxCalls, RankAt(s, k)) >= Max(0, maxCalls)
  {
    var maxCalls := s.rules[MatchAt(s, k)].rule.maxCalls;
    GrantIsCount(s.rules, CallsIn(s.queue), k);
    TokensAtLeast(maxCalls, RankAt(s, k));
    if RankAt(s, k) <= maxCalls {
      CountBelowWrap(RankAt(s, k));
    }
  }

  /** A newcomer at the tail changes nobody's rank. */
  lemma RankIgnoresTail(rules: seq<Rule>, queue: seq<Waiting>, tail: seq<Waiting>, k: nat, m: nat)
    requires k < |queue|
    ensures CallsIn(queue + tail)[..k + 1] == CallsIn(queue)[..k + 1]
    ensures Rank(rules, CallsIn(queue + tail)[..k + 1], m) == Rank(rules, CallsIn(queue)[..k + 1], m)
  {
    assert CallsIn(queue + tail)[..k + 1] == CallsIn(queue)[..k + 1];
  }

  lemma ArriveMovesUp(s: State, k: nat, call: Call)
    requires DistinctIds(s) && k < |s.queue| && MatchAt(s, k) < |s.rules|
    ensures MovedUp(s, k, Next(s, Arrive(call)), RankAt(s, k))
  {
    var s' := Next(s, Arrive(call));
    assert RulesOf(s'.rules) == RulesOf(s.rules) && |s'.rules| == |s.rules| by { ChargedSame(s.rules, call); }
    var tail := s'.queue[|s.queue|..];
    assert s'.queue == s.queue + tail;
    forall k' | 0 <= k' < |s'.queue| && s'.queue[k'].id == s.queue[k].id
      ensures s'.queue[k'] == s.queue[k] && RankAt(s', k') <= RankAt(s, k)
    {
      assert k' < |s.queue|;
      assert k' == k;
      RankIgnoresTail(RulesOf(s.rules), s.queue, tail, k, MatchAt(s, k));
    }
  }

  /** Taking a waiter out of the queue does not raise the rank of those behind it. */
  lemma RankWithout(rules: seq<Rule>, calls: seq<Call>, i: nat, k: nat, m: nat)
    requires i < k < |calls|
    ensures Rank(rules, (calls[..i] + calls[i + 1..])[..k], m) <= Rank(rules, calls[..k + 1], m)
  {
    var a, b, c := calls[..i], [calls[i]], calls[i + 1..k + 1];
    assert (calls[..i] + calls[i + 1..])[..k] == a + c;
    assert calls[..k + 1] == a + (b + c);
    RankSplit(rules, a, c, m);
    RankSplit(rules, a, b + c, m);
    RankSplit(rules, b, c, m);
  }

  lemma SignalMovesUp(s: State, k: nat, i: nat)
    requires DistinctIds(s) && k < |s.queue| && MatchAt(s, k) < |s.rules| && i < |s.queue|
    ensures MovedUp(s, k, Next(s, Signal(i)), RankAt(s, k))
  {
    var s' := Next(s, Signal(i));
    var m := MatchAt(s, k);
    forall k' | 0 <= k' < |s'.queue| && s'.queue[k'].id == s.queue[k].id
      ensures s'.queue[k'] == s.queue[k] && RankAt(s', k') <= RankAt(s, k)
    {
      assert k == if k' < i then k' else k' + 1;
      RankAfterSignal(RulesOf(s.rules), s.queue, i, k, m);
    }
  }

  lemma RankAfterSignal(rules: seq<Rule>, queue: seq<Waiting>, i: nat, k: nat, m: nat)
    requires i < |queue| && k < |queue| && k != i
    ensures var k' := if k < i then k else k - 1;
            Rank(rules, CallsIn(RemoveAt(queue, i))[..k' + 1], m) <= Rank(rules, CallsIn(queue)[..k + 1], m)
  {
    var calls := CallsIn(queue);
    assert CallsIn(RemoveAt(queue, i)) == calls[..i] + calls[i + 1..];
    if k < i {
      assert CallsIn(RemoveAt(queue, i))[..k + 1] == calls[..k + 1];
    } else {
      RankWithout(rules, calls, i, k, m);
    }
  }

  /** A longer list ranks the waiters of an old rule no higher: fewer calls can reach it first. */
  lemma {:induction false} RankAppend(rules: seq<Rule>, rule: Rule, calls: seq<Call>, m: nat)
    requires m < |rules|
    ensures Rank(rules + [rule], calls, m) == Rank(rules, calls, m)
  {
    if calls != [] {
      var call := calls[|calls| - 1];
      RankAppend(rules, rule, calls[..|calls| - 1], m);
      if FirstMatch(rules, call) < |rules| {
        FirstMatchAppend(rules, call, rule);
      } else {
        FirstMatchIs(rules + [rule], call, if Matches(rule, call) then |rules| else |rules| + 1);
      }
    }
  }

  lemma AppendMovesUp(s: State, k: nat, rule: Rule)
    requires DistinctIds(s) && k < |s.queue| && MatchAt(s, k) < |s.rules|
    ensures MovedUp(s, k, Next(s, AppendRule(rule)), RankAt(s, k))
  {
    var s' := Next(s, AppendRule(rule));
    assert RulesOf(s'.rules) == RulesOf(s.rules) + [rule];
    FirstMatchAppend(RulesOf(s.rules), s.queue[k].call, rule);
    RankAppend(RulesOf(s.rules), rule, CallsIn(s.queue)[..k + 1], MatchAt(s, k));
    assert forall k' :: 0 <= k' < |s'.queue| && s'.queue[k'].id == s.queue[k].id ==> k' == k;
  }

  lemma ResetMovesUp(s: State, k: nat, num: int)
    requires DistinctIds(s) && k < |s.queue| && MatchAt(s, k) < |s.rules|
    ensures MovedUp(s, k, Next(s, ResetStats(num)), RankAt(s, k))
  {
    var s' := Next(s, ResetStats(num));
    assert RulesOf(s'.rules) == RulesOf(s.rules);
    assert forall k' :: 0 <= k' < |s'.queue| && s'.queue[k'].id == s.queue[k].id ==> k' == k;
  }

  /** What a tick is worth to a waiter on rule m. */
  function Worth(s: State, m: nat, e: Event): nat
    requires m < |s.rules|
  {
    if e.TimerTick? then Max(0, s.rules[m].rule.maxCalls) else 0
  }

  lemma StepMovesUp(s: State, k: nat, e: Event)
    requires DistinctIds(s) && k < |s.queue| && MatchAt(s, k) < |s.rules| && Enabled(s, e)
    ensures MovedUp(s, k, Next(s, e), RankAt(s, k) - Worth(s, MatchAt(s, k), e))
  {
    match e
    case Arrive(call) => ArriveMovesUp(s, k, call);
    case TimerTick => TickMovesUp(s, k);
    case Signal(i) => SignalMovesUp(s, k, i);
    case AppendRule(rule) => AppendMovesUp(s, k, rule);
    case ResetStats(num) => ResetMovesUp(s, k, num);
  }

  lemma RulesOnlyGrow(s: State, e: Event, m: nat)
    requires Enabled(s, e) && m < |s.rules|
    ensures m < |Next(s, e).rules| && Next(s, e).rules[m].rule == s.rules[m].rule
  {
    AfterChargesSame(ZeroCalls(s.rules), CallsIn(s.queue));
    if e.TimerTick? {
      var r := RulesOf(AfterCharges(ZeroCalls(s.rules), CallsIn(s.queue)));
      assert r[m] == RulesOf(ZeroCalls(s.rules))[m];
    }
  }

  lemma {:induction false} RunKeepsIds(states: seq<State>, events: seq<Event>, j: nat)
    requires IsRun(states, events) && j < |states|
    ensures DistinctIds(states[j])
  {
    if j > 0 {
      RunKeepsIds(states, events, j - 1);
      StepKeepsIds(states[j - 1], events[j - 1]);
    }
  }

  lemma StepKeepsIds(s: State, e: Event)
    requires DistinctIds(s) && Enabled(s, e)
    ensures DistinctIds(Next(s, e)) && Next(s, e).arrivals >= s.arrivals
    ensures forall w :: w in Next(s, e).queue ==> w in s.queue || w.id == s.arrivals
  {
    if e.TimerTick? {
      KeptIds(s, ZeroCalls(s.rules));
    }
  }

  function Ticks(events: seq<Event>): nat {
    if events == [] then 0
    else Ticks(events[..|events| - 1]) + (if events[|events| - 1].TimerTick? then 1 else 0)
  }

  predicate Waits(s: State, id: nat) {
    exists k :: 0 <= k < |s.queue| && s.queue[k].id == id
  }

  /** The tokens the ticks among the events are worth to a rule with this limit. */
  function Worths(events: seq<Event>, limit: int): int {
    if events == [] then 0
    else Worths(events[..|events| - 1], limit) + (if events[|events| - 1].TimerTick? then limit else 0)
  }

  lemma WorthsSlice(events: seq<Event>, i: nat, j: nat, limit: int)
    requires i < j <= |events|
    ensures Worths(events[i..j], limit) ==
            Worths(events[i..j - 1], limit) + if events[j - 1].TimerTick? then limit else 0
  {
    assert events[i..j][..j - 1 - i] == events[i..j - 1];
  }

  lemma {:induction false} WorthsAreTicks(events: seq<Event>, limit: int)
    ensures Worths(events, limit) == Ticks(events) * limit
  {
    if events != [] {
      WorthsAreTicks(events[..|events| - 1], limit);
    }
  }

  /** The waiter `w`, on rule m, stands at position k with a rank of at most `bound`. */
  ghost predicate Stands(s: State, k: nat, w: Waiting, m: nat, rule: Rule, bound: int) {
    && k < |s.queue| && s.queue[k] == w
    && MatchAt(s, k) == m < |s.rules| && s.rules[m].rule == rule
    && RankAt(s, k) <= bound
  }

  lemma StandsStep(s: State, e: Event, k: nat, k': nat, w: Waiting, m: nat, rule: Rule, bound: int)
    requires DistinctIds(s) && Enabled(s, e) && Stands(s, k, w, m, rule, bound)
    requires k' < |Next(s, e).queue| && Next(s, e).queue[k'].id == w.id
    ensures Stands(Next(s, e), k', w, m, rule, bound - if e.TimerTick? then Max(0, rule.maxCalls) else 0)
  {
    StepMovesUp(s, k, e);
    RulesOnlyGrow(s, e, m);
  }

  /** While a waiter is in the queue, each tick has moved it up by its rule's limit. */
  lemma {:induction false} RankFalls(states: seq<State>, events: seq<Event>, i: nat, k: nat, j: nat, k': nat,
                                     m: nat, rule: Rule, bound: int)
    requires IsRun(states, events) && i <= j < |states|
    requires k < |states[i].queue| && Stands(states[i], k, states[i].queue[k], m, rule, bound)
    requires k' < |states[j].queue| && states[j].queue[k'].id == states[i].queue[k].id
    ensures Stands(states[j], k', states[i].queue[k], m, rule, bound - Worths(events[i..j], Max(0, rule.maxCalls)))
  {
    if i == j {
      RunKeepsIds(states, events, j);
      assert k' == k;
    } else {
      var h := StillWaiting(states, events, i, k, j);
      RankFalls(states, events, i, k, j - 1, h, m, rule, bound);
      WorthsSlice(events, i, j, Max(0, rule.maxCalls));
      StandsInRun(states, events, j, h, k', states[i].queue[k], m, rule,
                  bound - Worths(events[i..j - 1], Max(0, rule.maxCalls)));
    }
  }

  lemma StandsInRun(states: seq<State>, events: seq<Event>, j: nat, k: nat, k': nat, w: Waiting, m: nat, rule: Rule,
                    bound: int)
    requires IsRun(states, events) && 0 < j < |states| && Stands(states[j - 1], k, w, m, rule, bound)
    requires k' < |states[j].queue| && states[j].queue[k'].id == w.id
    ensures Stands(states[j], k', w, m, rule, bound - if events[j - 1].TimerTick? then Max(0, rule.maxCalls) else 0)
  {
    RunKeepsIds(states, events, j - 1);
    StandsStep(states[j - 1], events[j - 1], k, k', w, m, rule, bound);
  }

  /** An identifier is not used again: who waits after a step, but did not arrive by it, waited
      before. */
  lemma WaitedBefore(s: State, e: Event, id: nat) returns (h: nat)
    requires DistinctIds(s) && Enabled(s, e) && id < s.arrivals && Waits(Next(s, e), id)
    ensures h < |s.queue| && s.queue[h].id == id
  {
    StepKeepsIds(s, e);
    var q := Next(s, e).queue;
    var k' :| 0 <= k' < |q| && q[k'].id == id;
    assert q[k'] in q;
    h :| h < |s.queue| && s.queue[h] == q[k'];
  }

  lemma StillWaiting(states: seq<State>, events: seq<Event>, i: nat, k: nat, j: nat) returns (h: nat)
    requires IsRun(states, events) && i < j < |states| && k < |states[i].queue|
    requires Waits(states[j], states[i].queue[k].id)
    ensures h < |states[j - 1].queue| && states[j - 1].queue[h].id == states[i].queue[k].id
  {
    RunKeepsIds(states, events, i);
    RunKeepsIds(states, events, j - 1);
    ArrivalsGrow(states, events, i, j - 1);
    h := WaitedBefore(states[j - 1], events[j - 1], states[i].queue[k].id);
  }

  lemma {:induction false} ArrivalsGrow(states: seq<State>, events: seq<Event>, i: nat, j: nat)
    requires IsRun(states, events) && i <= j < |states|
    ensures states[i].arrivals <= states[j].arrivals
  {
    if i < j {
      ArrivalsGrow(states, events, i, j - 1);
      assert states[j] == Next(states[j - 1], events[j - 1]);
    }
  }

  /** A rank is at least one: the waiter counts itself. */
  lemma RankPositive(s: State, k: nat)
    requires k < |s.queue|
    ensures RankAt(s, k) >= 1
  {
    assert CallsIn(s.queue)[..k + 1][k] == s.queue[k].call;
  }

  /** Bounded wait: whatever newcomers arrive, whoever is signalled, whichever rules are
      appended or reset, a waiter of rank r on a rule with limit M has left the queue once
      the timer has ticked t times with t * M >= r, that is by its ceil(r / M)-th tick. */
  lemma BoundedWait(states: seq<State>, events: seq<Event>, i: nat, k: nat, j: nat)
    requires IsRun(states, events) && i <= j < |states|
    requires k < |states[i].queue| && MatchAt(states[i], k) < |states[i].rules|
    requires Ticks(events[i..j]) * Max(0, states[i].rules[MatchAt(states[i], k)].rule.maxCalls) >= RankAt(states[i], k)
    ensures !Waits(states[j], states[i].queue[k].id)
  {
    if Waits(states[j], states[i].queue[k].id) {
      var k' :| 0 <= k' < |states[j].queue| && states[j].queue[k'].id == states[i].queue[k].id;
      var m := MatchAt(states[i], k);
      RankFalls(states, events, i, k, j, k', m, states[i].rules[m].rule, RankAt(states[i], k));
      WorthsAreTicks(events[i..j], Max(0, states[i].rules[m].rule.maxCalls));
      RankPositive(states[j], k');
    }
  }

  /** The same in numbers of ticks. */
  lemma OutByCeiling(states: seq<State>, events: seq<Event>, i: nat, k: nat, j: nat)
    requires IsRun(states, events) && i <= j < |states|
    requires k < |states[i].queue| && MatchAt(states[i], k) < |states[i].rules|
    requires states[i].rules[MatchAt(states[i], k)].rule.maxCalls >= 1
    requires var limit := states[i].rules[MatchAt(states[i], k)].rule.maxCalls;
             Ticks(events[i..j]) >= (RankAt(states[i], k) + limit - 1) / limit
    ensures !Waits(states[j], states[i].queue[k].id)
  {
    var limit := states[i].rules[MatchAt(states[i], k)].rule.maxCalls;
    CeilingSuffices(RankAt(states[i], k), limit, Ticks(events[i..j]));
    assert Max(0, limit) == limit;
    BoundedWait(states, events, i, k, j);
  }

  lemma CeilingSuffices(r: nat, limit: nat, t: nat)
    requires limit >= 1 && t >= (r + limit - 1) / limit
    ensures t * limit >= r
  {
    var q := (r + limit - 1) / limit;
    assert q * limit >= r;
    ProductsOrdered(q, t, limit);
  }
}
