/**
 Throttling rules, the calls they are matched against, and the 32-bit counter
 that hands out the tokens of a rule.
 */
module Rules {
  import opened CTypes

  /** Names hold at most 15 characters and a terminator (MAX_COMM_LEN is 16). */
  const MAX_COMM_LEN: nat := 16

  const NO_UID: int := -1
  const ANY_SYSCALL: int := -1

  datatype Rule = Rule(uid: Int32, comm: string, syscallNum: Int32, maxCalls: Int32)

  datatype Call = Call(uid: Int32, comm: string, syscallNum: Int32)

  /** strncpy of at most 15 characters, always terminated. */
  function Truncate(comm: string): string {
    if |comm| < MAX_COMM_LEN then comm else comm[..MAX_COMM_LEN - 1]
  }

  /** A rule filters by user or by program name; either filter is enough, and a
      rule with neither filter matches nobody. */
  predicate Matches(rule: Rule, call: Call) {
    && (rule.syscallNum == call.syscallNum || rule.syscallNum == ANY_SYSCALL)
    && (|| (rule.uid != NO_UID && rule.uid == call.uid)
        || (|rule.comm| > 0 && rule.comm == call.comm))
  }

  /** Position of the first rule that matches, or the length of the list. */
  function FirstMatch(rules: seq<Rule>, call: Call): (i: nat)
    ensures i <= |rules|
    ensures i < |rules| ==> Matches(rules[i], call)
    ensures forall j :: 0 <= j < i ==> !Matches(rules[j], call)
  {
    FirstMatchFrom(rules, call, 0)
  }

  function FirstMatchFrom(rules: seq<Rule>, call: Call, from: nat): (i: nat)
    requires from <= |rules|
    ensures from <= i <= |rules|
    ensures i < |rules| ==> Matches(rules[i], call)
    ensures forall j :: from <= j < i ==> !Matches(rules[j], call)
    decreases |rules| - from
  {
    if from == |rules| || Matches(rules[from], call) then from else FirstMatchFrom(rules, call, from + 1)
  }

  /** FirstMatch is the only position with its three properties. */
  lemma FirstMatchIs(rules: seq<Rule>, call: Call, i: nat)
    requires i <= |rules|
    requires i < |rules| ==> Matches(rules[i], call)
    requires forall j :: 0 <= j < i ==> !Matches(rules[j], call)
    ensures FirstMatch(rules, call) == i
  {
  }

  /** Appending at the tail never changes the first match of a call that has one. */
  lemma FirstMatchAppend(rules: seq<Rule>, call: Call, rule: Rule)
    requires FirstMatch(rules, call) < |rules|
    ensures FirstMatch(rules + [rule], call) == FirstMatch(rules, call)
  {
    FirstMatchIs(rules + [rule], call, FirstMatch(rules, call));
  }

  /** Position of the first rule whose number is exactly `num`, or the length of the list. */
  function FirstWithNumber(rules: seq<Rule>, num: int): (i: nat)
    ensures i <= |rules|
    ensures i < |rules| ==> rules[i].syscallNum == num
    ensures forall j :: 0 <= j < i ==> rules[j].syscallNum != num
  {
    FirstWithNumberFrom(rules, num, 0)
  }

  function FirstWithNumberFrom(rules: seq<Rule>, num: int, from: nat): (i: nat)
    requires from <= |rules|
    ensures from <= i <= |rules|
    ensures i < |rules| ==> rules[i].syscallNum == num
    ensures forall j :: from <= j < i ==> rules[j].syscallNum != num
    decreases |rules| - from
  {
    if from == |rules| || rules[from].syscallNum == num then from else FirstWithNumberFrom(rules, num, from + 1)
  }

  lemma FirstWithNumberIs(rules: seq<Rule>, num: int, i: nat)
    requires i <= |rules|
    requires i < |rules| ==> rules[i].syscallNum == num
    requires forall j :: 0 <= j < i ==> rules[j].syscallNum != num
    ensures FirstWithNumber(rules, num) == i
  {
  }

  /** atomic_inc_return on a 32-bit counter: two's complement wrap-around. */
  function AtomicIncReturn(count: Int32): Int32 {
    if count == INT_MAX then INT_MIN else count + 1
  }

  /** The counter of a rule after n increments from zero. */
  function CountAfter(n: nat): Int32 {
    if n == 0 then 0 else AtomicIncReturn(CountAfter(n - 1))
  }

  lemma {:induction false} CountBelowWrap(n: nat)
    requires n <= INT_MAX
    ensures CountAfter(n) == n
  {
    if n > 0 {
      CountBelowWrap(n - 1);
    }
  }

  lemma NextRemainder(x: nat)
    ensures (x + 1) % 0x1_0000_0000 == if x % 0x1_0000_0000 == 0xffff_ffff then 0 else x % 0x1_0000_0000 + 1
  {
  }

  /** n increments leave n, as a 32-bit number in two's complement. */
  lemma {:induction false} CounterIsTwosComplement(n: nat)
    ensures CountAfter(n) == (n + 0x8000_0000) % 0x1_0000_0000 - 0x8000_0000
  {
    if n > 0 {
      CounterIsTwosComplement(n - 1);
      NextRemainder(n - 1 + 0x8000_0000);
    }
  }

  /** How many of n consecutive increments from zero stay within the limit. */
  function Granted(maxCalls: Int32, n: nat): nat {
    if n == 0 then 0
    else Granted(maxCalls, n - 1) + (if CountAfter(n) <= maxCalls then 1 else 0)
  }

  lemma {:induction false} GrantedBelowWrap(maxCalls: Int32, n: nat)
    requires n <= INT_MAX
    ensures Granted(maxCalls, n) == Min(n, Max(0, maxCalls))
  {
    if n > 0 {
      GrantedBelowWrap(maxCalls, n - 1);
      CountBelowWrap(n);
    }
  }

  lemma {:induction false} GrantedPastWrap(maxCalls: Int32, n: nat)
    requires n > INT_MAX
    ensures Granted(maxCalls, n) > Max(0, maxCalls)
  {
    if n == INT_MAX + 1 {
      GrantedBelowWrap(maxCalls, n - 1);
      CountBelowWrap(n - 1);
      assert CountAfter(n) == INT_MIN;
    } else {
      GrantedPastWrap(maxCalls, n - 1);
    }
  }

  /** A rule hands out exactly min(n, max(0, maxCalls)) tokens for n charges if and
      only if its 32-bit counter has not wrapped. */
  lemma TokensExactIffNoWrap(maxCalls: Int32, n: nat)
    ensures Granted(maxCalls, n) == Min(n, Max(0, maxCalls)) <==> n < 0x8000_0000
  {
    if n <= INT_MAX {
      GrantedBelowWrap(maxCalls, n);
    } else {
      GrantedPastWrap(maxCalls, n);
    }
  }

  /** With or without wrap-around at least min(n, maxCalls) tokens are handed out. */
  lemma TokensAtLeast(maxCalls: Int32, n: nat)
    ensures Granted(maxCalls, n) >= Min(n, Max(0, maxCalls))
  {
    if n <= INT_MAX {
      GrantedBelowWrap(maxCalls, n);
    } else {
      GrantedPastWrap(maxCalls, n);
    }
  }

  function CountTrue(log: seq<bool>): nat {
    if log == [] then 0
    else CountTrue(log[..|log| - 1]) + (if log[|log| - 1] then 1 else 0)
  }

  /** One step of a window: a charge moves the counter and is admitted if the new
      count is within the limit; the counter may disappear with its rule. */
  predicate WindowStep(maxCalls: Int32, charged: bool, admitted: bool, before: Option<Int32>, after: Option<Int32>) {
    && (charged ==> before.Some?)
    && (admitted <==> charged && AtomicIncReturn(before.value) <= maxCalls)
    && (after.Some? ==>
          && before.Some?
          && after.value == if charged then AtomicIncReturn(before.value) else before.value)
  }

  /** In a window that starts at zero the counter and the admissions are those of
      consecutive increments. */
  lemma {:induction false} WindowCounts(maxCalls: Int32, charged: seq<bool>, admitted: seq<bool>,
                                        counts: seq<Option<Int32>>)
    requires |charged| == |admitted| == |counts| - 1
    requires counts[0] == Some(0)
    requires forall k :: 0 <= k < |charged| ==>
               WindowStep(maxCalls, charged[k], admitted[k], counts[k], counts[k + 1])
    ensures counts[|counts| - 1].Some? ==> counts[|counts| - 1].value == CountAfter(CountTrue(charged))
    ensures CountTrue(admitted) == Granted(maxCalls, CountTrue(charged))
  {
    var n := |charged|;
    if n > 0 {
      WindowCounts(maxCalls, charged[..n - 1], admitted[..n - 1], counts[..n]);
      assert WindowStep(maxCalls, charged[n - 1], admitted[n - 1], counts[n - 1], counts[n]);
    }
  }
}
