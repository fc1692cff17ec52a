/**
 The rule list as the writers and the sequential paths of registry_data.c see it:
 a circular doubly linked list relinked in place, with counters and statistics
 updated inside the walks.
 */
module Registry {
  import opened CTypes
  import opened Rules
  import opened Interceptor
  import HookAgreement

  const ENOMEM: int := 12
  const ENOENT: int := 2

  /** The statistics fields of a rule. */
  datatype Stats = Stats(
    peakDelay: Word,
    victimUid: Int32,
    victimComm: string,
    peakBlocked: Int32,
    sumBlocked: Word,
    events: Word)

  const NO_STATS: Stats := Stats(0, NO_UID, "", 0, 0, 0)

  datatype RuleState = RuleState(rule: Rule, calls: Int32, stats: Stats)

  /** What get_rule_stats copies out. */
  datatype Report = Report(
    peakDelay: Word,
    victimUid: Int32,
    victimComm: string,
    peakBlocked: Int32,
    averageBlocked: Int32)

  // ---------------------------------------------------------- specification

  function RulesOf(v: seq<RuleState>): (r: seq<Rule>)
    ensures |r| == |v|
    ensures forall i :: 0 <= i < |v| ==> r[i] == v[i].rule
  {
    seq(|v|, i requires 0 <= i < |v| => v[i].rule)
  }

  function Matched(v: seq<RuleState>, call: Call): nat {
    FirstMatch(RulesOf(v), call)
  }

  /** is_throttled charges the call to its first matching rule. */
  function Charged(v: seq<RuleState>, call: Call): seq<RuleState> {
    var i := Matched(v, call);
    if i < |v| then v[i := v[i].(calls := AtomicIncReturn(v[i].calls))] else v
  }

  /** It blocks the call when the charge exceeds the limit. */
  predicate Blocks(v: seq<RuleState>, call: Call) {
    var i := Matched(v, call);
    i < |v| && AtomicIncReturn(v[i].calls) > v[i].rule.maxCalls
  }

  function ZeroCalls(v: seq<RuleState>): (z: seq<RuleState>)
    ensures |z| == |v|
  {
    seq(|v|, i requires 0 <= i < |v| => v[i].(calls := 0))
  }

  function Numbered(v: seq<RuleState>, num: int): nat {
    FirstWithNumber(RulesOf(v), num)
  }

  function WithStats(v: seq<RuleState>, num: int, f: Stats -> Stats): seq<RuleState> {
    var i := Numbered(v, num);
    if i < |v| then v[i := v[i].(stats := f(v[i].stats))] else v
  }

  /** Addition of unsigned 64-bit words. */
  function AddWords(a: Word, b: Word): Word {
    (a + b) % TWO_64
  }

  /** An `int` added to an unsigned 64-bit word. */
  function AddInt(a: Word, b: Int32): Word {
    (a + b) % TWO_64
  }

  /** update_thread_stats. */
  function OnBlock(st: Stats, gauge: Int32): Stats {
    st.(peakBlocked := if gauge > st.peakBlocked then gauge else st.peakBlocked,
        sumBlocked := AddInt(st.sumBlocked, gauge),
        events := AddWords(st.events, 1))
  }

  /** A victim without a name leaves the old name in place. */
  function VictimName(before: string, comm: Option<string>): string {
    match comm
    case Some(name) => Truncate(name)
    case None => before
  }

  /** update_peak_delay. */
  function OnDelay(st: Stats, delay: Word, uid: Int32, comm: Option<string>): Stats {
    if delay > st.peakDelay then
      st.(peakDelay := delay, victimUid := uid, victimComm := VictimName(st.victimComm, comm))
    else st
  }

  function ReportOf(st: Stats): Report {
    Report(st.peakDelay, st.victimUid, st.victimComm, st.peakBlocked,
           if st.events > 0 then ToInt32(st.sumBlocked / st.events) else 0)
  }

  /** The rule add_rule builds from its arguments; a null name is an empty one. */
  function NewRule(uid: Int32, comm: Option<string>, num: Int32, maxCalls: Int32): Rule {
    Rule(uid, if comm.Some? then Truncate(comm.value) else "", num, maxCalls)
  }

  function FreshRule(rule: Rule): RuleState {
    RuleState(rule, 0, NO_STATS)
  }

  /** Whom a rule applies to, in terms of what the administrator asked for: a name counts up to
      its first 15 characters, and without a user and a name the rule applies to nobody. */
  lemma NewRuleApplies(uid: Int32, comm: Option<string>, num: Int32, maxCalls: Int32, call: Call)
    ensures NewRule(uid, comm, num, maxCalls).maxCalls == maxCalls
    ensures Matches(NewRule(uid, comm, num, maxCalls), call) <==>
            && (num == -1 || num == call.syscallNum)
            && (|| (uid != -1 && uid == call.uid)
                || (comm.Some? && comm.value != "" && call.comm == comm.value[..Min(|comm.value|, 15)]))
    ensures uid == -1 && (comm.None? || comm.value == "") ==> !Matches(NewRule(uid, comm, num, maxCalls), call)
  {
  }

  lemma RulesOfRemoved(v: seq<RuleState>, i: nat)
    requires i < |v|
    ensures RulesOf(RemoveAt(v, i)) == RemoveAt(RulesOf(v), i)
  {
  }

  // --------------------------------------------------------- implementation

  /** A list cell. A null pointer stands for the poison of an unlinked cell. */
  class RuleNode {
    var next: RuleNode?
    var prev: RuleNode?
    const rule: Rule
    var calls: Int32
    var stats: Stats

    constructor (rule: Rule)
      ensures this.rule == rule && next == this && prev == this
      ensures calls == 0 && stats == NO_STATS
    {
      this.rule := rule;
      next, prev := this, this;
      calls := 0;
      stats := NO_STATS;
    }

    ghost function View(): RuleState
      reads this
    {
      RuleState(rule, calls, stats)
    }
  }

  class RuleList {
    /** rules_list; the head carries no rule of its own. */
    const head: RuleNode
    const hooks: SyscallHooks
    ghost var cells: seq<RuleNode>

    ghost function At(i: nat): RuleNode
      requires i <= |cells|
      reads this
    {
      if i == |cells| then head else cells[i]
    }

    ghost function Before(i: nat): RuleNode
      requires i <= |cells|
      reads this
    {
      if i == 0 then head else cells[i - 1]
    }

    ghost predicate Valid()
      reads this, head, cells
    {
      && hooks.Valid()
      && head !in cells
      && (forall i, j :: 0 <= i < j < |cells| ==> cells[i] != cells[j])
      && (forall i :: 0 <= i <= |cells| ==> Before(i).next == At(i) && At(i).prev == Before(i))
    }

    ghost function View(): (v: seq<RuleState>)
      reads this, cells
      ensures |v| == |cells|
    {
      seq(|cells|, i requires 0 <= i < |cells| reads this, cells => cells[i].View())
    }

    /** The list and the patched table as the administrator's commands see them. */
    ghost function Admin(): HookAgreement.AdminState
      requires hooks.Valid()
      reads this, cells, hooks.refcount, hooks.saved, hooks.table
    {
      HookAgreement.AdminState(RulesOf(View()), hooks.State())
    }

    constructor (hooks: SyscallHooks)
      requires hooks.Valid()
      ensures Valid() && fresh(head) && View() == [] && this.hooks == hooks
    {
      head := new RuleNode(Rule(NO_UID, "", ANY_SYSCALL, 0));
      this.hooks := hooks;
      cells := [];
    }

    /** add_rule: allocate outside the lock, publish at the tail, then hook. */
    method AddRule(kmallocOk: bool, uid: Int32, comm: Option<string>, num: Int32, maxCalls: Int32) returns (ret: int)
      requires Valid()
      modifies this, head, cells, hooks.refcount, hooks.saved, hooks.table
      ensures Valid()
      ensures ret == if kmallocOk then 0 else -12
      ensures !kmallocOk ==> View() == old(View()) && hooks.State() == old(hooks.State())
      ensures kmallocOk ==>
                && View() == old(View()) + [FreshRule(NewRule(uid, comm, num, maxCalls))]
                && hooks.State() ==
                   if hooks.found then Hooked(old(hooks.State()), hooks.wrapper, num) else old(hooks.State())
      ensures kmallocOk && hooks.found ==>
                Admin() == HookAgreement.Execute(old(Admin()), hooks.wrapper,
                                                 HookAgreement.AddRule(NewRule(uid, comm, num, maxCalls)))
    {
      if !kmallocOk {
        return -ENOMEM;
      }
      var rule := NewRule(uid, comm, num, maxCalls);
      var node := new RuleNode(rule);
      Append(node);
      var r := hooks.HookSpecificSyscall(num);
      ret := 0;
      assert RulesOf(View()) == RulesOf(old(View())) + [rule];
    }

    /** list_add_tail_rcu. */
    method Append(node: RuleNode)
      requires Valid() && node != head && node !in cells
      modifies this`cells, head`prev, head`next, node`next, node`prev, cells
      ensures Valid() && cells == old(cells) + [node]
      ensures forall i :: 0 <= i < |old(cells)| ==> cells[i].View() == old(cells[i].View())
      ensures node.View() == old(node.View())
    {
      var tail := head.prev;
      assert tail == Before(|cells|) && At(|cells|) == head;
      node.next := head;
      node.prev := tail;
      tail.next := node;
      head.prev := node;
      cells := cells + [node];
      assert forall i :: 0 <= i <= |old(cells)| ==> Before(i) == old(Before(i));
      assert forall i :: 0 <= i < |old(cells)| ==> At(i) == old(At(i));
    }

    /** list_del_rcu: the neighbours are joined, the cell keeps its next pointer. */
    method Splice(node: RuleNode, ghost i: nat)
      requires Valid() && i < |cells| && node == cells[i]
      modifies this`cells, head`prev, head`next, cells`prev, cells`next
      ensures Valid() && cells == old(cells[..i] + cells[i + 1..])
      ensures node.next == old(node.next) && node.prev == null
    {
      ghost var before := cells;
      assert At(i) == node == Before(i + 1);
      var prev, next := node.prev, node.next;
      assert prev == Before(i) && next == At(i + 1);
      prev.next := next;
      next.prev := prev;
      node.prev := null;
      cells := cells[..i] + cells[i + 1..];
      forall k | 0 <= k <= |cells| ensures Before(k).next == At(k) && At(k).prev == Before(k) {
        var j := if k <= i then k else k + 1;
        assert old(Before(j).next == At(j) && At(j).prev == Before(j));
        if k != i {
          assert At(k) == old(At(j)) && Before(k) == old(Before(j));
        }
      }
    }

    /** The locked walk to the first rule with exactly this number. */
    method FindNumber(num: int) returns (node: RuleNode?, ghost i: nat)
      requires Valid()
      ensures i == Numbered(View(), num)
      ensures var first := Numbered(View(), num); node == if first < |cells| then cells[first] else null
    {
      var cursor := head.next;
      i := 0;
      assert cursor == At(0) by { assert Before(0) == head; }
      while cursor != head
        invariant i <= |cells| && cursor == At(i)
        invariant forall j :: 0 <= j < i ==> cells[j].rule.syscallNum != num
        decreases |cells| - i
      {
        if cursor.rule.syscallNum == num {
          FirstWithNumberIs(RulesOf(View()), num, i);
          return cursor, i;
        }
        assert Before(i + 1) == cursor;
        cursor := cursor.next;
        i := i + 1;
      }
      FirstWithNumberIs(RulesOf(View()), num, i);
      node := null;
    }

    /** remove_rule. The grace period and the kfree that follow are steps of the
        concurrent model. */
    method RemoveRule(num: int) returns (ret: int, removed: RuleNode?)
      requires Valid()
      modifies this`cells, head`prev, head`next, cells`prev, cells`next, hooks.refcount, hooks.saved, hooks.table
      ensures Valid()
      ensures var i := Numbered(old(View()), num);
              if i == old(|cells|) then
                ret == -2 && removed == null && View() == old(View()) && hooks.State() == old(hooks.State())
              else
                && ret == 0 && removed == old(cells[i]) && removed.next == old(cells[i].next)
                && View() == RemoveAt(old(View()), i)
                && hooks.State() == if hooks.found then Unhooked(old(hooks.State()), num) else old(hooks.State())
      ensures hooks.found ==>
                Admin() == HookAgreement.Execute(old(Admin()), hooks.wrapper, HookAgreement.RemoveRule(num))
    {
      ghost var i: nat;
      removed, i := FindNumber(num);
      if removed == null {
        return -ENOENT, null;
      }
      Splice(removed, i);
      assert View() == RemoveAt(old(View()), i);
      Unhook(num);
      assert RulesOf(View()) == RemoveAt(old(RulesOf(View())), i) by { RulesOfRemoved(old(View()), i); }
      ret := 0;
    }

    /** Giving back a hook leaves the list alone. */
    method Unhook(num: int)
      requires Valid()
      modifies hooks.refcount, hooks.saved, hooks.table
      ensures Valid() && cells == old(cells) && View() == old(View())
      ensures hooks.State() == if hooks.found then Unhooked(old(hooks.State()), num) else old(hooks.State())
    {
      hooks.UnhookSpecificSyscall(num);
    }

    /** is_throttled: the walk stops at the first match, charges it and compares. */
    method IsThrottled(call: Call) returns (block: bool, maxCalls: Option<Int32>)
      requires Valid()
      modifies cells`calls
      ensures Valid()
      ensures View() == Charged(old(View()), call)
      ensures block == Blocks(old(View()), call)
      ensures var i := Matched(old(View()), call);
              maxCalls == if i < |cells| then Some(cells[i].rule.maxCalls) else None
    {
      var cursor := head.next;
      ghost var i: nat := 0;
      assert cursor == At(0) by { assert Before(0) == head; }
      while cursor != head
        invariant i <= |cells| && cursor == At(i)
        invariant forall j :: 0 <= j < i ==> !Matches(cells[j].rule, call)
        decreases |cells| - i
      {
        if Matches(cursor.rule, call) {
          FirstMatchIs(RulesOf(View()), call, i);
          cursor.calls := AtomicIncReturn(cursor.calls);
          return cursor.calls > cursor.rule.maxCalls, Some(cursor.rule.maxCalls);
        }
        assert Before(i + 1) == cursor;
        cursor := cursor.next;
        i := i + 1;
      }
      FirstMatchIs(RulesOf(View()), call, i);
      return false, None;
    }

    /** reset_all_counters. */
    method ResetAllCounters()
      requires Valid()
      modifies cells`calls
      ensures Valid()
      ensures View() == ZeroCalls(old(View()))
    {
      var cursor := head.next;
      ghost var i: nat := 0;
      assert cursor == At(0) by { assert Before(0) == head; }
      while cursor != head
        invariant i <= |cells| && cursor == At(i)
        invariant forall j :: 0 <= j < |cells| ==>
                    cells[j].View() == if j < i then old(cells[j].View()).(calls := 0) else old(cells[j].View())
        decreases |cells| - i
      {
        cursor.calls := 0;
        assert Before(i + 1) == cursor;
        cursor := cursor.next;
        i := i + 1;
      }
    }

    /** update_thread_stats. */
    method UpdateThreadStats(num: int, gauge: Int32)
      requires Valid()
      modifies cells`stats
      ensures Valid()
      ensures View() == WithStats(old(View()), num, st => OnBlock(st, gauge))
    {
      var node, i := FindNumber(num);
      if node != null {
        node.stats := OnBlock(node.stats, gauge);
      }
    }

    /** update_peak_delay. */
    method UpdatePeakDelay(num: int, delay: Word, uid: Int32, comm: Option<string>)
      requires Valid()
      modifies cells`stats
      ensures Valid()
      ensures View() == WithStats(old(View()), num, st => OnDelay(st, delay, uid, comm))
      ensures comm.None? ==>
                forall j :: 0 <= j < |cells| ==> View()[j].stats.victimComm == old(View())[j].stats.victimComm
    {
      var node, i := FindNumber(num);
      if node != null && delay > node.stats.peakDelay {
        node.stats := node.stats.(peakDelay := delay, victimUid := uid);
        if comm.Some? {
          node.stats := node.stats.(victimComm := Truncate(comm.value));
        }
      }
    }

    /** get_rule_stats. */
    method GetRuleStats(num: int) returns (ret: int, report: Option<Report>)
      requires Valid()
      ensures var i := Numbered(View(), num);
              if i == |cells| then ret == -2 && report == None
              else ret == 0 && report == Some(ReportOf(View()[i].stats))
    {
      var node, i := FindNumber(num);
      if node == null {
        return -ENOENT, None;
      }
      return 0, Some(ReportOf(node.stats));
    }

    /** reset_rule_stats: the token counter is zeroed as well. */
    method ResetRuleStats(num: int) returns (ret: int)
      requires Valid()
      modifies cells`stats, cells`calls
      ensures Valid()
      ensures var v := old(View()); var i := Numbered(v, num);
              && View() == (if i < |v| then v[i := FreshRule(v[i].rule)] else v)
              && ret == if i < |v| then 0 else -2
    {
      var node, i := FindNumber(num);
      if node == null {
        return -ENOENT;
      }
      node.stats := NO_STATS;
      node.calls := 0;
      ret := 0;
    }

    /** list_del on the first cell: unlinked and poisoned. */
    method DeleteFirst()
      requires Valid() && |cells| > 0
      modifies this`cells, head`prev, head`next, cells`prev, cells`next
      ensures Valid() && cells == old(cells)[1..]
    {
      assert Before(0) == head && At(0) == cells[0];
      var node := head.next;
      Splice(node, 0);
      node.next := null;
    }

    /** One turn of cleanup_registry. */
    method Release(cursor: RuleNode)
      requires Valid() && |cells| > 0 && cursor == cells[0]
      modifies this`cells, head`prev, head`next, cells`prev, cells`next, hooks.refcount, hooks.saved, hooks.table
      ensures Valid() && cells == old(cells)[1..]
      ensures hooks.State() ==
              if hooks.found then Unhooked(old(hooks.State()), cursor.rule.syscallNum) else old(hooks.State())
    {
      DeleteFirst();
      assert hooks.State() == old(hooks.State());
      hooks.UnhookSpecificSyscall(cursor.rule.syscallNum);
    }

    /** cleanup_registry: unlink, unhook and free each rule in turn. */
    method CleanupRegistry() returns (count: nat)
      requires Valid()
      modifies this`cells, head`prev, head`next, cells`prev, cells`next, hooks.refcount, hooks.saved, hooks.table
      ensures Valid() && View() == [] && count == |old(cells)|
      ensures hooks.State() ==
              if hooks.found then HookAgreement.UnhookAll(old(hooks.State()), RulesOf(old(View())))
              else old(hooks.State())
    {
      ghost var was := cells;
      ghost var rules := RulesOf(View());
      count := 0;
      var cursor := head.next;
      assert cursor == At(0) by { assert Before(0) == head; }
      var tmp := cursor.next;
      while cursor != head
        invariant Valid() && count <= |was| && cells == was[count..]
        invariant cursor == At(0)
        invariant tmp == if |cells| == 0 then head.next else At(1)
        invariant hooks.found ==>
                    HookAgreement.UnhookAll(hooks.State(), rules[count..]) ==
                    HookAgreement.UnhookAll(old(hooks.State()), rules)
        invariant !hooks.found ==> hooks.State() == old(hooks.State())
        decreases |cells|
      {
        assert rules[count..][1..] == rules[count + 1..] && rules[count..][0] == cursor.rule;
        Release(cursor);
        count := count + 1;
        cursor := tmp;
        assert Before(0) == head && At(0).prev == head;
        assert |cells| > 0 ==> Before(1) == cells[0];
        tmp := tmp.next;
      }
    }
  }
}
