/**
 The system call table against the rule list, over every sequence of completed
 administrative commands, and its restoration when the module is unloaded.
 */
module HookAgreement {
  import opened CTypes
  import opened Rules
  import opened Interceptor

  datatype Command = AddRule(rule: Rule) | RemoveRule(num: int)

  datatype AdminState = AdminState(rules: seq<Rule>, hooks: HookState)

  /** The effect of one completed command; removing an unknown number fails with -ENOENT. */
  function Execute(s: AdminState, wrapper: Word, c: Command): AdminState
    requires WellFormed(s.hooks)
  {
    match c
    case AddRule(rule) => AdminState(s.rules + [rule], Hooked(s.hooks, wrapper, rule.syscallNum))
    case RemoveRule(num) =>
      var i := FirstWithNumber(s.rules, num);
      if i == |s.rules| then s
      else AdminState(RemoveAt(s.rules, i), Unhooked(s.hooks, num))
  }

  function Boot(boot: seq<Word>): AdminState
    requires |boot| >= MAX_SYSCALLS
  {
    AdminState([], HookState(seq(MAX_SYSCALLS, _ => 0), seq(MAX_SYSCALLS, _ => NULL), boot))
  }

  function ExecuteAll(boot: seq<Word>, wrapper: Word, commands: seq<Command>): (s: AdminState)
    requires |boot| >= MAX_SYSCALLS
    ensures WellFormed(s.hooks)
  {
    if commands == [] then Boot(boot)
    else Execute(ExecuteAll(boot, wrapper, commands[..|commands| - 1]), wrapper, commands[|commands| - 1])
  }

  /** How many rules name the call exactly. */
  function CountNumber(rules: seq<Rule>, num: int): nat {
    if rules == [] then 0
    else CountNumber(rules[..|rules| - 1], num) + (if rules[|rules| - 1].syscallNum == num then 1 else 0)
  }

  lemma {:induction false} CountAppend(a: seq<Rule>, b: seq<Rule>, num: int)
    ensures CountNumber(a + b, num) == CountNumber(a, num) + CountNumber(b, num)
  {
    if b == [] {
      assert a + b == a;
    } else {
      assert (a + b)[..|a + b| - 1] == a + b[..|b| - 1];
      CountAppend(a, b[..|b| - 1], num);
    }
  }

  lemma CountWithout(rules: seq<Rule>, i: nat, num: int)
    requires i < |rules|
    ensures CountNumber(RemoveAt(rules, i), num) ==
            CountNumber(rules, num) - if rules[i].syscallNum == num then 1 else 0
  {
    assert rules == rules[..i] + ([rules[i]] + rules[i + 1..]);
    CountAppend(rules[..i], [rules[i]] + rules[i + 1..], num);
    CountAppend([rules[i]], rules[i + 1..], num);
    CountAppend(rules[..i], rules[i + 1..], num);
    assert [rules[i]][..0] == [];
  }

  /** The entry of one call agrees with the number of rules that name it. */
  predicate EntryAgrees(h: HookState, boot: seq<Word>, wrapper: Word, num: nat, count: nat)
    requires WellFormed(h) && num < MAX_SYSCALLS <= |boot|
  {
    && h.refcount[num] == count
    && (if count > 0 then h.table[num] == wrapper && h.saved[num] == boot[num]
        else h.table[num] == boot[num] && h.saved[num] == NULL)
  }

  /** The whole table agrees with the rules; nothing past the hooked range is touched. */
  ghost predicate Agrees(s: AdminState, boot: seq<Word>, wrapper: Word) {
    && WellFormed(s.hooks) && |s.hooks.table| == |boot|
    && (forall num :: 0 <= num < MAX_SYSCALLS ==>
          EntryAgrees(s.hooks, boot, wrapper, num, CountNumber(s.rules, num)))
    && (forall num :: MAX_SYSCALLS <= num < |boot| ==> s.hooks.table[num] == boot[num])
  }

  lemma AddAgrees(s: AdminState, boot: seq<Word>, wrapper: Word, rule: Rule)
    requires Agrees(s, boot, wrapper)
    ensures Agrees(Execute(s, wrapper, AddRule(rule)), boot, wrapper)
  {
    var s' := Execute(s, wrapper, AddRule(rule));
    forall num | 0 <= num < MAX_SYSCALLS
      ensures EntryAgrees(s'.hooks, boot, wrapper, num, CountNumber(s'.rules, num))
    {
      assert EntryAgrees(s.hooks, boot, wrapper, num, CountNumber(s.rules, num));
      assert s'.rules[..|s.rules|] == s.rules;
    }
  }

  lemma RemoveAgrees(s: AdminState, boot: seq<Word>, wrapper: Word, num: int)
    requires Agrees(s, boot, wrapper)
    ensures Agrees(Execute(s, wrapper, RemoveRule(num)), boot, wrapper)
  {
    var s' := Execute(s, wrapper, RemoveRule(num));
    var i := FirstWithNumber(s.rules, num);
    if i < |s.rules| {
      forall n | 0 <= n < MAX_SYSCALLS
        ensures EntryAgrees(s'.hooks, boot, wrapper, n, CountNumber(s'.rules, n))
      {
        assert EntryAgrees(s.hooks, boot, wrapper, n, CountNumber(s.rules, n));
        CountWithout(s.rules, i, n);
      }
    }
  }

  /** After any completed commands the refcounts, the saved pointers and the table are
      exactly what the list of rules calls for. */
  lemma {:induction false} HooksAgree(boot: seq<Word>, wrapper: Word, commands: seq<Command>)
    requires |boot| >= MAX_SYSCALLS
    ensures Agrees(ExecuteAll(boot, wrapper, commands), boot, wrapper)
  {
    if commands != [] {
      var last := |commands| - 1;
      HooksAgree(boot, wrapper, commands[..last]);
      match commands[last]
      case AddRule(rule) => AddAgrees(ExecuteAll(boot, wrapper, commands[..last]), boot, wrapper, rule);
      case RemoveRule(num) => RemoveAgrees(ExecuteAll(boot, wrapper, commands[..last]), boot, wrapper, num);
    }
  }

  /** Positive refcount, entry replaced, and boot entry saved are the same thing. */
  lemma HookedIffNamed(boot: seq<Word>, wrapper: Word, commands: seq<Command>, num: nat)
    requires |boot| >= MAX_SYSCALLS && num < MAX_SYSCALLS
    requires boot[num] != wrapper && boot[num] != NULL
    ensures var s := ExecuteAll(boot, wrapper, commands);
            var named := exists i :: 0 <= i < |s.rules| && s.rules[i].syscallNum == num;
            && (named <==> s.hooks.refcount[num] > 0)
            && (named <==> s.hooks.table[num] == wrapper)
            && (named <==> s.hooks.saved[num] != NULL)
            && (named ==> s.hooks.saved[num] == boot[num])
  {
    var s := ExecuteAll(boot, wrapper, commands);
    HooksAgree(boot, wrapper, commands);
    assert EntryAgrees(s.hooks, boot, wrapper, num, CountNumber(s.rules, num));
    CountPositive(s.rules, num);
  }

  lemma {:induction false} CountPositive(rules: seq<Rule>, num: int)
    ensures CountNumber(rules, num) > 0 <==> exists i :: 0 <= i < |rules| && rules[i].syscallNum == num
  {
    if rules != [] {
      var init := rules[..|rules| - 1];
      CountPositive(init, num);
      assert forall i :: 0 <= i < |init| ==> rules[i] == init[i];
    }
  }

  /** The loop of cleanup_registry: each rule, oldest first, gives back its hook. */
  function UnhookAll(h: HookState, rules: seq<Rule>): (h': HookState)
    requires WellFormed(h)
    ensures WellFormed(h')
    decreases |rules|
  {
    if rules == [] then h else UnhookAll(Unhooked(h, rules[0].syscallNum), rules[1..])
  }

  lemma {:induction false} UnhookAllAgrees(s: AdminState, boot: seq<Word>, wrapper: Word)
    requires Agrees(s, boot, wrapper)
    ensures Agrees(AdminState([], UnhookAll(s.hooks, s.rules)), boot, wrapper)
    decreases |s.rules|
  {
    if s.rules != [] {
      var num := s.rules[0].syscallNum;
      FirstWithNumberIs(s.rules, num, 0);
      RemoveAgrees(s, boot, wrapper, num);
      assert RemoveAt(s.rules, 0) == s.rules[1..];
      UnhookAllAgrees(AdminState(s.rules[1..], Unhooked(s.hooks, num)), boot, wrapper);
    } else {
      assert s.rules == [];
    }
  }

  /** From any table that agrees with the rules, cleanup leads back to the boot state. */
  lemma CleanupRestores(s: AdminState, boot: seq<Word>, wrapper: Word)
    requires |boot| >= MAX_SYSCALLS && Agrees(s, boot, wrapper)
    ensures UnhookAll(s.hooks, s.rules) == Boot(boot).hooks
  {
    UnhookAllAgrees(s, boot, wrapper);
    var h := UnhookAll(s.hooks, s.rules);
    forall num | 0 <= num < MAX_SYSCALLS
      ensures h.refcount[num] == 0 && h.saved[num] == NULL && h.table[num] == boot[num]
    {
      assert EntryAgrees(h, boot, wrapper, num, CountNumber([], num));
    }
  }

  /** Full restoration: whatever commands were executed, cleanup leaves no reference, no
      saved pointer, and the whole table as it was found at load time. */
  lemma FullRestoration(boot: seq<Word>, wrapper: Word, commands: seq<Command>)
    requires |boot| >= MAX_SYSCALLS
    ensures var s := ExecuteAll(boot, wrapper, commands);
            UnhookAll(s.hooks, s.rules) == Boot(boot).hooks
  {
    HooksAgree(boot, wrapper, commands);
    CleanupRestores(ExecuteAll(boot, wrapper, commands), boot, wrapper);
  }

  /** A call that was let through reaches its boot handler if and only if its number is below 512
      and some rule still names it; otherwise it ends with -ENOSYS. */
  lemma DispatchReachesBootHandler(boot: seq<Word>, wrapper: Word, commands: seq<Command>, num: int)
    requires |boot| >= 512 && (0 <= num < 512 ==> boot[num] != 0 && boot[num] != wrapper)
    ensures var s := ExecuteAll(boot, wrapper, commands);
            var named := exists i :: 0 <= i < |s.rules| && s.rules[i].syscallNum == num;
            DispatchOutcome(s.hooks, num) == if 0 <= num < 512 && named then Run(boot[num]) else Error(-38)
  {
    if 0 <= num < 512 {
      HookedIffNamed(boot, wrapper, commands, num);
    }
  }
}
