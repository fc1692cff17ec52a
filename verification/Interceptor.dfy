/**
 The patched system call table: one wrapper, the boot entries it replaces, and
 the number of rules that keep each entry replaced.
 */
module Interceptor {
  import opened CTypes

  const MAX_SYSCALLS: nat := 512
  const EINVAL: int := 22
  const EFAULT: int := 14
  const ENOSYS: int := 38

  const NULL: Word := 0

  datatype HookState = HookState(refcount: seq<int>, saved: seq<Word>, table: seq<Word>)

  predicate WellFormed(h: HookState) {
    |h.refcount| == MAX_SYSCALLS && |h.saved| == MAX_SYSCALLS && |h.table| >= MAX_SYSCALLS
  }

  predicate InTable(num: int) {
    0 <= num < MAX_SYSCALLS
  }

  /** One more rule for the call: the first one saves and replaces the entry. */
  function Hooked(h: HookState, wrapper: Word, num: int): HookState
    requires WellFormed(h)
  {
    if !InTable(num) then h
    else if h.refcount[num] == 0 then
      HookState(h.refcount[num := 1], h.saved[num := h.table[num]], h.table[num := wrapper])
    else
      h.(refcount := h.refcount[num := h.refcount[num] + 1])
  }

  /** One rule fewer: the last one restores the entry and forgets it. */
  function Unhooked(h: HookState, num: int): HookState
    requires WellFormed(h)
  {
    if !InTable(num) || h.refcount[num] <= 0 then h
    else if h.refcount[num] == 1 then
      HookState(h.refcount[num := 0], h.saved[num := NULL], h.table[num := h.saved[num]])
    else
      h.(refcount := h.refcount[num := h.refcount[num] - 1])
  }

  /** What my_dummy_syscall does once the policy has let the call through. */
  datatype Outcome = Run(handler: Word) | Error(errno: int)

  function DispatchOutcome(h: HookState, num: int): Outcome
    requires WellFormed(h)
  {
    if InTable(num) && h.saved[num] != NULL then Run(h.saved[num]) else Error(-ENOSYS)
  }

  class SyscallHooks {
    const wrapper: Word
    const refcount: array<int>
    const saved: array<Word>
    const table: array<Word>
    /** sys_call_table_ptr has been found. */
    var found: bool

    ghost predicate Valid()
    {
      && refcount.Length == MAX_SYSCALLS
      && saved.Length == MAX_SYSCALLS
      && table.Length >= MAX_SYSCALLS
      && saved != table
    }

    ghost function State(): (h: HookState)
      requires Valid()
      reads refcount, saved, table
      ensures WellFormed(h)
    {
      HookState(refcount[..], saved[..], table[..])
    }

    ghost function Footprint(): set<object> {
      var counts: set<object> := {refcount};
      counts + {saved, table}
    }

    /** The table as it was found at load time; nothing hooked. */
    constructor (wrapper: Word, boot: seq<Word>, found: bool)
      requires |boot| >= MAX_SYSCALLS
      ensures Valid() && fresh(Footprint())
      ensures this.wrapper == wrapper && this.found == found
      ensures State() == HookState(seq(MAX_SYSCALLS, _ => 0), seq(MAX_SYSCALLS, _ => NULL), boot)
    {
      this.wrapper := wrapper;
      this.found := found;
      refcount := new int[MAX_SYSCALLS](_ => 0);
      saved := new Word[MAX_SYSCALLS](_ => NULL);
      table := new Word[|boot|](i requires 0 <= i < |boot| => boot[i]);
      new;
      assert table[..] == boot;
    }

    method HookSpecificSyscall(num: int) returns (ret: int)
      requires Valid()
      modifies refcount, saved, table
      ensures ret == if !(0 <= num < 512) then -22 else if !found then -14 else 0
      ensures State() == if ret == 0 then Hooked(old(State()), wrapper, num) else old(State())
    {
      if num < 0 || num >= MAX_SYSCALLS {
        return -EINVAL;
      }
      if !found {
        return -EFAULT;
      }
      if refcount[num] == 0 {
        saved[num] := table[num];
        table[num] := wrapper;
      }
      refcount[num] := refcount[num] + 1;
      ret := 0;
    }

    method UnhookSpecificSyscall(num: int)
      requires Valid()
      modifies refcount, saved, table
      ensures State() == if found then Unhooked(old(State()), num) else old(State())
    {
      if num < 0 || num >= MAX_SYSCALLS {
        return;
      }
      if !found {
        return;
      }
      if refcount[num] > 0 {
        refcount[num] := refcount[num] - 1;
        if refcount[num] == 0 {
          table[num] := saved[num];
          saved[num] := NULL;
        }
      }
    }

    /** The tail of my_dummy_syscall, after enforce_syscall_policy has returned. */
    method Dispatch(num: int) returns (outcome: Outcome)
      requires Valid()
      ensures outcome == DispatchOutcome(State(), num)
    {
      if num < 0 || num >= MAX_SYSCALLS {
        return Error(-ENOSYS);
      }
      var original := saved[num];
      if original == NULL {
        return Error(-ENOSYS);
      }
      outcome := Run(original);
    }
  }
}
