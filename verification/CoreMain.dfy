/**
 The order of core_exit on the sequential model: the monitor is switched off and
 the queue flushed, then the registry gives back every hook and every rule.
 */
module CoreMain {
  import opened CTypes
  import opened Interceptor
  import opened PolicyEngine
  import HookAgreement

  /** core_exit, once every wrapper has left: whatever the administrator did before, nobody is
      left in the queue, no rule is left in the list, and the system call table is the one
      found at load time. */
  method CoreExit(engine: Engine, ghost boot: seq<Word>)
    requires engine.Valid() && engine.rules.hooks.found
    requires |boot| >= MAX_SYSCALLS
    requires HookAgreement.Agrees(engine.rules.Admin(), boot, engine.rules.hooks.wrapper)
    modifies engine`monitorState, engine.fifoWaiters`items
    modifies engine.fifoWaiters.head`next, engine.fifoWaiters.head`prev
    modifies engine.fifoWaiters.items`next, engine.fifoWaiters.items`prev, engine.fifoWaiters.items`granted
    modifies engine.rules`cells, engine.rules.head`prev, engine.rules.head`next
    modifies engine.rules.cells`prev, engine.rules.cells`next
    modifies engine.rules.hooks.refcount, engine.rules.hooks.saved, engine.rules.hooks.table
    ensures engine.Valid() && engine.monitorState == 0
    ensures engine.fifoWaiters.items == [] && forall w :: w in old(engine.fifoWaiters.items) ==> w.granted
    ensures engine.rules.View() == []
    ensures engine.rules.hooks.State() == HookAgreement.Boot(boot).hooks
  {
    ghost var admin := engine.rules.Admin();
    engine.SetGlobalMonitorState(0);
    assert engine.rules.Admin() == admin;
    HookAgreement.CleanupRestores(admin, boot, engine.rules.hooks.wrapper);
    var count := engine.rules.CleanupRegistry();
  }
}
