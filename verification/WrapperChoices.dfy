/**
 What may happen at any time, and what comes of it: calls enter, signals are sent,
 administrators switch the monitor, whatever the others are doing.
 */
module WrapperChoices {
  import opened CTypes
  import opened WrapperProtocol
  import opened WrapperSafety
  import opened WrapperRuns

  /** Until the module is gone a new call can go in at any time. With the monitor on its next step is
      to verify its policy; with the monitor off, as from the beginning of unloading on, it can leave
      at once, and has touched neither the queue nor the counters when it is out. */
  lemma CallsGoIn(s: State)
    requires QueueInv(s) && !s.stage.Unloaded?
    ensures Enabled(s, Enter)
    ensures var t, inside := s.calls, Apply(s, Enter);
            && t !in s.threads && Enabled(inside, Step(t, CheckMonitor))
            && var seen := Apply(inside, Step(t, CheckMonitor));
            && t in seen.threads
            && if s.monitor then seen.threads[t].pc == Verifying
               else Enabled(seen, Leave(t))
                    && var out := Apply(seen, Leave(t));
                    && out.queue == s.queue && out.active == s.active && out.blocked == s.blocked
                    && (t in out.threads ==> out.threads[t].pc == Waking)
                    && forall x :: x in s.threads ==> x in out.threads && out.threads[x] == s.threads[x]
  {
  }

  /** A signal reaches every call inside, and whoever it reaches is awake and on its way out. */
  lemma SignalReaches(s: State, t: Tid)
    requires QueueInv(s) && t in s.threads
    ensures Enabled(s, Signal(t))
    ensures var s' := Apply(s, Signal(t));
            && s'.queue == s.queue && CalledOff(s', t)
            && t in s'.threads && s'.threads[t].pc == s.threads[t].pc
            && (Enabled(s', NextOwn(s', t)) || (NeedsLock(s'.threads[t].pc) && !s'.lock.Free?))
  {
    assert t < s.calls;
  }

  /** While the module is loaded any administrator can switch the monitor on, or off, which leaves it a
      flush to do, and once no administrator is inside the module can be unloaded. */
  lemma AdministratorsMay(s: State, g: nat)
    requires Inv(s) && s.stage.Loaded?
    ensures Enabled(s, SwitchOn) && Apply(s, SwitchOn).monitor && Apply(s, SwitchOn).queue == s.queue
    ensures g != UNLOADER && g !in s.agents ==>
              && Enabled(s, SwitchOff(g))
              && var s' := Apply(s, SwitchOff(g));
              && !s'.monitor && s'.queue == s.queue
              && (s'.lock.Free? ==> Enabled(s', FlushLock(g)))
    ensures s.agents == map[] ==>
              && Enabled(s, BeginUnload)
              && var s' := Apply(s, BeginUnload);
              && !s'.monitor && s'.queue == s.queue
              && (s'.lock.Free? ==> Enabled(s', FlushLock(UNLOADER)))
  {
  }
}
