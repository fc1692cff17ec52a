# A verified model of the system call throttling module

The kernel module limits how often chosen users or programs may make chosen system calls. An
administrator adds and removes rules; each rule names a system call (or -1 for any), a user or a
program, and a number of calls per period. A wrapper replaces the table entry of every system call
that some rule names. A call that goes through the wrapper is charged to its first matching rule; over the
limit it is queued, in arrival order, until the timer hands it a token at the start of a period, a
signal interrupts it, or the monitor is switched off.

The project models the core of the module and proves what it promises about it:

* **The rule list under RCU** (`RcuRegistry`, `RcuSafety`, `RcuRuns`, `RcuVerdicts`, `RcuWriters`). A state machine
  over single memory accesses of lock-free readers and critical sections of writers, with explicit
  `next` and `prev` pointers, freed memory and grace periods. A step that follows a pointer to a
  freed rule raises `fault`; no run does. A finished walk means what the first-match policy says,
  its verdict is that of its one charge, and every token window hands out exactly the tokens of its
  rule.
* **The wait, grant and unload protocol** (`WrapperProtocol`, `WrapperSafety`, `WrapperRuns`,
  `WrapperRecords`, `WrapperPrograms`, `WrapperTicks`, `WrapperUnload`, `WrapperChoices`). A state machine with any
  number of calls inside `enforce_syscall_policy`, the timer, administrators and the unloader:
  counters, queue, wake-ups, shutdown, teardown, and exactly which steps touch the waiter record of a
  call that may have returned. The steps of every call, of every tick, of every flush and of the
  unloader, told by the actions alone, are those of the code from one end to the other.
* **Both together** (`ModuleRun`, `ModuleVerdicts`, `ModuleTokens`, `ModulePasses`, `ModuleExcess`,
  `ModuleProgress`, `ModuleUnload`), from loading to the end of `core_exit`, where the rules are freed
  without a grace period: what every verdict means, how many calls a period lets through at most, how
  long a call can take to leave, and how unloading ends. `ModuleProjections` and `ModulePrograms` carry
  the results about either part over to the whole.
* **The code as it runs in place**: `Registry` (the linked list, its counters and statistics),
  `PolicyEngine` (the linked queue and the walks of the timer and of the flush, which unlink entries
  as they go along it), `Interceptor` (the patched table),
  `CoreMain` (the order of `core_exit`), `Scanner` (the search for the table). Each method is proved
  against a specification function.
* **What those specifications mean**: `Rules` (matching, the 32-bit token counter), `Tick` (the scan
  with shared counters is a filter by rank), `FifoRuns` (no overtaking, bounded wait),
  `HookAgreement` (table against rules, restoration), `Statistics` (statistics summarise an event
  log), `PageWalk` (the scanner's page walk against the processor's translation).

`CTypes` holds the C integer types and a few helpers. `dafny verify dfyconfig.toml` checks the whole
project.

Assumptions: sequentially consistent memory; a fresh address for every allocation; granting,
unlinking and waking one queue entry is one step; a locked walk over the list is one step. A file is
cited by its path and lines.

Some results state exactly when the code meets a property that it does not always meet. Tokens are
exact if and only if the 32-bit counter does not wrap. A newcomer overtakes a waiter on its rule if
and only if the counter is about to wrap, or a statistics reset has just zeroed it and the rule
allows calls (`FifoRuns.OvertakesAfterResetIff`, with a run in `FifoRuns.OvertakingExists`). The
queue holds an entry of a call that waits no longer if and only if the call went on without a grant,
because the monitor was off, and no sweep has taken the entry out since; the timer or a flush may
then touch the record of a call that has returned (`WrapperRecords.StaleTouchExactly`, with runs in
`StaleTouchExists` and `StaleAskExists`), so that memory safety is claimed of the rules, not of
these records. The page walk agrees with the processor except when a frame number is cast to -1, as far
as neither a 1 GB page nor a pointer entry with bits above 51 is on the way
(`PageWalk.LargestPagesEscape`, `PageWalk.UntidyEntriesEscape`). The reported average is the mean if
and only if its 64-bit sum has not wrapped.

That a rule in the list lets at most max(0, max_calls) calls through between two zeroings of its
counter, waiters granted included, is certain if and only if no call or waiter that it has admitted is
still on its way out of `is_throttled` when the counter is zeroed (`ModuleExcess.LimitIsKeptIff`): such
a call was charged in the window before and passes in this one (`RcuVerdicts.LateVerdictExists` is a
run). In general one more call may pass for each of them (`ModulePasses.PassesAreBounded`), and that
bound is attained (`ModuleExcess.BoundIsAttained`). Counted in the window of its charge, no call is
too many (`ModuleTokens.TokensAreBounded`). All of this is below 2^31 charges in the window.

Where the code and its own comments or documentation differ, the model follows the code:

* A rule with neither a user nor a program name matches nobody, although -1 is described as "all"
  (`kmod/registry_data.c:155-156`).
* `good_area` rejects an area as soon as one earlier entry equals entry 134, not only when all of
  them do (`kmod/mmu_scanner.c:104-115`).
* `cleanup_interceptor` restores the dispatcher only; the table entries are restored rule by rule in
  `cleanup_registry` (`kmod/core_main.c:63`, `kmod/sys_interceptor.c:231-242`,
  `kmod/registry_data.c:195`).
* Resetting the statistics of a rule also zeroes its token counter (`kmod/registry_data.c:346`).
* Statistics are recorded against the first rule with exactly the call's number, which need not be the
  rule that blocked the call (`kmod/registry_data.c:260`, `kmod/registry_data.c:283`).

## Model

| member | source | states |
|---|---|---|
| `Rules.FirstMatch` | kmod/registry_data.c:152-170 | the rule a walk stops at: it matches and nothing before it does, or nothing matches |
| `Rules.FirstMatchAppend` | kmod/registry_data.c:84-91 | adding a rule at the tail never changes the first match of a call that has one |
| `Rules.FirstWithNumber` | kmod/registry_data.c:259-260 | the rule a writer's search stops at: the first one with exactly that number |
| `Rules.TokensExactIffNoWrap` | kmod/registry_data.c:161-166 | n charges from zero admit exactly min(n, max(0, max_calls)) calls if and only if n is below 2^31 |
| `Rules.TokensAtLeast` | kmod/registry_data.c:161-166 | even past the wrap-around at least that many calls are admitted |
| `Rules.CounterIsTwosComplement` | kmod/registry_data.c:161 | n increments from zero leave n as a 32-bit number in two's complement |
| `Rules.WindowCounts` | kmod/registry_data.c:161-166 | interleaved with anything else, the charges of one window count like consecutive increments |
| `RcuSafety.PublishKeeps` | kmod/registry_data.c:84-91 | adding a rule keeps the invariant of the list, of its memory and of every open read-side section |
| `RcuSafety.UnlinkStale` | kmod/registry_data.c:109-120 | an unlinked cell points to the head or to a younger rule which, if unlinked too, was unlinked later |
| `RcuSafety.UnlinkKeeps` | kmod/registry_data.c:109-120 | unlinking while readers stand on the rule keeps the invariant |
| `RcuSafety.FreeKeeps` | kmod/registry_data.c:124-129 | freeing after the grace period takes nothing away from any open section |
| `RcuSafety.ReclaimKeeps` | kmod/registry_data.c:190-201 | unlinking and freeing at once is sound when no section is open |
| `RcuSafety.NextIsHeld` | kmod/registry_data.c:151-152 | from a cell a section may hold, `next` leads to another it may hold, further on, skipping nothing that was there when it began |
| `RcuSafety.FollowNextKeeps` | kmod/registry_data.c:152 | following a pointer keeps the invariant and does not fault |
| `RcuSafety.ExamineKeeps` | kmod/registry_data.c:154-167 | examining a rule, charging or zeroing it, keeps the invariant and does not fault |
| `RcuSafety.WriterKeepsReaders` | kmod/registry_data.c:105-138 | whatever a writer may do to list, history and memory, every section keeps its hold and its visits |
| `RcuSafety.QuietStepKeeps` | kmod/registry_data.c:252-295 | the locked statistics walks, and entering and leaving sections, keep the invariant |
| `RcuSafety.StepKeeps` | kmod/registry_data.c:53-179 | every step of readers, adders and simultaneous removers keeps the invariant |
| `RcuRuns.SafeReclamation` | kmod/registry_data.c:105-175 | in every run no step faults, and no cell a reader stands on or can reach by `next`, through unlinked cells too, has been freed |
| `RcuRuns.FreedOnce` | kmod/registry_data.c:105-138 | no rule is freed twice or before it is unlinked; every other rule is still in memory, in the list or awaiting its remover |
| `RcuRuns.HistoryKept` | kmod/registry_data.c:84-91 | insertion numbers, published rules and publication times are never taken back |
| `RcuRuns.UnlinkTime` | kmod/registry_data.c:117-120 | the recorded unlink time is the last instant at which the rule was in the list: it is out of it at every later state |
| `RcuRuns.SectionStart` | kmod/registry_data.c:150-175 | a section keeps its start and its purpose until it ends |
| `RcuRuns.TraversalMeaning` | kmod/registry_data.c:152-170 | a finished walk visited rules in insertion order; its pick matches and was in the list meanwhile; no older rule that stayed in the list (no rule, without a pick) matches |
| `RcuRuns.QuietSectionIsFirstMatch` | kmod/registry_data.c:152-170 | if the list gained nothing and kept the pick, the pick is the first match of the list |
| `RcuRuns.ResetReachesEveryStableRule` | kmod/registry_data.c:242-248 | a finished reset has visited every rule that stayed in the list |
| `RcuRuns.WindowOpens` | kmod/registry_data.c:244-346 | adding a rule, the timer's reset and a statistics reset each open a window with a zero counter, up to the next zeroing |
| `RcuRuns.CounterStep` | kmod/registry_data.c:161-166 | a step that does not zero a counter increments it if it is a charge and otherwise leaves it, in every reachable state |
| `RcuRuns.TokenConservation` | kmod/registry_data.c:141-179 | in every window between two zeroings, under any interleaving, exactly min(charges, max(0, max_calls)) charges are admitted, if and only if there are fewer than 2^31 |
| `RcuRuns.ResetZeroesEveryStableRule` | kmod/registry_data.c:242-248 | and it has set the counter of each to zero by a step between its two ends |
| `RcuWriters.SearchIsFirst` | kmod/registry_data.c:109-110 | a writer's search stops at the first rule in the list with exactly the number, and runs over the whole list if and only if there is none |
| `RcuWriters.RemovalTakesOldest` | kmod/registry_data.c:109-120 | in every run remove_rule takes the oldest rule with the number out of the list, no other, and leaves its memory in use |
| `RcuWriters.ResetZeroesOldest` | kmod/registry_data.c:338-349 | reset_rule_stats zeroes the counter of the oldest rule with the number, and of no other |
| `RcuWriters.CommandFails` | kmod/registry_data.c:131-138 | a removal is impossible if and only if no rule in the list has the number |
| `RcuWriters.RemovalOrder` | kmod/registry_data.c:117-129 | a removed rule is freed after it was unlinked, then waited for, and every section open when the wait began has ended |
| `RcuVerdicts.VerdictIsCharge` | kmod/registry_data.c:158-167 | a finished walk with a pick charged that rule exactly once, and no other, and blocks if and only if that charge took the counter over the limit; without a pick it charged nothing |
| `RcuVerdicts.WalkAdvances` | kmod/registry_data.c:152-170 | each step of a walk brings its end nearer, because insertion numbers grow along `next` |
| `RcuVerdicts.WalkIsBounded` | kmod/registry_data.c:152-170 | a walk takes at most twice as many steps as rules have been added up to then, and one, whatever writers do |
| `RcuVerdicts.LateVerdictExists` | kmod/registry_data.c:161-177 | a run in which two calls end unblocked in one window of a rule that allows one call, the first charged in the window before |
| `Registry.RuleList.AddRule` | kmod/registry_data.c:54-102 | appends the rule with truncated name and zero counters, hooks its call; fails without effect when allocation fails; equals the administrator's command |
| `Registry.NewRuleApplies` | kmod/registry_data.c:66-81 | a new rule applies to its call number (or any) and to its user or its name's first 15 characters, and with neither to nobody |
| `Registry.RuleList.Append` | kmod/registry_data.c:89 | relinking at the tail keeps the ring well formed and appends one cell |
| `Registry.RuleList.Splice` | kmod/registry_data.c:119 | relinking around a cell keeps the ring well formed; the removed cell keeps its `next` |
| `Registry.RuleList.FindNumber` | kmod/registry_data.c:259-260 | the locked walk finds the first rule with the number, or none |
| `Registry.RuleList.RemoveRule` | kmod/registry_data.c:105-138 | unlinks the first rule with the number and gives back its hook; -ENOENT and no effect when there is none; equals the administrator's command |
| `Registry.RuleList.IsThrottled` | kmod/registry_data.c:141-179 | charges the first match alone and reports whether its new count exceeds its limit |
| `Registry.RuleList.ResetAllCounters` | kmod/registry_data.c:232-249 | zeroes every counter and changes nothing else |
| `Registry.RuleList.UpdateThreadStats` | kmod/registry_data.c:279-295 | records the gauge against the first rule with the number, and against no other |
| `Registry.RuleList.UpdatePeakDelay` | kmod/registry_data.c:252-276 | records a larger delay and its victim against the first rule with the number; without a victim's name the old one stays |
| `Registry.RuleList.GetRuleStats` | kmod/registry_data.c:298-330 | reports the statistics of the first rule with the number, or -ENOENT |
| `Registry.RuleList.ResetRuleStats` | kmod/registry_data.c:333-354 | makes that rule as good as new, its token counter included, or -ENOENT |
| `Registry.RuleList.CleanupRegistry` | kmod/registry_data.c:182-205 | empties the list, oldest first, gives back one hook per rule, counts them |
| `Tick.CountersAreRanks` | kmod/registry_data.c:161 | after charging any calls from zero, each counter is the number of calls with that first match, as a 32-bit count |
| `Tick.GrantIsCount` | kmod/policy_engine.c:160-169 | the scan grants a waiter if and only if no rule matches it or its rank, as a 32-bit count, is within the limit |
| `Tick.TickGrantsDeserving` | kmod/policy_engine.c:160-169 | below 2^31 waiters on a rule: granted if and only if at most max(0, max_calls) waiters up to it share its first match |
| `Tick.TickCornerCases` | kmod/policy_engine.c:160-169 | a tick grants every waiter that no rule matches any more, and, below 2^31 waiters on the rule, none whose rule allows no calls |
| `Tick.KeptIsSubsequence` | kmod/policy_engine.c:160-169 | the scan leaves the waiters at exactly the positions it refuses, in increasing order of position |
| `Tick.KeptRank` | kmod/policy_engine.c:160-169 | of the waiters on one rule the tick leaves all but as many as the rule has tokens for |
| `Tick.TickRefinesFilter` | kmod/policy_engine.c:151-171 | the scan with shared counters leaves exactly the queue that the filter by rank leaves |
| `PolicyEngine.Engine.DecideAndEnqueue` | kmod/policy_engine.c:80-107 | a call over the limit, and only such a call, joins the tail of the queue ungranted |
| `PolicyEngine.WaiterList.Append` | kmod/policy_engine.c:106 | relinking at the tail keeps the ring well formed and appends one waiter |
| `PolicyEngine.WaiterList.Unlink` | kmod/policy_engine.c:114 | relinking around an entry keeps the ring well formed; the entry points to itself |
| `PolicyEngine.WaiterList.Grant` | kmod/policy_engine.c:166-168 | the current waiter is granted and unlinked during the walk, and the next entry read before is still the next |
| `PolicyEngine.WaiterList.GrantAll` | kmod/policy_engine.c:186-190 | the flush loop, unlinking each entry it stands on, reaches every waiter, grants it and empties the list |
| `PolicyEngine.Engine.Abandon` | kmod/policy_engine.c:112-116 | an interrupted waiter leaves the queue unless it has been granted |
| `PolicyEngine.Engine.ScanQueue` | kmod/policy_engine.c:160-170 | the loop over the linked list it is shortening visits every waiter once: counters, queue and grants are those of the scan |
| `PolicyEngine.Engine.EpochTimerCallback` | kmod/policy_engine.c:151-171 | a tick zeroes the counters first, counts the epoch, then scans |
| `PolicyEngine.Engine.FlushAllWaiters` | kmod/policy_engine.c:183-192 | everybody in the queue is granted and the queue is empty |
| `PolicyEngine.Engine.SetGlobalMonitorState` | kmod/policy_engine.c:194-199 | switching off flushes the queue; any other value leaves it alone |
| `FifoRuns.OvertakesIffWraps` | kmod/policy_engine.c:80-107 | when whoever waits waits for a rule without a token, a newcomer passes a waiter on its own rule if and only if the counter is about to wrap |
| `FifoRuns.OvertakesAfterResetIff` | kmod/registry_data.c:346 | right after a statistics reset it does so if and only if the reset zeroed that rule and it allows calls, or another rule's counter is about to wrap |
| `FifoRuns.OvertakingExists` | kmod/registry_data.c:346 | a run in which a reset lets a newcomer pass while another call waits on the same rule |
| `FifoRuns.ResetKeepsIff` | kmod/registry_data.c:346 | a statistics reset leaves no token to whoever waits if and only if the rule it zeroes is one nobody waits on or that allows no calls |
| `FifoRuns.TickKeepsNoToken` | kmod/policy_engine.c:155-170 | after a tick whoever still waits, waits for a rule with no token left |
| `FifoRuns.AppendKeeps` | kmod/registry_data.c:84-91 | adding a rule at the tail keeps all waited-for rules spent |
| `FifoRuns.RunKeepsNoTokenLeft` | kmod/policy_engine.c:80-170 | in every state of every run whose steps meet those conditions whoever waits, waits for a rule with no token left |
| `FifoRuns.WaitersAreOverLimit` | kmod/policy_engine.c:80-170 | without statistics resets every waiter's rule has a counter that exceeds its limit |
| `FifoRuns.NoOvertaking` | kmod/policy_engine.c:80-107 | in runs in which no counter wraps and no reset zeroes a waited-for rule that allows calls, a newcomer that passes has the first match of nobody in the queue |
| `FifoRuns.TickMovesUp` | kmod/policy_engine.c:155-170 | a tick takes a waiter out or up by its rule's whole limit |
| `FifoRuns.StepMovesUp` | kmod/policy_engine.c:105-116 | newcomers, signals, new rules and statistics resets never put a waiter back |
| `FifoRuns.RankFalls` | kmod/policy_engine.c:155-170 | while a waiter waits, every tick since has moved it up by the limit |
| `FifoRuns.BoundedWait` | kmod/policy_engine.c:105-170 | a waiter of rank r on a rule with limit M is gone once t ticks with t * M >= r have passed |
| `FifoRuns.OutByCeiling` | kmod/policy_engine.c:105-170 | that is by its ceil(r / M)-th tick |
| `WrapperSafety.StepKeepsAccounting` | kmod/policy_engine.c:66-141 | each step keeps both counters equal to the numbers of calls they count |
| `WrapperSafety.StepKeepsQueue` | kmod/policy_engine.c:105-123 | each step keeps every waiting call in the queue, once, a signal racing with a grant included |
| `WrapperSafety.StepKeepsExact` | kmod/policy_engine.c:105-171 | while the monitor has stayed on, each step keeps the queue equal to the live waiters in order of arrival |
| `WrapperSafety.StaleEntryIff` | kmod/policy_engine.c:110 | a step makes the queue hold a call that no longer waits if and only if a waiter goes on without a grant |
| `WrapperSafety.StepKeepsSleep` | kmod/policy_engine.c:110 | no wake-up is lost: whoever sleeps has no grant and no signal, and with the monitor off a flush is still due |
| `WrapperSafety.StepKeepsUnload` | kmod/policy_engine.c:143-204 | each step keeps the order of unloading: monitor off, timer dead, then only calls that found the monitor off |
| `WrapperSafety.StepKeepsWake` | kmod/policy_engine.c:138-145 | each step keeps a wake-up on its way to a sleeping unloader whenever the count is zero |
| `WrapperSafety.StepKeepsInv` | kmod/policy_engine.c:59-204 | each step keeps all of these |
| `WrapperRuns.CounterAccounting` | kmod/policy_engine.c:66-140 | in every run both counters are exact, over all four ways out, and 0 <= blocked <= active |
| `WrapperRuns.GaugeIsPositive` | kmod/policy_engine.c:100-103 | the gauge a blocked call records is at least 1 |
| `WrapperRuns.QueueMatchesThreads` | kmod/policy_engine.c:105-171 | in every run whoever sleeps ungranted is queued, nobody twice; while the monitor has stayed on the queue is exactly the live waiters in order of arrival |
| `WrapperRuns.NoFreePass` | kmod/policy_engine.c:80-136 | while the monitor has stayed on, a call leaves unsignalled only if its own verdict or the timer admitted it |
| `WrapperRuns.QuietAfterFlush` | kmod/policy_engine.c:183-199 | after a flush with the monitor off, and until it is switched on, nobody is or falls asleep |
| `WrapperRuns.NobodyStuck` | kmod/policy_engine.c:110-140 | then every call inside has an enabled step, or waits for fifo_lock, whose holder has one |
| `WrapperRuns.LockIsReleased` | kmod/policy_engine.c:159-191 | each step of the holder of fifo_lock brings its release nearer, no other step delays it |
| `WrapperRuns.StepTowardsExit` | kmod/policy_engine.c:110-140 | with the monitor off each own step brings a call nearer its exit, and nobody else takes it back |
| `WrapperRuns.ShutdownProgress` | kmod/policy_engine.c:110-140 | while the monitor stays off a call takes at most twelve more steps |
| `WrapperRuns.UnloaderIsWoken` | kmod/policy_engine.c:138-145 | the unloader never sleeps at count zero without an enabled step that wakes it |
| `WrapperRuns.TeardownSafety` | kmod/core_main.c:62-66 | once the unloader has seen zero wrappers, no call and no timer reads a rule ever again, late entrants included |
| `WrapperRuns.StaleEntryExists` | kmod/policy_engine.c:110-136 | a run that ends with the entry of a returned call in the queue, after the monitor was switched off |
| `WrapperRuns.CalledOffLeaves` | kmod/policy_engine.c:110-141 | a call that has its grant or a signal takes at most twelve more steps, monitor on or off, and does not sleep |
| `WrapperPrograms.CallsFollowCode` | kmod/policy_engine.c:59-141 | in every run the steps of each call so far are a path through the code to its place, or all the way through and, after taking active_wrappers to zero, the wake-up |
| `WrapperPrograms.LeaversWentThrough` | kmod/policy_engine.c:75-141 | a call that leaves went one of four ways, step by step: monitor off; admitted; blocked, counted, gauge recorded, queued, any number of turns of the wait, uncounted, delay recorded; or, after a signal, unlinked and uncounted |
| `WrapperPrograms.CallsBranch` | kmod/policy_engine.c:75-140 | which step a call takes next follows from what it found: the monitor, its verdict, grant or monitor off before a signal, and whether it was the last one inside |
| `WrapperPrograms.FlagsAreHistory` | kmod/policy_engine.c:110-167 | the grant flag of a call inside says that a tick or a flush has taken its entry, the signal flag that it was sent a signal |
| `WrapperPrograms.GaugeIsRecordedOnce` | kmod/policy_engine.c:100-106 | every call that joins the queue has recorded the gauge exactly once before |
| `WrapperPrograms.DelayIsRecordedOnce` | kmod/policy_engine.c:106-134 | every call that was queued and has not given up records its delay exactly once before it leaves |
| `WrapperChoices.CallsGoIn` | kmod/policy_engine.c:67-78 | until the module is gone a new call can go in at any time: with the monitor on it verifies its policy next, with the monitor off it can leave at once and has changed nothing for anybody |
| `WrapperChoices.SignalReaches` | kmod/policy_engine.c:110-112 | a signal can reach every call inside at any time; it is then awake and on its way out |
| `WrapperChoices.AdministratorsMay` | kmod/policy_engine.c:194-204 | while the module is loaded the monitor can be switched on, or off with a flush to follow, and unloading can begin once no administrator is inside |
| `WrapperTicks.ResetsBeforeLock` | kmod/policy_engine.c:154-159 | the timer locks the queue only after it has fired and then reset |
| `WrapperTicks.TickIsWhole` | kmod/policy_engine.c:151-175 | a whole tick asks for each waiter that was queued at the lock, once and in order, leaves exactly those it refuses, in order, unlocks, and is idle again |
| `WrapperTicks.TickNears` | kmod/policy_engine.c:159-175 | from the lock on each step of the timer brings it one nearer to being idle, and nobody puts it off |
| `WrapperTicks.FlushIsWhole` | kmod/policy_engine.c:183-192 | a whole flush grants and takes out each waiter that was queued at the lock, once and in order, and nobody is left |
| `WrapperUnload.UnloaderFollowsCode` | kmod/core_main.c:60-69 | the unloader's steps are a path through core_exit: monitor off, flush, timer deleted, then the test of active_wrappers, again after every wake-up, and the end only after a test that found nobody |
| `WrapperUnload.UnloaderGetsThrough` | kmod/policy_engine.c:143-145 | from any state with nobody inside, and as long as nobody enters, the unloader has found nobody inside after at most three steps of its own |
| `WrapperUnload.UnloadProceeds` | kmod/policy_engine.c:138-145 | meanwhile it always has an enabled step, or the wake-up of the last call is one |
| `WrapperRecords.StaleEntryExactly` | kmod/policy_engine.c:110-136 | in every run a call that is not waiting has an entry in the queue if and only if it went on without a grant and no sweep has taken the entry out since |
| `WrapperRecords.StaleTouchExactly` | kmod/policy_engine.c:105-192 | a step that touches a queued record touches that of a call that waits no longer if and only if the entry was left in this way |
| `WrapperRecords.TouchedAreLive` | kmod/policy_engine.c:105-192 | while the monitor has stayed on every step touches records of waiting calls only |
| `WrapperRecords.ExactUntilLeft` | kmod/policy_engine.c:105-171 | the queue is the live waiters in order, up to a state, if and only if nobody has gone on without a grant |
| `WrapperRecords.StaleTouchExists` | kmod/policy_engine.c:186-190 | a run whose flush touches the record of a call that has returned |
| `WrapperRecords.StaleAskExists` | kmod/policy_engine.c:160-165 | a run whose tick asks on behalf of a call that has returned |
| `ModuleRun.StepKeepsInv` | kmod/core_main.c:60-69 | each step of calls, timer, commands and unloading keeps list and protocol in agreement |
| `ModuleRun.ModuleSafety` | kmod/core_main.c:60-69 | from loading through core_exit no step touches the memory of a freed rule, although cleanup frees without a grace period, and nobody reads rules once drained |
| `ModuleRun.EveryRuleFreedOnce` | kmod/registry_data.c:182-205 | over a whole run no rule is freed twice, and when the module is gone every rule ever added has been freed |
| `ModuleVerdicts.CallVerdictsFollowPolicy` | kmod/policy_engine.c:80-82 | every verdict on a call is the policy's on that very call: a matching pick that was in the list during the section, no older match, blocked if and only if the section's charge took the counter over the limit; and the call goes on or blocks accordingly |
| `ModuleVerdicts.TimerVerdictsFollowPolicy` | kmod/policy_engine.c:165-169 | so is the timer's on behalf of a waiter whose call has not returned, and the waiter is granted and unlinked, or kept, accordingly |
| `ModuleTokens.WindowAdmits` | kmod/registry_data.c:161-166 | in the whole module, too, exactly min(charges, max(0, max_calls)) charges of a window are admitted if and only if there are fewer than 2^31 |
| `ModuleTokens.PassesDrawTokens` | kmod/policy_engine.c:80-165 | every call let through and every waiter granted after a pick draws a token of the rule picked, at its charge |
| `ModuleTokens.TokensAreBounded` | kmod/policy_engine.c:80-165 | calls let through and waiters granted by charges of one window of a rule number at most max(0, max_calls), below 2^31 charges |
| `ModulePasses.PassesAreBounded` | kmod/policy_engine.c:80-169 | between two zeroings of a rule the calls let through and the waiters granted number at most max(0, max_calls), plus one for each section admitted by it that had not returned when the window opened; with none pending at most max(0, max_calls); below 2^31 charges |
| `ModuleExcess.BoundIsAttained` | kmod/registry_data.c:161-179 | wherever a window opens while such sections are pending, the run can go on so that exactly that many pass |
| `ModuleExcess.LimitIsKeptIff` | kmod/registry_data.c:161-179 | for a rule in the list, no continuation lets more than max(0, max_calls) calls through in the window if and only if no section it has admitted is pending when the window opens |
| `ModuleProjections.ProtocolProjection` | kmod/policy_engine.c:59-204 | the protocol's steps of every run of the module, none left out, form a run of the protocol |
| `ModuleProjections.CountersAreExact` | kmod/policy_engine.c:66-140 | in the whole module, too, both counters are exact |
| `ModuleProjections.QueueIsOfWaiters` | kmod/policy_engine.c:105-171 | and queue and live waiters correspond |
| `ModuleProjections.UnloaderWakes` | kmod/policy_engine.c:138-145 | and a sleeping unloader at count zero has an enabled waker |
| `ModuleProjections.StaleTouches` | kmod/policy_engine.c:105-192 | and a touched record belongs to a call that waits no longer if and only if its entry was left and not swept since |
| `ModuleProjections.ListProjection` | kmod/registry_data.c:53-205 | the list's steps of every run of the module form a run of the list, in which rules are freed at once only with no section open |
| `ModuleProjections.ReachableIsAllocated` | kmod/registry_data.c:105-175 | in the whole module, cleanup included, no cell a reader stands on or can reach by `next` has been freed |
| `ModuleProjections.TimerResetsAll` | kmod/registry_data.c:242-248 | a finished reset of the timer has visited every rule that stayed in the list |
| `ModuleProjections.QuietVerdictIsFirstMatch` | kmod/registry_data.c:152-170 | a verdict over which the list gained nothing and kept the pick is the first match of the list |
| `ModulePrograms.TickResetsCounters` | kmod/policy_engine.c:154-159 | in every run of the module, before the timer locks the queue it has fired, begun and ended a reset, and each rule in the list at both ends was set to zero by a step between them |
| `ModulePrograms.GaugeIsRecorded` | kmod/policy_engine.c:100-106 | before it joins the queue a call has recorded statistics exactly once |
| `ModulePrograms.DelayIsRecorded` | kmod/policy_engine.c:106-134 | from the queue to its exit a call that has not given up records statistics exactly once |
| `ModulePrograms.RecordsAgainstOwn` | kmod/registry_data.c:258-285 | what it records is recorded against the first rule in the list with its own number, if there is one |
| `ModulePrograms.RemovalTakesOldest` | kmod/registry_data.c:109-120 | in the whole module, too, remove_rule takes out the oldest rule with the number and no other |
| `ModulePrograms.ResetZeroesOldest` | kmod/registry_data.c:338-349 | and reset_rule_stats zeroes the counter of the oldest one and of no other |
| `ModulePrograms.RulesCanBeAdded` | kmod/registry_data.c:54-102 | while the module is loaded every rule can be added at any time and is then the last of the list, with a zero counter |
| `ModulePrograms.RulesCanBeRemoved` | kmod/registry_data.c:105-138 | the oldest rule with a number can be removed at any time, unless nobody has the number, then waited for, and freed once all open sections began after the wait |
| `ModulePrograms.StatisticsCanBeReached` | kmod/registry_data.c:298-354 | and its statistics can be read or reset at any time |
| `ModulePrograms.ChoicesAreFree` | kmod/policy_engine.c:59-204 | calls, signals, switches of the monitor and the beginning of unloading happen whenever their party likes |
| `ModulePrograms.PartiesFollowCode` | kmod/policy_engine.c:59-204 | in the whole module the steps of every call and of the unloader are paths through their code |
| `ModulePrograms.TicksAreWhole` | kmod/policy_engine.c:151-175 | and every tick is a whole one |
| `ModuleUnload.UnloadNears` | kmod/core_main.c:64-66 | once nobody is inside, each step of the unloader, one per rule freed included, brings it one nearer the end of core_exit, and nobody puts it off |
| `ModuleUnload.CleanupTakesOldest` | kmod/registry_data.c:191-201 | each turn of cleanup frees the oldest rule in the list and takes no other out of it |
| `ModuleUnload.UnloadingEnds` | kmod/core_main.c:64-66 | from every such state the run can go on to the end in at most four steps, one per rule, and one; then every rule ever added has been freed |
| `ModuleProgress.CallProceeds` | kmod/policy_engine.c:59-141 | every call inside has an enabled step of its own, down to the steps of its walks, unless it sleeps or waits for fifo_lock |
| `ModuleProgress.TimerProceeds` | kmod/policy_engine.c:151-175 | so has the timer until it is deleted |
| `ModuleProgress.HolderProceeds` | kmod/policy_engine.c:159-191 | so has whoever holds fifo_lock |
| `ModuleProgress.WalkNearsEnd` | kmod/registry_data.c:152-170 | in the whole module each step of a walk brings its end nearer and nobody puts it off except by adding a rule |
| `ModuleProgress.ShutdownIsBounded` | kmod/policy_engine.c:75-141 | while the monitor stays off, a call's own actions, each step of its walk over the rules counted, number at most what its place allows (12 steps; in a verdict 11, the beginning of the walk, and twice the rules added so far and one), two more for each rule added meanwhile |
| `Interceptor.SyscallHooks.HookSpecificSyscall` | kmod/sys_interceptor.c:244-274 | the first hook saves and replaces the entry, later ones count; -EINVAL and -EFAULT without effect |
| `Interceptor.SyscallHooks.UnhookSpecificSyscall` | kmod/sys_interceptor.c:276-305 | the last hook given back restores the entry and clears the saved pointer; at count zero nothing happens |
| `Interceptor.SyscallHooks.Dispatch` | kmod/sys_interceptor.c:40-63 | runs the saved handler, or -ENOSYS out of range or without one |
| `HookAgreement.AddAgrees` | kmod/sys_interceptor.c:254-270 | adding a rule, out-of-range and -1 rules included, keeps table and rules in agreement |
| `HookAgreement.RemoveAgrees` | kmod/sys_interceptor.c:286-303 | so does removing one |
| `HookAgreement.HooksAgree` | kmod/sys_interceptor.c:244-305 | after any commands, for every entry: refcount is the number of rules, wrapper and saved boot entry if positive, boot entry and NULL otherwise |
| `HookAgreement.HookedIffNamed` | kmod/sys_interceptor.c:244-305 | an entry is replaced if and only if some rule names its call |
| `HookAgreement.CleanupRestores` | kmod/registry_data.c:191-201 | from any agreeing state the cleanup loop restores the boot table |
| `HookAgreement.FullRestoration` | kmod/registry_data.c:188-203 | whatever commands were given, cleanup leaves no reference, no saved pointer and the whole table as found at load time |
| `HookAgreement.DispatchReachesBootHandler` | kmod/sys_interceptor.c:55-62 | a call let through runs its boot handler if its number is below 512 and a rule still names it, and otherwise ends with -38 |
| `CoreMain.CoreExit` | kmod/core_main.c:60-66 | run in this order: nobody queued, no rule left, the boot table restored |
| `PageWalk.MacrosSelectBits` | kmod/mmu_scanner.c:38-41 | the signed shifts select the nine bits the processor uses at each level |
| `PageWalk.CastIsNoMap` | kmod/mmu_scanner.c:87 | the cast to int reads as NO_MAP for exactly one frame number in 2^32 |
| `PageWalk.WalkAgrees` | kmod/mmu_scanner.c:58-98 | outside 1 GB pages, where the entries followed as pointers have no bit above 51 set, the walk says mapped if and only if the processor's translation finds the page present and its frame number does not cast to -1 |
| `PageWalk.LargestPagesEscape` | kmod/mmu_scanner.c:79-82 | a machine on which an address in a 1 GB page is reported unmapped |
| `PageWalk.UntidyEntriesEscape` | kmod/mmu_scanner.c:19 | a machine on which a bit above 51, which the mask keeps, hides a present page |
| `PageWalk.ConstantOverPage` | kmod/mmu_scanner.c:58-98 | the answer is the same for every address of a 4 KB page |
| `Scanner.CandidateIsTable` | kmod/mmu_scanner.c:131-149 | what the heuristics accept, told in literal addresses and values |
| `Scanner.WholeTableMapped` | kmod/mmu_scanner.c:128-134 | if the first and last entries are on mapped pages, so is every entry between |
| `Scanner.GuardMakesReadable` | kmod/mmu_scanner.c:131-136 | past the guard, everything the comparisons read is mapped and nothing wraps |
| `Scanner.BreakLosesNothing` | kmod/mmu_scanner.c:134-136 | when the loop breaks off, no later address of the page can be the table |
| `Scanner.IsGoodArea` | kmod/mmu_scanner.c:107-115 | true if and only if no word from 1 to 133 of the table equals word 134; reads mapped pages only |
| `Scanner.HasSignature` | kmod/mmu_scanner.c:141-149 | true if and only if the words 134, 174, 182, 183, 214, 215 and 236 of the table, at these addresses, are one pointer above 0xffffffff00000000 divisible by 4; reads mapped pages only |
| `Scanner.ValidatePage` | kmod/mmu_scanner.c:122-157 | the lowest candidate of the page, or 0 if it has none |
| `Scanner.ScanForSyscallTable` | kmod/mmu_scanner.c:164-183 | a non-zero result is a table, told address by address, in the searched range; every such table is found or preceded by the result, so that 0 means there is none; no address wraps |
| `Statistics.StepSummary` | kmod/registry_data.c:252-295 | each event keeps a rule's statistics a summary of its log |
| `Statistics.StatisticsRefineLog` | kmod/registry_data.c:252-354 | after any history each rule's statistics are the maximum gauge, the count and 64-bit sum of gauges, and the earliest largest delay with its victim, since it was added or reset |
| `Statistics.ReportRefinesLog` | kmod/registry_data.c:298-330 | what get_rule_stats reports is the largest gauge and the largest delay with its earliest victim over that log, and, below 2^64 positive gauges, the mean gauge if and only if their sum is below 2^64 |
| `Statistics.ReportIsMean` | kmod/registry_data.c:310-315 | below 2^64 positive gauges the reported average is the integer mean, between 1 and the reported peak, if and only if the sum is below 2^64; 0 without gauges |

## Left out

- Time stamps that do not advance (`kmod/policy_engine.c:131`): a woken call always makes its walk in `update_peak_delay`; a delay of 0 leaves the statistics as they are.
- The hardware and foreign calls: CR0 and CR4 writes, inline assembly, kprobes, the dispatcher patch, rdtscp. "Entry written" and "delay measured" are given.
- `kmod/char_device.c` and `userspace/cli_tool.c`: the commands appear only as the alphabet of administrative steps; `core_init` and failed initialisation are not modelled.
- `get_active_rules` and `debug_print_rules`: a bounded copy and printing, which would add easy members only.
- The spinlock build: its concurrency is not claimed.
- Weak memory ordering, real time and scheduler fairness: progress is an enabled step and a measure that falls.
- Overlapping commands in the agreement of table and rules: the list change and the hook change are separate critical sections, so agreement is stated for completed, serial commands, after initialisation succeeded.
- `active_wrappers`, `total_blocked_threads` and `syscall_refcount` are unbounded integers: fewer than 2^31 calls or rules exist at once.
- The time a call spends in the wrapper's own code after `enforce_syscall_policy` returns: `active_wrappers` does not cover it, so nothing is claimed about module code being unused after unloading.
- What asking for, granting or unlinking the queue entry of a call that has returned does to its stack memory, and what it finds there (in `ModuleRun` the timer may ask on behalf of any call); `WrapperRecords` says exactly when this happens.
- A rule's life starts at its publication: the allocation before the lock, and a failing allocation, are in the sequential model only; the address of a rule is its insertion number.
- ModuleRun.ModuleSafety: rule memory only, for that reason.
- ModuleVerdicts.TimerVerdictsFollowPolicy: waiters whose calls have not returned, for that reason.
- Registry.RuleList.RemoveRule: returns the unlinked cell; the grace period and the free that follow are steps of `RcuRegistry`.
- Statistics.StatisticsRefineLog: in the histories every delay names its victim, as in the only call (`kmod/policy_engine.c:133`).
- FifoRuns.NoOvertaking: "decide and enqueue" and "reset and scan" are one step each, because the counters are zeroed outside fifo_lock (`kmod/policy_engine.c:155`); rule removal is not among its steps.
- FifoRuns.BoundedWait: likewise, and a rule that is removed while somebody waits on it is not covered.
- CoreMain.CoreExit: sequential, after the last wrapper has left; the waiting itself is in `WrapperRuns` and `ModuleRun`.
- PageWalk.WalkAgrees: entries followed as pointers whose bits above 51 are clear; `PageWalk.UntidyEntriesEscape` shows why.
- Statistics.ReportIsMean: fewer than 2^64 gauges, since the 64-bit count of events wraps as well there; gauges are positive by `WrapperRuns.GaugeIsPositive`.
- ModuleTokens.TokensAreBounded: tokens are counted in the window of their charge; `ModulePasses.PassesAreBounded` counts them where the verdict ends.
- ModuleExcess.LimitIsKeptIff: for a rule in the list while the module is loaded; for other rules the condition is sufficient (`ModulePasses.PassesAreBounded`).
