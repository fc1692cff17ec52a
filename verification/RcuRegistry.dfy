/**
 The rule list in its default build: readers walk it without a lock, writers
 hold registry_lock, and a removed rule is freed after a grace period.
 Every step below is one atomic access, or one critical section of a writer.
 A step that follows a pointer to freed memory raises `fault`.
 */
module RcuRegistry {
  import opened CTypes
  import opened Rules

  /** A rule is addressed by its insertion number; HEAD is the list head. */
  type Ptr = int

  const HEAD: Ptr := 0
  const POISON: Ptr := -1

  type Tid = nat

  datatype Node =
    | Head(next: Ptr, prev: Ptr)
    | Entry(next: Ptr, prev: Ptr, rule: Rule, count: Int32)

  /** What a read-side section does: charge a call to its first matching rule
      (is_throttled), or zero every counter (reset_all_counters). */
  datatype Walk = Charge(call: Call) | ZeroAll

  datatype Phase =
    | Load(from: Ptr)                     // about to follow from.next
    | Look(at: Ptr)                       // about to examine the rule
    | Finished(hit: Ptr, blocked: bool)   // hit is HEAD when no rule matched

  /** `start` and `visited` are history. */
  datatype Reader = Reader(start: nat, walk: Walk, phase: Phase, visited: seq<Ptr>)

  /** `mem` is the memory in use. `linked`, `rules`, `born`, `dead`, `freed` are
      history: the list contents, every rule ever published, publication and
      unlink times, and the log of frees. `waits` says since when the remover of
      a rule has been in synchronize_rcu. */
  datatype State = State(
    mem: map<Ptr, Node>,
    linked: seq<Ptr>,
    rules: map<Ptr, Rule>,
    born: map<Ptr, nat>,
    dead: map<Ptr, nat>,
    waits: map<Ptr, nat>,
    freed: seq<Ptr>,
    readers: map<Tid, Reader>,
    last: nat,
    clock: nat,
    fault: bool)

  const EMPTY: State :=
    State(map[HEAD := Head(HEAD, HEAD)], [], map[], map[], map[], map[], [], map[], 0, 0, false)

  datatype Action =
    | Publish(rule: Rule)                 // add_rule
    | Unlink(num: int, index: nat)        // remove_rule: search and list_del_rcu
    | Synchronize(node: Ptr)              // remove_rule: synchronize_rcu is entered
    | Free(node: Ptr)                     // remove_rule: synchronize_rcu returns, kfree
    | StatsTouch(num: int, index: nat, zero: bool)  // a locked walk to the first rule with the number
    | StatsMiss(num: int)                 // a locked walk over the whole list, which has no such rule
    | Begin(tid: Tid, walk: Walk)         // rcu_read_lock
    | FollowNext(tid: Tid)
    | Examine(tid: Tid)
    | End(tid: Tid)                       // rcu_read_unlock
    | Reclaim                             // one iteration of cleanup_registry: unlink and kfree at once

  // ------------------------------------------------------------------ steps

  function Next(s: State, p: Ptr): Ptr {
    if p in s.mem then s.mem[p].next else POISON
  }

  function Prev(s: State, p: Ptr): Ptr {
    if p in s.mem then s.mem[p].prev else POISON
  }

  function SetNext(mem: map<Ptr, Node>, p: Ptr, q: Ptr): map<Ptr, Node> {
    if p in mem then mem[p := mem[p].(next := q)] else mem
  }

  function SetPrev(mem: map<Ptr, Node>, p: Ptr, q: Ptr): map<Ptr, Node> {
    if p in mem then mem[p := mem[p].(prev := q)] else mem
  }

  function SetCount(mem: map<Ptr, Node>, p: Ptr, c: Int32): map<Ptr, Node> {
    if p in mem && mem[p].Entry? then mem[p := mem[p].(count := c)] else mem
  }

  /** `index` is where a writer's search for the exact number stops. */
  predicate FoundAt(s: State, num: int, index: nat) {
    && index < |s.linked|
    && (forall j :: 0 <= j <= index ==> s.linked[j] in s.rules)
    && s.rules[s.linked[index]].syscallNum == num
    && (forall j :: 0 <= j < index ==> s.rules[s.linked[j]].syscallNum != num)
  }

  /** A writer's search for the number runs over the whole list. */
  predicate Missing(s: State, num: int) {
    forall j :: 0 <= j < |s.linked| ==> s.linked[j] in s.rules && s.rules[s.linked[j]].syscallNum != num
  }

  predicate Enabled(s: State, a: Action) {
    match a
    case Publish(_) => true
    case Unlink(num, index) => FoundAt(s, num, index)
    case Synchronize(node) => node in s.dead && node !in s.waits && node !in s.freed
    case Free(node) =>
      // the grace period covers every section that began before it
      && node in s.waits && node !in s.freed
      && (forall t :: t in s.readers ==> s.readers[t].start > s.waits[node])
    case StatsTouch(num, index, _) => FoundAt(s, num, index)
    case StatsMiss(num) => Missing(s, num)
    case Begin(tid, _) => tid !in s.readers
    case FollowNext(tid) => tid in s.readers && s.readers[tid].phase.Load?
    case Examine(tid) => tid in s.readers && s.readers[tid].phase.Look?
    case End(tid) => tid in s.readers && s.readers[tid].phase.Finished?
    case Reclaim => |s.linked| > 0
  }

  function DoPublish(s: State, rule: Rule): State {
    var n := s.last + 1;
    var tail := Prev(s, HEAD);
    s.(mem := SetPrev(SetNext(s.mem[n := Entry(HEAD, tail, rule, 0)], tail, n), HEAD, n),
       linked := s.linked + [n],
       rules := s.rules[n := rule],
       born := s.born[n := s.clock],
       last := n,
       clock := s.clock + 1,
       fault := s.fault || HEAD !in s.mem || tail !in s.mem)
  }

  /** The memory after list_del_rcu(n): n keeps its next pointer. */
  function Spliced(s: State, n: Ptr): map<Ptr, Node> {
    SetPrev(SetPrev(SetNext(s.mem, Prev(s, n), Next(s, n)), Next(s, n), Prev(s, n)), n, POISON)
  }

  predicate SpliceFaults(s: State, n: Ptr) {
    n !in s.mem || Prev(s, n) !in s.mem || Next(s, n) !in s.mem
  }

  function DoUnlink(s: State, index: nat): State
    requires index < |s.linked|
  {
    var n := s.linked[index];
    s.(mem := Spliced(s, n),
       linked := RemoveAt(s.linked, index),
       dead := s.dead[n := s.clock],
       clock := s.clock + 1,
       fault := s.fault || SpliceFaults(s, n) || exists j :: 0 <= j <= index && s.linked[j] !in s.mem)
  }

  function DoFree(s: State, n: Ptr): State {
    s.(mem := s.mem - {n}, freed := s.freed + [n], clock := s.clock + 1,
       fault := s.fault || n !in s.mem)
  }

  function DoStatsTouch(s: State, index: nat, zero: bool): State
    requires index < |s.linked|
  {
    s.(mem := if zero then SetCount(s.mem, s.linked[index], 0) else s.mem,
       clock := s.clock + 1,
       fault := s.fault || exists j :: 0 <= j <= index && s.linked[j] !in s.mem)
  }

  function DoStatsMiss(s: State): State {
    s.(clock := s.clock + 1, fault := s.fault || exists p :: p in s.linked && p !in s.mem)
  }

  function DoFollowNext(s: State, tid: Tid): State
    requires tid in s.readers && s.readers[tid].phase.Load?
  {
    var r := s.readers[tid];
    var p := r.phase.from;
    if p !in s.mem then
      s.(clock := s.clock + 1, fault := true)
    else
      var q := s.mem[p].next;
      var phase := if q == HEAD then Finished(HEAD, false) else Look(q);
      s.(readers := s.readers[tid := r.(phase := phase)], clock := s.clock + 1)
  }

  /** The counter of the rule once the reader has examined it. */
  function CountExamined(walk: Walk, rule: Rule, count: Int32): Int32 {
    match walk
    case ZeroAll => 0
    case Charge(call) => if Matches(rule, call) then AtomicIncReturn(count) else count
  }

  /** What the reader does next: stop at a match, blocked if the new count is over the limit. */
  function PhaseExamined(walk: Walk, p: Ptr, rule: Rule, count: Int32): Phase {
    if walk.Charge? && Matches(rule, walk.call) then Finished(p, AtomicIncReturn(count) > rule.maxCalls)
    else Load(p)
  }

  function DoExamine(s: State, tid: Tid): State
    requires tid in s.readers && s.readers[tid].phase.Look?
  {
    var r := s.readers[tid];
    var p := r.phase.at;
    if p !in s.mem || !s.mem[p].Entry? then
      s.(clock := s.clock + 1, fault := true)
    else
      var node := s.mem[p];
      s.(mem := SetCount(s.mem, p, CountExamined(r.walk, node.rule, node.count)),
         readers := s.readers[tid := r.(phase := PhaseExamined(r.walk, p, node.rule, node.count),
                                        visited := r.visited + [p])],
         clock := s.clock + 1)
  }

  function DoReclaim(s: State): State
    requires |s.linked| > 0
  {
    var n := s.linked[0];
    s.(mem := Spliced(s, n) - {n},
       linked := s.linked[1..],
       dead := s.dead[n := s.clock],
       freed := s.freed + [n],
       clock := s.clock + 1,
       fault := s.fault || SpliceFaults(s, n))
  }

  function Apply(s: State, a: Action): State
    requires Enabled(s, a)
  {
    match a
    case Publish(rule) => DoPublish(s, rule)
    case Unlink(_, index) => DoUnlink(s, index)
    case Synchronize(node) => s.(waits := s.waits[node := s.clock], clock := s.clock + 1)
    case Free(node) => DoFree(s, node)
    case StatsTouch(_, index, zero) => DoStatsTouch(s, index, zero)
    case StatsMiss(_) => DoStatsMiss(s)
    case Begin(tid, walk) =>
      s.(readers := s.readers[tid := Reader(s.clock, walk, Load(HEAD), [])], clock := s.clock + 1)
    case FollowNext(tid) => DoFollowNext(s, tid)
    case Examine(tid) => DoExamine(s, tid)
    case End(tid) => s.(readers := s.readers - {tid}, clock := s.clock + 1)
    case Reclaim => DoReclaim(s)
  }

  // ------------------------------------------------------------- invariants

  ghost predicate Increasing(list: seq<Ptr>) {
    forall i, j :: 0 <= i < j < |list| ==> list[i] < list[j]
  }

  /** Which cells exist. */
  ghost predicate Cells(s: State) {
    && HEAD in s.mem && s.mem[HEAD].Head?
    && (forall p :: p in s.rules <==> 1 <= p <= s.last)
    && (forall p :: p in s.mem && p != HEAD ==> p in s.rules && s.mem[p].Entry? && s.mem[p].rule == s.rules[p])
    && (forall p :: p in s.linked ==> p in s.mem && p in s.rules && p !in s.dead)
    && (forall p :: p in s.rules ==> p in s.linked || p in s.dead)
    && (forall p :: p in s.dead ==> p in s.rules && (p in s.mem <==> p !in s.freed))
    && (forall p :: p in s.freed ==> p in s.dead)
    && (forall p :: p in s.waits ==> p in s.dead)
    && (forall i, j :: 0 <= i < j < |s.freed| ==> s.freed[i] != s.freed[j])
  }

  function CellBefore(list: seq<Ptr>, i: nat): Ptr
    requires i <= |list|
  {
    if i == 0 then HEAD else list[i - 1]
  }

  function CellAt(list: seq<Ptr>, i: nat): Ptr
    requires i <= |list|
  {
    if i == |list| then HEAD else list[i]
  }

  /** The pointers of the linked cells spell out `linked`, oldest rule first. */
  ghost predicate Chained(s: State) {
    && Increasing(s.linked)
    && (forall i :: 0 <= i <= |s.linked| ==> Next(s, CellBefore(s.linked, i)) == CellAt(s.linked, i))
    && (forall i :: 0 <= i <= |s.linked| ==> Prev(s, CellAt(s.linked, i)) == CellBefore(s.linked, i))
  }

  ghost predicate Timed(s: State) {
    && s.born.Keys == s.rules.Keys
    && (forall p :: p in s.born ==> s.born[p] < s.clock)
    && (forall p :: p in s.dead ==> s.dead[p] < s.clock)
    && (forall p :: p in s.waits ==> p in s.dead && s.dead[p] < s.waits[p] < s.clock)
    && (forall t :: t in s.readers ==> s.readers[t].start < s.clock)
  }

  /** An unlinked cell still in memory points to the head or to a younger rule
      that was unlinked later, if at all; what it skips was added later. */
  ghost predicate Stale(s: State, p: Ptr)
    requires p in s.dead
  {
    var q := Next(s, p);
    && (q == HEAD || (p < q && (q in s.linked || (q in s.dead && s.dead[p] < s.dead[q]))))
    && (forall n :: n in s.linked && p < n ==>
          if q == HEAD then n in s.born && s.born[n] > s.dead[p] else q <= n)
  }

  ghost predicate StaleCells(s: State) {
    forall p :: p in s.dead && p in s.mem ==> Stale(s, p)
  }

  /** The cell is the head, or was in the list at some instant after `since`. */
  ghost predicate SeenSince(s: State, p: Ptr, since: nat) {
    p == HEAD || p in s.linked || (p in s.dead && s.dead[p] > since)
  }

  function Cursor(r: Reader): Ptr {
    match r.phase
    case Load(from) => from
    case Look(at) => at
    case Finished(hit, _) => hit
  }

  ghost predicate ReaderHolds(s: State, r: Reader) {
    && SeenSince(s, Cursor(r), r.start)
    && (r.phase.Look? ==> r.phase.at != HEAD)
    && (forall f :: f in s.freed ==> f in s.dead && s.dead[f] < r.start)
  }

  ghost predicate ReadersHold(s: State) {
    forall t :: t in s.readers ==> ReaderHolds(s, s.readers[t])
  }

  /** The rules a reader has passed, and what it found there. */
  ghost predicate VisitsOf(s: State, r: Reader) {
    && Increasing(r.visited)
    && (forall v :: v in r.visited ==> v in s.rules)
    && (r.phase.Load? && r.phase.from != HEAD ==> |r.visited| > 0 && r.visited[|r.visited| - 1] == r.phase.from)
    && (r.phase.Load? && r.phase.from == HEAD ==> r.visited == [])
    && (r.phase.Look? ==> forall v :: v in r.visited ==> v < r.phase.at)
    && (r.phase.Finished? && r.phase.hit != HEAD ==>
          && r.walk.Charge?
          && |r.visited| > 0 && r.visited[|r.visited| - 1] == r.phase.hit
          && Matches(s.rules[r.phase.hit], r.walk.call))
    && (r.phase.Finished? && r.phase.hit == HEAD ==> !r.phase.blocked)
    && (r.walk.Charge? ==>
          forall v :: v in r.visited && !(r.phase.Finished? && v == r.phase.hit) ==> !Matches(s.rules[v], r.walk.call))
    && (forall n :: n in s.linked && n in s.born ==>
          match r.phase
          case Load(from) => n <= from ==> n in r.visited
          case Look(at) => n < at ==> n in r.visited
          case Finished(hit, _) =>
            if hit == HEAD then s.born[n] < r.start ==> n in r.visited
            else n <= hit ==> n in r.visited)
  }

  ghost predicate Visits(s: State) {
    forall t :: t in s.readers ==> VisitsOf(s, s.readers[t])
  }

  ghost predicate Inv(s: State) {
    && !s.fault
    && Cells(s)
    && Chained(s)
    && Timed(s)
    && StaleCells(s)
    && ReadersHold(s)
    && Visits(s)
  }

  /** No reader's cursor has been freed. */
  lemma CursorAllocated(s: State, t: Tid)
    requires Cells(s) && ReadersHold(s) && t in s.readers
    ensures Cursor(s.readers[t]) in s.mem
  {
  }
}
