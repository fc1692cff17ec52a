/**
 The queue of blocked calls, a doubly linked list of the callers' own records, and
 the two walks that shorten it while they go along it: the timer's tick and the
 flush when the monitor is switched off.
 */
module PolicyEngine {
  import opened CTypes
  import opened Rules
  import opened Registry
  import Tick

  /** struct scth_waiter. */
  class Waiter {
    var next: Waiter
    var prev: Waiter
    const call: Call
    var granted: bool

    constructor (call: Call)
      ensures this.call == call && !granted && next == this && prev == this
    {
      this.call := call;
      granted := false;
      next, prev := this, this;
    }
  }

  function CallsOf(queue: seq<Waiter>): (calls: seq<Call>)
    ensures |calls| == |queue|
    ensures forall k :: 0 <= k < |queue| ==> calls[k] == queue[k].call
  {
    seq(|queue|, k requires 0 <= k < |queue| => queue[k].call)
  }

  ghost function FlagsOf(queue: seq<Waiter>): (flags: seq<bool>)
    reads queue
    ensures |flags| == |queue|
    ensures forall k :: 0 <= k < |queue| ==> flags[k] == queue[k].granted
  {
    seq(|queue|, k requires 0 <= k < |queue| reads queue => queue[k].granted)
  }

  /** The scan of `queue`, whose flags were `was`, stands before its k-th waiter. */
  ghost predicate ScanAt(v: seq<RuleState>, queue: seq<Waiter>, was: seq<bool>, k: nat,
                         view: seq<RuleState>, kept: seq<Waiter>, flags: seq<bool>)
  {
    var calls := CallsOf(queue);
    && k <= |queue| == |was| == |flags|
    && view == Tick.AfterCharges(v, calls[..k])
    && kept == Tick.Kept(v, calls[..k], queue[..k])
    && forall j {:trigger flags[j]} :: 0 <= j < |queue| ==>
         flags[j] == (was[j] || (j < k && Tick.GrantedAt(v, calls, j)))
  }

  lemma ScanStep(v: seq<RuleState>, queue: seq<Waiter>, was: seq<bool>, k: nat,
                 view: seq<RuleState>, kept: seq<Waiter>, flags: seq<bool>)
    requires ScanAt(v, queue, was, k, view, kept, flags) && k < |queue|
    ensures var call := queue[k].call;
            if Blocks(view, call) then ScanAt(v, queue, was, k + 1, Charged(view, call), kept + [queue[k]], flags)
            else ScanAt(v, queue, was, k + 1, Charged(view, call), kept, flags[k := true])
  {
    var calls := CallsOf(queue);
    Tick.ChargesStep(v, calls, k);
    Tick.KeptIsFilter(v, calls, queue, k);
  }

  lemma ScanStarts(v: seq<RuleState>, queue: seq<Waiter>, was: seq<bool>)
    requires |was| == |queue|
    ensures ScanAt(v, queue, was, 0, v, [], was)
  {
  }

  lemma ScanEnds(v: seq<RuleState>, queue: seq<Waiter>, was: seq<bool>,
                 view: seq<RuleState>, kept: seq<Waiter>, flags: seq<bool>)
    requires ScanAt(v, queue, was, |queue|, view, kept, flags)
    ensures view == Tick.AfterCharges(v, CallsOf(queue)) && kept == Tick.Kept(v, CallsOf(queue), queue)
  {
    var calls := CallsOf(queue);
    assert calls[..|queue|] == calls && queue[..|queue|] == queue;
  }

  /** fifo_waiters; the head is no waiter. */
  class WaiterList {
    const head: Waiter
    ghost var items: seq<Waiter>

    ghost function At(i: nat): Waiter
      requires i <= |items|
      reads this
    {
      if i == |items| then head else items[i]
    }

    ghost function Before(i: nat): Waiter
      requires i <= |items|
      reads this
    {
      if i == 0 then head else items[i - 1]
    }

    ghost predicate Valid()
      reads this, head, items
    {
      && head !in items
      && (forall i, j :: 0 <= i < j < |items| ==> items[i] != items[j])
      && (forall i :: 0 <= i <= |items| ==> Before(i).next == At(i) && At(i).prev == Before(i))
    }

    constructor ()
      ensures Valid() && fresh(head) && items == []
    {
      head := new Waiter(Call(0, "", 0));
      items := [];
    }

    /** list_add_tail. */
    method Append(w: Waiter)
      requires Valid() && w != head && w !in items
      modifies this`items, head`next, head`prev, w`next, w`prev, items`next, items`prev
      ensures Valid() && items == old(items) + [w]
    {
      var tail := head.prev;
      assert tail == Before(|items|) && At(|items|) == head;
      w.next := head;
      w.prev := tail;
      tail.next := w;
      head.prev := w;
      items := items + [w];
      assert forall i :: 0 <= i <= |old(items)| ==> Before(i) == old(Before(i));
      assert forall i :: 0 <= i < |old(items)| ==> At(i) == old(At(i));
    }

    /** list_del_init: the neighbours are joined, and the entry points to itself. */
    method Unlink(w: Waiter, ghost i: nat)
      requires Valid() && i < |items| && w == items[i]
      modifies this`items, head`next, head`prev, items`next, items`prev
      ensures Valid() && items == RemoveAt(old(items), i)
      ensures w.next == w && w.prev == w
    {
      assert At(i) == w == Before(i + 1);
      var prev, next := w.prev, w.next;
      assert prev == Before(i) && next == At(i + 1);
      prev.next := next;
      next.prev := prev;
      w.next := w;
      w.prev := w;
      items := RemoveAt(items, i);
      forall k | 0 <= k <= |items| ensures Before(k).next == At(k) && At(k).prev == Before(k) {
        var j := if k <= i then k else k + 1;
        assert old(Before(j).next == At(j) && At(j).prev == Before(j));
        if k != i {
          assert At(k) == old(At(j)) && Before(k) == old(Before(j));
        }
      }
    }

    /** The entry after position i. */
    method Following(w: Waiter, ghost i: nat) returns (next: Waiter)
      requires Valid() && i < |items| && w == items[i]
      ensures next == At(i + 1)
    {
      assert Before(i + 1) == w;
      next := w.next;
    }

    method First() returns (first: Waiter)
      requires Valid()
      ensures first == At(0)
    {
      assert Before(0) == head;
      first := head.next;
    }

    /** The walk of `queue` has kept `kept` of its first k waiters. */
    ghost predicate WalkAt(queue: seq<Waiter>, kept: seq<Waiter>, k: nat)
      reads this, head, items
    {
      && Valid()
      && k <= |queue|
      && head !in queue
      && (forall m, n :: 0 <= m < n < |queue| ==> queue[m] != queue[n])
      && (forall w :: w in kept ==> w in queue)
      && items == kept + queue[k..]
    }

    /** w->granted = true, list_del_init, wake_up; `tmp` was read before. */
    method Grant(w: Waiter, tmp: Waiter, ghost queue: seq<Waiter>, ghost kept: seq<Waiter>, ghost k: nat)
      requires WalkAt(queue, kept, k)
      requires k < |queue| && w == queue[k] && tmp == At(|kept| + 1)
      modifies this`items, head`next, head`prev
      modifies queue`next, queue`prev, w`granted
      ensures WalkAt(queue, kept, k + 1) && tmp == At(|kept|)
      ensures w.granted
    {
      w.granted := true;
      assert items[|kept|] == w;
      assert forall i :: 0 <= i < |items| ==> items[i] in queue;
      Unlink(w, |kept|);
      assert items == kept + queue[k + 1..];
    }

    lemma WalkStarts()
      requires Valid()
      ensures WalkAt(items, [], 0)
    {
    }

    /** The walk has come to its k-th waiter, or to the end. */
    lemma Current(w: Waiter, queue: seq<Waiter>, kept: seq<Waiter>, k: nat)
      requires WalkAt(queue, kept, k) && w == At(|kept|)
      ensures w == head ==> k == |queue| && items == kept
      ensures w != head ==> k < |queue| && w == queue[k] && w in queue
    {
      if k < |queue| {
        assert items[|kept|] == queue[k];
      }
    }

    /** The waiter stays. */
    lemma StaysAt(w: Waiter, queue: seq<Waiter>, kept: seq<Waiter>, k: nat)
      requires WalkAt(queue, kept, k) && k < |queue| && w == queue[k]
      ensures WalkAt(queue, kept + [w], k + 1)
    {
      assert items == kept + [w] + queue[k + 1..];
    }

    /** The flush has granted the first k waiters of `queue`, and nobody else is left. */
    ghost predicate FlushedTo(queue: seq<Waiter>, k: nat)
      reads this, head, items, queue
    {
      WalkAt(queue, [], k) && forall j :: 0 <= j < k ==> queue[j].granted
    }

    /** One turn of the flush. */
    method FlushTurn(w: Waiter, ghost queue: seq<Waiter>, ghost k: nat) returns (tmp: Waiter)
      requires FlushedTo(queue, k) && k < |queue| && w == queue[k]
      modifies this`items, head`next, head`prev
      modifies queue`next, queue`prev, w`granted
      ensures FlushedTo(queue, k + 1) && tmp == At(0)
    {
      assert items[0] == w;
      tmp := Following(w, 0);
      Grant(w, tmp, queue, [], k);
    }

    lemma FlushStarts(queue: seq<Waiter>)
      requires Valid() && queue == items
      ensures FlushedTo(queue, 0)
    {
      WalkStarts();
    }

    lemma FlushCurrent(w: Waiter, queue: seq<Waiter>, k: nat)
      requires FlushedTo(queue, k) && w == At(0)
      ensures w == head ==> k == |queue| && FlushedTo(queue, |queue|) && Valid() && items == []
      ensures w != head ==> k < |queue| && w == queue[k] && w in queue
    {
      Current(w, queue, [], k);
    }

    /** The loop of flush_all_waiters: everybody is granted, first to last. */
    method FlushLoop(first: Waiter, ghost queue: seq<Waiter>)
      requires FlushedTo(queue, 0) && first == At(0)
      modifies this`items, head`next, head`prev, queue`next, queue`prev, queue`granted
      ensures FlushedTo(queue, |queue|) && Valid() && items == []
    {
      ghost var k: nat := 0;
      var w := first;
      while w != head
        invariant FlushedTo(queue, k) && w == At(0)
        decreases |queue| - k
      {
        FlushCurrent(w, queue, k);
        w := FlushTurn(w, queue, k);
        k := k + 1;
      }
      FlushCurrent(w, queue, k);
    }

    /** Everybody in the queue is granted. */
    method GrantAll()
      requires Valid()
      modifies this`items, head`next, head`prev, items`next, items`prev, items`granted
      ensures Valid() && items == []
      ensures FlushedTo(old(items), |old(items)|)
    {
      ghost var queue := items;
      var w := First();
      FlushStarts(queue);
      FlushLoop(w, queue);
    }
  }

  class Engine {
    const rules: RuleList
    const fifoWaiters: WaiterList
    var monitorState: int
    var timeEpoch: Int32

    ghost predicate Valid()
      reads this, rules, rules.head, rules.cells, fifoWaiters, fifoWaiters.head, fifoWaiters.items
    {
      rules.Valid() && fifoWaiters.Valid()
    }

    constructor (rules: RuleList)
      requires rules.Valid()
      ensures Valid() && fifoWaiters.items == [] && monitorState == 1 && timeEpoch == 0 && this.rules == rules
      ensures fresh(fifoWaiters) && fresh(fifoWaiters.head)
    {
      this.rules := rules;
      fifoWaiters := new WaiterList();
      monitorState := 1;
      timeEpoch := 0;
    }

    /** The verdict of enforce_syscall_policy on a call that found the monitor on, and the
        enqueueing of a blocked one, with nothing in between. */
    method DecideAndEnqueue(call: Call) returns (waiter: Waiter?)
      requires Valid()
      modifies fifoWaiters`items, fifoWaiters.head`next, fifoWaiters.head`prev
      modifies fifoWaiters.items`next, fifoWaiters.items`prev, rules.cells`calls
      ensures Valid()
      ensures rules.View() == Charged(old(rules.View()), call)
      ensures (waiter != null) == Blocks(old(rules.View()), call)
      ensures waiter != null ==> fresh(waiter) && waiter.call == call && !waiter.granted
      ensures fifoWaiters.items == old(fifoWaiters.items) + (if waiter == null then [] else [waiter])
    {
      var blocked, maxCalls := rules.IsThrottled(call);
      waiter := null;
      if blocked {
        waiter := new Waiter(call);
        Enqueue(waiter);
      }
    }

    /** Enqueueing leaves the rules alone. */
    method Enqueue(w: Waiter)
      requires Valid() && w != fifoWaiters.head && w !in fifoWaiters.items
      modifies fifoWaiters`items, fifoWaiters.head`next, fifoWaiters.head`prev, w`next, w`prev
      modifies fifoWaiters.items`next, fifoWaiters.items`prev
      ensures Valid() && fifoWaiters.items == old(fifoWaiters.items) + [w]
      ensures rules.View() == old(rules.View())
    {
      fifoWaiters.Append(w);
    }

    /** A waiter that was interrupted takes itself out of the queue, unless it has been granted. */
    method Abandon(w: Waiter, ghost i: nat)
      requires Valid() && (!w.granted ==> i < |fifoWaiters.items| && fifoWaiters.items[i] == w)
      modifies fifoWaiters`items, fifoWaiters.head`next, fifoWaiters.head`prev
      modifies fifoWaiters.items`next, fifoWaiters.items`prev
      ensures Valid() && rules.View() == old(rules.View())
      ensures fifoWaiters.items == if w.granted then old(fifoWaiters.items) else RemoveAt(old(fifoWaiters.items), i)
    {
      if !w.granted {
        fifoWaiters.Unlink(w, i);
      }
    }

    /** The waiter asks for a token; the queue is as before. */
    method Ask(w: Waiter, ghost queue: seq<Waiter>, ghost kept: seq<Waiter>, ghost k: nat) returns (blocked: bool)
      requires rules.Valid() && fifoWaiters.WalkAt(queue, kept, k)
      modifies rules.cells`calls
      ensures rules.Valid() && fifoWaiters.WalkAt(queue, kept, k)
      ensures rules.View() == Charged(old(rules.View()), w.call)
      ensures blocked == Blocks(old(rules.View()), w.call)
    {
      var maxCalls;
      blocked, maxCalls := rules.IsThrottled(w.call);
    }

    /** The timer's scan of `queue`, whose flags were `was` and which found the rules in state v, stands
        before its k-th waiter and has kept `kept`. */
    ghost predicate ScannedTo(v: seq<RuleState>, queue: seq<Waiter>, was: seq<bool>, k: nat,
                              kept: seq<Waiter>, flags: seq<bool>)
      reads rules, rules.head, rules.cells, fifoWaiters, fifoWaiters.head, fifoWaiters.items, queue
    {
      && rules.Valid() && fifoWaiters.WalkAt(queue, kept, k)
      && ScanAt(v, queue, was, k, rules.View(), kept, flags)
      && forall j :: 0 <= j < |queue| ==> queue[j].granted == flags[j]
    }

    /** Granting leaves the rules alone. */
    method GrantWaiter(w: Waiter, tmp: Waiter, ghost queue: seq<Waiter>, ghost kept: seq<Waiter>, ghost k: nat)
      requires rules.Valid() && fifoWaiters.WalkAt(queue, kept, k)
      requires k < |queue| && w == queue[k] && tmp == fifoWaiters.At(|kept| + 1)
      modifies fifoWaiters`items, fifoWaiters.head`next, fifoWaiters.head`prev
      modifies queue`next, queue`prev, w`granted
      ensures rules.Valid() && rules.View() == old(rules.View())
      ensures fifoWaiters.WalkAt(queue, kept, k + 1) && tmp == fifoWaiters.At(|kept|)
      ensures w.granted
    {
      fifoWaiters.Grant(w, tmp, queue, kept, k);
    }

    /** One turn of the timer's loop: the next entry is read, the waiter asks for a token, and a
        granted one leaves the queue. */
    method AskAndGrant(w: Waiter, ghost queue: seq<Waiter>, ghost kept: seq<Waiter>, ghost k: nat)
      returns (tmp: Waiter, ghost blocked: bool)
      requires rules.Valid() && fifoWaiters.WalkAt(queue, kept, k) && k < |queue| && w == queue[k]
      modifies fifoWaiters`items, fifoWaiters.head`next, fifoWaiters.head`prev
      modifies queue`next, queue`prev, w`granted, rules.cells`calls
      ensures rules.Valid() && rules.View() == Charged(old(rules.View()), w.call)
      ensures blocked == Blocks(old(rules.View()), w.call)
      ensures w.granted == (old(w.granted) || !blocked)
      ensures var kept' := if blocked then kept + [w] else kept;
              fifoWaiters.WalkAt(queue, kept', k + 1) && tmp == fifoWaiters.At(|kept'|)
    {
      assert fifoWaiters.items[|kept|] == w;
      tmp := fifoWaiters.Following(w, |kept|);
      var throttled := Ask(w, queue, kept, k);
      if !throttled {
        GrantWaiter(w, tmp, queue, kept, k);
      } else {
        fifoWaiters.StaysAt(w, queue, kept, k);
      }
      blocked := throttled;
    }

    method ScanTurn(w: Waiter, ghost v: seq<RuleState>, ghost queue: seq<Waiter>, ghost was: seq<bool>,
                    ghost k: nat, ghost kept: seq<Waiter>, ghost flags: seq<bool>)
      returns (tmp: Waiter, ghost kept': seq<Waiter>, ghost flags': seq<bool>)
      requires ScannedTo(v, queue, was, k, kept, flags) && k < |queue| && w == queue[k]
      modifies fifoWaiters`items, fifoWaiters.head`next, fifoWaiters.head`prev
      modifies queue`next, queue`prev, w`granted, rules.cells`calls
      ensures ScannedTo(v, queue, was, k + 1, kept', flags') && tmp == fifoWaiters.At(|kept'|)
    {
      ScanStep(v, queue, was, k, rules.View(), kept, flags);
      ghost var blocked: bool;
      tmp, blocked := AskAndGrant(w, queue, kept, k);
      kept' := if blocked then kept + [w] else kept;
      flags' := if blocked then flags else flags[k := true];
      assert ScanAt(v, queue, was, k + 1, rules.View(), kept', flags');
      assert queue[k].granted == flags'[k];
    }

    /** The rules, the queue and its waiters, whose flags were `was`, are as the scan of `queue`
        leaves them when it finds the rules in state v. */
    ghost predicate Scanned(v: seq<RuleState>, queue: seq<Waiter>, was: seq<bool>)
      reads fifoWaiters, rules, rules.cells, queue
    {
      var calls := CallsOf(queue);
      && |was| == |queue|
      && rules.View() == Tick.AfterCharges(v, calls)
      && fifoWaiters.items == Tick.Kept(v, calls, queue)
      && forall j :: 0 <= j < |queue| ==> queue[j].granted == (was[j] || Tick.GrantedAt(v, calls, j))
    }

    lemma ScanBegins(v: seq<RuleState>, queue: seq<Waiter>, was: seq<bool>)
      requires Valid() && v == rules.View() && queue == fifoWaiters.items && was == FlagsOf(queue)
      ensures ScannedTo(v, queue, was, 0, [], was)
    {
      ScanStarts(v, queue, was);
      fifoWaiters.WalkStarts();
    }

    lemma ScanCurrent(w: Waiter, v: seq<RuleState>, queue: seq<Waiter>, was: seq<bool>, k: nat,
                      kept: seq<Waiter>, flags: seq<bool>)
      requires ScannedTo(v, queue, was, k, kept, flags) && w == fifoWaiters.At(|kept|)
      ensures w == fifoWaiters.head ==> k == |queue| && Valid() && Scanned(v, queue, was)
      ensures w != fifoWaiters.head ==> k < |queue| && w == queue[k] && w in queue
    {
      fifoWaiters.Current(w, queue, kept, k);
      if w == fifoWaiters.head {
        ScanEnds(v, queue, was, rules.View(), kept, flags);
      }
    }

    /** The timer's loop under fifo_lock: the next entry is read before the current one may be
        unlinked. */
    method ScanLoop(first: Waiter, ghost v: seq<RuleState>, ghost queue: seq<Waiter>, ghost was: seq<bool>)
      requires ScannedTo(v, queue, was, 0, [], was) && first == fifoWaiters.At(0)
      modifies fifoWaiters`items, fifoWaiters.head`next, fifoWaiters.head`prev
      modifies queue`next, queue`prev, queue`granted, rules.cells`calls
      ensures Valid() && Scanned(v, queue, was)
    {
      ghost var flags, kept, k: nat := was, [], 0;
      var w := first;
      while w != fifoWaiters.head
        invariant ScannedTo(v, queue, was, k, kept, flags) && w == fifoWaiters.At(|kept|)
        decreases |queue| - k
      {
        ScanCurrent(w, v, queue, was, k, kept, flags);
        w, kept, flags := ScanTurn(w, v, queue, was, k, kept, flags);
        k := k + 1;
      }
      ScanCurrent(w, v, queue, was, k, kept, flags);
    }

    /** The tick's share-out among the whole queue, by the rules as they are. */
    method ScanQueue()
      requires Valid()
      modifies fifoWaiters`items, fifoWaiters.head`next, fifoWaiters.head`prev
      modifies fifoWaiters.items`next, fifoWaiters.items`prev, fifoWaiters.items`granted, rules.cells`calls
      ensures Valid()
      ensures Scanned(old(rules.View()), old(fifoWaiters.items), old(FlagsOf(fifoWaiters.items)))
    {
      ghost var v, queue, was := rules.View(), fifoWaiters.items, FlagsOf(fifoWaiters.items);
      var w := fifoWaiters.First();
      ScanBegins(v, queue, was);
      ScanLoop(w, v, queue, was);
    }

    /** epoch_timer_callback, up to rearming the timer. */
    method EpochTimerCallback()
      requires Valid()
      modifies this`timeEpoch, fifoWaiters`items, fifoWaiters.head`next, fifoWaiters.head`prev
      modifies fifoWaiters.items`next, fifoWaiters.items`prev, fifoWaiters.items`granted, rules.cells`calls
      ensures Valid()
      ensures timeEpoch == AtomicIncReturn(old(timeEpoch))
      ensures Scanned(ZeroCalls(old(rules.View())), old(fifoWaiters.items), old(FlagsOf(fifoWaiters.items)))
    {
      ghost var queue, was := fifoWaiters.items, FlagsOf(fifoWaiters.items);
      rules.ResetAllCounters();
      timeEpoch := AtomicIncReturn(timeEpoch);
      ghost var zeroed := rules.View();
      assert zeroed == ZeroCalls(old(rules.View()));
      ScanQueue();
      assert Scanned(zeroed, queue, was);
    }

    /** flush_all_waiters. */
    method FlushAllWaiters()
      requires Valid()
      modifies fifoWaiters`items, fifoWaiters.head`next, fifoWaiters.head`prev
      modifies fifoWaiters.items`next, fifoWaiters.items`prev, fifoWaiters.items`granted
      ensures Valid() && fifoWaiters.items == []
      ensures forall w :: w in old(fifoWaiters.items) ==> w.granted
    {
      fifoWaiters.GrantAll();
    }

    /** set_global_monitor_state. */
    method SetGlobalMonitorState(state: int)
      requires Valid()
      modifies this`monitorState, fifoWaiters`items, fifoWaiters.head`next, fifoWaiters.head`prev
      modifies fifoWaiters.items`next, fifoWaiters.items`prev, fifoWaiters.items`granted
      ensures Valid() && monitorState == state
      ensures state == 0 ==> fifoWaiters.items == [] && forall w :: w in old(fifoWaiters.items) ==> w.granted
      ensures state != 0 ==> fifoWaiters.items == old(fifoWaiters.items)
                             && forall w :: w in old(fifoWaiters.items) ==> w.granted == old(w.granted)
    {
      monitorState := state;
      if state == 0 {
        FlushAllWaiters();
      }
    }
  }
}
