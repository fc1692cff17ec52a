/**
 What every run of the RCU rule list keeps: no step touches freed memory, and a
 reader that finishes has seen every rule that stayed in the list throughout.
 */
module RcuSafety {
  import opened CTypes
  import opened Rules
  import opened RcuRegistry

  /** Same cells, same pointers, same history; counters, readers and the clock may differ. */
  ghost predicate SameShape(s: State, s': State) {
    && s'.mem.Keys == s.mem.Keys
    && (forall p :: p in s.mem ==>
          && s'.mem[p].next == s.mem[p].next
          && s'.mem[p].prev == s.mem[p].prev
          && s'.mem[p].Head? == s.mem[p].Head?
          && (s.mem[p].Entry? ==> s'.mem[p].rule == s.mem[p].rule))
    && s'.linked == s.linked
    && s'.rules == s.rules
    && s'.born == s.born
    && s'.dead == s.dead
    && s'.freed == s.freed
    && s'.last == s.last
  }

  ghost predicate Structure(s: State) {
    Cells(s) && Chained(s) && StaleCells(s)
  }

  lemma SameShapeKeeps(s: State, s': State)
    requires Structure(s) && SameShape(s, s') && forall p :: p in s'.waits ==> p in s'.dead
    ensures Structure(s')
  {
    assert Cells(s');
    assert Chained(s');
    forall p | p in s'.dead && p in s'.mem ensures Stale(s', p) {
      assert Stale(s, p);
    }
  }

  // ------------------------------------------------------------ publication

  lemma PublishCells(s: State, rule: Rule)
    requires Cells(s) && Chained(s)
    ensures Cells(DoPublish(s, rule))
    ensures Prev(s, HEAD) == CellBefore(s.linked, |s.linked|)
    ensures DoPublish(s, rule).fault == s.fault
  {
    TailIsLast(s);
    PublishMemory(s, rule);
  }

  /** Publication adds one cell and changes pointers only. */
  lemma PublishMemory(s: State, rule: Rule)
    requires HEAD in s.mem && s.mem[HEAD].Head? && Prev(s, HEAD) in s.mem && s.last + 1 !in s.mem
    ensures var m, n := DoPublish(s, rule).mem, s.last + 1;
            && m.Keys == s.mem.Keys + {n}
            && m[n].Entry? && m[n].rule == rule
            && forall p :: p in s.mem ==> m[p].Head? == s.mem[p].Head? && (m[p].Entry? ==> m[p].rule == s.mem[p].rule)
  {
  }

  lemma TailIsLast(s: State)
    requires Cells(s) && Chained(s)
    ensures Prev(s, HEAD) == CellBefore(s.linked, |s.linked|) && Prev(s, HEAD) in s.mem
  {
    assert CellAt(s.linked, |s.linked|) == HEAD;
  }

  lemma PublishNexts(s: State, rule: Rule)
    requires Cells(s) && Chained(s)
    ensures var tail := CellBefore(s.linked, |s.linked|); var n := s.last + 1; var m := DoPublish(s, rule).mem;
            && n !in s.mem
            && m.Keys == s.mem.Keys + {n}
            && (forall p :: p in m ==> m[p].next == if p == tail then n else if p == n then HEAD else s.mem[p].next)
  {
    PublishCells(s, rule);
  }

  lemma PublishPrevs(s: State, rule: Rule)
    requires Cells(s) && Chained(s)
    ensures var tail := CellBefore(s.linked, |s.linked|); var n := s.last + 1; var m := DoPublish(s, rule).mem;
            && n !in s.mem
            && m.Keys == s.mem.Keys + {n}
            && (forall p :: p in m ==> m[p].prev == if p == HEAD then n else if p == n then tail else s.mem[p].prev)
  {
    PublishCells(s, rule);
  }

  lemma PublishChainedAt(s: State, rule: Rule, i: nat)
    requires Cells(s) && Chained(s) && i <= |s.linked| + 1
    ensures var s' := DoPublish(s, rule); Next(s', CellBefore(s'.linked, i)) == CellAt(s'.linked, i)
    ensures var s' := DoPublish(s, rule); Prev(s', CellAt(s'.linked, i)) == CellBefore(s'.linked, i)
  {
    PublishNextAt(s, rule, i);
    PublishPrevAt(s, rule, i);
  }

  lemma PublishNextAt(s: State, rule: Rule, i: nat)
    requires Cells(s) && Chained(s) && i <= |s.linked| + 1
    ensures var s' := DoPublish(s, rule); Next(s', CellBefore(s'.linked, i)) == CellAt(s'.linked, i)
  {
    PublishNexts(s, rule);
    if i < |s.linked| {
      var a, b := CellBefore(s.linked, i), CellAt(s.linked, i);
      assert Next(s, a) == b && Prev(s, b) == a;
      assert a != CellBefore(s.linked, |s.linked|);
    }
  }

  lemma PublishPrevAt(s: State, rule: Rule, i: nat)
    requires Cells(s) && Chained(s) && i <= |s.linked| + 1
    ensures var s' := DoPublish(s, rule); Prev(s', CellAt(s'.linked, i)) == CellBefore(s'.linked, i)
  {
    PublishPrevs(s, rule);
    var k, list := |s.linked|, DoPublish(s, rule).linked;
    if i < k {
      var p := s.linked[i];
      assert p in s.linked && p == CellAt(s.linked, i) == CellAt(list, i);
      assert Prev(s, p) == CellBefore(s.linked, i) == CellBefore(list, i);
    } else if i == k {
      assert CellAt(list, i) == s.last + 1;
      assert CellBefore(list, i) == CellBefore(s.linked, k);
    } else {
      assert CellAt(list, i) == HEAD && CellBefore(list, i) == s.last + 1;
      assert HEAD in s.mem;
    }
  }

  lemma PublishChained(s: State, rule: Rule)
    requires Cells(s) && Chained(s)
    ensures Chained(DoPublish(s, rule))
  {
    var s' := DoPublish(s, rule);
    forall j | 0 <= j < |s.linked| ensures s'.linked[j] < s.last + 1 {
      assert s.linked[j] in s.linked;
    }
    forall i | 0 <= i <= |s'.linked|
      ensures Next(s', CellBefore(s'.linked, i)) == CellAt(s'.linked, i)
      ensures Prev(s', CellAt(s'.linked, i)) == CellBefore(s'.linked, i)
    {
      PublishChainedAt(s, rule, i);
    }
  }

  lemma PublishStale(s: State, rule: Rule)
    requires Structure(s) && Timed(s)
    ensures StaleCells(DoPublish(s, rule))
  {
    var s' := DoPublish(s, rule);
    PublishCells(s, rule);
    forall p | p in s'.dead && p in s'.mem ensures Stale(s', p) {
      assert Stale(s, p);
      assert Next(s', p) == Next(s, p);
    }
  }

  // --------------------------------------------------------------- unlinking

  /** What splicing a linked cell out does to each pointer. */
  lemma SplicePointers(s: State, i: nat)
    requires Cells(s) && Chained(s) && i < |s.linked|
    ensures var n := s.linked[i]; var m := Spliced(s, n);
            && !SpliceFaults(s, n)
            && Prev(s, n) == CellBefore(s.linked, i)
            && Next(s, n) == CellAt(s.linked, i + 1)
            && m.Keys == s.mem.Keys
            && (forall p :: p in m ==>
                  && m[p].next == (if p == CellBefore(s.linked, i) then CellAt(s.linked, i + 1) else s.mem[p].next)
                  && (p != n ==>
                        m[p].prev == if p == CellAt(s.linked, i + 1) then CellBefore(s.linked, i) else s.mem[p].prev)
                  && m[p].Head? == s.mem[p].Head?
                  && (s.mem[p].Entry? ==> m[p].rule == s.mem[p].rule))
  {
    assert CellAt(s.linked, i) == s.linked[i] == CellBefore(s.linked, i + 1);
  }

  lemma WithoutMembers(list: seq<Ptr>, i: nat)
    requires i < |list| && Increasing(list)
    ensures Increasing(RemoveAt(list, i))
    ensures forall p :: p in RemoveAt(list, i) <==> p in list && p != list[i]
  {
    var w := RemoveAt(list, i);
    forall p | p in list && p != list[i] ensures p in w {
      var j :| 0 <= j < |list| && list[j] == p;
      assert w[if j < i then j else j - 1] == p;
    }
  }

  lemma UnlinkCells(s: State, i: nat)
    requires Cells(s) && Chained(s) && i < |s.linked|
    ensures Cells(DoUnlink(s, i))
    ensures DoUnlink(s, i).fault == s.fault
  {
    SplicePointers(s, i);
    WithoutMembers(s.linked, i);
  }

  /** No cell stands at two places. */
  lemma CellsDiffer(s: State, i: nat, j: nat)
    requires Cells(s) && Increasing(s.linked) && i <= |s.linked| && j <= |s.linked| && i != j
    ensures CellBefore(s.linked, i) != CellBefore(s.linked, j)
    ensures CellAt(s.linked, i) != CellAt(s.linked, j)
  {
    forall k | 0 <= k < |s.linked| ensures s.linked[k] > HEAD {
      assert s.linked[k] in s.linked && s.linked[k] in s.rules;
    }
  }

  /** Where place k of the shorter list was before. */
  lemma PlaceBefore(list: seq<Ptr>, i: nat, k: nat) returns (j: nat)
    requires i < |list| && k < |list| && k != i
    ensures j == if k < i then k else k + 1
    ensures CellBefore(RemoveAt(list, i), k) == CellBefore(list, j)
    ensures CellAt(RemoveAt(list, i), k) == CellAt(list, j)
    ensures j != i && j != i + 1
  {
    j := if k < i then k else k + 1;
  }

  lemma UnlinkNextAt(s: State, i: nat, k: nat)
    requires Cells(s) && Chained(s) && i < |s.linked| && k < |s.linked|
    ensures var s' := DoUnlink(s, i); Next(s', CellBefore(s'.linked, k)) == CellAt(s'.linked, k)
  {
    SplicePointers(s, i);
    if k == i {
      assert CellAt(RemoveAt(s.linked, i), k) == CellAt(s.linked, i + 1);
      assert CellBefore(RemoveAt(s.linked, i), k) == CellBefore(s.linked, i);
    } else {
      var j := PlaceBefore(s.linked, i, k);
      CellsDiffer(s, j, i);
      assert Next(s, CellBefore(s.linked, j)) == CellAt(s.linked, j);
    }
  }

  lemma UnlinkPrevAt(s: State, i: nat, k: nat)
    requires Cells(s) && Chained(s) && i < |s.linked| && k < |s.linked|
    ensures var s' := DoUnlink(s, i); Prev(s', CellAt(s'.linked, k)) == CellBefore(s'.linked, k)
  {
    SplicePointers(s, i);
    CellsDiffer(s, i, i + 1);
    if k == i {
      assert CellAt(RemoveAt(s.linked, i), k) == CellAt(s.linked, i + 1);
      assert CellBefore(RemoveAt(s.linked, i), k) == CellBefore(s.linked, i);
    } else {
      var j := PlaceBefore(s.linked, i, k);
      CellsDiffer(s, j, i);
      CellsDiffer(s, j, i + 1);
      assert Prev(s, CellAt(s.linked, j)) == CellBefore(s.linked, j);
    }
  }

  lemma UnlinkChained(s: State, i: nat)
    requires Cells(s) && Chained(s) && i < |s.linked|
    ensures Chained(DoUnlink(s, i))
  {
    var s' := DoUnlink(s, i);
    WithoutMembers(s.linked, i);
    forall k | 0 <= k <= |s'.linked|
      ensures Next(s', CellBefore(s'.linked, k)) == CellAt(s'.linked, k)
      ensures Prev(s', CellAt(s'.linked, k)) == CellBefore(s'.linked, k)
    {
      UnlinkNextAt(s, i, k);
      UnlinkPrevAt(s, i, k);
    }
  }

  lemma UnlinkStale(s: State, i: nat)
    requires Structure(s) && Timed(s) && i < |s.linked|
    ensures StaleCells(DoUnlink(s, i))
  {
    var s' := DoUnlink(s, i);
    SplicePointers(s, i);
    WithoutMembers(s.linked, i);
    forall p | p in s'.dead && p in s'.mem ensures Stale(s', p) {
      if p == s.linked[i] {
        assert CellBefore(s.linked, i + 1) == p;
        var q := CellAt(s.linked, i + 1);
        assert Next(s', p) == q;
        forall n | n in s'.linked && p < n ensures q != HEAD && q <= n {
          var k :| 0 <= k < |s.linked| && s.linked[k] == n;
        }
      } else {
        assert Stale(s, p);
        assert Next(s', p) == Next(s, p);
      }
    }
  }

  // ----------------------------------------------------------------- freeing

  lemma FreeStructure(s: State, n: Ptr)
    requires Structure(s) && n in s.dead && n !in s.freed
    ensures Structure(DoFree(s, n)) && DoFree(s, n).fault == s.fault
  {
    var s' := DoFree(s, n);
    assert Cells(s');
    assert Chained(s') by {
      forall i | 0 <= i <= |s.linked|
        ensures CellBefore(s.linked, i) in s'.mem && CellAt(s.linked, i) in s'.mem
      {
      }
    }
    forall p | p in s'.dead && p in s'.mem ensures Stale(s', p) {
      assert Stale(s, p);
    }
  }

  // ------------------------------------------------- readers across a writer

  /** A section keeps its hold while a writer publishes, unlinks or frees. */
  lemma WriterKeepsReaders(s: State, s': State)
    requires Inv(s) && s'.readers == s.readers
    requires s'.clock == s.clock + 1
    requires s'.rules.Keys >= s.rules.Keys && forall p :: p in s.rules ==> s'.rules[p] == s.rules[p]
    requires s'.born.Keys >= s.born.Keys && forall p :: p in s.born ==> s'.born[p] == s.born[p]
    requires s'.dead.Keys >= s.dead.Keys && forall p :: p in s.dead ==> s'.dead[p] == s.dead[p]
    requires forall p :: p in s.linked && p !in s'.linked ==> p in s'.dead && s'.dead[p] == s.clock
    requires forall p :: p in s'.linked && p !in s.linked ==> p > s.last && p in s'.born && s'.born[p] == s.clock
    requires forall f :: f in s'.freed && f !in s.freed ==>
               f in s'.dead && forall t :: t in s.readers ==> s'.dead[f] < s.readers[t].start
    ensures ReadersHold(s') && Visits(s')
  {
    forall t | t in s'.readers ensures ReaderHolds(s', s'.readers[t]) && VisitsOf(s', s'.readers[t]) {
      assert ReaderHolds(s, s.readers[t]) && VisitsOf(s, s.readers[t]);
    }
  }

  // ----------------------------------------------------------- reader moves

  /** Following a pointer from a held cell leads to a held cell. */
  lemma NextIsHeld(s: State, p: Ptr, since: nat)
    requires Structure(s) && p in s.mem && SeenSince(s, p, since)
    ensures Next(s, p) == HEAD || Next(s, p) > p
    ensures SeenSince(s, Next(s, p), since)
    ensures Next(s, p) != HEAD ==> forall n :: n in s.linked && p < n ==> Next(s, p) <= n
    ensures Next(s, p) == HEAD ==>
              forall n :: n in s.linked && n in s.born && p < n ==> s.born[n] > since
  {
    if p in s.dead && p != HEAD {
      assert Stale(s, p);
    } else {
      var i: nat :| i <= |s.linked| && CellBefore(s.linked, i) == p by {
        if p == HEAD {
          assert CellBefore(s.linked, 0) == p;
        } else {
          var j :| 0 <= j < |s.linked| && s.linked[j] == p;
          assert CellBefore(s.linked, j + 1) == p;
        }
      }
      assert Next(s, p) == CellAt(s.linked, i);
    }
  }

  /** What a section holds and has visited depends on the list's history only. */
  lemma ReaderUnaffected(s: State, s': State, r: Reader)
    requires ReaderHolds(s, r) && VisitsOf(s, r)
    requires s'.linked == s.linked && s'.rules == s.rules && s'.born == s.born
    requires s'.dead == s.dead && s'.freed == s.freed
    ensures ReaderHolds(s', r) && VisitsOf(s', r)
  {
  }

  lemma OtherReadersKeep(s: State, s': State, tid: Tid)
    requires ReadersHold(s) && Visits(s)
    requires s'.linked == s.linked && s'.rules == s.rules && s'.born == s.born
    requires s'.dead == s.dead && s'.freed == s.freed
    requires tid in s'.readers && s'.readers == s.readers[tid := s'.readers[tid]]
    requires ReaderHolds(s, s'.readers[tid]) && VisitsOf(s, s'.readers[tid])
    ensures ReadersHold(s') && Visits(s')
  {
    forall t | t in s'.readers ensures ReaderHolds(s', s'.readers[t]) && VisitsOf(s', s'.readers[t]) {
      assert t == tid || (t in s.readers && s'.readers[t] == s.readers[t]);
      ReaderUnaffected(s, s', s'.readers[t]);
    }
  }

  /** A move of one reader that leaves the list's shape alone. */
  lemma ReaderMoveKeeps(s: State, s': State, tid: Tid)
    requires Structure(s) && Timed(s) && ReadersHold(s) && Visits(s) && SameShape(s, s') && !s'.fault
    requires s'.waits == s.waits && s'.clock == s.clock + 1
    requires tid in s.readers && tid in s'.readers && s'.readers == s.readers[tid := s'.readers[tid]]
    requires s'.readers[tid].start == s.readers[tid].start
    requires ReaderHolds(s, s'.readers[tid]) && VisitsOf(s, s'.readers[tid])
    ensures Inv(s')
  {
    assert Structure(s') by { SameShapeKeeps(s, s'); }
    assert ReadersHold(s') && Visits(s') by { OtherReadersKeep(s, s', tid); }
    assert Timed(s') by { ReaderMoveTimes(s, s', tid); }
  }

  lemma ReaderMoveTimes(s: State, s': State, tid: Tid)
    requires Timed(s) && SameShape(s, s') && s'.waits == s.waits && s'.clock == s.clock + 1
    requires tid in s.readers && tid in s'.readers && s'.readers == s.readers[tid := s'.readers[tid]]
    requires s'.readers[tid].start == s.readers[tid].start
    ensures Timed(s')
  {
    forall t | t in s'.readers ensures s'.readers[t].start < s'.clock {
      assert t in s.readers;
    }
  }

  lemma FollowNextReader(s: State, tid: Tid)
    requires Structure(s) && Enabled(s, FollowNext(tid)) && s.readers[tid].phase.from in s.mem
    requires ReaderHolds(s, s.readers[tid]) && VisitsOf(s, s.readers[tid])
    ensures var r' := DoFollowNext(s, tid).readers[tid]; ReaderHolds(s, r') && VisitsOf(s, r')
  {
    NextIsHeld(s, s.readers[tid].phase.from, s.readers[tid].start);
  }

  lemma FollowNextKeeps(s: State, tid: Tid)
    requires Inv(s) && Enabled(s, FollowNext(tid))
    ensures Inv(DoFollowNext(s, tid))
  {
    CursorAllocated(s, tid);
    FollowNextReader(s, tid);
    ReaderMoveKeeps(s, DoFollowNext(s, tid), tid);
  }

  /** Examining the cursor adds it, in order, to the visited rules. */
  lemma ExamineVisits(s: State, r: Reader, r': Reader)
    requires Cells(s) && VisitsOf(s, r) && r.phase.Look? && r.phase.at in s.rules
    requires r'.visited == r.visited + [r.phase.at] && r'.walk == r.walk && r'.start == r.start
    requires || (r'.phase == Load(r.phase.at) && (r.walk.Charge? ==> !Matches(s.rules[r.phase.at], r.walk.call)))
             || (r'.phase.Finished? && r'.phase.hit == r.phase.at && r.walk.Charge?
                 && Matches(s.rules[r.phase.at], r.walk.call))
    ensures VisitsOf(s, r')
  {
    var p := r.phase.at;
    assert forall v :: v in r'.visited <==> v in r.visited || v == p;
    assert Increasing(r'.visited) by {
      assert forall i :: 0 <= i < |r.visited| ==> r.visited[i] in r.visited;
    }
  }

  lemma SetCountShape(s: State, p: Ptr, c: Int32)
    ensures SameShape(s, s.(mem := SetCount(s.mem, p, c)))
  {
  }

  lemma ExamineShape(s: State, tid: Tid)
    requires Enabled(s, Examine(tid)) && s.readers[tid].phase.at in s.mem && s.mem[s.readers[tid].phase.at].Entry?
    ensures var s' := DoExamine(s, tid);
            && SameShape(s, s') && s'.fault == s.fault && s'.waits == s.waits && s'.clock == s.clock + 1
            && s'.readers == s.readers[tid := s'.readers[tid]]
            && Cursor(s'.readers[tid]) == Cursor(s.readers[tid]) && !s'.readers[tid].phase.Look?
            && s'.readers[tid].start == s.readers[tid].start
  {
    var r := s.readers[tid];
    var p := r.phase.at;
    SetCountShape(s, p, CountExamined(r.walk, s.mem[p].rule, s.mem[p].count));
  }

  lemma ExamineKeeps(s: State, tid: Tid)
    requires Inv(s) && Enabled(s, Examine(tid))
    ensures Inv(DoExamine(s, tid))
  {
    var s' := DoExamine(s, tid);
    var r := s.readers[tid];
    assert r.phase.at in s.mem && s.mem[r.phase.at].Entry? by {
      CursorAllocated(s, tid);
      assert ReaderHolds(s, r);
    }
    ExamineShape(s, tid);
    assert VisitsOf(s, s'.readers[tid]) by {
      assert VisitsOf(s, r);
      ExamineVisits(s, r, s'.readers[tid]);
    }
    assert ReaderHolds(s, s'.readers[tid]) by {
      assert ReaderHolds(s, r);
    }
    ReaderMoveKeeps(s, s', tid);
  }

  // -------------------------------------------------------------- all steps

  lemma PublishKeeps(s: State, rule: Rule)
    requires Inv(s)
    ensures Inv(DoPublish(s, rule))
  {
    PublishCells(s, rule);
    PublishChained(s, rule);
    PublishStale(s, rule);
    PublishKeepsReaders(s, rule);
  }

  lemma PublishKeepsReaders(s: State, rule: Rule)
    requires Inv(s)
    ensures ReadersHold(DoPublish(s, rule)) && Visits(DoPublish(s, rule))
  {
    WriterKeepsReaders(s, DoPublish(s, rule));
  }

  lemma UnlinkTimed(s: State, i: nat)
    requires Cells(s) && Timed(s) && i < |s.linked|
    ensures Timed(DoUnlink(s, i))
  {
    assert s.linked[i] in s.linked;
  }

  lemma UnlinkKeeps(s: State, i: nat)
    requires Inv(s) && i < |s.linked|
    ensures Inv(DoUnlink(s, i))
  {
    UnlinkCells(s, i);
    UnlinkChained(s, i);
    UnlinkStale(s, i);
    UnlinkTimed(s, i);
    UnlinkKeepsReaders(s, i);
  }

  lemma UnlinkKeepsReaders(s: State, i: nat)
    requires Inv(s) && i < |s.linked|
    ensures ReadersHold(DoUnlink(s, i)) && Visits(DoUnlink(s, i))
  {
    WithoutMembers(s.linked, i);
    assert s.linked[i] in s.linked;
    WriterKeepsReaders(s, DoUnlink(s, i));
  }

  lemma FreeKeeps(s: State, n: Ptr)
    requires Inv(s) && Enabled(s, Free(n))
    ensures Inv(DoFree(s, n))
  {
    assert n in s.dead && s.dead[n] < s.waits[n];
    FreeStructure(s, n);
    WriterKeepsReaders(s, DoFree(s, n));
  }

  lemma ReclaimIsUnlinkFree(s: State)
    requires Cells(s) && |s.linked| > 0
    ensures DoReclaim(s) == DoFree(DoUnlink(s, 0), s.linked[0]).(clock := s.clock + 1)
  {
    assert RemoveAt(s.linked, 0) == s.linked[1..];
    assert s.linked[0] in s.linked;
  }

  /** Freeing without a grace period is sound when no section is open. */
  lemma ReclaimKeeps(s: State)
    requires Inv(s) && |s.linked| > 0 && s.readers == map[]
    ensures Inv(DoReclaim(s))
  {
    var s' := DoReclaim(s);
    assert Structure(s') && !s'.fault by {
      UnlinkCells(s, 0);
      UnlinkChained(s, 0);
      UnlinkStale(s, 0);
      ReclaimIsUnlinkFree(s);
      FreeStructure(DoUnlink(s, 0), s.linked[0]);
      SameShapeKeeps(DoFree(DoUnlink(s, 0), s.linked[0]), s');
    }
    assert s.linked[0] in s.linked;
  }

  /** One step of the list machine. */
  lemma StepKeeps(s: State, a: Action)
    requires Inv(s) && Enabled(s, a)
    requires a.Reclaim? ==> s.readers == map[]
    ensures Inv(Apply(s, a))
  {
    match a
    case Publish(rule) => PublishKeeps(s, rule);
    case Unlink(_, index) => UnlinkKeeps(s, index);
    case Free(node) => FreeKeeps(s, node);
    case FollowNext(tid) => FollowNextKeeps(s, tid);
    case Examine(tid) => ExamineKeeps(s, tid);
    case Reclaim => ReclaimKeeps(s);
    case _ => QuietStepKeeps(s, a);
  }

  /** A step that changes neither the shape nor the memory of any section. */
  lemma QuietStepKeeps(s: State, a: Action)
    requires Inv(s) && Enabled(s, a)
    requires a.Synchronize? || a.StatsTouch? || a.StatsMiss? || a.Begin? || a.End?
    ensures Inv(Apply(s, a))
  {
    QuietStepShape(s, a);
    QuietStepReaders(s, a);
    QuietStepTimes(s, a);
  }

  lemma QuietStepTimes(s: State, a: Action)
    requires Timed(s) && Enabled(s, a)
    requires a.Synchronize? || a.StatsTouch? || a.StatsMiss? || a.Begin? || a.End?
    ensures Timed(Apply(s, a))
  {
  }

  lemma QuietStepShape(s: State, a: Action)
    requires Structure(s) && !s.fault && Enabled(s, a)
    requires a.Synchronize? || a.StatsTouch? || a.StatsMiss? || a.Begin? || a.End?
    ensures Structure(Apply(s, a)) && !Apply(s, a).fault
  {
    if a.StatsTouch? {
      SetCountShape(s, s.linked[a.index], 0);
      assert forall j :: 0 <= j < |s.linked| ==> s.linked[j] in s.linked && s.linked[j] in s.mem;
    }
    SameShapeKeeps(s, Apply(s, a));
  }

  lemma QuietStepReaders(s: State, a: Action)
    requires Cells(s) && Timed(s) && ReadersHold(s) && Visits(s) && Enabled(s, a)
    requires a.Synchronize? || a.StatsTouch? || a.StatsMiss? || a.Begin? || a.End?
    ensures ReadersHold(Apply(s, a)) && Visits(Apply(s, a))
  {
    var s' := Apply(s, a);
    if a.Begin? {
      OtherReadersKeep(s, s', a.tid);
    } else {
      forall t | t in s'.readers ensures ReaderHolds(s', s'.readers[t]) && VisitsOf(s', s'.readers[t]) {
        assert t in s.readers && s'.readers[t] == s.readers[t];
        ReaderUnaffected(s, s', s.readers[t]);
      }
    }
  }
}
