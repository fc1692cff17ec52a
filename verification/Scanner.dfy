/**
 The brute-force search for the system call table: page by page over the upper
 end of the address space, reading only what the page walk reports as mapped.
 */
module Scanner {
  import opened CTypes
  import opened PageWalk

  const START: Word := 0xffff_ffff_0000_0000
  const MAX_ADDR: Word := 0xffff_ffff_fff0_0000
  const WORD_SIZE: nat := 8

  const FIRST_NI: nat := 134
  const SECOND_NI: nat := 174
  const THIRD_NI: nat := 182
  const FOURTH_NI: nat := 183
  const FIFTH_NI: nat := 214
  const SIXTH_NI: nat := 215
  const SEVENTH_NI: nat := 236

  /** Stable memory: the page tables, and the word at each virtual address. */
  datatype Memory = Memory(machine: Machine, word: Word -> Word)

  /** A table that starts here does not run past the end of the address space. */
  predicate Fits(a: int) {
    0 <= a && a + WORD_SIZE * SEVENTH_NI < TWO_64
  }

  /** Entry k of a table at address a. */
  function Entry(mem: Memory, a: int, k: nat): Word
    requires Fits(a) && k <= SEVENTH_NI
  {
    mem.word(a + WORD_SIZE * k)
  }

  /** The seven entries of unimplemented calls hold one and the same plausible pointer. */
  predicate Signature(mem: Memory, a: int)
    requires Fits(a)
  {
    var p := Entry(mem, a, FIRST_NI);
    && p % 4 == 0
    && p != 0
    && p > 0xffff_ffff_0000_0000
    && p == Entry(mem, a, SECOND_NI) == Entry(mem, a, THIRD_NI) == Entry(mem, a, FOURTH_NI)
    && p == Entry(mem, a, FIFTH_NI) == Entry(mem, a, SIXTH_NI) == Entry(mem, a, SEVENTH_NI)
  }

  /** No entry from 1 to 133 holds the pointer of entry 134. */
  predicate GoodArea(mem: Memory, a: int)
    requires Fits(a)
  {
    forall k :: 1 <= k < FIRST_NI ==> Entry(mem, a, k) != Entry(mem, a, FIRST_NI)
  }

  /** The last entry the scanner reads is on a mapped page, and so is the first. */
  predicate Readable(mem: Memory, a: int)
    requires Fits(a)
  {
    Mapped(mem.machine, a) && Mapped(mem.machine, a + WORD_SIZE * SEVENTH_NI)
  }

  /** What the scanner looks for. */
  predicate Candidate(mem: Memory, a: int) {
    && START <= a < MAX_ADDR
    && a % WORD_SIZE == 0
    && Readable(mem, a)
    && Signature(mem, a)
    && GoodArea(mem, a)
  }

  /** A table, address by address: it starts at an aligned address of the searched range, its first
      and its last word are mapped, entries 134, 174, 182, 183, 214, 215 and 236 hold one pointer to
      the upper end of memory, a multiple of 4, and entries 1 to 133 hold others. */
  predicate IsTable(mem: Memory, a: int) {
    && 0xffff_ffff_0000_0000 <= a < 0xffff_ffff_fff0_0000 && a % 8 == 0
    && Mapped(mem.machine, a) && Mapped(mem.machine, a + 1888)
    && var p := mem.word(a + 1072);
    && p > 0xffff_ffff_0000_0000 && p % 4 == 0
    && mem.word(a + 1392) == mem.word(a + 1456) == mem.word(a + 1464) == p
    && mem.word(a + 1712) == mem.word(a + 1720) == mem.word(a + 1888) == p
    && forall k :: 1 <= k <= 133 ==> mem.word(a + 8 * k) != p
  }

  lemma EntryAt(mem: Memory, a: int, k: nat)
    requires Fits(a) && k <= 236
    ensures Entry(mem, a, k) == mem.word(a + 8 * k)
  {
  }

  lemma SignatureAt(mem: Memory, a: int)
    requires Fits(a)
    ensures Signature(mem, a) <==>
              && mem.word(a + 1072) > 0xffff_ffff_0000_0000 && mem.word(a + 1072) % 4 == 0
              && mem.word(a + 1392) == mem.word(a + 1456) == mem.word(a + 1464) == mem.word(a + 1072)
              && mem.word(a + 1712) == mem.word(a + 1720) == mem.word(a + 1888) == mem.word(a + 1072)
  {
  }

  lemma GoodAreaAt(mem: Memory, a: int)
    requires Fits(a)
    ensures GoodArea(mem, a) <==> forall k :: 1 <= k <= 133 ==> mem.word(a + 8 * k) != mem.word(a + 1072)
  {
    EntryAt(mem, a, 134);
    if GoodArea(mem, a) {
      forall k | 1 <= k <= 133 ensures mem.word(a + 8 * k) != mem.word(a + 1072) {
        EntryAt(mem, a, k);
        assert Entry(mem, a, k) != Entry(mem, a, 134);
      }
    } else {
      var k :| 1 <= k < FIRST_NI && Entry(mem, a, k) == Entry(mem, a, FIRST_NI);
      EntryAt(mem, a, k);
    }
  }

  lemma CandidateIsTable(mem: Memory, a: int)
    ensures Candidate(mem, a) <==> IsTable(mem, a)
  {
    if START <= a < MAX_ADDR {
      SignatureAt(mem, a);
      GoodAreaAt(mem, a);
    }
  }

  predicate PageStart(a: int) {
    START <= a < MAX_ADDR && a % PAGE_SIZE == 0
  }

  /** Every word of a table whose first and last words are mapped is mapped: the table spans
      at most two pages. */
  lemma WholeTableMapped(mem: Memory, a: int, k: nat)
    requires Fits(a) && Readable(mem, a) && k <= SEVENTH_NI
    ensures Mapped(mem.machine, a + WORD_SIZE * k)
  {
    var last, here := a + WORD_SIZE * SEVENTH_NI, a + WORD_SIZE * k;
    if here / PAGE_SIZE == a / PAGE_SIZE {
      ConstantOverPage(mem.machine, here, a);
    } else {
      assert here / PAGE_SIZE == last / PAGE_SIZE;
      ConstantOverPage(mem.machine, here, last);
    }
  }

  /** A read from virtual memory; the page must be mapped. */
  method Read(mem: Memory, a: Word) returns (w: Word)
    requires Mapped(mem.machine, a)
    ensures w == mem.word(a)
  {
    w := mem.word(a);
  }

  method ReadEntry(mem: Memory, a: Word, k: nat) returns (w: Word)
    requires Fits(a) && Readable(mem, a) && k <= SEVENTH_NI
    ensures w == Entry(mem, a, k)
  {
    WholeTableMapped(mem, a, k);
    var at: Word := a + WORD_SIZE * k;
    w := Read(mem, at);
  }

  /** good_area. */
  method IsGoodArea(mem: Memory, a: Word) returns (good: bool)
    requires Fits(a) && Readable(mem, a)
    ensures good == GoodArea(mem, a)
    ensures good <==> forall k :: 1 <= k <= 133 ==> mem.word(a + 8 * k) != mem.word(a + 1072)
  {
    GoodAreaAt(mem, a);
    var i := 1;
    while i < FIRST_NI
      invariant 1 <= i <= FIRST_NI
      invariant forall k :: 1 <= k < i ==> Entry(mem, a, k) != Entry(mem, a, FIRST_NI)
    {
      var here := ReadEntry(mem, a, i);
      var first := ReadEntry(mem, a, FIRST_NI);
      if here == first {
        return false;
      }
      i := i + 1;
    }
    good := true;
  }

  /** The comparisons of validate_page, left to right, each after the one before it held. */
  method HasSignature(mem: Memory, a: Word) returns (found: bool)
    requires Fits(a) && Readable(mem, a)
    ensures found == Signature(mem, a)
    ensures found <==>
              && mem.word(a + 1072) > 0xffff_ffff_0000_0000 && mem.word(a + 1072) % 4 == 0
              && mem.word(a + 1392) == mem.word(a + 1456) == mem.word(a + 1464) == mem.word(a + 1072)
              && mem.word(a + 1712) == mem.word(a + 1720) == mem.word(a + 1888) == mem.word(a + 1072)
  {
    SignatureAt(mem, a);
    var p := ReadEntry(mem, a, FIRST_NI);
    if p % 4 != 0 || p == 0 || p <= 0xffff_ffff_0000_0000 {
      return false;
    }
    var other := ReadEntry(mem, a, SECOND_NI);
    if p != other { return false; }
    other := ReadEntry(mem, a, THIRD_NI);
    if p != other { return false; }
    other := ReadEntry(mem, a, FOURTH_NI);
    if p != other { return false; }
    other := ReadEntry(mem, a, FIFTH_NI);
    if p != other { return false; }
    other := ReadEntry(mem, a, SIXTH_NI);
    if p != other { return false; }
    other := ReadEntry(mem, a, SEVENTH_NI);
    found := p == other;
  }

  /** Once the table would spill onto an unmapped page, so would every later one of the page. */
  lemma BreakLosesNothing(mem: Memory, page: int, i: nat, a: int)
    requires PageStart(page) && i < PAGE_SIZE && page + i <= a < page + PAGE_SIZE
    requires var last := page + i + WORD_SIZE * SEVENTH_NI;
             last / PAGE_SIZE * PAGE_SIZE == page + PAGE_SIZE && !Mapped(mem.machine, last)
    ensures !Candidate(mem, a)
  {
    var last := page + i + WORD_SIZE * SEVENTH_NI;
    var far := a + WORD_SIZE * SEVENTH_NI;
    assert far / PAGE_SIZE == last / PAGE_SIZE by {
      LaterAlsoSpills(page, i + WORD_SIZE * SEVENTH_NI, a - page + WORD_SIZE * SEVENTH_NI);
    }
    assert !Mapped(mem.machine, far) by { ConstantOverPage(mem.machine, far, last); }
  }

  /** Once a word spills onto the next page, a later one of the same page does. */
  lemma LaterAlsoSpills(page: int, offset: nat, later: nat)
    requires PageStart(page) && offset <= later < 2 * PAGE_SIZE
    requires (page + offset) / PAGE_SIZE * PAGE_SIZE == page + PAGE_SIZE
    ensures (page + later) / PAGE_SIZE == (page + offset) / PAGE_SIZE
  {
    PageOfOffset(page, offset);
    PageOfOffset(page, later);
  }

  /** Which page an offset from a page start falls on. */
  lemma PageOfOffset(page: int, offset: nat)
    requires PageStart(page) && offset < 2 * PAGE_SIZE
    ensures (page + offset) / PAGE_SIZE == page / PAGE_SIZE + (if offset < PAGE_SIZE then 0 else 1)
    ensures page == page / PAGE_SIZE * PAGE_SIZE
  {
    var q := page / PAGE_SIZE;
    if offset < PAGE_SIZE {
      DivModUnique(page + offset, PAGE_SIZE, q, offset);
    } else {
      DivModUnique(page + offset, PAGE_SIZE, q + 1, offset - PAGE_SIZE);
    }
  }

  /** While the scanner goes on, the table it is about to read is on mapped pages. */
  lemma GuardMakesReadable(mem: Memory, page: int, i: nat)
    requires PageStart(page) && i < PAGE_SIZE && Mapped(mem.machine, page)
    requires var last := page + i + WORD_SIZE * SEVENTH_NI;
             last / PAGE_SIZE * PAGE_SIZE == page + PAGE_SIZE ==> Mapped(mem.machine, last)
    ensures Fits(page + i) && Readable(mem, page + i)
  {
    var last := page + i + WORD_SIZE * SEVENTH_NI;
    PageOfOffset(page, i);
    PageOfOffset(page, i + WORD_SIZE * SEVENTH_NI);
    ConstantOverPage(mem.machine, page + i, page);
    if i + WORD_SIZE * SEVENTH_NI < PAGE_SIZE {
      ConstantOverPage(mem.machine, last, page);
    }
  }

  ghost predicate NoneIn(mem: Memory, lo: int, hi: int) {
    forall a :: lo <= a < hi ==> !Candidate(mem, a)
  }

  lemma AlignedOnce(x: int, a: int)
    requires x % WORD_SIZE == 0 && a % WORD_SIZE == 0 && x <= a < x + WORD_SIZE
    ensures a == x
  {
  }

  /** Between two aligned addresses there is no candidate. */
  lemma OnlyAligned(mem: Memory, x: int)
    requires x % WORD_SIZE == 0 && !Candidate(mem, x)
    ensures NoneIn(mem, x, x + WORD_SIZE)
  {
    forall a | x <= a < x + WORD_SIZE ensures !Candidate(mem, a) {
      if a % WORD_SIZE == 0 {
        AlignedOnce(x, a);
      }
    }
  }

  lemma NoneJoin(mem: Memory, lo: int, mid: int, hi: int)
    requires NoneIn(mem, lo, mid) && NoneIn(mem, mid, hi)
    ensures NoneIn(mem, lo, hi)
  {
  }

  /** The heuristics on one address whose table is on mapped pages. */
  method IsCandidate(mem: Memory, addr: Word) returns (ok: bool)
    requires START <= addr < MAX_ADDR && addr % WORD_SIZE == 0 && Readable(mem, addr)
    ensures ok == Candidate(mem, addr)
  {
    ok := HasSignature(mem, addr);
    if ok {
      ok := IsGoodArea(mem, addr);
    }
  }

  /** The table at this offset would end on the next page, and that page is not mapped. */
  method SpillsOver(mem: Memory, page: Word, i: nat) returns (spills: bool)
    requires PageStart(page) && i < PAGE_SIZE && Mapped(mem.machine, page)
    ensures spills ==> NoneIn(mem, page + i, page + PAGE_SIZE)
    ensures !spills ==> Readable(mem, page + i)
  {
    var newPage: Word := page + i + WORD_SIZE * SEVENTH_NI;
    spills := newPage / PAGE_SIZE * PAGE_SIZE == page + PAGE_SIZE && Vtpmo(mem.machine, newPage) == NO_MAP;
    if spills {
      forall a | page + i <= a < page + PAGE_SIZE ensures !Candidate(mem, a) {
        BreakLosesNothing(mem, page, i, a);
      }
    } else {
      GuardMakesReadable(mem, page, i);
    }
  }

  /** The j-th word of a page is aligned and within the searched range. */
  lemma WordOfPage(page: int, j: nat)
    requires PageStart(page) && j < 512
    ensures (page + 8 * j) % WORD_SIZE == 0 && page + 8 * j < MAX_ADDR
  {
    PageRoom(page);
    var q := page / PAGE_SIZE;
    assert page == 8 * (512 * q);
    Multiple(8, 512 * q + j);
  }

  lemma Multiple(d: nat, n: int)
    requires d > 0
    ensures d * n % d == 0
  {
    DivModUnique(d * n, d, n, 0);
  }

  /** The last page searched ends where the range does. */
  lemma PageRoom(page: int)
    requires PageStart(page)
    ensures page + PAGE_SIZE <= MAX_ADDR && page == page / PAGE_SIZE * PAGE_SIZE
  {
    assert MAX_ADDR == 0xf_ffff_ffff_ff00 * PAGE_SIZE;
  }

  /** One turn of the loop of validate_page, on the j-th word of the page. */
  method TryWord(mem: Memory, page: Word, i: nat, ghost j: nat) returns (done: bool, found: Word)
    requires PageStart(page) && Mapped(mem.machine, page) && i == 8 * j && j < 512
    ensures done && found == 0 ==> NoneIn(mem, page + i, page + PAGE_SIZE)
    ensures done && found != 0 ==> found == page + i && Candidate(mem, found)
    ensures !done ==> NoneIn(mem, page + i, page + i + WORD_SIZE)
  {
    WordOfPage(page, j);
    var spills := SpillsOver(mem, page, i);
    if spills {
      return true, 0;
    }
    var addr: Word := page + i;
    var ok := IsCandidate(mem, addr);
    if ok {
      return true, addr;
    }
    OnlyAligned(mem, addr);
    return false, 0;
  }

  /** validate_page: the first candidate of the page, or 0. */
  method ValidatePage(mem: Memory, page: Word) returns (found: Word)
    requires PageStart(page) && Mapped(mem.machine, page)
    ensures found == 0 ==> NoneIn(mem, page, page + PAGE_SIZE)
    ensures found != 0 ==> page <= found < page + PAGE_SIZE && Candidate(mem, found) && NoneIn(mem, page, found)
  {
    var i: nat := 0;
    ghost var j: nat := 0;
    while i < PAGE_SIZE
      invariant i == 8 * j && j <= 512
      invariant NoneIn(mem, page, page + i)
    {
      var done, at := TryWord(mem, page, i, j);
      if done {
        if at == 0 {
          NoneJoin(mem, page, page + i, page + PAGE_SIZE);
        }
        return at;
      }
      NoneJoin(mem, page, page + i, page + i + WORD_SIZE);
      i := i + WORD_SIZE;
      j := j + 1;
    }
    found := 0;
  }

  /** On an unmapped page there is no candidate. */
  lemma UnmappedPage(mem: Memory, page: int, a: int)
    requires PageStart(page) && page <= a < page + PAGE_SIZE && !Mapped(mem.machine, page)
    ensures !Candidate(mem, a)
  {
    PageOfOffset(page, a - page);
    ConstantOverPage(mem.machine, a, page);
  }

  lemma NextPage(page: int)
    requires PageStart(page)
    ensures (page + PAGE_SIZE) % PAGE_SIZE == 0
  {
    Multiple(PAGE_SIZE, page / PAGE_SIZE + 1);
  }

  /** The lowest candidate is the lowest table. */
  lemma FirstIsLowest(mem: Memory, found: Word)
    requires if found == 0 then NoneIn(mem, START, MAX_ADDR) else Candidate(mem, found) && NoneIn(mem, START, found)
    ensures found != 0 ==> IsTable(mem, found)
    ensures forall a :: IsTable(mem, a) ==> found != 0 && found <= a
  {
    forall a | IsTable(mem, a) ensures found != 0 && found <= a {
      CandidateIsTable(mem, a);
    }
    CandidateIsTable(mem, found);
  }

  /** scan_for_syscall_table: the lowest table, or 0 if and only if there is none. No address
      computed on the way wraps, and every read is of a mapped page. */
  method ScanForSyscallTable(mem: Memory) returns (table: Word)
    ensures table != 0 ==> IsTable(mem, table)
    ensures forall a :: IsTable(mem, a) ==> table != 0 && table <= a
  {
    var k: Word := START;
    while k < MAX_ADDR
      invariant START <= k <= MAX_ADDR && k % PAGE_SIZE == 0
      invariant NoneIn(mem, START, k)
    {
      if Vtpmo(mem.machine, k) != NO_MAP {
        var found := ValidatePage(mem, k);
        if found != 0 {
          NoneJoin(mem, START, k, found);
          FirstIsLowest(mem, found);
          return found;
        }
      } else {
        forall a | k <= a < k + PAGE_SIZE ensures !Candidate(mem, a) {
          UnmappedPage(mem, k, a);
        }
      }
      NoneJoin(mem, START, k, k + PAGE_SIZE);
      PageRoom(k);
      NextPage(k);
      k := k + PAGE_SIZE;
    }
    FirstIsLowest(mem, 0);
    table := 0;
  }
}
