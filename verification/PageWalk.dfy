/**
 The scanner's page walk against the translation the processor performs under
 4-level paging (section 4.5 of the Intel 64 and IA-32 Architectures Software
 Developer's Manual, Volume 3A).
 */
module PageWalk {
  import opened CTypes

  const PAGE_SIZE: nat := 4096

  /** Physical memory as 64-bit words, by byte address. */
  type Physical = nat -> Word

  datatype Machine = Machine(cr3: Word, phys: Physical)

  // ----------------------------------------------- the macros of the scanner

  /** (long long)(addr) */
  function Signed(addr: Word): int {
    if addr >= 0x8000_0000_0000_0000 then addr - TWO_64 else addr
  }

  /** An arithmetic shift to the right is a division rounding down; & 0x1ff keeps nine bits. */
  function Pml4(addr: Word): nat { Signed(addr) / 0x80_0000_0000 % 512 }
  function Pdp(addr: Word): nat { Signed(addr) / 0x4000_0000 % 512 }
  function Pde(addr: Word): nat { Signed(addr) / 0x20_0000 % 512 }
  function Pte(addr: Word): nat { Signed(addr) / 0x1000 % 512 }

  /** entry & VALID */
  predicate Valid(entry: Word) { entry % 2 == 1 }

  /** entry & LH_MAPPING */
  predicate Large(entry: Word) { entry / 128 % 2 == 1 }

  /** (entry & PT_ADDRESS_MASK) >> 12: bits 12 to 62. */
  function MaskedFrame(entry: Word): Word { entry / 4096 % 0x8_0000_0000_0000 }

  /** cr3 & ADDRESS_MASK: bits 12 to 63. */
  function Root(m: Machine): nat { m.cr3 / 4096 * 4096 }

  const NO_MAP: int := -1

  function EntryAt(m: Machine, table: nat, index: nat): Word {
    m.phys(table + 8 * index)
  }

  /** sys_vtpmo. */
  function Vtpmo(m: Machine, addr: Word): int {
    var e4 := EntryAt(m, Root(m), Pml4(addr));
    if !Valid(e4) then NO_MAP else
    var e3 := EntryAt(m, MaskedFrame(e4) * 4096, Pdp(addr));
    if !Valid(e3) then NO_MAP else
    var e2 := EntryAt(m, MaskedFrame(e3) * 4096, Pde(addr));
    if !Valid(e2) then NO_MAP else
    if Large(e2) then ToInt32(MaskedFrame(e2)) else
    var e1 := EntryAt(m, MaskedFrame(e2) * 4096, Pte(addr));
    if !Valid(e1) then NO_MAP else ToInt32(MaskedFrame(e1))
  }

  /** What the scanner takes to be mapped. */
  predicate Mapped(m: Machine, addr: Word) {
    Vtpmo(m, addr) != NO_MAP
  }

  // --------------------------------------------- the processor's translation

  /** Bits hi:lo of x, the powers 2^(hi + 1) and 2^lo given. */
  function Bits(x: Word, above: nat, low: nat): nat
    requires above > 0 && low > 0
  {
    x % above / low
  }

  /** Bits 51:12 of CR3 or of a structure entry locate the next structure. */
  function Table(entry: Word): nat { Bits(entry, 0x10_0000_0000_0000, 0x1000) * 4096 }

  /** Bit 0, P, and bit 7, PS. */
  predicate Present(entry: Word) { entry % 2 == 1 }
  predicate PageSize(entry: Word) { entry / 128 % 2 == 1 }

  datatype Translation = NotPresent | Page1G(entry: Word) | Page2M(entry: Word) | Page4K(entry: Word)

  /** Bits 47:39, 38:30, 29:21 and 20:12 of the linear address select an entry at each level. */
  function Translate(m: Machine, addr: Word): Translation {
    var pml4e := m.phys(Table(m.cr3) + 8 * Bits(addr, 0x1_0000_0000_0000, 0x80_0000_0000));
    if !Present(pml4e) then NotPresent else
    var pdpte := m.phys(Table(pml4e) + 8 * Bits(addr, 0x80_0000_0000, 0x4000_0000));
    if !Present(pdpte) then NotPresent else
    if PageSize(pdpte) then Page1G(pdpte) else
    var pde := m.phys(Table(pdpte) + 8 * Bits(addr, 0x4000_0000, 0x20_0000));
    if !Present(pde) then NotPresent else
    if PageSize(pde) then Page2M(pde) else
    var pte := m.phys(Table(pde) + 8 * Bits(addr, 0x20_0000, 0x1000));
    if !Present(pte) then NotPresent else Page4K(pte)
  }

  /** The bits above 51, which the scanner's masks let through, are clear. */
  predicate Tidy(entry: Word) { entry / 0x10_0000_0000_0000 % 0x800 == 0 }

  /** CR3 is tidy, and so is every entry that the walk to `addr` follows as a pointer: a missing
      entry ends the walk, and so does one that maps a 2 MB page. */
  predicate TidyWalk(m: Machine, addr: Word) {
    && m.cr3 < 0x10_0000_0000_0000
    && var e4 := EntryAt(m, Root(m), Pml4(addr));
    Valid(e4) ==>
      && Tidy(e4)
      && var e3 := EntryAt(m, Table(e4), Pdp(addr));
      Valid(e3) ==>
        && Tidy(e3)
        && var e2 := EntryAt(m, Table(e3), Pde(addr));
        Valid(e2) && !Large(e2) ==> Tidy(e2)
  }

  /** The signed shift and mask of each macro select the processor's bits. */
  lemma MacrosSelectBits(addr: Word)
    ensures Pml4(addr) == Bits(addr, 0x1_0000_0000_0000, 0x80_0000_0000)
    ensures Pdp(addr) == Bits(addr, 0x80_0000_0000, 0x4000_0000)
    ensures Pde(addr) == Bits(addr, 0x4000_0000, 0x20_0000)
    ensures Pte(addr) == Bits(addr, 0x20_0000, 0x1000)
  {
    SignedShift(addr);
    SliceOfShift(addr, 0x80_0000_0000);
    SliceOfShift(addr, 0x4000_0000);
    SliceOfShift(addr, 0x20_0000);
    SliceOfShift(addr, 0x1000);
  }

  lemma DivModUnique(x: int, d: int, q: int, r: int)
    requires d > 0 && x == q * d + r && 0 <= r < d
    ensures x / d == q && x % d == r
  {
    var q', r' := x / d, x % d;
    assert (q - q') * d == r' - r;
    if q - q' >= 1 {
      ProductsOrdered(1, q - q', d);
    } else if q - q' <= -1 {
      ProductsOrdered(q - q', -1, d);
    }
  }

  lemma Regroup(x: int, low: int, q: int, r: int, a: int, b: int)
    requires low > 0 && x == q * low + r && 0 <= r < low && q == 512 * a + b && 0 <= b < 512
    ensures x == a * (512 * low) + (b * low + r) && 0 <= b * low + r < 512 * low
  {
    assert q * low == 512 * a * low + b * low;
    assert b * low <= 511 * low;
  }

  /** Shifting and masking nine bits, or masking and then shifting. */
  lemma SliceOfShift(x: int, low: int)
    requires low > 0
    ensures x / low % 512 == x % (512 * low) / low
  {
    var q, r := x / low, x % low;
    var a, b := q / 512, q % 512;
    Regroup(x, low, q, r, a, b);
    DivModUnique(x, 512 * low, a, b * low + r);
    DivModUnique(b * low + r, low, b, r);
  }

  /** The sign extension of a shift does not reach the nine bits. */
  lemma SignedSlice(addr: Word, low: int, k: int)
    requires low > 0 && 512 * k * low == TWO_64
    ensures Signed(addr) / low % 512 == addr / low % 512
  {
    var q, r := addr / low, addr % low;
    var q' := q - 512 * k;
    assert q' * low == q * low - 512 * k * low;
    DivModUnique(addr - TWO_64, low, q', r);
    DivModUnique(q', 512, q / 512 - k, q % 512);
  }

  lemma SignedShift(addr: Word)
    ensures Pml4(addr) == addr / 0x80_0000_0000 % 512
    ensures Pdp(addr) == addr / 0x4000_0000 % 512
    ensures Pde(addr) == addr / 0x20_0000 % 512
    ensures Pte(addr) == addr / 0x1000 % 512
  {
    SignedSlice(addr, 0x80_0000_0000, 0x1_0000);
    SignedSlice(addr, 0x4000_0000, 0x200_0000);
    SignedSlice(addr, 0x20_0000, 0x4_0000_0000);
    SignedSlice(addr, 0x1000, 0x800_0000_0000);
  }

  /** In a tidy entry the scanner's mask and the processor's agree. */
  lemma TidyFrame(entry: Word)
    requires Tidy(entry)
    ensures MaskedFrame(entry) * 4096 == Table(entry)
  {
  }

  /** The frame number the scanner reports for the page, before the cast. */
  function ReportedFrame(t: Translation): Word
    requires t.Page2M? || t.Page4K?
  {
    MaskedFrame(t.entry)
  }

  /** The cast turns exactly one frame number in 2^32 into NO_MAP. */
  lemma CastIsNoMap(frame: Word)
    ensures ToInt32(frame) == NO_MAP <==> frame % 0x1_0000_0000 == 0xffff_ffff
  {
  }

  /** Page-walk agreement: outside 1 GB pages the scanner takes an address to be mapped if and
      only if it is present and its frame number does not truncate to -1. */
  lemma WalkAgrees(m: Machine, addr: Word)
    requires TidyWalk(m, addr) && !Translate(m, addr).Page1G?
    ensures Mapped(m, addr) <==>
            && !Translate(m, addr).NotPresent?
            && ReportedFrame(Translate(m, addr)) % 0x1_0000_0000 != 0xffff_ffff
  {
    MacrosSelectBits(addr);
    assert Root(m) == Table(m.cr3);
    var e4 := EntryAt(m, Root(m), Pml4(addr));
    if Valid(e4) {
      TidyFrame(e4);
      var e3 := EntryAt(m, Table(e4), Pdp(addr));
      if Valid(e3) {
        TidyFrame(e3);
        var e2 := EntryAt(m, Table(e3), Pde(addr));
        if Valid(e2) && !Large(e2) {
          TidyFrame(e2);
        }
      }
    }
    var t := Translate(m, addr);
    if !t.NotPresent? {
      CastIsNoMap(ReportedFrame(t));
    }
  }

  /** Inside a 1 GB page the walk goes on into the page's own contents: there is a machine on
      which a present address is reported unmapped. */
  lemma LargestPagesEscape() returns (m: Machine, addr: Word)
    ensures TidyWalk(m, addr) && Translate(m, addr).Page1G? && !Mapped(m, addr)
  {
    // PML4 at 4096, its first entry points to 8192, whose first entry maps 1 GB at address 0.
    var entry: Word, large: Word := 8192 + 1, 128 + 1;
    m := TwoEntries(entry, large);
    addr := 0;
    FirstEntries();
    LargeFrame(entry, large);
    TwoEntriesRest(entry, large);
    EscapesInto(m, entry, large);
  }

  /** Address 0 selects the first entry at every level. */
  lemma FirstEntries()
    ensures Pml4(0) == Pdp(0) == Pde(0) == Pte(0) == 0
    ensures Bits(0, 0x1_0000_0000_0000, 0x80_0000_0000) == Bits(0, 0x80_0000_0000, 0x4000_0000) == 0
    ensures Bits(0, 0x4000_0000, 0x20_0000) == Bits(0, 0x20_0000, 0x1000) == 0
  {
  }

  lemma EscapesInto(m: Machine, entry: Word, large: Word)
    requires m.cr3 == 4096 && m.phys(4096) == entry && m.phys(8192) == large && m.phys(0) == 0
    requires Table(entry) == MaskedFrame(entry) * 4096 == 8192 && Table(large) == MaskedFrame(large) * 4096 == 0
    requires Tidy(entry) && Tidy(large) && Present(entry) && Present(large) && PageSize(large)
    ensures TidyWalk(m, 0) && Translate(m, 0).Page1G? && !Mapped(m, 0)
  {
    FirstEntries();
    assert Root(m) == Table(m.cr3) == 4096;
  }

  lemma LargeFrame(entry: Word, large: Word)
    requires entry == 8192 + 1 && large == 128 + 1
    ensures Table(entry) == MaskedFrame(entry) * 4096 == 8192
    ensures Table(large) == MaskedFrame(large) * 4096 == 0
    ensures Tidy(entry) && Tidy(large) && Present(entry) && Present(large) && PageSize(large)
  {
  }

  /** The bits above 51 are not part of a frame number, but the scanner's mask lets them through:
      there is a machine on which setting one of them hides a present page. */
  lemma UntidyEntriesEscape() returns (m: Machine, addr: Word)
    ensures Translate(m, addr).Page4K? && !Mapped(m, addr)
    ensures forall p :: p != Root(m) + 8 * Pml4(addr) ==> Tidy(m.phys(p))
  {
    // PML4 at 4096; its first entry points to 8192 and has bit 52 set. Every other entry of the
    // walk points to 8192 again.
    var untidy: Word, entry: Word := 0x10_0000_0000_0000 + 8192 + 1, 8192 + 1;
    m := TwoEntries(untidy, entry);
    addr := 0;
    FirstEntries();
    HiddenFrame(untidy, entry);
    TwoEntriesRest(untidy, entry);
    HidesPage(m, untidy, entry);
  }

  /** CR3 is 4096; the words at 4096 and 8192 are given and all others are zero. */
  function TwoEntries(first: Word, second: Word): (m: Machine)
    ensures m.cr3 == 4096 && Root(m) == 4096
    ensures m.phys(4096) == first && m.phys(8192) == second
  {
    Machine(4096, p => if p == 4096 then first else if p == 8192 then second else 0)
  }

  lemma TwoEntriesRest(first: Word, second: Word)
    requires Tidy(second)
    ensures forall p :: p != 4096 ==> Tidy(TwoEntries(first, second).phys(p))
    ensures forall p :: p != 4096 && p != 8192 ==> TwoEntries(first, second).phys(p) == 0
  {
    assert Tidy(0);
  }

  lemma HidesPage(m: Machine, untidy: Word, entry: Word)
    requires m.cr3 == 4096 && m.phys(4096) == untidy && m.phys(8192) == entry
    requires Table(untidy) == Table(entry) == 8192 && m.phys(MaskedFrame(untidy) * 4096) == 0
    requires !PageSize(entry) && Present(entry) && Present(untidy)
    ensures Translate(m, 0).Page4K? && !Mapped(m, 0)
  {
    FirstEntries();
    assert Root(m) == Table(m.cr3) == 4096;
  }

  lemma HiddenFrame(untidy: Word, entry: Word)
    requires untidy == 0x10_0000_0000_0000 + 8192 + 1 && entry == 8192 + 1
    ensures Table(untidy) == Table(entry) == 8192
    ensures MaskedFrame(untidy) * 4096 == 0x10_0000_0000_0000 + 8192
    ensures Tidy(entry) && !PageSize(entry) && Present(entry) && Present(untidy)
  {
  }

  /** The answer is the same all over a 4 KB page. */
  lemma ConstantOverPage(m: Machine, a: Word, b: Word)
    requires a / PAGE_SIZE == b / PAGE_SIZE
    ensures Vtpmo(m, a) == Vtpmo(m, b)
  {
    IndicesOfPage(a);
    IndicesOfPage(b);
  }

  /** The four indices depend on the page number only. */
  lemma IndicesOfPage(addr: Word)
    ensures Pte(addr) == addr / 4096 % 512
    ensures Pde(addr) == addr / 4096 / 512 % 512
    ensures Pdp(addr) == addr / 4096 / 0x4_0000 % 512
    ensures Pml4(addr) == addr / 4096 / 0x800_0000 % 512
  {
    SignedShift(addr);
    DivDiv(addr, 512);
    DivDiv(addr, 0x4_0000);
    DivDiv(addr, 0x800_0000);
  }

  lemma DivDiv(x: nat, d: nat)
    requires d > 0
    ensures x / (4096 * d) == x / 4096 / d
  {
    var p, r := x / 4096, x % 4096;
    var q, t := p / d, p % d;
    assert x == q * (4096 * d) + (4096 * t + r) by {
      assert p == q * d + t;
      assert 4096 * p == q * (4096 * d) + 4096 * t;
    }
    DivModUnique(x, 4096 * d, q, 4096 * t + r);
  }
}
