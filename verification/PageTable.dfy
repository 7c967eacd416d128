/**
 The four-level page table and the bit flips at its leaves (section 4.5 of Intel
 SDM Volume 3A; libs/page_table_libs).

 An entry is the set of its bits that are 1.  A table is named by its frame, the
 bits 12 to 62 of the entries that point to it.  1 GiB mappings are not told apart
 from tables, as in the source.
 */
module PageTable {
  type Entry = set<nat>
  type Frame = set<nat>

  const VALID: nat := 0
  const WRITE_BIT: nat := 1
  const LARGE: nat := 7
  const ORIG_WRITE_BIT: nat := 57
  const PAGE: nat := 4096
  const SLOT: nat := 549755813888

  // entry & PT_ADDRESS_MASK
  function FrameOf(e: Entry): Frame { set b | b in e && 12 <= b <= 62 }

  /** Bits 12 to 62 of an entry are the address of a frame; no other bit matters to it. */
  lemma FrameExactly(e: Entry, e': Entry)
    ensures FrameOf(e) == FrameOf(e') <==> forall b | 12 <= b <= 62 :: b in e <==> b in e'
  {
    if FrameOf(e) == FrameOf(e') {
      forall b | 12 <= b <= 62 ensures b in e <==> b in e' {
        assert b in FrameOf(e) <==> b in FrameOf(e');
      }
    }
  }

  // PTE, PDE, PDP and PML4 of an address: the index at levels 1 to 4.
  function Unit(level: nat): (u: nat)
    ensures u > 0
  {
    match level
    case 1 => 4096
    case 2 => 2097152
    case 3 => 1073741824
    case _ => SLOT
  }

  function Index(level: nat, addr: nat): (i: nat)
    ensures i < 512
  {
    addr / Unit(level) % 512
  }

  datatype Space = Space(mem: map<Frame, seq<Entry>>, root: Frame)

  predicate Tables(s: Space) { forall f | f in s.mem :: |s.mem[f]| == 512 }

  // Where the walk for an address ends: at the entry of a 4 KiB page or of a 2 MiB one.
  datatype Leaf = NoLeaf | Leaf(table: Frame, index: nat, large: bool)

  predicate IsLeaf(level: nat, e: Entry) { level <= 1 || (level == 2 && LARGE in e) }

  function WalkFrom(s: Space, f: Frame, level: nat, addr: nat): (l: Leaf)
    requires Tables(s)
    ensures l.Leaf? ==> l.table in s.mem && l.index < 512 && VALID in s.mem[l.table][l.index]
    decreases level
  {
    if f !in s.mem then NoLeaf
    else
      var e := s.mem[f][Index(level, addr)];
      if VALID !in e then NoLeaf
      else if IsLeaf(level, e) then Leaf(f, Index(level, addr), level == 2)
      else WalkFrom(s, FrameOf(e), level - 1, addr)
  }

  function Walk(s: Space, addr: nat): (l: Leaf)
    requires Tables(s)
    ensures l.Leaf? ==> l.table in s.mem && l.index < 512 && VALID in s.mem[l.table][l.index]
  {
    WalkFrom(s, s.root, 4, addr)
  }

  function EntryAt(s: Space, l: Leaf): Entry
    requires Tables(s) && l.Leaf? && l.table in s.mem && l.index < 512
  {
    s.mem[l.table][l.index]
  }

  function With(s: Space, f: Frame, i: nat, e: Entry): (s': Space)
    requires Tables(s) && f in s.mem && i < 512
    ensures Tables(s') && s'.mem.Keys == s.mem.Keys
    ensures forall g, j | g in s.mem && 0 <= j < 512 :: s'.mem[g][j] == if g == f && j == i then e else s.mem[g][j]
  {
    s.(mem := s.mem[f := s.mem[f][i := e]])
  }

  // set_bit and clear_bit
  function Flip(e: Entry, b: nat, on: bool): Entry { if on then e + {b} else e - {b} }

  // ---------------------------------------------------------------- levels

  // Every table has one level, the root the fourth; entries point one level down.
  ghost predicate Leveled(s: Space, level: map<Frame, nat>) {
    && Tables(s) && level.Keys == s.mem.Keys
    && s.root in s.mem && level[s.root] == 4
    && (forall f | f in s.mem :: 1 <= level[f] <= 4)
    && forall f, i | f in s.mem && 0 <= i < 512 && VALID in s.mem[f][i] && !IsLeaf(level[f], s.mem[f][i]) ::
         FrameOf(s.mem[f][i]) in s.mem && level[FrameOf(s.mem[f][i])] == level[f] - 1
  }

  // The entry i of table f points to table h.
  ghost predicate Points(s: Space, level: map<Frame, nat>, f: Frame, i: nat, h: Frame)
    requires Leveled(s, level)
  {
    f in s.mem && i < 512 && VALID in s.mem[f][i] && !IsLeaf(level[f], s.mem[f][i]) && FrameOf(s.mem[f][i]) == h
  }

  /** No table is pointed to twice. */
  ghost predicate TreeShaped(s: Space, level: map<Frame, nat>)
    requires Leveled(s, level)
  {
    forall f, i, g, j, h :: Points(s, level, f, i, h) && Points(s, level, g, j, h) ==> f == g && i == j
  }

  // The leaf of a walk stands in a table of the walk's own level or a lower one.
  lemma LeafLevel(s: Space, level: map<Frame, nat>, f: Frame, addr: nat)
    requires Leveled(s, level) && f in s.mem
    ensures var l := WalkFrom(s, f, level[f], addr);
      l.Leaf? ==>
        (level[l.table] <= level[f] && IsLeaf(level[l.table], EntryAt(s, l)) && l.index == Index(level[l.table], addr)
         && l.large == (level[l.table] == 2))
    ensures var l := WalkFrom(s, f, level[f], addr);
      l.Leaf? && level[l.table] == level[f] ==> l.table == f
    decreases level[f]
  {
    var e := s.mem[f][Index(level[f], addr)];
    if VALID in e && !IsLeaf(level[f], e) {
      LeafLevel(s, level, FrameOf(e), addr);
    }
  }

  // ---------------------------------------------------------------- flips at a leaf

  // A flip that leaves the entry a leaf: it neither invalidates it nor turns a 2 MiB
  // mapping into a pointer.
  predicate Harmless(level: nat, b: nat, on: bool) {
    on || (b != VALID && (b != LARGE || level == 1))
  }

  lemma FlipKeepsLeaf(level: nat, e: Entry, b: nat, on: bool)
    requires level >= 1 && VALID in e && IsLeaf(level, e)
    ensures VALID in Flip(e, b, on) && IsLeaf(level, Flip(e, b, on)) <==> Harmless(level, b, on)
  {
  }

  lemma {:induction false} WalkAfterFlip(s: Space, level: map<Frame, nat>, l: Leaf, e: Entry, f: Frame, addr: nat)
    requires Leveled(s, level) && f in s.mem
    requires l.Leaf? && l.table in s.mem && l.index < 512
    requires VALID in EntryAt(s, l) && IsLeaf(level[l.table], EntryAt(s, l))
    requires VALID in e && IsLeaf(level[l.table], e)
    ensures WalkFrom(With(s, l.table, l.index, e), f, level[f], addr) == WalkFrom(s, f, level[f], addr)
    decreases level[f]
  {
    var i := Index(level[f], addr);
    var old_e := s.mem[f][i];
    if VALID in old_e && !IsLeaf(level[f], old_e) {
      assert !(f == l.table && i == l.index);
      WalkAfterFlip(s, level, l, e, FrameOf(old_e), addr);
    }
  }

  /** flip_bit_on_other and is_bit_set_on_other agree: the bit reads back as it was
      set, no other bit of any entry changes, and every address stays mapped as it was. */
  lemma FlipReadsBack(s: Space, level: map<Frame, nat>, addr: nat, b: nat, on: bool)
    requires Leveled(s, level) && Walk(s, addr).Leaf?
    requires Harmless(level[Walk(s, addr).table], b, on)
    ensures var l := Walk(s, addr);
      var s' := With(s, l.table, l.index, Flip(EntryAt(s, l), b, on));
      && Leveled(s', level)
      && (forall a: nat :: Walk(s', a) == Walk(s, a))
      && (b in EntryAt(s', l) <==> on)
      && (forall c | c != b :: c in EntryAt(s', l) <==> c in EntryAt(s, l))
      && forall a: nat | Walk(s, a).Leaf? && Walk(s, a) != l :: EntryAt(s', Walk(s, a)) == EntryAt(s, Walk(s, a))
  {
    var l := Walk(s, addr);
    LeafLevel(s, level, s.root, addr);
    var e := Flip(EntryAt(s, l), b, on);
    FlipKeepsLeaf(level[l.table], EntryAt(s, l), b, on);
    forall a: nat ensures Walk(With(s, l.table, l.index, e), a) == Walk(s, a) {
      WalkAfterFlip(s, level, l, e, s.root, a);
    }
  }

  /** The exact condition for an address to stay mapped where it was. */
  lemma MappingKeptExactly(s: Space, level: map<Frame, nat>, addr: nat, b: nat, on: bool)
    requires Leveled(s, level) && Walk(s, addr).Leaf?
    ensures var l := Walk(s, addr);
      var s' := With(s, l.table, l.index, Flip(EntryAt(s, l), b, on));
      Walk(s', addr) == l <==> Harmless(level[l.table], b, on)
  {
    var l := Walk(s, addr);
    LeafLevel(s, level, s.root, addr);
    var e := Flip(EntryAt(s, l), b, on);
    FlipKeepsLeaf(level[l.table], EntryAt(s, l), b, on);
    if Harmless(level[l.table], b, on) {
      WalkAfterFlip(s, level, l, e, s.root, addr);
    } else {
      SpoiltLeafIsLost(s, level, l, e, s.root, addr);
    }
  }

  lemma {:induction false} SpoiltLeafIsLost(s: Space, level: map<Frame, nat>, l: Leaf, e: Entry, f: Frame, addr: nat)
    requires Leveled(s, level) && f in s.mem && WalkFrom(s, f, level[f], addr) == l && l.Leaf?
    requires !(VALID in e && IsLeaf(level[l.table], e))
    ensures WalkFrom(With(s, l.table, l.index, e), f, level[f], addr) != l
    decreases level[f]
  {
    LeafLevel(s, level, f, addr);
    var s' := With(s, l.table, l.index, e);
    if f != l.table {
      SpoiltLeafIsLost(s, level, l, e, FrameOf(s.mem[f][Index(level[f], addr)]), addr);
    }
  }

  // ---------------------------------------------------------------- addresses that share a leaf

  // The 48-bit number of the 4 KiB page, or of the 2 MiB page, of an address.
  function PageNumber(large: bool, addr: nat): nat {
    if large then addr / 2097152 % 134217728 else addr / 4096 % 68719476736
  }

  predicate SameIndices(low: nat, a: nat, b: nat) {
    forall k | low <= k <= 4 :: Index(k, a) == Index(k, b)
  }

  lemma PageNumberIsIndices(a: nat, b: nat)
    ensures SameIndices(1, a, b) <==> PageNumber(false, a) == PageNumber(false, b)
    ensures SameIndices(2, a, b) <==> PageNumber(true, a) == PageNumber(true, b)
  {
    forall x: nat
      ensures PageNumber(true, x) == (Index(4, x) * 512 + Index(3, x)) * 512 + Index(2, x)
      ensures PageNumber(false, x) == PageNumber(true, x) * 512 + Index(1, x)
    {
      Digits(x);
    }
    assert SameIndices(2, a, b)
      <==> Index(2, a) == Index(2, b) && Index(3, a) == Index(3, b) && Index(4, a) == Index(4, b);
    assert SameIndices(1, a, b) <==> SameIndices(2, a, b) && Index(1, a) == Index(1, b);
  }

  lemma Digits(x: nat)
    ensures PageNumber(true, x) == (Index(4, x) * 512 + Index(3, x)) * 512 + Index(2, x)
    ensures PageNumber(false, x) == PageNumber(true, x) * 512 + Index(1, x)
  {
    Shifts(x);
    var x1 := x / 4096;
    var x2 := x1 / 512;
    var x3 := x2 / 512;
    var x4 := x3 / 512;
    var d1, d2, d3, d4 := x1 % 512, x2 % 512, x3 % 512, x4 % 512;
    var top := x4 / 512;
    assert x2 == top * 134217728 + ((d4 * 512 + d3) * 512 + d2);
    TopDigits(x2, top, (d4 * 512 + d3) * 512 + d2);
    assert x1 == top * 68719476736 + (((d4 * 512 + d3) * 512 + d2) * 512 + d1);
    TopDigits4(x1, top, ((d4 * 512 + d3) * 512 + d2) * 512 + d1);
  }

  lemma TopDigits(x: nat, q: nat, r: nat)
    requires x == q * 134217728 + r && r < 134217728
    ensures x % 134217728 == r
  {
  }

  lemma TopDigits4(x: nat, q: nat, r: nat)
    requires x == q * 68719476736 + r && r < 68719476736
    ensures x % 68719476736 == r
  {
  }

  // x / Unit(k) in terms of x / 4096.
  lemma Shifts(x: nat)
    ensures var y := x / 4096;
      x / 2097152 == y / 512 && x / 1073741824 == y / 512 / 512 && x / SLOT == y / 512 / 512 / 512
  {
    var y := x / 4096;
    assert x / 2097152 == y / 512;
    assert x / 1073741824 == x / 2097152 / 512;
    assert x / SLOT == x / 1073741824 / 512;
  }

  lemma {:induction false} PathsMeet(s: Space, level: map<Frame, nat>, f: Frame, g: Frame, a: nat, b: nat)
    requires Leveled(s, level) && TreeShaped(s, level) && f in s.mem && g in s.mem && level[f] == level[g]
    requires WalkFrom(s, f, level[f], a) == WalkFrom(s, g, level[g], b) && WalkFrom(s, f, level[f], a).Leaf?
    ensures var l := WalkFrom(s, f, level[f], a);
      f == g && forall k | level[l.table] <= k <= level[f] :: Index(k, a) == Index(k, b)
    decreases level[f]
  {
    LeafLevel(s, level, f, a);
    LeafLevel(s, level, g, b);
    var ea, eb := s.mem[f][Index(level[f], a)], s.mem[g][Index(level[f], b)];
    if !IsLeaf(level[f], ea) {
      LeafLevel(s, level, FrameOf(ea), a);
      assert !IsLeaf(level[g], eb);
      PathsMeet(s, level, FrameOf(ea), FrameOf(eb), a, b);
      assert Points(s, level, f, Index(level[f], a), FrameOf(ea));
      assert Points(s, level, g, Index(level[f], b), FrameOf(ea));
    }
  }

  lemma {:induction false} PathsPart(s: Space, level: map<Frame, nat>, f: Frame, a: nat, b: nat)
    requires Leveled(s, level) && f in s.mem && WalkFrom(s, f, level[f], a).Leaf?
    requires forall k | level[WalkFrom(s, f, level[f], a).table] <= k <= level[f] :: Index(k, a) == Index(k, b)
    ensures WalkFrom(s, f, level[f], a) == WalkFrom(s, f, level[f], b)
    decreases level[f]
  {
    LeafLevel(s, level, f, a);
    var e := s.mem[f][Index(level[f], a)];
    if !IsLeaf(level[f], e) {
      PathsPart(s, level, FrameOf(e), a, b);
    }
  }

  /** On a tree-shaped table a flip is seen by exactly the addresses of the same
      4 KiB page, or of the same 2 MiB page of a large mapping. */
  lemma LeafIsOnePage(s: Space, level: map<Frame, nat>, a: nat, b: nat)
    requires Leveled(s, level) && TreeShaped(s, level) && Walk(s, a).Leaf?
    ensures Walk(s, b) == Walk(s, a) <==> PageNumber(Walk(s, a).large, a) == PageNumber(Walk(s, a).large, b)
  {
    var l := Walk(s, a);
    LeafLevel(s, level, s.root, a);
    PageNumberIsIndices(a, b);
    if Walk(s, b) == l {
      PathsMeet(s, level, s.root, s.root, a, b);
    } else if SameIndices(level[l.table], a, b) {
      PathsPart(s, level, s.root, a, b);
    }
    assert level[l.table] == if l.large then 2 else 1;
  }

  // ---------------------------------------------------------------- map_user_address

  const USER_SLOTS: nat := 255

  // A slot below 255 that already points to the same table, else one that is free,
  // else slot 255.
  predicate SharesTable(table: seq<Entry>, i: nat, k: nat)
    requires |table| == 512 && i < 512 && k < 512
  {
    VALID in table[i] && FrameOf(table[i]) == FrameOf(table[k])
  }

  ghost predicate FreeSlot(table: seq<Entry>, k: nat, i: nat)
    requires |table| == 512 && k < 512
  {
    if exists j: nat :: j < USER_SLOTS && SharesTable(table, j, k) then
      i < USER_SLOTS && SharesTable(table, i, k) && forall j: nat | j < i :: !SharesTable(table, j, k)
    else
      i <= USER_SLOTS && (i < USER_SLOTS ==> VALID !in table[i]) && forall j: nat | j < i :: VALID in table[j]
  }

  // (kernel_addr & 0x7fffffffff) | (slot << 39)
  function UserAddress(kernelAddr: nat, slot: nat): nat { kernelAddr % SLOT + slot * SLOT }

  function Mapped(s: Space, kernelAddr: nat, slot: nat): (s': Space)
    requires Tables(s) && s.root in s.mem && slot < 512
    ensures Tables(s')
  {
    With(s, s.root, slot, s.mem[s.root][Index(4, kernelAddr)])
  }

  lemma UserAddressIndices(kernelAddr: nat, slot: nat)
    requires slot < 512
    ensures var u := UserAddress(kernelAddr, slot);
      && u % SLOT == kernelAddr % SLOT && Index(4, u) == slot
      && Index(1, u) == Index(1, kernelAddr) && Index(2, u) == Index(2, kernelAddr)
      && Index(3, u) == Index(3, kernelAddr)
  {
    var u := UserAddress(kernelAddr, slot);
    assert u / SLOT == slot;
    LowIndices(u);
    LowIndices(kernelAddr);
  }

  // The low indices of an address do not depend on its slot.
  lemma LowIndices(x: nat)
    ensures Index(1, x) == x % SLOT / 4096 % 512 && Index(2, x) == x % SLOT / 2097152 % 512
    ensures Index(3, x) == x % SLOT / 1073741824 % 512
  {
    var q, r := x / SLOT, x % SLOT;
    assert x == q * SLOT + r;
    var a, b, c := r / 4096, r / 2097152, r / 1073741824;
    Quotient4K(x, q * 134217728 + a, r % 4096);
    Quotient2M(x, q * 262144 + b, r % 2097152);
    Quotient1G(x, q * 512 + c, r % 1073741824);
    Remainder512(q * 134217728 + a, q * 262144, a);
    Remainder512(q * 262144 + b, q * 512, b);
    Remainder512(q * 512 + c, q, c);
  }

  lemma Quotient4K(x: nat, k: nat, r: nat)
    requires x == k * 4096 + r && r < 4096
    ensures x / 4096 == k
  {
  }

  lemma Quotient2M(x: nat, k: nat, r: nat)
    requires x == k * 2097152 + r && r < 2097152
    ensures x / 2097152 == k
  {
  }

  lemma Quotient1G(x: nat, k: nat, r: nat)
    requires x == k * 1073741824 + r && r < 1073741824
    ensures x / 1073741824 == k
  {
  }

  lemma Remainder512(x: nat, k: nat, r: nat)
    requires x == k * 512 + r
    ensures x % 512 == r % 512
  {
    assert x == (k + r / 512) * 512 + r % 512;
  }

  // Writing the root changes no walk below it.
  lemma {:induction false} WalkBelowRoot(s: Space, level: map<Frame, nat>, i: nat, e: Entry, f: Frame, a: nat, b: nat)
    requires Leveled(s, level) && i < 512 && f in s.mem && level[f] < 4
    requires forall k | 1 <= k < 4 :: Index(k, a) == Index(k, b)
    ensures WalkFrom(With(s, s.root, i, e), f, level[f], a) == WalkFrom(s, f, level[f], b)
    decreases level[f]
  {
    assert Index(level[f], a) == Index(level[f], b);
    var e' := s.mem[f][Index(level[f], b)];
    if VALID in e' && !IsLeaf(level[f], e') {
      WalkBelowRoot(s, level, i, e, FrameOf(e'), a, b);
    }
  }

  /** The address handed out walks to the same leaf and offset as the kernel address,
      and no address outside the reused slot is affected. */
  lemma MapUserAddressWalks(s: Space, level: map<Frame, nat>, kernelAddr: nat, slot: nat, a: nat)
    requires Leveled(s, level) && slot < 512
    ensures Leveled(Mapped(s, kernelAddr, slot), level)
    ensures UserAddress(kernelAddr, slot) % SLOT == kernelAddr % SLOT
    ensures Walk(Mapped(s, kernelAddr, slot), UserAddress(kernelAddr, slot)) == Walk(s, kernelAddr)
    ensures Index(4, a) != slot ==> Walk(Mapped(s, kernelAddr, slot), a) == Walk(s, a)
  {
    var e, u := s.mem[s.root][Index(4, kernelAddr)], UserAddress(kernelAddr, slot);
    UserAddressIndices(kernelAddr, slot);
    if VALID in e {
      WalkBelowRoot(s, level, slot, e, FrameOf(e), u, kernelAddr);
    }
    var e' := s.mem[s.root][Index(4, a)];
    if Index(4, a) != slot && VALID in e' {
      WalkBelowRoot(s, level, slot, e, FrameOf(e'), a, a);
    }
  }

  /** The addresses of the reused slot come to see what the kernel's slot maps. */
  lemma SlotIsReplaced(s: Space, level: map<Frame, nat>, kernelAddr: nat, slot: nat, a: nat)
    requires Leveled(s, level) && slot < 512 && Index(4, a) == slot
    ensures Walk(Mapped(s, kernelAddr, slot), a) == Walk(s, UserAddress(a, Index(4, kernelAddr)))
  {
    var k := Index(4, kernelAddr);
    var e := s.mem[s.root][k];
    UserAddressIndices(a, k);
    if VALID in e {
      WalkBelowRoot(s, level, slot, e, FrameOf(e), a, UserAddress(a, k));
    }
  }

  /** A slot below 255 is reused without loss. */
  lemma NothingIsLost(s: Space, level: map<Frame, nat>, kernelAddr: nat, slot: nat, a: nat)
    requires Leveled(s, level) && FreeSlot(s.mem[s.root], Index(4, kernelAddr), slot) && slot < USER_SLOTS
    requires VALID in s.mem[s.root][Index(4, kernelAddr)]
    ensures Walk(s, a).Leaf? ==> Walk(Mapped(s, kernelAddr, slot), a) == Walk(s, a)
  {
    MapUserAddressWalks(s, level, kernelAddr, slot, a);
    var e, e' := s.mem[s.root][Index(4, kernelAddr)], s.mem[s.root][slot];
    if Index(4, a) == slot && VALID in e' {
      WalkBelowRoot(s, level, slot, e, FrameOf(e'), a, a);
    }
  }

  /** When no slot below 255 will do, slot 255 is taken whether it is free or not: on a
      tree-shaped table every address that was mapped there loses its mapping. */
  lemma LastSlotIsLost(s: Space, level: map<Frame, nat>, kernelAddr: nat, a: nat)
    requires Leveled(s, level) && TreeShaped(s, level) && FreeSlot(s.mem[s.root], Index(4, kernelAddr), USER_SLOTS)
    requires Index(4, kernelAddr) != USER_SLOTS
    requires Index(4, a) == USER_SLOTS && Walk(s, a).Leaf?
    ensures Walk(Mapped(s, kernelAddr, USER_SLOTS), a) != Walk(s, a)
  {
    var u := UserAddress(a, Index(4, kernelAddr));
    SlotIsReplaced(s, level, kernelAddr, USER_SLOTS, a);
    UserAddressIndices(a, Index(4, kernelAddr));
    if Walk(s, u) == Walk(s, a) {
      PathsMeet(s, level, s.root, s.root, a, u);
      LeafLevel(s, level, s.root, a);
    }
  }

  // ---------------------------------------------------------------- denying writes to a range

  datatype Vma = Vma(start: nat, end: nat, shared: bool, write: bool, exec: bool)

  function PagesOf(start: nat, end: nat): seq<nat>
    decreases end - start
  {
    if start >= end then [] else [start] + PagesOf(start + PAGE, end)
  }

  // The addresses set_all_sh_pages_non_writable visits.
  function Visited(vmas: seq<Vma>): seq<nat> {
    if vmas == [] then []
    else
      var v := vmas[|vmas| - 1];
      Visited(vmas[..|vmas| - 1]) + if v.shared && v.write && v.exec then PagesOf(v.start, v.end) else []
  }

  function Denied(e: Entry): Entry { Flip(Flip(e, WRITE_BIT, false), ORIG_WRITE_BIT, true) }

  /** A denied entry has lost bit 1 and has bit 57; nothing else changes. */
  lemma DeniedExactly(e: Entry, b: nat)
    ensures b in Denied(e) <==> b == 57 || (b in e && b != 1)
  {
  }

  /** The addresses visited are exactly the page starts of the mappings that are shared,
      writable and executable, from the start of each one in steps of a page to its end. */
  lemma {:induction false} VisitedExactly(vmas: seq<Vma>, a: nat)
    ensures a in Visited(vmas) <==>
      exists v | v in vmas :: v.shared && v.write && v.exec && v.start <= a < v.end && (a - v.start) % 4096 == 0
  {
    if vmas != [] {
      var n := |vmas| - 1;
      VisitedExactly(vmas[..n], a);
      PagesExactly(vmas[n].start, vmas[n].end, a);
      assert forall v :: v in vmas <==> v in vmas[..n] || v == vmas[n];
    }
  }

  lemma {:induction false} PagesExactly(start: nat, end: nat, a: nat)
    ensures a in PagesOf(start, end) <==> start <= a < end && (a - start) % 4096 == 0
    decreases end - start
  {
    if start < end {
      PagesExactly(start + PAGE, end, a);
      assert a >= start + PAGE ==> (a - (start + PAGE)) % 4096 == (a - start) % 4096;
    }
  }

  // The source tests `entry & USER_BIT`, and USER_BIT is the number 2: the bit it
  // looks at is the write bit.
  function Deny(s: Space, addr: nat): (s': Space)
    requires Tables(s)
    ensures Tables(s')
  {
    var l := Walk(s, addr);
    if l.Leaf? && WRITE_BIT in EntryAt(s, l) then With(s, l.table, l.index, Denied(EntryAt(s, l))) else s
  }

  function DenyAll(s: Space, addrs: seq<nat>): (s': Space)
    requires Tables(s)
    ensures Tables(s')
  {
    if addrs == [] then s else Deny(DenyAll(s, addrs[..|addrs| - 1]), addrs[|addrs| - 1])
  }

  lemma DenyKeepsWalks(s: Space, level: map<Frame, nat>, addr: nat)
    requires Leveled(s, level)
    ensures Leveled(Deny(s, addr), level) && Deny(s, addr).mem.Keys == s.mem.Keys && Deny(s, addr).root == s.root
    ensures forall a: nat :: Walk(Deny(s, addr), a) == Walk(s, a)
  {
    var l := Walk(s, addr);
    if l.Leaf? && WRITE_BIT in EntryAt(s, l) {
      LeafLevel(s, level, s.root, addr);
      var e := Denied(EntryAt(s, l));
      forall a: nat ensures Walk(With(s, l.table, l.index, e), a) == Walk(s, a) {
        WalkAfterFlip(s, level, l, e, s.root, a);
      }
    }
  }

  // One of the addresses walks to entry i of table f.
  ghost predicate Reached(s: Space, addrs: seq<nat>, f: Frame, i: nat)
    requires Tables(s)
  {
    exists k | 0 <= k < |addrs| ::
      Walk(s, addrs[k]).Leaf? && Walk(s, addrs[k]).table == f && Walk(s, addrs[k]).index == i
  }

  /** After the loop exactly the writable entries that were reached have lost their
      write bit and remember it; no walk and no other entry has changed. */
  lemma {:induction false} DenyAllExactly(s: Space, level: map<Frame, nat>, addrs: seq<nat>)
    requires Leveled(s, level)
    ensures Leveled(DenyAll(s, addrs), level) && DenyAll(s, addrs).mem.Keys == s.mem.Keys
    ensures DenyAll(s, addrs).root == s.root
    ensures forall a: nat :: Walk(DenyAll(s, addrs), a) == Walk(s, a)
    ensures forall f, i | f in s.mem && 0 <= i < 512 ::
      DenyAll(s, addrs).mem[f][i]
      == if Reached(s, addrs, f, i) && WRITE_BIT in s.mem[f][i] then Denied(s.mem[f][i]) else s.mem[f][i]
  {
    if addrs != [] {
      var n := |addrs| - 1;
      var was := addrs[..n];
      DenyAllExactly(s, level, was);
      var s1 := DenyAll(s, was);
      DenyKeepsWalks(s1, level, addrs[n]);
      forall f, i | f in s.mem && 0 <= i < 512
        ensures Reached(s, addrs, f, i) <==>
          || Reached(s, was, f, i)
          || (Walk(s, addrs[n]).Leaf? && Walk(s, addrs[n]).table == f && Walk(s, addrs[n]).index == i)
      {
        ReachedSnoc(s, addrs, f, i);
      }
    }
  }

  lemma ReachedSnoc(s: Space, addrs: seq<nat>, f: Frame, i: nat)
    requires Tables(s) && addrs != []
    ensures var n := |addrs| - 1;
      Reached(s, addrs, f, i) <==>
        || Reached(s, addrs[..n], f, i)
        || (Walk(s, addrs[n]).Leaf? && Walk(s, addrs[n]).table == f && Walk(s, addrs[n]).index == i)
  {
    var n := |addrs| - 1;
    if Reached(s, addrs[..n], f, i) {
      var k :| 0 <= k < n && Walk(s, addrs[..n][k]).Leaf?
        && Walk(s, addrs[..n][k]).table == f && Walk(s, addrs[..n][k]).index == i;
      assert addrs[k] == addrs[..n][k];
    }
    if Reached(s, addrs, f, i) {
      var k :| 0 <= k < |addrs| && Walk(s, addrs[k]).Leaf?
        && Walk(s, addrs[k]).table == f && Walk(s, addrs[k]).index == i;
      assert k < n ==> addrs[..n][k] == addrs[k];
    }
  }

  /** No visited address is writable afterwards. */
  lemma NoneWritable(s: Space, level: map<Frame, nat>, addrs: seq<nat>, k: nat)
    requires Leveled(s, level) && k < |addrs|
    ensures var s' := DenyAll(s, addrs);
      Walk(s', addrs[k]).Leaf? ==> WRITE_BIT !in EntryAt(s', Walk(s', addrs[k]))
  {
    DenyAllExactly(s, level, addrs);
    var l := Walk(s, addrs[k]);
    if l.Leaf? {
      assert Reached(s, addrs, l.table, l.index);
    }
  }

  // ---------------------------------------------------------------- the tables in memory

  const NO_MAP := -14
  const MAP := 1

  class PageTables {
    var mem: map<Frame, seq<Entry>>
    const root: Frame
    ghost const level: map<Frame, nat>

    ghost predicate Valid() reads this { Leveled(Abs(), level) }

    function Abs(): Space reads this { Space(mem, root) }

    // The tables are read one level at a time.
    method WalkTables(vaddr: nat) returns (l: Leaf)
      requires Valid()
      ensures l == Walk(Abs(), vaddr)
    {
      var pml4 := mem[root];
      if VALID !in pml4[Index(4, vaddr)] {
        return NoLeaf;
      }
      var pdp := FrameOf(pml4[Index(4, vaddr)]);
      if VALID !in mem[pdp][Index(3, vaddr)] {
        return NoLeaf;
      }
      var pde := FrameOf(mem[pdp][Index(3, vaddr)]);
      if VALID !in mem[pde][Index(2, vaddr)] {
        return NoLeaf;
      }
      if LARGE in mem[pde][Index(2, vaddr)] {
        return Leaf(pde, Index(2, vaddr), true);
      }
      var pte := FrameOf(mem[pde][Index(2, vaddr)]);
      if VALID !in mem[pte][Index(1, vaddr)] {
        return NoLeaf;
      }
      return Leaf(pte, Index(1, vaddr), false);
    }

    /** flip_bit_on_other */
    method FlipBitOnOther(vaddr: nat, bit: nat, on: bool) returns (r: int)
      requires Valid()
      modifies this
      ensures var l := Walk(old(Abs()), vaddr);
        if l.Leaf? then r == MAP && Abs() == With(old(Abs()), l.table, l.index, Flip(EntryAt(old(Abs()), l), bit, on))
        else r == NO_MAP && Abs() == old(Abs())
    {
      var l := WalkTables(vaddr);
      if l.NoLeaf? {
        return NO_MAP;
      }
      var e := mem[l.table][l.index];
      e := if on then e + {bit} else e - {bit};
      mem := mem[l.table := mem[l.table][l.index := e]];
      r := MAP;
    }

    /** is_bit_set_on_other */
    method IsBitSetOnOther(vaddr: nat, bit: nat) returns (r: int)
      requires Valid()
      ensures var l := Walk(Abs(), vaddr);
        r == if l.NoLeaf? then NO_MAP else if bit in EntryAt(Abs(), l) then 1 else 0
    {
      var l := WalkTables(vaddr);
      if l.NoLeaf? {
        return NO_MAP;
      }
      return if bit in mem[l.table][l.index] then 1 else 0;
    }

    /** get_page_table_entry: the empty entry stands for 0. */
    method GetPageTableEntry(vaddr: nat) returns (e: Entry)
      requires Valid()
      ensures e == if Walk(Abs(), vaddr).Leaf? then EntryAt(Abs(), Walk(Abs(), vaddr)) else {}
      ensures e == {} <==> Walk(Abs(), vaddr).NoLeaf?
    {
      var l := WalkTables(vaddr);
      e := if l.NoLeaf? then {} else mem[l.table][l.index];
    }

    /** get_free_pdg_offset */
    method GetFreePgdOffset(kernelAddr: nat) returns (i: nat)
      requires Valid()
      ensures i <= USER_SLOTS && FreeSlot(mem[root], Index(4, kernelAddr), i)
    {
      var table, k := mem[root], Index(4, kernelAddr);
      i := 0;
      while i < USER_SLOTS
        invariant 0 <= i <= USER_SLOTS
        invariant forall j: nat | j < i :: !SharesTable(table, j, k)
      {
        if VALID in table[i] && FrameOf(table[i]) == FrameOf(table[k]) {
          assert SharesTable(table, i, k);
          return;
        }
        i := i + 1;
      }
      i := 0;
      while i < USER_SLOTS
        invariant 0 <= i <= USER_SLOTS
        invariant forall j: nat | j < i :: VALID in table[j]
      {
        if VALID !in table[i] {
          break;
        }
        i := i + 1;
      }
    }

    /** map_user_address */
    method MapUserAddress(kernelAddr: nat) returns (userAddr: nat)
      requires Valid()
      modifies this
      ensures exists slot: nat ::
        (slot <= USER_SLOTS && FreeSlot(old(mem)[root], Index(4, kernelAddr), slot)
         && userAddr == UserAddress(kernelAddr, slot) && Abs() == Mapped(old(Abs()), kernelAddr, slot))
      ensures Valid() && Walk(Abs(), userAddr) == Walk(old(Abs()), kernelAddr)
    {
      var slot := GetFreePgdOffset(kernelAddr);
      ghost var s := Abs();
      MapUserAddressWalks(s, level, kernelAddr, slot, kernelAddr);
      mem := mem[root := mem[root][slot := mem[root][Index(4, kernelAddr)]]];
      userAddr := kernelAddr % SLOT + slot * SLOT;
      assert Abs() == Mapped(s, kernelAddr, slot);
    }

    // One address of the loop below.
    method DenyWrite(vaddr: nat)
      requires Valid()
      modifies this
      ensures Abs() == Deny(old(Abs()), vaddr) && Valid()
    {
      DenyKeepsWalks(Abs(), level, vaddr);
      var l := WalkTables(vaddr);
      if l.Leaf? && WRITE_BIT in mem[l.table][l.index] {
        var e := mem[l.table][l.index] - {WRITE_BIT};
        mem := mem[l.table := mem[l.table][l.index := e + {ORIG_WRITE_BIT}]];
      }
    }

    method DenyRange(start: nat, end: nat)
      requires Valid()
      modifies this
      ensures Abs() == DenyAll(old(Abs()), PagesOf(start, end)) && Valid()
    {
      ghost var s := Abs();
      ghost var done: seq<nat> := [];
      var address := start;
      while address < end
        invariant start <= address && Valid()
        invariant done + PagesOf(address, end) == PagesOf(start, end)
        invariant Abs() == DenyAll(s, done)
        decreases end - address
      {
        DenyWrite(address);
        assert (done + [address])[..|done|] == done;
        assert done + PagesOf(address, end) == (done + [address]) + PagesOf(address + PAGE, end);
        done := done + [address];
        address := address + PAGE;
      }
      assert done == PagesOf(start, end);
    }

    /** set_all_sh_pages_non_writable */
    method SetAllShPagesNonWritable(vmas: seq<Vma>)
      requires Valid()
      modifies this
      ensures Abs() == DenyAll(old(Abs()), Visited(vmas)) && Valid()
    {
      hide DenyAll, Visited, PagesOf;
      var n := 0;
      NothingDenied(Abs());
      while n < |vmas|
        invariant 0 <= n <= |vmas| && Valid()
        invariant Abs() == DenyAll(old(Abs()), Visited(vmas[..n]))
      {
        var v := vmas[n];
        VisitedSnoc(vmas, n);
        if v.shared && v.write && v.exec {
          DenyRange(v.start, v.end);
          DenyAllAppend(old(Abs()), Visited(vmas[..n]), PagesOf(v.start, v.end));
        }
        n := n + 1;
      }
      assert vmas[..n] == vmas;
    }
  }

  lemma NothingDenied(s: Space)
    requires Tables(s)
    ensures Visited([]) == [] && DenyAll(s, []) == s
  {
  }

  lemma VisitedSnoc(vmas: seq<Vma>, n: nat)
    requires n < |vmas|
    ensures var v := vmas[n];
      Visited(vmas[..n + 1])
      == if v.shared && v.write && v.exec then Visited(vmas[..n]) + PagesOf(v.start, v.end) else Visited(vmas[..n])
  {
    assert vmas[..n + 1][..n] == vmas[..n];
  }

  lemma {:induction false} DenyAllAppend(s: Space, xs: seq<nat>, ys: seq<nat>)
    requires Tables(s)
    ensures DenyAll(s, xs + ys) == DenyAll(DenyAll(s, xs), ys)
  {
    if ys == [] {
      assert xs + ys == xs;
    } else {
      var n := |ys| - 1;
      DenyAllAppend(s, xs, ys[..n]);
      assert (xs + ys)[..|xs + ys| - 1] == xs + ys[..n];
    }
  }
}
