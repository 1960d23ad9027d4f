/** The recursive page-table map of machine/pmap.h against the four-level page walk of amd64. */
module PageMap {

  // machine/pmap.h
  const PG_V: bv64 := 0x001
  const PG_PS: bv64 := 0x080
  const PG_FRAME: bv64 := 0x000f_ffff_ffff_f000
  const PG_PS_FRAME: bv64 := 0x000f_ffff_ffe0_0000

  // The frame bits of a 1 GB page, which the header does not name.
  const PDP_PS_FRAME: bv64 := 0x000f_ffff_c000_0000

  const NPML4EPG: bv64 := 512
  const PML4PML4I: bv64 := NPML4EPG / 2

  /** KVADDR: the canonical kernel address with the given four indices, each nine bits wide, above
      twelve bits of offset: shifts 39, 30, 21 and 12. */
  function Kvaddr(l4: bv64, l3: bv64, l2: bv64, l1: bv64): bv64
  {
    (0xffff_ffff_ffff_ffff << 47) | (l4 << 39) | (l3 << 30) | (l2 << 21) | (l1 << 12)
  }

  const ADDR_PTMAP: bv64 := Kvaddr(PML4PML4I, 0, 0, 0)
  const ADDR_PDMAP: bv64 := Kvaddr(PML4PML4I, PML4PML4I, 0, 0)
  const ADDR_PDPMAP: bv64 := Kvaddr(PML4PML4I, PML4PML4I, PML4PML4I, 0)
  const ADDR_PML4MAP: bv64 := Kvaddr(PML4PML4I, PML4PML4I, PML4PML4I, PML4PML4I)

  // ---------------------------------------------------------------- the walk

  /** The index that an address contributes at each level. */
  function Index4(va: bv64): bv64 { (va >> 39) & 511 }
  function Index3(va: bv64): bv64 { (va >> 30) & 511 }
  function Index2(va: bv64): bv64 { (va >> 21) & 511 }
  function Index1(va: bv64): bv64 { (va >> 12) & 511 }

  predicate Canonical(va: bv64)
  {
    va >> 47 == 0 || va >> 47 == 0x1_ffff
  }

  predicate Present(e: bv64) { e & PG_V != 0 }
  predicate Large(e: bv64) { e & PG_PS != 0 }
  function Frame(e: bv64): bv64 { e & PG_FRAME }

  /** Physical memory, read a 64-bit word at a time. */
  type Memory = bv64 -> bv64

  /** What a translation yields: a fault, or a physical address and the size of the page it is in. */
  datatype Walked = Fault | Page1G(pa: bv64) | Page2M(pa: bv64) | Page4K(pa: bv64)

  /** Where the entry for `va` is, level by level, given the table it is in. */
  function EntryAddr(table: bv64, index: bv64): bv64 { table + 8 * index }

  /** The address inside the page that an entry maps. */
  function In1G(e: bv64, va: bv64): bv64 { (e & PDP_PS_FRAME) | (va & 0x3fff_ffff) }
  function In2M(e: bv64, va: bv64): bv64 { (e & PG_PS_FRAME) | (va & 0x1f_ffff) }
  function In4K(e: bv64, va: bv64): bv64 { Frame(e) | (va & 0xfff) }

  /** The page walk of the processor, from the PML4 table at `cr3`. */
  function Walk(mem: Memory, cr3: bv64, va: bv64): Walked
  {
    if !Canonical(va) then Fault else
    var e4 := mem(EntryAddr(cr3, Index4(va)));
    if !Present(e4) || Large(e4) then Fault else
    var e3 := mem(EntryAddr(Frame(e4), Index3(va)));
    if !Present(e3) then Fault else
    if Large(e3) then Page1G(In1G(e3, va)) else
    var e2 := mem(EntryAddr(Frame(e3), Index2(va)));
    if !Present(e2) then Fault else
    if Large(e2) then Page2M(In2M(e2, va)) else
    var e1 := mem(EntryAddr(Frame(e2), Index1(va)));
    if !Present(e1) then Fault else
    Page4K(In4K(e1, va))
  }

  /** The entries of `va` at the four levels, as addresses in physical memory. */
  function Pml4e(cr3: bv64, va: bv64): bv64 { EntryAddr(cr3, Index4(va)) }
  function Pdpe(mem: Memory, cr3: bv64, va: bv64): bv64 { EntryAddr(Frame(mem(Pml4e(cr3, va))), Index3(va)) }
  function Pde(mem: Memory, cr3: bv64, va: bv64): bv64 { EntryAddr(Frame(mem(Pdpe(mem, cr3, va))), Index2(va)) }
  function Pte(mem: Memory, cr3: bv64, va: bv64): bv64 { EntryAddr(Frame(mem(Pde(mem, cr3, va))), Index1(va)) }

  predicate Table(e: bv64)
  {
    Present(e) && !Large(e)
  }

  /** KVADDR puts every index where the walk looks for it; the topmost comes back exactly for the
      indices of the upper half, because bit 47 is set whatever the index says. */
  lemma KvaddrIndices(l4: bv64, l3: bv64, l2: bv64, l1: bv64)
    requires l4 < 512 && l3 < 512 && l2 < 512 && l1 < 512
    ensures var va := Kvaddr(l4, l3, l2, l1);
      && Canonical(va) && va & 0xfff == 0
      && Index3(va) == l3 && Index2(va) == l2 && Index1(va) == l1
      && (Index4(va) == l4 <==> l4 >= 256)
  {
  }

  // -------------------------------------------------------------- the windows

  /** The addresses at which the entries of `va` appear through the recursive slot. */
  function PtWindow(va: bv64): bv64 { ADDR_PTMAP + 8 * ((va >> 12) & 0xf_ffff_ffff) }
  function PdWindow(va: bv64): bv64 { ADDR_PDMAP + 8 * ((va >> 21) & 0x7ff_ffff) }
  function PdpWindow(va: bv64): bv64 { ADDR_PDPMAP + 8 * ((va >> 30) & 0x3_ffff) }
  function Pml4Window(va: bv64): bv64 { ADDR_PML4MAP + 8 * ((va >> 39) & 0x1ff) }

  /** Each window address has the recursive index in front and the indices of `va` moved down. */
  lemma PtWindowIndices(va: bv64)
    ensures var w := PtWindow(va);
      && Canonical(w) && Index4(w) == PML4PML4I && Index3(w) == Index4(va) && Index2(w) == Index3(va)
      && Index1(w) == Index2(va) && forall e :: In4K(e, w) == EntryAddr(Frame(e), Index1(va))
  {
  }

  lemma PdWindowIndices(va: bv64)
    ensures var w := PdWindow(va);
      && Canonical(w) && Index4(w) == PML4PML4I && Index3(w) == PML4PML4I && Index2(w) == Index4(va)
      && Index1(w) == Index3(va) && forall e :: In4K(e, w) == EntryAddr(Frame(e), Index2(va))
  {
  }

  lemma PdpWindowIndices(va: bv64)
    ensures var w := PdpWindow(va);
      && Canonical(w) && Index4(w) == PML4PML4I && Index3(w) == PML4PML4I && Index2(w) == PML4PML4I
      && Index1(w) == Index4(va) && forall e :: In4K(e, w) == EntryAddr(Frame(e), Index3(va))
  {
  }

  lemma Pml4WindowIndices(va: bv64)
    ensures var w := Pml4Window(va);
      && Canonical(w) && Index4(w) == PML4PML4I && Index3(w) == PML4PML4I && Index2(w) == PML4PML4I
      && Index1(w) == PML4PML4I && forall e :: In4K(e, w) == EntryAddr(Frame(e), Index4(va))
  {
  }

  /** The recursive slot: entry PML4PML4I of the PML4 table is a table entry that points at the PML4
      table itself. */
  predicate Recursive(mem: Memory, cr3: bv64)
  {
    var e := mem(EntryAddr(cr3, PML4PML4I));
    Table(e) && Frame(e) == cr3
  }

  /** Through the recursive slot the page table of `va` is data: the walk of its window address ends at
      the page-table entry of `va` exactly when the entries above it are there to walk.  (The large
      bit of the page-directory entry is not looked at, since the walk takes that entry for a
      page-table entry.) */
  lemma PtWindowReachesPte(mem: Memory, cr3: bv64, va: bv64)
    requires Recursive(mem, cr3)
    ensures Walk(mem, cr3, PtWindow(va)) == Page4K(Pte(mem, cr3, va)) <==>
      && Table(mem(Pml4e(cr3, va)))
      && Table(mem(Pdpe(mem, cr3, va)))
      && Present(mem(Pde(mem, cr3, va)))
  {
    hide PtWindow, Index1, Index2, Index3, Index4, Frame, Present, Large, Canonical, EntryAddr, In4K, In2M, In1G;
    PtWindowIndices(va);
  }

  /** The page-directory window shows the entry one level up. */
  lemma PdWindowReachesPde(mem: Memory, cr3: bv64, va: bv64)
    requires Recursive(mem, cr3)
    ensures Walk(mem, cr3, PdWindow(va)) == Page4K(Pde(mem, cr3, va)) <==>
      Table(mem(Pml4e(cr3, va))) && Present(mem(Pdpe(mem, cr3, va)))
  {
    hide PdWindow, Index1, Index2, Index3, Index4, Frame, Present, Large, Canonical, EntryAddr, In4K, In2M, In1G;
    PdWindowIndices(va);
  }

  /** The page-directory-pointer window, two levels up. */
  lemma PdpWindowReachesPdpe(mem: Memory, cr3: bv64, va: bv64)
    requires Recursive(mem, cr3)
    ensures Walk(mem, cr3, PdpWindow(va)) == Page4K(Pdpe(mem, cr3, va)) <==> Present(mem(Pml4e(cr3, va)))
  {
    hide PdpWindow, Index1, Index2, Index3, Index4, Frame, Present, Large, Canonical, EntryAddr, In4K, In2M, In1G;
    PdpWindowIndices(va);
  }

  /** The PML4 window, three levels up, is always mapped. */
  lemma Pml4WindowReachesPml4e(mem: Memory, cr3: bv64, va: bv64)
    requires Recursive(mem, cr3)
    ensures Walk(mem, cr3, Pml4Window(va)) == Page4K(Pml4e(cr3, va))
  {
    hide Pml4Window, Index1, Index2, Index3, Index4, Frame, Present, Large, Canonical, EntryAddr, In4K, In2M, In1G;
    Pml4WindowIndices(va);
  }

  /** The windows are one map applied over and over: the page-table entry of a page-table entry is the
      page-directory entry, and so on up to the PML4 entry, whose page-table entry is the
      recursive one. */
  lemma WindowsCompose(va: bv64)
    ensures PtWindow(PtWindow(va)) == PdWindow(va)
    ensures PtWindow(PdWindow(va)) == PdpWindow(va)
    ensures PtWindow(PdpWindow(va)) == Pml4Window(va)
    ensures PtWindow(Pml4Window(va)) == ADDR_PML4MAP + PML4PML4I * 8
  {
  }

  /** pte_store at the physical address that a window shows. */
  function Store(mem: Memory, pa: bv64, e: bv64): Memory
  {
    x => if x == pa then e else mem(x)
  }

  /** The entry of `va` is itself one of the three that the walk of `va` goes through, as happens for
      addresses inside the recursive region. */
  predicate OnOwnWalk(mem: Memory, cr3: bv64, va: bv64)
  {
    Pte(mem, cr3, va) in {Pml4e(cr3, va), Pdpe(mem, cr3, va), Pde(mem, cr3, va)}
  }

  /** After `e` is stored as the page-table entry of `va`, its walk ends in the frame that `e` names. */
  predicate Remaps(mem: Memory, cr3: bv64, va: bv64, e: bv64)
  {
    Walk(Store(mem, Pte(mem, cr3, va), e), cr3, va) == Page4K(In4K(e, va))
  }

  predicate Walkable(mem: Memory, cr3: bv64, va: bv64)
  {
    && Canonical(va)
    && Table(mem(Pml4e(cr3, va))) && Table(mem(Pdpe(mem, cr3, va))) && Table(mem(Pde(mem, cr3, va)))
  }

  lemma WalkableWalks(mem: Memory, cr3: bv64, va: bv64)
    requires Walkable(mem, cr3, va) && Present(mem(Pte(mem, cr3, va)))
    ensures Walk(mem, cr3, va) == Page4K(In4K(mem(Pte(mem, cr3, va)), va))
  {
    hide Index1, Index2, Index3, Index4, Frame, Present, Large, Canonical, EntryAddr, In4K, In2M, In1G;
  }

  lemma StoreElsewhere(mem: Memory, cr3: bv64, va: bv64, e: bv64)
    requires Walkable(mem, cr3, va) && Present(e) && !OnOwnWalk(mem, cr3, va)
    ensures Remaps(mem, cr3, va, e)
  {
    hide Index1, Index2, Index3, Index4, Frame, Present, Large, Canonical, EntryAddr, In4K, In2M, In1G, Walk;
    var mem' := Store(mem, Pte(mem, cr3, va), e);
    assert Pdpe(mem', cr3, va) == Pdpe(mem, cr3, va) && Pde(mem', cr3, va) == Pde(mem, cr3, va);
    assert Pte(mem', cr3, va) == Pte(mem, cr3, va);
    WalkableWalks(mem', cr3, va);
  }

  lemma StoreKeepsTables(mem: Memory, pa: bv64, e: bv64, x: bv64)
    requires Table(e) && Frame(e) == Frame(mem(pa))
    ensures Frame(Store(mem, pa, e)(x)) == Frame(mem(x)) && (Table(mem(x)) ==> Table(Store(mem, pa, e)(x)))
  {
  }

  /** A store that keeps the frame and leaves a table entry a table entry leaves every path as it was. */
  lemma StoreSamePath(mem: Memory, cr3: bv64, va: bv64, pa: bv64, e: bv64)
    requires Walkable(mem, cr3, va) && Table(e) && Frame(e) == Frame(mem(pa))
    ensures Walkable(Store(mem, pa, e), cr3, va) && Pte(Store(mem, pa, e), cr3, va) == Pte(mem, cr3, va)
  {
    hide Index1, Index2, Index3, Index4, Frame, Canonical, EntryAddr, Store, Table;
    StoreKeepsTables(mem, pa, e, Pml4e(cr3, va));
    StoreKeepsTables(mem, pa, e, Pdpe(mem, cr3, va));
    StoreKeepsTables(mem, pa, e, Pde(mem, cr3, va));
  }

  lemma StoreSameFrame(mem: Memory, cr3: bv64, va: bv64, e: bv64)
    requires Walkable(mem, cr3, va) && Table(e) && Frame(e) == Frame(mem(Pte(mem, cr3, va)))
    ensures Remaps(mem, cr3, va, e)
  {
    var pte := Pte(mem, cr3, va);
    assert Store(mem, pte, e)(pte) == e && Present(e);
    hide Frame, Table, Walkable, Pte, In4K, Walk, Store, Present;
    StoreSamePath(mem, cr3, va, pte, e);
    WalkableWalks(Store(mem, pte, e), cr3, va);
  }

  lemma StoreLargeOnWalk(mem: Memory, cr3: bv64, va: bv64, e: bv64)
    requires Walkable(mem, cr3, va) && Present(e) && Large(e) && OnOwnWalk(mem, cr3, va)
    ensures !Remaps(mem, cr3, va, e)
  {
    hide Index1, Index2, Index3, Index4, Frame, Present, Large, Canonical, EntryAddr, In4K, In2M, In1G;
    var mem' := Store(mem, Pte(mem, cr3, va), e);
    if Pte(mem, cr3, va) == Pml4e(cr3, va) {
      assert mem'(Pml4e(cr3, va)) == e;
    } else if Pte(mem, cr3, va) == Pdpe(mem, cr3, va) {
      assert mem'(Pdpe(mem', cr3, va)) == e;
    } else {
      assert mem'(Pde(mem', cr3, va)) == e;
    }
  }

  /** A store through the window remaps `va`: the window address translates to the page-table entry,
      and storing a present entry there takes the walk of `va` to the frame it names, unless the
      entry is on its own walk.  There a store that keeps the frame does so exactly if it leaves
      the bit clear that an upper level takes for the large-page bit. */
  lemma StoreThroughWindow(mem: Memory, cr3: bv64, va: bv64, e: bv64)
    requires Recursive(mem, cr3) && Walkable(mem, cr3, va) && Present(e)
    ensures Walk(mem, cr3, PtWindow(va)) == Page4K(Pte(mem, cr3, va))
    ensures !OnOwnWalk(mem, cr3, va) ==> Remaps(mem, cr3, va, e)
    ensures Large(e) && OnOwnWalk(mem, cr3, va) ==> !Remaps(mem, cr3, va, e)
    ensures Frame(e) == Frame(mem(Pte(mem, cr3, va))) ==>
      (Remaps(mem, cr3, va, e) <==> !OnOwnWalk(mem, cr3, va) || !Large(e))
  {
    PtWindowReachesPte(mem, cr3, va);
    hide PtWindow, Frame, Present, Large, Canonical, EntryAddr, Walk, Recursive, OnOwnWalk, Remaps, Pte, Pde, Pdpe, Pml4e;
    if !OnOwnWalk(mem, cr3, va) {
      StoreElsewhere(mem, cr3, va, e);
    } else if Large(e) {
      StoreLargeOnWalk(mem, cr3, va, e);
    } else if Frame(e) == Frame(mem(Pte(mem, cr3, va))) {
      StoreSameFrame(mem, cr3, va, e);
    }
  }
}
