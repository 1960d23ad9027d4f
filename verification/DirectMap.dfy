/** The direct map of machine/pmap.h and machine/vmparam.h: all of physical memory, offset by a
    constant, with the offset applied by a bitwise or.
 */
module DirectMap {
  import opened PageMap

  const KPML4I: bv64 := NPML4EPG - 1

  /** Bytes mapped by one PML4 entry. */
  const NBPML4: bv64 := 1 << 39

  /** What the header asks of NDMPML4E, the number of PML4 entries of the direct map. */
  predicate PowerOfTwo(n: bv64)
  {
    0 < n <= NPML4EPG && n & (n - 1) == 0
  }

  /** DMPML4I, rounded down to a multiple of the number of entries. */
  function Dmpml4i(n: bv64): bv64
    requires n != 0
  {
    ((KPML4I - n) / n) * n
  }

  function DmapMin(n: bv64): bv64
    requires n != 0
  {
    Kvaddr(Dmpml4i(n), 0, 0, 0)
  }

  function DmapMax(n: bv64): bv64
    requires n != 0
  {
    Kvaddr(Dmpml4i(n) + n, 0, 0, 0)
  }

  function Raise(base: bv64, x: bv64): bv64 { x | base }
  function Plus(base: bv64, x: bv64): bv64 { x + base }
  function Lower(base: bv64, x: bv64): bv64 { x & !base }
  function High(low: bv64, x: bv64): bv64 { x & !low }

  /** PHYS_TO_DMAP. */
  function PhysToDmap(n: bv64, x: bv64): bv64
    requires n != 0
  {
    Raise(DmapMin(n), x)
  }

  /** DMAP_TO_PHYS. */
  function DmapToPhys(n: bv64, x: bv64): bv64
    requires n != 0
  {
    Lower(DmapMin(n), x)
  }

  /** The bytes of physical memory that the map is to show. */
  function Size(n: bv64): bv64 { n * NBPML4 }

  predicate Under(x: bv64, limit: bv64) { x < limit }

  predicate InPhys(n: bv64, x: bv64)
  {
    Under(x, Size(n))
  }

  predicate Between(base: bv64, top: bv64, x: bv64) { base <= x < top }

  predicate InDmap(n: bv64, x: bv64)
    requires n != 0
  {
    Between(DmapMin(n), DmapMax(n), x)
  }

  /** The map is as large as the memory it is to show. */
  predicate Spans(n: bv64)
    requires n != 0
  {
    DmapMin(n) <= DmapMax(n) && DmapMax(n) - DmapMin(n) == Size(n)
  }

  /** No address of the map is translated through the recursive slot. */
  ghost predicate AvoidsRecursiveSlot(n: bv64)
    requires n != 0
  {
    forall x: bv64 :: InDmap(n, x) ==> Index4(x) != PML4PML4I
  }

  // ---------------------------------------------------------------- the layout

  lemma Counts(n: bv64)
    requires PowerOfTwo(n)
    ensures n == 1 || n == 2 || n == 4 || n == 8 || n == 16 || n == 32 || n == 64 || n == 128 || n == 256 || n == 512
  {
  }

  /** Two sizes below the top, in the unsigned arithmetic of the header: 0 for 256, and for 512 the
      difference KPML4I - 512 wraps. */
  lemma Slots(n: bv64)
    requires PowerOfTwo(n)
    ensures Dmpml4i(n) == 512 - 2 * n
  {
    Counts(n);
    hide PowerOfTwo;
    if n == 1 {
      assert Dmpml4i(1) == 510;
    } else if n == 2 {
      assert Dmpml4i(2) == 508;
    } else if n == 4 {
      assert Dmpml4i(4) == 504;
    } else if n == 8 {
      assert Dmpml4i(8) == 496;
    } else if n == 16 {
      assert Dmpml4i(16) == 480;
    } else if n == 32 {
      assert Dmpml4i(32) == 448;
    } else if n == 64 {
      assert Dmpml4i(64) == 384;
    } else if n == 128 {
      assert Dmpml4i(128) == 256;
    } else if n == 256 {
      assert Dmpml4i(256) == 0;
    } else {
      assert Dmpml4i(512) == 0xffff_ffff_ffff_fe00;
    }
  }

  function Past(low: bv64): bv64 { low + 1 }

  predicate Apart(base: bv64, low: bv64) { base & low == 0 }

  // The base of the map, its end and the mask of the address bits that vary inside it, for one to
  // eight entries and for sixteen to 128.

  predicate SmallMap(base: bv64, top: bv64, low: bv64)
  {
    || (base == 0xffff_ff00_0000_0000 && top == 0xffff_ff80_0000_0000 && low == 0x7f_ffff_ffff)
    || (base == 0xffff_fe00_0000_0000 && top == 0xffff_ff00_0000_0000 && low == 0xff_ffff_ffff)
    || (base == 0xffff_fc00_0000_0000 && top == 0xffff_fe00_0000_0000 && low == 0x1ff_ffff_ffff)
    || (base == 0xffff_f800_0000_0000 && top == 0xffff_fc00_0000_0000 && low == 0x3ff_ffff_ffff)
  }

  predicate LargeMap(base: bv64, top: bv64, low: bv64)
  {
    || (base == 0xffff_f000_0000_0000 && top == 0xffff_f800_0000_0000 && low == 0x7ff_ffff_ffff)
    || (base == 0xffff_e000_0000_0000 && top == 0xffff_f000_0000_0000 && low == 0xfff_ffff_ffff)
    || (base == 0xffff_c000_0000_0000 && top == 0xffff_e000_0000_0000 && low == 0x1fff_ffff_ffff)
    || (base == 0xffff_8000_0000_0000 && top == 0xffff_c000_0000_0000 && low == 0x3fff_ffff_ffff)
  }

  predicate Layout(base: bv64, top: bv64, low: bv64)
  {
    SmallMap(base, top, low) || LargeMap(base, top, low)
  }

  lemma Region(n: bv64) returns (base: bv64, top: bv64, low: bv64)
    requires PowerOfTwo(n) && n <= 128
    ensures Layout(base, top, low) && Apart(base, low)
    ensures DmapMin(n) == base && DmapMax(n) == top && Size(n) == Past(low)
  {
    hide Dmpml4i;
    Slots(n);
    Counts(n);
    hide PowerOfTwo;
    if n == 1 {
      base, top, low := 0xffff_ff00_0000_0000, 0xffff_ff80_0000_0000, 0x7f_ffff_ffff;
    } else if n == 2 {
      base, top, low := 0xffff_fe00_0000_0000, 0xffff_ff00_0000_0000, 0xff_ffff_ffff;
    } else if n == 4 {
      base, top, low := 0xffff_fc00_0000_0000, 0xffff_fe00_0000_0000, 0x1ff_ffff_ffff;
    } else if n == 8 {
      base, top, low := 0xffff_f800_0000_0000, 0xffff_fc00_0000_0000, 0x3ff_ffff_ffff;
    } else if n == 16 {
      base, top, low := 0xffff_f000_0000_0000, 0xffff_f800_0000_0000, 0x7ff_ffff_ffff;
    } else if n == 32 {
      base, top, low := 0xffff_e000_0000_0000, 0xffff_f000_0000_0000, 0xfff_ffff_ffff;
    } else if n == 64 {
      base, top, low := 0xffff_c000_0000_0000, 0xffff_e000_0000_0000, 0x1fff_ffff_ffff;
    } else {
      base, top, low := 0xffff_8000_0000_0000, 0xffff_c000_0000_0000, 0x3fff_ffff_ffff;
    }
  }

  // Membership in either range is a matter of the bits above `low`.

  lemma PhysSmall(base: bv64, top: bv64, low: bv64, x: bv64)
    requires SmallMap(base, top, low)
    ensures Under(x, Past(low)) <==> High(low, x) == 0
  {
  }

  lemma PhysLarge(base: bv64, top: bv64, low: bv64, x: bv64)
    requires LargeMap(base, top, low)
    ensures Under(x, Past(low)) <==> High(low, x) == 0
  {
  }

  lemma PhysMask(n: bv64, base: bv64, top: bv64, low: bv64, x: bv64)
    requires Layout(base, top, low) && Size(n) == Past(low)
    ensures InPhys(n, x) <==> High(low, x) == 0
  {
    hide High, Size, Past, SmallMap, LargeMap, Under;
    if SmallMap(base, top, low) { PhysSmall(base, top, low, x); } else { PhysLarge(base, top, low, x); }
  }

  lemma MaskAbove(base: bv64, low: bv64, x: bv64)
    requires Apart(base, low) && High(low, x) == base
    ensures base <= x
  {
  }

  lemma MaskBelow(base: bv64, low: bv64, x: bv64)
    requires Apart(base, low) && High(low, x) == base
    ensures x <= base | low
  {
  }

  lemma LastBelow(base: bv64, top: bv64, low: bv64, x: bv64)
    requires Layout(base, top, low) && x <= base | low
    ensures x < top
  {
  }

  lemma MaskInside(base: bv64, top: bv64, low: bv64, x: bv64)
    requires Layout(base, top, low) && Apart(base, low) && High(low, x) == base
    ensures Between(base, top, x)
  {
    MaskAbove(base, low, x);
    MaskBelow(base, low, x);
    LastBelow(base, top, low, x);
  }

  lemma InsideSmall(base: bv64, top: bv64, low: bv64, x: bv64)
    requires SmallMap(base, top, low) && Between(base, top, x)
    ensures High(low, x) == base
  {
  }

  lemma InsideLarge(base: bv64, top: bv64, low: bv64, x: bv64)
    requires LargeMap(base, top, low) && Between(base, top, x)
    ensures High(low, x) == base
  {
  }

  lemma InsideMask(base: bv64, top: bv64, low: bv64, x: bv64)
    requires Layout(base, top, low) && Between(base, top, x)
    ensures High(low, x) == base
  {
    hide SmallMap, LargeMap, Between, High;
    if SmallMap(base, top, low) { InsideSmall(base, top, low, x); } else { InsideLarge(base, top, low, x); }
  }

  // Pure bit facts about an aligned base.

  lemma NoCarry(base: bv64, x: bv64)
    requires Apart(base, x)
    ensures Raise(base, x) == Plus(base, x)
  {
    OrIsSum(base, x);
    hide Apart;
  }

  lemma OrIsSum(base: bv64, x: bv64)
    requires base & x == 0
    ensures x | base == x + base
  {
  }

  lemma StillApart(base: bv64, low: bv64, x: bv64)
    requires Apart(base, low) && High(low, x) == 0
    ensures Apart(base, x)
  {
  }

  lemma RaiseAdds(base: bv64, low: bv64, x: bv64)
    requires Apart(base, low) && High(low, x) == 0
    ensures Raise(base, x) == Plus(base, x)
  {
    hide Apart, High, Raise, Plus;
    StillApart(base, low, x);
    NoCarry(base, x);
  }

  lemma RaiseUndone(base: bv64, low: bv64, x: bv64)
    requires Apart(base, low) && High(low, x) == 0
    ensures Lower(base, Raise(base, x)) == x
  {
  }

  lemma RaiseLands(base: bv64, low: bv64, x: bv64)
    requires Apart(base, low) && High(low, x) == 0
    ensures High(low, Raise(base, x)) == base
  {
  }

  lemma LowerLands(base: bv64, low: bv64, x: bv64)
    requires Apart(base, low) && High(low, x) == base
    ensures High(low, Lower(base, x)) == 0
  {
  }

  lemma LowerUndone(base: bv64, low: bv64, x: bv64)
    requires Apart(base, low) && High(low, x) == base
    ensures Raise(base, Lower(base, x)) == x
  {
  }

  // --------------------------------------------------------------- what is promised

  /** For every power of two up to 128 PHYS_TO_DMAP sends physical memory into the direct map and is
      undone by DMAP_TO_PHYS. */
  lemma PhysToDmapInverts(n: bv64, x: bv64)
    requires PowerOfTwo(n) && n <= 128 && InPhys(n, x)
    ensures InDmap(n, PhysToDmap(n, x)) && DmapToPhys(n, PhysToDmap(n, x)) == x
  {
    hide DmapMin, DmapMax, PowerOfTwo, Layout, Apart, Between, High, Raise, Lower, Size, Past, Under;
    var base, top, low := Region(n);
    PhysMask(n, base, top, low, x);
    RaiseUndone(base, low, x);
    RaiseLands(base, low, x);
    MaskInside(base, top, low, Raise(base, x));
  }

  /** On physical memory the bitwise or of PHYS_TO_DMAP is an addition. */
  lemma PhysToDmapAdds(n: bv64, x: bv64)
    requires PowerOfTwo(n) && n <= 128 && InPhys(n, x)
    ensures PhysToDmap(n, x) == Plus(DmapMin(n), x)
  {
    hide DmapMin, DmapMax, PowerOfTwo, Layout, Apart, Between, High, Raise, Lower, Size, Past, Under, Plus;
    var base, top, low := Region(n);
    PhysMask(n, base, top, low, x);
    RaiseAdds(base, low, x);
  }

  /** DMAP_TO_PHYS sends the direct map into physical memory and is undone by PHYS_TO_DMAP; with
      PhysToDmapInverts, the two are inverse bijections. */
  lemma DmapToPhysInverts(n: bv64, x: bv64)
    requires PowerOfTwo(n) && n <= 128 && InDmap(n, x)
    ensures InPhys(n, DmapToPhys(n, x)) && PhysToDmap(n, DmapToPhys(n, x)) == x
  {
    hide DmapMin, DmapMax, PowerOfTwo, Layout, Apart, Between, High, Raise, Lower, Size, Past, Under;
    var base, top, low := Region(n);
    InsideMask(base, top, low, x);
    LowerLands(base, low, x);
    LowerUndone(base, low, x);
    PhysMask(n, base, top, low, Lower(base, x));
  }

  /** Half of the PML4 entries or all of them leave no map at all: it begins and ends where the page
      tables are seen through the recursive slot. */
  lemma EmptyMap(n: bv64)
    requires PowerOfTwo(n) && n > 128
    ensures DmapMin(n) == DmapMax(n) == ADDR_PTMAP
  {
    Counts(n);
    Slots(n);
    hide PowerOfTwo, Dmpml4i;
  }

  /** Which powers of two give a map of the size asked for, and which of these a map of its own. */
  lemma MapExactly(n: bv64)
    requires PowerOfTwo(n)
    ensures Spans(n) <==> n <= 128
    ensures Spans(n) && AvoidsRecursiveSlot(n) <==> n <= 64
  {
    hide Between, Index4, Dmpml4i, DmapMin, DmapMax;
    SpansExactly(n);
    if n <= 64 {
      forall x: bv64 | InDmap(n, x) ensures Index4(x) != PML4PML4I { BelowKernel(n, x); }
    } else if n <= 128 {
      OnRecursiveSlot(n);
    }
  }

  lemma SpansExactly(n: bv64)
    requires PowerOfTwo(n)
    ensures Spans(n) <==> n <= 128
  {
    if n > 128 {
      EmptyMap(n);
      Counts(n);
      hide PowerOfTwo, DmapMin, DmapMax;
    } else {
      Counts(n);
      Slots(n);
      hide PowerOfTwo, Dmpml4i;
    }
  }

  /** With 64 entries or fewer every address of the map has a top index of 384 or more. */
  lemma BelowKernel(n: bv64, x: bv64)
    requires PowerOfTwo(n) && n <= 64 && InDmap(n, x)
    ensures Index4(x) != PML4PML4I
  {
    Counts(n);
    Slots(n);
    hide PowerOfTwo, Dmpml4i, Index4;
    assert DmapMin(n) >= 0xffff_c000_0000_0000;
    TopIndex(x);
  }

  lemma TopIndex(x: bv64)
    requires x >= 0xffff_c000_0000_0000
    ensures Index4(x) != PML4PML4I
  {
  }

  lemma OnRecursiveSlot(n: bv64)
    requires PowerOfTwo(n) && 64 < n <= 128
    ensures !AvoidsRecursiveSlot(n)
  {
    Counts(n);
    Slots(n);
    hide PowerOfTwo, Dmpml4i;
    assert InDmap(n, ADDR_PTMAP) && Index4(ADDR_PTMAP) == PML4PML4I;
  }

  /** PHYS_TO_DMAP works on all of physical memory. */
  ghost predicate MapsAll(n: bv64)
    requires n != 0
  {
    forall x: bv64 | InPhys(n, x) :: InDmap(n, PhysToDmap(n, x)) && DmapToPhys(n, PhysToDmap(n, x)) == x
  }

  /** So it does exactly for the powers of two up to 128. */
  lemma InvertsExactly(n: bv64)
    requires PowerOfTwo(n)
    ensures MapsAll(n) <==> n <= 128
  {
    if n <= 128 {
      hide InDmap, InPhys, PhysToDmap, DmapToPhys, PowerOfTwo;
      forall x: bv64 | InPhys(n, x) ensures InDmap(n, PhysToDmap(n, x)) && DmapToPhys(n, PhysToDmap(n, x)) == x {
        PhysToDmapInverts(n, x);
      }
    } else {
      EmptyMap(n);
      Counts(n);
      hide PowerOfTwo, DmapMin, DmapMax, PhysToDmap, DmapToPhys;
      assert InPhys(n, 0);
    }
  }
}
