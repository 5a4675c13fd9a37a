/**
 * 32-bit two-level paging (section 4.3 of volume 3A of the Intel SDM) and the recursive self-map through
 * which kernel/memory.c reads and writes page tables. Words and addresses are integers below 2^32; a mask
 * that keeps high or low bits is written as a division or a remainder.
 */
module Paging {
  import opened Options

  type Word = w: int | 0 <= w < 0x1_0000_0000
  type Frame = f: seq<Word> | |f| == 1024 witness seq(1024, _ => 0)
  function ZeroFrame(): Frame { seq(1024, _ => 0) }
  /** Physical memory: 2^20 frames of 1024 words. */
  type Memory = m: seq<Frame> | |m| == 0x10_0000 ghost witness seq<Frame>(0x10_0000, _ => ZeroFrame())

  const PG_SIZE := 4096
  const WINDOW := 0xffc00          // first page of the self-map window, directory slot 1023

  predicate Present(w: Word) { w % 2 == 1 }

  /**
   * What an entry lets through, from user mode or kernel mode, to read or to write: kernel accesses need only the
   * present bit (the loader leaves CR0.WP clear), user ones the U/S bit, and to write the R/W bit.
   */
  predicate Permits(w: Word, user: bool, write: bool) {
    Present(w) && (user ==> w / 4 % 2 == 1) && (user && write ==> w / 2 % 2 == 1)
  }

  function FrameOf(w: Word): (f: nat)
    ensures f < 0x10_0000
  {
    w / 4096
  }

  /** `frame address | PG_US_U | PG_RW_W | PG_P_1` */
  function EntryFor(frame: nat): (w: Word)
    requires frame < 0x10_0000
    ensures Present(w) && FrameOf(w) == frame && Permits(w, true, true)
  {
    frame * 4096 + 7
  }

  /** `entry & ~PG_P_1` */
  function Cleared(w: Word): (r: Word)
    ensures !Present(r) && r / 2 == w / 2
  {
    w - w % 2
  }

  function PdeIdx(v: Word): (i: nat)
    ensures i < 1024
  {
    v / 0x40_0000
  }

  function PteIdx(v: Word): (i: nat)
    ensures i < 1024
  {
    v / 4096 % 1024
  }

  /** The hardware walk of page `vp` from directory frame `pd`: the frame it lands on. */
  function Trans(mem: Memory, pd: nat, vp: nat): (r: Option<nat>)
    requires pd < 0x10_0000 && vp < 0x10_0000
    ensures r.Some? ==> r.value < 0x10_0000
  {
    var pde := mem[pd][vp / 1024];
    if !Present(pde) then None else
      var pte := mem[FrameOf(pde)][vp % 1024];
      if Present(pte) then Some(FrameOf(pte)) else None
  }

  /** The access goes through: both entries of the walk permit it. */
  predicate Accessible(mem: Memory, pd: nat, vp: nat, user: bool, write: bool)
    requires pd < 0x10_0000 && vp < 0x10_0000
  {
    var pde := mem[pd][vp / 1024];
    Permits(pde, user, write) && Permits(mem[FrameOf(pde)][vp % 1024], user, write)
  }

  datatype Phys = Phys(frame: nat, offset: nat)

  lemma WordOfPage(v: Word, i: nat)
    requires v % 4096 == 0 && i < 1024
    ensures v + 4 * i < 0x1_0000_0000 && (v + 4 * i) % 4 == 0
    ensures (v + 4 * i) / 4096 == v / 4096 && (v + 4 * i) % 4096 == 4 * i
  {
  }

  /** The physical address a virtual address reaches. */
  function Walk(mem: Memory, pd: nat, v: Word): (r: Option<Phys>)
    requires pd < 0x10_0000
    ensures r.Some? ==> r.value.frame < 0x10_0000 && r.value.offset < 4096
  {
    match Trans(mem, pd, v / 4096)
    case Some(f) => Some(Phys(f, v % 4096))
    case None => None
  }

  /** pte_ptr */
  function PtePtr(v: Word): (p: Word)
    ensures p % 4 == 0
  {
    assert v / 0x40_0000 * 0x40_0000 / 1024 == PdeIdx(v) * 4096;
    0xffc0_0000 + v / 0x40_0000 * 0x40_0000 / 1024 + PteIdx(v) * 4
  }

  /** pde_ptr */
  function PdePtr(v: Word): (p: Word)
    ensures p % 4 == 0
  {
    0xffff_f000 + PdeIdx(v) * 4
  }

  /** Directory slot 1023 maps the directory itself. */
  predicate SelfMapped(mem: Memory, pd: nat)
    requires pd < 0x10_0000
  {
    Present(mem[pd][1023]) && FrameOf(mem[pd][1023]) == pd
  }

  /** Page `WINDOW + i` is the page table of directory slot `i`, seen through the self-map. */
  lemma WindowPage(mem: Memory, pd: nat, i: nat)
    requires pd < 0x10_0000 && i < 1024 && SelfMapped(mem, pd)
    ensures Trans(mem, pd, WINDOW + i)
         == if Present(mem[pd][i]) then Some(FrameOf(mem[pd][i])) else None
  {
    assert (WINDOW + i) / 1024 == 1023 && (WINDOW + i) % 1024 == i;
  }

  /** pde_ptr(v) reaches the directory entry of v, for every v. */
  lemma PdePtrReachesEntry(mem: Memory, pd: nat, v: Word)
    requires pd < 0x10_0000 && SelfMapped(mem, pd)
    ensures Walk(mem, pd, PdePtr(v)) == Some(Phys(pd, PdeIdx(v) * 4))
  {
    assert PdePtr(v) / 4096 == WINDOW + 1023 && PdePtr(v) % 4096 == PdeIdx(v) * 4;
    WindowPage(mem, pd, 1023);
  }

  /**
   * pte_ptr(v) reaches the table entry of v exactly when v has a page table, and faults otherwise; inside the
   * window too.
   */
  lemma PtePtrReachesEntry(mem: Memory, pd: nat, v: Word)
    requires pd < 0x10_0000 && SelfMapped(mem, pd)
    ensures Walk(mem, pd, PtePtr(v))
         == if Present(mem[pd][PdeIdx(v)]) then Some(Phys(FrameOf(mem[pd][PdeIdx(v)]), PteIdx(v) * 4)) else None
  {
    assert v / 0x40_0000 * 0x40_0000 / 1024 == PdeIdx(v) * 4096;
    assert PtePtr(v) / 4096 == WINDOW + PdeIdx(v) && PtePtr(v) % 4096 == PteIdx(v) * 4;
    WindowPage(mem, pd, PdeIdx(v));
  }

  /** Pages `u` and `v` read their entry from the same table slot. */
  predicate SameSlot(mem: Memory, pd: nat, u: nat, v: nat)
    requires pd < 0x10_0000 && u < 0x10_0000 && v < 0x10_0000
  {
    && Present(mem[pd][u / 1024]) && Present(mem[pd][v / 1024])
    && FrameOf(mem[pd][u / 1024]) == FrameOf(mem[pd][v / 1024])
    && u % 1024 == v % 1024
  }

  /** Memory after a store to word `i` of frame `f`. */
  function Put(mem: Memory, f: nat, i: nat, w: Word): (r: Memory)
    requires f < 0x10_0000 && i < 1024
    ensures r[f][i] == w
    ensures forall g: nat, j: nat | g < 0x10_0000 && j < 1024 && (g != f || j != i) :: r[g][j] == mem[g][j]
    ensures forall g: nat | g < 0x10_0000 && g != f :: r[g] == mem[g]
  {
    var row: Frame := mem[f][i := w];
    mem[f := row]
  }

  /**
   * Filling the entry of page `v` in an existing table retargets exactly the pages that share that table slot
   * and no other page below the window. In the boot directory slots 0 and 768 name one table, so a kernel
   * heap page there also appears 3 GB lower.
   */
  lemma FillingAnEntry(mem: Memory, pd: nat, v: nat, frame: nat, u: nat)
    requires pd < 0x10_0000 && v < WINDOW && u < WINDOW && frame < 0x10_0000
    requires SelfMapped(mem, pd) && Present(mem[pd][v / 1024]) && FrameOf(mem[pd][v / 1024]) != pd
    ensures Trans(Put(mem, FrameOf(mem[pd][v / 1024]), v % 1024, EntryFor(frame)), pd, u)
         == if SameSlot(mem, pd, u, v) then Some(frame) else Trans(mem, pd, u)
  {
  }

  /** Slots 0 and 768 sharing a table (boot/loader.asm) makes heap page 0xc0100 and page 0x100 one mapping. */
  lemma BootAlias(mem: Memory, pd: nat, frame: nat)
    requires pd < 0x10_0000 && frame < 0x10_0000 && SelfMapped(mem, pd)
    requires Present(mem[pd][768]) && mem[pd][0] == mem[pd][768] && FrameOf(mem[pd][768]) != pd
    ensures Trans(Put(mem, FrameOf(mem[pd][768]), 256, EntryFor(frame)), pd, 0x100) == Some(frame)
    ensures Trans(Put(mem, FrameOf(mem[pd][768]), 256, EntryFor(frame)), pd, 0xc0100) == Some(frame)
  {
    FillingAnEntry(mem, pd, 0xc0100, frame, 0x100);
    FillingAnEntry(mem, pd, 0xc0100, frame, 0xc0100);
  }
}
