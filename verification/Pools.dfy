/**
 * The page pools of kernel/memory.c over every live address space: which frame each managed page lands on,
 * which bits say so, and who owns each frame in use.
 */
module Pools {
  import opened Options
  import opened Paging

  const BOOT := 0x100              // frame of the boot page directory, all kernel threads run on it
  const KERNEL_HALF := 0xc0000     // first page of the kernel half, directory slot 768
  const KERNEL_HEAP := 0xc0100     // KERNEL_HEAP_START
  const USER_START := 0x8048       // USER_VADDR_START
  const USER_LEN := 94199          // bytes of a process's virtual page bitmap

  /** struct pool: `len` bytes of bitmap over the frames from `start`. */
  datatype Pool = Pool(bits: seq<bool>, len: nat, start: nat) {
    predicate Sane() {
      |bits| == 8 * len && 1 <= len && 0 < start && start + 8 * len <= 0x10_0000
    }

    predicate Holds(f: nat)
      requires Sane()
    {
      start <= f < start + 8 * len
    }

    predicate Free(f: nat)
      requires Sane()
    {
      Holds(f) && !bits[f - start]
    }

    function Set(f: nat, on: bool): (p: Pool)
      requires Sane() && Holds(f)
      ensures p.Sane() && p.start == start && p.len == len
      ensures forall g: nat :: p.Holds(g) == Holds(g) && p.Free(g) == (if g == f then !on else Free(g))
    {
      this.(bits := bits[f - start := on])
    }

    /** Frames palloc can still hand out: the clear bits inside the first-fit window. */
    function Allocatable(): set<nat>
      requires Sane()
    {
      set i: nat | i < len - 1 && !bits[i]
    }
  }

  /** A managed virtual page: one of a process's user half, or one of the shared kernel half. */
  datatype Page = UserPage(pd: nat, vp: nat) | KernelPage(vp: nat)

  /** What a frame in use holds. */
  datatype Owner = Mapped(page: Page) | UserTable(pd: nat, slot: nat) | KernelTable(slot: nat) | BootDirectory

  datatype Snap = Snap(mem: Memory, kp: Pool, up: Pool, kv: seq<bool>, uv: map<nat, seq<bool>>, owner: map<nat, Owner>)

  predicate Directory(s: Snap, pd: nat) { pd == BOOT || pd in s.uv }

  /** `pg` lies in a live address space, below the self-map window. */
  predicate InSpace(s: Snap, pg: Page) {
    match pg
    case UserPage(pd, vp) => pd in s.uv && pd < 0x10_0000 && vp < KERNEL_HALF
    case KernelPage(vp) => KERNEL_HALF <= vp < WINDOW
  }

  predicate HeapPage(s: Snap, vp: nat) { KERNEL_HEAP <= vp < KERNEL_HEAP + |s.kv| }

  /** Pages malloc_page and get_one_page hand out: all of a user half, and the kernel heap. */
  predicate Managed(s: Snap, pg: Page) {
    InSpace(s, pg) && (pg.KernelPage? ==> HeapPage(s, pg.vp))
  }

  function Dir(pg: Page): nat { if pg.UserPage? then pg.pd else BOOT }

  /** The frame page `pg` translates to. */
  function Look(s: Snap, pg: Page): (r: Option<nat>)
    requires InSpace(s, pg)
    ensures r.Some? ==> r.value < 0x10_0000
  {
    Trans(s.mem, Dir(pg), pg.vp)
  }

  /** The directory entry of `pg`. */
  function Pde(s: Snap, pg: Page): Word
    requires InSpace(s, pg)
  {
    s.mem[Dir(pg)][pg.vp / 1024]
  }

  predicate VirtualBit(s: Snap, pg: Page)
    requires InSpace(s, pg)
  {
    match pg
    case UserPage(pd, vp) => USER_START <= vp && vp - USER_START < |s.uv[pd]| && s.uv[pd][vp - USER_START]
    case KernelPage(vp) => HeapPage(s, vp) && s.kv[vp - KERNEL_HEAP]
  }

  function PoolOf(s: Snap, pg: Page): Pool { if pg.UserPage? then s.up else s.kp }

  predicate Free(s: Snap, f: nat)
    requires s.kp.Sane() && s.up.Sane()
  {
    s.kp.Free(f) || s.up.Free(f)
  }

  ghost predicate PoolsSane(s: Snap) {
    && s.kp.Sane() && s.up.Sane()
    && s.kp.start + 8 * s.kp.len <= s.up.start
    && 0x102 <= s.kp.start && KERNEL_HEAP + |s.kv| <= WINDOW && |s.kv| % 8 == 0 && 8 <= |s.kv|
    && (forall pd | pd in s.uv :: |s.uv[pd]| == 8 * USER_LEN)
  }

  /** Every directory maps itself, shares the kernel half, and is a frame in use. */
  ghost predicate Directories(s: Snap) {
    && BOOT in s.owner && s.owner[BOOT] == BootDirectory && SelfMapped(s.mem, BOOT)
    && (forall pd | pd in s.uv :: 0 < pd < 0x10_0000 && pd in s.owner && s.owner[pd].Mapped? &&
         s.owner[pd].page.KernelPage?)
    && (forall pd | pd in s.uv :: SelfMapped(s.mem, pd))
    && (forall pd, i: nat | pd in s.uv && 768 <= i < 1023 :: s.mem[pd][i] == s.mem[BOOT][i])
  }

  /** A present directory entry names a table owned by that slot alone. */
  ghost predicate Tables(s: Snap)
    requires Directories(s)
  {
    && (forall i: nat | 768 <= i < 1023 ::
          Present(s.mem[BOOT][i]) && FrameOf(s.mem[BOOT][i]) in s.owner &&
            s.owner[FrameOf(s.mem[BOOT][i])] == KernelTable(i))
    && (forall pd, i: nat | pd in s.uv && i < 768 && Present(s.mem[pd][i]) ::
          FrameOf(s.mem[pd][i]) in s.owner && s.owner[FrameOf(s.mem[pd][i])] == UserTable(pd, i) &&
          Permits(s.mem[pd][i], true, true))
  }

  /** A mapped managed page owns its frame, which lies in the right pool, and has its virtual bit set. */
  ghost predicate Pages(s: Snap)
    requires PoolsSane(s)
  {
    forall pg | Managed(s, pg) && Look(s, pg).Some? ::
      var f := Look(s, pg).value;
      f in s.owner && s.owner[f] == Mapped(pg) && PoolOf(s, pg).Holds(f) && VirtualBit(s, pg) && Writable(s, pg)
  }

  /** A process can read and write its own pages from user mode. */
  predicate Writable(s: Snap, pg: Page)
    requires InSpace(s, pg)
  {
    pg.UserPage? ==> Accessible(s.mem, pg.pd, pg.vp, true, true)
  }

  ghost predicate Inv(s: Snap) {
    && PoolsSane(s) && Directories(s) && Tables(s) && Pages(s)
    && (forall f | f in s.owner :: !Free(s, f) && (s.owner[f].UserTable? ==> s.kp.Holds(f)))
  }

  /** What Inv gives a client: one page per frame, and both bits of every mapped page set. */
  lemma MappedOnce(s: Snap, p: Page, q: Page)
    requires Inv(s) && Managed(s, p) && Managed(s, q) && Look(s, p).Some?
    ensures VirtualBit(s, p) && Writable(s, p)
    ensures var f := Look(s, p).value; PoolOf(s, p).Holds(f) && !PoolOf(s, p).Free(f)
    ensures p != q ==> Look(s, q) != Look(s, p)
  {
    var f := Look(s, p).value;
    assert !Free(s, f);
  }

  /** `s'` differs from `s` in the translation of `pg` alone. */
  ghost predicate OnlyMoves(s: Snap, s': Snap, pg: Page) {
    && s'.uv.Keys == s.uv.Keys
    && forall q | InSpace(s, q) && q != pg :: Look(s', q) == Look(s, q)
  }

  // ---- the elementary updates keep Inv ----

  /** A frame taken from a pool by setting its bit. */
  lemma TakeFrame(s: Snap, f: nat)
    requires Inv(s)
    ensures s.kp.Holds(f) ==> Inv(s.(kp := s.kp.Set(f, true)))
    ensures s.up.Holds(f) ==> Inv(s.(up := s.up.Set(f, true)))
  {
    if s.kp.Holds(f) {
      SameView(s, s.(kp := s.kp.Set(f, true)));
    }
    if s.up.Holds(f) {
      SameView(s, s.(up := s.up.Set(f, true)));
    }
  }

  /** An unowned frame given back by clearing its bit. */
  lemma GiveFrame(s: Snap, f: nat)
    requires Inv(s) && f !in s.owner
    ensures s.kp.Holds(f) ==> Inv(s.(kp := s.kp.Set(f, false)))
    ensures s.up.Holds(f) ==> Inv(s.(up := s.up.Set(f, false)))
  {
    if s.kp.Holds(f) {
      SameView(s, s.(kp := s.kp.Set(f, false)));
    }
    if s.up.Holds(f) {
      SameView(s, s.(up := s.up.Set(f, false)));
    }
  }

  lemma SameView(s: Snap, s': Snap)
    requires s'.mem == s.mem && s'.uv.Keys == s.uv.Keys && |s'.kv| == |s.kv|
    ensures forall pg :: InSpace(s', pg) == InSpace(s, pg) && Managed(s', pg) == Managed(s, pg)
    ensures forall pg | InSpace(s, pg) :: Look(s', pg) == Look(s, pg)
  {
  }

  /** A page table filled with zeroes and linked into an empty slot: no translation changes. */
  lemma LinkTable(s: Snap, pd: nat, slot: nat, t: nat, s': Snap)
    requires Inv(s) && pd in s.uv && slot < 768 && !Present(s.mem[pd][slot])
    requires s.kp.Holds(t) && !s.kp.Free(t) && t !in s.owner
    requires s' == s.(mem := Put(s.mem, pd, slot, EntryFor(t))[t := ZeroFrame()],
               owner := s.owner[t := UserTable(pd, slot)])
    ensures Inv(s')
    ensures forall q | InSpace(s, q) :: Look(s', q) == Look(s, q)
  {
    hide Trans;
    LinkedTableIsEmpty(s, pd, slot, t, s');
    LinkedTableOwned(s, pd, slot, t, s');
    assert forall pg | Managed(s', pg) && Look(s', pg).Some? :: Managed(s, pg) && Look(s', pg) == Look(s, pg);
  }

  lemma LinkedTableIsEmpty(s: Snap, pd: nat, slot: nat, t: nat, s': Snap)
    requires Inv(s) && pd in s.uv && slot < 768 && !Present(s.mem[pd][slot]) && t < 0x10_0000 && t !in s.owner
    requires s'.uv == s.uv && s'.mem == Put(s.mem, pd, slot, EntryFor(t))[t := ZeroFrame()]
    ensures forall q | InSpace(s, q) :: Look(s', q) == Look(s, q)
  {
    forall q | InSpace(s, q)
      ensures Look(s', q) == Look(s, q)
    {
      if q.UserPage? && q.pd == pd && q.vp / 1024 == slot {
        assert s'.mem[t][q.vp % 1024] == 0;
      } else if Present(Pde(s, q)) {
        assert FrameOf(Pde(s, q)) != t && FrameOf(Pde(s, q)) != pd;
      }
    }
  }

  lemma LinkedTableOwned(s: Snap, pd: nat, slot: nat, t: nat, s': Snap)
    requires Inv(s) && pd in s.uv && slot < 768 && t < 0x10_0000 && t !in s.owner
    requires s'.uv == s.uv && s'.mem == Put(s.mem, pd, slot, EntryFor(t))[t := ZeroFrame()]
    requires s'.owner == s.owner[t := UserTable(pd, slot)]
    ensures Directories(s') && Tables(s')
  {
    assert s'.mem[pd] == s.mem[pd][slot := EntryFor(t)];
    assert s'.mem[BOOT] == s.mem[BOOT];
    assert forall p | p in s.uv && p != pd :: s'.mem[p] == s.mem[p];
  }

  /** The entry of an unmapped managed page filled in: that page moves, and nothing else. */
  lemma MapPage(s: Snap, pg: Page, f: nat, s': Snap)
    requires Inv(s) && Managed(s, pg) && Present(Pde(s, pg)) && Look(s, pg).None? && VirtualBit(s, pg)
    requires PoolOf(s, pg).Holds(f) && !Free(s, f) && f !in s.owner
    requires s' == s.(mem := Put(s.mem, FrameOf(Pde(s, pg)), pg.vp % 1024, EntryFor(f)),
               owner := s.owner[f := Mapped(pg)])
    ensures Inv(s') && Look(s', pg) == Some(f) && OnlyMoves(s, s', pg)
  {
    EntryMovesOnePage(s, pg, EntryFor(f), s');
    DirectoriesKept(s, s');
    PagesKept(s, s', pg);
  }

  /** The present bit of a mapped page cleared: that page is gone, and nothing else moves. */
  lemma UnmapPage(s: Snap, pg: Page, w: Word, s': Snap)
    requires Inv(s) && Managed(s, pg) && Look(s, pg).Some? && Look(s, pg).value !in s.uv && !Present(w)
    requires s' == s.(mem := Put(s.mem, FrameOf(Pde(s, pg)), pg.vp % 1024, w), owner := s.owner - {Look(s, pg).value})
    ensures Inv(s') && Look(s', pg) == None && OnlyMoves(s, s', pg)
  {
    EntryMovesOnePage(s, pg, w, s');
    DirectoriesKept(s, s');
    PagesKept(s, s', pg);
  }

  /** Directories and tables stay in order while their rows and owners stay. */
  lemma DirectoriesKept(s: Snap, s': Snap)
    requires Inv(s) && s'.uv == s.uv
    requires s'.mem[BOOT] == s.mem[BOOT] && forall pd | pd in s.uv :: s'.mem[pd] == s.mem[pd]
    requires forall f | f in s.owner && (!s.owner[f].Mapped? || f in s.uv) :: f in s'.owner && s'.owner[f] == s.owner[f]
    ensures Directories(s') && Tables(s')
  {
  }

  /** Mapped pages stay in order while only `pg` moves, to a frame of its own or to none. */
  lemma PagesKept(s: Snap, s': Snap, pg: Page)
    requires Inv(s) && s' == s.(mem := s'.mem, owner := s'.owner) && OnlyMoves(s, s', pg) && Managed(s, pg)
    requires forall f | f in s.owner && s.owner[f].Mapped? && s.owner[f].page != pg ::
               f in s'.owner && s'.owner[f] == s.owner[f]
    requires Look(s', pg).Some? ==>
               var f := Look(s', pg).value;
               && f in s'.owner && s'.owner[f] == Mapped(pg) && PoolOf(s, pg).Holds(f) && VirtualBit(s, pg)
               && Writable(s', pg)
    requires forall q | InSpace(s, q) && q != pg && Look(s, q).Some? && Writable(s, q) :: Writable(s', q)
    ensures Pages(s')
  {
    hide Trans, Accessible;
    forall q | Managed(s', q) && Look(s', q).Some?
      ensures var f := Look(s', q).value;
              && f in s'.owner && s'.owner[f] == Mapped(q) && PoolOf(s', q).Holds(f) && VirtualBit(s', q)
              && Writable(s', q)
    {
      if q != pg {
        assert Look(s', q) == Look(s, q) && Managed(s, q);
      }
    }
  }

  /** Storing any word in the entry of a managed page leaves directories and every other page as they were. */
  lemma EntryMovesOnePage(s: Snap, pg: Page, w: Word, s': Snap)
    requires Inv(s) && Managed(s, pg) && Present(Pde(s, pg))
    requires s'.mem == Put(s.mem, FrameOf(Pde(s, pg)), pg.vp % 1024, w) && s'.uv == s.uv && s'.kv == s.kv
    ensures s'.mem[BOOT] == s.mem[BOOT] && forall pd | pd in s.uv :: s'.mem[pd] == s.mem[pd]
    ensures Look(s', pg) == (if Present(w) then Some(FrameOf(w)) else None)
    ensures OnlyMoves(s, s', pg)
    ensures forall q | InSpace(s, q) && q != pg && Look(s, q).Some? && Writable(s, q) :: Writable(s', q)
    ensures Permits(w, true, true) ==> Writable(s', pg)
  {
    var t := FrameOf(Pde(s, pg));
    assert t in s.owner && s.owner[t] == if pg.UserPage? then UserTable(pg.pd, pg.vp / 1024)
      else KernelTable(pg.vp / 1024);
    forall q | InSpace(s, q) && q != pg
      ensures Look(s', q) == Look(s, q) && (Look(s, q).Some? && Writable(s, q) ==> Writable(s', q))
    {
      if Present(Pde(s, q)) && FrameOf(Pde(s, q)) == t {
        assert q.vp / 1024 == pg.vp / 1024;
        assert q.vp % 1024 != pg.vp % 1024;
      }
    }
  }

  /** Virtual bits may be set at will, and cleared for a page that is not mapped. */
  lemma SetVirtualBits(s: Snap, s': Snap)
    requires Inv(s) && s'.uv.Keys == s.uv.Keys && |s'.kv| == |s.kv|
    requires s' == s.(kv := s'.kv, uv := s'.uv)
    requires forall pd | pd in s.uv :: |s'.uv[pd]| == |s.uv[pd]|
    requires forall pg | Managed(s, pg) && Look(s, pg).Some? && VirtualBit(s, pg) :: VirtualBit(s', pg)
    ensures Inv(s')
  {
    SameView(s, s');
  }
}
