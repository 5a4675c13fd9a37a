/**
 * sys_malloc and sys_free as they work in place, over the page allocator: every arena page is mapped, so every
 * live byte has a byte of physical memory to itself.
 */
module Allocators {
  import opened Options
  import opened Paging
  import opened Sequences
  import opened PageSteps
  import opened Heap
  import opened Malloc
  import Bitmaps
  import Pools
  import FrameZero
  import PageAllocator

  // ---- arena pages are mapped ----

  /** Page `q` is mapped, to a frame that is no page directory. */
  ghost predicate PageBacked(s: Pools.Snap, pf: PoolFlag, pd: nat, q: nat) {
    var pg := PageAt(pf, pd, q);
    Pools.Managed(s, pg) && Pools.Look(s, pg).Some? && Pools.Look(s, pg).value !in s.uv
  }

  ghost predicate RunBacked(s: Pools.Snap, pf: PoolFlag, pd: nat, page: nat, cnt: nat) {
    forall q: nat | page <= q < page + cnt :: PageBacked(s, pf, pd, q)
  }

  /** Every page of every arena is mapped. */
  ghost predicate Backed(h: State, s: Pools.Snap, pf: PoolFlag, pd: nat) {
    forall p | p in h.arenas :: RunBacked(s, pf, pd, p, Span(h.arenas[p]))
  }

  /** Pages mapped before are mapped still. */
  ghost predicate StillBacked(s: Pools.Snap, s': Pools.Snap, pf: PoolFlag, pd: nat) {
    forall q: nat | PageBacked(s, pf, pd, q) :: PageBacked(s', pf, pd, q)
  }

  /** malloc_page takes no page away, and backs the whole run when it succeeds. */
  lemma MallocBacks(s: Pools.Snap, r: Pools.Snap, m: Pools.Snap, pf: PoolFlag, pd: nat, vp: nat, cnt: nat, done: nat)
    requires Pools.Inv(s) && Pools.Inv(r) && Pools.Directory(s, pd) && (pf.PF_USER? ==> pd in s.uv) && done <= cnt
    requires ReservedRun(s, r, pf, pd, vp, cnt) && MappedRun(r, m, pf, pd, vp, done)
    ensures StillBacked(s, m, pf, pd) && (done == cnt ==> RunBacked(m, pf, pd, vp, cnt))
  {
    hide Pools.Inv, Pools.PoolsSane, OwnersKept, PagesIntact, OtherDirsKept, TakenForRun, RunIsMapped, Trans;
    Pools.SameView(s, r);
    forall q: nat | PageBacked(s, pf, pd, q)
      ensures PageBacked(m, pf, pd, q)
    {
      var pg := PageAt(pf, pd, q);
      assert !InRun(pf, pd, vp, cnt, pg);
      assert Pools.Look(m, pg) == Pools.Look(s, pg);
    }
    if done == cnt {
      FreshRunIsMapped(s, r, m, pf, pd, vp, cnt);
      MappedIsBacked(m, pf, pd, vp, cnt);
    }
  }

  lemma NothingMoved(s: Pools.Snap, pf: PoolFlag, pd: nat)
    ensures StillBacked(s, s, pf, pd)
  {
  }

  lemma MappedIsBacked(s: Pools.Snap, pf: PoolFlag, pd: nat, vp: nat, cnt: nat)
    requires RunIsMapped(s, pf, pd, vp, cnt)
    ensures RunBacked(s, pf, pd, vp, cnt)
  {
    forall q: nat | vp <= q < vp + cnt
      ensures PageBacked(s, pf, pd, q)
    {
      assert InRun(pf, pd, vp, cnt, PageAt(pf, pd, q));
    }
  }

  /** Pages outside the run mfree_page releases stay mapped. */
  lemma FreeKeepsBacked(r: Pools.Snap, z: Pools.Snap, pf: PoolFlag, pd: nat, vp: nat, cnt: nat, page: nat, n: nat)
    requires Pools.Inv(r) && ReleasedRun(r, z, pf, pd, vp, cnt)
    requires RunBacked(r, pf, pd, page, n) && (page + n <= vp || vp + cnt <= page)
    ensures RunBacked(z, pf, pd, page, n)
  {
    forall q: nat | page <= q < page + n
      ensures PageBacked(z, pf, pd, q)
    {
      assert PageBacked(r, pf, pd, q);
      assert !InRun(pf, pd, vp, cnt, PageAt(pf, pd, q));
    }
  }

  /** What mfree_page asks of a run. */
  lemma BackedIsMapped(s: Pools.Snap, pf: PoolFlag, pd: nat, vp: nat, cnt: nat)
    requires Pools.Inv(s) && Pools.Directory(s, pd) && (pf.PF_USER? ==> pd in s.uv) && 1 <= cnt && Base(pf) <= vp
    requires RunBacked(s, pf, pd, vp, cnt)
    ensures RunIsMapped(s, pf, pd, vp, cnt) && vp + cnt <= 0x10_0000
  {
    assert PageBacked(s, pf, pd, vp + cnt - 1);
    forall q | InRun(pf, pd, vp, cnt, q)
      ensures Pools.Managed(s, q) && Pools.Look(s, q).Some? && Pools.Look(s, q).value !in s.uv
    {
      assert PageBacked(s, pf, pd, q.vp);
    }
  }

  lemma StillAllBacked(h: State, h': State, s: Pools.Snap, s': Pools.Snap, pf: PoolFlag, pd: nat)
    requires Backed(h, s, pf, pd) && StillBacked(s, s', pf, pd) && h'.arenas == h.arenas
    ensures Backed(h', s', pf, pd)
  {
    forall p | p in h.arenas
      ensures RunBacked(s', pf, pd, p, Span(h.arenas[p]))
    {
      assert RunBacked(s, pf, pd, p, Span(h.arenas[p]));
    }
  }

  lemma OneMoreBacked(h: State, h': State, s: Pools.Snap, pf: PoolFlag, pd: nat, page: nat)
    requires Backed(h, s, pf, pd) && page in h'.arenas && h'.arenas == h.arenas[page := h'.arenas[page]]
    requires RunBacked(s, pf, pd, page, Span(h'.arenas[page]))
    ensures Backed(h', s, pf, pd)
  {
  }

  lemma SameArenaBacked(h: State, h': State, s: Pools.Snap, pf: PoolFlag, pd: nat, page: nat)
    requires Backed(h, s, pf, pd) && page in h.arenas && page in h'.arenas
    requires h'.arenas == h.arenas[page := h'.arenas[page]]
    requires Span(h'.arenas[page]) == Span(h.arenas[page])
    ensures Backed(h', s, pf, pd)
  {
    assert RunBacked(s, pf, pd, page, Span(h.arenas[page]));
  }

  lemma ArenasApart(h: State, page: nat)
    requires Inv(h) && page in h.arenas
    ensures h.base <= page
    ensures forall p | p in h.arenas && p != page :: p + Span(h.arenas[p]) <= page || page + Span(h.arenas[page]) <= p
  {
  }

  /** The bitmaps, as reserving and releasing leave them. */
  lemma RunReserved(s: Pools.Snap, r: Pools.Snap, pf: PoolFlag, pd: nat, vp: nat, cnt: nat)
    requires Pools.Inv(s) && (pf.PF_USER? ==> pd in s.uv) && ReservedRun(s, r, pf, pd, vp, cnt)
    ensures Base(pf) <= vp && vp - Base(pf) + cnt <= |VirtualMap(s, pf, pd)| && (pf.PF_USER? ==> pd in r.uv)
    ensures VirtualMap(r, pf, pd) == WithRun(VirtualMap(s, pf, pd), vp - Base(pf), cnt, true)
  {
  }

  lemma RunReleased(r: Pools.Snap, z: Pools.Snap, pf: PoolFlag, pd: nat, vp: nat, cnt: nat)
    requires Pools.Inv(r) && (pf.PF_USER? ==> pd in r.uv) && ReleasedRun(r, z, pf, pd, vp, cnt)
    ensures Base(pf) <= vp && vp - Base(pf) + cnt <= |VirtualMap(r, pf, pd)| && (pf.PF_USER? ==> pd in z.uv)
    ensures VirtualMap(z, pf, pd) == WithRun(VirtualMap(r, pf, pd), vp - Base(pf), cnt, false)
  {
  }

  /** The heap's view of vaddr_get's search. */
  lemma PagesTaken(h: State, s: Pools.Snap, pf: PoolFlag, pd: nat, cnt: nat, frames: bool)
    requires Shape(h) && Pools.Inv(s) && (pf.PF_USER? ==> pd in s.uv) && h.base == Base(pf)
    requires h.bits == VirtualMap(s, pf, pd)
    ensures var run := FirstRun(s, pf, pd, cnt);
            if run == -1 then TakePages(h, cnt, frames) == (h, None)
            else
              && run + cnt <= |h.bits|
              && TakePages(h, cnt, frames) ==
                 (h.(bits := WithRun(h.bits, run, cnt, true)), if frames then Some(h.base + run) else None)
  {
    hide Pools.Inv;
  }

  lemma HeldShape(h: State, spare: int)
    requires Held(h, spare)
    ensures Shape(h)
  {
  }

  // ---- what that means for live memory ----

  /** The physical address of byte `x`. */
  ghost function ByteAt(s: Pools.Snap, pf: PoolFlag, pd: nat, x: nat): nat
    requires PageBacked(s, pf, pd, x / PAGE)
  {
    Pools.Look(s, PageAt(pf, pd, x / PAGE)).value * PAGE + x % PAGE
  }

  /** Every byte of a live allocation lies in a mapped page. */
  lemma LiveByteMapped(h: State, s: Pools.Snap, pf: PoolFlag, pd: nat, ptr: nat, x: nat)
    requires Inv(h) && Backed(h, s, pf, pd) && ptr in h.live && ptr <= x < ptr + h.live[ptr]
    ensures PageBacked(s, pf, pd, x / PAGE)
  {
    hide Held;
    ExtentInArena(h, ptr);
    var p := PageOf(ptr);
    InvShape(h);
    assert p <= x / PAGE < p + Span(h.arenas[p]);
    assert RunBacked(s, pf, pd, p, Span(h.arenas[p]));
  }

  lemma LiveBytesDiffer(h: State, a: nat, x: nat, b: nat, y: nat)
    requires Inv(h) && a in h.live && b in h.live
    requires a <= x < a + h.live[a] && b <= y < b + h.live[b] && (a, x) != (b, y)
    ensures x != y
  {
    InvShape(h);
    InvIsSafe(h);
    hide Held;
    if a != b {
      assert Apart(a, h.live[a], b, h.live[b]);
    }
  }

  lemma MappedApart(s: Pools.Snap, pf: PoolFlag, pd: nat, x: nat, y: nat)
    requires Pools.Inv(s) && x != y && PageBacked(s, pf, pd, x / PAGE) && PageBacked(s, pf, pd, y / PAGE)
    ensures ByteAt(s, pf, pd, x) != ByteAt(s, pf, pd, y)
  {
    hide Pools.Inv;
    if x / PAGE != y / PAGE {
      Pools.MappedOnce(s, PageAt(pf, pd, x / PAGE), PageAt(pf, pd, y / PAGE));
    }
  }

  /** Bytes of live allocations never share physical memory. */
  lemma LiveBytesApart(h: State, s: Pools.Snap, pf: PoolFlag, pd: nat, a: nat, x: nat, b: nat, y: nat)
    requires Inv(h) && Pools.Inv(s) && Backed(h, s, pf, pd)
    requires a in h.live && b in h.live && a <= x < a + h.live[a] && b <= y < b + h.live[b] && (a, x) != (b, y)
    ensures PageBacked(s, pf, pd, x / PAGE) && PageBacked(s, pf, pd, y / PAGE)
    ensures ByteAt(s, pf, pd, x) != ByteAt(s, pf, pd, y)
  {
    hide Held, Pools.Inv, Backed, PageBacked;
    LiveByteMapped(h, s, pf, pd, a, x);
    LiveByteMapped(h, s, pf, pd, b, y);
    LiveBytesDiffer(h, a, x, b, y);
    MappedApart(s, pf, pd, x, y);
  }

  // ---- in place ----

  /** Pages a request of `size` bytes takes when no free block serves it. */
  function PagesAsked(size: nat): (n: nat)
    ensures n >= 1
  {
    if size > 1024 then PagesFor(size) else 1
  }

  /** The descriptors and the arena headers of one process or of the kernel, on a machine. */
  class Allocator {
    const m: PageAllocator.Machine
    const pf: PoolFlag
    const pd: nat                             // the directory the owner runs on
    const poolSize: nat
    var arenas: map<nat, Arena>
    var free: seq<seq<nat>>
    ghost var live: map<nat, nat>

    /** The owner's virtual page bitmap. */
    function Bits(): seq<bool>
      reads m
    {
      if pf.PF_KERNEL? then m.kernelVaddr else if pd in m.userVaddr then m.userVaddr[pd] else []
    }

    ghost function S(): State
      reads this, m
    {
      State(Base(pf), Bits(), arenas, free, live)
    }

    /** The owner is running. */
    ghost predicate Active()
      reads m
    {
      m.Valid() && m.cr3 == pd && (pf.PF_USER? ==> pd in m.userVaddr)
    }

    ghost predicate Valid()
      reads this, m
    {
      Active() && Inv(S()) && Backed(S(), m.S(), pf, pd)
    }

    /** block_desc_init, over a bitmap some of whose pages may already be taken. */
    constructor (m: PageAllocator.Machine, pf: PoolFlag, poolSize: nat)
      requires m.Valid() && (pf.PF_USER? ==> m.cr3 in m.userVaddr)
      ensures this.m == m && this.pf == pf && pd == m.cr3 && this.poolSize == poolSize
      ensures Valid() && arenas == map[] && free == seq(DESC_CNT, _ => []) && live == map[]
    {
      this.m, this.pf, this.pd, this.poolSize := m, pf, m.cr3, poolSize;
      arenas, free, live := map[], seq(DESC_CNT, _ => []), map[];
      new;
      VirtualMapSane(m.S(), pf, m.cr3);
      EmptyHeap(Base(pf), Bits());
    }

    /** The pool holds enough frames for the pages asked. */
    ghost predicate HasFrames(cnt: nat)
      requires m.Valid()
      reads m
    {
      cnt <= |PoolFor(m.S(), pf).Allocatable()|
    }

    /** Tables for those pages are there or can be had. */
    ghost predicate HasTables(cnt: nat)
      requires Active()
      reads m
    {
      TablesSuffice(m.S(), pf, pd, cnt)
    }

    /** malloc_page on the owner's bitmap. */
    method TakeRun(cnt: nat) returns (page: Option<nat>)
      requires Active() && Shape(S()) && 0 < cnt < 3840
      requires !Bitmaps.Strays(Bits(), |Bits()| / 8, cnt)
      modifies m
      ensures TakePages(old(S()), cnt, old(HasFrames(cnt))) == (S(), page)
      ensures if old(HasTables(cnt))
              then Active() && StillBacked(old(m.S()), m.S(), pf, pd)
                   && (page.Some? ==> RunBacked(m.S(), pf, pd, page.value, cnt))
              else FrameZero.Lost(m.S())
    {
      hide Pools.Inv, MappedRun, ReservedRun, TablesSuffice, FrameZero.Lost, StillBacked, RunBacked, TakePages,
           FirstRun;
      ghost var s := m.S();
      PagesTaken(S(), s, pf, pd, cnt, HasFrames(cnt));
      var v;
      ghost var r, done;
      v, r, done := m.MallocPage(pf, cnt);
      page := if v == 0 then None else Some(v / 4096);
      ghost var run := FirstRun(s, pf, pd, cnt);
      if run >= 0 {
        PageNumber(Base(pf) + run);
        RunReserved(s, r, pf, pd, Base(pf) + run, cnt);
        if TablesSuffice(s, pf, pd, cnt) {
          MallocBacks(s, r, m.S(), pf, pd, Base(pf) + run, cnt, done);
        }
      } else {
        assert StillBacked(s, m.S(), pf, pd) by {
          NothingMoved(s, pf, pd);
        }
      }
    }

    /** mfree_page, the arena with it. */
    method GiveRun(page: nat, cnt: nat)
      requires Active() && Shape(S()) && Backed(S(), m.S(), pf, pd) && page in arenas && cnt == Span(arenas[page])
      requires forall p | p in arenas && p != page :: p + Span(arenas[p]) <= page || page + cnt <= p
      modifies m, this`arenas
      ensures Active() && S() == DropPages(old(S()), page) && Backed(S(), m.S(), pf, pd)
    {
      hide Pools.Inv, ReleasedRun, RunIsMapped, RunBacked, Pools.Directory;
      ghost var r := m.S();
      BackedIsMapped(r, pf, pd, page, cnt);
      PageNumber(page);
      m.MFreePage(pf, page * 4096, cnt);
      RunReleased(r, m.S(), pf, pd, page, cnt);
      forall p | p in arenas && p != page
        ensures RunBacked(m.S(), pf, pd, p, Span(arenas[p]))
      {
        FreeKeepsBacked(r, m.S(), pf, pd, page, cnt, p, Span(arenas[p]));
      }
      arenas := arenas - {page};
    }

    /** The descriptor search loop. */
    method FindDesc(size: nat) returns (d: nat)
      ensures d == DescFor(size)
    {
      var i := 0;
      d := 0;
      while i < DESC_CNT
        invariant 0 <= i < DESC_CNT && DescFor(size) == DescFrom(size, i)
      {
        d := i;
        if size <= BlockSize(i) {
          break;
        }
        if i == DESC_CNT - 1 {
          break;
        }
        i := i + 1;
      }
    }

    /** A new arena's header and its blocks, appended one by one. */
    method FillArena(page: nat, d: nat)
      requires Shape(S()) && d < DESC_CNT && free[d] == []
      modifies this`arenas, this`free
      ensures S() == NewArena(old(S()), page, d)
    {
      arenas := arenas[page := Small(d, PerArena(d))];
      var i := 0;
      while i < PerArena(d)
        invariant 0 <= i <= PerArena(d)
        invariant free == old(free)[d := Blocks(page, d)[..i]] && arenas == old(arenas)[page := Small(d, PerArena(d))]
      {
        var b := BlockAt(page, d, i);
        assert b !in free[d] by {
          BlocksDistinct(page, d);
          assert Blocks(page, d)[i] == b;
        }
        assert Blocks(page, d)[..i + 1] == Blocks(page, d)[..i] + [b];
        free := free[d := free[d] + [b]];
        i := i + 1;
      }
      assert Blocks(page, d)[..i] == Blocks(page, d);
      assert old(free)[d] + Blocks(page, d) == Blocks(page, d);
    }

    /**
     * sys_malloc; 0 is NULL. The heap's own books are right in any case; the pages under it are, exactly when
     * no table had to be made from an empty kernel pool.
     */
    method SysMalloc(size: nat) returns (ptr: nat)
      requires Valid() && Servable(S(), poolSize, size)
      modifies this, m
      ensures Malloc.Malloc(old(S()), poolSize, size, old(HasFrames(PagesAsked(size)))) == (S(), ptr)
      ensures MallocEffect(old(S()), S(), size, ptr)
      ensures if old(AsksPages(size) ==> HasTables(PagesAsked(size))) then Valid() else FrameZero.Lost(m.S())
    {
      hide Pools.Inv, Held, Backed, TablesSuffice, FrameZero.Lost;
      ghost var h, frames := S(), HasFrames(PagesAsked(size));
      MallocKeeps(h, poolSize, size, frames);
      if !(size > 0 && size < poolSize) {
        return 0;
      }
      if size > 1024 {
        ptr := SysMallocLarge(size);
      } else {
        ptr := SysMallocSmall(size);
      }
    }

    /** The request reaches malloc_page. */
    predicate AsksPages(size: nat)
      requires |free| == DESC_CNT
      reads this
    {
      0 < size < poolSize && (size > 1024 || free[DescFor(size)] == [])
    }

    method SysMallocLarge(size: nat) returns (ptr: nat)
      requires Valid() && Servable(S(), poolSize, size) && 1024 < size < poolSize
      modifies this, m
      ensures MallocLarge(old(S()), size, old(HasFrames(PagesFor(size)))) == (S(), ptr)
      ensures if old(HasTables(PagesFor(size))) then Active() && Backed(S(), m.S(), pf, pd) else FrameZero.Lost(m.S())
    {
      hide Pools.Inv, TablesSuffice, FrameZero.Lost, RunBacked, StillBacked, Backed;
      ghost var h, s := S(), m.S();
      var pageCnt := PagesFor(size);
      var a := TakeRun(pageCnt);
      ghost var h1 := S();
      if TablesSuffice(s, pf, pd, pageCnt) {
        StillAllBacked(h, h1, s, m.S(), pf, pd);
      }
      if a == None {
        return 0;
      }
      arenas := arenas[a.value := Large(pageCnt)];
      ptr := FirstByte(a.value);
      live := live[ptr := size];
      if TablesSuffice(s, pf, pd, pageCnt) {
        OneMoreBacked(h1, S(), m.S(), pf, pd, a.value);
      }
    }

    /** A new arena for descriptor `d`, all of whose blocks are out. */
    method Refill(d: nat) returns (page: Option<nat>)
      requires Valid() && 8 <= |Bits()| && d < DESC_CNT && Shape(S()) && free[d] == []
      modifies this, m
      ensures var (h1, p) := TakePages(old(S()), 1, old(HasFrames(1)));
              && page == p && Shape(h1)
              && (p == None ==> S() == h1)
              && (p.Some? ==> S() == NewArena(h1, p.value, d) && Held(S(), p.value) && Shape(S()) && free[d] != [] &&
                              PageOf(free[d][0]) == p.value)
      ensures if old(HasTables(1)) then Active() && Backed(S(), m.S(), pf, pd) else FrameZero.Lost(m.S())
    {
      hide Held, Pools.Inv, TablesSuffice, FrameZero.Lost, RunBacked, StillBacked, Backed, TakePages;
      ghost var h, s, frames := S(), m.S(), HasFrames(1);
      TakePagesKeeps(h, 1, frames);
      page := TakeRun(1);
      ghost var h1 := S();
      InvShape(h1);
      if TablesSuffice(s, pf, pd, 1) {
        StillAllBacked(h, h1, s, m.S(), pf, pd);
      }
      if page == None {
        return;
      }
      NewArenaHead(h, h1, page.value, d);
      FillArena(page.value, d);
      HeldShape(S(), page.value);
      if TablesSuffice(s, pf, pd, 1) {
        OneMoreBacked(h1, S(), m.S(), pf, pd, page.value);
      }
    }

    method SysMallocSmall(size: nat) returns (ptr: nat)
      requires Valid() && 8 <= |Bits()| && 0 < size <= 1024
      modifies this, m
      ensures MallocSmall(old(S()), size, old(HasFrames(1))) == (S(), ptr)
      ensures if old(free[DescFor(size)] == [] ==> HasTables(1)) then Active() && Backed(S(), m.S(), pf, pd)
              else FrameZero.Lost(m.S())
    {
      hide Held, Pools.Inv, TablesSuffice, FrameZero.Lost, RunBacked, Backed, TakePages, NewArena, Blocks, PerArena;
      ghost var h, s := S(), m.S();
      InvShape(h);
      ghost var frames, tables := HasFrames(1), free[DescFor(size)] == [] ==> TablesSuffice(s, pf, pd, 1);
      SmallKeeps(h, size, frames);
      var d := FindDesc(size);
      ghost var spare: int := -1;
      if free[d] == [] {
        var a := Refill(d);
        if a == None {
          return 0;
        }
        spare := a.value;
      }
      ghost var h2 := S();
      ptr := PopBlock(d, size, spare);
      if tables {
        SameArenaBacked(h2, S(), m.S(), pf, pd, PageOf(ptr));
      }
    }

    /** list_pop and the arena's count. */
    method PopBlock(d: nat, size: nat, ghost spare: int) returns (ptr: nat)
      requires Shape(S()) && Held(S(), spare) && d < DESC_CNT && free[d] != [] && 0 < size <= BlockSize(d)
      requires spare == -1 || spare == PageOf(free[d][0])
      modifies this`free, this`arenas, this`live
      ensures FreeBlock(old(S()), d, old(free)[d][0]) && Shape(old(S())) && old(arenas)[PageOf(old(free)[d][0])].cnt > 0
      ensures TakeBlock(old(S()), d, size) == (S(), ptr)
    {
      hide Held, Inv;
      TakeBlockKeeps(S(), d, size, spare);
      ptr := free[d][0];
      free := free[d := free[d][1..]];
      var a := arenas[PageOf(ptr)];
      arenas := arenas[PageOf(ptr) := a.(cnt := a.cnt - 1)];
      live := live[ptr := size];
    }

    /** Every block of a full arena unlinked, one list_remove at a time. */
    method UnlinkArena(page: nat, d: nat)
      requires d < DESC_CNT && Held(S(), page) && page in arenas && arenas[page] == Small(d, PerArena(d))
      modifies this`free
      ensures |old(free)| == DESC_CNT && free == old(free)[d := Without(old(free)[d], BlockSet(page, d))]
    {
      hide Held, PerArena, BlockAt, BlockSet, BlockSize, Without, Remove, FirstBlocks;
      FullList(S(), page, d);
      ghost var list := free[d];
      WithoutNothing(list, {});
      var i := 0;
      NoBlocksYet(page, d);
      while i < PerArena(d)
        invariant 0 <= i <= PerArena(d)
        invariant free == old(free)[d := Without(list, FirstBlocks(page, d, i))]
      {
        var b := BlockAt(page, d, i);
        UnlinkOne(list, page, d, i);
        assert b in free[d];
        free := free[d := Remove(free[d], b)];
        i := i + 1;
      }
    }

    /** sys_free on a pointer sys_malloc returned. */
    method SysFree(ptr: nat)
      requires Valid() && ptr in live
      modifies this, m
      ensures PageOf(ptr) in old(arenas) && Shape(old(S())) && S() == Heap.Free(old(S()), ptr)
      ensures Valid() && live == old(live) - {ptr}
    {
      hide Held, Pools.Inv, RunBacked, Pools.Directory;
      ghost var h := S();
      InvShape(h);
      FreeKeeps(h, ptr);
      live := live - {ptr};
      var page := PageOf(ptr);
      var a := arenas[page];
      ArenasApart(h, page);
      if a.Large? {
        GiveRun(page, a.pages);
      } else {
        PutBlockKeeps(h, ptr);
        free := free[a.desc := free[a.desc] + [ptr]];
        arenas := arenas[page := a.(cnt := a.cnt + 1)];
        assert S() == PutBlock(h, ptr);
        if arenas[page].cnt == PerArena(a.desc) {
          UnlinkArena(page, a.desc);
          GiveRun(page, 1);
        }
      }
    }
  }
}
