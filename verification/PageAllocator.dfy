/** The page-level allocator of kernel/memory.c: page tables written through the self-map, pools and bitmaps. */
module PageAllocator {
  import opened Options
  import opened Paging
  import opened Pools
  import opened PageSteps
  import opened FrameZero
  import Bitmaps

  ghost function OwnerAtBoot(f: nat): Owner
    requires 0x100 <= f < 0x200
  {
    if f == BOOT then BootDirectory else KernelTable(768 + (f - 0x101))
  }

  /** The pools of a 32 MB machine at boot. */
  function NoneTaken(): seq<bool> { seq(3840, _ => false) }

  /**
   * The tables boot/loader.asm leaves: a directory at 1 MB that maps itself and whose slots 768-1022 name the 255
   * frames after it. The loader clears the directory but not those frames, so that no heap page is present in
   * them is an assumption about memory at power-on.
   */
  ghost predicate AtBoot(boot: Memory) {
    && SelfMapped(boot, BOOT)
    && (forall i: nat | 768 <= i < 1023 :: Present(boot[BOOT][i]) && FrameOf(boot[BOOT][i]) == 0x101 + (i - 768))
    && (forall vp: nat | KERNEL_HEAP <= vp < KERNEL_HEAP + 3840 :: Trans(boot, BOOT, vp).None?)
  }

  /** A word of the table behind `slot`, found through the window, also while that table is being written. */
  lemma WindowWord(mem: Memory, now: Memory, pd: nat, slot: nat, t: nat, table: Word, i: nat)
    requires pd < 0x10_0000 && t < 0x10_0000 && t != pd && SelfMapped(mem, pd) && now == mem[t := now[t]]
    requires slot < 1023 && mem[pd][slot] == EntryFor(t) && i < 1024
    requires table / 4096 == WINDOW + slot && table % 4096 == 0
    ensures table + 4 * i < 0x1_0000_0000 && (table + 4 * i) % 4 == 0
    ensures Walk(now, pd, table + 4 * i) == Some(Phys(t, 4 * i))
  {
    hide Trans, EntryFor, Permits;
    WordOfPage(table, i);
    WindowPage(now, pd, slot);
  }

  class Machine {
    var mem: Memory
    var cr3: nat                              // frame of the active page directory
    var kernelPool: Pool
    var userPool: Pool
    var kernelVaddr: seq<bool>                // kernel_vaddr.vaddr_bitmap
    var userVaddr: map<nat, seq<bool>>        // userprog_vaddr.vaddr_bitmap of the process with this directory
    ghost var owner: map<nat, Owner>

    /** mem_pool_init(32 MB) on the tables boot/loader.asm leaves behind. */
    constructor (boot: Memory)
      requires AtBoot(boot)
      ensures Valid() && mem == boot && cr3 == BOOT && userVaddr == map[]
      ensures kernelPool == Pool(NoneTaken(), 480, 0x200) && userPool == Pool(NoneTaken(), 480, 0x200 + 3840)
      ensures kernelVaddr == NoneTaken()
    {
      mem, cr3 := boot, BOOT;
      kernelPool := Pool(NoneTaken(), 480, 0x200);
      userPool := Pool(NoneTaken(), 480, 0x200 + 3840);
      kernelVaddr := NoneTaken();
      userVaddr := map[];
      owner := map f: nat | 0x100 <= f < 0x200 :: OwnerAtBoot(f);
    }

    ghost function S(): Snap
      reads this
    {
      Snap(mem, kernelPool, userPool, kernelVaddr, userVaddr, owner)
    }

    ghost predicate Valid()
      reads this
    {
      Inv(S()) && Directory(S(), cr3)
    }

    /** The page at `vp` in the active address space. */
    ghost function Current(vp: nat): Page
      reads this
    {
      PageOf(cr3, vp)
    }

    /** A load through the active page directory. */
    function Load(v: Word): Word
      requires cr3 < 0x10_0000 && v % 4 == 0 && Walk(mem, cr3, v).Some?
      reads this
    {
      var p := Walk(mem, cr3, v).value;
      mem[p.frame][p.offset / 4]
    }

    /** A store through the active page directory; a fault (no translation) is the caller's error. */
    method Store(v: Word, w: Word)
      requires cr3 < 0x10_0000 && v % 4 == 0 && Walk(mem, cr3, v).Some?
      modifies this`mem
      ensures var p := old(Walk(mem, cr3, v).value); mem == Put(old(mem), p.frame, p.offset / 4, w)
    {
      var p := Walk(mem, cr3, v).value;
      var row: Frame := mem[p.frame][p.offset / 4 := w];
      mem := mem[p.frame := row];
    }

    /** palloc: the frame address, or 0 when the search finds no clear bit. */
    method Palloc(pf: PoolFlag) returns (addr: Word)
      requires PoolsSane(S())
      modifies this`kernelPool, this`userPool
      ensures addr == 0 <==> old(PoolFor(S(), pf)).Allocatable() == {}
      ensures addr == 0 ==> unchanged(this)
      ensures addr == 4096 * NextFrame(old(PoolFor(S(), pf))) && S() == Taken(old(S()), pf)
      ensures old(Inv(S())) && addr != 0 ==> TakeStep(old(S()), S(), pf, addr / 4096)
    {
      hide Inv, TakeStep;
      var p := if pf.PF_KERNEL? then kernelPool else userPool;
      var idx := Bitmaps.FirstFit(p.bits, p.len, 1);
      if Inv(S()) {
        TakenIsTakeStep(S(), pf);
      }
      SearchSingle(p);
      if idx == -1 {
        return 0;
      }
      var p' := p.(bits := p.bits[idx := true]);
      if pf.PF_KERNEL? {
        kernelPool := p';
      } else {
        userPool := p';
      }
      addr := idx * 4096 + p.start * 4096;
    }

    /**
     * page_table_add. The page is mapped and the pools stay sound exactly when its table is there or the
     * kernel pool has a frame for one.
     */
    method PageTableAdd(v: Word, p: Word)
      requires v % 4096 == 0 && p % 4096 == 0 && Receptive(S(), cr3, v / 4096)
      modifies this`mem, this`kernelPool, this`userPool, this`owner
      ensures S() == Added(old(S()), cr3, v / 4096, p / 4096)
      ensures old(Valid()) && CanMap(old(S()), cr3, Current(v / 4096), p / 4096) ==>
                if TableReady(old(S()), Current(v / 4096))
                then MapStep(old(S()), S(), cr3, Current(v / 4096), p / 4096)
                else Lost(S())
    {
      hide Inv, MapStep, CanMap, Lost, SelfMapped, PoolsSane, TableReady, Filled, Linked, Trans;
      ghost var s, pg, f := S(), Current(v / 4096), p / 4096;
      assert v / 4096 / 1024 == v / 0x40_0000 && v / 4096 % 1024 == PteIdx(v);
      PdePtrReachesEntry(mem, cr3, v);
      var pde := Load(PdePtr(v));
      if !Present(pde) {
        AddTable(v);
        LinkedReceives(s, cr3, v / 4096);
      }
      FillEntry(v, p);
      if Inv(s) && Directory(s, cr3) && CanMap(s, cr3, pg, f) {
        AddedEither(s, cr3, pg, f);
      }
    }

    /** The last two statements of both branches: the entry must be absent, then it is written. */
    method FillEntry(v: Word, p: Word)
      requires v % 4096 == 0 && p % 4096 == 0 && Receptive(S(), cr3, v / 4096) && Present(mem[cr3][v / 0x40_0000])
      modifies this`mem, this`owner
      ensures S() == Filled(old(S()), cr3, v / 4096, p / 4096)
    {
      assert v / 4096 / 1024 == v / 0x40_0000 && v / 4096 % 1024 == PteIdx(v);
      PtePtrReachesEntry(mem, cr3, v);
      assert !Present(Load(PtePtr(v)));
      Store(PtePtr(v), EntryFor(p / 4096));
      owner := owner[p / 4096 := Mapped(Current(v / 4096))];
    }

    /** memset of the page table behind `v` to zero, through the self-map window. */
    method ZeroTable(v: Word, ghost t: nat)
      requires cr3 < 0x10_0000 && t < 0x10_0000 && t != cr3 && SelfMapped(mem, cr3)
      requires v / 0x40_0000 < 1023 && mem[cr3][v / 0x40_0000] == EntryFor(t)
      modifies this`mem
      ensures mem == old(mem)[t := ZeroFrame()]
    {
      hide Walk, Trans, EntryFor, SelfMapped, Permits;
      var table: Word := PtePtr(v) / 4096 * 4096;
      ghost var slot := v / 0x40_0000;
      assert table / 4096 == WINDOW + slot && table % 4096 == 0;
      hide PtePtr;
      var i := 0;
      while i < 1024
        invariant 0 <= i <= 1024
        invariant mem == old(mem)[t := mem[t]]
        invariant forall j: nat | j < i :: mem[t][j] == 0
      {
        WindowWord(old(mem), mem, cr3, slot, t, table, i);
        Store(table + 4 * i, 0);
        i := i + 1;
      }
      assert mem[t] == ZeroFrame();
    }

    /** The missing-table branch of page_table_add: link the frame palloc returned, then zero it through the window. */
    method AddTable(v: Word)
      requires Drivable(S(), cr3) && v / 0x40_0000 < 1023
      modifies this`mem, this`kernelPool, this`userPool, this`owner
      ensures S() == Linked(old(S()), cr3, v / 0x40_0000)
      ensures old(Inv(S())) && cr3 in userVaddr && v / 0x40_0000 < 768 && !Present(old(mem)[cr3][v / 0x40_0000]) ==>
                if old(kernelPool).Allocatable() != {} then TableStep(old(S()), S(), cr3, v / 0x40_0000) else Lost(S())
    {
      hide Inv, TableStep, Lost;
      ghost var s := S();
      var addr := Palloc(PF_KERNEL);
      var t := addr / 4096;
      StoreTable(v, t);
      owner := if t == 0 then owner else owner[t := UserTable(cr3, v / 0x40_0000)];
      if Inv(s) && cr3 in userVaddr && v / 0x40_0000 < 768 && !Present(s.mem[cr3][v / 0x40_0000]) {
        if t != 0 {
          LinkedIsTableStep(s, cr3, v / 0x40_0000);
        } else {
          FrameZeroIsLost(S(), cr3, v / 0x40_0000);
        }
      }
    }

    /** `*pde = t | flags`, then the table behind `v` set to zero. */
    method StoreTable(v: Word, t: nat)
      requires cr3 < 0x10_0000 && t < 0x10_0000 && t != cr3 && SelfMapped(mem, cr3) && v / 0x40_0000 < 1023
      modifies this`mem
      ensures mem == Put(old(mem), cr3, v / 0x40_0000, EntryFor(t))[t := ZeroFrame()]
    {
      PdePtrReachesEntry(mem, cr3, v);
      Store(PdePtr(v), EntryFor(t));
      ZeroTable(v, t);
    }

    /** vaddr_get: the first page number of a free run, its virtual bits now set; 0 when the search fails. */
    method VaddrGet(pf: PoolFlag, cnt: nat) returns (v: Word)
      requires Valid() && (pf.PF_USER? ==> cr3 in userVaddr)
      requires 0 < cnt < 3840 && !RunStrays(S(), pf, cr3, cnt)
      modifies this`kernelVaddr, this`userVaddr
      ensures Valid()
      ensures v == 0 ==> unchanged(this)
      ensures (v == 0) == (FirstRun(old(S()), pf, cr3, cnt) == -1)
      ensures v != 0 ==> var vp := Base(pf) + FirstRun(old(S()), pf, cr3, cnt);
                         v == vp * 4096 && ReservedRun(old(S()), S(), pf, cr3, vp, cnt)
    {
      hide Inv, ReservedRun, Directory;
      ghost var s := S();
      VirtualMapSane(s, pf, cr3);
      var bits := if pf.PF_KERNEL? then kernelVaddr else userVaddr[cr3];
      var start := Bitmaps.FirstFit(bits, |bits| / 8, cnt);
      if start == -1 {
        return 0;
      }
      assert Bitmaps.Fits(bits, start, cnt);
      var marked := MarkRun(bits, start, cnt, true);
      if pf.PF_KERNEL? {
        kernelVaddr := marked;
        v := (KERNEL_HEAP + start) * 4096;
      } else {
        userVaddr := userVaddr[cr3 := marked];
        v := (USER_START + start) * 4096;
        assert v < 0xc000_0000 - 4096;
      }
      ReserveRun(s, pf, cr3, Base(pf) + start, cnt, S());
    }

    /** get_one_page_no_bitmap, and the loop body of malloc_page: a frame from the pool, mapped at `v`. */
    method GrantPage(pf: PoolFlag, v: Word) returns (ok: bool)
      requires v % 4096 == 0 && Receptive(S(), cr3, v / 4096)
      modifies this`mem, this`kernelPool, this`userPool, this`owner
      ensures ok <==> old(PoolFor(S(), pf)).Allocatable() != {}
      ensures !ok ==> unchanged(this)
      ensures ok ==> S() == Granted(old(S()), pf, cr3, v / 4096)
      ensures var pg := PageAt(pf, cr3, v / 4096);
              ok && old(Valid()) && Ready(old(S()), pf, cr3, pg) ==>
                if TableReady(old(S()), pg) then Valid() && GrantStep(old(S()), S(), pf, cr3, pg) else Lost(S())
    {
      hide Inv, Ready, TableReady, GrantStep, Lost, Drivable, Directory;
      ghost var s, pg := S(), PageAt(pf, cr3, v / 4096);
      DrivablePools(s, cr3);
      var frame := Palloc(pf);
      if frame == 0 {
        return false;
      }
      TakenDrives(s, pf, cr3);
      PageTableAdd(v, frame);
      if Inv(s) && Directory(s, cr3) && Ready(s, pf, cr3, pg) {
        GrantedEither(s, pf, cr3, pg);
      }
      return true;
    }

    /**
     * malloc_page: reserve a run of virtual pages, then give each a frame. When the frames run out the pages
     * already mapped, and all reserved virtual bits, stay: `done` says how far it came. The pools stay sound
     * exactly when the kernel pool can supply the tables of the pages that get a frame.
     */
    method MallocPage(pf: PoolFlag, cnt: nat) returns (v: Word, ghost reserved: Snap, ghost done: nat)
      requires Valid() && 0 < cnt < 3840 && (pf.PF_USER? ==> cr3 in userVaddr)
      requires !RunStrays(S(), pf, cr3, cnt)
      modifies this`mem, this`kernelPool, this`userPool, this`kernelVaddr, this`userVaddr, this`owner
      ensures if TablesSuffice(old(S()), pf, cr3, cnt) then Valid() else Lost(S())
      ensures v != 0 <==> FirstRun(old(S()), pf, cr3, cnt) >= 0 && cnt <= |old(PoolFor(S(), pf)).Allocatable()|
      ensures done <= cnt && (v != 0 <==> done == cnt)
      ensures var run := FirstRun(old(S()), pf, cr3, cnt);
              if run == -1 then v == 0 && unchanged(this) else
                var vp := Base(pf) + run;
                && (v != 0 ==> v == vp * 4096)
                && done == Supply(old(S()), pf, cnt) && kernelVaddr == reserved.kv && userVaddr == reserved.uv
                && ReservedRun(old(S()), reserved, pf, cr3, vp, cnt) && Inv(reserved)
                && (TablesSuffice(old(S()), pf, cr3, cnt) ==> MappedRun(reserved, S(), pf, cr3, vp, done))
                && (done == 0 ==> S() == reserved)
    {
      hide Inv, Looping, Receptive, MappedRun, ReservedRun, TablesSuffice, Directory, Granted, Lost;
      ghost var s := S();
      InvSane(s);
      ghost var have, enough := |PoolFor(s, pf).Allocatable()|, TablesSuffice(s, pf, cr3, cnt);
      var start := VaddrGet(pf, cnt);
      reserved, done := S(), 0;
      if start == 0 {
        NoRunNoTables(s, pf, cr3, cnt);
        return 0, reserved, 0;
      }
      ghost var vp := Base(pf) + FirstRun(s, pf, cr3, cnt);
      LoopStarts(s, reserved, pf, cr3, vp, cnt);
      var va: int := start;
      for i := 0 to cnt
        invariant va == (vp + i) * 4096 && done == i && (i == 0 ==> S() == reserved)
        invariant Looping(reserved, S(), pf, cr3, vp, i, cnt, have, enough)
      {
        LoopRuns(reserved, S(), pf, cr3, vp, i, cnt, have, enough);
        ReceptivePage(S(), cr3, vp + i);
        ghost var s1 := S();
        var ok := GrantPage(pf, va);
        if !ok {
          LoopEnds(reserved, S(), pf, cr3, vp, i, cnt, have, enough);
          return 0, reserved, i;
        }
        LoopSteps(reserved, s1, pf, cr3, vp, i, cnt, have, enough);
        va := va + PG_SIZE;
        done := i + 1;
      }
      LoopEnds(reserved, S(), pf, cr3, vp, cnt, cnt, have, enough);
      return start, reserved, cnt;
    }

    /** addr_vir2phy */
    function AddrVir2Phy(v: Word): Word
      requires cr3 < 0x10_0000 && Walk(mem, cr3, PtePtr(v)).Some?
      reads this
    {
      Load(PtePtr(v)) / 4096 * 4096 + v % 4096
    }

    /** pfree: the pool is chosen by the address alone. */
    method Pfree(addr: Word)
      requires kernelPool.Sane() && userPool.Sane()
      requires if addr / 4096 >= userPool.start then userPool.Holds(addr / 4096) else kernelPool.Holds(addr / 4096)
      modifies this`kernelPool, this`userPool
      ensures if addr / 4096 >= old(userPool).start
              then userPool == old(userPool).Set(addr / 4096, false) && kernelPool == old(kernelPool)
              else kernelPool == old(kernelPool).Set(addr / 4096, false) && userPool == old(userPool)
    {
      if addr >= userPool.start * 4096 {
        var idx := (addr - userPool.start * 4096) / 4096;
        userPool := userPool.(bits := userPool.bits[idx := false]);
      } else {
        var idx := (addr - kernelPool.start * 4096) / 4096;
        kernelPool := kernelPool.(bits := kernelPool.bits[idx := false]);
      }
    }

    /** page_table_pte_remove: the present bit is cleared, the rest of the entry stays. */
    method PteRemove(v: Word)
      requires cr3 < 0x10_0000 && Walk(mem, cr3, PtePtr(v)).Some?
      modifies this`mem
      ensures var p := old(Walk(mem, cr3, PtePtr(v)).value);
              mem == Put(old(mem), p.frame, p.offset / 4, Cleared(old(Load(PtePtr(v)))))
    {
      Store(PtePtr(v), Cleared(Load(PtePtr(v))));
    }

    /** The loop body of mfree_page: the frame back to its pool, the entry no longer present. */
    method FreePage(ghost pf: PoolFlag, v: Word)
      requires v % 4096 == 0 && FreeablePage(S(), cr3, PageAt(pf, cr3, v / 4096))
      modifies this`mem, this`kernelPool, this`userPool, this`owner
      ensures FreeStep(old(S()), S(), PageAt(pf, cr3, v / 4096))
    {
      hide FreeablePage, Inv, FreeStep, PtePtr, Walk, Trans, Look;
      ghost var s, pg := S(), PageAt(pf, cr3, v / 4096);
      assert v / 4096 / 1024 == v / 0x40_0000 && v / 4096 % 1024 == PteIdx(v);
      FreeableFacts(s, cr3, pg);
      PtePtrReachesEntry(mem, cr3, v);
      var addr := AddrVir2Phy(v);
      assert addr / 4096 == Look(s, pg).value && addr % 4096 == 0 && addr >= 0x102000;
      ghost var w := Cleared(Load(PtePtr(v)));
      Pfree(addr);
      PteRemove(v);
      owner := owner - {addr / 4096};
      FreeIsUnmapThenGive(s, cr3, pg, w, S());
    }

    /** mfree_page */
    method MFreePage(pf: PoolFlag, v: Word, cnt: nat)
      requires Valid() && v % 4096 == 0 && 1 <= cnt && RunIsMapped(S(), pf, cr3, v / 4096, cnt)
      modifies this`mem, this`kernelPool, this`userPool, this`kernelVaddr, this`userVaddr, this`owner
      ensures Valid() && ReleasedRun(old(S()), S(), pf, cr3, v / 4096, cnt)
    {
      hide Inv, RunIsMapped, UnmappedRun, FreeablePage, FreeStep, ReleasedRun, Directory;
      ghost var r, vp := S(), v / 4096;
      UnmapStarts(r, pf, cr3, vp);
      var va: int := v;
      for i := 0 to cnt
        invariant va == (vp + i) * 4096
        invariant Valid() && UnmappedRun(r, S(), pf, cr3, vp, i)
      {
        ghost var s := S();
        NextMapped(r, s, pf, cr3, vp, i, cnt);
        PageNumber(vp + i);
        FreePage(pf, va);
        UnmapGrows(r, s, S(), pf, cr3, vp, i, cnt);
        va := va + PG_SIZE;
      }
      ghost var m := S();
      MappedRunInMap(r, m, pf, cr3, vp, cnt);
      VaddrRemove(pf, v, cnt);
      ReleaseRun(r, m, S(), pf, cr3, vp, cnt);
    }

    /** vaddr_remove */
    method VaddrRemove(pf: PoolFlag, v: Word, cnt: nat)
      requires v % 4096 == 0 && RunInMap(S(), pf, cr3, v / 4096, cnt)
      modifies this`kernelVaddr, this`userVaddr
      ensures S() == WithVirtualMap(old(S()), pf, cr3,
                WithRun(old(VirtualMap(S(), pf, cr3)), v / 4096 - Base(pf), cnt, false))
    {
      var start := (v - Base(pf) * 4096) / 4096;
      assert start == v / 4096 - Base(pf);
      if pf.PF_KERNEL? {
        kernelVaddr := MarkRun(kernelVaddr, start, cnt, false);
      } else {
        var cleared := MarkRun(userVaddr[cr3], start, cnt, false);
        userVaddr := userVaddr[cr3 := cleared];
      }
    }

    /** Freeing what was just allocated undoes it, apart from page tables made on the way. */
    method AllocateThenFree(pf: PoolFlag, cnt: nat) returns (v: Word)
      requires Valid() && 0 < cnt < 3840 && (pf.PF_USER? ==> cr3 in userVaddr)
      requires !RunStrays(S(), pf, cr3, cnt) && TablesSuffice(S(), pf, cr3, cnt)
      modifies this`mem, this`kernelPool, this`userPool, this`kernelVaddr, this`userVaddr, this`owner
      ensures Valid() && (v != 0 ==> Restored(old(S()), S(), pf, cr3))
      ensures v == 0 ==> FirstRun(old(S()), pf, cr3, cnt) == -1 || |old(PoolFor(S(), pf)).Allocatable()| < cnt
    {
      hide Inv, MappedRun, ReservedRun, ReleasedRun, RunIsMapped, Restored, TablesSuffice, Directory;
      ghost var s := S();
      ghost var r, done;
      v, r, done := MallocPage(pf, cnt);
      if v != 0 {
        ghost var m, vp := S(), Base(pf) + FirstRun(s, pf, cr3, cnt);
        FreshRunIsMapped(s, r, m, pf, cr3, vp, cnt);
        PageNumber(vp);
        MFreePage(pf, v, cnt);
        FreeingUndoesAllocating(s, r, m, S(), pf, cr3, vp, cnt);
      }
    }
  }
}
