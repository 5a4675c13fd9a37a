/** release_prog_resource of userprog/wait.c, and what fork followed by it leaves behind. */
module Teardown {
  import opened Options
  import opened Sequences
  import opened Paging
  import opened Pools
  import opened PageSteps
  import opened PageAllocator
  import opened AddressSpaces
  import opened Fork

  /** `g` backs a user page of `pd` below `hi`, or is one of its page tables for a slot below `slots`. */
  ghost predicate Released(s: Snap, pd: nat, hi: nat, slots: nat, g: nat)
    requires pd < 0x10_0000
  {
    && g in s.owner
    && match s.owner[g]
       case Mapped(q) => q.UserPage? && q.pd == pd && q.vp < hi && InSpace(s, q) && Look(s, q) == Some(g)
       case UserTable(d, i) => d == pd && i < slots && i < 768 && Present(s.mem[pd][i]) && FrameOf(s.mem[pd][i]) == g
       case _ => false
  }

  /** Only pool bits changed since `s`, and the bits cleared are those of the released frames. */
  ghost predicate ReleasedSoFar(s: Snap, z: Snap, pd: nat, hi: nat, slots: nat)
    requires Inv(s) && pd < 0x10_0000
  {
    && z == s.(kp := z.kp, up := z.up) && z.kp.Sane() && z.up.Sane() && SameShape(s, z)
    && forall g: nat :: Free(z, g) <==> Free(s, g) || Released(s, pd, hi, slots, g)
  }

  lemma PageReleased(s: Snap, z: Snap, z': Snap, pd: nat, slot: nat, j: nat)
    requires Inv(s) && pd in s.uv && pd < 0x10_0000 && slot < 768 && j < 1024
    requires ReleasedSoFar(s, z, pd, slot * 1024 + j, slot)
    requires InSpace(s, UserPage(pd, slot * 1024 + j))
    requires match Look(s, UserPage(pd, slot * 1024 + j))
             case Some(f) => s.up.Holds(f) && z' == z.(up := z.up.Set(f, false))
             case None => z' == z
    ensures ReleasedSoFar(s, z', pd, slot * 1024 + j + 1, slot)
  {
    var pg := UserPage(pd, slot * 1024 + j);
    if Look(s, pg).Some? {
      MappedOwner(s, pg);
    }
    InvSane(s);
    hide Inv;
    forall g: nat
      ensures Released(s, pd, slot * 1024 + j + 1, slot, g) <==>
                Released(s, pd, slot * 1024 + j, slot, g) || Look(s, pg) == Some(g)
    {
    }
  }

  lemma TableReleased(s: Snap, z: Snap, z': Snap, pd: nat, slot: nat)
    requires Inv(s) && pd in s.uv && pd < 0x10_0000 && slot < 768
    requires Present(s.mem[pd][slot]) && s.kp.Holds(FrameOf(s.mem[pd][slot]))
    requires ReleasedSoFar(s, z, pd, (slot + 1) * 1024, slot)
    requires z' == z.(kp := z.kp.Set(FrameOf(s.mem[pd][slot]), false))
    ensures ReleasedSoFar(s, z', pd, (slot + 1) * 1024, slot + 1)
  {
    var t := FrameOf(s.mem[pd][slot]);
    assert t in s.owner && s.owner[t] == UserTable(pd, slot);
    InvSane(s);
    hide Inv;
    var hi, next := (slot + 1) * 1024, slot + 1;
    forall g: nat
      ensures Released(s, pd, hi, next, g) <==> Released(s, pd, hi, slot, g) || g == t
    {
    }
  }

  /** A slot without a table has no pages. */
  lemma EmptySlot(s: Snap, z: Snap, pd: nat, slot: nat)
    requires Inv(s) && pd in s.uv && pd < 0x10_0000 && slot < 768 && !Present(s.mem[pd][slot])
    requires ReleasedSoFar(s, z, pd, slot * 1024, slot)
    ensures ReleasedSoFar(s, z, pd, (slot + 1) * 1024, slot + 1)
  {
    InvSane(s);
    hide Inv;
    forall g: nat
      ensures Released(s, pd, (slot + 1) * 1024, slot + 1, g) <==> Released(s, pd, slot * 1024, slot, g)
    {
      if Released(s, pd, (slot + 1) * 1024, slot + 1, g) && s.owner[g].Mapped? {
        var q := s.owner[g].page;
        assert q.vp / 1024 != slot;
      }
    }
  }

  /** The words release_prog_resource reads, all through the dying process's own space. */
  lemma EntryAddresses(s: Snap, pd: nat, dir: Word, slot: nat)
    requires Inv(s) && pd in s.uv && DirectoryAt(s, dir, pd) && slot < 768
    ensures pd < 0x10_0000 && Walk(s.mem, pd, dir + 4 * slot) == Some(Phys(pd, 4 * slot))
    ensures (dir + 4 * slot) % 4 == 0
  {
    WordOfPage(dir, slot);
    ActiveEntry(s, pd, KernelPage(dir / 4096));
  }

  lemma TableAddresses(s: Snap, pd: nat, slot: nat, j: nat)
    requires Inv(s) && pd in s.uv && slot < 768 && j < 1024 && pd < 0x10_0000 && Present(s.mem[pd][slot])
    ensures PtePtr(slot * 0x40_0000) + 4 * j < 0x1_0000_0000 && (PtePtr(slot * 0x40_0000) + 4 * j) % 4 == 0
    ensures Walk(s.mem, pd, PtePtr(slot * 0x40_0000) + 4 * j) == Some(Phys(FrameOf(s.mem[pd][slot]), 4 * j))
  {
    var v := slot * 0x40_0000;
    assert PdeIdx(v) == slot && PteIdx(v) == 0 && v / 0x40_0000 * 0x40_0000 / 1024 == slot * 4096;
    assert PtePtr(v) == (WINDOW + slot) * 4096;
    WordOfPage(PtePtr(v), j);
    SelfMap(s, pd);
    WindowPage(s.mem, pd, slot);
  }

  lemma FrameToFree(s: Snap, pd: nat, slot: nat, j: nat)
    requires Inv(s) && pd in s.uv && pd < 0x10_0000 && slot < 768 && j < 1024 && Present(s.mem[pd][slot])
    ensures InSpace(s, UserPage(pd, slot * 1024 + j)) && s.kp.Holds(FrameOf(s.mem[pd][slot]))
    ensures var pte := s.mem[FrameOf(s.mem[pd][slot])][j];
            && Look(s, UserPage(pd, slot * 1024 + j)) == (if Present(pte) then Some(FrameOf(pte)) else None)
            && (Present(pte) ==> s.up.Holds(FrameOf(pte)))
    ensures s.kp.start + 8 * s.kp.len <= s.up.start
  {
    var pg := UserPage(pd, slot * 1024 + j);
    assert pg.vp / 1024 == slot && pg.vp % 1024 == j;
    assert Managed(s, pg);
    assert FrameOf(s.mem[pd][slot]) in s.owner;
  }

  /** The inner loop: every present entry of the table behind `slot` gives its frame back. */
  method ReleaseTable(m: Machine, slot: nat, ghost s: Snap, ghost pd: nat)
    requires Inv(s) && m.cr3 == pd && pd in s.uv && pd < 0x10_0000 && slot < 768 && Present(s.mem[pd][slot])
    requires ReleasedSoFar(s, m.S(), pd, slot * 1024, slot)
    modifies m`kernelPool, m`userPool
    ensures ReleasedSoFar(s, m.S(), pd, (slot + 1) * 1024, slot)
  {
    hide Inv, InSpace, Look;
    var first := PtePtr(slot * 0x40_0000);
    var j := 0;
    while j < 1024
      invariant 0 <= j <= 1024
      invariant ReleasedSoFar(s, m.S(), pd, slot * 1024 + j, slot)
    {
      ghost var z := m.S();
      TableAddresses(s, pd, slot, j);
      FrameToFree(s, pd, slot, j);
      var pte := m.Load(first + 4 * j);
      if Present(pte) {
        m.Pfree(FrameOf(pte) * 4096);
      }
      PageReleased(s, z, m.S(), pd, slot, j);
      j := j + 1;
    }
  }

  /** The space of `pd` is gone, its frames and page tables, and no others, are free, and no word of memory changed. */
  ghost predicate Exited(s: Snap, w: Snap, pd: nat)
    requires Inv(s)
  {
    && Inv(w) && pd in s.uv && pd < 0x10_0000 && w.mem == s.mem && w.kv == s.kv && w.uv == s.uv - {pd}
    && SameShape(s, w)
    && forall g: nat :: Free(w, g) <==> Free(s, g) || Released(s, pd, KERNEL_HALF, 768, g)
  }

  /**
   * release_prog_resource: the frames of every present user entry, then of the page table itself. The process's
   * bitmap, and with it its claim on the address space, goes last.
   */
  method ReleaseProgResource(m: Machine, dir: Word, ghost pd: nat)
    requires m.Valid() && m.cr3 == pd && pd in m.userVaddr && DirectoryAt(m.S(), dir, pd)
    modifies m`kernelPool, m`userPool, m`userVaddr, m`owner
    ensures Exited(old(m.S()), m.S(), pd) && KernelReach(m.S(), pd)
  {
    hide Inv, InSpace, Look, Released, DirectoryAt, KernelReach;
    ghost var s := m.S();
    ChildIsDirectory(s, pd);
    ReachOfDirectory(s, pd);
    NothingReleased(s, pd);
    var slot := 0;
    while slot < 768
      invariant 0 <= slot <= 768
      invariant ReleasedSoFar(s, m.S(), pd, slot * 1024, slot)
    {
      ghost var z := m.S();
      EntryAddresses(s, pd, dir, slot);
      var pde := m.Load(dir + 4 * slot);
      if Present(pde) {
        ReleaseTable(m, slot, s, pd);
        ghost var z1 := m.S();
        FrameToFree(s, pd, slot, 0);
        m.Pfree(FrameOf(pde) * 4096);
        TableReleased(s, z1, m.S(), pd, slot);
      } else {
        EmptySlot(s, z, pd, slot);
      }
      slot := slot + 1;
    }
    ghost var z := m.S();
    m.userVaddr := m.userVaddr - {m.cr3};
    m.owner := map g | g in m.owner && !Released(s, pd, KERNEL_HALF, 768, g) :: m.owner[g];
    SpaceDropped(s, z, pd, m.S());
    SameReach(s, m.S(), pd);
  }

  lemma SameReach(s: Snap, w: Snap, pd: nat)
    requires KernelReach(s, pd) && w.mem == s.mem
    ensures KernelReach(w, pd)
  {
  }

  lemma NothingReleased(s: Snap, pd: nat)
    requires Inv(s) && pd < 0x10_0000
    ensures ReleasedSoFar(s, s, pd, 0, 0)
  {
  }

  /** With its frames released, dropping a space leaves every other one in order. */
  lemma SpaceDropped(s: Snap, z: Snap, pd: nat, z': Snap)
    requires Inv(s) && pd in s.uv && pd < 0x10_0000 && ReleasedSoFar(s, z, pd, KERNEL_HALF, 768)
    requires z' == z.(uv := s.uv - {pd}, owner := map g | g in s.owner && !Released(s, pd, KERNEL_HALF, 768, g) ::
               s.owner[g])
    ensures Inv(z')
  {
    DropKeepsTables(s, z', pd);
    InvSane(s);
    forall f | f in z'.owner
      ensures !Free(z', f)
    {
      OwnedNotFree(s, f);
    }
    assert Pages(z') by {
      forall pg | Managed(z', pg) && Look(z', pg).Some?
        ensures var f := Look(z', pg).value;
                f in z'.owner && z'.owner[f] == Mapped(pg) && PoolOf(z', pg).Holds(f) && VirtualBit(z', pg)
      {
        assert Managed(s, pg) && Look(s, pg) == Look(z', pg);
        assert PoolOf(s, pg).Holds(Look(s, pg).value) && VirtualBit(s, pg);
      }
    }
  }

  lemma DropKeepsTables(s: Snap, z': Snap, pd: nat)
    requires Inv(s) && pd in s.uv && pd < 0x10_0000 && z'.mem == s.mem && z'.uv == s.uv - {pd}
    requires z'.owner == map g | g in s.owner && !Released(s, pd, KERNEL_HALF, 768, g) :: s.owner[g]
    ensures Directories(z') && Tables(z')
  {
  }

  // ---- fork ----

  /** Page-table slots the used pages of a bitmap need. */
  function SlotsNeeded(bits: seq<bool>): set<nat> {
    set k: nat | k < |bits| && bits[k] :: (USER_START + k) / 1024
  }

  /**
   * Room for the copy: frames for the pages, and kernel frames for page tables, the directory and the transfer page.
   */
  ghost predicate EnoughFrames(s: Snap, parent: nat)
    requires Inv(s)
  {
    && parent in s.uv && |PagesLeft(s.uv[parent], 0)| <= |s.up.Allocatable()|
    && |SlotsNeeded(s.uv[parent])| + 2 <= |s.kp.Allocatable()|
  }

  /**
   * The child has a space of its own holding byte-equal copies of exactly the parent's used pages, on frames
   * that were free; every other translation and every mapped frame is as before.
   */
  ghost predicate Forked(s: Snap, z: Snap, parent: nat, child: nat, dirPage: nat)
    requires Inv(s)
  {
    && Inv(z) && parent in s.uv && child !in s.uv && child < 0x10_0000 && z.uv == s.uv[child := s.uv[parent]]
    && (forall q | InSpace(s, q) && q != KernelPage(dirPage) :: Look(z, q) == Look(s, q))
    && (forall vp: nat | vp < KERNEL_HALF ::
          if UsedBelow(s.uv[parent], vp, 8 * USER_LEN) then Copied(s, z, parent, child, vp)
            else Look(z, UserPage(child, vp)) == None)
    && (forall g | g in s.owner && s.owner[g].Mapped? && g < 0x10_0000 :: z.mem[g] == s.mem[g])
    && UserFramesTaken(s, z, child) && InSpace(s, KernelPage(dirPage)) && Look(s, KernelPage(dirPage)).None?
    && |z.kv| == |s.kv| && Free(s, child)
  }

  /** The user frames taken between two states are the child's, and none came back. */
  ghost predicate UserFramesTaken(s: Snap, z: Snap, child: nat) {
    && s.up.Sane() && z.up.Sane() && z.up.start == s.up.start && z.up.len == s.up.len && child < 0x10_0000
    && (forall g: nat :: z.up.Free(g) ==> s.up.Free(g))
    && (forall g: nat | s.up.Free(g) && !z.up.Free(g) :: TakenForChild(z, child, g))
  }

  /**
   * copy_process on the address space: transfer page, directory, bitmap, pages; 0 when a kernel page is not to be
   * had.
   */
  method CopyProcess(m: Machine, parentDir: Word) returns (childDir: Word, child: nat)
    requires m.Valid() && m.cr3 in m.userVaddr && DirectoryAt(m.S(), parentDir, m.cr3)
    requires UsedPagesMapped(m.S(), m.cr3) && EnoughFrames(m.S(), m.cr3)
    modifies m
    ensures m.Valid() && m.cr3 == old(m.cr3)
    ensures childDir != 0 <==> |ClearStarts(old(m.kernelVaddr))| >= 2
    ensures childDir != 0 ==> DirectoryAt(m.S(), childDir, child)
    ensures childDir != 0 ==> Forked(old(m.S()), m.S(), m.cr3, child, childDir / 4096)
    ensures childDir == 0 ==> ForkFailed(old(m.S()), m.S(), m.cr3)
  {
    hide Inv, Directory, DirectoryAt, KernelPageStep, NewDirectoryPage, ReadyToCopy, Forked, UsedPagesMapped,
         EnoughFrames, RunIsMapped, ForkFailed;
    ghost var s, parent := m.S(), m.cr3;
    child := 0;
    EnoughForTwo(s, parent);
    var tran := GetKernelPage(m);
    if tran == 0 {
      NothingTaken(s, m.S(), parent);
      return 0, 0;
    }
    ghost var s1, tv := m.S(), tran / 4096;
    KernelVaddrKept(s, s1, parent, tv);
    childDir := CreatePageDir(m);
    if childDir == 0 {
      TransferLeaked(s, s1, m.S(), parent, tv);
      return 0, 0;
    }
    ghost var s2, dv := m.S(), childDir / 4096;
    ghost var made, tf := CopyStart(s, s1, s2, parent, tv, dv, parentDir, childDir);
    ActiveEntry(s2, m.cr3, KernelPage(dv));
    PtePtrReachesEntry(m.mem, m.cr3, childDir);
    assert childDir / 4096 / 1024 == childDir / 0x40_0000 && childDir / 4096 % 1024 == PteIdx(childDir);
    child := m.AddrVir2Phy(childDir) / 4096;
    assert child == made;
    m.userVaddr := m.userVaddr[child := m.userVaddr[m.cr3]];
    ghost var c := m.S();
    CopyBody(m, parentDir, childDir, tran, parent, child, tf);
    ghost var d := m.S();
    TransferFreeable(c, d, parent, child, tv, tf);
    m.MFreePage(PF_KERNEL, tran, 1);
    ForkComposes(s, s1, s2, c, d, m.S(), parent, child, tv, tf, dv, childDir);
  }

  /** A fork that finds no page at all changes nothing; one that finds only the transfer page never gives it back. */
  ghost predicate ForkFailed(s: Snap, s': Snap, pd: nat)
    requires Inv(s)
  {
    if ClearStarts(s.kv) == {} then s' == s else exists tv: nat :: KernelPageStep(s, s', pd, tv, ZeroFrame())
  }

  lemma NothingTaken(s: Snap, s': Snap, pd: nat)
    requires Inv(s) && s.kp.Sane() && s.kp.Allocatable() != {} && NoKernelPage(s, s')
    ensures ForkFailed(s, s', pd)
  {
  }

  lemma TransferLeaked(s: Snap, s1: Snap, s': Snap, pd: nat, tv: nat)
    requires Inv(s) && Inv(s1) && s1.kp.Sane() && s1.kp.Allocatable() != {}
    requires KernelPageStep(s, s1, pd, tv, ZeroFrame()) && NoKernelPage(s1, s')
    ensures ForkFailed(s, s', pd)
  {
    assert s' == s1;
  }

  lemma EnoughForTwo(s: Snap, parent: nat)
    requires Inv(s) && EnoughFrames(s, parent)
    ensures s.kp.Sane() && |s.kp.Allocatable()| >= 2
  {
  }

  lemma KernelVaddrKept(s: Snap, s1: Snap, pd: nat, vp: nat)
    requires Inv(s) && KernelPageStep(s, s1, pd, vp, ZeroFrame())
    ensures |s1.kv| == |s.kv| && s1.uv == s.uv && |ClearStarts(s1.kv)| == |ClearStarts(s.kv)| - 1
    ensures s1.kp.Sane() && s.kp.Sane() && |s1.kp.Allocatable()| == |s.kp.Allocatable()| - 1
  {
    SinglePageTaken(s.kv, vp - KERNEL_HEAP);
  }

  /** The state the copy starts from: two kernel pages taken, the child's space empty, the supplies still there. */
  lemma CopyStart(s: Snap, s1: Snap, s2: Snap, parent: nat, tv: nat, dv: nat, parentDir: Word, childDir: Word)
    returns (child: nat, tf: nat)
    requires Inv(s) && Inv(s1) && parent in s.uv && DirectoryAt(s, parentDir, parent) && UsedPagesMapped(s, parent)
    requires EnoughFrames(s, parent)
    requires KernelPageStep(s, s1, parent, tv, ZeroFrame()) && NewDirectoryPage(s1, s2, parent, dv)
    requires childDir % 4096 == 0 && childDir / 4096 == dv
    ensures Inv(s2) && Directory(s2, parent) && InSpace(s2, KernelPage(dv)) && Look(s2, KernelPage(dv)) == Some(child)
    ensures parent in s2.uv
    ensures var c := s2.(uv := s2.uv[child := s2.uv[parent]]);
            && Inv(c) && Directory(c, parent) && ReadyToCopy(c, c, parent, child, tv, tf, 0)
            && DirectoryAt(c, parentDir, parent) && DirectoryAt(c, childDir, child)
  {
    child := Look(s2, KernelPage(dv)).value;
    tf := Look(s1, KernelPage(tv)).value;
    var c := s2.(uv := s2.uv[child := s2.uv[parent]]);
    StartDirectory(s, s1, s2, parent, tv, dv, child, tf, c);
    StartSupplies(s, s1, s2, parent, dv, tv, child, c);
    StartCopies(s, s1, s2, parent, tv, dv, child, tf, c);
    hide Inv, CopyState, KernelPageStep, Supplies, NewDirectoryPage;
    StartLooks(s, s1, s2, parent, tv, dv, child, c);
  }

  /** A frame that was free holds no directory. */
  lemma FreshIsNoSpace(s1: Snap, s2: Snap, dv: nat, child: nat)
    requires Inv(s1) && Inv(s2) && Free(s1, child) && s2.uv == s1.uv
    requires Managed(s2, KernelPage(dv)) && Look(s2, KernelPage(dv)) == Some(child)
    ensures child !in s2.uv && 0 < child
  {
    assert child in s1.uv ==> child in s1.owner;
  }

  lemma StartDirectory(s: Snap, s1: Snap, s2: Snap, parent: nat, tv: nat, dv: nat, child: nat, tf: nat, c: Snap)
    requires Inv(s) && Inv(s1) && parent in s.uv
    requires KernelPageStep(s, s1, parent, tv, ZeroFrame()) && NewDirectoryPage(s1, s2, parent, dv)
    requires Look(s2, KernelPage(dv)) == Some(child) && Look(s1, KernelPage(tv)) == Some(tf) && parent in s2.uv
    requires c == s2.(uv := s2.uv[child := s2.uv[parent]])
    ensures Inv(c) && child !in s2.uv && child != tf && child != parent && TransferPage(c, tv, tf)
    ensures forall q | InSpace(s2, q) :: Look(c, q) == Look(s2, q)
    ensures forall vp: nat | vp < KERNEL_HALF :: InSpace(c, UserPage(child, vp)) && Look(c, UserPage(child, vp)) == None
    ensures forall i: nat | i < 768 :: !Present(c.mem[child][i])
  {
    hide Inv, Trans;
    InvSane(s2);
    assert tv != dv && Look(s2, KernelPage(tv)) == Some(tf);
    FreshIsNoSpace(s1, s2, dv, child);
    NewDirectory(s2, child, s2.uv[parent], c);
  }

  lemma OwnersThrough(s: Snap, s1: Snap, s2: Snap, pd: nat, tv: nat, dv: nat)
    requires Inv(s) && Inv(s1) && KernelPageStep(s, s1, pd, tv, ZeroFrame()) && NewDirectoryPage(s1, s2, pd, dv)
    ensures forall g | g in s.owner :: g in s2.owner && s2.owner[g] == s.owner[g]
    ensures forall g | g in s.owner && s.owner[g].Mapped? && g < 0x10_0000 :: s2.mem[g] == s.mem[g]
  {
    hide Inv, Look, OnlyMoves;
  }

  lemma StartLooks(s: Snap, s1: Snap, s2: Snap, parent: nat, tv: nat, dv: nat, child: nat, c: Snap)
    requires Inv(s) && Inv(s1) && Inv(s2) && Inv(c) && parent in s.uv && parent in s2.uv
    requires KernelPageStep(s, s1, parent, tv, ZeroFrame()) && NewDirectoryPage(s1, s2, parent, dv)
    requires c == s2.(uv := s2.uv[child := s2.uv[parent]]) && child !in s2.uv
    requires forall q | InSpace(s2, q) :: Look(c, q) == Look(s2, q)
    ensures forall q | InSpace(s, q) && q != KernelPage(tv) && q != KernelPage(dv) :: Look(c, q) == Look(s, q)
    ensures forall pd, dir: Word | DirectoryAt(s, dir, pd) :: DirectoryAt(c, dir, pd)
    ensures UsedPagesMapped(s, parent) ==> UsedPagesMapped(c, parent)
    ensures s2.uv == s.uv && s2.up == s.up && c.uv[child] == c.uv[parent] == s.uv[parent]
    ensures forall g | g in s.owner :: g in c.owner && c.owner[g] == s.owner[g]
    ensures forall g | g in s.owner && s.owner[g].Mapped? && g < 0x10_0000 :: c.mem[g] == s.mem[g]
    ensures Look(s, KernelPage(tv)).None? && InSpace(s, KernelPage(dv)) && Look(s, KernelPage(dv)).None?
  {
    hide Inv, Trans, OwnersKept;
    InvSane(s);
    OwnersThrough(s, s1, s2, parent, tv, dv);
    forall q | InSpace(s, q) && q != KernelPage(tv) && q != KernelPage(dv)
      ensures Look(c, q) == Look(s, q)
    {
      assert Look(s1, q) == Look(s, q) && Look(s2, q) == Look(s1, q);
    }
    assert Look(s1, KernelPage(dv)).None?;
    assert dv != tv;
    assert Look(s, KernelPage(dv)).None?;
  }

  lemma StartSupplies(s: Snap, s1: Snap, s2: Snap, parent: nat, dv: nat, tv: nat, child: nat, c: Snap)
    requires Inv(s) && Inv(s1) && Inv(s2) && Inv(c) && parent in s.uv && parent in s2.uv && EnoughFrames(s, parent)
    requires KernelPageStep(s, s1, parent, tv, ZeroFrame()) && NewDirectoryPage(s1, s2, parent, dv)
    requires c == s2.(uv := s2.uv[child := s2.uv[parent]]) && child !in s2.uv
    ensures Supplies(c, parent, child, 0)
  {
    ChildIsDirectory(c, child);
    InvSane(c);
    hide Inv;
    Subset(SlotsLeft(c.mem[child], c.uv[parent], 0), SlotsNeeded(c.uv[parent]));
  }

  lemma StartCopies(s: Snap, s1: Snap, s2: Snap, parent: nat, tv: nat, dv: nat, child: nat, tf: nat, c: Snap)
    requires Inv(c) && parent in c.uv && child in c.uv && parent != child
    requires forall vp: nat | vp < KERNEL_HALF ::
               InSpace(c, UserPage(child, vp)) && Look(c, UserPage(child, vp)) == None
    requires child < 0x10_0000 && forall i: nat | i < 768 :: !Present(c.mem[child][i])
    ensures CopyState(c, c, parent, child, tf, 0)
  {
    hide Inv;
    InvSane(c);
  }

  lemma TransferFreeable(c: Snap, d: Snap, parent: nat, child: nat, tv: nat, tf: nat)
    requires ReadyToCopy(c, d, parent, child, tv, tf, 8 * USER_LEN)
    ensures Inv(d) && RunIsMapped(d, PF_KERNEL, parent, tv, 1)
  {
    assert Look(d, KernelPage(tv)) == Some(tf);
    forall q | InRun(PF_KERNEL, parent, tv, 1, q)
      ensures Managed(d, q) && Look(d, q).Some? && Look(d, q).value !in d.uv
    {
      assert q == KernelPage(tv);
    }
  }

  lemma ForkComposes(s: Snap, s1: Snap, s2: Snap, c: Snap, d: Snap, z: Snap,
                     parent: nat, child: nat, tv: nat, tf: nat, dv: nat, childDir: Word)
    requires Inv(s) && Inv(s1) && Inv(s2) && parent in s.uv && parent in s2.uv
    requires KernelPageStep(s, s1, parent, tv, ZeroFrame()) && NewDirectoryPage(s1, s2, parent, dv)
    requires c == s2.(uv := s2.uv[child := s2.uv[parent]]) && Look(s2, KernelPage(dv)) == Some(child)
    requires ReadyToCopy(c, d, parent, child, tv, tf, 8 * USER_LEN) && Inv(d)
    requires ReleasedRun(d, z, PF_KERNEL, parent, tv, 1)
    requires childDir % 4096 == 0 && childDir / 4096 == dv
    ensures Forked(s, z, parent, child, dv) && DirectoryAt(z, childDir, child) && Inv(z) && Directory(z, parent)
  {
    StartDirectory(s, s1, s2, parent, tv, dv, child, Look(s1, KernelPage(tv)).value, c);
    StartLooks(s, s1, s2, parent, tv, dv, child, c);
    StartFree(s, s1, s2, parent, tv, dv, child, c);
    hide Inv, KernelPageStep, NewDirectoryPage, ReleasedRun, CopyFrame, CopyPages, Supplies, UsedPagesMapped, Look;
    FrameGives(c, d, parent, child, tf);
    AfterCopy(c, d, z, parent, child, tv, tf);
    ForkSeen(s, c, z, parent, child, tv, tf, dv);
  }

  lemma StartFree(s: Snap, s1: Snap, s2: Snap, parent: nat, tv: nat, dv: nat, child: nat, c: Snap)
    requires Inv(s) && Inv(s1) && Inv(s2) && Inv(c) && parent in s.uv && parent in s2.uv
    requires KernelPageStep(s, s1, parent, tv, ZeroFrame()) && NewDirectoryPage(s1, s2, parent, dv)
    requires c == s2.(uv := s2.uv[child := s2.uv[parent]]) && Look(s2, KernelPage(dv)) == Some(child)
    ensures child !in s.owner && Look(s1, KernelPage(tv)).value !in s.owner
    ensures |c.kv| == |s.kv| && s.kp.Sane() && s.up.Sane() && Free(s, child)
    ensures c.up == s.up && forall g | Free(c, g) :: Free(s, g)
  {
    var tf := Look(s1, KernelPage(tv)).value;
    assert Free(s, tf) && Free(s1, child) && Free(s, child);
    if child in s.owner {
      OwnedNotFree(s, child);
    }
    if tf in s.owner {
      OwnedNotFree(s, tf);
    }
    InvSane(s2);
    hide Inv;
  }

  /** From the registered child space to the end of the fork, seen from `c`. */
  ghost predicate CopiedSpace(c: Snap, z: Snap, parent: nat, child: nat, tv: nat, tf: nat) {
    && Inv(c) && Inv(z) && z.uv == c.uv && parent in c.uv && child in c.uv
    && (forall q | InSpace(c, q) && !(q.UserPage? && q.pd == child) && q != KernelPage(tv) :: Look(z, q) == Look(c, q))
    && InSpace(c, KernelPage(tv)) && Look(z, KernelPage(tv)) == None
    && CopyPages(c, z, parent, child, 8 * USER_LEN, -1)
    && (forall g | g in c.owner && c.owner[g].Mapped? && g != child && g != tf && g < 0x10_0000 :: z.mem[g] == c.mem[g])
    && UserFramesTaken(c, z, child) && |z.kv| == |c.kv|
  }

  lemma AfterCopy(c: Snap, d: Snap, z: Snap, parent: nat, child: nat, tv: nat, tf: nat)
    requires CopyState(c, d, parent, child, tf, 8 * USER_LEN) && TransferPage(c, tv, tf) && Inv(d)
    requires ReleasedRun(d, z, PF_KERNEL, parent, tv, 1)
    ensures CopiedSpace(c, z, parent, child, tv, tf) && Inv(z) && Inv(c)
  {
    hide Inv, CopyPages, UserFramesTaken, RunFrame, Trans;
    FrameGives(c, d, parent, child, tf);
    OnlyTransferFreed(c, d, parent, child, tv, tf);
    AfterCopyPages(c, d, z, parent, child, tv, tf);
    AfterCopyUser(c, d, z, parent, child, tv, tf);
    InvSane(c);
    InvSane(d);
    assert InRun(PF_KERNEL, parent, tv, 1, KernelPage(tv));
  }

  lemma OnlyTransferFreed(c: Snap, d: Snap, parent: nat, child: nat, tv: nat, tf: nat)
    requires CopyFrame(c, d, parent, child, tf) && TransferPage(c, tv, tf)
    ensures forall g: nat :: RunFrame(d, PF_KERNEL, parent, tv, 1, g) <==> g == tf
    ensures d.kp.Sane() && d.kp.Holds(tf) && tf in d.owner
  {
    hide Inv, Trans, CopyPages;
    InvSane(d);
    assert Look(d, KernelPage(tv)) == Look(c, KernelPage(tv)) == Some(tf);
    assert Managed(d, KernelPage(tv));
    MappedOwner(d, KernelPage(tv));
    InKernelPool(d, KernelPage(tv));
  }

  lemma InKernelPool(s: Snap, pg: Page)
    requires Inv(s) && Managed(s, pg) && Look(s, pg).Some?
    ensures PoolOf(s, pg).Holds(Look(s, pg).value)
  {
  }

  lemma AfterCopyPages(c: Snap, d: Snap, z: Snap, parent: nat, child: nat, tv: nat, tf: nat)
    requires CopyFrame(c, d, parent, child, tf) && TransferPage(c, tv, tf)
    requires CopyPages(c, d, parent, child, 8 * USER_LEN, -1)
    requires ReleasedRun(d, z, PF_KERNEL, parent, tv, 1)
    requires forall g: nat :: RunFrame(d, PF_KERNEL, parent, tv, 1, g) <==> g == tf
    ensures CopyPages(c, z, parent, child, 8 * USER_LEN, -1)
  {
    hide Inv, CopyFrame, Trans;
    FrameGives(c, d, parent, child, tf);
    ChildIsDirectory(c, parent);
    InvSane(c);
    OwnedNotFree(c, tf);
    forall vp: nat | vp < KERNEL_HALF
      ensures if UsedBelow(c.uv[parent], vp, 8 * USER_LEN) then Copied(c, z, parent, child, vp)
                else Look(z, UserPage(child, vp)) == None
    {
      if UsedBelow(c.uv[parent], vp, 8 * USER_LEN) {
        MappedOwner(d, UserPage(child, vp));
      }
    }
  }

  lemma AfterCopyUser(c: Snap, d: Snap, z: Snap, parent: nat, child: nat, tv: nat, tf: nat)
    requires CopyFrame(c, d, parent, child, tf) && ReleasedRun(d, z, PF_KERNEL, parent, tv, 1)
    requires forall g: nat :: RunFrame(d, PF_KERNEL, parent, tv, 1, g) <==> g == tf
    requires d.kp.Sane() && d.kp.Holds(tf)
    ensures UserFramesTaken(c, z, child)
  {
    FrameGives(c, d, parent, child, tf);
    InvSane(c);
    InvSane(d);
    InvSane(z);
    hide Inv;
    forall g: nat
      ensures z.up.Free(g) ==> c.up.Free(g)
      ensures c.up.Free(g) && !z.up.Free(g) ==> TakenForChild(z, child, g)
    {
      assert Free(z, g) <==> Free(d, g) || g == tf;
      if c.up.Free(g) && !z.up.Free(g) {
        assert Free(c, g) && !Free(d, g);
        assert TakenForChild(d, child, g);
      }
    }
  }

  lemma ForkSeen(s: Snap, c: Snap, z: Snap, parent: nat, child: nat, tv: nat, tf: nat, dv: nat)
    requires CopiedSpace(c, z, parent, child, tv, tf) && Inv(s) && parent in s.uv && child !in s.uv
    requires c.uv == s.uv[child := s.uv[parent]]
    requires forall q | InSpace(s, q) && q != KernelPage(tv) && q != KernelPage(dv) :: Look(c, q) == Look(s, q)
    requires InSpace(s, KernelPage(tv)) && Look(s, KernelPage(tv)).None? && InSpace(c, KernelPage(dv))
    requires Look(c, KernelPage(dv)) == Some(child) && tv != dv
    requires InSpace(s, KernelPage(dv)) && Look(s, KernelPage(dv)).None? && |c.kv| == |s.kv|
    requires s.kp.Sane() && s.up.Sane() && Free(s, child)
    requires child !in s.owner && tf !in s.owner && c.up == s.up && forall g | Free(c, g) :: Free(s, g)
    requires forall g | g in s.owner :: g in c.owner && c.owner[g] == s.owner[g]
    requires forall g | g in s.owner && s.owner[g].Mapped? && g < 0x10_0000 :: c.mem[g] == s.mem[g]
    ensures Forked(s, z, parent, child, dv) && Look(z, KernelPage(dv)) == Some(child)
  {
    hide Inv, CopyPages, Copied, UsedBelow, TakenForChild;
    ForkSeenPages(s, c, z, parent, child, tv, tf, dv);
    InvSane(s);
    InvSane(c);
    InvSane(z);
  }

  lemma ForkSeenPages(s: Snap, c: Snap, z: Snap, parent: nat, child: nat, tv: nat, tf: nat, dv: nat)
    requires CopiedSpace(c, z, parent, child, tv, tf) && Inv(s) && parent in s.uv && child !in s.uv
    requires c.uv == s.uv[child := s.uv[parent]]
    requires forall q | InSpace(s, q) && q != KernelPage(tv) && q != KernelPage(dv) :: Look(c, q) == Look(s, q)
    requires forall g | Free(c, g) :: Free(s, g)
    requires forall g | g in s.owner && s.owner[g].Mapped? && g < 0x10_0000 :: c.mem[g] == s.mem[g]
    ensures forall vp: nat | vp < KERNEL_HALF :: InSpace(z, UserPage(child, vp)) && InSpace(s, UserPage(parent, vp)) &&
              if UsedBelow(s.uv[parent], vp, 8 * USER_LEN) then Copied(s, z, parent, child, vp)
                else Look(z, UserPage(child, vp)) == None
  {
    hide Inv, Trans, UserFramesTaken;
    ChildIsDirectory(z, child);
    ChildIsDirectory(s, parent);
    InvSane(s);
    forall vp: nat | vp < KERNEL_HALF
      ensures if UsedBelow(s.uv[parent], vp, 8 * USER_LEN) then Copied(s, z, parent, child, vp)
                else Look(z, UserPage(child, vp)) == None
    {
      if UsedBelow(s.uv[parent], vp, 8 * USER_LEN) {
        assert Look(c, UserPage(parent, vp)) == Look(s, UserPage(parent, vp));
        MappedOwner(s, UserPage(parent, vp));
      }
    }
  }

  /** A child that exits straight away gives the user pool back bit for bit. */
  lemma ForkThenReleaseRestores(s: Snap, z: Snap, w: Snap, parent: nat, child: nat, dv: nat)
    requires Inv(s) && Forked(s, z, parent, child, dv) && Inv(z) && Exited(z, w, child)
    ensures w.up == s.up
  {
    hide Inv, Released, TakenForChild, Copied, Look;
    InvSane(s);
    InvSane(z);
    InvSane(w);
    forall i: nat | i < |s.up.bits|
      ensures w.up.bits[i] == s.up.bits[i]
    {
      var g := s.up.start + i;
      ReleasedWasFree(s, z, parent, child, dv, g);
      assert w.up.Free(g) == Free(w, g) && z.up.Free(g) == Free(z, g) && s.up.Free(g) == Free(s, g);
    }
    assert w.up.bits == s.up.bits;
  }

  lemma ReleasedWasFree(s: Snap, z: Snap, parent: nat, child: nat, dv: nat, g: nat)
    requires Inv(s) && Forked(s, z, parent, child, dv) && child < 0x10_0000 && s.up.Holds(g)
    ensures Free(s, g) <==> Free(z, g) || Released(z, child, KERNEL_HALF, 768, g)
  {
    InvSane(s);
    InvSane(z);
    if Free(s, g) && !Free(z, g) {
      assert s.up.Free(g) && !z.up.Free(g);
      assert TakenForChild(z, child, g);
    }
    if Released(z, child, KERNEL_HALF, 768, g) {
      if z.owner[g].UserTable? {
        TableInKernelPool(z, g);
      } else {
        var vp := z.owner[g].page.vp;
        assert Look(z, UserPage(child, vp)) == Some(g);
        assert Copied(s, z, parent, child, vp);
      }
    }
  }

  lemma TableInKernelPool(s: Snap, g: nat)
    requires Inv(s) && g in s.owner && s.owner[g].UserTable?
    ensures s.kp.Holds(g)
  {
  }

  lemma ExitedGives(z: Snap, w: Snap, dir: Word, pd: nat, child: nat)
    requires Inv(z) && Exited(z, w, child) && DirectoryAt(z, dir, pd)
    ensures Inv(w) && DirectoryAt(w, dir, pd) && w.uv == z.uv - {child}
  {
  }

  lemma ForkedGives(s: Snap, z: Snap, parent: nat, child: nat, dv: nat)
    requires Inv(s) && Forked(s, z, parent, child, dv)
    ensures Inv(z) && child in z.uv && z.uv - {child} == s.uv
    ensures forall dir: Word | DirectoryAt(s, dir, parent) :: DirectoryAt(z, dir, parent)
  {
  }

  /** fork, then the child's exit before it has done anything: its frames, and no others, come back. */
  method ForkThenExit(m: Machine, parentDir: Word) returns (ok: bool)
    requires m.Valid() && m.cr3 in m.userVaddr && DirectoryAt(m.S(), parentDir, m.cr3)
    requires UsedPagesMapped(m.S(), m.cr3) && EnoughFrames(m.S(), m.cr3)
    modifies m
    ensures m.Valid() && m.cr3 == old(m.cr3) && (ok <==> |ClearStarts(old(m.kernelVaddr))| >= 2)
    ensures ok ==> m.userPool == old(m.userPool) && m.userVaddr == old(m.userVaddr)
  {
    hide Inv, Forked, Exited, KernelReach, UsedPagesMapped, EnoughFrames, Look;
    ghost var s, parent := m.S(), m.cr3;
    var childDir;
    ghost var child;
    childDir, child := CopyProcess(m, parentDir);
    ok := childDir != 0;
    if ok {
      ghost var z := m.S();
      ForkedGives(s, z, parent, child, childDir / 4096);
      ReachOfDirectory(z, parent);
      Activate(m, childDir, child);
      ReleaseProgResource(m, childDir, child);
      ForkThenReleaseRestores(s, z, m.S(), parent, child, childDir / 4096);
      ExitedGives(z, m.S(), parentDir, parent, child);
      Activate(m, parentDir, parent);
    }
  }

  // ---- the first process ----

  function NoPages(): seq<bool> { seq(8 * USER_LEN, _ => false) }

  /**
   * process_execute on the address space: an empty bitmap and a fresh directory; 0 when a kernel page is not to be
   * had.
   */
  method ProcessExecute(m: Machine) returns (dir: Word, pd: nat)
    requires m.Valid()
    modifies m
    ensures m.Valid() && m.cr3 == old(m.cr3)
    ensures dir != 0 <==> ClearStarts(old(m.kernelVaddr)) != {} && old(m.kernelPool).Allocatable() != {}
    ensures dir != 0 ==> DirectoryAt(m.S(), dir, pd) && Started(old(m.S()), m.S(), pd, dir / 4096)
    ensures dir == 0 ==> NoKernelPage(old(m.S()), m.S())
  {
    hide Inv, Directory, KernelPageStep, NewDirectoryPage, NoKernelPage;
    ghost var s := m.S();
    pd := 0;
    dir := CreatePageDir(m);
    if dir != 0 {
      ghost var s2, dv := m.S(), dir / 4096;
      ghost var made := EmptySpace(s, s2, m.cr3, dv);
      ActiveEntry(s2, m.cr3, KernelPage(dv));
      PtePtrReachesEntry(m.mem, m.cr3, dir);
      assert dir / 4096 / 1024 == dir / 0x40_0000 && dir / 4096 % 1024 == PteIdx(dir);
      pd := m.AddrVir2Phy(dir) / 4096;
      assert pd == made;
      m.userVaddr := m.userVaddr[pd := NoPages()];
      assert m.S() == s2.(uv := s2.uv[pd := NoPages()]);
    }
  }

  /** A new space without pages; every other translation as before, and the user pool untouched. */
  ghost predicate Started(s: Snap, z: Snap, pd: nat, dirPage: nat)
    requires Inv(s)
  {
    && Inv(z) && pd !in s.uv && pd < 0x10_0000 && z.uv == s.uv[pd := NoPages()] && z.up == s.up
    && (forall q | InSpace(s, q) && q != KernelPage(dirPage) :: Look(z, q) == Look(s, q))
    && (forall vp: nat | vp < KERNEL_HALF :: Look(z, UserPage(pd, vp)) == None)
    && |z.kp.Allocatable()| + 1 == |s.kp.Allocatable()| && |ClearStarts(z.kv)| + 1 == |ClearStarts(s.kv)|
    && InSpace(s, KernelPage(dirPage)) && Look(s, KernelPage(dirPage)).None?
    && (forall i: nat | i < 768 :: !Present(z.mem[pd][i])) && |z.kv| == |s.kv| && Free(s, pd)
  }

  lemma EmptySpace(s: Snap, s2: Snap, cr3: nat, dv: nat) returns (pd: nat)
    requires Inv(s) && Directory(s, cr3) && NewDirectoryPage(s, s2, cr3, dv)
    ensures Inv(s2) && Directory(s2, cr3) && InSpace(s2, KernelPage(dv)) && Look(s2, KernelPage(dv)) == Some(pd)
    ensures var z := s2.(uv := s2.uv[pd := NoPages()]);
            && Started(s, z, pd, dv) && Directory(z, cr3) && InSpace(z, KernelPage(dv))
            && Look(z, KernelPage(dv)) == Some(pd)
  {
    hide Inv, Trans, OwnersKept;
    InvSane(s);
    InvSane(s2);
    pd := Look(s2, KernelPage(dv)).value;
    var z := s2.(uv := s2.uv[pd := NoPages()]);
    NewDirectory(s2, pd, NoPages(), z);
    SinglePageTaken(s.kv, dv - KERNEL_HEAP);
    UnownedIsNoSpace(s, pd);
  }

  lemma UnownedIsNoSpace(s: Snap, f: nat)
    requires Inv(s) && Free(s, f)
    ensures f !in s.uv
  {
    if f in s.uv {
      ChildIsDirectory(s, f);
      OwnedNotFree(s, f);
    }
  }

  lemma BootSupplies()
    ensures |Pool(NoneTaken(), 480, 0x200).Allocatable()| >= 3 && |ClearStarts(NoneTaken())| >= 3
  {
    var a, b := Pool(NoneTaken(), 480, 0x200).Allocatable(), ClearStarts(NoneTaken());
    Subset({0, 1, 2}, a);
    Subset({0, 1, 2}, b);
  }

  /** A process without pages can always be forked. */
  lemma NothingUsed(s: Snap, pd: nat)
    requires Inv(s) && pd in s.uv && s.uv[pd] == NoPages() && s.kp.Sane() && |s.kp.Allocatable()| >= 2
    ensures UsedPagesMapped(s, pd) && EnoughFrames(s, pd)
  {
    InvSane(s);
    ChildIsDirectory(s, pd);
    assert PagesLeft(NoPages(), 0) == {} && SlotsNeeded(NoPages()) == {};
  }

  lemma StartedGives(s: Snap, z: Snap, pd: nat, dirPage: nat)
    requires Inv(s) && Started(s, z, pd, dirPage)
    ensures Inv(z) && z.uv == s.uv[pd := NoPages()] && z.up == s.up && z.kp.Sane() && s.kp.Sane()
    ensures |z.kp.Allocatable()| + 1 == |s.kp.Allocatable()| && |ClearStarts(z.kv)| + 1 == |ClearStarts(s.kv)|
  {
    InvSane(s);
    InvSane(z);
  }

  /** From boot: the first process is started, forks, and its child exits; the user pool ends as it began. */
  method BootForkExit(boot: Memory) returns (m: Machine, ok: bool)
    requires AtBoot(boot)
    ensures ok && m.Valid() && m.userPool == Pool(NoneTaken(), 480, 0x200 + 3840) && |m.userVaddr| == 1
  {
    hide Inv, Directory, UsedPagesMapped, EnoughFrames, Started, Look;
    m := new Machine(boot);
    BootSupplies();
    ghost var boot0 := m.S();
    var dir;
    ghost var pd;
    dir, pd := ProcessExecute(m);
    StartedGives(boot0, m.S(), pd, dir / 4096);
    NothingUsed(m.S(), pd);
    ReachOfDirectory(m.S(), m.cr3);
    Activate(m, dir, pd);
    ok := ForkThenExit(m, dir);
  }
}
