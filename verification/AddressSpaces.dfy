/** Address-space copy in fork and teardown in exit: userprog/fork.c, userprog/process.c and userprog/wait.c. */
module AddressSpaces {
  import opened Options
  import opened Paging
  import opened Pools
  import opened PageSteps
  import opened PageAllocator

  // ---- what a store to a data frame, or a new directory, does to a snapshot ----

  /** A frame that holds a page's data and no live page directory. */
  ghost predicate DataFrame(s: Snap, f: nat) {
    f < 0x10_0000 && f in s.owner && s.owner[f].Mapped? && f !in s.uv
  }

  lemma DataWrite(s: Snap, f: nat, row: Frame)
    requires Inv(s) && DataFrame(s, f)
    ensures Inv(s.(mem := s.mem[f := row]))
    ensures forall q | InSpace(s, q) :: Look(s.(mem := s.mem[f := row]), q) == Look(s, q)
  {
    var s' := s.(mem := s.mem[f := row]);
    forall q | InSpace(s, q)
      ensures Look(s', q) == Look(s, q)
    {
      if Present(Pde(s, q)) {
        assert FrameOf(Pde(s, q)) != f;
      }
    }
    DirectoriesKept(s, s');
    assert Pages(s') by {
      assert forall pg | Managed(s', pg) :: Managed(s, pg) && Look(s', pg) == Look(s, pg);
    }
  }

  /** The row create_page_dir builds: no user tables, the shared kernel half, itself in the last slot. */
  predicate FreshDirectory(s: Snap, f: nat, row: Frame)
    requires f < 0x10_0000
  {
    && (forall i: nat | i < 768 :: !Present(row[i]))
    && (forall i: nat | 768 <= i < 1023 :: row[i] == s.mem[BOOT][i])
    && row[1023] == EntryFor(f)
  }

  lemma NewDirectory(s: Snap, f: nat, bits: seq<bool>, s': Snap)
    requires Inv(s) && 0 < f && DataFrame(s, f) && s.owner[f].page.KernelPage? && FreshDirectory(s, f, s.mem[f])
    requires |bits| == 8 * USER_LEN
    requires s' == s.(uv := s.uv[f := bits])
    ensures Inv(s')
    ensures forall q | InSpace(s, q) :: Look(s', q) == Look(s, q)
    ensures forall vp: nat | vp < KERNEL_HALF :: Look(s', UserPage(f, vp)) == None
  {
    assert forall vp: nat | vp < KERNEL_HALF :: !Present(s.mem[f][vp / 1024]);
    assert Directories(s') && Tables(s');
    assert Pages(s') by {
      forall pg | Managed(s', pg) && Look(s', pg).Some?
        ensures Managed(s, pg) && Look(s', pg) == Look(s, pg) && VirtualBit(s', pg) == VirtualBit(s, pg)
      {
        assert pg.UserPage? ==> pg.pd != f;
      }
    }
  }

  // ---- copying words through virtual addresses ----

  /** Neither translation the copy uses runs through the frame it writes. */
  predicate CopySafe(mem: Memory, pd: nat, dst: nat, src: nat, fd: nat, fs: nat)
    requires pd < 0x10_0000 && dst < 0x10_0000 && src < 0x10_0000
  {
    && Trans(mem, pd, dst) == Some(fd) && Trans(mem, pd, src) == Some(fs) && fd != fs
    && fd != pd && fd != FrameOf(mem[pd][dst / 1024]) && fd != FrameOf(mem[pd][src / 1024])
  }

  function CopiedRow(to: Frame, from: Frame, lo: nat, hi: nat): (r: Frame)
    requires lo <= hi <= 1024
    ensures forall i: nat | i < 1024 :: r[i] == if lo <= i < hi then from[i] else to[i]
  {
    seq(1024, i requires 0 <= i < 1024 => if lo <= i < hi then from[i] else to[i])
  }

  /** memcpy of words `lo` to `hi` of one page onto the same words of another, in the active space. */
  method CopyWords(m: Machine, dst: Word, src: Word, lo: nat, hi: nat, ghost fd: nat, ghost fs: nat)
    requires m.cr3 < 0x10_0000 && dst % 4096 == 0 && src % 4096 == 0 && lo <= hi <= 1024
    requires CopySafe(m.mem, m.cr3, dst / 4096, src / 4096, fd, fs)
    modifies m`mem
    ensures fd < 0x10_0000 && fs < 0x10_0000
    ensures m.mem == old(m.mem)[fd := CopiedRow(old(m.mem)[fd], old(m.mem)[fs], lo, hi)]
  {
    var i := lo;
    assert CopiedRow(m.mem[fd], m.mem[fs], lo, lo) == m.mem[fd];
    while i < hi
      invariant lo <= i <= hi
      invariant m.mem == old(m.mem)[fd := CopiedRow(old(m.mem)[fd], old(m.mem)[fs], lo, i)]
    {
      WordOfPage(src, i);
      WordOfPage(dst, i);
      var w := m.Load(src + 4 * i);
      m.Store(dst + 4 * i, w);
      assert CopiedRow(old(m.mem)[fd], old(m.mem)[fs], lo, i + 1) ==
        CopiedRow(old(m.mem)[fd], old(m.mem)[fs], lo, i)[i := w];
      i := i + 1;
    }
  }

  /** memset of the page at `v` to zero. */
  method ZeroPage(m: Machine, v: Word, ghost f: nat)
    requires m.cr3 < 0x10_0000 && v % 4096 == 0 && Trans(m.mem, m.cr3, v / 4096) == Some(f)
    requires f != m.cr3 && f != FrameOf(m.mem[m.cr3][v / 4096 / 1024])
    modifies m`mem
    ensures f < 0x10_0000 && m.mem == old(m.mem)[f := ZeroFrame()]
  {
    var i := 0;
    while i < 1024
      invariant 0 <= i <= 1024
      invariant m.mem == old(m.mem)[f := m.mem[f]]
      invariant forall j: nat | j < i :: m.mem[f][j] == 0
    {
      WordOfPage(v, i);
      m.Store(v + 4 * i, 0);
      i := i + 1;
    }
    assert m.mem[f] == ZeroFrame();
  }

  // ---- create_page_dir ----

  /** One kernel heap page newly mapped to a frame that was free, holding `row`; nothing else moved. */
  ghost predicate KernelPageStep(s: Snap, s': Snap, pd: nat, vp: nat, row: Frame)
    requires Inv(s)
  {
    && Inv(s') && s'.uv == s.uv && s'.up == s.up && Directory(s, pd)
    && KERNEL_HEAP <= vp && vp - KERNEL_HEAP in ClearStarts(s.kv) && s'.kv == s.kv[vp - KERNEL_HEAP := true]
    && InSpace(s, KernelPage(vp)) && Managed(s, KernelPage(vp)) && Look(s, KernelPage(vp)).None?
    && OnlyMoves(s, s', KernelPage(vp)) && OwnersKept(s, s')
    && Look(s', KernelPage(vp)).Some? && |s'.kp.Allocatable()| + 1 == |s.kp.Allocatable()|
    && (forall g | Free(s', g) :: Free(s, g))
    && (var f := Look(s', KernelPage(vp)).value;
        && Free(s, f) && DataFrame(s', f) && s'.owner[f] == Mapped(KernelPage(vp)) && s'.mem[f] == row
        && (forall g | g in s.owner && s.owner[g].Mapped? && g < 0x10_0000 :: s'.mem[g] == s.mem[g])
        && s'.mem[BOOT] == s.mem[BOOT])
  }

  /** What a failed request for one kernel page leaves: its virtual bit set, when it was only the frame that lacked. */
  ghost predicate NoKernelPage(s: Snap, s': Snap)
    requires Inv(s)
  {
    if ClearStarts(s.kv) == {} then s' == s
    else
      && s.kp.Allocatable() == {} && 0 <= FirstRun(s, PF_KERNEL, BOOT, 1) < |s.kv|
      && s' == s.(kv := s.kv[FirstRun(s, PF_KERNEL, BOOT, 1) := true])
  }

  lemma OneBitReserved(s: Snap, r: Snap, pd: nat)
    requires Inv(s) && FirstRun(s, PF_KERNEL, pd, 1) >= 0
    requires ReservedRun(s, r, PF_KERNEL, pd, KERNEL_HEAP + FirstRun(s, PF_KERNEL, pd, 1), 1)
    ensures FirstRun(s, PF_KERNEL, pd, 1) < |s.kv| && r == s.(kv := s.kv[FirstRun(s, PF_KERNEL, pd, 1) := true])
  {
    hide Inv;
    var i := FirstRun(s, PF_KERNEL, pd, 1);
    assert WithRun(s.kv, i, 1, true) == s.kv[i := true];
  }

  /** get_kernel_pages(1): a zeroed kernel page, or 0. */
  method GetKernelPage(m: Machine) returns (v: Word)
    requires m.Valid()
    modifies m
    ensures m.Valid() && m.cr3 == old(m.cr3)
    ensures v != 0 <==> ClearStarts(old(m.kernelVaddr)) != {} && old(m.kernelPool).Allocatable() != {}
    ensures v != 0 ==> v % 4096 == 0 && KernelPageStep(old(m.S()), m.S(), m.cr3, v / 4096, ZeroFrame())
    ensures v == 0 ==> NoKernelPage(old(m.S()), m.S())
  {
    hide Inv, MappedRun, ReservedRun, KernelPageStep, TablesSuffice, MissingTables, Directory;
    ghost var s := m.S();
    KernelTablesSuffice(s, m.cr3, 1);
    VirtualMapSane(s, PF_KERNEL, m.cr3);
    SinglePageFound(m.kernelVaddr);
    ghost var r, done;
    v, r, done := m.MallocPage(PF_KERNEL, 1);
    if v != 0 {
      ghost var m1, vp := m.S(), KERNEL_HEAP + FirstRun(s, PF_KERNEL, m.cr3, 1);
      PageNumber(vp);
      OnePageRun(s, r, m1, m.cr3, vp);
      FrameWasThere(s, m1, m.cr3, vp);
      ghost var f := Look(m1, KernelPage(vp)).value;
      ActiveEntry(m1, m.cr3, KernelPage(vp));
      ZeroPage(m, v, f);
      KernelPageZeroed(s, m1, m.cr3, vp, f, m.S());
    } else if ClearStarts(s.kv) != {} {
      OneBitReserved(s, r, m.cr3);
    }
  }

  lemma FrameWasThere(s: Snap, s': Snap, pd: nat, vp: nat)
    requires Inv(s) && InSpace(s', KernelPage(vp)) && Look(s', KernelPage(vp)).Some?
    requires KernelPageStep(s, s', pd, vp, s'.mem[Look(s', KernelPage(vp)).value])
    ensures s.kp.Sane() && s.kp.Allocatable() != {}
  {
    InvSane(s);
    assert |s.kp.Allocatable()| > 0;
  }

  /** The kernel half has all its page tables from boot, so a kernel run never lacks one. */
  lemma KernelTablesSuffice(s: Snap, pd: nat, cnt: nat)
    requires Inv(s) && Directory(s, pd)
    ensures TablesSuffice(s, PF_KERNEL, pd, cnt)
  {
  }

  lemma OnePageMapped(s: Snap, r: Snap, m: Snap, pd: nat, vp: nat)
    requires Inv(s) && Inv(r) && Directory(s, pd) && ReservedRun(s, r, PF_KERNEL, pd, vp, 1)
    requires MappedRun(r, m, PF_KERNEL, pd, vp, 1)
    ensures Inv(m) && InSpace(m, KernelPage(vp)) && Look(m, KernelPage(vp)).Some?
    ensures var f := Look(m, KernelPage(vp)).value;
            Free(s, f) && DataFrame(m, f) && m.owner[f] == Mapped(KernelPage(vp)) && f != pd &&
              f != FrameOf(Pde(m, KernelPage(vp)))
  {
    assert InRun(PF_KERNEL, pd, vp, 1, KernelPage(vp));
  }

  lemma BootOwned(s: Snap)
    requires Inv(s)
    ensures BOOT in s.owner && s.owner[BOOT] == BootDirectory
  {
  }

  lemma OnePageRun(s: Snap, r: Snap, m: Snap, pd: nat, vp: nat)
    requires Inv(s) && Inv(r) && Directory(s, pd) && ReservedRun(s, r, PF_KERNEL, pd, vp, 1)
    requires MappedRun(r, m, PF_KERNEL, pd, vp, 1)
    requires KERNEL_HEAP <= vp && vp - KERNEL_HEAP in ClearStarts(s.kv)
    ensures Inv(m) && Directory(m, pd) && InSpace(m, KernelPage(vp)) && Look(m, KernelPage(vp)).Some?
    ensures var f := Look(m, KernelPage(vp)).value;
            KernelPageStep(s, m, pd, vp, m.mem[f]) && f != pd && f != FrameOf(Pde(m, KernelPage(vp)))
  {
    hide Inv, Trans;
    var i := vp - KERNEL_HEAP;
    assert WithRun(s.kv, i, 1, true) == s.kv[i := true];
    OnePageMapped(s, r, m, pd, vp);
    InvSane(s);
    InvSane(m);
    SameView(s, r);
    BootOwned(s);
  }

  lemma KernelPageZeroed(s: Snap, m: Snap, pd: nat, vp: nat, f: nat, z: Snap)
    requires Inv(s) && InSpace(m, KernelPage(vp)) && Look(m, KernelPage(vp)) == Some(f)
    requires KernelPageStep(s, m, pd, vp, m.mem[f]) && z == m.(mem := m.mem[f := ZeroFrame()])
    ensures KernelPageStep(s, z, pd, vp, ZeroFrame()) && Inv(z) && Directory(z, pd)
  {
    DataWrite(m, f, ZeroFrame());
  }

  /** A copy between two mapped pages of one space, onto a data frame, runs through neither frame. */
  lemma SafeToCopy(s: Snap, pd: nat, dst: Page, src: Page)
    requires Inv(s) && Directory(s, pd) && InSpace(s, dst) && InSpace(s, src) && dst != src
    requires (dst.UserPage? ==> dst.pd == pd) && (src.UserPage? ==> src.pd == pd)
    requires Managed(s, dst) && Managed(s, src) && Look(s, dst).Some? && Look(s, src).Some?
    requires DataFrame(s, Look(s, dst).value)
    ensures pd < 0x10_0000 && CopySafe(s.mem, pd, dst.vp, src.vp, Look(s, dst).value, Look(s, src).value)
  {
    ActiveEntry(s, pd, dst);
    ActiveEntry(s, pd, src);
  }

  /** create_page_dir: the kernel address of a new directory for the active space's kernel half, or 0. */
  method CreatePageDir(m: Machine) returns (v: Word)
    requires m.Valid()
    modifies m
    ensures m.Valid() && m.cr3 == old(m.cr3)
    ensures v != 0 <==> ClearStarts(old(m.kernelVaddr)) != {} && old(m.kernelPool).Allocatable() != {}
    ensures v != 0 ==> v % 4096 == 0 && NewDirectoryPage(old(m.S()), m.S(), m.cr3, v / 4096)
    ensures v == 0 ==> NoKernelPage(old(m.S()), m.S())
  {
    hide Inv, KernelPageStep, Directory, NoKernelPage, NewDirectoryPage, Trans, Look, SelfMapped;
    ghost var s := m.S();
    v := GetKernelPage(m);
    if v != 0 {
      ghost var z, vp := m.S(), v / 4096;
      ghost var f := DirectoryCopySafe(s, z, m.cr3, vp);
      CopyWords(m, v, 0xffff_f000, 768, 1024, f, m.cr3);
      ghost var row := m.mem[f];
      DirectoryStoreSafe(s, z, m.cr3, vp, f, row, m.S());
      LinkSelf(m, v, f);
      assert m.mem == z.mem[f := row[1023 := EntryFor(f)]];
      DirectoryBuilt(s, z, m.cr3, vp, f, row, m.S());
    }
  }

  lemma SelfEntry(f: nat)
    requires f < 0x10_0000
    ensures EntryFor(f) == f * 4096 + 7
  {
  }

  /** The last entry of the directory at `v` made to name the directory's own frame. */
  method LinkSelf(m: Machine, v: Word, ghost f: nat)
    requires m.cr3 < 0x10_0000 && v % 4096 == 0 && SelfMapped(m.mem, m.cr3) && Present(m.mem[m.cr3][v / 4096 / 1024])
    requires Trans(m.mem, m.cr3, v / 4096) == Some(f)
    modifies m`mem
    ensures f < 0x10_0000 && m.mem == Put(old(m.mem), f, 1023, EntryFor(f))
  {
    hide EntryFor, Permits, SelfMapped;
    WordOfPage(v, 1023);
    PtePtrReachesEntry(m.mem, m.cr3, v);
    assert v / 4096 / 1024 == v / 0x40_0000 && v / 4096 % 1024 == PteIdx(v);
    var phys := m.AddrVir2Phy(v);
    assert phys / 4096 == f;
    hide Trans, PtePtr;
    SelfEntry(f);
    m.Store(v + 4 * 1023, phys / 4096 * 4096 + 7);
  }

  /** The new kernel page holds a fresh page directory. */
  ghost predicate NewDirectoryPage(s: Snap, s': Snap, pd: nat, vp: nat)
    requires Inv(s)
  {
    && Inv(s') && InSpace(s', KernelPage(vp)) && Look(s', KernelPage(vp)).Some?
    && (var f := Look(s', KernelPage(vp)).value;
        KernelPageStep(s, s', pd, vp, s'.mem[f]) && FreshDirectory(s', f, s'.mem[f]))
  }

  lemma DirectoryCopySafe(s: Snap, z: Snap, pd: nat, vp: nat) returns (f: nat)
    requires Inv(s) && Inv(z) && Directory(s, pd) && KernelPageStep(s, z, pd, vp, ZeroFrame())
    ensures InSpace(z, KernelPage(vp)) && Look(z, KernelPage(vp)) == Some(f) && z.mem[f] == ZeroFrame()
    ensures pd < 0x10_0000 && CopySafe(z.mem, pd, vp, 0xfffff, f, pd)
  {
    f := Look(z, KernelPage(vp)).value;
    ActiveEntry(z, pd, KernelPage(vp));
    WindowPage(z.mem, pd, 1023);
  }

  lemma DirectoryStoreSafe(s: Snap, z: Snap, pd: nat, vp: nat, f: nat, row: Frame, z': Snap)
    requires Inv(s) && Inv(z) && Directory(s, pd) && KernelPageStep(s, z, pd, vp, ZeroFrame())
    requires Look(z, KernelPage(vp)) == Some(f)
    requires z' == z.(mem := z.mem[f := row])
    ensures pd < 0x10_0000 && SelfMapped(z'.mem, pd) && Present(z'.mem[pd][vp / 1024])
    ensures Trans(z'.mem, pd, vp) == Some(f) && f != pd && f != FrameOf(z'.mem[pd][vp / 1024])
  {
    DataWrite(z, f, row);
    ActiveEntry(z', pd, KernelPage(vp));
  }

  lemma DirectoryBuilt(s: Snap, z: Snap, pd: nat, vp: nat, f: nat, row: Frame, z': Snap)
    requires Inv(s) && Inv(z) && Directory(s, pd) && KernelPageStep(s, z, pd, vp, ZeroFrame())
    requires Look(z, KernelPage(vp)) == Some(f)
    requires row == CopiedRow(ZeroFrame(), z.mem[pd], 768, 1024)
    requires z' == z.(mem := z.mem[f := row[1023 := EntryFor(f)]])
    ensures NewDirectoryPage(s, z', pd, vp) && Inv(z') && Directory(z', pd)
  {
    DataWrite(z, f, row[1023 := EntryFor(f)]);
    KernelHalf(z, pd);
  }

  lemma KernelHalf(s: Snap, pd: nat)
    requires Inv(s) && Directory(s, pd)
    ensures pd < 0x10_0000 && forall i: nat | 768 <= i < 1023 :: s.mem[pd][i] == s.mem[BOOT][i]
  {
  }

  /** A directory that still maps itself and the kernel half, as one does whose space was just released. */
  ghost predicate KernelReach(s: Snap, pd: nat) {
    pd < 0x10_0000 && SelfMapped(s.mem, pd) && forall i: nat | 768 <= i < 1023 :: s.mem[pd][i] == s.mem[BOOT][i]
  }

  lemma ReachOfDirectory(s: Snap, pd: nat)
    requires Inv(s) && Directory(s, pd)
    ensures KernelReach(s, pd)
  {
  }

  /** page_dir_activate: the directory behind kernel address `dir`, or the one all kernel threads run on. */
  method Activate(m: Machine, dir: Word, ghost pd: nat)
    requires Inv(m.S()) && KernelReach(m.S(), m.cr3)
    requires if dir == 0 then pd == BOOT
             else
               && dir % 4096 == 0 && InSpace(m.S(), KernelPage(dir / 4096))
               && Look(m.S(), KernelPage(dir / 4096)) == Some(pd) && pd in m.userVaddr
    modifies m`cr3
    ensures m.cr3 == pd && m.Valid()
  {
    if dir == 0 {
      m.cr3 := 0x10_0000 / 4096;
      return;
    }
    assert dir / 4096 / 1024 == dir / 0x40_0000 && dir / 4096 % 1024 == PteIdx(dir);
    assert m.mem[m.cr3][dir / 0x40_0000] == Pde(m.S(), KernelPage(dir / 4096));
    PtePtrReachesEntry(m.mem, m.cr3, dir);
    var phys := m.AddrVir2Phy(dir);
    m.cr3 := phys / 4096;
  }
}
