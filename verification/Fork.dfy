/** copy_body_stack3 of userprog/fork.c: every used page of the parent copied to a frame of the child's own. */
module Fork {
  import opened Options
  import opened Sequences
  import opened Paging
  import opened Pools
  import opened PageSteps
  import opened FrameZero
  import opened PageAllocator
  import opened AddressSpaces

  /** The parent's bitmap marks page `vp` among the first `i` bits. */
  predicate UsedBelow(bits: seq<bool>, vp: nat, i: nat) {
    USER_START <= vp && vp - USER_START < i && vp - USER_START < |bits| && bits[vp - USER_START]
  }

  /** Bit `i` of the bitmap of `pd`. */
  predicate Used(c: Snap, pd: nat, i: nat) { pd in c.uv && i < |c.uv[pd]| && c.uv[pd][i] }

  /** Every page the bitmap marks is mapped in the space of `pd`. */
  ghost predicate UsedPagesMapped(s: Snap, pd: nat) {
    pd in s.uv && pd < 0x10_0000 &&
    forall vp: nat | vp < KERNEL_HALF && UsedBelow(s.uv[pd], vp, |s.uv[pd]|) :: Look(s, UserPage(pd, vp)).Some?
  }

  /** Used pages from bit `i` on. */
  function PagesLeft(bits: seq<bool>, i: nat): set<nat> {
    set k: nat | i <= k < |bits| && bits[k]
  }

  /** Page-table slots the child still lacks for its pages from bit `i` on. */
  function SlotsLeft(row: Frame, bits: seq<bool>, i: nat): set<nat>
    requires |bits| == 8 * USER_LEN
  {
    set k: nat | i <= k < |bits| && bits[k] && !Present(row[(USER_START + k) / 1024]) :: (USER_START + k) / 1024
  }

  /** Frames for the pages and page tables still to come. */
  ghost predicate Supplies(s: Snap, parent: nat, child: nat, i: nat)
    requires Inv(s)
  {
    && parent in s.uv && child in s.uv
    && |PagesLeft(s.uv[parent], i)| <= |s.up.Allocatable()|
    && |SlotsLeft(s.mem[child], s.uv[parent], i)| <= |s.kp.Allocatable()|
  }

  /** The copy of page `vp`: same contents as the parent had, on a frame that was free. */
  ghost predicate Copied(c: Snap, s: Snap, parent: nat, child: nat, vp: nat)
    requires InSpace(c, UserPage(parent, vp)) && InSpace(s, UserPage(child, vp)) && c.kp.Sane() && c.up.Sane()
  {
    && Look(c, UserPage(parent, vp)).Some? && Look(s, UserPage(child, vp)).Some?
    && Free(c, Look(s, UserPage(child, vp)).value)
    && s.mem[Look(s, UserPage(child, vp)).value] == c.mem[Look(c, UserPage(parent, vp)).value]
  }

  /** What a frame taken for the child serves: one of its pages or one of its page tables. */
  ghost predicate TakenForChild(s: Snap, child: nat, g: nat)
    requires child < 0x10_0000
  {
    && g in s.owner
    && match s.owner[g]
       case Mapped(q) => q.UserPage? && q.pd == child && InSpace(s, q) && Look(s, q) == Some(g)
       case UserTable(d, i) => d == child && i < 768 && Present(s.mem[child][i]) && FrameOf(s.mem[child][i]) == g
       case _ => false
  }

  /** What the copy leaves alone: every other space, every mapped frame but the transfer page, and all owners. */
  ghost predicate CopyFrame(c: Snap, s: Snap, parent: nat, child: nat, tf: nat) {
    && Inv(c) && Inv(s) && s.uv == c.uv && s.kv == c.kv && parent in c.uv && child in c.uv && parent != child
    && OwnersKept(c, s) && SameShape(c, s) && OtherDirsKept(c, s, child)
    && (forall q | InSpace(c, q) && !(q.UserPage? && q.pd == child) :: Look(s, q) == Look(c, q))
    && (forall g | g in c.owner && c.owner[g].Mapped? && g != child && g != tf && g < 0x10_0000 :: s.mem[g] == c.mem[g])
    && (forall g | Free(s, g) :: Free(c, g))
    && (forall g | Free(c, g) && !Free(s, g) :: TakenForChild(s, child, g))
    && (forall i: nat | i < 768 && Present(s.mem[child][i]) :: Free(c, FrameOf(s.mem[child][i])))
  }

  /** Apart from page `skip`, the child has exactly the used pages among the first `i` bits. */
  ghost predicate CopyPages(c: Snap, s: Snap, parent: nat, child: nat, i: nat, skip: int)
    requires Inv(c) && Inv(s) && parent in c.uv && child in s.uv
  {
    forall vp: nat | vp < KERNEL_HALF && vp != skip ::
      if UsedBelow(c.uv[parent], vp, i) then Copied(c, s, parent, child, vp) else Look(s, UserPage(child, vp)) == None
  }

  /** After the first `i` bits. */
  ghost predicate CopyState(c: Snap, s: Snap, parent: nat, child: nat, tf: nat, i: nat) {
    CopyFrame(c, s, parent, child, tf) && CopyPages(c, s, parent, child, i, -1)
  }

  /** The transfer page: a kernel heap page whose frame holds data only. */
  ghost predicate TransferPage(c: Snap, tv: nat, tf: nat) {
    && InSpace(c, KernelPage(tv)) && Managed(c, KernelPage(tv)) && Look(c, KernelPage(tv)) == Some(tf)
    && DataFrame(c, tf) && c.owner[tf] == Mapped(KernelPage(tv))
  }

  /** Where the copy of bit `i` starts from. */
  ghost predicate ReadyToCopy(c: Snap, s: Snap, parent: nat, child: nat, tv: nat, tf: nat, i: nat) {
    && CopyState(c, s, parent, child, tf, i) && TransferPage(c, tv, tf) && UsedPagesMapped(c, parent)
    && c.uv[child] == c.uv[parent] && i <= 8 * USER_LEN && Supplies(s, parent, child, i)
  }

  lemma SkipUnused(c: Snap, s: Snap, parent: nat, child: nat, tv: nat, tf: nat, i: nat)
    requires ReadyToCopy(c, s, parent, child, tv, tf, i) && i < 8 * USER_LEN && !Used(c, parent, i)
    ensures ReadyToCopy(c, s, parent, child, tv, tf, i + 1)
  {
    hide Inv, CopyFrame;
    FrameGives(c, s, parent, child, tf);
    assert PagesLeft(s.uv[parent], i + 1) == PagesLeft(s.uv[parent], i);
    assert SlotsLeft(s.mem[child], s.uv[parent], i + 1) == SlotsLeft(s.mem[child], s.uv[parent], i);
    assert forall vp: nat :: UsedBelow(c.uv[parent], vp, i + 1) == UsedBelow(c.uv[parent], vp, i);
  }

  /** The parent's page and the transfer page, in the parent's space. */
  lemma SourcePage(c: Snap, s: Snap, parent: nat, child: nat, tv: nat, tf: nat, i: nat) returns (fp: nat)
    requires ReadyToCopy(c, s, parent, child, tv, tf, i) && i < 8 * USER_LEN && Used(c, parent, i)
    ensures var vp := USER_START + i;
            && InSpace(s, UserPage(parent, vp))
            && Look(s, UserPage(parent, vp)) == Some(fp) == Look(c, UserPage(parent, vp))
            && fp < 0x10_0000 && s.mem[fp] == c.mem[fp] && tf < 0x10_0000
            && parent < 0x10_0000 && CopySafe(s.mem, parent, tv, vp, tf, fp)
  {
    hide CopyPages, Supplies, TakenForChild, Trans;
    var vp := USER_START + i;
    assert UsedBelow(c.uv[parent], vp, |c.uv[parent]|);
    assert Look(s, UserPage(parent, vp)) == Look(c, UserPage(parent, vp));
    fp := Look(s, UserPage(parent, vp)).value;
    MappedOwner(c, UserPage(parent, vp));
    assert DataFrame(s, tf) && Look(s, KernelPage(tv)) == Some(tf);
    SafeToCopy(s, parent, KernelPage(tv), UserPage(parent, vp));
  }

  /** Filling the transfer page disturbs nothing else. */
  lemma TransferFilled(c: Snap, s: Snap, parent: nat, child: nat, tv: nat, tf: nat, i: nat, row: Frame, s1: Snap)
    requires ReadyToCopy(c, s, parent, child, tv, tf, i) && s1 == s.(mem := s.mem[tf := row])
    ensures ReadyToCopy(c, s1, parent, child, tv, tf, i) && s1.mem[tf] == row
  {
    hide Inv, CopyState;
    TransferKeepsCopies(c, s, parent, child, tv, tf, i, row, s1);
    assert s1.mem[child] == s.mem[child];
  }

  lemma TransferKeepsCopies(c: Snap, s: Snap, parent: nat, child: nat, tv: nat, tf: nat, i: nat, row: Frame, s1: Snap)
    requires CopyState(c, s, parent, child, tf, i) && TransferPage(c, tv, tf) && s1 == s.(mem := s.mem[tf := row])
    ensures CopyState(c, s1, parent, child, tf, i) && child != tf && child < 0x10_0000 && Inv(s) && Inv(s1)
  {
    InvSane(c);
    OwnedNotFree(c, tf);
    ChildIsDirectory(c, child);
    assert DataFrame(s, tf);
    hide Inv, CopyFrame, CopyPages;
    WriteKeepsFrame(c, s, parent, child, tf, tf, row);
    WriteKeepsPages(c, s, parent, child, tf, i, -1, tf, row);
  }

  /** Writing the transfer page, or a frame that was free before the copy, stays within CopyFrame. */
  lemma WriteKeepsFrame(c: Snap, s: Snap, parent: nat, child: nat, tf: nat, f: nat, row: Frame)
    requires CopyFrame(c, s, parent, child, tf) && DataFrame(s, f) && (f == tf || Free(c, f))
    ensures CopyFrame(c, s.(mem := s.mem[f := row]), parent, child, tf)
    ensures Inv(s) && Inv(s.(mem := s.mem[f := row]))
  {
    hide Inv, Trans;
    var s1 := s.(mem := s.mem[f := row]);
    FrameGives(c, s, parent, child, tf);
    ChildIsDirectory(c, child);
    InvSane(c);
    InvSane(s);
    BootOwned(c);
    if f in c.owner {
      OwnedNotFree(c, f);
    }
    DataWrite(s, f, row);
    forall g | Free(c, g) && !Free(s1, g)
      ensures TakenForChild(s1, child, g)
    {
      assert TakenForChild(s, child, g);
    }
  }

  /** Writing a frame that backs no copied page, or backs page `skip`, keeps the copied pages. */
  lemma WriteKeepsPages(c: Snap, s: Snap, parent: nat, child: nat, tf: nat, i: nat, skip: int, f: nat, row: Frame)
    requires CopyFrame(c, s, parent, child, tf) && CopyPages(c, s, parent, child, i, skip) && DataFrame(s, f)
    requires !Free(c, f) || (s.owner[f].page.UserPage? && s.owner[f].page.vp == skip)
    ensures Inv(s.(mem := s.mem[f := row]))
    ensures CopyPages(c, s.(mem := s.mem[f := row]), parent, child, i, skip)
  {
    var s1 := s.(mem := s.mem[f := row]);
    ChildIsDirectory(c, child);
    DataWrite(s, f, row);
    forall vp: nat | vp < KERNEL_HALF && vp != skip
      ensures if UsedBelow(c.uv[parent], vp, i) then Copied(c, s1, parent, child, vp)
                else Look(s1, UserPage(child, vp)) == None
    {
      if UsedBelow(c.uv[parent], vp, i) {
        MappedOwner(s, UserPage(child, vp));
      }
    }
  }

  lemma MappedOwner(s: Snap, pg: Page)
    requires Inv(s) && Managed(s, pg) && Look(s, pg).Some?
    ensures Look(s, pg).value in s.owner && s.owner[Look(s, pg).value] == Mapped(pg)
  {
  }

  lemma OwnedNotFree(s: Snap, f: nat)
    requires Inv(s) && f in s.owner
    ensures !Free(s, f)
  {
  }

  lemma ChildIsDirectory(s: Snap, d: nat)
    requires Inv(s) && d in s.uv
    ensures d < 0x10_0000 && d in s.owner && s.owner[d].Mapped? && s.owner[d].page.KernelPage? && d != BOOT
  {
  }

  /** The child's page can be granted: reserved in its bitmap, unmapped, with a frame and a table to be had. */
  lemma ChildGrantable(c: Snap, s: Snap, parent: nat, child: nat, tv: nat, tf: nat, i: nat)
    requires ReadyToCopy(c, s, parent, child, tv, tf, i) && i < 8 * USER_LEN && Used(c, parent, i)
    ensures Inv(s) && Grantable(s, PF_USER, child, UserPage(child, USER_START + i)) && s.up.Sane()
    ensures s.up.Allocatable() != {}
    ensures InSpace(s, UserPage(child, USER_START + i)) && Look(s, UserPage(child, USER_START + i)).None?
  {
    hide Inv, Trans, OwnersKept, OtherDirsKept;
    var vp := USER_START + i;
    FrameGives(c, s, parent, child, tf);
    InvSane(s);
    ChildIsDirectory(s, child);
    assert !UsedBelow(c.uv[parent], vp, i);
    assert i in PagesLeft(s.uv[parent], i);
    if !Present(s.mem[child][vp / 1024]) {
      assert vp / 1024 in SlotsLeft(s.mem[child], s.uv[parent], i);
    }
  }

  /** The child's page at bit `i` mapped on a fresh frame `f`, still unwritten, and the transfer page filled. */
  ghost predicate GrantedTarget(c: Snap, s: Snap, s2: Snap, parent: nat, child: nat, tf: nat, i: nat, f: nat) {
    var pg, from := UserPage(child, USER_START + i), UserPage(parent, USER_START + i);
    && Inv(c) && Inv(s) && InSpace(s, pg) && Look(s, pg).None? && GrantStep(s, s2, PF_USER, child, pg)
    && Look(s2, pg) == Some(f) && Free(c, f) && DataFrame(s2, f) && s2.owner[f] == Mapped(pg)
    && InSpace(c, from) && Look(c, from).Some? && tf < 0x10_0000 && s2.mem[tf] == c.mem[Look(c, from).value]
  }

  lemma TargetPage(c: Snap, s: Snap, s2: Snap, parent: nat, child: nat, tv: nat, tf: nat, i: nat, fp: nat)
    returns (f: nat)
    requires ReadyToCopy(c, s, parent, child, tv, tf, i) && i < 8 * USER_LEN && Used(c, parent, i)
    requires InSpace(s, UserPage(child, USER_START + i)) && Look(s, UserPage(child, USER_START + i)).None?
    requires GrantStep(s, s2, PF_USER, child, UserPage(child, USER_START + i))
    requires InSpace(c, UserPage(parent, USER_START + i)) && Look(c, UserPage(parent, USER_START + i)) == Some(fp)
    requires s.mem[tf] == c.mem[fp]
    ensures GrantedTarget(c, s, s2, parent, child, tf, i, f) && Inv(s2) && Directory(s2, child) && f < 0x10_0000
    ensures child < 0x10_0000 && CopySafe(s2.mem, child, USER_START + i, tv, f, tf)
  {
    hide CopyPages, Supplies, TablesGrow, Trans;
    var pg := UserPage(child, USER_START + i);
    f := Look(s2, pg).value;
    assert Managed(s2, pg) && f in s2.owner && s2.owner[f] == Mapped(pg);
    assert f !in s2.uv;
    assert tf in s.owner && s.owner[tf] == c.owner[tf];
    assert Look(s2, KernelPage(tv)) == Look(s, KernelPage(tv)) == Some(tf);
    SafeToCopy(s2, child, pg, KernelPage(tv));
  }

  lemma CopyAdvances(c: Snap, s: Snap, s2: Snap, s3: Snap, parent: nat, child: nat, tv: nat, tf: nat, i: nat, f: nat)
    requires f < 0x10_0000 && tf < 0x10_0000 && s3 == s2.(mem := s2.mem[f := s2.mem[tf]])
    requires ReadyToCopy(c, s, parent, child, tv, tf, i) && i < 8 * USER_LEN && Used(c, parent, i)
    requires GrantedTarget(c, s, s2, parent, child, tf, i, f)
    ensures ReadyToCopy(c, s3, parent, child, tv, tf, i + 1)
  {
    hide Inv, GrantStep, CopyFrame, CopyPages, Supplies;
    FrameGives(c, s, parent, child, tf);
    GrantKeepsFrame(c, s, s2, parent, child, tf, USER_START + i);
    GrantKeepsPages(c, s, s2, parent, child, tf, i);
    FrameGives(c, s2, parent, child, tf);
    WriteKeepsFrame(c, s2, parent, child, tf, f, s2.mem[tf]);
    WriteKeepsPages(c, s2, parent, child, tf, i, USER_START + i, f, s2.mem[tf]);
    PageCopied(c, s2, s3, parent, child, tf, i, f);
    SuppliesLast(s, s2, parent, child, i);
    WriteKeepsSupplies(s2, parent, child, i + 1, f, s2.mem[tf]);
  }

  lemma FrameGives(c: Snap, s: Snap, parent: nat, child: nat, tf: nat)
    requires CopyFrame(c, s, parent, child, tf)
    ensures Inv(c) && Inv(s) && s.uv == c.uv && parent in c.uv && child in c.uv && |c.uv[parent]| == 8 * USER_LEN
    ensures child < 0x10_0000
  {
    ChildIsDirectory(c, child);
  }

  lemma WriteKeepsSupplies(s: Snap, parent: nat, child: nat, i: nat, f: nat, row: Frame)
    requires Inv(s) && Supplies(s, parent, child, i) && DataFrame(s, f)
    ensures Inv(s.(mem := s.mem[f := row])) && Supplies(s.(mem := s.mem[f := row]), parent, child, i)
  {
    DataWrite(s, f, row);
    hide Inv;
  }

  lemma GrantKeepsFrame(c: Snap, s: Snap, s2: Snap, parent: nat, child: nat, tf: nat, vp: nat)
    requires CopyFrame(c, s, parent, child, tf)
    requires InSpace(s, UserPage(child, vp)) && Look(s, UserPage(child, vp)).None?
    requires GrantStep(s, s2, PF_USER, child, UserPage(child, vp))
    ensures CopyFrame(c, s2, parent, child, tf)
  {
    hide Inv, TakenForChild;
    FrameGives(c, s, parent, child, tf);
    InvSane(c);
    InvSane(s);
    InvSane(s2);
    forall g | Free(c, g) && !Free(s2, g)
      ensures TakenForChild(s2, child, g)
    {
      GrantKeepsTaken(c, s, s2, parent, child, tf, vp, g);
    }
  }

  lemma GrantKeepsTaken(c: Snap, s: Snap, s2: Snap, parent: nat, child: nat, tf: nat, vp: nat, g: nat)
    requires CopyFrame(c, s, parent, child, tf)
    requires InSpace(s, UserPage(child, vp)) && Look(s, UserPage(child, vp)).None?
    requires GrantStep(s, s2, PF_USER, child, UserPage(child, vp))
    requires Free(c, g) && !Free(s2, g)
    ensures child < 0x10_0000 && TakenForChild(s2, child, g)
  {
    hide Inv, Trans, OtherDirsKept, PagesIntact;
    FrameGives(c, s, parent, child, tf);
    InvSane(c);
    InvSane(s);
    if !Free(s, g) {
      assert TakenForChild(s, child, g);
    }
  }

  lemma GrantKeepsPages(c: Snap, s: Snap, s2: Snap, parent: nat, child: nat, tf: nat, i: nat)
    requires CopyFrame(c, s, parent, child, tf) && CopyPages(c, s, parent, child, i, -1)
    requires InSpace(s, UserPage(child, USER_START + i))
    requires GrantStep(s, s2, PF_USER, child, UserPage(child, USER_START + i))
    ensures CopyPages(c, s2, parent, child, i, USER_START + i)
  {
    hide Inv, Trans, OwnersKept, OtherDirsKept;
    FrameGives(c, s, parent, child, tf);
    InvSane(c);
    ChildIsDirectory(c, parent);
    ChildIsDirectory(c, child);
    forall vp: nat | vp < KERNEL_HALF && vp != USER_START + i
      ensures if UsedBelow(c.uv[parent], vp, i) then Copied(c, s2, parent, child, vp)
                else Look(s2, UserPage(child, vp)) == None
    {
      if UsedBelow(c.uv[parent], vp, i) {
        MappedOwner(s, UserPage(child, vp));
      }
    }
  }

  lemma PageCopied(c: Snap, s2: Snap, s3: Snap, parent: nat, child: nat, tf: nat, i: nat, f: nat)
    requires Inv(c) && Inv(s2) && Inv(s3) && parent in c.uv && child in s3.uv
    requires CopyPages(c, s3, parent, child, i, USER_START + i)
    requires i < 8 * USER_LEN && |c.uv[parent]| == 8 * USER_LEN && c.uv[parent][i] && f < 0x10_0000 && tf < 0x10_0000
    requires InSpace(s2, UserPage(child, USER_START + i)) && Look(s2, UserPage(child, USER_START + i)) == Some(f)
    requires Free(c, f) && InSpace(c, UserPage(parent, USER_START + i))
    requires Look(c, UserPage(parent, USER_START + i)).Some?
    requires s2.mem[tf] == c.mem[Look(c, UserPage(parent, USER_START + i)).value]
    requires s3 == s2.(mem := s2.mem[f := s2.mem[tf]]) && DataFrame(s2, f)
    ensures CopyPages(c, s3, parent, child, i + 1, -1)
  {
    DataWrite(s2, f, s2.mem[tf]);
    ChildIsDirectory(s3, child);
    hide Inv;
    forall vp: nat | vp < KERNEL_HALF
      ensures if UsedBelow(c.uv[parent], vp, i + 1) then Copied(c, s3, parent, child, vp)
                else Look(s3, UserPage(child, vp)) == None
    {
      if vp != USER_START + i {
        assert UsedBelow(c.uv[parent], vp, i + 1) == UsedBelow(c.uv[parent], vp, i);
      }
    }
  }

  lemma SuppliesLast(s: Snap, s2: Snap, parent: nat, child: nat, i: nat)
    requires Inv(s) && Supplies(s, parent, child, i) && i < 8 * USER_LEN && s.uv[parent][i]
    requires InSpace(s, UserPage(child, USER_START + i))
    requires GrantStep(s, s2, PF_USER, child, UserPage(child, USER_START + i))
    ensures Inv(s2) && Supplies(s2, parent, child, i + 1)
  {
    hide Inv, Look, OnlyMoves, PagesIntact, OwnersKept, NewTable, SlotsLeft;
    var bits := s.uv[parent];
    ChildIsDirectory(s, child);
    InvSane(s);
    assert PagesLeft(bits, i + 1) == PagesLeft(bits, i) - {i} && i in PagesLeft(bits, i);
    assert |PagesLeft(bits, i + 1)| + 1 == |PagesLeft(bits, i)|;
    SlotsShrink(s.mem[child], s2.mem[child], bits, i);
  }

  lemma SlotsShrink(dir: Frame, dir': Frame, bits: seq<bool>, i: nat)
    requires i < |bits| == 8 * USER_LEN && bits[i]
    requires forall k: nat | k < 1024 && k != (USER_START + i) / 1024 :: dir'[k] == dir[k]
    requires Present(dir'[(USER_START + i) / 1024])
    ensures |SlotsLeft(dir', bits, i + 1)| + (if Present(dir[(USER_START + i) / 1024]) then 0
              else 1) <= |SlotsLeft(dir, bits, i)|
  {
    var slot := (USER_START + i) / 1024;
    var left, left' := SlotsLeft(dir, bits, i), SlotsLeft(dir', bits, i + 1);
    if Present(dir[slot]) {
      Subset(left', left);
    } else {
      assert slot in left;
      Subset(left', left - {slot});
    }
  }

  /** The kernel address `dir` maps the directory `pd`. */
  ghost predicate DirectoryAt(s: Snap, dir: Word, pd: nat) {
    dir % 4096 == 0 && InSpace(s, KernelPage(dir / 4096)) && Look(s, KernelPage(dir / 4096)) == Some(pd)
  }

  /** copy_body_stack3: byte by byte, bit by bit over the parent's bitmap. */
  method CopyBody(m: Machine, parentDir: Word, childDir: Word, tran: Word, ghost parent: nat, ghost child: nat,
                  ghost tf: nat)
    requires m.Valid() && m.cr3 == parent && tran % 4096 == 0
    requires ReadyToCopy(m.S(), m.S(), parent, child, tran / 4096, tf, 0)
    requires DirectoryAt(m.S(), parentDir, parent) && DirectoryAt(m.S(), childDir, child)
    modifies m`mem, m`cr3, m`kernelPool, m`userPool, m`owner
    ensures m.Valid() && m.cr3 == parent
    ensures ReadyToCopy(old(m.S()), m.S(), parent, child, tran / 4096, tf, 8 * USER_LEN)
  {
    hide Inv, ReadyToCopy, Directory, DirectoryAt;
    ghost var c, tv := m.S(), tran / 4096;
    ReadyGives(c, c, parent, child, tv, tf, 0);
    var bits := m.userVaddr[m.cr3];
    var idxByte := 0;
    while idxByte < USER_LEN
      invariant 0 <= idxByte <= USER_LEN && m.Valid() && m.cr3 == parent
      invariant ReadyToCopy(c, m.S(), parent, child, tv, tf, 8 * idxByte)
    {
      if bits[8 * idxByte] || bits[8 * idxByte + 1] || bits[8 * idxByte + 2] || bits[8 * idxByte + 3]
         || bits[8 * idxByte + 4] || bits[8 * idxByte + 5] || bits[8 * idxByte + 6] || bits[8 * idxByte + 7]
      {
        var idxBit := 0;
        while idxBit < 8
          invariant 0 <= idxBit <= 8 && m.Valid() && m.cr3 == parent
          invariant ReadyToCopy(c, m.S(), parent, child, tv, tf, 8 * idxByte + idxBit)
        {
          if bits[8 * idxByte + idxBit] {
            CopyOnePage(m, parentDir, childDir, tran, c, parent, child, tf, 8 * idxByte + idxBit);
          } else {
            SkipUnused(c, m.S(), parent, child, tv, tf, 8 * idxByte + idxBit);
          }
          idxBit := idxBit + 1;
        }
      } else {
        SkipByte(c, m.S(), parent, child, tv, tf, 8 * idxByte);
      }
      idxByte := idxByte + 1;
    }
  }

  lemma SkipByte(c: Snap, s: Snap, parent: nat, child: nat, tv: nat, tf: nat, i: nat)
    requires ReadyToCopy(c, s, parent, child, tv, tf, i) && i + 8 <= 8 * USER_LEN
    requires forall k: nat | i <= k < i + 8 :: !Used(c, parent, k)
    ensures ReadyToCopy(c, s, parent, child, tv, tf, i + 8)
  {
    hide ReadyToCopy, Inv, Directory, DirectoryAt;
    ReadyGives(c, s, parent, child, tv, tf, i);
    for k := 0 to 8
      invariant ReadyToCopy(c, s, parent, child, tv, tf, i + k)
    {
      assert !Used(c, parent, i + k);
      SkipUnused(c, s, parent, child, tv, tf, i + k);
    }
  }

  lemma ReadyGives(c: Snap, s: Snap, parent: nat, child: nat, tv: nat, tf: nat, i: nat)
    requires ReadyToCopy(c, s, parent, child, tv, tf, i)
    ensures Inv(c) && Inv(s) && s.uv == c.uv && parent in c.uv && child in c.uv && |c.uv[parent]| == 8 * USER_LEN
    ensures Directory(s, parent) && Directory(s, child)
    ensures forall dir: Word, pd | DirectoryAt(c, dir, pd) :: DirectoryAt(s, dir, pd)
  {
    FrameGives(c, s, parent, child, tf);
  }

  /** The body of the inner loop for one used page. */
  method CopyOnePage(m: Machine, parentDir: Word, childDir: Word, tran: Word,
                     ghost c: Snap, ghost parent: nat, ghost child: nat, ghost tf: nat, i: nat)
    requires m.Valid() && m.cr3 == parent && tran % 4096 == 0 && i < 8 * USER_LEN
    requires ReadyToCopy(c, m.S(), parent, child, tran / 4096, tf, i) && Used(c, parent, i)
    requires DirectoryAt(c, parentDir, parent) && DirectoryAt(c, childDir, child)
    modifies m`mem, m`cr3, m`kernelPool, m`userPool, m`owner
    ensures m.Valid() && m.cr3 == parent
    ensures ReadyToCopy(c, m.S(), parent, child, tran / 4096, tf, i + 1)
  {
    hide Inv, ReadyToCopy, Directory, Grantable, GrantStep, GrantedTarget, CopySafe, KernelReach, Receptive, Ready,
         TableReady, Granted, Lost;
    ghost var s, tv := m.S(), tran / 4096;
    var v: Word := (i * 4096) + USER_START * 4096;
    PageNumber(USER_START + i);
    ghost var fp := SourcePage(c, s, parent, child, tv, tf, i);
    CopyWords(m, tran, v, 0, 1024, tf, fp);
    assert m.mem[tf] == s.mem[fp];
    TransferFilled(c, s, parent, child, tv, tf, i, s.mem[fp], m.S());
    ghost var s1 := m.S();
    ReadyGives(c, s1, parent, child, tv, tf, i);
    ReachOfDirectory(s1, parent);
    Activate(m, childDir, child);
    ChildGrantable(c, s1, parent, child, tv, tf, i);
    GrantableReceives(s1, PF_USER, child, UserPage(child, USER_START + i));
    var ok := m.GrantPage(PF_USER, v);
    ghost var s2 := m.S();
    ghost var f := TargetPage(c, s1, s2, parent, child, tv, tf, i, fp);
    CopyWords(m, v, tran, 0, 1024, f, tf);
    assert m.mem[f] == s2.mem[tf];
    CopyAdvances(c, s1, s2, m.S(), parent, child, tv, tf, i, f);
    ReadyGives(c, m.S(), parent, child, tv, tf, i + 1);
    ReachOfDirectory(m.S(), child);
    Activate(m, parentDir, parent);
  }
}
