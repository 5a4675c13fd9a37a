/**
 * segment_load of userprog/exec.c: the pages a program segment is given, and the file's bytes in them.
 */
module Loader {
  import opened Sequences
  import opened Paging
  import opened Pools
  import opened PageSteps
  import opened FrameZero
  import opened PageAllocator
  import opened Fork
  import opened UserMemory
  import Chains

  const PAGE: nat := 4096

  /** Page `p` holds a byte of the segment. */
  predicate Meets(p: nat, vaddr: nat, filesz: nat) { filesz > 0 && p * PAGE < vaddr + filesz && vaddr < (p + 1) * PAGE }

  /** occupy_pages */
  function OccupyPages(vaddr: nat, filesz: nat): nat {
    var inFirst := PAGE - vaddr % PAGE;
    if filesz > inFirst then (filesz - inFirst + PAGE - 1) / PAGE + 1 else 1
  }

  /** The pages counted off from the first are exactly those the segment meets. */
  lemma PagesCover(vaddr: nat, filesz: nat, p: nat)
    requires filesz > 0
    ensures vaddr / PAGE <= p < vaddr / PAGE + OccupyPages(vaddr, filesz) <==> Meets(p, vaddr, filesz)
  {
    var first, off := vaddr / PAGE, vaddr % PAGE;
    assert vaddr == first * PAGE + off;
    var inFirst := PAGE - off;
    if filesz > inFirst {
      var left := filesz - inFirst;
      var n := (left + PAGE - 1) / PAGE;
      assert (n - 1) * PAGE < left <= n * PAGE;
      assert vaddr + filesz == (first + 1) * PAGE + left;
      Between(first + 1 + n, p, left - n * PAGE);
    } else {
      assert vaddr + filesz <= (first + 1) * PAGE;
    }
    assert p < first ==> (p + 1) * PAGE <= first * PAGE;
    assert p > first ==> (first + 1) * PAGE <= p * PAGE;
  }

  lemma Between(end: nat, p: nat, slack: int)
    requires 0 < slack + PAGE && slack <= 0
    ensures p < end <==> p * PAGE < end * PAGE + slack
  {
    assert p < end ==> (p + 1) * PAGE <= end * PAGE;
    assert p >= end ==> p * PAGE >= end * PAGE;
  }

  // ---- the page loop ----

  /** Pages of the segment still to be given a frame. */
  ghost function NewPages(s: Snap, pd: nat, lo: nat, n: nat): set<nat>
    requires pd in s.uv && pd < 0x10_0000
  {
    set v: nat | lo <= v < lo + n && v < KERNEL_HALF && Look(s, UserPage(pd, v)).None?
  }

  /**
   * The first `n` pages from `lo` are mapped, the new ones to frames that were free; nothing mapped moved or changed.
   */
  ghost predicate Given(s: Snap, z: Snap, pd: nat, lo: nat, n: nat)
    requires Inv(s)
  {
    && Inv(z) && pd in s.uv && pd < 0x10_0000 && z.uv.Keys == s.uv.Keys && z.kv == s.kv && lo + n <= KERNEL_HALF
    && (forall d | d in s.uv && d != pd :: z.uv[d] == s.uv[d])
    && (forall q | InSpace(s, q) && Look(s, q).Some? :: Look(z, q) == Look(s, q))
    && (forall q | InSpace(s, q) && Look(s, q).None? ::
          if q.UserPage? && q.pd == pd && lo <= q.vp < lo + n then Look(z, q).Some? && Free(s, Look(z, q).value)
          else Look(z, q).None?)
    && OwnersKept(s, z) && PagesIntact(s, z, pd) && (forall g | Free(z, g) :: Free(s, g))
    && |z.up.Allocatable()| + |NewPages(s, pd, lo, n)| == |s.up.Allocatable()|
  }

  lemma GivenNone(s: Snap, pd: nat, lo: nat)
    requires Inv(s) && pd in s.uv && lo <= KERNEL_HALF
    ensures Given(s, s, pd, lo, 0)
  {
    ChildIsDirectory(s, pd);
    assert NewPages(s, pd, lo, 0) == {};
  }

  /** A page that was there is left alone. */
  lemma GivenMapped(s: Snap, z: Snap, pd: nat, lo: nat, n: nat)
    requires Inv(s) && Given(s, z, pd, lo, n) && lo + n < KERNEL_HALF && InSpace(z, UserPage(pd, lo + n))
    requires Look(z, UserPage(pd, lo + n)).Some?
    ensures Given(s, z, pd, lo, n + 1)
  {
    hide Inv;
    var pg := UserPage(pd, lo + n);
    assert Look(s, pg).Some?;
    assert NewPages(s, pd, lo, n + 1) == NewPages(s, pd, lo, n);
  }

  /** The virtual bit get_one_page sets. */
  ghost function WithBit(s: Snap, pd: nat, vp: nat): Snap
    requires pd in s.uv && USER_START <= vp < USER_START + |s.uv[pd]|
  {
    s.(uv := s.uv[pd := s.uv[pd][vp - USER_START := true]])
  }

  lemma BitSet(s: Snap, pd: nat, vp: nat)
    requires Inv(s) && pd in s.uv && USER_START <= vp < KERNEL_HALF
    ensures pd < 0x10_0000 && |s.uv[pd]| == 8 * USER_LEN && Inv(WithBit(s, pd, vp))
    ensures forall q :: InSpace(WithBit(s, pd, vp), q) == InSpace(s, q)
    ensures forall q | InSpace(s, q) :: Look(WithBit(s, pd, vp), q) == Look(s, q)
    ensures Look(s, UserPage(pd, vp)).None? ==> Ready(WithBit(s, pd, vp), PF_USER, pd, UserPage(pd, vp))
  {
    ChildIsDirectory(s, pd);
    SetVirtualBits(s, WithBit(s, pd, vp));
    SameView(s, WithBit(s, pd, vp));
  }

  lemma GivenBit(s: Snap, z: Snap, pd: nat, lo: nat, n: nat, vp: nat)
    requires Inv(s) && Given(s, z, pd, lo, n) && USER_START <= vp < USER_START + |z.uv[pd]| && Inv(WithBit(z, pd, vp))
    ensures Given(s, WithBit(z, pd, vp), pd, lo, n)
  {
    hide Inv;
    SameView(z, WithBit(z, pd, vp));
  }

  /** A page that was missing is mapped to a fresh frame. */
  lemma GivenFresh(s: Snap, z: Snap, z': Snap, pd: nat, lo: nat, n: nat)
    requires Inv(s) && Given(s, z, pd, lo, n) && lo + n < KERNEL_HALF && InSpace(z, UserPage(pd, lo + n))
    requires Look(z, UserPage(pd, lo + n)).None? && Inv(z) && Directory(z, pd)
    requires GrantStep(z, z', PF_USER, pd, UserPage(pd, lo + n))
    ensures Given(s, z', pd, lo, n + 1) && Inv(z')
  {
    hide Inv, OnlyMoves, OwnersKept, PagesIntact, RowsKept, NewTable, Look;
    InvSane(s);
    GivenGrant(s, z, z', pd, lo, n);
    GivenLooks(s, z, z', pd, lo, n);
    GivenKept(s, z, z', pd, lo, n);
    GivenCount(s, z, pd, lo, n);
  }

  lemma GivenGrant(s: Snap, z: Snap, z': Snap, pd: nat, lo: nat, n: nat)
    requires Inv(s) && Given(s, z, pd, lo, n) && lo + n < KERNEL_HALF && InSpace(z, UserPage(pd, lo + n))
    requires PoolsSane(s)
    requires Inv(z) && Directory(z, pd) && GrantStep(z, z', PF_USER, pd, UserPage(pd, lo + n))
    ensures Inv(z') && z'.uv == z.uv && z'.kv == z.kv
    ensures forall q | InSpace(z, q) && q != UserPage(pd, lo + n) :: Look(z', q) == Look(z, q)
    ensures InSpace(z', UserPage(pd, lo + n)) && Look(z', UserPage(pd, lo + n)).Some?
    ensures Free(s, Look(z', UserPage(pd, lo + n)).value)
    ensures z.up.Sane() && z'.up.Sane() && |z'.up.Allocatable()| + 1 == |z.up.Allocatable()|
  {
    hide Inv, Trans, OwnersKept, PagesIntact, RowsKept;
    InvSane(z);
    InvSane(z');
  }

  lemma GivenKept(s: Snap, z: Snap, z': Snap, pd: nat, lo: nat, n: nat)
    requires Inv(s) && Given(s, z, pd, lo, n) && InSpace(z, UserPage(pd, lo + n))
    requires Inv(z) && Directory(z, pd) && GrantStep(z, z', PF_USER, pd, UserPage(pd, lo + n))
    ensures OwnersKept(s, z') && PagesIntact(s, z', pd)
    ensures PoolsSane(s) && PoolsSane(z') && forall g | Free(z', g) :: Free(s, g)
  {
    hide Inv, Look, RowsKept;
    InvSane(s);
    InvSane(z);
    InvSane(z');
  }

  lemma GivenCount(s: Snap, z: Snap, pd: nat, lo: nat, n: nat)
    requires Inv(s) && Given(s, z, pd, lo, n) && lo + n < KERNEL_HALF && InSpace(z, UserPage(pd, lo + n))
    requires Look(z, UserPage(pd, lo + n)).None?
    ensures |NewPages(s, pd, lo, n + 1)| == |NewPages(s, pd, lo, n)| + 1
  {
    hide Inv, OwnersKept, PagesIntact, Trans;
    assert Look(s, UserPage(pd, lo + n)).None?;
    assert NewPages(s, pd, lo, n + 1) == NewPages(s, pd, lo, n) + {lo + n};
  }

  lemma GivenLooks(s: Snap, z: Snap, z': Snap, pd: nat, lo: nat, n: nat)
    requires Inv(s) && Given(s, z, pd, lo, n) && lo + n < KERNEL_HALF && z'.uv.Keys == z.uv.Keys && PoolsSane(s)
    requires forall q | InSpace(z, q) && q != UserPage(pd, lo + n) :: Look(z', q) == Look(z, q)
    requires InSpace(z', UserPage(pd, lo + n)) && Look(z', UserPage(pd, lo + n)).Some?
    requires Free(s, Look(z', UserPage(pd, lo + n)).value) && Look(z, UserPage(pd, lo + n)).None?
    ensures forall q | InSpace(s, q) && Look(s, q).Some? :: Look(z', q) == Look(s, q)
    ensures forall q | InSpace(s, q) && Look(s, q).None? ::
              if q.UserPage? && q.pd == pd && lo <= q.vp < lo + n + 1 then Look(z', q).Some? &&
                Free(s, Look(z', q).value)
              else Look(z', q).None?
  {
    hide Inv;
  }

  /** get_one_page(PF_USER, v) for a page that has no frame; false is NULL. */
  method GetOnePage(m: Machine, v: Word) returns (ok: bool)
    requires v % 4096 == 0 && USER_START <= v / 4096 < KERNEL_HALF && Receptive(m.S(), m.cr3, v / 4096)
    requires m.cr3 in m.userVaddr
    modifies m`mem, m`kernelPool, m`userPool, m`userVaddr, m`owner
    ensures |old(m.S()).uv[m.cr3]| == 8 * USER_LEN
    ensures ok <==> old(m.userPool).Allocatable() != {}
    ensures var s1 := WithBit(old(m.S()), m.cr3, v / 4096);
            Receptive(s1, m.cr3, v / 4096) && m.S() == if ok then Granted(s1, PF_USER, m.cr3, v / 4096) else s1
  {
    hide Inv, Granted, Drivable, GrantStep, Lost, TableReady, Ready;
    ghost var s := m.S();
    BitReceives(s, m.cr3, v / 4096);
    assert (v - USER_START * 4096) / 4096 == v / 4096 - USER_START;
    var idx := (v - USER_START * 4096) / 4096;
    m.userVaddr := m.userVaddr[m.cr3 := m.userVaddr[m.cr3][idx := true]];
    assert m.S() == WithBit(s, m.cr3, v / 4096);
    ok := m.GrantPage(PF_USER, v);
  }

  lemma BitReceives(s: Snap, pd: nat, vp: nat)
    requires Receptive(s, pd, vp) && pd in s.uv && USER_START <= vp < KERNEL_HALF
    ensures |s.uv[pd]| == 8 * USER_LEN && Receptive(WithBit(s, pd, vp), pd, vp)
  {
  }

  /** How many of the `n` pages the loop gets through before the user pool fails it. */
  ghost function Reach(s: Snap, pd: nat, lo: nat, n: nat): (r: nat)
    requires Inv(s) && pd in s.uv
    ensures r <= n && |NewPages(s, pd, lo, r)| <= |s.up.Allocatable()|
  {
    if n == 0 then assert NewPages(s, pd, lo, 0) == {}; 0
    else
      var r := Reach(s, pd, lo, n - 1);
      if r == n - 1 && |NewPages(s, pd, lo, n)| <= |s.up.Allocatable()| then n else r
  }

  /** It is the most for which there are frames. */
  lemma {:induction false} ReachBound(s: Snap, pd: nat, lo: nat, n: nat, i: nat)
    requires Inv(s) && pd in s.uv && i <= n && |NewPages(s, pd, lo, i)| <= |s.up.Allocatable()|
    ensures i <= Reach(s, pd, lo, n)
    decreases n
  {
    InvSane(s);
    ChildIsDirectory(s, pd);
    hide Inv;
    if n > 0 {
      if i < n {
        ReachBound(s, pd, lo, n - 1, i);
      } else {
        Subset(NewPages(s, pd, lo, n - 1), NewPages(s, pd, lo, n));
        ReachBound(s, pd, lo, n - 1, n - 1);
      }
    }
  }

  lemma ReachExact(s: Snap, pd: nat, lo: nat, n: nat, i: nat)
    requires Inv(s) && pd in s.uv && i <= n && |NewPages(s, pd, lo, i)| <= |s.up.Allocatable()|
    requires i < n ==> |NewPages(s, pd, lo, i + 1)| > |s.up.Allocatable()|
    ensures Reach(s, pd, lo, n) == i
  {
    InvSane(s);
    ChildIsDirectory(s, pd);
    hide Inv;
    ReachBound(s, pd, lo, n, i);
    var r := Reach(s, pd, lo, n);
    if r > i {
      Subset(NewPages(s, pd, lo, i + 1), NewPages(s, pd, lo, r));
    }
  }

  /**
   * segment_load's loop after `i` of `n` pages: all well and the balance of tables kept, or the tables were not
   * enough.
   */
  ghost predicate Loading(s: Snap, z: Snap, pd: nat, lo: nat, i: nat, n: nat, tables: bool)
    requires Inv(s)
  {
    || (Given(s, z, pd, lo, i) && Inv(z) && pd in z.uv && i <= n
        && TablesFor(z, PF_USER, pd, lo + i, lo + Reach(s, pd, lo, n)) == tables)
    || (!tables && Headless(z, pd))
  }

  lemma LoadingStarts(s: Snap, pd: nat, lo: nat, n: nat)
    requires Inv(s) && pd in s.uv && lo <= KERNEL_HALF
    ensures Loading(s, s, pd, lo, 0, n, TablesFor(s, PF_USER, pd, lo, lo + Reach(s, pd, lo, n)))
  {
    GivenNone(s, pd, lo);
  }

  /** What the test of both entries needs. */
  lemma LoadingRuns(s: Snap, z: Snap, pd: nat, lo: nat, i: nat, n: nat, tables: bool)
    requires Inv(s) && Loading(s, z, pd, lo, i, n, tables)
    ensures Drivable(z, pd) && pd in z.uv
  {
    if !Headless(z, pd) {
      ValidDrives(z, pd);
    }
  }

  /** A mapped page lacks no table. */
  lemma SamePageMissing(z: Snap, pd: nat, lo: nat, hi: nat)
    requires Inv(z) && Directory(z, pd) && pd < 0x10_0000 && lo < hi && lo < KERNEL_HALF && Trans(z.mem, pd, lo).Some?
    ensures TablesFor(z, PF_USER, pd, lo + 1, hi) == TablesFor(z, PF_USER, pd, lo, hi)
  {
    hide Inv;
    assert MissingSlots(z, pd, lo + 1, hi) == MissingSlots(z, pd, lo, hi);
  }

  lemma LoadingSkips(s: Snap, z: Snap, pd: nat, lo: nat, i: nat, n: nat, tables: bool)
    requires Inv(s) && Loading(s, z, pd, lo, i, n, tables) && i < n && lo + n <= KERNEL_HALF && pd < 0x10_0000
    requires Trans(z.mem, pd, lo + i).Some?
    ensures Loading(s, z, pd, lo, i + 1, n, tables)
  {
    hide Inv, Headless, Reach, Given, TablesFor;
    if tables || !Headless(z, pd) {
      GivenMapped(s, z, pd, lo, i);
      GivenGives(s, z, pd, lo, i + 1);
      ReachBound(s, pd, lo, n, i + 1);
      SamePageMissing(z, pd, lo + i, lo + Reach(s, pd, lo, n));
    }
  }

  /** get_one_page in the loop: a frame for the page, or no user frame left. */
  lemma LoadingGives(s: Snap, z: Snap, z': Snap, pd: nat, lo: nat, i: nat, n: nat, tables: bool)
    requires Inv(s) && Loading(s, z, pd, lo, i, n, tables) && i < n && USER_START <= lo && lo + n <= KERNEL_HALF
    requires Receptive(z, pd, lo + i) && pd in z.uv && |z.uv[pd]| == 8 * USER_LEN
    requires var z1 := WithBit(z, pd, lo + i);
             && Receptive(z1, pd, lo + i)
             && z' == if z.up.Allocatable() != {} then Granted(z1, PF_USER, pd, lo + i) else z1
    ensures Loading(s, z', pd, lo, if z.up.Allocatable() != {} then i + 1 else i, n, tables)
  {
    hide Inv, Headless, Given, Granted, Receptive, TablesFor, Ready, Reach;
    var z1 := WithBit(z, pd, lo + i);
    if !tables && Headless(z, pd) {
      HeadlessGives(z, z1, z', pd, lo + i);
    } else {
      ReceptivePage(z, pd, lo + i);
      BitSet(z, pd, lo + i);
      GivenGives(s, z, pd, lo, i);
      GivenBit(s, z, pd, lo, i, lo + i);
      ReceptivePage(z1, pd, lo + i);
      BitKeepsTables(z, pd, lo + i, lo + i, lo + Reach(s, pd, lo, n));
      if z.up.Allocatable() != {} {
        SoundGives(s, z1, z', pd, lo, i, n, tables);
      }
    }
  }

  lemma GivenGives(s: Snap, z: Snap, pd: nat, lo: nat, n: nat)
    requires Inv(s) && Given(s, z, pd, lo, n)
    ensures Inv(z) && PoolsSane(z) && PoolsSane(s) && pd in s.uv && pd < 0x10_0000
    ensures |NewPages(s, pd, lo, n)| <= |s.up.Allocatable()|
  {
    InvSane(s);
    InvSane(z);
  }

  lemma HeadlessGives(z: Snap, z1: Snap, z': Snap, pd: nat, vp: nat)
    requires Headless(z, pd) && USER_START <= vp < KERNEL_HALF && |z.uv[pd]| == 8 * USER_LEN && z1 == WithBit(z, pd, vp)
    requires Receptive(z1, pd, vp) && z' == if z.up.Allocatable() != {} then Granted(z1, PF_USER, pd, vp) else z1
    ensures Headless(z', pd)
  {
    hide Granted, Receptive;
    assert Headless(z1, pd);
    if z.up.Allocatable() != {} {
      HeadlessGranted(z1, pd, vp);
    }
  }

  lemma BitKeepsTables(z: Snap, pd: nat, vp: nat, lo: nat, hi: nat)
    requires Inv(z) && pd in z.uv && USER_START <= vp < USER_START + |z.uv[pd]| && Inv(WithBit(z, pd, vp))
    ensures TablesFor(WithBit(z, pd, vp), PF_USER, pd, lo, hi) == TablesFor(z, PF_USER, pd, lo, hi)
  {
    ChildIsDirectory(z, pd);
    hide Inv;
    assert MissingSlots(WithBit(z, pd, vp), pd, lo, hi) == MissingSlots(z, pd, lo, hi);
  }

  lemma OneMoreReached(s: Snap, z: Snap, pd: nat, lo: nat, i: nat, n: nat)
    requires Inv(s) && Given(s, z, pd, lo, i) && Inv(z) && Ready(z, PF_USER, pd, UserPage(pd, lo + i)) && pd in s.uv
    requires i < n && lo + i < KERNEL_HALF && z.up.Sane() && z.up.Allocatable() != {}
    ensures i < Reach(s, pd, lo, n)
  {
    hide Inv, OwnersKept, PagesIntact, Trans;
    InvSane(s);
    GivenCount(s, z, pd, lo, i);
    assert |z.up.Allocatable()| >= 1;
    ReachBound(s, pd, lo, n, i + 1);
  }

  lemma SoundGives(s: Snap, z: Snap, z': Snap, pd: nat, lo: nat, i: nat, n: nat, tables: bool)
    requires Inv(s) && Given(s, z, pd, lo, i) && Inv(z) && pd in z.uv && i < n && lo + i < KERNEL_HALF && pd in s.uv
    requires TablesFor(z, PF_USER, pd, lo + i, lo + Reach(s, pd, lo, n)) == tables
    requires Ready(z, PF_USER, pd, UserPage(pd, lo + i))
    requires Receptive(z, pd, lo + i) && z.up.Allocatable() != {} && z' == Granted(z, PF_USER, pd, lo + i)
    ensures Loading(s, z', pd, lo, i + 1, n, tables)
  {
    hide Inv, Headless, Given, Granted, TablesFor, GrantStep, Lost, Reach;
    var pg, hi := UserPage(pd, lo + i), lo + Reach(s, pd, lo, n);
    GrantedEither(z, PF_USER, pd, pg);
    OneMoreReached(s, z, pd, lo, i, n);
    if TableReady(z, pg) {
      GivenFresh(s, z, z', pd, lo, i);
      GrantCounts(z, z', PF_USER, pd, pg);
      TablesStillSuffice(z, z', PF_USER, pd, lo + i, hi);
    } else {
      ShortOfTables(z, PF_USER, pd, lo + i, hi);
      BreaksHeadless(z, pd, lo + i);
    }
  }

  /** The loop gives up exactly when the segment lacks more pages than the user pool has frames. */
  lemma OutOfFrames(s: Snap, z: Snap, pd: nat, lo: nat, i: nat, n: nat)
    requires Inv(s) && Given(s, z, pd, lo, i) && i < n && lo + n <= KERNEL_HALF
    requires Trans(z.mem, pd, lo + i).None? && z.up.Sane() && z.up.Allocatable() == {}
    ensures pd in s.uv && pd < 0x10_0000 && s.up.Sane() && |NewPages(s, pd, lo, n)| > |s.up.Allocatable()|
    ensures Reach(s, pd, lo, n) == i
  {
    hide Inv, OwnersKept, PagesIntact, Trans, Reach;
    InvSane(s);
    GivenCount(s, z, pd, lo, i);
    ReachExact(s, pd, lo, n, i);
    Subset(NewPages(s, pd, lo, i + 1), NewPages(s, pd, lo, n));
  }

  /** When the loop ends, by success or for want of frames, the state is sound exactly when the tables were enough. */
  lemma LoadingEnds(s: Snap, z: Snap, pd: nat, lo: nat, i: nat, n: nat, tables: bool)
    requires Inv(s) && Loading(s, z, pd, lo, i, n, tables) && lo + n <= KERNEL_HALF && z.up.Sane() && pd in s.uv
    requires i == n || (i < n && pd < 0x10_0000 && Trans(z.mem, pd, lo + i).None? && z.up.Allocatable() == {})
    ensures pd < 0x10_0000 && s.up.Sane()
    ensures if tables then Inv(z) && pd in z.uv && Given(s, z, pd, lo, i) && i == Reach(s, pd, lo, n) else Lost(z)
    ensures tables ==> (i == n <==> |NewPages(s, pd, lo, n)| <= |s.up.Allocatable()|)
  {
    hide Inv, Headless, Given, Lost, Reach, Trans;
    ChildIsDirectory(s, pd);
    InvSane(s);
    if !tables && Headless(z, pd) {
      HeadlessIsLost(z, pd);
    } else {
      GivenGives(s, z, pd, lo, i);
      if i < n {
        OutOfFrames(s, z, pd, lo, i, n);
      } else {
        ReachExact(s, pd, lo, n, i);
      }
      TablesForNone(z, PF_USER, pd, lo + i);
    }
  }

  /** The kernel pool can supply the tables of every page that gets a frame. */
  ghost predicate SegmentTables(s: Snap, pd: nat, lo: nat, n: nat)
    requires Inv(s) && pd in s.uv
  {
    TablesFor(s, PF_USER, pd, lo, lo + Reach(s, pd, lo, n))
  }

  /**
   * The page loop of segment_load: pages that are there are reused, missing ones are given a frame. It keeps the
   * pools sound exactly when the kernel pool can supply the tables of the pages it gets through.
   */
  method MapSegment(m: Machine, vaddr: Word, filesz: nat) returns (ok: bool, ghost done: nat)
    requires m.Valid() && m.cr3 in m.userVaddr
    requires USER_START * 4096 <= vaddr < KERNEL_HALF * 4096 && vaddr + filesz <= KERNEL_HALF * 4096
    modifies m`mem, m`kernelPool, m`userPool, m`userVaddr, m`owner
    ensures var n := OccupyPages(vaddr, filesz);
            && done <= n && (ok <==> done == n)
            && (if SegmentTables(old(m.S()), m.cr3, vaddr / 4096, n)
                then m.Valid() && m.cr3 in m.userVaddr && Given(old(m.S()), m.S(), m.cr3, vaddr / 4096, done)
                     && (ok <==> |NewPages(old(m.S()), m.cr3, vaddr / 4096, n)| <= |old(m.userPool).Allocatable()|)
                else Lost(m.S()))
  {
    hide Inv, Loading, Given, TablesFor, Lost, Receptive, Granted, Drivable, Reach;
    ghost var s, pd := m.S(), m.cr3;
    var first := vaddr / 4096;
    var sizeInFirst := PAGE - vaddr % PAGE;
    var occupy := 0;
    if filesz > sizeInFirst {
      occupy := (filesz - sizeInFirst + PAGE - 1) / PAGE + 1;
    } else {
      occupy := 1;
    }
    assert occupy == OccupyPages(vaddr, filesz);
    InUserHalf(vaddr, filesz);
    ghost var tables := SegmentTables(s, pd, first, occupy);
    LoadingStarts(s, pd, first, occupy);
    var idx := 0;
    done := 0;
    while idx < occupy
      invariant 0 <= idx <= occupy && done == idx && m.cr3 == pd
      invariant Loading(s, m.S(), pd, first, idx, occupy, tables)
    {
      ghost var z := m.S();
      LoadingRuns(s, z, pd, first, idx, occupy, tables);
      PageNumber(first + idx);
      var missing := PageMissing(m, (first + idx) * 4096);
      if missing {
        var given := GetOnePage(m, (first + idx) * 4096);
        LoadingGives(s, z, m.S(), pd, first, idx, occupy, tables);
        if !given {
          DrivablePools(z, pd);
          LoadingEnds(s, m.S(), pd, first, idx, occupy, tables);
          return false, idx;
        }
      } else {
        LoadingSkips(s, z, pd, first, idx, occupy, tables);
      }
      idx := idx + 1;
      done := idx;
    }
    LoadingRuns(s, m.S(), pd, first, idx, occupy, tables);
    DrivablePools(m.S(), pd);
    LoadingEnds(s, m.S(), pd, first, idx, occupy, tables);
    ok := true;
  }

  /** Both entries read through the self-map, the table's only once the directory's is present. */
  method PageMissing(m: Machine, v: Word) returns (missing: bool)
    requires Drivable(m.S(), m.cr3) && v % 4096 == 0 && v / 4096 < KERNEL_HALF
    ensures missing <==> Receptive(m.S(), m.cr3, v / 4096)
    ensures missing <==> Trans(m.mem, m.cr3, v / 4096).None?
  {
    assert v / 4096 / 1024 == v / 0x40_0000 && v / 4096 % 1024 == PteIdx(v);
    PdePtrReachesEntry(m.mem, m.cr3, v);
    PtePtrReachesEntry(m.mem, m.cr3, v);
    missing := !Present(m.Load(PdePtr(v))) || !Present(m.Load(PtePtr(v)));
  }

  lemma InUserHalf(vaddr: nat, filesz: nat)
    requires USER_START * 4096 <= vaddr < KERNEL_HALF * 4096 && vaddr + filesz <= KERNEL_HALF * 4096
    ensures USER_START <= vaddr / 4096 && vaddr / 4096 + OccupyPages(vaddr, filesz) <= KERNEL_HALF
  {
    var last := vaddr / 4096 + OccupyPages(vaddr, filesz) - 1;
    if filesz > 0 {
      PagesCover(vaddr, filesz, last);
    }
  }

  // ---- the whole of segment_load ----

  /** Every byte read in falls on a page of the segment. */
  lemma BytesFit(s: Snap, z: Snap, pd: nat, vaddr: nat, filesz: nat, j: nat)
    requires Inv(s) && Given(s, z, pd, vaddr / 4096, OccupyPages(vaddr, filesz)) && j < filesz
    ensures UserMemory.Mapped(z, pd, vaddr + j)
  {
    hide Inv, OwnersKept, PagesIntact;
    PagesCover(vaddr, filesz, (vaddr + j) / 4096);
    assert InSpace(s, UserPage(pd, (vaddr + j) / 4096));
  }

  /**
   * segment_load: with the pages given, the file's bytes stand from `vaddr` on, `filesz` of them or as many as
   * the file has; no other byte of any process changed. What sys_read_file returns is not looked at. An empty
   * segment is handed the whole rest of the file, up to the first page that is not there.
   */
  method LoadSegment(m: Machine, v: Fat.Volume, first: nat, offset: nat, filesz: nat, vaddr: Word,
                     ghost chain: seq<nat>)
    returns (ok: bool, ghost given: Snap, ghost stored: nat)
    requires m.Valid() && m.cr3 in m.userVaddr && |v.img| == 20 * 512
    requires Chains.IsChain(v.sectors, chain) && chain[0] == first
    requires USER_START * 4096 <= vaddr < KERNEL_HALF * 4096
    requires vaddr + (if filesz == 0 then 512 * |chain| else filesz) <= KERNEL_HALF * 4096
    requires SegmentTables(m.S(), m.cr3, vaddr / 4096, OccupyPages(vaddr, filesz))
    modifies m`mem, m`kernelPool, m`userPool, m`userVaddr, m`owner, v`img
    ensures m.Valid() && v.sectors == old(v.sectors)
    ensures var n := OccupyPages(vaddr, filesz);
            ok <==> |NewPages(old(m.S()), m.cr3, vaddr / 4096, n)| <= |old(m.userPool).Allocatable()|
    ensures ok ==> Given(old(m.S()), given, m.cr3, vaddr / 4096, OccupyPages(vaddr, filesz)) && Inv(given)
    ensures ok ==> var dst := Chains.ReadResult(Chains.Content(v.sectors, chain), offset, filesz).1;
                   && stored <= |dst| && Holds(given, m.S(), m.cr3, vaddr, dst[..stored])
                   && (filesz > 0 ==> stored == |dst|)
                   && (stored < |dst| ==> !UserMemory.Mapped(given, m.cr3, vaddr + stored))
  {
    hide Inv, Given, Holds, UserMemory.Mapped, SegmentTables, Chains.IsChain, Chains.Content;
    ghost var s, done := m.S(), 0;
    ok, done := MapSegment(m, vaddr, filesz);
    given, stored := m.S(), 0;
    if ok {
      ChainRoom(v.sectors, chain, offset, filesz);
      var r, dst := Chains.ReadFile(v, first, offset, filesz, chain);
      stored := StoreBytes(m, vaddr, dst);
      if filesz > 0 && stored < |dst| {
        BytesFit(s, given, m.cr3, vaddr, filesz, stored);
      }
    }
  }

  lemma ChainRoom(d: Fat.Disk, chain: seq<nat>, offset: nat, size: nat)
    requires Chains.IsChain(d, chain)
    ensures forall i: nat | i < |chain| :: Fat.FIRST <= chain[i] < Fat.LIMIT
    ensures var dst := Chains.ReadResult(Chains.Content(d, chain), offset, size).1;
            |dst| <= 512 * |chain| && (size > 0 ==> |dst| <= size)
  {
  }

  /** An empty segment is still given the page of its address, though it meets none. */
  lemma EmptySegmentTakesAPage(vaddr: nat)
    ensures OccupyPages(vaddr, 0) == 1 && forall p: nat :: !Meets(p, vaddr, 0)
  {
  }
}
