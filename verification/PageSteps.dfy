/** What one step of the page allocator does to a snapshot, and how steps compose over a run of pages. */
module PageSteps {
  import opened Options
  import opened Paging
  import opened Pools
  import Bitmaps

  datatype PoolFlag = PF_KERNEL | PF_USER

  function PoolFor(s: Snap, pf: PoolFlag): Pool { if pf.PF_KERNEL? then s.kp else s.up }

  /** palloc took frame `f` from the window of the pool. */
  ghost predicate TakeStep(s: Snap, s': Snap, pf: PoolFlag, f: nat)
    requires Inv(s)
  {
    var p := PoolFor(s, pf);
    && Inv(s') && p.Free(f) && f !in s.owner && f - p.start in p.Allocatable()
    && s' == (if pf.PF_KERNEL? then s.(kp := p.Set(f, true)) else s.(up := p.Set(f, true)))
    && PoolFor(s', pf).Allocatable() == p.Allocatable() - {f - p.start}
  }

  // ---- runs of virtual pages ----

  function Base(pf: PoolFlag): nat { if pf.PF_KERNEL? then KERNEL_HEAP else USER_START }

  /** The page at `vp` as pool flag `pf` names it, in the space of directory `pd`. */
  function PageAt(pf: PoolFlag, pd: nat, vp: nat): Page {
    if pf.PF_USER? then UserPage(pd, vp) else KernelPage(vp)
  }

  predicate InRun(pf: PoolFlag, pd: nat, vp: nat, cnt: nat, q: Page) {
    q == PageAt(pf, pd, q.vp) && vp <= q.vp < vp + cnt
  }

  function VirtualMap(s: Snap, pf: PoolFlag, pd: nat): seq<bool>
    requires pf.PF_USER? ==> pd in s.uv
  {
    if pf.PF_KERNEL? then s.kv else s.uv[pd]
  }

  /** `bits` with `cnt` bits from `start` set or cleared. */
  function WithRun(bits: seq<bool>, start: nat, cnt: nat, on: bool): (r: seq<bool>)
    requires start + cnt <= |bits|
    ensures |r| == |bits|
    ensures forall i: nat | i < |bits| :: r[i] == if start <= i < start + cnt then on else bits[i]
  {
    seq(|bits|, i requires 0 <= i < |bits| => if start <= i < start + cnt then on else bits[i])
  }

  /** The bitmap_set_idx loops of vaddr_get and vaddr_remove. */
  method MarkRun(bits: seq<bool>, start: nat, cnt: nat, on: bool) returns (marked: seq<bool>)
    requires start + cnt <= |bits|
    ensures marked == WithRun(bits, start, cnt, on)
  {
    marked := bits;
    var count := 0;
    while count < cnt
      invariant 0 <= count <= cnt && marked == WithRun(bits, start, count, on)
    {
      marked := marked[start + count := on];
      count := count + 1;
    }
  }

  function WithVirtualMap(s: Snap, pf: PoolFlag, pd: nat, bits: seq<bool>): Snap {
    if pf.PF_KERNEL? then s.(kv := bits) else s.(uv := s.uv[pd := bits])
  }

  /** Where vaddr_get's first-fit search lands. */
  ghost function FirstRun(s: Snap, pf: PoolFlag, pd: nat, cnt: nat): (r: int)
    requires Inv(s) && (pf.PF_USER? ==> pd in s.uv)
    ensures r >= -1
  {
    Bitmaps.FirstFit(VirtualMap(s, pf, pd), |VirtualMap(s, pf, pd)| / 8, cnt)
  }

  /** vaddr_get's search would go on behind the bitmap. */
  ghost predicate RunStrays(s: Snap, pf: PoolFlag, pd: nat, cnt: nat)
    requires Inv(s) && (pf.PF_USER? ==> pd in s.uv)
  {
    Bitmaps.Strays(VirtualMap(s, pf, pd), |VirtualMap(s, pf, pd)| / 8, cnt)
  }

  /** `s'` is `s` with the virtual bits of a run of clear, unmapped pages set. */
  ghost predicate ReservedRun(s: Snap, s': Snap, pf: PoolFlag, pd: nat, vp: nat, cnt: nat)
    requires Inv(s) && (pf.PF_USER? ==> pd in s.uv)
  {
    var bits, start := VirtualMap(s, pf, pd), vp - Base(pf);
    && 0 <= start && start + cnt <= |bits|
    && (forall i: nat | start <= i < start + cnt :: !bits[i])
    && s' == WithVirtualMap(s, pf, pd, WithRun(bits, start, cnt, true))
    && (forall q | InRun(pf, pd, vp, cnt, q) :: Managed(s, q) && Look(s, q).None?)
  }

  /** Single pages the first-fit search can still find. */
  function ClearStarts(bits: seq<bool>): set<nat> { set i: nat | i + 1 < |bits| / 8 && !bits[i] }

  lemma SinglePageFound(bits: seq<bool>)
    requires |bits| % 8 == 0 && 8 <= |bits|
    ensures var r := Bitmaps.FirstFit(bits, |bits| / 8, 1);
            if ClearStarts(bits) == {} then r == -1 else r >= 0 && r in ClearStarts(bits)
  {
    var len := |bits| / 8;
    var r := Bitmaps.FirstFit(bits, len, 1);
    if i :| i in ClearStarts(bits) {
      assert Bitmaps.Fits(bits, i, 1);
    }
    if r >= 0 {
      assert Bitmaps.Fits(bits, r, 1);
      assert r in ClearStarts(bits);
    }
  }

  lemma SinglePageTaken(bits: seq<bool>, i: nat)
    requires i in ClearStarts(bits)
    ensures |ClearStarts(bits[i := true])| == |ClearStarts(bits)| - 1
  {
    assert ClearStarts(bits[i := true]) == ClearStarts(bits) - {i};
  }

  lemma VirtualMapSane(s: Snap, pf: PoolFlag, pd: nat)
    requires Inv(s) && (pf.PF_USER? ==> pd in s.uv)
    ensures |VirtualMap(s, pf, pd)| % 8 == 0 && 8 <= |VirtualMap(s, pf, pd)| && KERNEL_HEAP + |s.kv| <= WINDOW
    ensures (pf.PF_USER? ==> |s.uv[pd]| == 8 * USER_LEN)
  {
  }

  lemma ReserveRun(s: Snap, pf: PoolFlag, pd: nat, vp: nat, cnt: nat, s': Snap)
    requires Inv(s) && (pf.PF_USER? ==> pd in s.uv) && Base(pf) <= vp
    requires var bits, start := VirtualMap(s, pf, pd), vp - Base(pf);
             && start + cnt <= |bits| && (forall i: nat | start <= i < start + cnt :: !bits[i])
             && s' == WithVirtualMap(s, pf, pd, WithRun(bits, start, cnt, true))
    ensures Inv(s') && ReservedRun(s, s', pf, pd, vp, cnt) && (forall d: nat | Directory(s, d) :: Directory(s', d))
  {
    SetVirtualBits(s, s');
    forall q | InRun(pf, pd, vp, cnt, q)
      ensures Managed(s, q) && Look(s, q).None?
    {
      assert Managed(s, q) && !VirtualBit(s, q);
    }
  }

  /** Between two states a directory gained at most the table of `slot`, on a frame that was free. */
  ghost predicate TablesGrow(s: Snap, s': Snap, pd: nat, slot: nat)
    requires Inv(s) && Inv(s') && Directory(s, pd) && slot < 1024
  {
    && s'.up == s.up && s'.kv == s.kv && s'.uv == s.uv
    && OtherDirsKept(s, s', pd)
    && (forall i: nat | i < 1024 && i != slot :: s'.mem[pd][i] == s.mem[pd][i])
    && if Present(s.mem[pd][slot]) then s'.kp == s.kp && s'.mem[pd][slot] == s.mem[pd][slot]
       else
         var t := FrameOf(s'.mem[pd][slot]);
         && Present(s'.mem[pd][slot]) && s.kp.Free(t) && s'.kp == s.kp.Set(t, true)
         && t - s.kp.start in s.kp.Allocatable() && s'.kp.Allocatable() == s.kp.Allocatable() - {t - s.kp.start}
  }

  ghost predicate OtherDirsKept(s: Snap, s': Snap, pd: nat) {
    forall d: nat | Directory(s, d) && d != pd && d < 0x10_0000 :: s'.mem[d] == s.mem[d]
  }

  ghost predicate OwnersKept(s: Snap, s': Snap) {
    forall g | g in s.owner :: g in s'.owner && s'.owner[g] == s.owner[g]
  }

  /** No mapped frame but the active directory is written. */
  ghost predicate PagesIntact(s: Snap, s': Snap, pd: nat) {
    forall f | f in s.owner && s.owner[f].Mapped? && f != pd && f < 0x10_0000 :: s'.mem[f] == s.mem[f]
  }

  lemma SelfMap(s: Snap, pd: nat)
    requires Inv(s) && Directory(s, pd)
    ensures pd < 0x10_0000 && SelfMapped(s.mem, pd)
  {
  }

  /** The entry the active directory holds for a page of its space is the page's own. */
  lemma ActiveEntry(s: Snap, pd: nat, pg: Page)
    requires Inv(s) && Directory(s, pd) && InSpace(s, pg) && (pg.UserPage? ==> pg.pd == pd)
    ensures pd < 0x10_0000 && SelfMapped(s.mem, pd) && s.mem[pd][pg.vp / 1024] == Pde(s, pg)
    ensures Trans(s.mem, pd, pg.vp) == Look(s, pg)
  {
  }

  /** What page_table_add asks for: an unmapped managed page with its virtual bit set, and a taken, unowned frame. */
  ghost predicate CanMap(s: Snap, pd: nat, pg: Page, f: nat)
    requires Inv(s)
  {
    && Directory(s, pd) && Managed(s, pg) && (pg.UserPage? ==> pg.pd == pd) && VirtualBit(s, pg) && Look(s, pg).None?
    && PoolOf(s, pg).Holds(f) && !Free(s, f) && f !in s.owner
  }

  /** `pg` now lands on `f`; no other translation, directory or mapped frame changed. */
  ghost predicate FillStep(s: Snap, s': Snap, pd: nat, pg: Page, f: nat) {
    && Inv(s') && InSpace(s', pg) && Look(s', pg) == Some(f) && OnlyMoves(s, s', pg)
    && s' == s.(mem := s'.mem, owner := s.owner[f := Mapped(pg)])
    && s'.mem[BOOT] == s.mem[BOOT] && (forall d | d in s.uv && d < 0x10_0000 :: s'.mem[d] == s.mem[d])
    && PagesIntact(s, s', pd)
  }

  /** The same, where the directory may also have gained the page table of `pg`. */
  ghost predicate MapStep(s: Snap, s': Snap, pd: nat, pg: Page, f: nat)
    requires Inv(s) && Directory(s, pd) && InSpace(s, pg)
  {
    && Inv(s') && s'.uv == s.uv && Look(s', pg) == Some(f) && OnlyMoves(s, s', pg)
    && TablesGrow(s, s', pd, pg.vp / 1024)
    && f in s'.owner && s'.owner[f] == Mapped(pg) && OwnersKept(s, s')
    && (forall g | g in s'.owner && g !in s.owner && g != f ::
          s'.owner[g] == UserTable(pd, pg.vp / 1024) && !Present(s.mem[pd][pg.vp / 1024]) &&
            FrameOf(s'.mem[pd][pg.vp / 1024]) == g)
    && PagesIntact(s, s', pd)
  }

  lemma MapPageEffect(s: Snap, pd: nat, pg: Page, f: nat, s': Snap)
    requires Inv(s) && CanMap(s, pd, pg, f) && Present(Pde(s, pg))
    requires s' == s.(mem := Put(s.mem, FrameOf(Pde(s, pg)), pg.vp % 1024, EntryFor(f)),
               owner := s.owner[f := Mapped(pg)])
    ensures FillStep(s, s', pd, pg, f)
  {
    MapPage(s, pg, f, s');
    EntryMovesOnePage(s, pg, EntryFor(f), s');
  }

  lemma CanMapGives(s: Snap, pd: nat, pg: Page, f: nat)
    requires Inv(s) && CanMap(s, pd, pg, f)
    ensures Directory(s, pd) && InSpace(s, pg) && (pg.UserPage? ==> pg.pd == pd) && Managed(s, pg)
  {
  }

  /** Adding the missing table leaves `pg` as it was, ready to be filled. */
  lemma AfterTable(s: Snap, s1: Snap, pd: nat, pg: Page, f: nat)
    requires Inv(s) && CanMap(s, pd, pg, f) && Inv(s1)
    requires (s1 == s && Present(Pde(s, pg))) || TableStep(s, s1, pd, pg.vp / 1024)
    ensures CanMap(s1, pd, pg, f) && Present(Pde(s1, pg))
  {
    hide Inv, Trans, OtherDirsKept, PagesIntact;
    InvSane(s);
    InvSane(s1);
    ActiveEntry(s, pd, pg);
    ActiveEntry(s1, pd, pg);
  }

  /** A fresh page table linked into an empty slot. */
  ghost predicate TableStep(s: Snap, s': Snap, pd: nat, slot: nat)
    requires Inv(s) && Directory(s, pd) && slot < 1024
  {
    && Inv(s') && !Present(s.mem[pd][slot]) && TablesGrow(s, s', pd, slot)
    && (forall q | InSpace(s, q) :: Look(s', q) == Look(s, q))
    && s'.owner == s.owner[FrameOf(s'.mem[pd][slot]) := UserTable(pd, slot)]
    && PagesIntact(s, s', pd)
  }

  lemma LinkTableEffect(before: Snap, s: Snap, pd: nat, slot: nat, t: nat, s': Snap)
    requires Inv(before) && Inv(s) && pd in s.uv && slot < 768 && !Present(s.mem[pd][slot])
    requires before.kp.Free(t) && t !in s.owner && s == before.(kp := before.kp.Set(t, true))
    requires t - s.kp.start in before.kp.Allocatable()
    requires s.kp.Allocatable() == before.kp.Allocatable() - {t - s.kp.start}
    requires s' == s.(mem := Put(s.mem, pd, slot, EntryFor(t))[t := ZeroFrame()],
               owner := s.owner[t := UserTable(pd, slot)])
    ensures TableStep(before, s', pd, slot)
  {
    LinkTable(s, pd, slot, t, s');
    SameView(before, s);
  }

  lemma GrowThenFill(s: Snap, s1: Snap, s2: Snap, pd: nat, pg: Page, f: nat)
    requires Inv(s) && CanMap(s, pd, pg, f) && Inv(s1)
    requires (s1 == s && Present(Pde(s, pg))) || TableStep(s, s1, pd, pg.vp / 1024)
    requires FillStep(s1, s2, pd, pg, f)
    ensures MapStep(s, s2, pd, pg, f)
  {
    hide Inv, Look, Trans, TablesGrow, Pde;
    ActiveEntry(s, pd, pg);
    GrowThenFillTables(s, s1, s2, pd, pg, f);
    if s1 != s {
      NewTableUnowned(s, s1, pd, pg.vp / 1024);
    }
    assert OnlyMoves(s, s2, pg);
    assert OwnersKept(s, s2);
  }

  lemma NewTableUnowned(s: Snap, s': Snap, pd: nat, slot: nat)
    requires Inv(s) && Directory(s, pd) && slot < 1024 && TableStep(s, s', pd, slot)
    ensures pd < 0x10_0000 && FrameOf(s'.mem[pd][slot]) !in s.owner
  {
    SelfMap(s, pd);
    var t := FrameOf(s'.mem[pd][slot]);
    assert Free(s, t);
  }

  lemma GrowThenFillTables(s: Snap, s1: Snap, s2: Snap, pd: nat, pg: Page, f: nat)
    requires Inv(s) && CanMap(s, pd, pg, f) && Inv(s1)
    requires (s1 == s && Present(Pde(s, pg))) || TableStep(s, s1, pd, pg.vp / 1024)
    requires FillStep(s1, s2, pd, pg, f)
    ensures pd < 0x10_0000 && TablesGrow(s, s2, pd, pg.vp / 1024) && s2.mem[pd] == s1.mem[pd] && f !in s1.owner
    ensures s1.uv == s.uv && s2.uv == s.uv
  {
    hide Inv, Look, Trans, Pde, OnlyMoves, PagesIntact;
    AfterTable(s, s1, pd, pg, f);
    ActiveEntry(s, pd, pg);
  }

  // ---- malloc_page over a run ----

  lemma PageNumber(vp: nat)
    ensures vp * 4096 / 4096 == vp && vp * 4096 % 4096 == 0 && vp * 4096 / 0x40_0000 == vp / 1024
  {
  }

  /** Page tables still missing for the pages from `lo` up to `hi`. */
  ghost function MissingTables(s: Snap, pf: PoolFlag, pd: nat, lo: nat, hi: nat): nat
    requires Inv(s) && Directory(s, pd)
  {
    if pf.PF_KERNEL? then 0 else |MissingSlots(s, pd, lo, hi)|
  }

  ghost function MissingSlots(s: Snap, pd: nat, lo: nat, hi: nat): set<nat>
    requires Inv(s) && Directory(s, pd)
  {
    set i: nat | i < 768 && lo < hi && lo / 1024 <= i && i * 1024 < hi && !Present(s.mem[pd][i])
  }

  /** How many of `cnt` pages the pool has frames for. */
  ghost function Supply(s: Snap, pf: PoolFlag, cnt: nat): nat
    requires Inv(s)
  {
    var left := |PoolFor(s, pf).Allocatable()|;
    if cnt <= left then cnt else left
  }

  /** The kernel pool can supply every page table still missing for the pages from `lo` up to `hi`. */
  ghost predicate TablesFor(s: Snap, pf: PoolFlag, pd: nat, lo: nat, hi: nat)
    requires Inv(s) && Directory(s, pd)
  {
    MissingTables(s, pf, pd, lo, hi) <= |s.kp.Allocatable()|
  }

  /** It can for every page of the run that will be given a frame at all. */
  ghost predicate TablesSuffice(s: Snap, pf: PoolFlag, pd: nat, cnt: nat)
    requires Inv(s) && Directory(s, pd) && (pf.PF_USER? ==> pd in s.uv)
  {
    var run := FirstRun(s, pf, pd, cnt);
    run >= 0 ==> TablesFor(s, pf, pd, Base(pf) + run, Base(pf) + run + Supply(s, pf, cnt))
  }

  /**
   * From `r` to `s` the first `done` pages of the run were mapped, each to a frame that was free; every frame
   * taken serves one of them or a new page table of the active directory; nothing else moved.
   */
  ghost predicate MappedRun(r: Snap, s: Snap, pf: PoolFlag, pd: nat, vp: nat, done: nat)
    requires Inv(r)
  {
    && Inv(s) && s.kv == r.kv && s.uv == r.uv && OwnersKept(r, s) && PagesIntact(r, s, pd) && Directory(r, pd)
    && SameShape(r, s)
    && (forall q | InSpace(r, q) && !InRun(pf, pd, vp, done, q) :: Look(s, q) == Look(r, q))
    && (forall q | InSpace(r, q) && InRun(pf, pd, vp, done, q) :: Look(s, q).Some? && Free(r, Look(s, q).value))
    && (forall f | Free(s, f) :: Free(r, f))
    && (forall f | Free(r, f) && !Free(s, f) :: f in s.owner && TakenForRun(r, s, pf, pd, vp, done, f, s.owner[f]))
    && OtherDirsKept(r, s, pd)
    && (pf.PF_KERNEL? ==> s.up == r.up && s.mem[pd] == r.mem[pd] && |s.kp.Allocatable()| + done == |r.kp.Allocatable()|)
    && (forall i: nat | i < 1024 && Present(r.mem[pd][i]) :: s.mem[pd][i] == r.mem[pd][i])
  }

  ghost predicate TakenForRun(r: Snap, s: Snap, pf: PoolFlag, pd: nat, vp: nat, done: nat, f: nat, o: Owner)
    requires Inv(r) && Inv(s) && Directory(r, pd) && s.uv == r.uv
  {
    match o
    case Mapped(q) => InSpace(s, q) && InRun(pf, pd, vp, done, q) && Look(s, q) == Some(f)
    case UserTable(d, i) => pf.PF_USER? && d == pd && i < 768 && r.kp.Holds(f) && !Present(r.mem[pd][i]) &&
      Present(s.mem[pd][i]) && FrameOf(s.mem[pd][i]) == f
    case _ => false
  }

  /** One frame granted to one page: palloc, then page_table_add. */
  ghost predicate GrantStep(s: Snap, s': Snap, pf: PoolFlag, pd: nat, pg: Page)
    requires Inv(s) && Directory(s, pd) && InSpace(s, pg)
  {
    && Inv(s') && s'.kv == s.kv && s'.uv == s.uv && OnlyMoves(s, s', pg)
    && SameShape(s, s') && OwnersKept(s, s') && PagesIntact(s, s', pd)
    && Look(s', pg).Some? && Free(s, Look(s', pg).value)
    && (forall g | Free(s', g) :: Free(s, g))
    && (forall g | Free(s, g) && !Free(s', g) :: g in s'.owner &&
          ((Look(s', pg) == Some(g) && s'.owner[g] == Mapped(pg)) ||
            (pf.PF_USER? && NewTable(s, s', pd, pg.vp / 1024, g))))
    && RowsKept(s, s', pd, pg.vp / 1024)
    && (pf.PF_KERNEL? ==> s'.up == s.up && s'.mem[pd] == s.mem[pd])
    && (pf.PF_USER? ==> |s'.up.Allocatable()| + 1 == |s.up.Allocatable()|)
    && (pf.PF_USER? && Present(s.mem[pd][pg.vp / 1024]) ==> s'.kp == s.kp)
    && (pf.PF_USER? && !Present(s.mem[pd][pg.vp / 1024]) ==>
          && Present(s'.mem[pd][pg.vp / 1024]) && Free(s, FrameOf(s'.mem[pd][pg.vp / 1024]))
          && |s'.kp.Allocatable()| + 1 == |s.kp.Allocatable()|)
    && (pf.PF_KERNEL? ==> |s'.kp.Allocatable()| + 1 == |s.kp.Allocatable()|)
  }

  ghost predicate NewTable(s: Snap, s': Snap, pd: nat, slot: nat, g: nat)
    requires Inv(s) && Inv(s') && Directory(s, pd) && slot < 1024
  {
    && g in s'.owner && s'.owner[g] == UserTable(pd, slot) && s.kp.Holds(g)
    && !Present(s.mem[pd][slot]) && Present(s'.mem[pd][slot]) && FrameOf(s'.mem[pd][slot]) == g
  }

  predicate SameShape(s: Snap, s': Snap) {
    s'.kp.start == s.kp.start && s'.kp.len == s.kp.len && s'.up.start == s.up.start && s'.up.len == s.up.len
  }

  /** Directories change at most in `slot` of `pd`, and no present entry changes. */
  ghost predicate RowsKept(s: Snap, s': Snap, pd: nat, slot: nat)
    requires Inv(s) && Inv(s') && Directory(s, pd) && slot < 1024
  {
    && OtherDirsKept(s, s', pd)
    && (forall i: nat | i < 1024 && (i != slot || Present(s.mem[pd][slot])) :: s'.mem[pd][i] == s.mem[pd][i])
  }

  lemma GrantIsTakeThenMap(s: Snap, taken: Snap, s': Snap, pf: PoolFlag, pd: nat, vp: nat, f: nat)
    requires Inv(s) && Directory(s, pd) && (pf.PF_USER? ==> pd in s.uv) && InSpace(s, PageAt(pf, pd, vp))
    requires TakeStep(s, taken, pf, f)
    requires CanMap(taken, pd, PageAt(pf, pd, vp), f) && MapStep(taken, s', pd, PageAt(pf, pd, vp), f)
    ensures GrantStep(s, s', pf, pd, PageAt(pf, pd, vp))
  {
    hide Inv, Look, CanMap, NewTable, RowsKept, OnlyMoves, PagesIntact, OwnersKept;
    var pg := PageAt(pf, pd, vp);
    InvSane(s);
    InvSane(taken);
    InvSane(s');
    GrantFrees(s, taken, s', pf, pd, pg, f);
    GrantRows(s, taken, s', pf, pd, pg, f);
    SelfMap(taken, pd);
    if pf.PF_KERNEL? {
      KernelTableThere(taken, pd, pg);
      assert s'.mem[pd] == taken.mem[pd];
    } else if !Present(taken.mem[pd][vp / 1024]) {
      assert |taken.kp.Allocatable()| == |s'.kp.Allocatable()| + 1;
    }
  }

  lemma GrantRows(s: Snap, taken: Snap, s': Snap, pf: PoolFlag, pd: nat, pg: Page, f: nat)
    requires Inv(s) && TakeStep(s, taken, pf, f) && Directory(s, pd) && InSpace(s, pg)
    requires Directory(taken, pd) && InSpace(taken, pg) && MapStep(taken, s', pd, pg, f)
    ensures RowsKept(s, s', pd, pg.vp / 1024) && OnlyMoves(s, s', pg) && PagesIntact(s, s', pd) && OwnersKept(s, s')
  {
    hide Inv;
    SameView(s, taken);
    SelfMap(taken, pd);
  }

  lemma InvSane(s: Snap)
    requires Inv(s)
    ensures PoolsSane(s)
  {
  }

  lemma KernelTableThere(s: Snap, pd: nat, pg: Page)
    requires Inv(s) && Directory(s, pd) && InSpace(s, pg) && pg.KernelPage?
    ensures pd < 0x10_0000 && Present(s.mem[pd][pg.vp / 1024])
  {
    ActiveEntry(s, pd, pg);
  }

  /** Only a user page can lack its page table. */
  lemma ActiveSlot(s: Snap, pd: nat, pg: Page)
    requires Inv(s) && Directory(s, pd) && InSpace(s, pg) && (pg.UserPage? ==> pg.pd == pd)
    requires !Present(s.mem[pd][pg.vp / 1024])
    ensures pg.UserPage? && pd in s.uv && pg.vp / 1024 < 768
  {
    ActiveEntry(s, pd, pg);
  }

  /** The frames taken are the granted one and, for a page without a table, the new table. */
  lemma GrantFrees(s: Snap, taken: Snap, s': Snap, pf: PoolFlag, pd: nat, pg: Page, f: nat)
    requires Inv(s) && TakeStep(s, taken, pf, f) && pg == PageAt(pf, pd, pg.vp)
    requires Directory(taken, pd) && InSpace(taken, pg) && MapStep(taken, s', pd, pg, f)
    ensures forall g | Free(s', g) :: Free(s, g)
    ensures forall g | Free(s, g) && !Free(s', g) :: g in s'.owner &&
              ((Look(s', pg) == Some(g) && s'.owner[g] == Mapped(pg)) ||
                (pf.PF_USER? && NewTable(s, s', pd, pg.vp / 1024, g)))
  {
    hide Inv, OnlyMoves, PagesIntact, OwnersKept;
    InvSane(s);
    InvSane(taken);
    InvSane(s');
    SelfMap(taken, pd);
    if !Present(taken.mem[pd][pg.vp / 1024]) {
      ActiveSlot(taken, pd, pg);
      TableFrame(taken, s', pd, pg.vp / 1024);
    }
  }

  lemma TableFrame(s: Snap, s': Snap, pd: nat, slot: nat)
    requires Inv(s) && Inv(s') && pd in s.uv && slot < 768 && TablesGrow(s, s', pd, slot)
    requires !Present(s.mem[pd][slot])
    ensures FrameOf(s'.mem[pd][slot]) in s'.owner && s'.owner[FrameOf(s'.mem[pd][slot])] == UserTable(pd, slot)
  {
  }

  /** Every page of the run is managed, reserved and unmapped. */
  ghost predicate RunIsFresh(r: Snap, pf: PoolFlag, pd: nat, vp: nat, cnt: nat) {
    forall q | InRun(pf, pd, vp, cnt, q) :: Managed(r, q) && VirtualBit(r, q) && Look(r, q).None?
  }

  /** The loop of malloc_page after `i` pages, while every page had its table. */
  ghost predicate RunState(r: Snap, s: Snap, pf: PoolFlag, pd: nat, vp: nat, i: nat, cnt: nat) {
    && Inv(r) && Directory(r, pd) && (pf.PF_USER? ==> pd in r.uv) && i <= cnt && vp + cnt <= 0x10_0000
    && RunIsFresh(r, pf, pd, vp, cnt) && MappedRun(r, s, pf, pd, vp, i)
  }

  lemma RunStateGives(r: Snap, s: Snap, pf: PoolFlag, pd: nat, vp: nat, i: nat, cnt: nat)
    requires RunState(r, s, pf, pd, vp, i, cnt)
    ensures Inv(s) && Inv(r) && Directory(s, pd) && MappedRun(r, s, pf, pd, vp, i)
    ensures i < cnt ==> vp + i < 0x10_0000 && Ready(s, pf, pd, PageAt(pf, pd, vp + i))
    ensures i < cnt ==> InSpace(s, PageAt(pf, pd, vp + i))
  {
    if i < cnt {
      var pg := PageAt(pf, pd, vp + i);
      assert InRun(pf, pd, vp, cnt, pg) && !InRun(pf, pd, vp, i, pg);
      assert Look(s, pg) == Look(r, pg);
    }
  }

  lemma StartRun(s: Snap, r: Snap, pf: PoolFlag, pd: nat, vp: nat, cnt: nat)
    requires Inv(s) && Inv(r) && Directory(s, pd) && (pf.PF_USER? ==> pd in s.uv)
    requires FirstRun(s, pf, pd, cnt) >= 0
    requires vp == Base(pf) + FirstRun(s, pf, pd, cnt)
    requires ReservedRun(s, r, pf, pd, vp, cnt)
    ensures RunState(r, r, pf, pd, vp, 0, cnt) && Directory(r, pd)
    ensures TablesFor(r, pf, pd, vp, vp + Supply(s, pf, cnt)) == TablesSuffice(s, pf, pd, cnt)
  {
    hide Inv, RunIsFresh, MappedRun, Look, Present, FirstRun, Supply;
    InvSane(s);
    ReservedIsFresh(s, r, pf, pd, vp, cnt);
    ReservedKeepsTables(s, r, pf, pd, vp, cnt, vp + Supply(s, pf, cnt));
  }

  lemma ReservedKeepsTables(s: Snap, r: Snap, pf: PoolFlag, pd: nat, vp: nat, cnt: nat, hi: nat)
    requires Inv(s) && Inv(r) && Directory(s, pd) && (pf.PF_USER? ==> pd in s.uv)
    requires ReservedRun(s, r, pf, pd, vp, cnt)
    ensures Directory(r, pd) && (pf.PF_USER? ==> pd in r.uv) && r.kp == s.kp
    ensures MissingTables(r, pf, pd, vp, hi) == MissingTables(s, pf, pd, vp, hi)
  {
    SelfMap(s, pd);
    hide Inv, Look;
    assert r.mem == s.mem;
    assert MissingSlots(r, pd, vp, hi) == MissingSlots(s, pd, vp, hi);
  }

  lemma ReservedIsFresh(s: Snap, r: Snap, pf: PoolFlag, pd: nat, vp: nat, cnt: nat)
    requires Inv(s) && Inv(r) && Directory(s, pd) && (pf.PF_USER? ==> pd in s.uv)
    requires ReservedRun(s, r, pf, pd, vp, cnt)
    ensures RunIsFresh(r, pf, pd, vp, cnt) && MappedRun(r, r, pf, pd, vp, 0) && vp + cnt <= 0x10_0000
  {
    SameView(s, r);
  }

  /** A reserved, unmapped page of the active space. */
  ghost predicate Ready(s: Snap, pf: PoolFlag, pd: nat, pg: Page)
    requires Inv(s)
  {
    && Directory(s, pd) && pg == PageAt(pf, pd, pg.vp)
    && Managed(s, pg) && VirtualBit(s, pg) && Look(s, pg).None?
  }

  /** The page's table exists or can be made: a caller can read this off directory and kernel pool. */
  predicate TableReady(s: Snap, pg: Page)
    requires InSpace(s, pg) && s.kp.Sane()
  {
    Present(Pde(s, pg)) || s.kp.Allocatable() != {}
  }

  ghost predicate Grantable(s: Snap, pf: PoolFlag, pd: nat, pg: Page)
    requires Inv(s)
  {
    Ready(s, pf, pd, pg) && TableReady(s, pg)
  }

  lemma TakenCanMap(s: Snap, taken: Snap, pf: PoolFlag, pd: nat, pg: Page, f: nat)
    requires Inv(s) && Ready(s, pf, pd, pg) && TakeStep(s, taken, pf, f)
    ensures CanMap(taken, pd, pg, f) && InSpace(taken, pg) && s.kp.Sane() && taken.kp.Sane()
    ensures TableReady(taken, pg) == TableReady(s, pg)
  {
    SameView(s, taken);
  }

  lemma RunGrows(r: Snap, s: Snap, s': Snap, pf: PoolFlag, pd: nat, vp: nat, i: nat, cnt: nat)
    requires i < cnt && RunState(r, s, pf, pd, vp, i, cnt)
    requires Inv(s) && Directory(s, pd) && InSpace(s, PageAt(pf, pd, vp + i))
    requires GrantStep(s, s', pf, pd, PageAt(pf, pd, vp + i))
    ensures RunState(r, s', pf, pd, vp, i + 1, cnt)
  {
    hide Inv, MappedRun, RunIsFresh, OnlyMoves, OwnersKept, PagesIntact, RowsKept, TakenForRun, OtherDirsKept;
    RunGrowsLooks(r, s, s', pf, pd, vp, i, cnt);
    RunGrowsTaken(r, s, s', pf, pd, vp, i, cnt);
    RunGrowsRest(r, s, s', pf, pd, vp, i, cnt);
  }

  lemma RunGrowsRest(r: Snap, s: Snap, s': Snap, pf: PoolFlag, pd: nat, vp: nat, i: nat, cnt: nat)
    requires Inv(r) && i < cnt && MappedRun(r, s, pf, pd, vp, i)
    requires InSpace(s, PageAt(pf, pd, vp + i)) && GrantStep(s, s', pf, pd, PageAt(pf, pd, vp + i))
    requires forall q | InSpace(r, q) && !InRun(pf, pd, vp, i + 1, q) :: Look(s', q) == Look(r, q)
    requires forall q | InSpace(r, q) && InRun(pf, pd, vp, i + 1, q) :: Look(s', q).Some? && Free(r, Look(s', q).value)
    requires forall g | Free(r, g) && !Free(s', g) ::
               g in s'.owner && TakenForRun(r, s', pf, pd, vp, i + 1, g, s'.owner[g])
    ensures MappedRun(r, s', pf, pd, vp, i + 1)
  {
    hide Look, TakenForRun, Trans, InRun;
  }

  lemma RunGrowsLooks(r: Snap, s: Snap, s': Snap, pf: PoolFlag, pd: nat, vp: nat, i: nat, cnt: nat)
    requires Inv(r) && RunIsFresh(r, pf, pd, vp, cnt) && i < cnt && MappedRun(r, s, pf, pd, vp, i)
    requires InSpace(s, PageAt(pf, pd, vp + i)) && GrantStep(s, s', pf, pd, PageAt(pf, pd, vp + i))
    ensures forall q | InSpace(r, q) && !InRun(pf, pd, vp, i + 1, q) :: Look(s', q) == Look(r, q)
    ensures forall q | InSpace(r, q) && InRun(pf, pd, vp, i + 1, q) :: Look(s', q).Some? && Free(r, Look(s', q).value)
  {
    var pg := PageAt(pf, pd, vp + i);
    forall q | InSpace(r, q)
      ensures if InRun(pf, pd, vp, i + 1, q) then Look(s', q).Some? && Free(r, Look(s', q).value)
                else Look(s', q) == Look(r, q)
    {
      if q != pg {
        assert InRun(pf, pd, vp, i + 1, q) == InRun(pf, pd, vp, i, q);
        assert Look(s', q) == Look(s, q);
      }
    }
  }

  lemma RunGrowsTaken(r: Snap, s: Snap, s': Snap, pf: PoolFlag, pd: nat, vp: nat, i: nat, cnt: nat)
    requires Inv(r) && RunIsFresh(r, pf, pd, vp, cnt) && i < cnt && MappedRun(r, s, pf, pd, vp, i)
    requires InSpace(s, PageAt(pf, pd, vp + i)) && GrantStep(s, s', pf, pd, PageAt(pf, pd, vp + i))
    ensures forall g | Free(r, g) && !Free(s', g) ::
              g in s'.owner && TakenForRun(r, s', pf, pd, vp, i + 1, g, s'.owner[g])
  {
    hide Look, Trans, Inv, RunIsFresh;
    InvSane(r);
    InvSane(s);
    InvSane(s');
    var pg := PageAt(pf, pd, vp + i);
    forall g | Free(r, g) && !Free(s', g)
      ensures g in s'.owner && TakenForRun(r, s', pf, pd, vp, i + 1, g, s'.owner[g])
    {
      if Free(s, g) {
        assert pg == Mapped(pg).page;
      } else {
        assert g in s.owner && TakenForRun(r, s, pf, pd, vp, i, g, s.owner[g]);
      }
    }
  }

  /** A page given a frame leaves the balance of tables missing and kernel frames as it was. */
  lemma TablesStillSuffice(s: Snap, s': Snap, pf: PoolFlag, pd: nat, lo: nat, hi: nat)
    requires Inv(s) && Directory(s, pd) && (pf.PF_USER? ==> pd in s.uv) && lo < hi && InSpace(s, PageAt(pf, pd, lo))
    requires GrantStep(s, s', pf, pd, PageAt(pf, pd, lo)) && Directory(s', pd)
    ensures TablesFor(s', pf, pd, lo + 1, hi) == TablesFor(s, pf, pd, lo, hi)
  {
    hide Inv, OnlyMoves, Look, OwnersKept, PagesIntact, NewTable;
    if pf.PF_USER? {
      InvSane(s);
      InvSane(s');
      SelfMap(s, pd);
      var slot := lo / 1024;
      var before, after := MissingSlots(s, pd, lo, hi), MissingSlots(s', pd, lo + 1, hi);
      if Present(s.mem[pd][slot]) {
        assert after == before;
      } else {
        assert after == before - {slot};
      }
    }
  }

  lemma TablesForNone(s: Snap, pf: PoolFlag, pd: nat, lo: nat)
    requires Inv(s) && Directory(s, pd)
    ensures TablesFor(s, pf, pd, lo, lo)
  {
    assert MissingSlots(s, pd, lo, lo) == {};
  }

  /** A page without a table and no kernel frame left: the supply of tables falls short. */
  lemma ShortOfTables(s: Snap, pf: PoolFlag, pd: nat, lo: nat, hi: nat)
    requires Inv(s) && lo < hi && Ready(s, pf, pd, PageAt(pf, pd, lo)) && s.kp.Sane()
    requires !TableReady(s, PageAt(pf, pd, lo))
    ensures pf.PF_USER? && pd in s.uv && Directory(s, pd) && !TablesFor(s, pf, pd, lo, hi)
  {
    ActiveSlot(s, pd, PageAt(pf, pd, lo));
    assert lo / 1024 in MissingSlots(s, pd, lo, hi);
  }

  // ---- mfree_page over a run ----

  /** One mapped page gone and its frame, and only that frame, back in the pool. */
  ghost predicate FreeStep(s: Snap, s': Snap, pg: Page)
    requires Inv(s) && InSpace(s, pg)
  {
    && Inv(s') && s'.kv == s.kv && s'.uv == s.uv && SameShape(s, s') && OnlyMoves(s, s', pg) && DirsKept(s, s')
    && Look(s, pg).Some? && Look(s', pg) == None
    && (forall g: nat :: Free(s', g) <==> Free(s, g) || Look(s, pg) == Some(g))
    && s'.owner == s.owner - {Look(s, pg).value} && DataKept(s, s')
  }

  /** No frame that stays mapped is written. */
  ghost predicate DataKept(s: Snap, s': Snap) {
    forall f | f in s.owner && f in s'.owner && s.owner[f].Mapped? && f < 0x10_0000 :: s'.mem[f] == s.mem[f]
  }

  ghost predicate DirsKept(s: Snap, s': Snap) {
    s'.mem[BOOT] == s.mem[BOOT] && forall d | d in s.uv && d < 0x10_0000 :: s'.mem[d] == s.mem[d]
  }

  /** Give back the frame and clear the present bit, in either order. */
  lemma FreeIsUnmapThenGive(s: Snap, pd: nat, pg: Page, w: Word, s': Snap)
    requires FreeablePage(s, pd, pg) && InSpace(s, pg) && Look(s, pg).Some? && s.kp.Sane() && s.up.Sane() && !Present(w)
    requires PoolOf(s, pg).Holds(Look(s, pg).value)
    requires var f := Look(s, pg).value;
             var s1 := s.(mem := Put(s.mem, FrameOf(Pde(s, pg)), pg.vp % 1024, w), owner := s.owner - {f});
             s' == if pg.UserPage? then s1.(up := s.up.Set(f, false)) else s1.(kp := s.kp.Set(f, false))
    ensures FreeStep(s, s', pg)
  {
    var f := Look(s, pg).value;
    var s1 := s.(mem := Put(s.mem, FrameOf(Pde(s, pg)), pg.vp % 1024, w), owner := s.owner - {f});
    UnmapPage(s, pg, w, s1);
    EntryMovesOnePage(s, pg, w, s1);
    GiveFrame(s1, f);
    SameView(s1, s');
  }

  /** `g` is the frame of one of the first `done` pages of the run. */
  ghost predicate RunFrame(r: Snap, pf: PoolFlag, pd: nat, vp: nat, done: nat, g: nat) {
    && g in r.owner && r.owner[g].Mapped? && InSpace(r, r.owner[g].page)
    && InRun(pf, pd, vp, done, r.owner[g].page) && Look(r, r.owner[g].page) == Some(g)
  }

  /** The first `done` pages of the run are unmapped and their frames, no others, are free again. */
  ghost predicate UnmappedRun(r: Snap, s: Snap, pf: PoolFlag, pd: nat, vp: nat, done: nat)
    requires Inv(r)
  {
    && Inv(s) && s.kv == r.kv && s.uv == r.uv && SameShape(r, s) && DirsKept(r, s)
    && (forall q | InSpace(r, q) :: Look(s, q) == if InRun(pf, pd, vp, done, q) then None else Look(r, q))
    && (forall g: nat :: Free(s, g) <==> Free(r, g) || RunFrame(r, pf, pd, vp, done, g))
    && s.owner.Keys <= r.owner.Keys && (forall g | g in s.owner :: s.owner[g] == r.owner[g])
    && (forall g | g in r.owner && !RunFrame(r, pf, pd, vp, done, g) :: g in s.owner) && DataKept(r, s)
  }

  /** Every page of the run is managed and mapped, to a frame that is not a live page directory. */
  ghost predicate RunIsMapped(r: Snap, pf: PoolFlag, pd: nat, vp: nat, cnt: nat) {
    && (pf.PF_USER? ==> pd in r.uv) && Base(pf) <= vp && vp + cnt <= 0x10_0000 && Directory(r, pd)
    && forall q | InRun(pf, pd, vp, cnt, q) :: Managed(r, q) && Look(r, q).Some? && Look(r, q).value !in r.uv
  }

  lemma UnmapStarts(r: Snap, pf: PoolFlag, pd: nat, vp: nat)
    requires Inv(r)
    ensures UnmappedRun(r, r, pf, pd, vp, 0)
  {
  }

  lemma NextMapped(r: Snap, s: Snap, pf: PoolFlag, pd: nat, vp: nat, i: nat, cnt: nat)
    requires Inv(r) && RunIsMapped(r, pf, pd, vp, cnt) && UnmappedRun(r, s, pf, pd, vp, i) && i < cnt
    ensures FreeablePage(s, pd, PageAt(pf, pd, vp + i)) && InSpace(s, PageAt(pf, pd, vp + i)) && vp + i < 0x10_0000
  {
    var pg := PageAt(pf, pd, vp + i);
    assert InRun(pf, pd, vp, cnt, pg) && !InRun(pf, pd, vp, i, pg);
    assert Look(s, pg) == Look(r, pg);
  }

  ghost predicate FreeablePage(s: Snap, pd: nat, pg: Page) {
    && Inv(s) && Directory(s, pd) && Managed(s, pg) && (pg.UserPage? ==> pg.pd == pd)
    && Look(s, pg).Some? && Look(s, pg).value !in s.uv
  }

  lemma FreeableFacts(s: Snap, pd: nat, pg: Page)
    requires FreeablePage(s, pd, pg)
    ensures Inv(s) && s.kp.Sane() && s.up.Sane() && InSpace(s, pg) && Look(s, pg).Some?
    ensures pd < 0x10_0000 && SelfMapped(s.mem, pd) && s.mem[pd][pg.vp / 1024] == Pde(s, pg) && Present(Pde(s, pg))
    ensures var f := Look(s, pg).value;
            && PoolOf(s, pg).Holds(f) && f >= 0x102 && (pg.UserPage? <==> f >= s.up.start)
            && Present(s.mem[FrameOf(Pde(s, pg))][pg.vp % 1024])
            && FrameOf(s.mem[FrameOf(Pde(s, pg))][pg.vp % 1024]) == f
  {
  }

  lemma UnmapGrows(r: Snap, s: Snap, s': Snap, pf: PoolFlag, pd: nat, vp: nat, i: nat, cnt: nat)
    requires Inv(r) && RunIsMapped(r, pf, pd, vp, cnt) && UnmappedRun(r, s, pf, pd, vp, i) && i < cnt
    requires FreeablePage(s, pd, PageAt(pf, pd, vp + i)) && InSpace(s, PageAt(pf, pd, vp + i))
    requires FreeStep(s, s', PageAt(pf, pd, vp + i))
    ensures UnmappedRun(r, s', pf, pd, vp, i + 1) && Inv(s') && Directory(s', pd)
  {
    hide Inv, OnlyMoves, Look, RunFrame, RunIsMapped;
    UnmapGrowsLooks(r, s, s', pf, pd, vp, i, cnt);
    RunFrameGrows(r, pf, pd, vp, i, cnt);
  }

  lemma UnmapGrowsLooks(r: Snap, s: Snap, s': Snap, pf: PoolFlag, pd: nat, vp: nat, i: nat, cnt: nat)
    requires Inv(r) && RunIsMapped(r, pf, pd, vp, cnt) && UnmappedRun(r, s, pf, pd, vp, i) && i < cnt
    requires FreeablePage(s, pd, PageAt(pf, pd, vp + i)) && FreeStep(s, s', PageAt(pf, pd, vp + i))
    ensures Look(s, PageAt(pf, pd, vp + i)) == Look(r, PageAt(pf, pd, vp + i))
    ensures forall q | InSpace(r, q) :: Look(s', q) == if InRun(pf, pd, vp, i + 1, q) then None else Look(r, q)
  {
    var pg := PageAt(pf, pd, vp + i);
    assert !InRun(pf, pd, vp, i, pg);
    forall q | InSpace(r, q)
      ensures Look(s', q) == if InRun(pf, pd, vp, i + 1, q) then None else Look(r, q)
    {
      if q != pg {
        assert InRun(pf, pd, vp, i + 1, q) == InRun(pf, pd, vp, i, q);
        assert Look(s', q) == Look(s, q);
      }
    }
  }

  lemma RunFrameGrows(r: Snap, pf: PoolFlag, pd: nat, vp: nat, i: nat, cnt: nat)
    requires Inv(r) && RunIsMapped(r, pf, pd, vp, cnt) && i < cnt
    ensures InSpace(r, PageAt(pf, pd, vp + i))
    ensures forall g: nat :: RunFrame(r, pf, pd, vp, i + 1, g) <==>
                             RunFrame(r, pf, pd, vp, i, g) || Look(r, PageAt(pf, pd, vp + i)) == Some(g)
  {
    var pg := PageAt(pf, pd, vp + i);
    assert InRun(pf, pd, vp, cnt, pg);
    var f := Look(r, pg).value;
    assert f in r.owner && r.owner[f] == Mapped(pg);
  }

  /** The whole of mfree_page: pages gone, frames free, virtual bits clear, nothing else changed. */
  ghost predicate ReleasedRun(r: Snap, s: Snap, pf: PoolFlag, pd: nat, vp: nat, cnt: nat)
    requires Inv(r)
  {
    && Inv(s) && SameShape(r, s) && DirsKept(r, s) && (pf.PF_USER? ==> pd in r.uv)
    && Base(pf) <= vp && vp - Base(pf) + cnt <= |VirtualMap(r, pf, pd)|
    && (var r' := WithVirtualMap(r, pf, pd, WithRun(VirtualMap(r, pf, pd), vp - Base(pf), cnt, false));
        s.kv == r'.kv && s.uv == r'.uv)
    && (forall q | InSpace(r, q) :: Look(s, q) == if InRun(pf, pd, vp, cnt, q) then None else Look(r, q))
    && (forall g: nat :: Free(s, g) <==> Free(r, g) || RunFrame(r, pf, pd, vp, cnt, g))
    && (forall g | g in r.owner && !RunFrame(r, pf, pd, vp, cnt, g) :: g in s.owner && s.owner[g] == r.owner[g])
    && DataKept(r, s)
  }

  lemma ReleaseRun(r: Snap, m: Snap, s: Snap, pf: PoolFlag, pd: nat, vp: nat, cnt: nat)
    requires Inv(r) && UnmappedRun(r, m, pf, pd, vp, cnt) && RunInMap(r, pf, pd, vp, cnt) && Directory(r, pd)
    requires s == WithVirtualMap(m, pf, pd, WithRun(VirtualMap(m, pf, pd), vp - Base(pf), cnt, false))
    ensures ReleasedRun(r, s, pf, pd, vp, cnt) && Inv(s) && Directory(s, pd)
  {
    hide Inv, RunFrame, Trans;
    InvSane(r);
    InvSane(m);
    SameView(m, s);
    forall pg | Managed(m, pg) && Look(m, pg).Some? && VirtualBit(m, pg)
      ensures VirtualBit(s, pg)
    {
      assert !InRun(pf, pd, vp, cnt, pg);
    }
    SetVirtualBits(m, s);
  }

  /** A mapped run lies inside its virtual bitmap. */
  lemma MappedRunInMap(r: Snap, m: Snap, pf: PoolFlag, pd: nat, vp: nat, cnt: nat)
    requires Inv(r) && RunIsMapped(r, pf, pd, vp, cnt) && 1 <= cnt && UnmappedRun(r, m, pf, pd, vp, cnt)
    ensures RunInMap(r, pf, pd, vp, cnt) && RunInMap(m, pf, pd, vp, cnt) && Directory(r, pd)
  {
    var last := PageAt(pf, pd, vp + cnt - 1);
    assert InRun(pf, pd, vp, cnt, last);
    assert VirtualBit(r, last);
  }

  predicate RunInMap(r: Snap, pf: PoolFlag, pd: nat, vp: nat, cnt: nat) {
    (pf.PF_USER? ==> pd in r.uv) && Base(pf) <= vp && vp - Base(pf) + cnt <= |VirtualMap(r, pf, pd)|
  }

  // ---- malloc_page then mfree_page ----

  /** What malloc_page mapped, mfree_page may free. */
  lemma FreshRunIsMapped(s: Snap, r: Snap, m: Snap, pf: PoolFlag, pd: nat, vp: nat, cnt: nat)
    requires Inv(s) && Inv(r) && Directory(s, pd) && (pf.PF_USER? ==> pd in s.uv)
    requires ReservedRun(s, r, pf, pd, vp, cnt) && MappedRun(r, m, pf, pd, vp, cnt)
    ensures RunIsMapped(m, pf, pd, vp, cnt)
  {
    ReservedIsFresh(s, r, pf, pd, vp, cnt);
    forall q | InRun(pf, pd, vp, cnt, q)
      ensures Managed(m, q) && Look(m, q).Some? && Look(m, q).value !in m.uv
    {
      assert Managed(r, q);
      assert Look(m, q).Some? && Free(r, Look(m, q).value);
    }
  }

  /** Both bitmaps and every translation are as before; a frame still taken holds a new page table of `pd`. */
  ghost predicate Restored(s: Snap, z: Snap, pf: PoolFlag, pd: nat)
    requires Inv(s) && Inv(z) && Directory(s, pd)
  {
    && z.kv == s.kv && z.uv == s.uv && z.up == s.up && (pf.PF_KERNEL? ==> z.kp == s.kp)
    && (forall q | InSpace(s, q) :: Look(z, q) == Look(s, q))
    && (forall g | Free(z, g) :: Free(s, g))
    && (forall g | Free(s, g) && !Free(z, g) :: exists i: nat :: i < 768 && LinkedSince(s, z, pd, i, g))
  }

  ghost predicate LinkedSince(s: Snap, z: Snap, pd: nat, i: nat, g: nat)
    requires Inv(s) && Inv(z) && Directory(s, pd) && i < 1024
  {
    !Present(s.mem[pd][i]) && Present(z.mem[pd][i]) && FrameOf(z.mem[pd][i]) == g
  }

  lemma RunsGive(r: Snap, m: Snap, z: Snap, pf: PoolFlag, pd: nat, vp: nat, cnt: nat)
    requires Inv(r) && MappedRun(r, m, pf, pd, vp, cnt) && ReleasedRun(m, z, pf, pd, vp, cnt)
    ensures Inv(m) && Inv(z)
  {
  }

  lemma FreeingUndoesAllocating(s: Snap, r: Snap, m: Snap, z: Snap, pf: PoolFlag, pd: nat, vp: nat, cnt: nat)
    requires Inv(s) && Inv(r) && Directory(s, pd) && (pf.PF_USER? ==> pd in s.uv) && Base(pf) <= vp
    requires ReservedRun(s, r, pf, pd, vp, cnt) && MappedRun(r, m, pf, pd, vp, cnt)
    requires ReleasedRun(m, z, pf, pd, vp, cnt)
    ensures Restored(s, z, pf, pd)
  {
    hide Inv, ReservedRun, MappedRun, ReleasedRun, RunIsFresh, LinkedSince, Look;
    ReservedIsFresh(s, r, pf, pd, vp, cnt);
    VirtualBitsRestored(s, r, m, z, pf, pd, vp, cnt);
    FramesRestored(s, r, m, z, pf, pd, vp, cnt);
    InvSane(s);
    RunsGive(r, m, z, pf, pd, vp, cnt);
    InvSane(z);
    SamePool(s, z, pf);
  }

  lemma VirtualBitsRestored(s: Snap, r: Snap, m: Snap, z: Snap, pf: PoolFlag, pd: nat, vp: nat, cnt: nat)
    requires Inv(s) && Inv(r) && Directory(s, pd) && (pf.PF_USER? ==> pd in s.uv) && Base(pf) <= vp
    requires ReservedRun(s, r, pf, pd, vp, cnt) && MappedRun(r, m, pf, pd, vp, cnt)
    requires ReleasedRun(m, z, pf, pd, vp, cnt)
    ensures z.kv == s.kv && z.uv == s.uv
    ensures forall q | InSpace(s, q) :: Look(z, q) == Look(s, q)
  {
    hide Inv, OwnersKept, PagesIntact, OtherDirsKept, TakenForRun, RunFrame, DataKept, DirsKept, SameShape, Free, Trans;
    var bits, start := VirtualMap(s, pf, pd), vp - Base(pf);
    assert WithRun(WithRun(bits, start, cnt, true), start, cnt, false) == bits;
    assert VirtualMap(m, pf, pd) == WithRun(bits, start, cnt, true);
    SameView(s, r);
    forall q | InSpace(s, q)
      ensures Look(z, q) == Look(s, q)
    {
      if InRun(pf, pd, vp, cnt, q) {
        assert Look(s, q).None?;
      }
    }
  }

  lemma FramesRestored(s: Snap, r: Snap, m: Snap, z: Snap, pf: PoolFlag, pd: nat, vp: nat, cnt: nat)
    requires Inv(s) && Inv(r) && Directory(s, pd) && (pf.PF_USER? ==> pd in s.uv) && Base(pf) <= vp
    requires ReservedRun(s, r, pf, pd, vp, cnt) && MappedRun(r, m, pf, pd, vp, cnt)
    requires ReleasedRun(m, z, pf, pd, vp, cnt)
    ensures SameShape(s, z) && z.uv.Keys == s.uv.Keys
    ensures forall g | Free(z, g) :: Free(s, g)
    ensures forall g | Free(s, g) && !Free(z, g) :: pf.PF_USER? && s.kp.Holds(g) && exists i: nat ::
              i < 768 && LinkedSince(s, z, pd, i, g)
  {
    hide Inv, Look, RunFrame, TakenForRun, LinkedSince, OwnersKept, PagesIntact;
    InvSane(s);
    InvSane(z);
    forall g | Free(s, g) && !Free(z, g)
      ensures pf.PF_USER? && s.kp.Holds(g) && exists i: nat :: i < 768 && LinkedSince(s, z, pd, i, g)
    {
      StillTakenIsTable(s, r, m, z, pf, pd, vp, cnt, g);
    }
    forall g | Free(z, g)
      ensures Free(s, g)
    {
      FreeAgainWasFree(s, r, m, z, pf, pd, vp, cnt, g);
    }
  }

  lemma StillTakenIsTable(s: Snap, r: Snap, m: Snap, z: Snap, pf: PoolFlag, pd: nat, vp: nat, cnt: nat, g: nat)
    requires Inv(s) && Inv(r) && Directory(s, pd) && (pf.PF_USER? ==> pd in s.uv) && Base(pf) <= vp
    requires ReservedRun(s, r, pf, pd, vp, cnt) && MappedRun(r, m, pf, pd, vp, cnt)
    requires ReleasedRun(m, z, pf, pd, vp, cnt)
    requires Free(s, g) && !Free(z, g)
    ensures pf.PF_USER? && s.kp.Holds(g) && exists i: nat :: i < 768 && LinkedSince(s, z, pd, i, g)
  {
    assert r.kp == s.kp && r.up == s.up && r.mem == s.mem;
    assert Free(r, g) && !Free(m, g) && !RunFrame(m, pf, pd, vp, cnt, g);
    assert TakenForRun(r, m, pf, pd, vp, cnt, g, m.owner[g]);
    assert m.owner[g].UserTable?;
    var i := m.owner[g].slot;
    assert z.mem[pd] == m.mem[pd];
    assert LinkedSince(s, z, pd, i, g);
  }

  lemma FreeAgainWasFree(s: Snap, r: Snap, m: Snap, z: Snap, pf: PoolFlag, pd: nat, vp: nat, cnt: nat, g: nat)
    requires Inv(s) && Inv(r) && Directory(s, pd) && (pf.PF_USER? ==> pd in s.uv) && Base(pf) <= vp
    requires ReservedRun(s, r, pf, pd, vp, cnt) && MappedRun(r, m, pf, pd, vp, cnt)
    requires ReleasedRun(m, z, pf, pd, vp, cnt)
    requires Free(z, g)
    ensures Free(s, g)
  {
    if RunFrame(m, pf, pd, vp, cnt, g) {
      assert Free(r, Look(m, m.owner[g].page).value);
    }
  }

  lemma SamePool(s: Snap, z: Snap, pf: PoolFlag)
    requires PoolsSane(s) && PoolsSane(z) && SameShape(s, z)
    requires forall g | Free(z, g) :: Free(s, g)
    requires forall g | Free(s, g) && !Free(z, g) :: pf.PF_USER? && s.kp.Holds(g)
    ensures z.up == s.up && (pf.PF_KERNEL? ==> z.kp == s.kp)
  {
    forall i: nat | i < |s.up.bits|
      ensures z.up.bits[i] == s.up.bits[i]
    {
      assert Free(s, s.up.start + i) == Free(z, s.up.start + i);
    }
    if pf.PF_KERNEL? {
      forall i: nat | i < |s.kp.bits|
        ensures z.kp.bits[i] == s.kp.bits[i]
      {
        assert Free(s, s.kp.start + i) == Free(z, s.kp.start + i);
      }
      assert z.kp.bits == s.kp.bits;
    }
    assert z.up.bits == s.up.bits;
  }
}
