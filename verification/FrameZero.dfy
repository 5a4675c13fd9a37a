/**
 * page_table_add in every state, an exhausted kernel pool included: palloc's 0 is not tested there, so frame 0
 * becomes a page table. The exact memory, when the pools survive it, and what a second such table does.
 */
module FrameZero {
  import opened Options
  import opened Paging
  import opened Pools
  import opened PageSteps
  import Bitmaps

  /** The frame palloc hands out next, 0 when it finds none. */
  function NextFrame(p: Pool): (f: nat)
    requires p.Sane()
    ensures f == 0 <==> p.Allocatable() == {}
    ensures f != 0 ==> p.Free(f) && f - p.start in p.Allocatable()
    ensures f != 0 ==> forall i | i in p.Allocatable() :: p.start + i >= f
  {
    SearchSingle(p);
    var idx := Bitmaps.FirstFit(p.bits, p.len, 1);
    if idx == -1 then 0 else p.start + idx
  }

  lemma SearchSingle(p: Pool)
    requires p.Sane()
    ensures var idx := Bitmaps.FirstFit(p.bits, p.len, 1);
            if idx == -1 then p.Allocatable() == {}
            else idx >= 0 && idx in p.Allocatable() && forall i | i in p.Allocatable() :: i >= idx
  {
    var idx := Bitmaps.FirstFit(p.bits, p.len, 1);
    if idx == -1 {
      forall i: nat | i < p.len - 1
        ensures p.bits[i]
      {
        assert !Bitmaps.Fits(p.bits, i, 1);
      }
    } else {
      assert Bitmaps.Fits(p.bits, idx, 1);
      forall i | i in p.Allocatable()
        ensures i >= idx
      {
        assert Bitmaps.Fits(p.bits, i, 1);
      }
    }
  }

  function WithPool(s: Snap, pf: PoolFlag, p: Pool): Snap {
    if pf.PF_KERNEL? then s.(kp := p) else s.(up := p)
  }

  /** The state after palloc. */
  function Taken(s: Snap, pf: PoolFlag): Snap
    requires PoolFor(s, pf).Sane()
  {
    var f := NextFrame(PoolFor(s, pf));
    if f == 0 then s else WithPool(s, pf, PoolFor(s, pf).Set(f, true))
  }

  lemma TakenIsTakeStep(s: Snap, pf: PoolFlag)
    requires Inv(s)
    ensures NextFrame(PoolFor(s, pf)) != 0 ==> TakeStep(s, Taken(s, pf), pf, NextFrame(PoolFor(s, pf)))
  {
    var f := NextFrame(PoolFor(s, pf));
    if f != 0 {
      TakeFrame(s, f);
      assert Free(s, f);
      AllocatableLess(PoolFor(s, pf), f);
    }
  }

  lemma AllocatableLess(p: Pool, f: nat)
    requires p.Sane() && p.Free(f) && f - p.start in p.Allocatable()
    ensures p.Set(f, true).Allocatable() == p.Allocatable() - {f - p.start}
    ensures |p.Set(f, true).Allocatable()| + 1 == |p.Allocatable()|
  {
    var left := p.Set(f, true).Allocatable();
    assert left == p.Allocatable() - {f - p.start};
  }

  /** What page_table_add's loads and stores need, whatever else the tables hold. */
  ghost predicate Drivable(s: Snap, pd: nat) {
    && PoolsSane(s) && 0 < pd < 0x10_0000 && SelfMapped(s.mem, pd) && !s.kp.Free(pd)
  }

  lemma ValidDrives(s: Snap, pd: nat)
    requires Inv(s) && Directory(s, pd)
    ensures Drivable(s, pd)
  {
    assert pd in s.owner;
  }

  /** The missing-table branch: palloc's frame, or frame 0, linked into the slot and zeroed. */
  ghost function Linked(s: Snap, pd: nat, slot: nat): Snap
    requires Drivable(s, pd) && slot < 1024
  {
    var t := NextFrame(s.kp);
    var linked := Taken(s, PF_KERNEL).(mem := Put(s.mem, pd, slot, EntryFor(t))[t := ZeroFrame()]);
    if t == 0 then linked else linked.(owner := s.owner[t := UserTable(pd, slot)])
  }

  function PageOf(pd: nat, vp: nat): Page { if vp < KERNEL_HALF then UserPage(pd, vp) else KernelPage(vp) }

  /** The entry of page `vp` filled in. */
  ghost function Filled(s: Snap, pd: nat, vp: nat, f: nat): Snap
    requires pd < 0x10_0000 && vp < 0x10_0000 && f < 0x10_0000
  {
    s.(mem := Put(s.mem, FrameOf(s.mem[pd][vp / 1024]), vp % 1024, EntryFor(f)),
      owner := s.owner[f := Mapped(PageOf(pd, vp))])
  }

  /** The state after page_table_add. */
  ghost function Added(s: Snap, pd: nat, vp: nat, f: nat): Snap
    requires Drivable(s, pd) && vp < 0x10_0000 && f < 0x10_0000
  {
    Filled(if Present(s.mem[pd][vp / 1024]) then s else Linked(s, pd, vp / 1024), pd, vp, f)
  }

  /** No choice of owners makes the invariant hold again. */
  ghost predicate Lost(s: Snap) { forall o: map<nat, Owner> :: !Inv(WithOwner(s, o)) }

  function WithOwner(s: Snap, o: map<nat, Owner>): Snap { s.(owner := o) }

  /** Frame 0 lies in no pool, so a directory that names it as a page table is beyond repair. */
  lemma FrameZeroIsLost(s: Snap, pd: nat, slot: nat)
    requires pd in s.uv && pd < 0x10_0000 && slot < 768 && s.mem[pd][slot] == EntryFor(0)
    ensures Lost(s)
  {
    forall o: map<nat, Owner>
      ensures !Inv(WithOwner(s, o))
    {
      var z := WithOwner(s, o);
      assert Present(z.mem[pd][slot]) && FrameOf(z.mem[pd][slot]) == 0;
    }
  }

  /** With a table, or a frame for one, page_table_add maps the page and keeps the invariant. */
  lemma AddedMaps(s: Snap, pd: nat, pg: Page, f: nat)
    requires Inv(s) && CanMap(s, pd, pg, f) && Drivable(s, pd) && TableReady(s, pg)
    ensures pg.vp < 0x10_0000 && f < 0x10_0000 && MapStep(s, Added(s, pd, pg.vp, f), pd, pg, f)
  {
    hide Inv, MapStep, TableStep, FillStep, CanMap, Drivable, TablesGrow, OnlyMoves;
    CanMapGives(s, pd, pg, f);
    CanMapFrame(s, pd, pg, f);
    ActiveEntry(s, pd, pg);
    var s1 := if Present(s.mem[pd][pg.vp / 1024]) then s else Linked(s, pd, pg.vp / 1024);
    if !Present(s.mem[pd][pg.vp / 1024]) {
      ActiveSlot(s, pd, pg);
      LinkedIsTableStep(s, pd, pg.vp / 1024);
    }
    AfterTable(s, s1, pd, pg, f);
    CanMapGives(s1, pd, pg, f);
    ActiveEntry(s1, pd, pg);
    var s2 := Filled(s1, pd, pg.vp, f);
    MapPageEffect(s1, pd, pg, f, s2);
    GrowThenFill(s, s1, s2, pd, pg, f);
  }

  lemma CanMapFrame(s: Snap, pd: nat, pg: Page, f: nat)
    requires Inv(s) && CanMap(s, pd, pg, f)
    ensures f < 0x10_0000 && pg == PageOf(pd, pg.vp) && pg.vp < WINDOW && Look(s, pg).None? && s.kp.Sane()
  {
  }

  lemma LinkedIsTableStep(s: Snap, pd: nat, slot: nat)
    requires Inv(s) && Drivable(s, pd) && pd in s.uv && slot < 768 && !Present(s.mem[pd][slot])
    requires s.kp.Allocatable() != {}
    ensures TableStep(s, Linked(s, pd, slot), pd, slot)
    ensures Inv(Linked(s, pd, slot))
  {
    TakenIsTakeStep(s, PF_KERNEL);
    LinkTableEffect(s, Taken(s, PF_KERNEL), pd, slot, NextFrame(s.kp), Linked(s, pd, slot));
  }

  /** Without either, the slot names frame 0, which holds one entry; neither pool changes. */
  lemma AddedBreaks(s: Snap, pd: nat, pg: Page, f: nat)
    requires Inv(s) && CanMap(s, pd, pg, f) && Drivable(s, pd) && !TableReady(s, pg)
    ensures pg.vp < 0x10_0000 && f < 0x10_0000 && pd in s.uv && pg.vp / 1024 < 768
    ensures var s' := Added(s, pd, pg.vp, f);
            && s'.kp == s.kp && s'.up == s.up && s'.kv == s.kv && s'.uv == s.uv
            && s'.mem[pd] == s.mem[pd][pg.vp / 1024 := EntryFor(0)]
            && (forall g: nat | 0 < g < 0x10_0000 && g != pd :: s'.mem[g] == s.mem[g])
            && (forall j: nat | j < 1024 :: s'.mem[0][j] == if j == pg.vp % 1024 then EntryFor(f) else 0)
            && Lost(s')
  {
    CanMapFrame(s, pd, pg, f);
    ActiveSlot(s, pd, pg);
    var s' := Added(s, pd, pg.vp, f);
    FrameZeroIsLost(s', pd, pg.vp / 1024);
  }

  /** page_table_add keeps the invariant exactly when the table is there or the kernel pool can supply one. */
  lemma AddedKeepsIff(s: Snap, pd: nat, pg: Page, f: nat)
    requires Inv(s) && CanMap(s, pd, pg, f) && Drivable(s, pd)
    ensures pg.vp < 0x10_0000 && f < 0x10_0000
    ensures Inv(Added(s, pd, pg.vp, f)) <==> TableReady(s, pg)
  {
    CanMapFrame(s, pd, pg, f);
    if TableReady(s, pg) {
      AddedMaps(s, pd, pg, f);
    } else {
      AddedBreaks(s, pd, pg, f);
      var s' := Added(s, pd, pg.vp, f);
      assert WithOwner(s', s'.owner) == s';
    }
  }

  /** page_table_add's two outcomes. */
  lemma AddedEither(s: Snap, pd: nat, pg: Page, f: nat)
    requires Inv(s) && CanMap(s, pd, pg, f) && Drivable(s, pd)
    ensures pg.vp < 0x10_0000 && f < 0x10_0000 && Directory(s, pd) && InSpace(s, pg) && s.kp.Sane()
    ensures if TableReady(s, pg) then MapStep(s, Added(s, pd, pg.vp, f), pd, pg, f) else Lost(Added(s, pd, pg.vp, f))
  {
    CanMapGives(s, pd, pg, f);
    CanMapFrame(s, pd, pg, f);
    if TableReady(s, pg) {
      AddedMaps(s, pd, pg, f);
    } else {
      AddedBreaks(s, pd, pg, f);
    }
  }

  /** The table just linked is there and holds nothing. */
  lemma LinkedReceives(s: Snap, pd: nat, vp: nat)
    requires Receptive(s, pd, vp) && !Present(s.mem[pd][vp / 1024])
    ensures Receptive(Linked(s, pd, vp / 1024), pd, vp) && Present(Linked(s, pd, vp / 1024).mem[pd][vp / 1024])
  {
  }

  /** A second table on frame 0 erases the first: both slots then show the one new page and nothing else. */
  lemma SecondTableErases(s: Snap, pd: nat, first: nat, vp: nat, f: nat, j: nat)
    requires Drivable(s, pd) && s.kp.Allocatable() == {} && f < 0x10_0000 && j < 1024
    requires first < 768 && s.mem[pd][first] == EntryFor(0)
    requires vp < KERNEL_HALF && !Present(s.mem[pd][vp / 1024])
    ensures var mem := Added(s, pd, vp, f).mem;
            && Trans(mem, pd, first * 1024 + j) == (if j == vp % 1024 then Some(f) else None)
            && Trans(mem, pd, vp / 1024 * 1024 + j) == Trans(mem, pd, first * 1024 + j)
  {
    assert (first * 1024 + j) / 1024 == first && (first * 1024 + j) % 1024 == j;
    assert (vp / 1024 * 1024 + j) / 1024 == vp / 1024 && (vp / 1024 * 1024 + j) % 1024 == j;
  }

  // ---- malloc_page after the tables ran out ----

  /**
   * The rest of malloc_page's loop once the kernel pool failed it in the sound state `b`: every slot of the
   * directory is as in `b` or names frame 0, and the pages still to come are unmapped.
   */
  ghost predicate Adrift(b: Snap, s: Snap, pd: nat, vp: nat, i: nat, cnt: nat) {
    && Inv(b) && Drivable(s, pd) && pd in b.uv && pd in s.uv && vp + cnt <= KERNEL_HALF && 0 < i <= cnt
    && s.kp.Allocatable() == {}
    && (forall k: nat | k < 768 :: s.mem[pd][k] == b.mem[pd][k] || OnFrameZero(b, s, pd, k, vp + i))
    && (exists k: nat :: k < 768 && s.mem[pd][k] == EntryFor(0))
    && (forall v: nat | vp + i <= v < vp + cnt :: Trans(s.mem, pd, v).None?)
  }

  /** Slot `k`, empty in `b`, was given frame 0 before page `v` was reached. */
  ghost predicate OnFrameZero(b: Snap, s: Snap, pd: nat, k: nat, v: nat)
    requires pd < 0x10_0000 && k < 768 && 0 < v
  {
    s.mem[pd][k] == EntryFor(0) && !Present(b.mem[pd][k]) && k <= (v - 1) / 1024
  }

  lemma AdriftIsLost(b: Snap, s: Snap, pd: nat, vp: nat, i: nat, cnt: nat)
    requires Adrift(b, s, pd, vp, i, cnt)
    ensures Lost(s) && Drivable(s, pd) && pd in s.uv && s.kp.Allocatable() == {} && s.up.Sane()
    ensures vp + cnt <= KERNEL_HALF
    ensures i < cnt ==> Trans(s.mem, pd, vp + i).None?
  {
    var k: nat :| k < 768 && s.mem[pd][k] == EntryFor(0);
    FrameZeroIsLost(s, pd, k);
  }

  /** The tables of a sound directory are apart from each other, from the directory and from frame 0. */
  lemma TablesApart(b: Snap, pd: nat, k: nat, l: nat)
    requires Inv(b) && pd in b.uv && k < 768 && l < 768 && Present(b.mem[pd][k])
    ensures pd < 0x10_0000 && FrameOf(b.mem[pd][k]) != pd && FrameOf(b.mem[pd][k]) != 0
    ensures k != l && Present(b.mem[pd][l]) ==> FrameOf(b.mem[pd][l]) != FrameOf(b.mem[pd][k])
  {
  }

  /** The state after palloc and page_table_add: one page of malloc_page's loop. */
  ghost function Granted(s: Snap, pf: PoolFlag, pd: nat, vp: nat): Snap
    requires Drivable(s, pd) && vp < 0x10_0000 && PoolFor(s, pf).Allocatable() != {}
  {
    TakenDrives(s, pf, pd);
    Added(Taken(s, pf), pd, vp, NextFrame(PoolFor(s, pf)))
  }

  lemma TakenDrives(s: Snap, pf: PoolFlag, pd: nat)
    requires Drivable(s, pd)
    ensures Drivable(Taken(s, pf), pd) && Taken(s, pf).mem == s.mem
    ensures pf.PF_USER? ==> Taken(s, pf).kp == s.kp && Taken(s, pf).uv == s.uv
  {
  }

  /** With its table there or to be had, the page is granted as palloc and page_table_add promise. */
  lemma GrantedMaps(s: Snap, pf: PoolFlag, pd: nat, pg: Page)
    requires Inv(s) && Drivable(s, pd) && Grantable(s, pf, pd, pg) && PoolFor(s, pf).Allocatable() != {}
    ensures pg.vp < 0x10_0000 && Directory(s, pd) && GrantStep(s, Granted(s, pf, pd, pg.vp), pf, pd, pg)
  {
    hide Inv, Drivable, CanMap, MapStep, GrantStep, TakeStep;
    InvSane(s);
    var taken, f := Taken(s, pf), NextFrame(PoolFor(s, pf));
    TakenIsTakeStep(s, pf);
    TakenSound(s, taken, pf, f);
    TakenDrives(s, pf, pd);
    TakenCanMap(s, taken, pf, pd, pg, f);
    AddedMaps(taken, pd, pg, f);
    GrantIsTakeThenMap(s, taken, Granted(s, pf, pd, pg.vp), pf, pd, pg.vp, f);
  }

  lemma TakenSound(s: Snap, taken: Snap, pf: PoolFlag, f: nat)
    requires Inv(s) && TakeStep(s, taken, pf, f)
    ensures Inv(taken)
  {
  }

  lemma GrantedEither(s: Snap, pf: PoolFlag, pd: nat, pg: Page)
    requires Inv(s) && Drivable(s, pd) && Ready(s, pf, pd, pg) && PoolFor(s, pf).Allocatable() != {}
    ensures pg.vp < 0x10_0000 && InSpace(s, pg) && s.kp.Sane() && Directory(s, pd)
    ensures var s' := Granted(s, pf, pd, pg.vp);
            if TableReady(s, pg) then Inv(s') && Directory(s', pd) && GrantStep(s, s', pf, pd, pg) else Lost(s')
  {
    hide Inv, Drivable, TableReady, Lost, Granted, Adrift, Ready;
    ReadyReceives(s, pf, pd, pg);
    if TableReady(s, pg) {
      GrantedMaps(s, pf, pd, pg);
      GrantSound(s, Granted(s, pf, pd, pg.vp), pf, pd, pg);
    } else {
      GrantedBreaks(s, pf, pd, pg.vp, 0, 1);
      AdriftIsLost(s, Granted(s, pf, pd, pg.vp), pd, pg.vp, 1, 1);
    }
  }

  lemma GrantSound(s: Snap, s': Snap, pf: PoolFlag, pd: nat, pg: Page)
    requires Inv(s) && Directory(s, pd) && InSpace(s, pg) && GrantStep(s, s', pf, pd, pg)
    ensures Inv(s') && Directory(s', pd)
  {
  }

  /** A page after `v` that was unmapped stays so when the slot of `v` is given frame 0. */
  lemma UntouchedPage(s: Snap, s': Snap, pd: nat, v: nat, u: nat)
    requires Inv(s) && 0 < pd < 0x10_0000 && pd in s.uv && v < u < KERNEL_HALF && Trans(s.mem, pd, u).None?
    requires s'.mem[pd] == s.mem[pd][v / 1024 := EntryFor(0)]
    requires forall j: nat | j < 1024 && j != v % 1024 :: s'.mem[0][j] == 0
    requires forall g: nat | 0 < g < 0x10_0000 && g != pd :: s'.mem[g] == s.mem[g]
    ensures Trans(s'.mem, pd, u).None?
  {
    hide Inv;
    if u / 1024 == v / 1024 {
      assert u % 1024 != v % 1024;
    } else if Present(s.mem[pd][u / 1024]) {
      TablesApart(s, pd, u / 1024, 0);
    }
  }

  /** Without, the state is lost, and the loop goes on adrift. */
  lemma GrantedBreaks(s: Snap, pf: PoolFlag, pd: nat, vp: nat, i: nat, cnt: nat)
    requires Inv(s) && Drivable(s, pd) && i < cnt && PoolFor(s, pf).Allocatable() != {} && vp + cnt <= 0x10_0000
    requires forall v: nat | vp + i <= v < vp + cnt :: Ready(s, pf, pd, PageAt(pf, pd, v))
    requires Ready(s, pf, pd, PageAt(pf, pd, vp + i)) && !TableReady(s, PageAt(pf, pd, vp + i))
    ensures pf.PF_USER? && Adrift(s, Granted(s, pf, pd, vp + i), pd, vp, i + 1, cnt)
  {
    hide Inv, GrantStep, TakeStep, CanMap, Added;
    var taken, f, v := Taken(s, pf), NextFrame(PoolFor(s, pf)), vp + i;
    var k, s' := v / 1024, Granted(s, pf, pd, v);
    TakenIsTakeStep(s, pf);
    TakenSound(s, taken, pf, f);
    TakenDrives(s, pf, pd);
    TakenCanMap(s, taken, pf, pd, PageAt(pf, pd, v), f);
    ActiveEntry(s, pd, PageAt(pf, pd, v));
    ActiveSlot(s, pd, PageAt(pf, pd, v));
    AddedBreaks(taken, pd, PageAt(pf, pd, v), f);
    assert Ready(s, pf, pd, PageAt(pf, pd, vp + cnt - 1));
    assert OnFrameZero(s, s', pd, k, v + 1);
    forall u: nat | v < u < vp + cnt
      ensures Trans(s'.mem, pd, u).None?
    {
      assert Ready(s, pf, pd, PageAt(pf, pd, u));
      UntouchedPage(s, s', pd, v, u);
    }
  }

  /** The loop's next page, after the break. */
  lemma DriftOn(b: Snap, s: Snap, pd: nat, vp: nat, i: nat, cnt: nat, f: nat)
    requires Adrift(b, s, pd, vp, i, cnt) && i < cnt && f < 0x10_0000
    ensures Adrift(b, Added(s, pd, vp + i, f), pd, vp, i + 1, cnt)
  {
    hide Inv;
    var v := vp + i;
    var k, s' := v / 1024, Added(s, pd, v, f);
    EntrySettles(b, s, pd, vp, i, cnt, f);
    forall u: nat | v < u < vp + cnt
      ensures Trans(s'.mem, pd, u).None?
    {
      LaterPageStays(b, s, pd, vp, i, cnt, f, u);
    }
  }

  /** The directory row after one more page. */
  lemma EntrySettles(b: Snap, s: Snap, pd: nat, vp: nat, i: nat, cnt: nat, f: nat)
    requires Adrift(b, s, pd, vp, i, cnt) && i < cnt && f < 0x10_0000
    ensures var s', k := Added(s, pd, vp + i, f), (vp + i) / 1024;
            && s'.kp == s.kp && s'.up == s.up && s'.uv == s.uv
            && (Present(s.mem[pd][k]) ==> s'.mem[pd] == s.mem[pd])
            && (!Present(s.mem[pd][k]) ==> s'.mem[pd] == s.mem[pd][k := EntryFor(0)])
  {
    hide Inv;
    var k := (vp + i) / 1024;
    if Present(s.mem[pd][k]) && s.mem[pd][k] == b.mem[pd][k] {
      TablesApart(b, pd, k, k);
    }
  }

  lemma LaterPageStays(b: Snap, s: Snap, pd: nat, vp: nat, i: nat, cnt: nat, f: nat, u: nat)
    requires Adrift(b, s, pd, vp, i, cnt) && i < cnt && f < 0x10_0000 && vp + i < u < vp + cnt
    ensures Trans(Added(s, pd, vp + i, f).mem, pd, u).None?
  {
    hide Inv;
    var v := vp + i;
    var k, l, s' := v / 1024, u / 1024, Added(s, pd, v, f);
    EntrySettles(b, s, pd, vp, i, cnt, f);
    assert Trans(s.mem, pd, u).None?;
    if l == k {
      assert u % 1024 != v % 1024;
    } else {
      assert s.mem[pd][l] == b.mem[pd][l];
      if Present(b.mem[pd][l]) {
        TablesApart(b, pd, l, k);
      }
    }
  }

  /** What one round of the loop needs to run at all. */
  ghost predicate Receptive(s: Snap, pd: nat, vp: nat) {
    Drivable(s, pd) && vp < WINDOW && Trans(s.mem, pd, vp).None?
  }

  lemma ReadyReceives(s: Snap, pf: PoolFlag, pd: nat, pg: Page)
    requires Inv(s) && Ready(s, pf, pd, pg)
    ensures Receptive(s, pd, pg.vp) && Directory(s, pd) && InSpace(s, pg) && s.kp.Sane()
    ensures pg == PageOf(pd, pg.vp) && pg == PageAt(pf, pd, pg.vp)
  {
    ValidDrives(s, pd);
    ActiveEntry(s, pd, pg);
  }

  /**
   * malloc_page's loop after `i` of `cnt` pages, the pool having held `have` frames at first: all is well and
   * the balance of tables is what it was, or the tables were not enough and the state is adrift.
   */
  ghost predicate Looping(r: Snap, s: Snap, pf: PoolFlag, pd: nat, vp: nat, i: nat, cnt: nat, have: nat, enough: bool) {
    && PoolsSane(s) && |PoolFor(s, pf).Allocatable()| + i == have && i <= cnt && vp + cnt <= 0x10_0000
    && s.kv == r.kv && s.uv == r.uv
    && (Sailing(r, s, pf, pd, vp, i, cnt, have, enough) || (!enough && pf.PF_USER? && HasDrifted(s, pd, vp, i, cnt)))
  }

  ghost predicate Sailing(r: Snap, s: Snap, pf: PoolFlag, pd: nat, vp: nat, i: nat, cnt: nat, have: nat, enough: bool) {
    && RunState(r, s, pf, pd, vp, i, cnt) && Inv(s) && Directory(s, pd) && i <= have
    && TablesFor(s, pf, pd, vp + i, vp + if cnt <= have then cnt else have) == enough
  }

  ghost predicate HasDrifted(s: Snap, pd: nat, vp: nat, i: nat, cnt: nat) { exists b :: Adrift(b, s, pd, vp, i, cnt) }

  lemma GrantableReceives(s: Snap, pf: PoolFlag, pd: nat, pg: Page)
    requires Inv(s) && Grantable(s, pf, pd, pg)
    ensures Receptive(s, pd, pg.vp) && Ready(s, pf, pd, pg) && InSpace(s, pg) && s.kp.Sane() && TableReady(s, pg)
  {
    ReadyReceives(s, pf, pd, pg);
  }

  lemma LoopRuns(r: Snap, s: Snap, pf: PoolFlag, pd: nat, vp: nat, i: nat, cnt: nat, have: nat, enough: bool)
    requires Looping(r, s, pf, pd, vp, i, cnt, have, enough) && i < cnt
    ensures Receptive(s, pd, vp + i)
  {
    hide Inv, RunState, Adrift, Ready, TablesFor, Drivable;
    if Sailing(r, s, pf, pd, vp, i, cnt, have, enough) {
      RunStateGives(r, s, pf, pd, vp, i, cnt);
      ReadyReceives(s, pf, pd, PageAt(pf, pd, vp + i));
    } else {
      var b :| Adrift(b, s, pd, vp, i, cnt);
      AdriftIsLost(b, s, pd, vp, i, cnt);
    }
  }

  /** When the loop ends, in either way, the state is sound exactly when the tables were enough. */
  lemma LoopEnds(r: Snap, s: Snap, pf: PoolFlag, pd: nat, vp: nat, i: nat, cnt: nat, have: nat, enough: bool)
    requires Looping(r, s, pf, pd, vp, i, cnt, have, enough) && (i == cnt || PoolFor(s, pf).Allocatable() == {})
    ensures if enough then RunState(r, s, pf, pd, vp, i, cnt) && Inv(s) && Directory(s, pd) else Lost(s)
    ensures enough ==> Inv(r) && MappedRun(r, s, pf, pd, vp, i)
    ensures i == (if cnt <= have then cnt else have) && s.kv == r.kv && s.uv == r.uv
  {
    hide Inv, RunState, Adrift, TablesFor, Lost, MappedRun;
    if Sailing(r, s, pf, pd, vp, i, cnt, have, enough) {
      TablesForNone(s, pf, pd, vp + i);
      RunStateGives(r, s, pf, pd, vp, i, cnt);
    } else {
      var b :| Adrift(b, s, pd, vp, i, cnt);
      AdriftIsLost(b, s, pd, vp, i, cnt);
    }
  }

  lemma GrantedKeepsMaps(s: Snap, pf: PoolFlag, pd: nat, vp: nat)
    requires Drivable(s, pd) && vp < 0x10_0000 && PoolFor(s, pf).Allocatable() != {}
    ensures var s' := Granted(s, pf, pd, vp); s'.kv == s.kv && s'.uv == s.uv
  {
  }

  lemma SailOn(r: Snap, s: Snap, pf: PoolFlag, pd: nat, vp: nat, i: nat, cnt: nat, have: nat, enough: bool)
    requires Looping(r, s, pf, pd, vp, i, cnt, have, enough) && Sailing(r, s, pf, pd, vp, i, cnt, have, enough)
    requires i < cnt && PoolFor(s, pf).Allocatable() != {} && Drivable(s, pd)
    requires Grantable(s, pf, pd, PageAt(pf, pd, vp + i))
    ensures Looping(r, Granted(s, pf, pd, vp + i), pf, pd, vp, i + 1, cnt, have, enough)
  {
    hide Inv, RunState, TablesFor, Granted, Drivable, Grantable, Adrift, GrantStep, MappedRun, Ready, HasDrifted,
         Directory;
    GrantedKeepsMaps(s, pf, pd, vp + i);
    var pg, s' := PageAt(pf, pd, vp + i), Granted(s, pf, pd, vp + i);
    RunStateGives(r, s, pf, pd, vp, i, cnt);
    GrantedMaps(s, pf, pd, pg);
    GrantCounts(s, s', pf, pd, pg);
    RunGrows(r, s, s', pf, pd, vp, i, cnt);
    RunStateGives(r, s', pf, pd, vp, i + 1, cnt);
    TablesStillSuffice(s, s', pf, pd, vp + i, vp + if cnt <= have then cnt else have);
  }

  lemma GrantCounts(s: Snap, s': Snap, pf: PoolFlag, pd: nat, pg: Page)
    requires Inv(s) && Directory(s, pd) && InSpace(s, pg) && GrantStep(s, s', pf, pd, pg)
    ensures PoolsSane(s) && PoolsSane(s') && |PoolFor(s', pf).Allocatable()| + 1 == |PoolFor(s, pf).Allocatable()|
    ensures s'.uv == s.uv
  {
  }

  /** Every page still to come is ready for its frame. */
  lemma PagesToCome(r: Snap, s: Snap, pf: PoolFlag, pd: nat, vp: nat, i: nat, cnt: nat)
    requires RunState(r, s, pf, pd, vp, i, cnt)
    ensures Inv(s) && forall v: nat | vp + i <= v < vp + cnt :: Ready(s, pf, pd, PageAt(pf, pd, v))
  {
    forall v: nat | vp + i <= v < vp + cnt
      ensures Ready(s, pf, pd, PageAt(pf, pd, v))
    {
      var pg := PageAt(pf, pd, v);
      assert InRun(pf, pd, vp, cnt, pg) && !InRun(pf, pd, vp, i, pg);
      assert Look(s, pg) == Look(r, pg);
    }
  }

  lemma RunAshore(r: Snap, s: Snap, pf: PoolFlag, pd: nat, vp: nat, i: nat, cnt: nat, have: nat, enough: bool)
    requires Looping(r, s, pf, pd, vp, i, cnt, have, enough) && Sailing(r, s, pf, pd, vp, i, cnt, have, enough)
    requires i < cnt && PoolFor(s, pf).Allocatable() != {} && Drivable(s, pd)
    requires Ready(s, pf, pd, PageAt(pf, pd, vp + i)) && !TableReady(s, PageAt(pf, pd, vp + i))
    ensures Looping(r, Granted(s, pf, pd, vp + i), pf, pd, vp, i + 1, cnt, have, enough)
  {
    hide Inv, RunState, TablesFor, Granted, Drivable, Adrift, Ready;
    GrantedKeepsMaps(s, pf, pd, vp + i);
    PagesToCome(r, s, pf, pd, vp, i, cnt);
    GrantedBreaks(s, pf, pd, vp, i, cnt);
    UserFrameTaken(s, pd, vp + i);
    ShortOfTables(s, pf, pd, vp + i, vp + if cnt <= have then cnt else have);
  }

  lemma UserFrameTaken(s: Snap, pd: nat, vp: nat)
    requires Drivable(s, pd) && vp < 0x10_0000 && s.up.Allocatable() != {}
    ensures var s' := Granted(s, PF_USER, pd, vp); PoolsSane(s') && |s'.up.Allocatable()| + 1 == |s.up.Allocatable()|
  {
    AllocatableLess(s.up, NextFrame(s.up));
  }

  lemma DriftGranted(b: Snap, s: Snap, pd: nat, vp: nat, i: nat, cnt: nat)
    requires Adrift(b, s, pd, vp, i, cnt) && i < cnt && s.up.Allocatable() != {}
    ensures vp + i < 0x10_0000 && Drivable(s, pd)
    ensures Adrift(b, Granted(s, PF_USER, pd, vp + i), pd, vp, i + 1, cnt)
  {
    hide Inv;
    var taken := Taken(s, PF_USER);
    TakenDrives(s, PF_USER, pd);
    assert Adrift(b, taken, pd, vp, i, cnt);
    DriftOn(b, taken, pd, vp, i, cnt, NextFrame(s.up));
  }

  lemma LoopSteps(r: Snap, s: Snap, pf: PoolFlag, pd: nat, vp: nat, i: nat, cnt: nat, have: nat, enough: bool)
    requires Looping(r, s, pf, pd, vp, i, cnt, have, enough) && i < cnt && PoolFor(s, pf).Allocatable() != {}
    requires Receptive(s, pd, vp + i)
    ensures Looping(r, Granted(s, pf, pd, vp + i), pf, pd, vp, i + 1, cnt, have, enough)
  {
    hide Inv, RunState, Adrift, TablesFor, Granted, GrantStep, Ready, Drivable, PoolsSane;
    if Sailing(r, s, pf, pd, vp, i, cnt, have, enough) {
      RunStateGives(r, s, pf, pd, vp, i, cnt);
      ReadyReceives(s, pf, pd, PageAt(pf, pd, vp + i));
      if TableReady(s, PageAt(pf, pd, vp + i)) {
        SailOn(r, s, pf, pd, vp, i, cnt, have, enough);
      } else {
        RunAshore(r, s, pf, pd, vp, i, cnt, have, enough);
      }
    } else {
      var b :| Adrift(b, s, pd, vp, i, cnt);
      DriftGranted(b, s, pd, vp, i, cnt);
      UserFrameTaken(s, pd, vp + i);
      GrantedKeepsMaps(s, PF_USER, pd, vp + i);
    }
  }

  lemma LoopStarts(s: Snap, r: Snap, pf: PoolFlag, pd: nat, vp: nat, cnt: nat)
    requires Inv(s) && Inv(r) && Directory(s, pd) && (pf.PF_USER? ==> pd in s.uv)
    requires FirstRun(s, pf, pd, cnt) >= 0
    requires vp == Base(pf) + FirstRun(s, pf, pd, cnt)
    requires ReservedRun(s, r, pf, pd, vp, cnt)
    ensures Looping(r, r, pf, pd, vp, 0, cnt, |PoolFor(s, pf).Allocatable()|, TablesSuffice(s, pf, pd, cnt))
  {
    hide Inv, RunState, TablesSuffice, TablesFor, FirstRun;
    InvSane(r);
    StartRun(s, r, pf, pd, vp, cnt);
    RunStateRoom(r, r, pf, pd, vp, 0, cnt);
  }

  lemma RunStateRoom(r: Snap, s: Snap, pf: PoolFlag, pd: nat, vp: nat, i: nat, cnt: nat)
    requires RunState(r, s, pf, pd, vp, i, cnt)
    ensures vp + cnt <= 0x10_0000
  {
  }

  lemma ReceptivePage(s: Snap, pd: nat, vp: nat)
    requires Receptive(s, pd, vp)
    ensures vp < WINDOW && 0 < pd < 0x10_0000 && vp * 4096 / 4096 == vp && vp * 4096 % 4096 == 0
    ensures Trans(s.mem, pd, vp).None?
  {
  }

  lemma DrivablePools(s: Snap, pd: nat)
    requires Drivable(s, pd)
    ensures PoolsSane(s)
  {
  }

  lemma NoRunNoTables(s: Snap, pf: PoolFlag, pd: nat, cnt: nat)
    requires Inv(s) && Directory(s, pd) && (pf.PF_USER? ==> pd in s.uv)
    requires FirstRun(s, pf, pd, cnt) == -1
    ensures TablesSuffice(s, pf, pd, cnt)
  {
  }

  // ---- single pages after the break ----

  /** All that get_one_page needs to run on: a directory that maps itself, some slot of which names frame 0. */
  ghost predicate Headless(s: Snap, pd: nat) {
    && Drivable(s, pd) && pd in s.uv
    && (forall k: nat | k < 768 && Present(s.mem[pd][k]) :: FrameOf(s.mem[pd][k]) != pd)
    && (exists k: nat :: k < 768 && s.mem[pd][k] == EntryFor(0))
  }

  lemma HeadlessIsLost(s: Snap, pd: nat)
    requires Headless(s, pd)
    ensures Lost(s)
  {
    var k: nat :| k < 768 && s.mem[pd][k] == EntryFor(0);
    FrameZeroIsLost(s, pd, k);
  }

  /** It stays so, whatever page comes next. */
  lemma HeadlessGranted(s: Snap, pd: nat, vp: nat)
    requires Headless(s, pd) && vp < KERNEL_HALF && s.up.Allocatable() != {}
    ensures Headless(Granted(s, PF_USER, pd, vp), pd)
  {
    var taken, f := Taken(s, PF_USER), NextFrame(s.up);
    TakenDrives(s, PF_USER, pd);
    HeadlessAdded(taken, pd, vp, f);
  }

  lemma HeadlessAdded(s: Snap, pd: nat, vp: nat, f: nat)
    requires Headless(s, pd) && vp < KERNEL_HALF && f < 0x10_0000
    ensures Headless(Added(s, pd, vp, f), pd)
  {
    var slot, s' := vp / 1024, Added(s, pd, vp, f);
    var k: nat :| k < 768 && s.mem[pd][k] == EntryFor(0);
    if Present(s.mem[pd][slot]) {
      assert s'.mem[pd] == s.mem[pd];
    } else {
      assert s'.mem[pd] == s.mem[pd][slot := EntryFor(NextFrame(s.kp))];
    }
    assert s'.mem[pd][k] == EntryFor(0);
  }

  lemma BreaksHeadless(s: Snap, pd: nat, vp: nat)
    requires Inv(s) && Drivable(s, pd) && s.up.Allocatable() != {}
    requires Ready(s, PF_USER, pd, UserPage(pd, vp)) && !TableReady(s, UserPage(pd, vp))
    ensures vp < 0x10_0000 && Headless(Granted(s, PF_USER, pd, vp), pd)
  {
    ReadyReceives(s, PF_USER, pd, UserPage(pd, vp));
    GrantedBreaks(s, PF_USER, pd, vp, 0, 1);
    hide Inv, Ready;
    var s' := Granted(s, PF_USER, pd, vp);
    forall k: nat | k < 768 && Present(s'.mem[pd][k])
      ensures FrameOf(s'.mem[pd][k]) != pd
    {
      if s'.mem[pd][k] == s.mem[pd][k] {
        TablesApart(s, pd, k, k);
      }
    }
  }
}
