/** Several heaps on one machine: the kernel's and one for each process. */
module ManyHeaps {
  import opened PageSteps
  import opened Heap
  import opened Allocators
  import opened MemoryRuns
  import Pools
  import Paging
  import AddressSpaces

  /** Two owners: the kernel and a process, or two processes. */
  predicate TwoOwners(pf1: PoolFlag, pd1: nat, pf2: PoolFlag, pd2: nat) { pf1 != pf2 || (pf1.PF_USER? && pd1 != pd2) }

  /** Bytes of live allocations of two heaps never share physical memory, be their addresses equal or not. */
  lemma HeapsApart(h1: State, pf1: PoolFlag, pd1: nat, a: nat, x: nat, h2: State, pf2: PoolFlag, pd2: nat, b: nat,
                   y: nat,
                   s: Pools.Snap)
    requires Inv(h1) && Inv(h2) && Pools.Inv(s) && Backed(h1, s, pf1, pd1) && Backed(h2, s, pf2, pd2)
    requires TwoOwners(pf1, pd1, pf2, pd2)
    requires a in h1.live && a <= x < a + h1.live[a] && b in h2.live && b <= y < b + h2.live[b]
    ensures PageBacked(s, pf1, pd1, x / PAGE) && PageBacked(s, pf2, pd2, y / PAGE)
    ensures ByteAt(s, pf1, pd1, x) != ByteAt(s, pf2, pd2, y)
  {
    hide Held, Pools.Inv, Backed;
    LiveByteMapped(h1, s, pf1, pd1, a, x);
    LiveByteMapped(h2, s, pf2, pd2, b, y);
    Pools.MappedOnce(s, PageAt(pf1, pd1, x / PAGE), PageAt(pf2, pd2, y / PAGE));
  }

  // ---- other callers ----

  /** The call is not the owner's exit, and frees none of the heap's pages. */
  ghost predicate Spares(w: World, call: Call, h: State, pf: PoolFlag, pd: nat) {
    match call
    case MFreed(pf', vp, cnt) =>
      forall p, q: nat | p in h.arenas && p <= q < p + Span(h.arenas[p]) ::
        !InRun(pf', w.cr3, vp, cnt, PageAt(pf, pd, q))
    case ExitedTo(_) => pf.PF_USER? ==> pd != w.cr3
    case _ => true
  }

  /** A mapped page stays mapped through every call that does not free it. */
  lemma PageSurvives(w: World, call: Call, w': World, pf: PoolFlag, pd: nat, q: nat)
    requires Pools.Inv(w.s) && Step(w, call, w') && PageBacked(w.s, pf, pd, q)
    requires call.MFreed? ==> !InRun(call.pf, w.cr3, call.vp, call.cnt, PageAt(pf, pd, q))
    requires call.ExitedTo? && pf.PF_USER? ==> pd != w.cr3
    ensures PageBacked(w'.s, pf, pd, q)
  {
    hide Pools.Inv, Step;
    var pg := PageAt(pf, pd, q);
    FrameInUse(w.s, pg);
    KernelMapKept(w, call, w');
    LookStays(w, call, w', pg);
    var f := Pools.Look(w.s, pg).value;
    if f in w'.s.uv {
      NewSpaceFresh(w, call, w', f);
    }
  }

  lemma FrameInUse(s: Pools.Snap, pg: Pools.Page)
    requires Pools.Inv(s) && Pools.Managed(s, pg) && Pools.Look(s, pg).Some?
    ensures s.kp.Sane() && s.up.Sane() && !Pools.Free(s, Pools.Look(s, pg).value) && Pools.VirtualBit(s, pg)
  {
    var f := Pools.Look(s, pg).value;
    assert f in s.owner;
  }

  /** No call changes the length of the kernel's page bitmap. */
  lemma KernelMapKept(w: World, call: Call, w': World)
    requires Pools.Inv(w.s) && Step(w, call, w')
    ensures |w'.s.kv| == |w.s.kv|
  {
    hide Pools.Inv, FirstRun;
    if call.NotForked? && w'.s != w.s {
      var tv: nat :| AddressSpaces.KernelPageStep(w.s, w'.s, w.cr3, tv, Paging.ZeroFrame());
    }
  }

  /** A mapped page has its virtual bit set. */
  lemma BackedIsTaken(h: State, s: Pools.Snap, pf: PoolFlag, pd: nat, q: nat)
    requires Pools.Inv(s) && PageBacked(s, pf, pd, q) && (pf.PF_USER? ==> pd in s.uv)
    requires h.base == Base(pf) && h.bits == VirtualMap(s, pf, pd)
    ensures Heap.Taken(h, q)
  {
    hide Pools.Inv;
    FrameInUse(s, PageAt(pf, pd, q));
  }

  /** A heap as its owner will find it again: nothing of it moved, though other pages came and went in the bitmap. */
  lemma HeapSurvives(h: State, w: World, call: Call, w': World, pf: PoolFlag, pd: nat)
    requires Inv(h) && Pools.Inv(w.s) && Step(w, call, w') && Pools.Inv(w'.s) && Backed(h, w.s, pf, pd)
    requires (pf.PF_USER? ==> pd in w.s.uv && pd in w'.s.uv) && h.base == Base(pf) && h.bits == VirtualMap(w.s, pf, pd)
    requires Spares(w, call, h, pf, pd)
    ensures var h' := h.(bits := VirtualMap(w'.s, pf, pd)); Inv(h') && Backed(h', w'.s, pf, pd)
  {
    hide Held, Step, Pools.Inv, Pools.Look, Pools.Managed;
    KernelMapKept(w, call, w');
    VirtualMapSane(w.s, pf, pd);
    VirtualMapSane(w'.s, pf, pd);
    var bits := VirtualMap(w'.s, pf, pd);
    forall p, q: nat | p in h.arenas && p <= q < p + Span(h.arenas[p])
      ensures PageBacked(w'.s, pf, pd, q) && Heap.Taken(h.(bits := bits), q)
    {
      assert RunBacked(w.s, pf, pd, p, Span(h.arenas[p]));
      PageSurvives(w, call, w', pf, pd, q);
      BackedIsTaken(h.(bits := bits), w'.s, pf, pd, q);
    }
    OtherPagesMove(h, bits, -1);
  }
}
