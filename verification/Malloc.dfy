/**
 * sys_malloc and sys_free of kernel/memory.c over the heap state, over any run of calls, and as they work in place.
 */
module Malloc {
  import opened Sequences
  import opened Bitmaps
  import opened Heap

  /** A large request needs fewer than 3840 pages, by malloc_page's ASSERT, and a search that stays in the bitmap. */
  predicate Servable(h: State, poolSize: nat, size: nat) {
    && 8 <= |h.bits|
    && |h.bits| % 8 == 0
    && (1024 < size < poolSize ==> PagesFor(size) < 3840 && !Strays(h.bits, |h.bits| / 8, PagesFor(size)))
  }

  /** The ASSERT in malloc_page is out of reach exactly up to 3839 pages less the header. */
  lemma AssertHoldsIff(size: nat)
    ensures PagesFor(size) < 3840 <==> size <= 3839 * PAGE - HEADER
  {
    var n := PagesFor(size);
    if n < 3840 {
      assert n * PAGE <= 3839 * PAGE;
    } else {
      assert 3839 * PAGE <= (n - 1) * PAGE;
    }
  }

  /** With the 3840-page pools of a 32 MB machine, sys_malloc lets through a size that trips the ASSERT. */
  lemma LargestSizeTripsAssert()
    ensures var size := 3840 * PAGE - 1; 1024 < size < 3840 * PAGE && PagesFor(size) == 3841
  {
  }

  ghost function MallocLarge(h: State, size: nat, frames: bool): (State, nat)
    requires Shape(h)
  {
    var (h1, page) := TakePages(h, PagesFor(size), frames);
    match page
    case None => (h1, 0)
    case Some(p) => (h1.(arenas := h1.arenas[p := Large(PagesFor(size))], live := h1.live[FirstByte(p) := size]),
      FirstByte(p))
  }

  ghost function MallocSmall(h: State, size: nat, frames: bool): (State, nat)
    requires Inv(h) && 8 <= |h.bits| && 0 < size <= 1024
  {
    var d := DescFor(size);
    if h.free[d] != [] then TakeBlockKeeps(h, d, size, -1); TakeBlock(h, d, size)
    else
      var (h1, page) := TakePages(h, 1, frames);
      match page
      case None => (h1, 0)
      case Some(p) =>
        TakePagesKeeps(h, 1, frames);
        NewArenaHead(h, h1, p, d);
        TakeBlockKeeps(NewArena(h1, p, d), d, size, p);
        TakeBlock(NewArena(h1, p, d), d, size)
  }

  /** sys_malloc: the new state and the pointer, 0 for NULL. */
  ghost function Malloc(h: State, poolSize: nat, size: nat, frames: bool): (State, nat)
    requires Inv(h) && Servable(h, poolSize, size)
  {
    if size == 0 || size >= poolSize then (h, 0)
    else if size > 1024 then MallocLarge(h, size, frames)
    else MallocSmall(h, size, frames)
  }

  lemma NewArenaHead(h: State, h1: State, page: nat, d: nat)
    requires Inv(h1) && d < DESC_CNT && h1.free[d] == [] && h1 == h.(bits := h1.bits) && |h1.bits| == |h.bits|
    requires FreshRun(h, h1, page, 1)
    ensures Held(NewArena(h1, page, d), page) && NewArena(h1, page, d).free[d] == Blocks(page, d)
    ensures PageOf(Blocks(page, d)[0]) == page
  {
    NewArenaKeeps(h, h1, page, d);
    BlockGeometry(page, d, 0);
  }

  /** What a call to sys_malloc may do to the live allocations. */
  ghost predicate MallocEffect(h: State, h': State, size: nat, ptr: nat) {
    && Inv(h')
    && (ptr == 0 ==> h' == h.(bits := h'.bits))
    && (ptr != 0 ==> ptr !in h.live && h'.live == h.live[ptr := size])
  }

  lemma LargeKeeps(h: State, size: nat, frames: bool)
    requires Inv(h) && 1024 < size
    ensures var (h', ptr) := MallocLarge(h, size, frames); MallocEffect(h, h', size, ptr)
  {
    var n := PagesFor(size);
    var (h1, page) := TakePages(h, n, frames);
    TakePagesKeeps(h, n, frames);
    if page.Some? {
      var h' := MallocLarge(h, size, frames).0;
      FirstBytePage(page.value);
      LargeHeld(h, h1, h', page.value, n);
      LargeFree(h1, h', page.value, n);
      LargeLive(h1, h', page.value, n, size);
    }
  }

  lemma LargeHeld(h: State, h1: State, h': State, page: nat, n: nat)
    requires Inv(h1) && h1 == h.(bits := h1.bits) && |h1.bits| == |h.bits| && FreshRun(h, h1, page, n) && n >= 1
    requires h' == h1.(arenas := h1.arenas[page := Large(n)], live := h'.live)
    ensures Shape(h') && PagesHeld(h') && InUse(h', -1)
  {
    hide FreeSound, Counted, LiveSound, Accounted;
    assert forall q: nat :: Taken(h', q) == Taken(h1, q);
  }

  lemma LargeFree(h: State, h': State, page: nat, n: nat)
    requires Inv(h) && page !in h.arenas && h'.arenas == h.arenas[page := Large(n)] && h'.free == h.free && Shape(h')
    ensures FreeSound(h') && Counted(h')
  {
    hide PageOf, IsBlock, PerArena, BlockSize, PagesHeld, LiveSound, Accounted;
    forall e: nat, x | e < DESC_CNT && x in h'.free[e]
      ensures FreeBlock(h', e, x)
    {
      assert FreeBlock(h, e, x);
    }
  }

  lemma LargeLive(h: State, h': State, page: nat, n: nat, size: nat)
    requires Inv(h) && page !in h.arenas && h'.arenas == h.arenas[page := Large(n)] && h'.free == h.free && Shape(h')
    requires h'.live == h.live[FirstByte(page) := size] && 0 < size && HEADER + size <= n * PAGE
    ensures LiveSound(h') && Accounted(h') && FirstByte(page) !in h.live
  {
    hide PageOf, FirstByte, IsBlock, PerArena, BlockSize, PagesHeld, FreeSound, Counted;
    FirstBytePage(page);
    forall a | a in h.live
      ensures LivePtr(h', a, h.live[a]) && a != FirstByte(page)
    {
      assert LivePtr(h, a, h.live[a]);
    }
    forall p | p in h'.arenas
      ensures PageAccounted(h', p)
    {
      assert p != page ==> PageAccounted(h, p);
    }
  }

  lemma SmallKeeps(h: State, size: nat, frames: bool)
    requires Inv(h) && 8 <= |h.bits| && 0 < size <= 1024
    ensures var (h', ptr) := MallocSmall(h, size, frames); MallocEffect(h, h', size, ptr)
  {
    hide Held;
    var d := DescFor(size);
    InvShape(h);
    if h.free[d] != [] {
      TakeBlockKeeps(h, d, size, -1);
    } else {
      TakePagesKeeps(h, 1, frames);
      var (h1, page) := TakePages(h, 1, frames);
      if page.Some? {
        NewArenaHead(h, h1, page.value, d);
        TakeBlockKeeps(NewArena(h1, page.value, d), d, size, page.value);
      }
    }
  }

  lemma InvShape(h: State)
    requires Inv(h)
    ensures Shape(h)
  {
  }

  /** sys_malloc keeps the invariant and adds at most the allocation it returns. */
  lemma MallocKeeps(h: State, poolSize: nat, size: nat, frames: bool)
    requires Inv(h) && Servable(h, poolSize, size)
    ensures var (h', ptr) := Malloc(h, poolSize, size, frames); MallocEffect(h, h', size, ptr)
  {
    if size == 0 || size >= poolSize {
    } else if size > 1024 {
      LargeKeeps(h, size, frames);
    } else {
      SmallKeeps(h, size, frames);
    }
  }

  // ---- runs ----

  /** One call, with the answer of the frame pool, or other page clients moving bits outside the arenas. */
  datatype Op = MallocOp(size: nat, frames: bool) | FreeOp(ptr: nat) | PagesOp(bits: seq<bool>)

  ghost predicate Allowed(h: State, poolSize: nat, op: Op) {
    match op
    case MallocOp(size, _) => Servable(h, poolSize, size)
    case FreeOp(ptr) => ptr in h.live
    case PagesOp(bits) => |bits| == |h.bits| && forall p, q: nat | p in h.arenas && p <= q < p + Span(h.arenas[p]) ::
      Taken(h.(bits := bits), q)
  }

  ghost function Apply(h: State, poolSize: nat, op: Op): State
    requires Inv(h) && Allowed(h, poolSize, op)
  {
    match op
    case MallocOp(size, frames) => Malloc(h, poolSize, size, frames).0
    case FreeOp(ptr) => FreeKeeps(h, ptr); Free(h, ptr)
    case PagesOp(bits) => h.(bits := bits)
  }

  /** `ops`, each allowed where it is called, lead from `h` to `h'`. */
  ghost predicate Run(h: State, poolSize: nat, ops: seq<Op>, h': State)
    requires Inv(h)
    decreases |ops|
  {
    if ops == [] then h' == h
    else
      && Allowed(h, poolSize, ops[0])
      && (ApplyKeeps(h, poolSize, ops[0]); Run(Apply(h, poolSize, ops[0]), poolSize, ops[1..], h'))
  }

  /** Every state a run reaches is safe, counts its free blocks exactly and keeps no idle arena. */
  lemma {:induction false} EveryRunIsSafe(h: State, poolSize: nat, ops: seq<Op>, h': State)
    requires Inv(h) && Run(h, poolSize, ops, h')
    ensures Inv(h') && Safe(h')
    ensures forall p | p in h'.arenas && h'.arenas[p].Small? ::
              && h'.arenas[p].cnt == |OnPage(h'.free[h'.arenas[p].desc], p)|
              && h'.arenas[p].cnt < PerArena(h'.arenas[p].desc)
    decreases |ops|
  {
    if ops == [] {
      InvIsSafe(h);
    } else {
      ApplyKeeps(h, poolSize, ops[0]);
      EveryRunIsSafe(Apply(h, poolSize, ops[0]), poolSize, ops[1..], h');
    }
  }

  lemma ApplyKeeps(h: State, poolSize: nat, op: Op)
    requires Inv(h) && Allowed(h, poolSize, op)
    ensures Inv(Apply(h, poolSize, op))
  {
    match op
    case MallocOp(size, frames) => MallocKeeps(h, poolSize, size, frames);
    case FreeOp(ptr) => FreeKeeps(h, ptr);
    case PagesOp(bits) => OtherPagesMove(h, bits, -1);
  }

  /** sys_malloc fails only for a size out of range, or when a needed run of pages or its frames cannot be had. */
  lemma MallocSucceedsIff(h: State, poolSize: nat, size: nat, frames: bool)
    requires Inv(h) && Servable(h, poolSize, size)
    ensures Malloc(h, poolSize, size, frames).1 != 0 <==>
            && 0 < size < poolSize
            && ((size <= 1024 && h.free[DescFor(size)] != [])
                || (frames && FirstFit(h.bits, |h.bits| / 8, if size > 1024 then PagesFor(size) else 1) >= 0))
  {
    hide Held;
    InvShape(h);
    if 0 < size <= 1024 && size < poolSize {
      var d := DescFor(size);
      if h.free[d] != [] {
        TakeBlockKeeps(h, d, size, -1);
        BlockIsNotNull(h, d, h.free[d][0]);
      } else if TakePages(h, 1, frames).1.Some? {
        TakePagesKeeps(h, 1, frames);
        var (h1, page) := TakePages(h, 1, frames);
        NewArenaHead(h, h1, page.value, d);
        BlockGeometry(page.value, d, 0);
      }
    }
  }

  lemma BlockIsNotNull(h: State, d: nat, b: nat)
    requires d < DESC_CNT && FreeBlock(h, d, b)
    ensures b != 0
  {
    var k: nat :| k < PerArena(d) && b == BlockAt(PageOf(b), d, k);
    BlockGeometry(PageOf(b), d, k);
  }

  // ---- where the blocks are ----

  /** `n` requests of one small size in a row. */
  ghost function Mallocs(h: State, size: nat, frames: bool, n: nat): State
    requires Inv(h) && 8 <= |h.bits| && 0 < size <= 1024
    ensures Inv(Mallocs(h, size, frames, n)) && 8 <= |Mallocs(h, size, frames, n).bits|
    decreases n
  {
    if n == 0 then h else
      var g := Mallocs(h, size, frames, n - 1);
      SmallKeeps(g, size, frames);
      SmallBits(g, size, frames);
      MallocSmall(g, size, frames).0
  }

  lemma SmallBits(h: State, size: nat, frames: bool)
    requires Inv(h) && 8 <= |h.bits| && 0 < size <= 1024
    ensures |MallocSmall(h, size, frames).0.bits| == |h.bits|
  {
    hide Held;
    var d := DescFor(size);
    InvShape(h);
    if h.free[d] != [] {
      TakeBlockKeeps(h, d, size, -1);
    } else {
      TakePagesKeeps(h, 1, frames);
      var (h1, page) := TakePages(h, 1, frames);
      if page.Some? {
        NewArenaHead(h, h1, page.value, d);
        TakeBlockKeeps(NewArena(h1, page.value, d), d, size, page.value);
      }
    }
  }

  /** A block off the list: the one at its head. */
  lemma HeadGiven(h: State, size: nat, frames: bool)
    requires Inv(h) && 8 <= |h.bits| && 0 < size <= 1024 && |h.free| == DESC_CNT && h.free[DescFor(size)] != []
    ensures var (h', ptr) := MallocSmall(h, size, frames); var list := h.free[DescFor(size)];
            ptr == list[0] && |h'.free| == DESC_CNT && h'.free[DescFor(size)] == list[1..]
  {
    hide Held;
    TakeBlockKeeps(h, DescFor(size), size, -1);
  }

  lemma FirstGiven(h: State, size: nat, frames: bool)
    requires Inv(h) && 8 <= |h.bits| && 0 < size <= 1024 && |h.free| == DESC_CNT && h.free[DescFor(size)] == []
    requires Shape(h) && TakePages(h, 1, frames).1.Some?
    ensures var (h', ptr) := MallocSmall(h, size, frames);
            var all := Blocks(TakePages(h, 1, frames).1.value, DescFor(size));
            ptr == all[0] && |h'.free| == DESC_CNT && h'.free[DescFor(size)] == all[1..]
  {
    hide Held;
    var d := DescFor(size);
    TakePagesKeeps(h, 1, frames);
    var (h1, page) := TakePages(h, 1, frames);
    NewArenaHead(h, h1, page.value, d);
    TakeBlockKeeps(NewArena(h1, page.value, d), d, size, page.value);
  }

  lemma {:induction false} ListAfter(h: State, size: nat, frames: bool, n: nat)
    requires Inv(h) && 8 <= |h.bits| && 0 < size <= 1024 && Shape(h) && h.free[DescFor(size)] == []
    requires TakePages(h, 1, frames).1.Some? && 1 <= n <= PerArena(DescFor(size))
    ensures var g, d := Mallocs(h, size, frames, n), DescFor(size);
            |g.free| == DESC_CNT && g.free[d] == Blocks(TakePages(h, 1, frames).1.value, d)[n..]
    decreases n
  {
    hide Held, Blocks, MallocSmall, PerArena, TakePages;
    if n == 1 {
      FirstGiven(h, size, frames);
      assert Mallocs(h, size, frames, 0) == h;
    } else {
      ListAfter(h, size, frames, n - 1);
      HeadGiven(Mallocs(h, size, frames, n - 1), size, frames);
    }
  }

  /**
   * With no free block left, the requests of one size that follow get the blocks of the next free page in order:
   * the first 12 bytes into it, each other one block size further.
   */
  lemma BlocksInOrder(h: State, size: nat, frames: bool, k: nat)
    requires Inv(h) && 8 <= |h.bits| && 0 < size <= 1024 && Shape(h) && h.free[DescFor(size)] == []
    requires TakePages(h, 1, frames).1.Some? && k < 4084 / BlockSize(DescFor(size))
    ensures MallocSmall(Mallocs(h, size, frames, k), size, frames).1
         == TakePages(h, 1, frames).1.value * 4096 + 12 + k * BlockSize(DescFor(size))
  {
    hide Held, MallocSmall, TakePages;
    BlockSizes(DescFor(size));
    if k == 0 {
      FirstGiven(h, size, frames);
      assert Mallocs(h, size, frames, 0) == h;
    } else {
      ListAfter(h, size, frames, k);
      HeadGiven(Mallocs(h, size, frames, k), size, frames);
    }
  }

  /** A pointer to a small request is a block of the least power of two; to a large one, the bytes of whole pages. */
  lemma PlaceGiven(h: State, poolSize: nat, size: nat, frames: bool)
    requires Inv(h) && Servable(h, poolSize, size) && Malloc(h, poolSize, size, frames).1 != 0
    ensures var (h', ptr) := Malloc(h, poolSize, size, frames);
            && ptr / 4096 in h'.arenas
            && if size <= 1024 then h'.arenas[ptr / 4096].Small? && h'.arenas[ptr / 4096].desc == DescFor(size)
               else h'.arenas[ptr / 4096] == Large(PagesFor(size)) && ptr % 4096 == 12
  {
    hide Held;
    InvShape(h);
    var d := DescFor(size);
    if size > 1024 {
      FirstBytePage(TakePages(h, PagesFor(size), frames).1.value);
    } else if h.free[d] != [] {
      TakeBlockKeeps(h, d, size, -1);
    } else {
      TakePagesKeeps(h, 1, frames);
      var (h1, page) := TakePages(h, 1, frames);
      NewArenaHead(h, h1, page.value, d);
      TakeBlockKeeps(NewArena(h1, page.value, d), d, size, page.value);
    }
  }

  /** The empty heap of block_desc_init. */
  lemma EmptyHeap(base: nat, bits: seq<bool>)
    requires |bits| % 8 == 0
    ensures Inv(State(base, bits, map[], seq(DESC_CNT, _ => []), map[]))
  {
  }

  // ---- freeing what was just allocated ----

  /** The free list after taking its head and giving it back: rotated by one, or empty as before. */
  ghost function Rotated(s: seq<nat>): seq<nat> { if s == [] then [] else s[1..] + [s[0]] }

  /** Freeing the pointer just returned undoes the call, up to the order of one free list. */
  lemma FreeUndoesMalloc(h: State, poolSize: nat, size: nat, frames: bool)
    requires Inv(h) && Servable(h, poolSize, size) && Malloc(h, poolSize, size, frames).1 != 0
    ensures var (h', ptr) := Malloc(h, poolSize, size, frames);
            && Inv(h') && ptr in h'.live && PageOf(ptr) in h'.arenas
            && Free(h', ptr) == if size > 1024 then h
                 else h.(free := h.free[DescFor(size) := Rotated(h.free[DescFor(size)])])
  {
    MallocKeeps(h, poolSize, size, frames);
    var (h', ptr) := Malloc(h, poolSize, size, frames);
    FreeKeeps(h', ptr);
    if size > 1024 {
      LargeUndone(h, size, frames);
    } else if h.free[DescFor(size)] != [] {
      PooledUndone(h, size, frames);
    } else {
      ArenaUndone(h, size, frames);
    }
  }

  lemma LargeUndone(h: State, size: nat, frames: bool)
    requires Inv(h) && 1024 < size && MallocLarge(h, size, frames).1 != 0
    requires var (h', ptr) := MallocLarge(h, size, frames); Inv(h') && PageOf(ptr) in h'.arenas && ptr !in h.live
    ensures var (h', ptr) := MallocLarge(h, size, frames); Free(h', ptr) == h
  {
    hide Held;
    InvShape(h);
    InvShape(MallocLarge(h, size, frames).0);
    var n := PagesFor(size);
    var (h', ptr) := MallocLarge(h, size, frames);
    var page := TakePages(h, n, frames).1.value;
    TakePagesKeeps(h, n, frames);
    FirstBytePage(page);
    var z := Free(h', ptr);
    assert z.bits == h.bits;
    assert z.arenas == h.arenas;
    assert z.live == h.live;
  }

  lemma PooledUndone(h: State, size: nat, frames: bool)
    requires Inv(h) && 8 <= |h.bits| && 0 < size <= 1024 && h.free[DescFor(size)] != []
    requires var (h', ptr) := MallocSmall(h, size, frames); Inv(h') && PageOf(ptr) in h'.arenas && ptr !in h.live
    ensures var (h', ptr) := MallocSmall(h, size, frames); var d := DescFor(size);
            Free(h', ptr) == h.(free := h.free[d := Rotated(h.free[d])])
  {
    hide Held;
    InvShape(h);
    InvShape(MallocSmall(h, size, frames).0);
    var d := DescFor(size);
    TakeBlockKeeps(h, d, size, -1);
    var (h', ptr) := MallocSmall(h, size, frames);
    var z := Free(h', ptr);
    var p := PageOf(ptr);
    ArenaInUse(h, p);
    assert z.arenas == h.arenas;
    assert z.live == h.live;
    assert z.free == h.free[d := Rotated(h.free[d])];
  }

  lemma ArenaInUse(h: State, p: nat)
    requires Inv(h) && p in h.arenas && h.arenas[p].Small?
    ensures h.arenas[p].desc < DESC_CNT && h.arenas[p].cnt < PerArena(h.arenas[p].desc)
  {
  }

  lemma ArenaUndone(h: State, size: nat, frames: bool)
    requires Inv(h) && 8 <= |h.bits| && 0 < size <= 1024 && h.free[DescFor(size)] == []
    requires var (h', ptr) := MallocSmall(h, size, frames);
             ptr != 0 && Inv(h') && PageOf(ptr) in h'.arenas && ptr !in h.live
    ensures var (h', ptr) := MallocSmall(h, size, frames); Free(h', ptr) == h
  {
    hide Held;
    InvShape(h);
    InvShape(MallocSmall(h, size, frames).0);
    var d := DescFor(size);
    var (h', ptr) := MallocSmall(h, size, frames);
    TakePagesKeeps(h, 1, frames);
    var (h1, some) := TakePages(h, 1, frames);
    var page := some.value;
    NewArenaHead(h, h1, page, d);
    TakeBlockKeeps(NewArena(h1, page, d), d, size, page);
    var z := Free(h', ptr);
    var all := Blocks(page, d);
    assert h'.free[d] + [ptr] == all[1..] + [all[0]];
    EveryBlockGone(all[1..] + [all[0]], page, d);
    assert z.bits == h.bits;
    assert z.arenas == h.arenas;
    assert z.live == h.live;
    assert z.free == h.free;
  }

  lemma {:induction false} WithoutAll(s: seq<nat>, gone: set<nat>)
    requires forall b | b in s :: b in gone
    ensures Without(s, gone) == []
  {
    if s != [] {
      WithoutAll(s[1..], gone);
    }
  }

  lemma EveryBlockGone(s: seq<nat>, page: nat, d: nat)
    requires d < DESC_CNT && s == Blocks(page, d)[1..] + [Blocks(page, d)[0]]
    ensures Without(s, BlockSet(page, d)) == []
  {
    BlocksDistinct(page, d);
    WithoutAll(s, BlockSet(page, d));
  }

  lemma FullList(h: State, page: nat, d: nat)
    requires d < DESC_CNT && Held(h, page) && page in h.arenas && h.arenas[page] == Small(d, PerArena(d))
    ensures |h.free| == DESC_CNT && NoDuplicates(h.free[d]) && forall b | b in BlockSet(page, d) :: b in h.free[d]
  {
    FullArena(h, page);
  }

  ghost function FirstBlocks(page: nat, d: nat, n: nat): set<nat>
    requires d < DESC_CNT
  {
    set k: nat | k < n :: BlockAt(page, d, k)
  }

  lemma NoBlocksYet(page: nat, d: nat)
    requires d < DESC_CNT
    ensures FirstBlocks(page, d, 0) == {} && FirstBlocks(page, d, PerArena(d)) == BlockSet(page, d)
  {
  }

  lemma UnlinkOne(list: seq<nat>, page: nat, d: nat, i: nat)
    requires d < DESC_CNT && i < PerArena(d) && NoDuplicates(list) && forall b | b in BlockSet(page, d) :: b in list
    ensures BlockAt(page, d, i) in Without(list, FirstBlocks(page, d, i))
    ensures Remove(Without(list, FirstBlocks(page, d, i)), BlockAt(page, d, i)) ==
              Without(list, FirstBlocks(page, d, i + 1))
  {
    hide BlockAt, PerArena, BlockSize, Without, Remove;
    var b, gone := BlockAt(page, d, i), FirstBlocks(page, d, i);
    BlockGeometry(page, d, i);
    WithoutMembers(list, gone);
    assert b in BlockSet(page, d);
    RemoveIsWithout(list, gone, b);
    assert FirstBlocks(page, d, i + 1) == gone + {b};
  }
}
