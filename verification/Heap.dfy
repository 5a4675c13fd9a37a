/**
 * The arena heap of kernel/memory.c: seven block sizes, arenas of one page, and page runs for larger requests.
 */
module Heap {
  import opened Options
  import opened Sequences
  import opened Bitmaps
  import opened PageSteps

  const PAGE := 4096
  const HEADER := 12
  const DESC_CNT := 7

  /** What the header at the start of an arena says: its descriptor and free-block count, or its page count. */
  datatype Arena = Small(desc: nat, cnt: nat) | Large(pages: nat)

  /**
   * Pages are numbered absolutely; bit `i` of `bits` stands for page `base + i`. `live` maps pointers to requested
   * sizes.
   */
  datatype State = State(base: nat, bits: seq<bool>, arenas: map<nat, Arena>, free: seq<seq<nat>>, live: map<nat, nat>)

  // ---- geometry ----

  /** block_desc_init: 16, 32, ... 1024. */
  function BlockSize(d: nat): (r: nat)
    requires d < DESC_CNT
    ensures 16 <= r <= 1024
  {
    [16, 32, 64, 128, 256, 512, 1024][d]
  }

  function PerArena(d: nat): (r: nat)
    requires d < DESC_CNT
    ensures 3 <= r <= 255
  {
    (PAGE - HEADER) / BlockSize(d)
  }

  /** Block sizes double from 16 to 1024, and an arena's 4084 bytes behind the header hold as many as fit. */
  lemma BlockSizes(d: nat)
    requires d < DESC_CNT
    ensures BlockSize(0) == 16 && BlockSize(6) == 1024 && (d < 6 ==> BlockSize(d + 1) == 2 * BlockSize(d))
    ensures PerArena(d) == 4084 / BlockSize(d)
  {
  }

  /** arena2block */
  function BlockAt(page: nat, d: nat, k: nat): nat
    requires d < DESC_CNT
  {
    page * PAGE + HEADER + k * BlockSize(d)
  }

  /** Where a large arena's memory starts. */
  function FirstByte(page: nat): nat { page * PAGE + HEADER }

  /** block2arena, as a page number. */
  function PageOf(ptr: nat): nat { ptr / PAGE }

  /** Blocks lie after the header, inside their page and apart from each other. */
  lemma BlockGeometry(page: nat, d: nat, k: nat)
    requires d < DESC_CNT && k < PerArena(d)
    ensures PageOf(BlockAt(page, d, k)) == page
    ensures page * PAGE + HEADER <= BlockAt(page, d, k) && BlockAt(page, d, k) + BlockSize(d) <= (page + 1) * PAGE
    ensures forall j: nat | j < k :: BlockAt(page, d, j) + BlockSize(d) <= BlockAt(page, d, k)
  {
    var n := BlockSize(d);
    assert (k + 1) * n <= PAGE - HEADER by {
      assert (k + 1) * n <= PerArena(d) * n <= PAGE - HEADER;
    }
    forall j: nat | j < k
      ensures BlockAt(page, d, j) + n <= BlockAt(page, d, k)
    {
      assert (j + 1) * n <= k * n;
    }
  }

  ghost predicate IsBlock(page: nat, d: nat, b: nat)
    requires d < DESC_CNT
  {
    exists k: nat :: k < PerArena(d) && b == BlockAt(page, d, k)
  }

  lemma BlocksOnPage(page: nat, d: nat)
    requires d < DESC_CNT
    ensures forall b | IsBlock(page, d, b) :: PageOf(b) == page
  {
    forall b | IsBlock(page, d, b)
      ensures PageOf(b) == page
    {
      var k: nat :| k < PerArena(d) && b == BlockAt(page, d, k);
      BlockGeometry(page, d, k);
    }
  }

  function Blocks(page: nat, d: nat): (r: seq<nat>)
    requires d < DESC_CNT
    ensures |r| == PerArena(d)
  {
    seq(PerArena(d), k requires 0 <= k => BlockAt(page, d, k))
  }

  function BlockSet(page: nat, d: nat): set<nat>
    requires d < DESC_CNT
  {
    set k: nat | k < PerArena(d) :: BlockAt(page, d, k)
  }

  lemma BlockSetSize(page: nat, d: nat, n: nat)
    requires d < DESC_CNT && n <= PerArena(d)
    ensures |set k: nat | k < n :: BlockAt(page, d, k)| == n
  {
    var s := set k: nat | k < n :: BlockAt(page, d, k);
    if n > 0 {
      BlockSetSize(page, d, n - 1);
      BlockGeometry(page, d, n - 1);
      assert s == (set k: nat | k < n - 1 :: BlockAt(page, d, k)) + {BlockAt(page, d, n - 1)};
    }
  }

  lemma BlocksDistinct(page: nat, d: nat)
    requires d < DESC_CNT
    ensures NoDuplicates(Blocks(page, d))
    ensures forall b :: b in Blocks(page, d) <==> IsBlock(page, d, b)
    ensures forall b | b in Blocks(page, d) :: PageOf(b) == page
    ensures |BlockSet(page, d)| == PerArena(d) && forall b :: b in BlockSet(page, d) <==> b in Blocks(page, d)
  {
    forall k: nat | k < PerArena(d)
      ensures PageOf(Blocks(page, d)[k]) == page && IsBlock(page, d, Blocks(page, d)[k])
      ensures forall j: nat | j < k :: Blocks(page, d)[j] != Blocks(page, d)[k]
    {
      BlockGeometry(page, d, k);
    }
    forall b | IsBlock(page, d, b)
      ensures b in Blocks(page, d)
    {
      var k: nat :| k < PerArena(d) && b == BlockAt(page, d, k);
      assert Blocks(page, d)[k] == b;
    }
    BlockSetSize(page, d, PerArena(d));
  }

  // ---- sequences of blocks ----

  /** The list without the blocks of one page, order kept. */
  function Without(s: seq<nat>, gone: set<nat>): seq<nat> {
    if s == [] then [] else if s[0] in gone then Without(s[1..], gone) else [s[0]] + Without(s[1..], gone)
  }

  lemma {:induction false} WithoutMembers(s: seq<nat>, gone: set<nat>)
    ensures forall b :: b in Without(s, gone) <==> b in s && b !in gone
    ensures NoDuplicates(s) ==> NoDuplicates(Without(s, gone))
  {
    if s != [] {
      WithoutMembers(s[1..], gone);
      assert s == [s[0]] + s[1..];
    }
  }

  lemma {:induction false} WithoutNothing(s: seq<nat>, gone: set<nat>)
    requires forall b | b in s :: b !in gone
    ensures Without(s, gone) == s
  {
    if s != [] {
      WithoutNothing(s[1..], gone);
    }
  }

  lemma {:induction false} RemoveIsWithout(s: seq<nat>, gone: set<nat>, b: nat)
    requires NoDuplicates(s) && b !in gone
    ensures Remove(Without(s, gone), b) == Without(s, gone + {b})
  {
    if s != [] {
      if s[0] == b {
        assert b !in s[1..];
        WithoutNothingMore(s[1..], gone, b);
      } else {
        RemoveIsWithout(s[1..], gone, b);
      }
    }
  }

  lemma {:induction false} WithoutNothingMore(s: seq<nat>, gone: set<nat>, b: nat)
    requires b !in s
    ensures Without(s, gone + {b}) == Without(s, gone)
  {
    if s != [] {
      WithoutNothingMore(s[1..], gone, b);
    }
  }

  /** The blocks of a list that lie on one page. */
  ghost function OnPage(s: seq<nat>, page: nat): set<nat> { set b | b in s && PageOf(b) == page }

  // ---- the invariant ----

  function Span(a: Arena): nat {
    match a
    case Small(_, _) => 1
    case Large(n) => n
  }

  ghost predicate Shape(h: State) {
    && |h.bits| % 8 == 0 && |h.free| == DESC_CNT
    && forall p | p in h.arenas ::
         && h.base <= p && Span(h.arenas[p]) >= 1 && p + Span(h.arenas[p]) <= h.base + |h.bits|
         && (h.arenas[p].Small? ==> h.arenas[p].desc < DESC_CNT)
  }

  predicate Taken(h: State, page: nat) { h.base <= page < h.base + |h.bits| && h.bits[page - h.base] }

  /** The pages of every arena are taken in the bitmap, and no page belongs to two arenas. */
  ghost predicate PagesHeld(h: State)
    requires Shape(h)
  {
    && (forall p, q: nat | p in h.arenas && p <= q < p + Span(h.arenas[p]) :: Taken(h, q))
    && (forall p, q | p in h.arenas && q in h.arenas && p < q :: p + Span(h.arenas[p]) <= q)
  }

  /** Free lists hold blocks of small arenas of their own size, each once. */
  ghost predicate FreeSound(h: State)
    requires Shape(h)
  {
    forall d: nat | d < DESC_CNT ::
      && NoDuplicates(h.free[d])
      && forall b | b in h.free[d] :: FreeBlock(h, d, b)
  }

  ghost predicate FreeBlock(h: State, d: nat, b: nat)
    requires d < DESC_CNT
  {
    PageOf(b) in h.arenas && h.arenas[PageOf(b)].Small? && h.arenas[PageOf(b)].desc == d && IsBlock(PageOf(b), d, b)
  }

  /** A small arena counts its blocks on the free list. */
  ghost predicate Counted(h: State)
    requires Shape(h)
  {
    forall p | p in h.arenas && h.arenas[p].Small? :: h.arenas[p].cnt == |OnPage(h.free[h.arenas[p].desc], p)|
  }

  /** No small arena but perhaps `spare` is entirely free. */
  ghost predicate InUse(h: State, spare: int)
    requires Shape(h)
  {
    forall p | p in h.arenas && h.arenas[p].Small? && p != spare :: h.arenas[p].cnt < PerArena(h.arenas[p].desc)
  }

  /** A live pointer is a block off the free list, or the first byte after a large arena's header. */
  ghost predicate LivePtr(h: State, ptr: nat, size: nat)
    requires Shape(h)
  {
    && PageOf(ptr) in h.arenas && size > 0
    && match h.arenas[PageOf(ptr)]
       case Small(d, _) => size <= BlockSize(d) && IsBlock(PageOf(ptr), d, ptr) && ptr !in h.free[d]
       case Large(n) => ptr == FirstByte(PageOf(ptr)) && HEADER + size <= n * PAGE
  }

  /** Every block that is not free is live, and so is every large arena. */
  ghost predicate Accounted(h: State)
    requires Shape(h)
  {
    forall p | p in h.arenas :: PageAccounted(h, p)
  }

  ghost predicate PageAccounted(h: State, p: nat)
    requires Shape(h) && p in h.arenas
  {
    match h.arenas[p]
    case Small(d, _) => forall b | IsBlock(p, d, b) && b !in h.free[d] :: b in h.live
    case Large(_) => FirstByte(p) in h.live
  }

  lemma FirstBytePage(page: nat)
    ensures PageOf(FirstByte(page)) == page
  {
  }

  ghost predicate LiveSound(h: State)
    requires Shape(h)
  {
    forall ptr | ptr in h.live :: LivePtr(h, ptr, h.live[ptr])
  }

  /** The invariant, inside a call that has `spare` in hand. */
  ghost predicate Held(h: State, spare: int) {
    Shape(h) && PagesHeld(h) && FreeSound(h) && Counted(h) && Accounted(h) && LiveSound(h) && InUse(h, spare)
  }

  /** What holds between calls. */
  ghost predicate Inv(h: State) { Held(h, -1) }

  // ---- what the invariant means ----

  ghost predicate Apart(a: nat, n: nat, b: nat, m: nat) { a + n <= b || b + m <= a }

  /** Live allocations overlap neither each other, nor an arena header, nor a free block. */
  ghost predicate Safe(h: State)
    requires Shape(h)
  {
    && (forall a, b | a in h.live && b in h.live && a != b :: Apart(a, h.live[a], b, h.live[b]))
    && (forall a, p | a in h.live && p in h.arenas :: Apart(a, h.live[a], p * PAGE, HEADER))
    && (forall a, d: nat, b | a in h.live && d < DESC_CNT && b in h.free[d] :: Apart(a, h.live[a], b, BlockSize(d)))
  }

  /** The bytes a live pointer owns: from it to the end of its block or of its last page. */
  ghost function Extent(h: State, ptr: nat): nat
    requires Shape(h) && PageOf(ptr) in h.arenas
  {
    match h.arenas[PageOf(ptr)]
    case Small(d, _) => BlockSize(d)
    case Large(n) => n * PAGE - HEADER
  }

  lemma ExtentInArena(h: State, ptr: nat)
    requires Inv(h) && ptr in h.live
    ensures PageOf(ptr) in h.arenas && h.live[ptr] <= Extent(h, ptr)
    ensures var p := PageOf(ptr); p * PAGE + HEADER <= ptr && ptr + Extent(h, ptr) <= (p + Span(h.arenas[p])) * PAGE
  {
    assert LivePtr(h, ptr, h.live[ptr]);
    var p := PageOf(ptr);
    if h.arenas[p].Small? {
      var k: nat :| k < PerArena(h.arenas[p].desc) && ptr == BlockAt(p, h.arenas[p].desc, k);
      BlockGeometry(p, h.arenas[p].desc, k);
    }
  }

  lemma BlocksApart(page: nat, d: nat, a: nat, b: nat)
    requires d < DESC_CNT && IsBlock(page, d, a) && IsBlock(page, d, b) && a != b
    ensures Apart(a, BlockSize(d), b, BlockSize(d))
  {
    var i: nat :| i < PerArena(d) && a == BlockAt(page, d, i);
    var j: nat :| j < PerArena(d) && b == BlockAt(page, d, j);
    BlockGeometry(page, d, i);
    BlockGeometry(page, d, j);
  }

  lemma PagesApart(h: State, p: nat, q: nat)
    requires Inv(h) && p in h.arenas && q in h.arenas && p != q
    ensures (p + Span(h.arenas[p])) * PAGE <= q * PAGE || (q + Span(h.arenas[q])) * PAGE <= p * PAGE
  {
  }

  lemma LiveApart(h: State, a: nat, b: nat)
    requires Inv(h) && a in h.live && b in h.live && a != b
    ensures Apart(a, h.live[a], b, h.live[b])
  {
    ExtentInArena(h, a);
    ExtentInArena(h, b);
    var p, q := PageOf(a), PageOf(b);
    if p != q {
      PagesApart(h, p, q);
    } else {
      assert LivePtr(h, a, h.live[a]) && LivePtr(h, b, h.live[b]);
      if h.arenas[p].Small? {
        BlocksApart(p, h.arenas[p].desc, a, b);
      }
    }
  }

  lemma LiveOffFree(h: State, a: nat, d: nat, b: nat)
    requires Inv(h) && a in h.live && d < DESC_CNT && b in h.free[d]
    ensures Apart(a, h.live[a], b, BlockSize(d))
  {
    ExtentInArena(h, a);
    assert FreeBlock(h, d, b);
    var p, q := PageOf(a), PageOf(b);
    var k: nat :| k < PerArena(d) && b == BlockAt(q, d, k);
    BlockGeometry(q, d, k);
    if p != q {
      PagesApart(h, p, q);
    } else {
      assert LivePtr(h, a, h.live[a]);
      BlocksApart(p, d, a, b);
    }
  }

  /** The safety claim follows from the invariant. */
  lemma InvIsSafe(h: State)
    requires Inv(h)
    ensures Safe(h)
  {
    forall a, b | a in h.live && b in h.live && a != b
      ensures Apart(a, h.live[a], b, h.live[b])
    {
      LiveApart(h, a, b);
    }
    forall a, p | a in h.live && p in h.arenas
      ensures Apart(a, h.live[a], p * PAGE, HEADER)
    {
      ExtentInArena(h, a);
      if p != PageOf(a) {
        PagesApart(h, p, PageOf(a));
      }
    }
    forall a, d: nat, b | a in h.live && d < DESC_CNT && b in h.free[d]
      ensures Apart(a, h.live[a], b, BlockSize(d))
    {
      LiveOffFree(h, a, d, b);
    }
  }

  // ---- sys_malloc ----

  /** The first descriptor whose blocks are large enough, and the last one if none is. */
  function DescFor(size: nat): (d: nat)
    ensures d < DESC_CNT && (size <= 1024 ==> size <= BlockSize(d))
    ensures forall e: nat | e < d :: BlockSize(e) < size
  {
    DescFrom(size, 0)
  }

  function DescFrom(size: nat, i: nat): (d: nat)
    requires i < DESC_CNT
    ensures i <= d < DESC_CNT && (size <= 1024 ==> size <= BlockSize(d))
    ensures forall e: nat | i <= e < d :: BlockSize(e) < size
    decreases DESC_CNT - i
  {
    if size <= BlockSize(i) || i == DESC_CNT - 1 then i else DescFrom(size, i + 1)
  }

  ghost predicate PowerOfTwo(n: nat)
    decreases n
  {
    n == 1 || (n > 1 && n % 2 == 0 && PowerOfTwo(n / 2))
  }

  lemma SizesArePowers(d: nat)
    requires d < DESC_CNT
    ensures PowerOfTwo(BlockSize(d))
  {
    assert PowerOfTwo(1) && PowerOfTwo(2) && PowerOfTwo(4) && PowerOfTwo(8) && PowerOfTwo(16) && PowerOfTwo(32);
    assert PowerOfTwo(64) && PowerOfTwo(128) && PowerOfTwo(256) && PowerOfTwo(512) && PowerOfTwo(1024);
  }

  lemma {:induction false} PowerBelow(n: nat)
    requires PowerOfTwo(n) && 16 <= n <= 1024
    ensures exists d: nat :: d < DESC_CNT && BlockSize(d) == n
  {
    if n == 16 {
      assert BlockSize(0) == n;
    } else {
      assert PowerOfTwo(n / 2);
      if n / 2 < 16 {
        SmallPowers(n / 2);
        assert false;
      }
      PowerBelow(n / 2);
      var d: nat :| d < DESC_CNT && BlockSize(d) == n / 2;
      BlockSizes(d);
      assert BlockSize(d + 1) == n;
    }
  }

  lemma SmallPowers(n: nat)
    requires PowerOfTwo(n) && n < 16
    ensures n <= 8
  {
    assert PowerOfTwo(n) ==> n == 1 || n % 2 == 0;
    assert PowerOfTwo(10) == PowerOfTwo(5) && PowerOfTwo(12) == PowerOfTwo(6) && PowerOfTwo(14) == PowerOfTwo(7);
    assert PowerOfTwo(6) == PowerOfTwo(3) && !PowerOfTwo(3) && !PowerOfTwo(5) && !PowerOfTwo(7);
  }

  /** A request of up to 1024 bytes gets the least power of two that is at least 16 and holds it. */
  lemma LeastPower(size: nat, n: nat)
    requires 0 < size <= 1024
    ensures var b := BlockSize(DescFor(size));
            && PowerOfTwo(b) && 16 <= b && size <= b && (size > 16 ==> b < 2 * size)
            && (PowerOfTwo(n) && 16 <= n && size <= n ==> b <= n)
  {
    var d := DescFor(size);
    SizesArePowers(d);
    if d > 0 {
      BlockSizes(d - 1);
      assert BlockSize(d - 1) < size;
    }
    if PowerOfTwo(n) && 16 <= n <= 1024 && size <= n {
      PowerBelow(n);
      var e: nat :| e < DESC_CNT && BlockSize(e) == n;
      assert e >= d;
    }
  }

  /** DIV_ROUND_UP of the size with its header. */
  function PagesFor(size: nat): (n: nat)
    ensures n >= 1 && size + HEADER <= n * PAGE && (n - 1) * PAGE < size + HEADER
  {
    (size + HEADER + PAGE - 1) / PAGE
  }

  /** malloc_page as the bitmap sees it; `frames` says whether the pool had the frames. A failure keeps the bits set. */
  function TakePages(h: State, cnt: nat, frames: bool): (r: (State, Option<nat>))
    requires Shape(h)
    ensures r.0 == h.(bits := r.0.bits) && |r.0.bits| == |h.bits|
  {
    var i := FirstFit(h.bits, |h.bits| / 8, cnt);
    if i == -1 then (h, None)
    else (h.(bits := WithRun(h.bits, i, cnt, true)), if frames then Some(h.base + i) else None)
  }

  /** A new arena with all its blocks on its free list. */
  function NewArena(h: State, page: nat, d: nat): State
    requires Shape(h) && d < DESC_CNT
  {
    h.(arenas := h.arenas[page := Small(d, PerArena(d))], free := h.free[d := h.free[d] + Blocks(page, d)])
  }

  /** The head of the free list handed out. */
  function TakeBlock(h: State, d: nat, size: nat): (State, nat)
    requires Shape(h) && d < DESC_CNT && h.free[d] != [] && PageOf(h.free[d][0]) in h.arenas
    requires h.arenas[PageOf(h.free[d][0])].Small? && h.arenas[PageOf(h.free[d][0])].cnt > 0
  {
    var b := h.free[d][0];
    var a := h.arenas[PageOf(b)];
    (h.(free := h.free[d := h.free[d][1..]], arenas := h.arenas[PageOf(b) := a.(cnt := a.cnt - 1)],
      live := h.live[b := size]), b)
  }

  lemma HeadBlock(h: State, d: nat, spare: int)
    requires Held(h, spare) && d < DESC_CNT && h.free[d] != []
    ensures FreeBlock(h, d, h.free[d][0]) && h.arenas[PageOf(h.free[d][0])].cnt > 0
  {
    var b := h.free[d][0];
    assert b in h.free[d];
    assert b in OnPage(h.free[d], PageOf(b));
  }

  /** Pages outside the arenas may come and go in the bitmap. */
  lemma OtherPagesMove(h: State, bits: seq<bool>, spare: int)
    requires Held(h, spare) && |bits| == |h.bits|
    requires forall p, q: nat | p in h.arenas && p <= q < p + Span(h.arenas[p]) :: Taken(h.(bits := bits), q)
    ensures Held(h.(bits := bits), spare)
  {
    var h' := h.(bits := bits);
    assert Shape(h') && PagesHeld(h') && FreeSound(h') && Counted(h') && InUse(h', spare);
    assert forall ptr | ptr in h.live :: LivePtr(h', ptr, h.live[ptr]) == LivePtr(h, ptr, h.live[ptr]);
  }

  /** A run of pages that was free in `h`, taken in `h'`, and so clear of every arena. */
  ghost predicate FreshRun(h: State, h': State, page: nat, cnt: nat) {
    && h.base <= page && page + cnt <= h.base + |h.bits| && page !in h.arenas
    && (forall q: nat | page <= q < page + cnt :: Taken(h', q))
    && (forall p | p in h.arenas :: p + Span(h.arenas[p]) <= page || page + cnt <= p)
  }

  /** A clear run meets no arena. */
  lemma RunWasClear(h: State, i: nat, cnt: nat)
    requires Shape(h) && PagesHeld(h) && 1 <= cnt && i + cnt <= |h.bits|
    requires forall k: nat | i <= k < i + cnt :: !h.bits[k]
    ensures h.base + i !in h.arenas
    ensures forall p | p in h.arenas :: p + Span(h.arenas[p]) <= h.base + i || h.base + i + cnt <= p
  {
    forall p | p in h.arenas
      ensures p + Span(h.arenas[p]) <= h.base + i || h.base + i + cnt <= p
    {
      var q := if p <= h.base + i then h.base + i else p;
      assert p <= q < p + Span(h.arenas[p]) ==> Taken(h, q);
    }
  }

  lemma TakePagesKeeps(h: State, cnt: nat, frames: bool)
    requires Inv(h) && 1 <= cnt
    ensures var (h', page) := TakePages(h, cnt, frames);
            Inv(h') && (page.Some? ==> FreshRun(h, h', page.value, cnt))
  {
    hide FreeSound, Counted, Accounted, LiveSound, InUse, Blocks, PerArena, FirstFit;
    var (h', page) := TakePages(h, cnt, frames);
    var i := FirstFit(h.bits, |h.bits| / 8, cnt);
    if i >= 0 {
      assert forall q: nat | Taken(h, q) :: Taken(h', q);
      OtherPagesMove(h, h'.bits, -1);
      RunWasClear(h, i, cnt);
    }
  }

  /** A fresh arena, all of it free: the call's spare. */
  lemma NewArenaKeeps(h0: State, h: State, page: nat, d: nat)
    requires Inv(h) && d < DESC_CNT && h.free[d] == [] && h0.arenas == h.arenas && FreshRun(h0, h, page, 1)
    requires h0.base == h.base && |h0.bits| == |h.bits|
    ensures Held(NewArena(h, page, d), page)
  {
    hide PageOf, FirstByte, IsBlock, PerArena, BlockSize, Blocks, FreeSound, Counted, LiveSound, Accounted;
    var h' := NewArena(h, page, d);
    assert forall q: nat :: Taken(h', q) == Taken(h, q);
    assert Shape(h') && PagesHeld(h') && InUse(h', page);
    NewArenaFree(h, h', page, d);
    NewArenaLive(h, h', page, d);
  }

  lemma NewArenaLive(h: State, h': State, page: nat, d: nat)
    requires Inv(h) && d < DESC_CNT && h.free[d] == [] && page !in h.arenas && h' == NewArena(h, page, d) && Shape(h')
    ensures LiveSound(h') && Accounted(h')
  {
    hide PageOf, FirstByte, IsBlock, PerArena, BlockSize, Blocks, FreeSound, Counted, PagesHeld, InUse;
    BlocksDistinct(page, d);
    forall ptr | ptr in h.live
      ensures LivePtr(h', ptr, h.live[ptr])
    {
      assert LivePtr(h, ptr, h.live[ptr]);
    }
    forall p | p in h'.arenas
      ensures PageAccounted(h', p)
    {
      assert p in h.arenas ==> PageAccounted(h, p);
    }
  }

  lemma NewArenaFree(h: State, h': State, page: nat, d: nat)
    requires Inv(h) && d < DESC_CNT && h.free[d] == [] && page !in h.arenas && h' == NewArena(h, page, d) && Shape(h')
    ensures FreeSound(h') && Counted(h')
  {
    BlocksDistinct(page, d);
    assert h'.free[d] == Blocks(page, d);
    assert OnPage(h'.free[d], page) == BlockSet(page, d);
    forall p | p in h'.arenas && h'.arenas[p].Small?
      ensures h'.arenas[p].cnt == |OnPage(h'.free[h'.arenas[p].desc], p)|
    {
      if p != page && h.arenas[p].desc == d {
        assert OnPage(h'.free[d], p) == {} == OnPage(h.free[d], p);
      }
    }
    forall e: nat, b | e < DESC_CNT && b in h'.free[e]
      ensures FreeBlock(h', e, b)
    {
      if e != d {
        assert FreeBlock(h, e, b);
      }
    }
  }

  lemma TakeBlockShape(h: State, d: nat, size: nat, spare: int)
    requires Held(h, spare) && d < DESC_CNT && h.free[d] != [] && FreeBlock(h, d, h.free[d][0])
    requires h.arenas[PageOf(h.free[d][0])].cnt > 0
    ensures var h' := TakeBlock(h, d, size).0; Shape(h') && PagesHeld(h')
  {
    hide PageOf, IsBlock, PerArena, BlockSize, FreeSound, Counted, LiveSound, Accounted, InUse;
    var h' := TakeBlock(h, d, size).0;
    assert forall q: nat :: Taken(h', q) == Taken(h, q);
  }

  /** Handing out the head of the list leaves no arena spare. */
  lemma TakeBlockKeeps(h: State, d: nat, size: nat, spare: int)
    requires Held(h, spare) && d < DESC_CNT && h.free[d] != [] && 0 < size <= BlockSize(d)
    requires spare == -1 || spare == PageOf(h.free[d][0])
    ensures FreeBlock(h, d, h.free[d][0]) && h.arenas[PageOf(h.free[d][0])].cnt > 0 && h.free[d][0] !in h.live
    ensures Inv(TakeBlock(h, d, size).0)
  {
    hide PageOf, FirstByte, IsBlock, PerArena, BlockSet, Blocks;
    HeadBlock(h, d, spare);
    var b := h.free[d][0];
    var h' := TakeBlock(h, d, size).0;
    BlockHandedOut(h, d, b, spare);
    TakeBlockShape(h, d, size, spare);
    TakeBlockFree(h, h', d, size, spare);
    TakeBlockLive(h, h', d, size, spare);
    hide FreeSound, Counted, LiveSound, Accounted, PagesHeld, Shape;
  }

  lemma BlockHandedOut(h: State, d: nat, b: nat, spare: int)
    requires Held(h, spare) && d < DESC_CNT && b in h.free[d]
    ensures b !in h.live && FreeBlock(h, d, b) && h.arenas[PageOf(b)].cnt <= PerArena(d)
  {
    assert FreeBlock(h, d, b);
    assert b in h.live ==> LivePtr(h, b, h.live[b]);
    BlocksDistinct(PageOf(b), d);
    Subset(OnPage(h.free[d], PageOf(b)), BlockSet(PageOf(b), d));
  }

  lemma TakeBlockFree(h: State, h': State, d: nat, size: nat, spare: int)
    requires Held(h, spare) && d < DESC_CNT && h.free[d] != [] && FreeBlock(h, d, h.free[d][0])
    requires h.arenas[PageOf(h.free[d][0])].cnt > 0
    requires h' == TakeBlock(h, d, size).0 && Shape(h')
    ensures FreeSound(h') && Counted(h')
  {
    hide PageOf, FirstByte, IsBlock, PerArena, BlockSize, BlockSet, Blocks;
    var b := h.free[d][0];
    var rest := h.free[d][1..];
    assert h.free[d] == [b] + rest && b !in rest;
    assert OnPage(rest, PageOf(b)) == OnPage(h.free[d], PageOf(b)) - {b} && b in OnPage(h.free[d], PageOf(b));
    forall p | p in h.arenas && p != PageOf(b)
      ensures OnPage(rest, p) == OnPage(h.free[d], p)
    {
    }
    forall e: nat, x | e < DESC_CNT && x in h'.free[e]
      ensures FreeBlock(h', e, x)
    {
      assert x in h.free[e];
      assert FreeBlock(h, e, x);
    }
  }

  lemma TakeBlockRest(h: State, d: nat, spare: int)
    requires Held(h, spare) && d < DESC_CNT && h.free[d] != []
    ensures h.free[d] == [h.free[d][0]] + h.free[d][1..] && h.free[d][0] !in h.free[d][1..]
  {
  }

  lemma TakeBlockAccounted(h: State, h': State, d: nat, size: nat, spare: int)
    requires Held(h, spare) && d < DESC_CNT && h.free[d] != [] && FreeBlock(h, d, h.free[d][0])
    requires h.arenas[PageOf(h.free[d][0])].cnt > 0 && h' == TakeBlock(h, d, size).0 && Shape(h')
    ensures Accounted(h')
  {
    hide PageOf, FirstByte, IsBlock, PerArena, BlockSize, BlockSet, Blocks, FreeSound, Counted, PagesHeld, InUse,
         LiveSound;
    TakeBlockRest(h, d, spare);
    forall p | p in h'.arenas
      ensures PageAccounted(h', p)
    {
      assert PageAccounted(h, p);
    }
  }

  lemma TakeBlockLive(h: State, h': State, d: nat, size: nat, spare: int)
    requires Held(h, spare) && d < DESC_CNT && h.free[d] != [] && FreeBlock(h, d, h.free[d][0])
    requires h.arenas[PageOf(h.free[d][0])].cnt > 0
    requires h' == TakeBlock(h, d, size).0 && Shape(h') && 0 < size <= BlockSize(d)
    ensures LiveSound(h') && Accounted(h')
  {
    hide PageOf, FirstByte, IsBlock, PerArena, BlockSize, BlockSet, Blocks, FreeSound, Counted, PagesHeld, InUse;
    TakeBlockRest(h, d, spare);
    var b := h.free[d][0];
    forall ptr | ptr in h'.live
      ensures LivePtr(h', ptr, h'.live[ptr])
    {
      if ptr != b {
        assert LivePtr(h, ptr, h.live[ptr]);
      }
    }
    TakeBlockAccounted(h, h', d, size, spare);
  }

  // ---- sys_free ----

  /** A live small block back at the tail of its free list. */
  function PutBlock(h: State, ptr: nat): State
    requires Shape(h) && PageOf(ptr) in h.arenas && h.arenas[PageOf(ptr)].Small?
  {
    var a := h.arenas[PageOf(ptr)];
    h.(free := h.free[a.desc := h.free[a.desc] + [ptr]], arenas := h.arenas[PageOf(ptr) := a.(cnt := a.cnt + 1)],
      live := h.live - {ptr})
  }

  /** mfree_page as the bitmap sees it, the arena gone. */
  function DropPages(h: State, page: nat): State
    requires Shape(h) && page in h.arenas
  {
    h.(bits := WithRun(h.bits, page - h.base, Span(h.arenas[page]), false), arenas := h.arenas - {page})
  }

  function DropArena(h: State, page: nat): State
    requires Shape(h) && page in h.arenas && h.arenas[page].Small?
  {
    var d := h.arenas[page].desc;
    DropPages(h.(free := h.free[d := Without(h.free[d], BlockSet(page, d))]), page)
  }

  /** sys_free on a live pointer. */
  function Free(h: State, ptr: nat): State
    requires Shape(h) && PageOf(ptr) in h.arenas
  {
    if h.arenas[PageOf(ptr)].Large? then DropPages(h, PageOf(ptr)).(live := h.live - {ptr})
    else
      var h1 := PutBlock(h, ptr);
      if h1.arenas[PageOf(ptr)].cnt == PerArena(h.arenas[PageOf(ptr)].desc) then DropArena(h1, PageOf(ptr)) else h1
  }

  lemma PutBlockShape(h: State, ptr: nat)
    requires Inv(h) && ptr in h.live && PageOf(ptr) in h.arenas && h.arenas[PageOf(ptr)].Small?
    ensures var h' := PutBlock(h, ptr); Shape(h') && PagesHeld(h') && InUse(h', PageOf(ptr))
  {
    hide PageOf, FirstByte, IsBlock, PerArena, BlockSize, BlockSet, Blocks, FreeSound, Counted, Accounted, LiveSound;
    var h' := PutBlock(h, ptr);
    assert forall q: nat :: Taken(h', q) == Taken(h, q);
  }

  lemma PutBlockKeeps(h: State, ptr: nat)
    requires Inv(h) && ptr in h.live && PageOf(ptr) in h.arenas && h.arenas[PageOf(ptr)].Small?
    ensures Held(PutBlock(h, ptr), PageOf(ptr))
  {
    hide PageOf, FirstByte, IsBlock, PerArena, BlockSize, BlockSet, Blocks, FreeSound, Counted, Accounted;
    var h' := PutBlock(h, ptr);
    PutBlockShape(h, ptr);
    PutBlockFree(h, h', ptr);
    PutBlockLive(h, h', ptr);
    hide LiveSound, PagesHeld, Shape;
  }

  lemma PutBlockCounted(h: State, h': State, ptr: nat)
    requires Inv(h) && ptr in h.live && PageOf(ptr) in h.arenas && h.arenas[PageOf(ptr)].Small?
    requires h' == PutBlock(h, ptr) && Shape(h')
    ensures Counted(h')
  {
    hide PageOf, FirstByte, IsBlock, PerArena, BlockSize, BlockSet, Blocks, PagesHeld, InUse, Accounted, FreeSound;
    var d := h.arenas[PageOf(ptr)].desc;
    assert LivePtr(h, ptr, h.live[ptr]);
    hide LiveSound;
    assert OnPage(h'.free[d], PageOf(ptr)) == OnPage(h.free[d], PageOf(ptr)) + {ptr};
    forall p | p in h.arenas && p != PageOf(ptr)
      ensures OnPage(h'.free[d], p) == OnPage(h.free[d], p)
    {
    }
  }

  lemma PutBlockFree(h: State, h': State, ptr: nat)
    requires Inv(h) && ptr in h.live && PageOf(ptr) in h.arenas && h.arenas[PageOf(ptr)].Small?
    requires h' == PutBlock(h, ptr) && Shape(h')
    ensures FreeSound(h') && Counted(h')
  {
    hide PageOf, FirstByte, IsBlock, PerArena, BlockSize, BlockSet, Blocks, PagesHeld, InUse, Accounted, Counted;
    assert LivePtr(h, ptr, h.live[ptr]);
    hide LiveSound;
    forall e: nat, x | e < DESC_CNT && x in h'.free[e]
      ensures FreeBlock(h', e, x)
    {
      if x != ptr {
        assert x in h.free[e];
        assert FreeBlock(h, e, x);
      }
    }
    PutBlockCounted(h, h', ptr);
  }

  lemma PutBlockLive(h: State, h': State, ptr: nat)
    requires Inv(h) && ptr in h.live && PageOf(ptr) in h.arenas && h.arenas[PageOf(ptr)].Small?
    requires h' == PutBlock(h, ptr) && Shape(h')
    ensures LiveSound(h') && Accounted(h')
  {
    hide PageOf, FirstByte, IsBlock, PerArena, BlockSize, FreeSound, Counted, PagesHeld, InUse;
    forall a | a in h'.live
      ensures LivePtr(h', a, h'.live[a])
    {
      assert LivePtr(h, a, h.live[a]);
    }
    forall p | p in h'.arenas
      ensures PageAccounted(h', p)
    {
      StillAccounted(h, h', p, ptr);
    }
  }

  /** Giving up `ptr` leaves every other page's blocks accounted for. */
  lemma StillAccounted(h: State, h': State, p: nat, ptr: nat)
    requires Inv(h) && Shape(h') && p in h.arenas && p in h'.arenas && h.arenas[p].Small? == h'.arenas[p].Small?
    requires h'.arenas[p].Small? ==> h'.arenas[p].desc == h.arenas[p].desc
    requires forall d: nat, b | d < DESC_CNT && b in h.free[d] && PageOf(b) == p :: b in h'.free[d]
    requires h'.live == h.live - {ptr}
    requires PageOf(ptr) == p ==> h'.arenas[p].Small? && ptr in h'.free[h'.arenas[p].desc]
    ensures PageAccounted(h', p)
  {
    hide PageOf, FirstByte, IsBlock, PerArena, BlockSize, FreeSound, Counted, PagesHeld, InUse, LiveSound;
    FirstBytePage(p);
    assert PageAccounted(h, p);
    if h.arenas[p].Small? {
      BlocksOnPage(p, h.arenas[p].desc);
    }
  }

  /** When the count says full, every block of the arena is on the free list. */
  lemma FullArena(h: State, page: nat)
    requires Held(h, page) && page in h.arenas && h.arenas[page].Small?
    requires h.arenas[page].cnt == PerArena(h.arenas[page].desc)
    ensures OnPage(h.free[h.arenas[page].desc], page) == BlockSet(page, h.arenas[page].desc)
    ensures forall a | a in h.live :: PageOf(a) != page
  {
    var d := h.arenas[page].desc;
    var mine := OnPage(h.free[d], page);
    BlocksDistinct(page, d);
    assert mine <= BlockSet(page, d) by {
      forall b | b in mine
        ensures b in BlockSet(page, d)
      {
        assert FreeBlock(h, d, b);
      }
    }
    SameSize(mine, BlockSet(page, d));
    forall a | a in h.live
      ensures PageOf(a) != page
    {
      assert LivePtr(h, a, h.live[a]);
    }
  }

  lemma DropArenaKeeps(h: State, page: nat)
    requires Held(h, page) && page in h.arenas && h.arenas[page].Small?
    requires h.arenas[page].cnt == PerArena(h.arenas[page].desc)
    ensures Inv(DropArena(h, page))
  {
    var d := h.arenas[page].desc;
    FullArena(h, page);
    WithoutMembers(h.free[d], BlockSet(page, d));
    var h' := DropArena(h, page);
    DropPagesHeld(h, h', page);
    DropArenaFree(h, h', page);
    DropArenaLive(h, h', page);
  }

  lemma DropPagesHeld(h: State, h': State, page: nat)
    requires Held(h, page) && page in h.arenas && |h'.free| == DESC_CNT
    requires h' == DropPages(h, page).(free := h'.free, live := h'.live)
    ensures Shape(h') && PagesHeld(h') && InUse(h', -1)
  {
    hide FreeSound, Counted, LiveSound, Accounted;
    forall p, q: nat | p in h'.arenas && p <= q < p + Span(h'.arenas[p])
      ensures Taken(h', q)
    {
      assert Taken(h, q);
    }
  }

  lemma DropArenaFree(h: State, h': State, page: nat)
    requires Held(h, page) && page in h.arenas && h.arenas[page].Small? && h' == DropArena(h, page) && Shape(h')
    requires OnPage(h.free[h.arenas[page].desc], page) == BlockSet(page, h.arenas[page].desc)
    ensures FreeSound(h') && Counted(h')
  {
    hide PageOf, FirstByte, IsBlock, PerArena, BlockSize, BlockSet, Blocks;
    var d := h.arenas[page].desc;
    WithoutMembers(h.free[d], BlockSet(page, d));
    BlocksDistinct(page, d);
    forall p | p in h'.arenas
      ensures OnPage(h'.free[d], p) == OnPage(h.free[d], p)
    {
    }
    forall e: nat, x | e < DESC_CNT && x in h'.free[e]
      ensures FreeBlock(h', e, x)
    {
      assert x in h.free[e];
      assert FreeBlock(h, e, x);
    }
  }

  lemma DropArenaLive(h: State, h': State, page: nat)
    requires Held(h, page) && page in h.arenas && h.arenas[page].Small? && h' == DropArena(h, page) && Shape(h')
    requires forall a | a in h.live :: PageOf(a) != page
    ensures LiveSound(h') && Accounted(h')
  {
    hide PageOf, FirstByte, IsBlock, PerArena, BlockSize, Blocks, FreeSound, Counted, PagesHeld, InUse;
    var d := h.arenas[page].desc;
    WithoutMembers(h.free[d], BlockSet(page, d));
    BlocksDistinct(page, d);
    forall a | a in h'.live
      ensures LivePtr(h', a, h'.live[a])
    {
      assert LivePtr(h, a, h.live[a]);
    }
    forall p | p in h'.arenas
      ensures PageAccounted(h', p)
    {
      assert PageAccounted(h, p);
      if h.arenas[p].Small? {
        BlocksOnPage(p, h.arenas[p].desc);
      }
    }
  }

  lemma DropLargeKeeps(h: State, ptr: nat)
    requires Inv(h) && ptr in h.live && PageOf(ptr) in h.arenas && h.arenas[PageOf(ptr)].Large?
    ensures Inv(Free(h, ptr))
  {
    var h' := Free(h, ptr);
    assert Held(h, PageOf(ptr));
    hide PageOf, FirstByte, IsBlock, PerArena, BlockSize, FreeSound, Counted, PagesHeld, InUse, LiveSound, Accounted;
    DropPagesHeld(h, h', PageOf(ptr));
    DropLargeFree(h, h', PageOf(ptr));
    DropLargeLive(h, h', ptr);
  }

  lemma DropLargeFree(h: State, h': State, page: nat)
    requires Inv(h) && page in h.arenas && h.arenas[page].Large? && Shape(h') && h'.free == h.free
    requires h'.arenas == h.arenas - {page}
    ensures FreeSound(h') && Counted(h')
  {
    hide PageOf, FirstByte, IsBlock, PerArena, BlockSize, PagesHeld, LiveSound, Accounted;
    forall e: nat, x | e < DESC_CNT && x in h'.free[e]
      ensures FreeBlock(h', e, x)
    {
      assert FreeBlock(h, e, x);
    }
  }

  lemma DropLargeLive(h: State, h': State, ptr: nat)
    requires Inv(h) && ptr in h.live && PageOf(ptr) in h.arenas && h.arenas[PageOf(ptr)].Large?
    requires Shape(h') && h'.free == h.free && h'.arenas == h.arenas - {PageOf(ptr)} && h'.live == h.live - {ptr}
    ensures LiveSound(h') && Accounted(h')
  {
    hide PageOf, FirstByte, IsBlock, PerArena, BlockSize, PagesHeld, FreeSound, Counted;
    assert LivePtr(h, ptr, h.live[ptr]);
    forall a | a in h'.live
      ensures LivePtr(h', a, h'.live[a])
    {
      assert LivePtr(h, a, h.live[a]);
    }
    forall p | p in h'.arenas
      ensures PageAccounted(h', p)
    {
      StillAccounted(h, h', p, ptr);
    }
  }

  lemma FreeKeeps(h: State, ptr: nat)
    requires Inv(h) && ptr in h.live
    ensures PageOf(ptr) in h.arenas && Inv(Free(h, ptr))
    ensures Free(h, ptr).live == h.live - {ptr}
  {
    hide PageOf, FirstByte, IsBlock, PerArena, BlockSize, BlockSet, Blocks;
    assert LivePtr(h, ptr, h.live[ptr]);
    hide LiveSound, Counted, FreeSound, Accounted, PagesHeld;
    if h.arenas[PageOf(ptr)].Large? {
      DropLargeKeeps(h, ptr);
    } else {
      PutBlockKeeps(h, ptr);
      var h1 := PutBlock(h, ptr);
      if h1.arenas[PageOf(ptr)].cnt == PerArena(h.arenas[PageOf(ptr)].desc) {
        DropArenaKeeps(h1, PageOf(ptr));
      } else {
        CountFits(h1, PageOf(ptr));
      }
    }
  }

  lemma CountFits(h: State, page: nat)
    requires Held(h, page) && page in h.arenas && h.arenas[page].Small?
    ensures h.arenas[page].cnt <= PerArena(h.arenas[page].desc)
  {
    var d := h.arenas[page].desc;
    BlocksDistinct(page, d);
    forall b | b in OnPage(h.free[d], page)
      ensures b in BlockSet(page, d)
    {
      assert FreeBlock(h, d, b);
    }
    Subset(OnPage(h.free[d], page), BlockSet(page, d));
  }
}
