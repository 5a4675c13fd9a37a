/** Memory as a process sees it: bytes at the addresses of its own half. */
module UserMemory {
  import opened Paging
  import opened Pools
  import opened PageAllocator
  import opened AddressSpaces
  import opened Fork
  import opened Fat

  // ---- bytes of a word, low one first ----

  function ByteOf(w: Word, k: nat): (b: Byte)
    requires k < 4
  {
    if k == 0 then w % 256 else if k == 1 then w / 256 % 256 else if k == 2 then w / 0x1_0000 % 256 else w / 0x100_0000
  }

  function FromBytes(b0: Byte, b1: Byte, b2: Byte, b3: Byte): Word { b0 + 256 * b1 + 0x1_0000 * b2 + 0x100_0000 * b3 }

  lemma BytesOfWord(b0: Byte, b1: Byte, b2: Byte, b3: Byte)
    ensures var w := FromBytes(b0, b1, b2, b3);
            ByteOf(w, 0) == b0 && ByteOf(w, 1) == b1 && ByteOf(w, 2) == b2 && ByteOf(w, 3) == b3
  {
    var w := FromBytes(b0, b1, b2, b3);
    assert w / 256 == b1 + 256 * b2 + 0x1_0000 * b3;
    assert w / 0x1_0000 == b2 + 256 * b3;
  }

  /** A word is its four bytes, the low one first. */
  lemma WordOfBytes(w: Word)
    ensures w == ByteOf(w, 0) as int + 256 * ByteOf(w, 1) as int + 0x1_0000 * ByteOf(w, 2) as int
                 + 0x100_0000 * ByteOf(w, 3) as int
  {
    var n: int := w;
    assert n == n % 256 + 256 * (n / 256) && n / 256 / 256 == n / 0x1_0000;
    assert n / 256 == n / 256 % 256 + 256 * (n / 0x1_0000) && n / 0x1_0000 / 256 == n / 0x100_0000;
    assert n / 0x1_0000 == n / 0x1_0000 % 256 + 256 * (n / 0x100_0000);
  }

  /** What a store of one byte makes of the word around it. */
  function WithByte(w: Word, k: nat, b: Byte): (r: Word)
    requires k < 4
    ensures forall j: nat | j < 4 :: ByteOf(r, j) == if j == k then b else ByteOf(w, j)
  {
    var b0, b1, b2, b3 := ByteOf(w, 0), ByteOf(w, 1), ByteOf(w, 2), ByteOf(w, 3);
    var c0, c1 := if k == 0 then b else b0, if k == 1 then b else b1;
    var c2, c3 := if k == 2 then b else b2, if k == 3 then b else b3;
    BytesOfWord(c0, c1, c2, c3);
    FromBytes(c0, c1, c2, c3)
  }

  // ---- bytes of a process ----

  /** Address `x` of the process with directory `pd` is mapped. */
  ghost predicate Mapped(s: Snap, pd: nat, x: nat) {
    InSpace(s, UserPage(pd, x / 4096)) && Look(s, UserPage(pd, x / 4096)).Some?
  }

  ghost function ByteIn(s: Snap, pd: nat, x: nat): Byte
    requires Mapped(s, pd, x)
  {
    ByteOf(s.mem[Look(s, UserPage(pd, x / 4096)).value][x % 4096 / 4], x % 4096 % 4)
  }

  /** `s'` is `s` but for bytes of mapped pages, and of them those from `from` up to `to` of `pd` alone. */
  ghost predicate OnlyBytes(s: Snap, s': Snap, pd: nat, from: nat, to: nat)
    requires Inv(s)
  {
    && Inv(s') && s' == s.(mem := s'.mem) && (forall q | InSpace(s, q) :: Look(s', q) == Look(s, q))
    && (forall d, y: nat | Mapped(s, d, y) && !(d == pd && from <= y < to) :: ByteIn(s', d, y) == ByteIn(s, d, y))
    && (forall g: nat | g < 0x10_0000 && !OwnPage(s, pd, g) :: s'.mem[g] == s.mem[g])
  }

  /** Frame `g` backs a user page of `pd`. */
  ghost predicate OwnPage(s: Snap, pd: nat, g: nat) {
    g in s.owner && s.owner[g].Mapped? && s.owner[g].page.UserPage? && s.owner[g].page.pd == pd
  }

  /** One byte stored is one byte changed, in every process. */
  lemma ByteStored(s: Snap, pd: nat, x: nat, b: Byte, s': Snap)
    requires Inv(s) && Mapped(s, pd, x)
    requires var f, i := Look(s, UserPage(pd, x / 4096)).value, x % 4096 / 4;
             s' == s.(mem := Put(s.mem, f, i, WithByte(s.mem[f][i], x % 4096 % 4, b)))
    ensures OnlyBytes(s, s', pd, x, x + 1) && Mapped(s', pd, x) && ByteIn(s', pd, x) == b
  {
    var pg := UserPage(pd, x / 4096);
    var f, i := Look(s, pg).value, x % 4096 / 4;
    UserFrameIsData(s, pg);
    DataWrite(s, f, s'.mem[f]);
    assert s'.mem == s.mem[f := s'.mem[f]];
    hide Inv, DataFrame, Trans, WithByte, ByteOf;
    forall d, y: nat | Mapped(s, d, y) && !(d == pd && x <= y < x + 1)
      ensures ByteIn(s', d, y) == ByteIn(s, d, y)
    {
      OtherByte(s, pd, x, b, s', d, y);
    }
    StoredByte(s.mem[f][i], x % 4096 % 4, b);
  }

  lemma StoredByte(w: Word, k: nat, b: Byte)
    requires k < 4
    ensures ByteOf(WithByte(w, k, b), k) == b
  {
  }

  lemma UserFrameIsData(s: Snap, pg: Page)
    requires Inv(s) && InSpace(s, pg) && pg.UserPage? && Look(s, pg).Some?
    ensures DataFrame(s, Look(s, pg).value) && s.owner[Look(s, pg).value] == Owner.Mapped(pg)
  {
    assert Managed(s, pg);
  }

  lemma WordByte(mem: Memory, f: nat, i: nat, k: nat, b: Byte, g: nat, j: nat, l: nat)
    requires f < 0x10_0000 && i < 1024 && k < 4 && g < 0x10_0000 && j < 1024 && l < 4 && (f != g || i != j || k != l)
    ensures ByteOf(Put(mem, f, i, WithByte(mem[f][i], k, b))[g][j], l) == ByteOf(mem[g][j], l)
  {
    hide ByteOf, Put;
  }

  lemma SameAddress(x: nat, y: nat)
    requires x / 4096 == y / 4096 && x % 4096 / 4 == y % 4096 / 4 && x % 4096 % 4 == y % 4096 % 4
    ensures x == y
  {
    assert x == 4096 * (x / 4096) + x % 4096 && y == 4096 * (y / 4096) + y % 4096;
    assert x % 4096 == 4 * (x % 4096 / 4) + x % 4096 % 4;
  }

  lemma OtherByte(s: Snap, pd: nat, x: nat, b: Byte, s': Snap, d: nat, y: nat)
    requires Inv(s) && Mapped(s, pd, x) && Mapped(s, d, y) && (d != pd || y != x)
    requires var f, i := Look(s, UserPage(pd, x / 4096)).value, x % 4096 / 4;
             s' == s.(mem := Put(s.mem, f, i, WithByte(s.mem[f][i], x % 4096 % 4, b)))
    requires Look(s', UserPage(d, y / 4096)) == Look(s, UserPage(d, y / 4096))
    ensures ByteIn(s', d, y) == ByteIn(s, d, y)
  {
    hide Inv, Look, ByteOf, WithByte, Put, DataFrame;
    var p, q := UserPage(pd, x / 4096), UserPage(d, y / 4096);
    UserFrameIsData(s, p);
    UserFrameIsData(s, q);
    if p == q && x % 4096 / 4 == y % 4096 / 4 && x % 4096 % 4 == y % 4096 % 4 {
      SameAddress(x, y);
      assert false;
    }
    WordByte(s.mem, Look(s, p).value, x % 4096 / 4, x % 4096 % 4, b, Look(s, q).value, y % 4096 / 4, y % 4096 % 4);
  }

  /** A byte store through the active directory; false is a page fault. */
  method StoreByte(m: Machine, x: Word, b: Byte) returns (ok: bool)
    requires m.Valid() && m.cr3 in m.userVaddr && x / 4096 < KERNEL_HALF
    modifies m`mem
    ensures m.Valid() && ok == old(Mapped(m.S(), m.cr3, x)) && (!ok ==> m.mem == old(m.mem))
    ensures ok ==> OnlyBytes(old(m.S()), m.S(), m.cr3, x, x + 1) && Mapped(m.S(), m.cr3, x)
    ensures ok ==> ByteIn(m.S(), m.cr3, x) == b
  {
    hide Inv, OnlyBytes;
    ghost var s := m.S();
    ChildIsDirectory(s, m.cr3);
    var at := Walk(m.mem, m.cr3, x);
    ok := at.Some?;
    if ok {
      var f, i := at.value.frame, at.value.offset / 4;
      m.mem := Put(m.mem, f, i, WithByte(m.mem[f][i], x % 4096 % 4, b));
      ByteStored(s, m.cr3, x, b, m.S());
      StoreKeeps(s, m.S(), m.cr3, x, x + 1);
    }
  }

  lemma StoreKeeps(s: Snap, s': Snap, pd: nat, from: nat, to: nat)
    requires Inv(s) && OnlyBytes(s, s', pd, from, to)
    ensures Inv(s') && s'.uv == s.uv
  {
  }

  /** The bytes of `dst` stand from `x` on, and nothing else changed. */
  ghost predicate Holds(s: Snap, s': Snap, pd: nat, x: nat, dst: seq<Byte>)
    requires Inv(s)
  {
    && OnlyBytes(s, s', pd, x, x + |dst|)
    && forall j: nat | j < |dst| :: Stands(s', pd, x + j, dst[j])
  }

  ghost predicate Stands(s: Snap, pd: nat, x: nat, b: Byte) { Mapped(s, pd, x) && ByteIn(s, pd, x) == b }

  lemma OnlyBytesJoin(s: Snap, s1: Snap, s2: Snap, pd: nat, a: nat, b: nat, c: nat)
    requires Inv(s) && OnlyBytes(s, s1, pd, a, b) && Inv(s1) && OnlyBytes(s1, s2, pd, b, c) && a <= b <= c
    ensures OnlyBytes(s, s2, pd, a, c)
  {
    hide Inv, Trans;
    forall d, y: nat | Mapped(s, d, y) && !(d == pd && a <= y < c)
      ensures ByteIn(s2, d, y) == ByteIn(s, d, y)
    {
      assert Mapped(s1, d, y);
      assert ByteIn(s1, d, y) == ByteIn(s, d, y);
    }
  }

  lemma HoldsMore(s: Snap, s1: Snap, s2: Snap, pd: nat, x: nat, dst: seq<Byte>, b: Byte)
    requires Inv(s) && Holds(s, s1, pd, x, dst) && Inv(s1) && OnlyBytes(s1, s2, pd, x + |dst|, x + |dst| + 1)
    requires Mapped(s2, pd, x + |dst|) && ByteIn(s2, pd, x + |dst|) == b
    ensures Holds(s, s2, pd, x, dst + [b])
  {
    hide Inv, Trans;
    var more := dst + [b];
    OnlyBytesJoin(s, s1, s2, pd, x, x + |dst|, x + |dst| + 1);
    forall j: nat | j < |more|
      ensures Stands(s2, pd, x + j, more[j])
    {
      if j < |dst| {
        assert Stands(s1, pd, x + j, dst[j]);
      }
    }
  }

  /** The stores of sys_read_file: byte after byte from `x` on, up to the first unmapped page. */
  method StoreBytes(m: Machine, x: Word, dst: seq<Byte>) returns (n: nat)
    requires m.Valid() && m.cr3 in m.userVaddr && x + |dst| <= KERNEL_HALF * 4096
    modifies m`mem
    ensures m.Valid() && n <= |dst| && Holds(old(m.S()), m.S(), m.cr3, x, dst[..n])
    ensures n < |dst| ==> !old(Mapped(m.S(), m.cr3, x + n))
  {
    hide Inv, Holds, OnlyBytes, ByteIn, Mapped;
    ghost var s := m.S();
    n := 0;
    HoldsNothing(s, m.cr3, x);
    while n < |dst|
      invariant 0 <= n <= |dst| && m.Valid() && m.cr3 in m.userVaddr
      invariant Holds(s, m.S(), m.cr3, x, dst[..n])
    {
      ghost var s1 := m.S();
      SameMapped(s, s1, m.cr3, x, dst[..n], x + n);
      var ok := StoreByte(m, x + n, dst[n]);
      if !ok {
        return;
      }
      HoldsMore(s, s1, m.S(), m.cr3, x, dst[..n], dst[n]);
      assert dst[..n + 1] == dst[..n] + [dst[n]];
      n := n + 1;
    }
  }

  lemma HoldsNothing(s: Snap, pd: nat, x: nat)
    requires Inv(s)
    ensures Holds(s, s, pd, x, [])
  {
  }

  lemma SameMapped(s: Snap, s1: Snap, pd: nat, x: nat, dst: seq<Byte>, y: nat)
    requires Inv(s) && Holds(s, s1, pd, x, dst)
    ensures Mapped(s1, pd, y) == Mapped(s, pd, y)
  {
    hide Inv;
  }
}
