/**
 * What processes see of each other's memory: nothing below 3 GB, everything above. The locks of
 * userprog/actualuserprogs/readerwriter.c are below.
 */
module Sharing {
  import opened Paging
  import opened Pools
  import opened PageSteps
  import opened Fat
  import opened AddressSpaces
  import opened Fork
  import opened Teardown
  import opened UserMemory

  /** Two processes see one frame at an address exactly when it lies in the kernel half. */
  lemma SharedIff(s: Snap, p: nat, c: nat, vp: nat)
    requires Inv(s) && p in s.uv && c in s.uv && p != c && vp < WINDOW
    requires p < 0x10_0000 && c < 0x10_0000 && Trans(s.mem, p, vp).Some?
    ensures Trans(s.mem, c, vp) == Trans(s.mem, p, vp) <==> KERNEL_HALF <= vp
  {
    if vp < KERNEL_HALF {
      MappedOnce(s, UserPage(p, vp), UserPage(c, vp));
    } else {
      KernelHalf(s, p);
      KernelHalf(s, c);
      assert 768 <= vp / 1024 < 1023;
    }
  }

  /** A frame that holds neither a page table nor a directory. */
  ghost predicate Plain(s: Snap, f: nat) { f < 0x10_0000 && f !in s.uv && (f in s.owner ==> s.owner[f].Mapped?) }

  /** The byte at address `x` in the space of `pd`. */
  ghost function Seen(s: Snap, pd: nat, x: nat): Byte
    requires pd < 0x10_0000 && x / 4096 < 0x10_0000 && Trans(s.mem, pd, x / 4096).Some?
  {
    ByteOf(s.mem[Trans(s.mem, pd, x / 4096).value][x % 4096 / 4], x % 4096 % 4)
  }

  lemma TranslationStays(s: Snap, f: nat, row: Frame, pd: nat, vp: nat)
    requires Inv(s) && Plain(s, f) && pd in s.uv && pd < 0x10_0000 && vp < WINDOW
    ensures Trans(s.mem[f := row], pd, vp) == Trans(s.mem, pd, vp)
  {
    var slot := vp / 1024;
    KernelHalf(s, pd);
    assert s.mem[f := row][pd] == s.mem[pd];
    if Present(s.mem[pd][slot]) {
      var t := FrameOf(s.mem[pd][slot]);
      assert t in s.owner && !s.owner[t].Mapped? by {
        if slot >= 768 {
          assert s.mem[pd][slot] == s.mem[BOOT][slot];
        }
      }
    }
  }

  /** A byte one process stores, another sees exactly when it lies in the kernel half; else it keeps its own. */
  lemma StoreSeenIff(s: Snap, p: nat, c: nat, x: nat, b: Byte, mem: Memory)
    requires Inv(s) && p in s.uv && c in s.uv && p != c && p < 0x10_0000 && c < 0x10_0000 && x / 4096 < WINDOW
    requires Trans(s.mem, p, x / 4096).Some? && Trans(s.mem, c, x / 4096).Some?
    requires var f, i := Trans(s.mem, p, x / 4096).value, x % 4096 / 4;
             Plain(s, f) && mem == Put(s.mem, f, i, WithByte(s.mem[f][i], x % 4096 % 4, b))
    ensures Trans(mem, c, x / 4096) == Trans(s.mem, c, x / 4096)
    ensures Seen(s.(mem := mem), c, x) == if KERNEL_HALF <= x / 4096 then b else Seen(s, c, x)
  {
    var f := Trans(s.mem, p, x / 4096).value;
    SharedIff(s, p, c, x / 4096);
    TranslationStays(s, f, mem[f], c, x / 4096);
    assert mem == s.mem[f := mem[f]];
    hide Inv, ByteOf;
  }

  /**
   * After a fork the child holds the parent's byte at every mapped address, and no longer when the parent stores
   * there: a lock in user memory is two locks.
   */
  lemma ForkedLocksApart(s: Snap, z: Snap, z': Snap, parent: nat, child: nat, dv: nat, x: nat, b: Byte)
    requires Inv(s) && Forked(s, z, parent, child, dv) && UserMemory.Mapped(s, parent, x)
    requires UserMemory.Mapped(z, parent, x)
    requires var f, i := Look(z, UserPage(parent, x / 4096)).value, x % 4096 / 4;
             z' == z.(mem := Put(z.mem, f, i, WithByte(z.mem[f][i], x % 4096 % 4, b)))
    ensures UserMemory.Mapped(z, child, x) && ByteIn(z, child, x) == ByteIn(s, parent, x)
    ensures UserMemory.Mapped(z', child, x) && ByteIn(z', child, x) == ByteIn(s, parent, x)
    ensures UserMemory.Mapped(z', parent, x) && ByteIn(z', parent, x) == b
  {
    CopiedByte(s, z, parent, child, dv, x);
    hide Inv, Forked, ByteIn;
    ForkedGives(s, z, parent, child, dv);
    ByteStored(z, parent, x, b, z');
  }

  lemma CopiedByte(s: Snap, z: Snap, parent: nat, child: nat, dv: nat, x: nat)
    requires Inv(s) && Forked(s, z, parent, child, dv) && UserMemory.Mapped(s, parent, x)
    ensures Inv(z) && child != parent && UserMemory.Mapped(z, child, x) && ByteIn(z, child, x) == ByteIn(s, parent, x)
  {
    hide Inv;
    var pg := UserPage(parent, x / 4096);
    InvSane(s);
    MappedOnce(s, pg, pg);
    assert UsedBelow(s.uv[parent], x / 4096, 8 * USER_LEN);
    assert Copied(s, z, parent, child, x / 4096);
  }
}
