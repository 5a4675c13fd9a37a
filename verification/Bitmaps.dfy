/** The byte-packed bitmap of lib/kernel/bitmap.c and its first-fit search. */
module Bitmaps {

  /** `1 << i` on a byte. */
  function Mask(i: nat): bv8
    requires i < 8
  {
    if i == 0 then 1 else if i == 1 then 2 else if i == 2 then 4 else if i == 3 then 8
    else if i == 4 then 16 else if i == 5 then 32 else if i == 6 then 64 else 128
  }

  /** Bit `i` of byte `b`, as bitmap_check_idx tests it. */
  predicate Bit(b: bv8, i: nat)
    requires i < 8
  {
    b & Mask(i) != 0
  }

  /** Bits are counted from the low end: bit `i` is the lowest one after a shift by `i`. */
  lemma BitIsShifted(b: bv8, i: nat)
    requires i < 8
    ensures Bit(b, i) <==> (b >> i) & 1 == 1
  {
  }

  /** The byte bitmap_set_idx stores: bit `i` or-ed in, or masked out; no other bit moves. */
  function WithBit(b: bv8, i: nat, on: bool): (r: bv8)
    requires i < 8
    ensures Bit(r, i) == on
    ensures forall j: nat | j < 8 && j != i :: Bit(r, j) == Bit(b, j)
  {
    if on then b | Mask(i) else b & !Mask(i)
  }

  /** A run bitmap_apply_cnt accepts at `i`: bit `i` clear and the `cnt - 1` bits after it clear. */
  predicate Fits(bits: seq<bool>, i: nat, cnt: nat)
    requires i < |bits| && i + cnt <= |bits|
  {
    !bits[i] && forall k: nat | i < k < i + cnt :: !bits[k]
  }

  /**
   * How many starts inside the bitmap the loop tries: those below `len - cnt`, because it compares a bit index
   * with a byte length. For `cnt > len` the unsigned difference wraps and no start is out of bounds.
   */
  function Window(len: nat, cnt: nat): nat {
    if cnt <= len then len - cnt else if cnt <= 8 * len then 8 * len - cnt + 1 else 0
  }

  /** The start bitmap_apply_cnt returns on a bitmap of `len` bytes: the least accepted one, -1 when there is none. */
  function FirstFit(bits: seq<bool>, len: nat, cnt: nat): (r: int)
    requires |bits| == 8 * len
    ensures r == -1 || 0 <= r < Window(len, cnt)
    ensures r >= 0 ==> Fits(bits, r, cnt) && forall i: nat | i < r :: !Fits(bits, i, cnt)
    ensures r == -1 <==> forall i: nat | i < Window(len, cnt) :: !Fits(bits, i, cnt)
  {
    FirstFitFrom(bits, len, cnt, 0)
  }

  function FirstFitFrom(bits: seq<bool>, len: nat, cnt: nat, from: nat): (r: int)
    requires |bits| == 8 * len && from <= Window(len, cnt)
    ensures r == -1 || from <= r < Window(len, cnt)
    ensures r >= 0 ==> Fits(bits, r, cnt) && forall i: nat | from <= i < r :: !Fits(bits, i, cnt)
    ensures r == -1 ==> forall i: nat | from <= i < Window(len, cnt) :: !Fits(bits, i, cnt)
    decreases Window(len, cnt) - from
  {
    if from == Window(len, cnt) then -1
    else if Fits(bits, from, cnt) then from
    else FirstFitFrom(bits, len, cnt, from + 1)
  }

  /** The search finds nothing inside and, its bound wrapped, goes on in the memory behind the bitmap. */
  predicate Strays(bits: seq<bool>, len: nat, cnt: nat)
    requires |bits| == 8 * len
  {
    cnt > len && FirstFit(bits, len, cnt) == -1
  }

  /** It does exactly when more bits than bytes are asked for and no run of them is clear. */
  lemma StraysIff(bits: seq<bool>, len: nat, cnt: nat)
    requires |bits| == 8 * len
    ensures Strays(bits, len, cnt) <==> cnt > len && forall i: nat | i + cnt <= 8 * len :: !Fits(bits, i, cnt)
  {
  }

  /** A kernel bitmap of 480 bytes with every other bit taken, and 481 pages asked for. */
  lemma StraysExample()
    ensures Strays(seq(3840, i => i % 2 == 0), 480, 481)
  {
    var bits := seq(3840, i => i % 2 == 0);
    forall i: nat | i < Window(480, 481)
      ensures !Fits(bits, i, 481)
    {
      if i % 2 == 1 {
        assert bits[i + 1];
      }
    }
  }

  /** A search can miss a free run: one byte, all eight bits clear, and no single bit is found. */
  lemma SearchMissesFreeBits()
    ensures var bits := seq(8, _ => false);
            FirstFit(bits, 1, 1) == -1 && forall i: nat | i < 8 :: Fits(bits, i, 1)
  {
    var bits := seq(8, _ => false);
    assert FirstFitFrom(bits, 1, 1, 0) == -1;
  }

  /**
   * The search finds the least free run exactly when it starts below the byte-length window; asked for more bits
   * than bytes, always.
   */
  lemma {:induction false} SearchSucceedsIff(bits: seq<bool>, len: nat, cnt: nat, least: nat)
    requires |bits| == 8 * len && 1 <= cnt
    requires least + cnt <= |bits| && Fits(bits, least, cnt)
    requires forall i: nat | i < least :: !Fits(bits, i, cnt)
    ensures FirstFit(bits, len, cnt) == if cnt > len || least < len - cnt then least else -1
  {
    var r := FirstFit(bits, len, cnt);
    if r >= 0 {
      assert r >= least;
    }
  }

  class Bitmap {
    const bits: array<bv8>

    ghost function Bits(): (s: seq<bool>)
      reads bits
      ensures |s| == 8 * bits.Length
    {
      seq(8 * bits.Length, i requires 0 <= i < 8 * bits.Length reads bits => Bit(bits[i / 8], i % 8))
    }

    /** bitmap_init */
    constructor (len: nat)
      ensures bits.Length == len && fresh(bits)
      ensures forall i: nat | i < 8 * len :: !Bits()[i]
    {
      bits := new bv8[len](_ => 0);
    }

    /** bitmap_check_idx */
    method CheckIdx(idx: nat) returns (set_: bool)
      requires idx < 8 * bits.Length
      ensures set_ == Bits()[idx]
    {
      var idxByte, idxBit := idx / 8, idx % 8;
      set_ := Bit(bits[idxByte], idxBit);
    }

    /** bitmap_set_idx */
    method SetIdx(idx: nat, value: bool)
      requires idx < 8 * bits.Length
      modifies bits
      ensures Bits() == old(Bits())[idx := value]
    {
      var idxByte, idxBit := idx / 8, idx % 8;
      bits[idxByte] := WithBit(bits[idxByte], idxBit, value);
      forall k: nat | k < 8 * bits.Length
        ensures Bits()[k] == old(Bits())[idx := value][k]
      {
        if k / 8 == idxByte && k != idx {
          assert k % 8 != idxBit;
        }
      }
    }

    /** The inner loop of bitmap_apply_cnt: are the bits after `i` in a run of `cnt` clear? */
    method RunIsClear(i: nat, cnt: nat) returns (flag: bool)
      requires i + cnt <= 8 * bits.Length
      ensures flag == forall k: nat | i < k < i + cnt :: !Bits()[k]
    {
      ghost var bs := Bits();
      var j := 1;
      while j < cnt
        invariant 1 <= j && (j <= cnt || cnt == 0)
        invariant forall k: nat | i < k < i + j && k < i + cnt :: !bs[k]
      {
        var busy := CheckIdx(i + j);
        if busy {
          return false;
        }
        j := j + 1;
      }
      return true;
    }

    /** bitmap_apply_cnt; `inside` says that no bit behind the bitmap was looked at. */
    method ApplyCnt(cnt: nat) returns (start: int, inside: bool)
      ensures inside <==> !Strays(Bits(), bits.Length, cnt)
      ensures start == FirstFit(Bits(), bits.Length, cnt)
    {
      ghost var bs := Bits();
      var i := 0;
      while cnt > bits.Length || i < bits.Length - cnt
        invariant 0 <= i <= Window(bits.Length, cnt)
        invariant FirstFit(bs, bits.Length, cnt) == FirstFitFrom(bs, bits.Length, cnt, i)
        decreases Window(bits.Length, cnt) - i
      {
        if i + cnt > 8 * bits.Length {
          return -1, false;
        }
        var taken := CheckIdx(i);
        if !taken {
          var flag := RunIsClear(i, cnt);
          if flag {
            return i, true;
          }
        }
        assert !Fits(bs, i, cnt);
        i := i + 1;
      }
      return -1, true;
    }
  }
}
