/**
 * filesystem/disk.c: a 1.44 MB FAT12 volume, its two tables of packed 12-bit entries and the calls that change them.
 */
module Fat {
  type Byte = b: int | 0 <= b < 256
  type Sector = s: seq<Byte> | |s| == 512 witness seq(512, _ => 0)
  type Disk = d: seq<Sector> | |d| == 2880 ghost witness seq<Sector>(2880, _ => Zeros())

  function Zeros(): Sector { seq(512, _ => 0) }

  /** Data cluster `c` is sector `c + 31`; clusters 2 to 2848 lie on the disk. */
  const ClusToSec := 31
  const FIRST := 2
  const LIMIT := 2849

  /** Entries a FAT of nine sectors has room for. */
  const ENTRIES := 3072

  predicate IsEnd(c: int) { 0xff8 <= c <= 0xfff }

  /** What fits a `uint16_t`. */
  const SHORTS := 65536

  /** Byte `k` of the volume. */
  function ImgByte(d: Disk, k: nat): Byte
    requires k < 2880 * 512
  {
    d[k / 512][k % 512]
  }

  function Pos(c: nat): nat { c / 2 * 3 + c % 2 }

  /** get_fat_next_cluster; past the last entry it reads on into the second table. */
  function Entry(d: Disk, c: nat): (r: nat)
    requires c < 4096
    ensures r < 4096
  {
    var lo, hi := ImgByte(d, 512 + Pos(c)), ImgByte(d, 512 + Pos(c) + 1);
    if c % 2 == 0 then hi % 16 * 256 + lo else lo / 16 + hi * 16
  }

  /** A pair of entries is a 24-bit little-endian number. */
  lemma PairIsLittleEndian(d: Disk, p: nat)
    requires p < ENTRIES / 2
    ensures Entry(d, 2 * p) + 4096 * Entry(d, 2 * p + 1)
         == ImgByte(d, 512 + 3 * p) + 256 * ImgByte(d, 512 + 3 * p + 1) + 65536 * ImgByte(d, 512 + 3 * p + 2)
  {
    assert Pos(2 * p) == 3 * p && Pos(2 * p + 1) == 3 * p + 1;
    var mid := ImgByte(d, 512 + 3 * p + 1);
    assert mid == mid / 16 * 16 + mid % 16;
  }

  // ---- writing an entry ----

  ghost predicate Mirrored(d: Disk) { forall k: nat | 1 <= k < 10 :: d[k + 9] == d[k] }

  /** write_fat_sector */
  function PutSector(d: Disk, sec: nat, s: Sector): Disk
    requires sec + 9 < 2880
  {
    d[sec := s][sec + 9 := s]
  }

  /** Byte `i` of the table set in both copies of its sector; a cluster number past the table reaches data sectors. */
  function PutByte(d: Disk, i: nat, b: Byte): Disk
    requires i < 192 * 512
  {
    PutSector(d, 1 + i / 512, d[1 + i / 512][i % 512 := b])
  }

  function LowByte(d: Disk, c: nat, v: nat): Byte
    requires c < SHORTS
  {
    if c % 2 == 0 then v % 256 else ImgByte(d, 512 + Pos(c)) % 16 + v % 16 * 16
  }

  function HighByte(d: Disk, c: nat, v: nat): Byte
    requires c < SHORTS
  {
    if c % 2 == 0 then var b := ImgByte(d, 512 + Pos(c) + 1); b - b % 16 + v / 256 % 16 else v / 16 % 256
  }

  /** write_fat_next_cluster */
  function WithEntry(d: Disk, c: nat, v: nat): Disk
    requires c < SHORTS
  {
    PutByte(PutByte(d, Pos(c), LowByte(d, c, v)), Pos(c) + 1, HighByte(d, c, v))
  }

  lemma PosFits(c: nat)
    requires c < SHORTS
    ensures Pos(c) + 1 < 192 * 512
  {
  }

  /** The byte after one that was written is as before. */
  lemma NextByteStays(d: Disk, i: nat, b: Byte)
    requires i + 1 < 192 * 512
    ensures ImgByte(PutByte(d, i, b), 512 + i + 1) == ImgByte(d, 512 + i + 1)
  {
    assert (512 + i + 1) / 512 == 1 + (i + 1) / 512 && (512 + i + 1) % 512 == (i + 1) % 512;
  }

  /** Writing both copies of a table sector makes that pair agree, whatever it was, and touches no other sector. */
  lemma PairAgrees(d: Disk, sec: nat, s: Sector)
    requires 1 <= sec < 10 && forall k: nat | 1 <= k < 10 && k != sec :: d[k + 9] == d[k]
    ensures Mirrored(PutSector(d, sec, s))
  {
  }

  lemma PutByteGives(d: Disk, i: nat, b: Byte, j: nat)
    requires i < 9 * 512 && j < 9 * 512
    ensures ImgByte(PutByte(d, i, b), 512 + j) == if i == j then b else ImgByte(d, 512 + j)
  {
    assert (512 + j) / 512 == 1 + j / 512 && (512 + j) % 512 == j % 512;
    assert i == j <==> i / 512 == j / 512 && i % 512 == j % 512;
  }

  lemma PutByteFrame(d: Disk, i: nat, b: Byte)
    requires i < 9 * 512
    ensures forall k: nat | k < 2880 && !(1 <= k < 19) :: PutByte(d, i, b)[k] == d[k]
    ensures Mirrored(d) ==> Mirrored(PutByte(d, i, b))
  {
  }

  lemma BytesWritten(d: Disk, c: nat, v: nat, j: nat)
    requires c < ENTRIES && j < 9 * 512
    ensures ImgByte(WithEntry(d, c, v), 512 + j)
         == if j == Pos(c) + 1 then HighByte(d, c, v) else if j == Pos(c) then LowByte(d, c, v) else ImgByte(d, 512 + j)
  {
    PutByteGives(d, Pos(c), LowByte(d, c, v), j);
    PutByteGives(PutByte(d, Pos(c), LowByte(d, c, v)), Pos(c) + 1, HighByte(d, c, v), j);
  }

  lemma EntryElsewhere(d: Disk, c: nat, v: nat, e: nat)
    requires c < ENTRIES && e < ENTRIES && e / 2 != c / 2
    ensures Entry(WithEntry(d, c, v), e) == Entry(d, e)
  {
    hide WithEntry, ImgByte, PutByte, Pos, LowByte, HighByte;
    EntryPlace(c, e);
    EntryPlace(e, c);
    BytesWritten(d, c, v, Pos(e));
    BytesWritten(d, c, v, Pos(e) + 1);
  }

  lemma EntryItself(d: Disk, c: nat, v: nat)
    requires c < ENTRIES
    ensures Entry(WithEntry(d, c, v), c) == v % 4096
  {
    hide WithEntry, ImgByte, PutByte, Pos;
    EntryPlace(c, c);
    BytesWritten(d, c, v, Pos(c));
    BytesWritten(d, c, v, Pos(c) + 1);
    Nibbles(v, ImgByte(d, 512 + Pos(c)), ImgByte(d, 512 + Pos(c) + 1));
  }

  /** The other entry of the pair shares the middle byte. */
  lemma EntryBeside(d: Disk, c: nat, v: nat, e: nat)
    requires c < ENTRIES && e < ENTRIES && e / 2 == c / 2 && e != c
    ensures Entry(WithEntry(d, c, v), e) == Entry(d, e)
  {
    hide WithEntry, ImgByte, PutByte, Pos;
    EntryPlace(c, e);
    EntryPlace(e, c);
    BytesWritten(d, c, v, Pos(e));
    BytesWritten(d, c, v, Pos(e) + 1);
    Nibbles(v, ImgByte(d, 512 + Pos(c)), ImgByte(d, 512 + Pos(c) + 1));
  }

  /** Writing an entry changes that entry and no other, in both tables, even across a sector boundary. */
  lemma EntryWritten(d: Disk, c: nat, v: nat, e: nat)
    requires c < ENTRIES && e < ENTRIES
    ensures Entry(WithEntry(d, c, v), e) == if e == c then v % 4096 else Entry(d, e)
  {
    if e / 2 != c / 2 {
      EntryElsewhere(d, c, v, e);
    } else if e == c {
      EntryItself(d, c, v);
    } else {
      EntryBeside(d, c, v, e);
    }
  }

  /** Entries of different pairs share no byte; the two of a pair share its middle byte. */
  lemma EntryPlace(c: nat, e: nat)
    requires c < ENTRIES && e < ENTRIES
    ensures Pos(c) + 1 < 9 * 512
    ensures c / 2 != e / 2 ==> Pos(c) + 1 < Pos(e) || Pos(e) + 1 < Pos(c)
    ensures c / 2 == e / 2 && c != e ==> if c % 2 == 0 then Pos(e) == Pos(c) + 1 else Pos(c) == Pos(e) + 1
  {
  }

  lemma Remainder(v: nat, q: nat, r: nat)
    requires v == 4096 * q + r && r < 4096
    ensures v % 4096 == r
  {
  }

  lemma Nibbles(v: nat, lo: Byte, hi: Byte)
    ensures v / 256 % 16 * 256 + v % 256 == v % 4096
    ensures (hi - hi % 16 + v / 256 % 16) % 16 == v / 256 % 16 && (hi - hi % 16 + v / 256 % 16) / 16 == hi / 16
    ensures (lo % 16 + v % 16 * 16) / 16 == v % 16 && (lo % 16 + v % 16 * 16) % 16 == lo % 16
    ensures v / 16 % 256 * 16 + v % 16 == v % 4096
  {
    var a, b := v / 256, v / 16;
    Remainder(v, a / 16, a % 16 * 256 + v % 256);
    Remainder(v, b / 256, b % 256 * 16 + v % 16);
  }

  lemma EntryFrame(d: Disk, c: nat, v: nat)
    requires c < ENTRIES
    ensures forall k: nat | k < 2880 && !(1 <= k < 19) :: WithEntry(d, c, v)[k] == d[k]
    ensures Mirrored(d) ==> Mirrored(WithEntry(d, c, v))
  {
    var d1 := PutByte(d, Pos(c), LowByte(d, c, v));
    PutByteFrame(d, Pos(c), LowByte(d, c, v));
    PutByteFrame(d1, Pos(c) + 1, HighByte(d, c, v));
  }

  // ---- free clusters ----

  /** `uint16_t` minus one: what find_empty_cluster returns on a full table. */
  const NONE: nat := 65535

  /** The least entry that reads 0. */
  function FirstEmpty(d: Disk): (r: nat)
    ensures r == NONE || (r < ENTRIES && Entry(d, r) == 0)
    ensures forall c: nat | c < r && c < ENTRIES :: Entry(d, c) != 0
  {
    EmptyFrom(d, 0)
  }

  function EmptyFrom(d: Disk, from: nat): (r: nat)
    requires from <= ENTRIES
    ensures r == NONE || (from <= r < ENTRIES && Entry(d, r) == 0)
    ensures forall c: nat | from <= c < r && c < ENTRIES :: Entry(d, c) != 0
    decreases ENTRIES - from
  {
    if from == ENTRIES then NONE else if Entry(d, from) == 0 then from else EmptyFrom(d, from + 1)
  }

  function Wiped(d: Disk, sec: nat): (r: Disk)
    requires sec < 2880
    ensures r[sec] == Zeros() && forall k: nat | k < 2880 && k != sec :: r[k] == d[k]
  {
    d[sec := Zeros()]
  }

  /** clear_cluster's effect on the volume: sector 2880 is off it. */
  function ClusterWiped(d: Disk, c: nat): (r: Disk)
    ensures forall k: nat | k < 2880 && k != SectorOf(c) :: r[k] == d[k]
    ensures SectorOf(c) < 2880 ==> r[SectorOf(c)] == Zeros()
  {
    if SectorOf(c) < 2880 then Wiped(d, SectorOf(c)) else d
  }

  /** The sector clear_cluster writes, its number truncated to 16 bits. */
  function SectorOf(c: nat): nat { (c + ClusToSec) % 65536 }

  lemma ScanBounds(d: Disk)
    ensures FirstEmpty(d) == EmptyFrom(d, 0) && EmptyFrom(d, ENTRIES) == NONE
  {
  }

  lemma PairEntries(d: Disk, p: nat)
    requires p < ENTRIES / 2
    ensures var b0: int, b1: int, b2: int := ImgByte(d, 512 + 3 * p), ImgByte(d, 513 + 3 * p), ImgByte(d, 514 + 3 * p);
            Entry(d, 2 * p) == b1 % 16 * 256 + b0 && Entry(d, 2 * p + 1) == b1 / 16 + b2 * 16
  {
    assert Pos(2 * p) == 3 * p && Pos(2 * p + 1) == 3 * p + 1;
  }

  /** One step of the scan looks at the two entries of three bytes. */
  lemma PairScan(d: Disk, p: nat)
    requires p < ENTRIES / 2
    ensures var b0: int, b1: int, b2: int := ImgByte(d, 512 + 3 * p), ImgByte(d, 513 + 3 * p), ImgByte(d, 514 + 3 * p);
            EmptyFrom(d, 2 * p) == if b1 % 16 * 256 + b0 == 0 then 2 * p
                                   else if b1 / 16 + b2 * 16 == 0 then 2 * p + 1
                                   else EmptyFrom(d, 2 * p + 2)
  {
    PairEntries(d, p);
    hide Entry, ImgByte;
    assert EmptyFrom(d, 2 * p) == if Entry(d, 2 * p) == 0 then 2 * p else EmptyFrom(d, 2 * p + 1);
  }

  ghost predicate SomeZero(d: Disk, lo: nat, hi: nat)
    requires hi <= ENTRIES
  {
    exists c: nat :: lo <= c < hi && Entry(d, c) == 0
  }

  /**
   * Three ways the search ends: at a data cluster when one is free; else at an entry no data cluster has, whose
   * sector is off the volume; else, with no entry left, at 65535, whose sector is one of the root directory's.
   */
  lemma SearchOutcome(d: Disk)
    requires Entry(d, 0) != 0 && Entry(d, 1) != 0
    ensures FIRST <= FirstEmpty(d) < LIMIT <==> SomeZero(d, FIRST, LIMIT)
    ensures LIMIT <= FirstEmpty(d) < ENTRIES <==> !SomeZero(d, FIRST, LIMIT) && SomeZero(d, LIMIT, ENTRIES)
    ensures FirstEmpty(d) == NONE <==> !SomeZero(d, FIRST, LIMIT) && !SomeZero(d, LIMIT, ENTRIES)
    ensures SectorOf(FirstEmpty(d)) < 2880 <==> SomeZero(d, FIRST, LIMIT) || FirstEmpty(d) == NONE
    ensures FirstEmpty(d) == NONE ==> SectorOf(FirstEmpty(d)) == 30
  {
    hide FirstEmpty, Entry;
    var r := FirstEmpty(d);
    if SomeZero(d, FIRST, LIMIT) {
      var c: nat :| FIRST <= c < LIMIT && Entry(d, c) == 0;
      assert r <= c;
    }
    if SomeZero(d, LIMIT, ENTRIES) {
      var c: nat :| LIMIT <= c < ENTRIES && Entry(d, c) == 0;
      assert r <= c;
    }
    assert r < LIMIT ==> SectorOf(r) == r + ClusToSec;
  }

  /**
   * When the data area is full cluster 2849 is handed out: its sector 2880 passes the ASSERT though it is off the
   * volume. The one after it does not pass.
   */
  lemma FullDataArea(d: Disk)
    requires (forall c: nat | c < LIMIT :: Entry(d, c) != 0) && Entry(d, LIMIT) == 0
    ensures FirstEmpty(d) == LIMIT && SectorOf(LIMIT) == 2880 && SectorOf(LIMIT + 1) > 2880
  {
    hide FirstEmpty, Entry;
    var r := FirstEmpty(d);
    assert r <= LIMIT;
  }

  // ---- the calls ----

  class Volume {
    var sectors: Disk
    var img: seq<Byte>

    constructor (d: Disk)
      ensures sectors == d && |img| == 20 * 512
    {
      sectors, img := d, seq(20 * 512, _ => 0);
    }

    /** update_img */
    method UpdateImg()
      requires |img| == 20 * 512
      modifies this`img
      ensures |img| == 20 * 512 && forall k: nat | k < 20 * 512 :: img[k] == ImgByte(sectors, k)
    {
      var i := 0;
      while i < 20
        invariant 0 <= i <= 20 && |img| == 20 * 512
        invariant forall k: nat | k < i * 512 :: img[k] == ImgByte(sectors, k)
      {
        var buff := sectors[i];
        var j := 0;
        while j < 512
          invariant 0 <= j <= 512 && |img| == 20 * 512
          invariant forall k: nat | k < i * 512 + j :: img[k] == ImgByte(sectors, k)
        {
          assert ImgByte(sectors, i * 512 + j) == buff[j] by {
            assert (i * 512 + j) / 512 == i && (i * 512 + j) % 512 == j;
          }
          img := img[i * 512 + j := buff[j]];
          j := j + 1;
        }
        i := i + 1;
      }
    }

    /** get_fat_next_cluster */
    method GetNext(c: nat) returns (next: nat)
      requires |img| == 20 * 512 && c < 4096
      modifies this`img
      ensures |img| == 20 * 512 && next == Entry(sectors, c)
    {
      UpdateImg();
      var pos := c / 2 * 3 + c % 2;
      var lo: int, hi: int := img[512 + pos], img[512 + pos + 1];
      if c % 2 == 0 {
        next := hi % 16 * 256 + lo;
      } else {
        next := lo / 16 + hi * 16;
      }
    }

    /** write_fat_sector */
    method WriteFatSector(sec: nat, buff: Sector)
      requires sec + 9 < 2880
      modifies this`sectors
      ensures sectors == PutSector(old(sectors), sec, buff)
      ensures forall k: nat | k < 2880 && k != sec && k != sec + 9 :: sectors[k] == old(sectors)[k]
      ensures 1 <= sec < 10 && Mirrored(old(sectors)) ==> Mirrored(sectors) && sectors[sec] == buff
    {
      sectors := sectors[sec := buff];
      sectors := sectors[sec + 9 := buff];
    }

    /** write_fat_next_cluster */
    method WriteNext(c: nat, data: nat)
      requires c < SHORTS
      modifies this`sectors
      ensures sectors == WithEntry(old(sectors), c, data)
    {
      hide WithEntry;
      ghost var d := sectors;
      var pos := c / 2 * 3 + c % 2;
      PosFits(c);
      var buff := sectors[1 + pos / 512];
      var secpos := pos % 512;
      if c % 2 == 0 {
        buff := buff[secpos := data % 256];
      } else {
        buff := buff[secpos := buff[secpos] % 16 + data % 16 * 16];
      }
      assert buff == d[1 + pos / 512][secpos := LowByte(d, c, data)];
      if 1 + pos / 512 != 1 + (pos + 1) / 512 {
        WriteFatSector(1 + pos / 512, buff);
        buff := sectors[1 + (pos + 1) / 512];
      }
      secpos := (pos + 1) % 512;
      HighBytePlace(d, c, LowByte(d, c, data));
      if c % 2 == 0 {
        buff := buff[secpos := buff[secpos] - buff[secpos] % 16 + data / 256 % 16];
      } else {
        buff := buff[secpos := data / 16 % 256];
      }
      WriteFatSector(1 + (pos + 1) / 512, buff);
      OneOrTwoSectors(d, c, data);
    }

    /** clear_cluster; `ok` says that write_sector's ASSERT on the sector number held. */
    method ClearCluster(c: nat) returns (ok: bool)
      requires c < SHORTS
      modifies this`sectors
      ensures ok <==> SectorOf(c) <= 2880
      ensures sectors == ClusterWiped(old(sectors), c)
      ensures FIRST <= c < LIMIT ==> ok && sectors[c + ClusToSec] == Zeros()
      ensures FIRST <= c < LIMIT ==> forall k: nat | k < 33 :: sectors[k] == old(sectors)[k]
    {
      var sec := (c + ClusToSec) % 65536;
      ok := sec <= 2880;
      if sec < 2880 {
        sectors := sectors[sec := Zeros()];
      }
    }

    /** find_empty_cluster: three bytes, two entries, at a time; `ok` as for clear_cluster. */
    method FindEmpty() returns (c: nat, ok: bool)
      requires |img| == 20 * 512
      modifies this
      ensures |img| == 20 * 512 && c == FirstEmpty(old(sectors)) && c < SHORTS
      ensures (ok <==> SectorOf(c) <= 2880) && sectors == ClusterWiped(old(sectors), c)
    {
      hide FirstEmpty, EmptyFrom, Entry, ImgByte, ClusterWiped;
      UpdateImg();
      ScanBounds(sectors);
      c := NONE;
      var i := 512;
      while i < 512 + 512 * 9
        invariant 512 <= i <= 512 + 512 * 9 && (i - 512) % 3 == 0 && c == NONE
        invariant |img| == 20 * 512 && sectors == old(sectors)
        invariant forall k: nat | k < 20 * 512 :: img[k] == ImgByte(sectors, k)
        invariant FirstEmpty(sectors) == EmptyFrom(sectors, (i - 512) / 3 * 2)
      {
        var b0: int, b1: int, b2: int := img[i], img[i + 1], img[i + 2];
        PairScan(sectors, (i - 512) / 3);
        var x := b1 % 16 * 256 + b0;
        if x == 0 {
          c := (i - 512) / 3 * 2;
          break;
        }
        var y := b1 / 16 + b2 * 16;
        if y == 0 {
          c := (i - 512) / 3 * 2 + 1;
          break;
        }
        i := i + 3;
      }
      ok := ClearCluster(c);
    }
  }

  lemma HighBytePlace(d: Disk, c: nat, lo: Byte)
    requires c < SHORTS
    ensures ImgByte(PutByte(d, Pos(c), lo), 512 + Pos(c) + 1) == ImgByte(d, 512 + Pos(c) + 1)
    ensures ImgByte(d, 512 + Pos(c) + 1) == d[1 + (Pos(c) + 1) / 512][(Pos(c) + 1) % 512]
  {
    PosFits(c);
    NextByteStays(d, Pos(c), lo);
  }

  /** Both bytes in one sector are written by one sector write, two sectors by two. */
  lemma OneOrTwoSectors(d: Disk, c: nat, v: nat)
    requires c < SHORTS
    ensures var i, low, high := Pos(c), LowByte(d, c, v), HighByte(d, c, v);
            && (i / 512 == (i + 1) / 512 ==>
                  var row := d[1 + i / 512];
                  WithEntry(d, c, v) == PutSector(d, 1 + i / 512, row[i % 512 := low][(i + 1) % 512 := high]))
            && (i / 512 != (i + 1) / 512 ==>
                  var d1 := PutByte(d, i, low);
                  WithEntry(d, c, v) == PutSector(d1, 1 + (i + 1) / 512, d1[1 + (i + 1) / 512][(i + 1) % 512 := high]))
  {
    PosFits(c);
  }
}
