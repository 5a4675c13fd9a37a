/**
 * Volumes on which the file system does not do what it is for.
 */
module Witnesses {
  import opened Fat
  import opened Chains
  import opened FileIO
  import opened Append
  import opened Sequences

  // ---- a full data area ----

  /** A table in which every data cluster is taken and nothing else. */
  function FullTableRow(at: nat): Sector {
    seq(512, j requires 0 <= j => if at + j <= 4272 then 255 else if at + j == 4273 then 15 else 0)
  }

  function FullTableSector(k: nat): Sector { if 1 <= k < 19 then FullTableRow((k - 1) % 9 * 512) else Zeros() }

  function FullTableDisk(): Disk { seq<Sector>(2880, k requires 0 <= k => FullTableSector(k)) }

  /** That table is one such input. */
  lemma FullDataAreaExample()
    ensures var d := FullTableDisk();
            (forall c: nat | c < LIMIT :: Entry(d, c) != 0) && Entry(d, LIMIT) == 0 && FirstEmpty(d) == LIMIT
  {
    var d := FullTableDisk();
    forall c: nat | c <= LIMIT
      ensures Entry(d, c) != 0 <==> c < LIMIT
    {
      EntryPlace(c, c);
      FullTableAt(Pos(c));
      FullTableAt(Pos(c) + 1);
    }
    hide FullTableDisk;
    FullDataArea(d);
  }

  lemma FullTableAt(i: nat)
    requires i < 9 * 512
    ensures ImgByte(FullTableDisk(), 512 + i) == if i <= 4272 then 255 else if i == 4273 then 15 else 0
  {
    assert (512 + i) / 512 == 1 + i / 512 && (512 + i) % 512 == i % 512;
    assert i / 512 % 9 == i / 512;
  }

  // ---- two small files ----

  /** File 2 holds 511 bytes of 1, file 3 holds zeros; the rest of the volume is free. */
  function ExampleSector(k: nat): Sector {
    if k == 1 || k == 10 then seq(512, j => if j == 0 then 240 else if j < 6 then 255 else 0)
    else if k == 33 then seq(512, j => 1) else Zeros()
  }

  function ExampleDisk(): Disk { seq<Sector>(2880, k requires 0 <= k => ExampleSector(k)) }

  const EXAMPLE: Files := map[2 := [2], 3 := [3]]

  lemma ExampleEntries()
    ensures var d := ExampleDisk();
            && Entry(d, 0) != 0 && Entry(d, 1) != 0 && Entry(d, 2) == 0xfff && Entry(d, 3) == 0xfff
            && Entry(d, 4) == 0 && Entry(d, 5) == 0
  {
    var d := ExampleDisk();
    assert ImgByte(d, 512) == 240 && ImgByte(d, 513) == 255 && ImgByte(d, 514) == 255 && ImgByte(d, 515) == 255;
    assert ImgByte(d, 516) == 255 && ImgByte(d, 517) == 255;
    assert ImgByte(d, 518) == 0 && ImgByte(d, 519) == 0 && ImgByte(d, 520) == 0;
    hide Entry, ImgByte, ExampleDisk;
    PairEntries(d, 0);
    PairEntries(d, 1);
    PairEntries(d, 2);
  }

  lemma ExampleMirrored()
    ensures Mirrored(ExampleDisk())
  {
  }

  lemma ExampleRoom()
    ensures |FreeClusters(ExampleDisk())| >= 2
  {
    hide Entry, ExampleDisk;
    var d := ExampleDisk();
    ExampleEntries();
    assert {4, 5} <= FreeClusters(d);
    Subset({4, 5}, FreeClusters(d));
  }

  lemma ExampleIsSound()
    ensures Sound(ExampleDisk(), EXAMPLE) && |FreeClusters(ExampleDisk())| >= 2
  {
    hide Entry, ExampleDisk;
    var d := ExampleDisk();
    ExampleEntries();
    ExampleMirrored();
    assert IsChain(d, [2]) && IsChain(d, [3]) && Apart([2], [3]) && Apart([3], [2]);
    ExampleRoom();
    hide Mirrored, IsChain, FreeClusters, Apart;
  }

  /** Appending one byte to 511 bytes: the 511 are gone. */
  method LosesOldBytes() returns (v: Volume, ghost f: Files)
    ensures Result(ExampleDisk(), EXAMPLE, 3, 2, 511, v.sectors, f)
    ensures !Concatenated(ExampleDisk(), EXAMPLE, 3, 2, 1, 511, v.sectors, f)
    ensures 2 in f && f[2] == [2] && v.sectors[2 + ClusToSec] == Zeros()
  {
    hide Sound, Result, FreeClusters;
    ExampleIsSound();
    v := new Volume(ExampleDisk());
    var newSize;
    newSize, f := AppendFile(v, 3, 1, 2, 511, EXAMPLE);
    ghost var cur, src := ExampleDisk()[33], Sectors(ExampleDisk(), [3]);
    AppendConcatenatesIff(ExampleDisk(), EXAMPLE, 3, 2, 1, 511, v.sectors, f);
    assert cur[..511][0] == 1 && src[0][1..][0] == 0;
    OnlyZerosLeft(v.sectors, f);
  }

  /** Appending 511 bytes to an empty file: a cluster of zeros comes first. */
  method SkipsACluster() returns (v: Volume, ghost f: Files)
    ensures Result(ExampleDisk(), EXAMPLE, 2, 3, 0, v.sectors, f)
    ensures !Concatenated(ExampleDisk(), EXAMPLE, 2, 3, 511, 0, v.sectors, f)
    ensures 3 in f && InData(f[3]) && Content(v.sectors, f[3]) == Zeros() + ExampleDisk()[33] + Zeros()
  {
    hide Sound, Result, FreeClusters;
    ExampleIsSound();
    v := new Volume(ExampleDisk());
    var newSize;
    newSize, f := AppendFile(v, 2, 511, 3, 0, EXAMPLE);
    EmptyTargetIff(ExampleDisk(), EXAMPLE, 2, 3, 511, v.sectors, f);
    ghost var first: seq<Byte>, bytes := ExampleDisk()[34], Content(ExampleDisk(), [2]);
    assert (first + bytes)[..511][0] == 0 && bytes[..511][0] == 1;
    ZerosComeFirst(v.sectors, f);
  }

  /** What append_file leaves of the 511 bytes: the second file is one sector, the source's, rotated. */
  lemma OnlyZerosLeft(d: Disk, f: Files)
    requires Result(ExampleDisk(), EXAMPLE, 3, 2, 511, d, f)
    ensures 2 in f && f[2] == [2] && d[2 + ClusToSec] == Zeros()
  {
    hide Sound, Pour, Content;
    var cur, src := ExampleDisk()[33], Sectors(ExampleDisk(), [3]);
    PourStuck(cur, src);
    assert Carried(511, src[0]) == Zeros();
    assert f[2] == [2];
  }

  lemma ZerosComeFirst(d: Disk, f: Files)
    requires Result(ExampleDisk(), EXAMPLE, 2, 3, 0, d, f)
    ensures 3 in f && InData(f[3]) && Content(d, f[3]) == Zeros() + ExampleDisk()[33] + Zeros()
  {
    hide Result;
    var d0 := ExampleDisk();
    EmptyTargetReads(d0, EXAMPLE, 2, 3, d, f);
    OneSector(d0, 2);
    ExampleZero();
  }

  lemma OneSector(d: Disk, c: nat)
    requires FIRST <= c < LIMIT
    ensures Content(d, [c]) == d[c + ClusToSec]
  {
    assert Content(d, [c]) == d[c + ClusToSec] + Content(d, [c][1..]);
  }

  lemma ExampleZero()
    ensures ExampleDisk()[34] == Zeros()
  {
  }

  /** Writing 512 bytes stores a byte past the buffer of write_file. */
  method WritesPastBuffer() returns (past: bool)
    ensures past
  {
    hide Sound, FreeClusters, Unused;
    ExampleIsSound();
    var v := new Volume(ExampleDisk());
    var p := new Pool();
    var a := new ActiveFile(true, 2, 0);
    AllUnused(p.nodes);
    var ok;
    ghost var w, list;
    ok, past, w, list := WriteFile(v, p, a, Zeros(), World(v.sectors, EXAMPLE, p.nodes));
  }

  lemma AllUnused(n: Nodes)
    requires forall i: nat | i < MAX_NODE_CNT :: !n[i].used
    ensures Unused(n) != {}
  {
    assert 0 in Unused(n);
  }
}
