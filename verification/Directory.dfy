/**
 * The root directory: its 224 slots on disk, the sibling list that caches them, and create_empty_file.
 */
module Directory {
  import opened Fat
  import opened Chains

  const ROOT: nat := 19
  const SLOTS: nat := 224

  /** struct File without its links and its Reserved bytes. */
  datatype File = File(name: seq<Byte>, attr: Byte, wrtTime: nat, wrtDate: nat, fstClus: nat, fileSize: nat)

  predicate Storable(f: File) {
    |f.name| == 11 && f.wrtTime < 65536 && f.wrtDate < 65536 && f.fstClus < 65536 && f.fileSize < 0x1_0000_0000
  }

  /** A name that does not make its slot look free. */
  predicate Visible(name: seq<Byte>) { |name| == 11 && name[0] != 0 && name[0] != 0xe5 }

  type Slot = s: seq<Byte> | |s| == 32 witness seq(32, _ => 0)

  // ---- one slot ----

  function GetU16(s: seq<Byte>, at: nat): (r: nat)
    requires at + 2 <= |s|
    ensures r < 65536
  {
    var a: int, b: int := s[at], s[at + 1];
    a + b * 256
  }

  function GetU32(s: seq<Byte>, at: nat): (r: nat)
    requires at + 4 <= |s|
  {
    var a: int, b: int, c: int, e: int := s[at], s[at + 1], s[at + 2], s[at + 3];
    a + b * 256 + c * 65536 + e * 16777216
  }

  function U16(n: nat): seq<Byte> { [n % 256, n / 256 % 256] }

  function U32(n: nat): seq<Byte> { [n % 256, n / 256 % 256, n / 65536 % 256, n / 16777216 % 256] }

  predicate InUse(s: Slot) { s[0] != 0 && s[0] != 0xe5 }

  /** make_file_from_sector */
  function Parse(s: Slot): File {
    File(s[..11], s[11], GetU16(s, 22), GetU16(s, 24), GetU16(s, 26), GetU32(s, 28))
  }

  /** The writes of create_dir_entry_in_sector; bytes 12 to 21 keep what they held. */
  function Filled(s: Slot, f: File): (r: Slot)
    requires Storable(f)
  {
    f.name + [f.attr] + s[12..22] + U16(f.wrtTime) + U16(f.wrtDate) + U16(f.fstClus) + U32(f.fileSize)
  }

  lemma U16RoundTrip(n: nat)
    requires n < 65536
    ensures n % 256 + n / 256 % 256 * 256 == n
  {
  }

  lemma U32RoundTrip(n: nat)
    requires n < 0x1_0000_0000
    ensures n % 256 + n / 256 % 256 * 256 + n / 65536 % 256 * 65536 + n / 16777216 % 256 * 16777216 == n
  {
    var a, b, c := n / 256, n / 65536, n / 16777216;
    assert a / 256 == b && b / 256 == c;
    assert n == a * 256 + n % 256 && a == b * 256 + a % 256 && b == c * 256 + b % 256;
  }

  /** What is stored in a slot is what is parsed from it. */
  lemma SlotRoundTrip(s: Slot, f: File)
    requires Storable(f)
    ensures Parse(Filled(s, f)) == f
    ensures Visible(f.name) ==> InUse(Filled(s, f))
  {
    var r := Filled(s, f);
    U16RoundTrip(f.wrtTime);
    U16RoundTrip(f.wrtDate);
    U16RoundTrip(f.fstClus);
    U32RoundTrip(f.fileSize);
    assert r[..11] == f.name;
    assert r[22..24] == U16(f.wrtTime) && r[24..26] == U16(f.wrtDate) && r[26..28] == U16(f.fstClus) &&
      r[28..32] == U32(f.fileSize);
    assert r[22] == r[22..24][0] && r[23] == r[22..24][1];
    assert r[24] == r[24..26][0] && r[25] == r[24..26][1];
    assert r[26] == r[26..28][0] && r[27] == r[26..28][1];
    assert r[28] == r[28..32][0] && r[29] == r[28..32][1] && r[30] == r[28..32][2] && r[31] == r[28..32][3];
  }

  /** Byte `k` of a slot that holds `f`, `was` being what it held before: the on-disk layout of a directory entry. */
  function EntryByte(f: File, k: nat, was: Byte): Byte
    requires Storable(f) && k < 32
  {
    if k < 11 then f.name[k]
    else if k == 11 then f.attr
    else if k < 22 then was
    else if k == 22 then f.wrtTime % 256
    else if k == 23 then f.wrtTime / 256
    else if k == 24 then f.wrtDate % 256
    else if k == 25 then f.wrtDate / 256
    else if k == 26 then f.fstClus % 256
    else if k == 27 then f.fstClus / 256
    else if k == 28 then f.fileSize % 256
    else if k == 29 then f.fileSize / 256 % 256
    else if k == 30 then f.fileSize / 65536 % 256
    else f.fileSize / 16777216
  }

  lemma FilledSlices(s: Slot, f: File)
    requires Storable(f)
    ensures var r := Filled(s, f);
            && r[..11] == f.name && r[11] == f.attr && r[12..22] == s[12..22]
            && r[22..24] == U16(f.wrtTime) && r[24..26] == U16(f.wrtDate) && r[26..28] == U16(f.fstClus)
            && r[28..32] == U32(f.fileSize)
  {
    assert |U16(f.wrtTime)| == |U16(f.wrtDate)| == |U16(f.fstClus)| == 2 && |U32(f.fileSize)| == 4;
    hide U16, U32;
  }

  /** The writer puts every field where the layout says, and leaves the Reserved bytes. */
  lemma FilledBytes(s: Slot, f: File, k: nat)
    requires Storable(f) && k < 32
    ensures Filled(s, f)[k] == EntryByte(f, k, s[k])
  {
    FilledSlices(s, f);
    var r := Filled(s, f);
    hide Filled;
    if k < 11 {
      assert r[k] == r[..11][k];
    } else if 12 <= k < 22 {
      assert r[k] == r[12..22][k - 12] && s[k] == s[12..22][k - 12];
    } else if 22 <= k < 28 {
      assert r[k] == r[k - k % 2..k - k % 2 + 2][k % 2];
    } else if 28 <= k {
      assert r[k] == r[28..32][k - 28];
    }
  }

  /** The reader takes every field from there; a slot is free exactly when it starts with 0 or 0xe5. */
  lemma ParsedBytes(s: Slot)
    ensures var f := Parse(s);
            && f.name == s[..11] && f.attr == s[11]
            && f.wrtTime == s[22] as int + s[23] as int * 256 && f.wrtDate == s[24] as int + s[25] as int * 256
            && f.fstClus == s[26] as int + s[27] as int * 256
            && f.fileSize == s[28] as int + s[29] as int * 256 + s[30] as int * 65536 + s[31] as int * 16777216
    ensures !InUse(s) <==> s[0] == 0 || s[0] == 0xe5
  {
  }

  // ---- the slots on disk ----

  /** The root directory starts behind the two tables; behind it every sector is one cluster's, and none before. */
  lemma Areas(k: nat)
    ensures ROOT == 1 + 2 * (ENTRIES * 3 / 2 / 512)
    ensures (exists c: nat :: FIRST <= c < LIMIT && SectorOf(c) == k) <==> ROOT + SLOTS * 32 / 512 <= k < 2880
  {
    if ROOT + SLOTS * 32 / 512 <= k < 2880 {
      assert SectorOf(k - ClusToSec) == k;
    }
  }

  function SlotAt(d: Disk, i: nat): Slot
    requires i < SLOTS
  {
    d[ROOT + i / 16][i % 16 * 32..i % 16 * 32 + 32]
  }

  function PutSlot(sec: Sector, j: nat, s: Slot): Sector
    requires j < 16
  {
    sec[..j * 32] + s + sec[j * 32 + 32..]
  }

  function WithSlot(d: Disk, i: nat, s: Slot): Disk
    requires i < SLOTS
  {
    d[ROOT + i / 16 := PutSlot(d[ROOT + i / 16], i % 16, s)]
  }

  lemma SlotWritten(d: Disk, i: nat, s: Slot, j: nat)
    requires i < SLOTS && j < SLOTS
    ensures SlotAt(WithSlot(d, i, s), j) == if i == j then s else SlotAt(d, j)
  {
    var a, b := i % 16, j % 16;
    if i / 16 == j / 16 {
      var sec := d[ROOT + i / 16];
      SlotInSector(sec, a, s, b);
    }
  }

  lemma SlotInSector(sec: Sector, a: nat, s: Slot, b: nat)
    requires a < 16 && b < 16
    ensures PutSlot(sec, a, s)[b * 32..b * 32 + 32] == if a == b then s else sec[b * 32..b * 32 + 32]
  {
    var r := PutSlot(sec, a, s);
    forall k: nat | k < 32
      ensures r[b * 32 + k] == if a == b then s[k] else sec[b * 32 + k]
    {
    }
  }

  /** Slot `i` of the root is bytes `32 * (i % 16)` and on of sector `19 + i / 16`. */
  lemma SlotBytes(d: Disk, i: nat, k: nat)
    requires i < 224 && k < 32
    ensures SlotAt(d, i)[k] == d[19 + i / 16][32 * (i % 16) + k]
  {
  }

  /** A file stored in slot `i`: those 32 bytes hold its fields, and no other byte of the disk changed. */
  lemma EntryOnDisk(d: Disk, i: nat, f: File, sec: nat, j: nat)
    requires i < 224 && Storable(f) && sec < 2880 && j < 512
    ensures WithSlot(d, i, Filled(SlotAt(d, i), f))[sec][j]
         == if sec == 19 + i / 16 && 32 * (i % 16) <= j < 32 * (i % 16) + 32
            then EntryByte(f, j - 32 * (i % 16), d[sec][j]) else d[sec][j]
  {
    hide Filled, EntryByte;
    var a := i % 16;
    if sec == 19 + i / 16 && 32 * a <= j < 32 * a + 32 {
      FilledBytes(SlotAt(d, i), f, j - 32 * a);
    }
  }

  /** build_tree on the root: the files in slot order. */
  ghost function FilesFrom(d: Disk, i: nat): seq<File>
    requires i <= SLOTS
    decreases SLOTS - i
  {
    if i == SLOTS then [] else (if InUse(SlotAt(d, i)) then [Parse(SlotAt(d, i))] else []) + FilesFrom(d, i + 1)
  }

  /** Used slots from `i` up to `j`. */
  ghost function UsedBetween(d: Disk, i: nat, j: nat): nat
    requires i <= j <= SLOTS
    decreases j - i
  {
    if i == j then 0 else (if InUse(SlotAt(d, i)) then 1 else 0) + UsedBetween(d, i + 1, j)
  }

  /**
   * Every used slot has its file in the list, at the place its rank among the used slots gives, and there is no
   * other.
   */
  lemma {:induction false} FilesInOrder(d: Disk, i: nat, j: nat)
    requires i <= j <= SLOTS
    ensures |FilesFrom(d, i)| == UsedBetween(d, i, SLOTS)
    ensures j < SLOTS && InUse(SlotAt(d, j)) ==>
              UsedBetween(d, i, j) < |FilesFrom(d, i)| && FilesFrom(d, i)[UsedBetween(d, i, j)] == Parse(SlotAt(d, j))
    decreases SLOTS - i
  {
    hide SlotAt, Parse, InUse;
    if i < SLOTS {
      FilesInOrder(d, i + 1, if i == j then i + 1 else j);
    }
  }

  ghost function FilesIn(s: Slot): multiset<File> { if InUse(s) then multiset{Parse(s)} else multiset{} }

  lemma OneSlot(d: Disk, j: nat)
    requires j < SLOTS
    ensures multiset(FilesFrom(d, j)) == FilesIn(SlotAt(d, j)) + multiset(FilesFrom(d, j + 1))
  {
  }

  lemma NoSlotsLeft(d: Disk)
    ensures FilesFrom(d, SLOTS) == []
  {
  }

  /** A file stored in a free slot joins the parsed files, wherever the slot is. */
  lemma {:induction false} FileJoins(d: Disk, i: nat, s: Slot, j: nat)
    requires i < SLOTS && !InUse(SlotAt(d, i)) && InUse(s) && j <= SLOTS
    ensures multiset(FilesFrom(WithSlot(d, i, s), j)) == multiset(FilesFrom(d, j)) + if j <= i
              then multiset{Parse(s)} else multiset{}
    decreases SLOTS - j
  {
    hide InUse, Parse, SlotAt, WithSlot, FilesFrom;
    var d' := WithSlot(d, i, s);
    if j == SLOTS {
      NoSlotsLeft(d);
      NoSlotsLeft(d');
    } else {
      FileJoins(d, i, s, j + 1);
      SlotWritten(d, i, s, j);
      OneSlot(d, j);
      OneSlot(d', j);
    }
  }

  /** Sectors outside the root do not matter to it. */
  lemma {:induction false} RootKept(d: Disk, d': Disk, i: nat)
    requires i <= SLOTS && forall k: nat | ROOT <= k < ROOT + 14 :: d'[k] == d[k]
    ensures FilesFrom(d', i) == FilesFrom(d, i)
    decreases SLOTS - i
  {
    if i < SLOTS {
      RootKept(d, d', i + 1);
    }
  }

  /** The first slot that looks free. */
  function FreeSlot(d: Disk, i: nat): (r: nat)
    requires i <= SLOTS
    ensures i <= r <= SLOTS && (r < SLOTS ==> !InUse(SlotAt(d, r))) && forall j: nat | i <= j < r :: InUse(SlotAt(d, j))
    decreases SLOTS - i
  {
    if i == SLOTS || !InUse(SlotAt(d, i)) then i else FreeSlot(d, i + 1)
  }

  // ---- the calls ----

  /** create_dir_entry_in_sector */
  method CreateEntryInSector(v: Volume, sec: nat, file: File) returns (ok: bool)
    requires ROOT <= sec < ROOT + 14 && Storable(file)
    modifies v`sectors
    ensures var first, next := (sec - ROOT) * 16, (sec - ROOT) * 16 + 16;
            var i := FreeSlot(old(v.sectors), first);
            && ok == (i < next)
            && v.sectors == if ok then WithSlot(old(v.sectors), i, Filled(SlotAt(old(v.sectors), i), file))
                 else old(v.sectors)
  {
    hide FreeSlot, Filled;
    var buff := v.sectors[sec];
    ghost var d, first := v.sectors, (sec - ROOT) * 16;
    var i := 0;
    while i < 512
      invariant 0 <= i <= 512 && i % 32 == 0 && v.sectors == d && buff == d[sec]
      invariant FreeSlot(d, first) == FreeSlot(d, first + i / 32)
    {
      ghost var n := first + i / 32;
      assert n / 16 == sec - ROOT && n % 16 == i / 32 && SlotAt(d, n) == buff[i..i + 32];
      LookAt(d, n);
      if buff[i] == 0 || buff[i] == 0xe5 {
        buff := buff[..i] + Filled(buff[i..i + 32], file) + buff[i + 32..];
        v.sectors := v.sectors[sec := buff];
        return true;
      }
      i := i + 32;
    }
    ok := false;
  }

  /** create_dir_entry on the root directory. */
  method CreateRootEntry(v: Volume, file: File) returns (ok: bool)
    requires Storable(file)
    modifies v`sectors
    ensures var i := FreeSlot(old(v.sectors), 0);
            && ok == (i < SLOTS)
            && v.sectors == if ok then WithSlot(old(v.sectors), i, Filled(SlotAt(old(v.sectors), i), file))
                 else old(v.sectors)
  {
    hide InUse, Filled, WithSlot;
    var sec := ROOT;
    while sec != 33
      invariant ROOT <= sec <= 33 && v.sectors == old(v.sectors)
      invariant FreeSlot(v.sectors, 0) == FreeSlot(v.sectors, (sec - ROOT) * 16)
      decreases 33 - sec
    {
      FullSector(v.sectors, (sec - ROOT) * 16, (sec - ROOT) * 16 + 16);
      ok := CreateEntryInSector(v, sec, file);
      if ok {
        return;
      }
      sec := sec + 1;
    }
    ok := false;
  }

  lemma LookAt(d: Disk, i: nat)
    requires i < SLOTS
    ensures FreeSlot(d, i) == if InUse(SlotAt(d, i)) then FreeSlot(d, i + 1) else i
  {
  }

  lemma {:induction false} FullSector(d: Disk, i: nat, j: nat)
    requires i <= j <= SLOTS
    ensures FreeSlot(d, i) >= j ==> FreeSlot(d, i) == FreeSlot(d, j)
    decreases j - i
  {
    if i < j && FreeSlot(d, i) >= j {
      FullSector(d, i + 1, j);
    }
  }

  /** build_tree on the root, up to its recursion into subdirectories. */
  method BuildRoot(v: Volume) returns (files: seq<File>)
    ensures files == FilesFrom(v.sectors, 0)
  {
    hide FilesFrom;
    files := [];
    var sec := ROOT;
    NoSlotsLeft(v.sectors);
    while sec != 33
      invariant ROOT <= sec <= 33
      invariant files + FilesFrom(v.sectors, (sec - ROOT) * 16) == FilesFrom(v.sectors, 0)
      decreases 33 - sec
    {
      var buff := v.sectors[sec];
      var i := 0;
      while i < 512
        invariant 0 <= i <= 512 && i % 32 == 0
        invariant files + FilesFrom(v.sectors, (sec - ROOT) * 16 + i / 32) == FilesFrom(v.sectors, 0)
      {
        ghost var n := (sec - ROOT) * 16 + i / 32;
        assert n / 16 == sec - ROOT && n % 16 == i / 32 && SlotAt(v.sectors, n) == buff[i..i + 32];
        NextSlot(v.sectors, n);
        if !(buff[i] == 0xe5 || buff[i] == 0) {
          files := files + [Parse(buff[i..i + 32])];
        }
        i := i + 32;
      }
      sec := sec + 1;
    }
  }

  lemma NextSlot(d: Disk, i: nat)
    requires i < SLOTS
    ensures FilesFrom(d, i) == (if InUse(SlotAt(d, i)) then [Parse(SlotAt(d, i))] else []) + FilesFrom(d, i + 1)
  {
  }

  // ---- the cache ----

  ghost predicate DistinctNames(files: seq<File>) {
    forall i, j | 0 <= i < j < |files| :: files[i].name != files[j].name
  }

  /** The sibling list is the parsed directory in another order, and no name occurs twice. */
  ghost predicate Cached(d: Disk, files: seq<File>) {
    multiset(files) == multiset(FilesFrom(d, 0)) && DistinctNames(files)
  }

  ghost predicate Taken(files: seq<File>, name: seq<Byte>) { exists i: nat :: i < |files| && files[i].name == name }

  /** is_file_exist */
  method Exists(files: seq<File>, name: seq<Byte>) returns (found: bool)
    ensures found <==> Taken(files, name)
  {
    var i := 0;
    while i < |files|
      invariant 0 <= i <= |files| && forall j: nat | j < i :: files[j].name != name
    {
      if files[i].name == name {
        return true;
      }
      i := i + 1;
    }
    found := false;
  }

  /** The disk after a file was created on cluster `e` in slot `i`. */
  function Created(d: Disk, e: nat, i: nat, f: File): Disk
    requires FIRST <= e < LIMIT && i < SLOTS && Storable(f)
  {
    var d1 := Wiped(d, e + ClusToSec);
    WithEntry(WithSlot(d1, i, Filled(SlotAt(d1, i), f)), e, 0xfff)
  }

  /** Of the data area only cluster `e` changed, and it is zero. */
  ghost predicate OnlyCluster(d: Disk, d': Disk, e: nat) {
    && FIRST <= e < LIMIT && d'[e + ClusToSec] == Zeros()
    && forall k: nat | ROOT + 14 <= k < 2880 && k != e + ClusToSec :: d'[k] == d[k]
  }

  lemma WipedAlone(d: Disk, e: nat)
    requires FIRST <= e < LIMIT
    ensures OnlyCluster(d, Wiped(d, e + ClusToSec), e)
  {
  }

  lemma CreatedAlone(d: Disk, e: nat, i: nat, f: File)
    requires FIRST <= e < LIMIT && i < SLOTS && Storable(f)
    ensures OnlyCluster(d, Created(d, e, i, f), e) && Entry(Created(d, e, i, f), e) == 0xfff
  {
    hide WithEntry, Entry, Filled, SlotAt;
    var d1 := Wiped(d, e + ClusToSec);
    var d2 := WithSlot(d1, i, Filled(SlotAt(d1, i), f));
    EntryFrame(d2, e, 0xfff);
    EntryWritten(d2, e, 0xfff, e);
  }

  class RootDirectory {
    /** The children, newest first. */
    var files: seq<File>
    /** Entries of filelist not in use. */
    var spare: nat

    constructor (v: Volume, spare: nat)
      requires DistinctNames(FilesFrom(v.sectors, 0))
      ensures Cached(v.sectors, files) && this.spare == spare
    {
      var parsed := BuildRoot(v);
      files, this.spare := parsed, spare;
    }

    /** create_empty_file */
    method CreateEmptyFile(v: Volume, name: seq<Byte>, attr: Byte, time: nat, date: nat, ghost chains: Files)
      returns (ok: bool)
      requires |v.img| == 20 * 512 && Cached(v.sectors, files) && Sound(v.sectors, chains)
      requires Visible(name) && time < 65536 && date < 65536
      requires Taken(files, name) || (HasRoom(v.sectors) && spare > 0)
      modifies v, this
      ensures |v.img| == 20 * 512 && Cached(v.sectors, files)
      ensures ok <==> !Taken(old(files), name) && FreeSlot(old(v.sectors), 0) < SLOTS
      ensures var e := FirstEmpty(old(v.sectors));
              if ok then
                && files == [File(name, attr, time, date, e, 0)] + old(files) && spare == old(spare) - 1
                && Sound(v.sectors, chains[e := [e]])
              else files == old(files) && spare == old(spare) && Sound(v.sectors, chains)
      ensures Taken(old(files), name) ==> v.sectors == old(v.sectors)
      ensures !Taken(old(files), name) ==> OnlyCluster(old(v.sectors), v.sectors, FirstEmpty(old(v.sectors)))
      ensures ok ==> Entry(v.sectors, FirstEmpty(old(v.sectors))) == 0xfff
    {
      hide OnlyCluster, Cached, Sound, Filled, FilesFrom, HasRoom, FirstEmpty, Entry, WithSlot, WithEntry, SlotAt;
      ghost var d := v.sectors;
      var exists_ := Exists(files, name);
      if exists_ {
        return false;
      }
      RoomGives(d);
      var e, taken := v.FindEmpty();
      ghost var d1 := v.sectors;
      var file := File(name, attr, time, date, e, 0);
      WipeKeeps(d, files, chains, e);
      WipedAlone(d, e);
      ok := CreateRootEntry(v, file);
      if !ok {
        return false;
      }
      CreationKeeps(d, files, chains, e, file);
      CreatedAlone(d, e, FreeSlot(d1, 0), file);
      v.WriteNext(e, 0xfff);
      files := [file] + files;
      spare := spare - 1;
    }
  }

  lemma RoomGives(d: Disk)
    requires HasRoom(d)
    ensures FIRST <= FirstEmpty(d) < LIMIT && Entry(d, FirstEmpty(d)) == 0
    ensures SectorOf(FirstEmpty(d)) == FirstEmpty(d) + ClusToSec
  {
    hide Entry;
  }

  /** The free cluster's sector is outside the tables, the root and every chain. */
  lemma WipeKeeps(d: Disk, files: seq<File>, chains: Files, e: nat)
    requires Cached(d, files) && Sound(d, chains) && FIRST <= e < LIMIT && Entry(d, e) == 0
    ensures Cached(Wiped(d, e + ClusToSec), files) && Sound(Wiped(d, e + ClusToSec), chains)
    ensures FreeSlot(Wiped(d, e + ClusToSec), 0) == FreeSlot(d, 0)
  {
    hide FilesFrom, FreeSlot, Entry, Mirrored;
    var d1 := Wiped(d, e + ClusToSec);
    RootKept(d, d1, 0);
    SlotsKept(d, d1, 0);
    OutsideTables(d, d1, chains);
  }

  lemma {:induction false} SlotsKept(d: Disk, d': Disk, i: nat)
    requires i <= SLOTS && forall k: nat | ROOT <= k < ROOT + 14 :: d'[k] == d[k]
    ensures FreeSlot(d', i) == FreeSlot(d, i)
    decreases SLOTS - i
  {
    if i < SLOTS {
      SlotsKept(d, d', i + 1);
    }
  }

  /** Sectors from 19 on are no part of the tables. */
  lemma OutsideTables(d: Disk, d': Disk, chains: Files)
    requires Sound(d, chains) && forall k: nat | k < 19 :: d'[k] == d[k]
    ensures Sound(d', chains) && forall c: nat | c < ENTRIES :: Entry(d', c) == Entry(d, c)
  {
    forall c: nat | c < ENTRIES
      ensures Entry(d', c) == Entry(d, c)
    {
      EntryPlace(c, c);
    }
    hide Entry;
    forall h | h in chains
      ensures IsChain(d', chains[h])
    {
      ChainKept(d, d', chains[h]);
    }
  }

  lemma CreationKeeps(d: Disk, files: seq<File>, chains: Files, e: nat, f: File)
    requires Cached(d, files) && Sound(d, chains) && FIRST <= e < LIMIT && Entry(d, e) == 0
    requires Storable(f) && Visible(f.name) && (forall g | g in files :: g.name != f.name)
    requires FreeSlot(Wiped(d, e + ClusToSec), 0) < SLOTS
    ensures var d' := Created(d, e, FreeSlot(Wiped(d, e + ClusToSec), 0), f);
            Cached(d', [f] + files) && Sound(d', chains[e := [e]])
  {
    hide FilesFrom, FreeSlot, Entry, Mirrored, WithEntry, Filled, InUse, Parse, IsChain;
    var d1 := Wiped(d, e + ClusToSec);
    var i := FreeSlot(d1, 0);
    var s := Filled(SlotAt(d1, i), f);
    var d2 := WithSlot(d1, i, s);
    WipeKeeps(d, files, chains, e);
    SlotRoundTrip(SlotAt(d1, i), f);
    FileJoins(d1, i, s, 0);
    EntryFrame(d2, e, 0xfff);
    var d' := WithEntry(d2, e, 0xfff);
    RootKept(d2, d', 0);
    OutsideTables(d, d2, chains);
    ChainAdded(d2, chains, e);
  }

  lemma ChainAdded(d: Disk, chains: Files, e: nat)
    requires Sound(d, chains) && FIRST <= e < LIMIT && Entry(d, e) == 0
    ensures Sound(WithEntry(d, e, 0xfff), chains[e := [e]])
  {
    hide Entry, WithEntry, Mirrored;
    var d' := WithEntry(d, e, 0xfff);
    EntryFrame(d, e, 0xfff);
    forall x: nat | x < ENTRIES
      ensures Entry(d', x) == if x == e then 0xfff else Entry(d, x)
    {
      EntryWritten(d, e, 0xfff, x);
    }
    forall g | g in chains
      ensures e !in chains[g] && IsChain(d', chains[g])
    {
      FreeIsUnchained(d, chains[g], e);
      ChainKept(d, d', chains[g]);
    }
  }

  // ---- any sequence of calls ----

  datatype World = World(disk: Disk, files: seq<File>, chains: Files)
  datatype Request = Request(name: seq<Byte>, attr: Byte, time: nat, date: nat)

  /** One call of create_empty_file, whichever way it ends. */
  ghost predicate Step(w: World, r: Request, w': World) {
    && Visible(r.name) && r.time < 65536 && r.date < 65536
    && if Taken(w.files, r.name) then w' == w
       else
         && HasRoom(w.disk)
         && var e := FirstEmpty(w.disk);
            var f, d1 := File(r.name, r.attr, r.time, r.date, e, 0), Wiped(w.disk, e + ClusToSec);
            if FreeSlot(d1, 0) < SLOTS
              then w' == World(Created(w.disk, e, FreeSlot(d1, 0), f), [f] + w.files, w.chains[e := [e]])
            else w' == World(d1, w.files, w.chains)
  }

  lemma StepKeeps(w: World, r: Request, w': World)
    requires Cached(w.disk, w.files) && Sound(w.disk, w.chains) && Step(w, r, w')
    ensures Cached(w'.disk, w'.files) && Sound(w'.disk, w'.chains)
  {
    hide Cached, Sound, Created, FreeSlot, FirstEmpty, Entry;
    if !Taken(w.files, r.name) {
      RoomGives(w.disk);
      var e := FirstEmpty(w.disk);
      WipeKeeps(w.disk, w.files, w.chains, e);
      if FreeSlot(Wiped(w.disk, e + ClusToSec), 0) < SLOTS {
        CreationKeeps(w.disk, w.files, w.chains, e, File(r.name, r.attr, r.time, r.date, e, 0));
      }
    }
  }

  /** After any sequence of calls the sibling list is a permutation of what build_tree would parse, names distinct. */
  lemma {:induction false} CacheStaysTrue(trace: seq<World>, calls: seq<Request>, n: nat)
    requires |trace| == |calls| + 1 && n < |trace| && Cached(trace[0].disk, trace[0].files)
    requires Sound(trace[0].disk, trace[0].chains)
    requires forall i: nat | i < |calls| :: StepAt(trace, calls, i)
    ensures Cached(trace[n].disk, trace[n].files) && Sound(trace[n].disk, trace[n].chains)
  {
    hide Cached, Sound, Step;
    if n > 0 {
      var i := n - 1;
      CacheStaysTrue(trace, calls, i);
      assert StepAt(trace, calls, i);
      StepKeeps(trace[i], calls[i], trace[n]);
    }
  }

  ghost predicate StepAt(trace: seq<World>, calls: seq<Request>, i: nat)
    requires |trace| == |calls| + 1 && i < |calls|
  {
    Step(trace[i], calls[i], trace[i + 1])
  }
}
