/**
 * Cluster chains: what the table links, the calls that grow and free a chain, and the bytes a chain holds.
 */
module Chains {
  import opened Fat
  import opened Sequences

  /** `s` follows the table from its first cluster to an end mark, inside the data area. */
  ghost predicate IsChain(d: Disk, s: seq<nat>) {
    && s != [] && (forall i: nat | i < |s| :: FIRST <= s[i] < LIMIT)
    && (forall i: nat | i + 1 < |s| :: Entry(d, s[i]) == s[i + 1])
    && IsEnd(Entry(d, s[|s| - 1]))
  }

  /** A table has one chain from a given cluster. */
  lemma {:induction false} ChainUnique(d: Disk, s: seq<nat>, t: seq<nat>)
    requires IsChain(d, s) && IsChain(d, t) && s[0] == t[0]
    ensures s == t
    decreases |s|
  {
    if |s| > 1 && |t| > 1 {
      assert Entry(d, s[0]) == s[1] && Entry(d, t[0]) == t[1];
      TailIsChain(d, s);
      TailIsChain(d, t);
      ChainUnique(d, s[1..], t[1..]);
      assert s == [s[0]] + s[1..] && t == [t[0]] + t[1..];
    } else {
      LastEnds(d, s);
      LastEnds(d, t);
    }
  }

  lemma LastEnds(d: Disk, s: seq<nat>)
    requires IsChain(d, s)
    ensures IsEnd(Entry(d, s[0])) <==> |s| == 1
  {
    assert |s| > 1 ==> Entry(d, s[0]) == s[1];
  }

  lemma TailIsChain(d: Disk, s: seq<nat>)
    requires IsChain(d, s) && |s| > 1
    ensures IsChain(d, s[1..])
  {
    var t := s[1..];
    forall i: nat | i + 1 < |t|
      ensures Entry(d, t[i]) == t[i + 1]
    {
      var j := i + 1;
      assert Entry(d, s[j]) == s[j + 1];
    }
  }

  lemma {:induction false} SuffixIsChain(d: Disk, s: seq<nat>, i: nat)
    requires IsChain(d, s) && i < |s|
    ensures IsChain(d, s[i..])
  {
    if i > 0 {
      SuffixIsChain(d, s, i - 1);
      TailIsChain(d, s[i - 1..]);
      assert s[i - 1..][1..] == s[i..];
    }
  }

  /** A chain that ends has no cycle. */
  lemma ChainsAreAcyclic(d: Disk, s: seq<nat>)
    requires IsChain(d, s)
    ensures NoDuplicates(s)
  {
    forall i, j | 0 <= i < j < |s|
      ensures s[i] != s[j]
    {
      SuffixIsChain(d, s, i);
      SuffixIsChain(d, s, j);
      if s[i] == s[j] {
        ChainUnique(d, s[i..], s[j..]);
      }
    }
  }

  /** Clusters of a chain have a non-zero entry. */
  lemma ChainedIsTaken(d: Disk, s: seq<nat>, c: nat)
    requires IsChain(d, s) && c in s
    ensures c < ENTRIES && Entry(d, c) != 0
  {
    var i: nat :| i < |s| && s[i] == c;
    assert i + 1 < |s| ==> Entry(d, s[i]) == s[i + 1];
  }

  /** A chain only depends on the entries of its clusters. */
  lemma ChainKept(d: Disk, d': Disk, s: seq<nat>)
    requires IsChain(d, s) && forall i: nat | i < |s| :: Entry(d', s[i]) == Entry(d, s[i])
    ensures IsChain(d', s)
  {
  }

  // ---- the files of a volume ----

  /** The chains of the files, by first cluster. */
  type Files = map<nat, seq<nat>>

  /** Every file has its chain, and no cluster is in two. */
  ghost predicate Sound(d: Disk, files: Files) {
    && Mirrored(d) && Entry(d, 0) != 0 && Entry(d, 1) != 0
    && (forall h | h in files :: IsChain(d, files[h]) && files[h][0] == h)
    && (forall g, h | g in files && h in files && g != h :: Apart(files[g], files[h]))
  }

  ghost predicate Apart(s: seq<nat>, t: seq<nat>) { forall c | c in s :: c !in t }

  /** Some data cluster is free. */
  predicate HasRoom(d: Disk) { FIRST <= FirstEmpty(d) < LIMIT }

  ghost predicate InSectors(k: nat, s: seq<nat>) { k >= ClusToSec && k - ClusToSec in s }

  /** The data sectors outside `s` are the same. */
  ghost predicate OtherSectorsKept(d: Disk, d': Disk, s: seq<nat>) {
    forall k: nat | 19 <= k < 2880 :: InSectors(k, s) || d'[k] == d[k]
  }

  // ---- append_a_cluster ----

  function Appended(d: Disk, c: nat, e: nat): Disk
    requires c < SHORTS && e < SHORTS
  {
    WithEntry(WithEntry(ClusterWiped(d, e), c, e), e, 0xfff)
  }

  /** append_a_cluster; its comparison of the 16-bit cluster with -1 never holds. `ok` as for clear_cluster. */
  method AppendCluster(v: Volume, c: nat) returns (e: nat, ok: bool)
    requires |v.img| == 20 * 512 && c < SHORTS
    modifies v
    ensures |v.img| == 20 * 512 && e == FirstEmpty(old(v.sectors)) && e < SHORTS
    ensures HasRoom(old(v.sectors)) ==> ok
    ensures v.sectors == if ok then Appended(old(v.sectors), c, e) else old(v.sectors)
    ensures !ok <==> LIMIT < e < ENTRIES
  {
    hide Entry, FirstEmpty, WithEntry;
    e, ok := v.FindEmpty();
    if !ok {
      return;
    }
    v.WriteNext(c, e);
    v.WriteNext(e, 0xfff);
  }

  /**
   * With no entry left the tail is only marked as an end again; a root sector is wiped and two data sectors
   * overwritten.
   */
  lemma AppendOnFullTable(d: Disk, c: nat)
    requires c < ENTRIES && FirstEmpty(d) == NONE
    ensures var d' := Appended(d, c, FirstEmpty(d));
            Entry(d', c) == 0xfff && d'[30] == Zeros() && d'[192] == d'[201]
  {
    hide WithEntry, Entry, FirstEmpty;
    var d0 := ClusterWiped(d, NONE);
    var d1 := WithEntry(d0, c, NONE);
    EntryWritten(d0, c, NONE, c);
    EntryFrame(d0, c, NONE);
    PastTheTable(d1, c);
  }

  /** The entry of cluster 65535 would lie in data sector 192, and its copy in sector 201. */
  lemma PastTheTable(d: Disk, c: nat)
    requires c < ENTRIES
    ensures var d' := WithEntry(d, NONE, 0xfff);
            Entry(d', c) == Entry(d, c) && d'[30] == d[30] && d'[192] == d'[201]
  {
    assert Pos(NONE) == 98302 && 98302 / 512 == 191 && 98303 / 512 == 191;
    var d1 := PutByte(d, 98302, LowByte(d, NONE, 0xfff));
    var d' := WithEntry(d, NONE, 0xfff);
    assert d' == PutByte(d1, 98303, HighByte(d, NONE, 0xfff));
    assert forall k: nat | k < 192 :: d'[k] == d[k];
    EntryPlace(c, c);
  }

  lemma DataSectorEntries(d: Disk, k: nat, s: Sector, c: nat)
    requires 19 <= k < 2880 && c < ENTRIES
    ensures Entry(d[k := s], c) == Entry(d, c)
  {
    EntryPlace(c, c);
  }

  lemma AppendedEffect(d: Disk, c: nat, e: nat)
    requires c < ENTRIES && FIRST <= e < LIMIT && c != e
    ensures forall x: nat | x < ENTRIES :: Entry(Appended(d, c, e), x) == if x == c then e
              else if x == e then 0xfff else Entry(d, x)
    ensures forall k: nat | k < 2880 && !(1 <= k < 19) ::
              Appended(d, c, e)[k] == if k == e + ClusToSec then Zeros() else d[k]
    ensures Mirrored(d) ==> Mirrored(Appended(d, c, e))
  {
    hide WithEntry, Entry, FirstEmpty;
    var d0 := Wiped(d, e + ClusToSec);
    assert SectorOf(e) == e + ClusToSec;
    var d1 := WithEntry(d0, c, e);
    EntryFrame(d0, c, e);
    EntryFrame(d1, e, 0xfff);
    forall x: nat | x < ENTRIES
      ensures Entry(Appended(d, c, e), x) == if x == c then e else if x == e then 0xfff else Entry(d, x)
    {
      DataSectorEntries(d, e + ClusToSec, Zeros(), x);
      EntryWritten(d0, c, e, x);
      EntryWritten(d1, e, 0xfff, x);
    }
  }

  /** The chain of `h` gained the free cluster `e`, zeroed, and nothing else changed. */
  ghost predicate Grown(d: Disk, files: Files, h: nat, e: nat, d': Disk) {
    && h in files && FIRST <= e < LIMIT && (forall g | g in files :: e !in files[g])
    && Sound(d', files[h := files[h] + [e]])
    && OtherSectorsKept(d, d', [e]) && d'[e + ClusToSec] == Zeros() && Entry(d', e) == 0xfff
  }

  lemma FreeIsUnchained(d: Disk, s: seq<nat>, e: nat)
    requires IsChain(d, s) && e < ENTRIES && Entry(d, e) == 0
    ensures e !in s
  {
    if e in s {
      ChainedIsTaken(d, s, e);
    }
  }

  lemma ChainGrows(d: Disk, d': Disk, s: seq<nat>, e: nat)
    requires IsChain(d, s) && FIRST <= e < LIMIT && e !in s
    requires forall x: nat | x < ENTRIES :: Entry(d', x) == if x == s[|s| - 1] then e else if x == e then 0xfff
               else Entry(d, x)
    ensures IsChain(d', s + [e])
  {
    ChainsAreAcyclic(d, s);
    var t := s + [e];
    forall i: nat | i + 1 < |t|
      ensures Entry(d', t[i]) == t[i + 1]
    {
      assert i < |s| - 1 ==> Entry(d, s[i]) == s[i + 1];
    }
  }

  /** Growing a chain at its tail takes a cluster no file had and leaves every other chain and sector alone. */
  lemma AppendExtends(d: Disk, files: Files, h: nat)
    requires Sound(d, files) && h in files && HasRoom(d)
    ensures Grown(d, files, h, FirstEmpty(d), Appended(d, files[h][|files[h]| - 1], FirstEmpty(d)))
  {
    hide Appended, Entry, FirstEmpty, Mirrored;
    var e, s := FirstEmpty(d), files[h];
    var c := s[|s| - 1];
    var d' := Appended(d, c, e);
    forall g | g in files
      ensures e !in files[g]
    {
      FreeIsUnchained(d, files[g], e);
    }
    assert c in s;
    AppendedEffect(d, c, e);
    ChainGrows(d, d', s, e);
    forall g | g in files && g != h
      ensures IsChain(d', files[g]) && Apart(files[g], s + [e]) && Apart(s + [e], files[g])
    {
      assert Apart(files[g], s) && Apart(s, files[g]);
      ChainKept(d, d', files[g]);
    }
  }

  // ---- clear_file ----

  /** One cluster wiped and its entry freed. */
  function Freed(d: Disk, c: nat): Disk
    requires FIRST <= c < LIMIT
  {
    WithEntry(Wiped(d, c + ClusToSec), c, 0)
  }

  /** The clusters of `s` freed, first to last. */
  function AllFreed(d: Disk, s: seq<nat>): Disk
    requires forall i: nat | i < |s| :: FIRST <= s[i] < LIMIT
  {
    if s == [] then d else Freed(AllFreed(d, s[..|s| - 1]), s[|s| - 1])
  }

  lemma FreedEffect(d: Disk, c: nat)
    requires FIRST <= c < LIMIT
    ensures forall x: nat | x < ENTRIES :: Entry(Freed(d, c), x) == if x == c then 0 else Entry(d, x)
    ensures forall k: nat | k < 2880 && !(1 <= k < 19) :: Freed(d, c)[k] == if k == c + ClusToSec then Zeros() else d[k]
    ensures Mirrored(d) ==> Mirrored(Freed(d, c))
  {
    hide WithEntry, Entry;
    var d0 := Wiped(d, c + ClusToSec);
    EntryFrame(d0, c, 0);
    forall x: nat | x < ENTRIES
      ensures Entry(Freed(d, c), x) == if x == c then 0 else Entry(d, x)
    {
      DataSectorEntries(d, c + ClusToSec, Zeros(), x);
      EntryWritten(d0, c, 0, x);
    }
  }

  lemma {:induction false} AllFreedEffect(d: Disk, s: seq<nat>)
    requires forall i: nat | i < |s| :: FIRST <= s[i] < LIMIT
    ensures forall x: nat | x < ENTRIES :: Entry(AllFreed(d, s), x) == if x in s then 0 else Entry(d, x)
    ensures forall k: nat | k < 2880 && !(1 <= k < 19) :: AllFreed(d, s)[k] == if InSectors(k, s) then Zeros() else d[k]
    ensures Mirrored(d) ==> Mirrored(AllFreed(d, s))
  {
    hide Freed, Entry, Mirrored;
    if s != [] {
      var t, c := s[..|s| - 1], s[|s| - 1];
      assert s == t + [c];
      AllFreedEffect(d, t);
      FreedEffect(AllFreed(d, t), c);
    }
  }

  /** clear_file: the next cluster is read before the entry is freed. */
  method ClearFile(v: Volume, first: nat, ghost s: seq<nat>)
    requires |v.img| == 20 * 512 && IsChain(v.sectors, s) && s[0] == first
    modifies v
    ensures |v.img| == 20 * 512 && v.sectors == AllFreed(old(v.sectors), s)
  {
    hide Freed, Entry, WithEntry;
    ghost var d := v.sectors;
    ghost var i := 0;
    var c := first;
    var next := v.GetNext(c);
    while !(0xff8 <= c <= 0xfff)
      invariant 0 <= i <= |s| && c < 4096 && next < 4096 && |v.img| == 20 * 512
      invariant i < |s| ==> c == s[i] && next == Entry(d, c)
      invariant i == |s| <==> IsEnd(c)
      invariant v.sectors == AllFreed(d, s[..i])
      decreases |s| - i
    {
      var ok := v.ClearCluster(c);
      v.WriteNext(c, 0);
      FreeOneMore(d, s, i);
      StillLinked(d, s, i);
      c := next;
      next := v.GetNext(c);
      i := i + 1;
    }
    assert s[..i] == s;
  }

  lemma FreeOneMore(d: Disk, s: seq<nat>, i: nat)
    requires (forall k: nat | k < |s| :: FIRST <= s[k] < LIMIT) && i < |s|
    ensures AllFreed(d, s[..i + 1]) == WithEntry(Wiped(AllFreed(d, s[..i]), SectorOf(s[i])), s[i], 0)
  {
    hide Entry, WithEntry;
    assert s[..i + 1][..i] == s[..i];
  }

  /** Freeing the clusters already passed does not disturb the rest of the chain. */
  lemma StillLinked(d: Disk, s: seq<nat>, i: nat)
    requires IsChain(d, s) && i < |s|
    ensures i + 1 < |s| ==> Entry(d, s[i]) == s[i + 1] && Entry(AllFreed(d, s[..i + 1]), s[i + 1]) == Entry(d, s[i + 1])
    ensures i + 1 == |s| <==> IsEnd(Entry(d, s[i]))
  {
    hide Entry, AllFreed;
    ChainsAreAcyclic(d, s);
    AllFreedEffect(d, s[..i + 1]);
    assert i + 1 < |s| ==> Entry(d, s[i]) == s[i + 1] && s[i + 1] !in s[..i + 1];
  }

  /** clear_file frees and zeroes exactly its chain: every other chain and every other sector stays. */
  lemma ClearingFrees(d: Disk, files: Files, h: nat)
    requires Sound(d, files) && h in files
    ensures Sound(AllFreed(d, files[h]), files - {h}) && OtherSectorsKept(d, AllFreed(d, files[h]), files[h])
    ensures forall c: nat | c < ENTRIES :: Entry(AllFreed(d, files[h]), c) == 0 <==> Entry(d, c) == 0 || c in files[h]
    ensures forall c | c in files[h] :: FIRST <= c < LIMIT && AllFreed(d, files[h])[c + ClusToSec] == Zeros()
  {
    hide Entry, Mirrored, AllFreed;
    var s := files[h];
    var d' := AllFreed(d, s);
    AllFreedEffect(d, s);
    assert 0 !in s && 1 !in s;
    forall g | g in files && g != h
      ensures IsChain(d', files[g])
    {
      assert Apart(files[g], s);
      ChainKept(d, d', files[g]);
    }
  }

  // ---- a new file's first cluster ----

  function Started(d: Disk, e: nat): Disk
    requires FIRST <= e < LIMIT
  {
    WithEntry(Wiped(d, e + ClusToSec), e, 0xfff)
  }

  lemma StartingAdds(d: Disk, files: Files)
    requires Sound(d, files) && HasRoom(d)
    ensures FirstEmpty(d) !in files
    ensures Sound(Started(d, FirstEmpty(d)), files[FirstEmpty(d) := [FirstEmpty(d)]])
    ensures OtherSectorsKept(d, Started(d, FirstEmpty(d)), [FirstEmpty(d)])
    ensures var e := FirstEmpty(d); Entry(Started(d, e), e) == 0xfff && Started(d, e)[e + ClusToSec] == Zeros()
  {
    hide Entry, WithEntry, FirstEmpty, Mirrored;
    var e := FirstEmpty(d);
    var d0, d' := Wiped(d, e + ClusToSec), Started(d, e);
    EntryFrame(d0, e, 0xfff);
    assert Mirrored(d0) by { MirrorWiped(d, e + ClusToSec); }
    forall x: nat | x < ENTRIES
      ensures Entry(d', x) == if x == e then 0xfff else Entry(d, x)
    {
      DataSectorEntries(d, e + ClusToSec, Zeros(), x);
      EntryWritten(d0, e, 0xfff, x);
    }
    forall g | g in files
      ensures e !in files[g] && IsChain(d', files[g])
    {
      FreeIsUnchained(d, files[g], e);
      ChainKept(d, d', files[g]);
    }
  }

  lemma MirrorWiped(d: Disk, k: nat)
    requires Mirrored(d) && 19 <= k < 2880
    ensures Mirrored(Wiped(d, k))
  {
  }

  // ---- any sequence of these ----

  datatype Op = StartFile | AppendTo(head: nat) | ClearHead(head: nat)

  ghost predicate Step(d: Disk, files: Files, op: Op, d': Disk, files': Files) {
    match op
    case StartFile => HasRoom(d) && d' == Started(d, FirstEmpty(d)) && files' == files[FirstEmpty(d) := [FirstEmpty(d)]]
    case AppendTo(h) =>
      && HasRoom(d) && h in files && files[h] != [] && files[h][|files[h]| - 1] < ENTRIES
      && d' == Appended(d, files[h][|files[h]| - 1], FirstEmpty(d)) && files' == files[h := files[h] + [FirstEmpty(d)]]
    case ClearHead(h) =>
      && h in files && (forall i: nat | i < |files[h]| :: FIRST <= files[h][i] < LIMIT)
      && d' == AllFreed(d, files[h]) && files' == files - {h}
  }

  datatype Disks = Disks(disk: Disk, files: Files)

  /** A formatted volume, with the media bytes in both tables, holds no file and no damage. */
  lemma FormattedIsSound(d: Disk)
    requires Mirrored(d) && d[1][0] == 0xf0 && d[1][1] == 0xff && d[1][2] == 0xff
    ensures Sound(d, map[])
  {
    assert ImgByte(d, 512) == 0xf0 && ImgByte(d, 513) == 0xff && ImgByte(d, 514) == 0xff;
    assert Pos(0) == 0 && Pos(1) == 1;
  }

  /** The table always holds disjoint, acyclic chains. */
  lemma {:induction false} ChainsStaySound(trace: seq<Disks>, ops: seq<Op>, n: nat)
    requires |trace| == |ops| + 1 && n < |trace| && Sound(trace[0].disk, trace[0].files)
    requires forall i: nat | i < |ops| :: StepAt(trace, ops, i)
    ensures Sound(trace[n].disk, trace[n].files)
    ensures forall h | h in trace[n].files :: NoDuplicates(trace[n].files[h])
  {
    if n > 0 {
      var i := n - 1;
      ChainsStaySound(trace, ops, i);
      assert StepAt(trace, ops, i);
      StepKeeps(trace[i].disk, trace[i].files, ops[i], trace[n].disk, trace[n].files);
    }
    forall h | h in trace[n].files
      ensures NoDuplicates(trace[n].files[h])
    {
      ChainsAreAcyclic(trace[n].disk, trace[n].files[h]);
    }
  }

  ghost predicate StepAt(trace: seq<Disks>, ops: seq<Op>, i: nat)
    requires |trace| == |ops| + 1 && i < |ops|
  {
    Step(trace[i].disk, trace[i].files, ops[i], trace[i + 1].disk, trace[i + 1].files)
  }

  lemma StepKeeps(d: Disk, files: Files, op: Op, d': Disk, files': Files)
    requires Sound(d, files) && Step(d, files, op, d', files')
    ensures Sound(d', files')
  {
    hide Sound, Started, Appended, AllFreed;
    match op
    case StartFile => StartingAdds(d, files);
    case AppendTo(h) => AppendExtends(d, files, h);
    case ClearHead(h) => ClearingFrees(d, files, h);
  }

  // ---- the bytes of a chain ----

  ghost function Content(d: Disk, s: seq<nat>): (r: seq<Byte>)
    requires forall i: nat | i < |s| :: FIRST <= s[i] < LIMIT
    ensures |r| == 512 * |s|
  {
    if s == [] then [] else d[s[0] + ClusToSec] + Content(d, s[1..])
  }

  lemma {:induction false} ContentAt(d: Disk, s: seq<nat>, i: nat)
    requires (forall j: nat | j < |s| :: FIRST <= s[j] < LIMIT) && i < |s|
    ensures Content(d, s)[512 * i..512 * (i + 1)] == d[s[i] + ClusToSec]
  {
    if i > 0 {
      ContentAt(d, s[1..], i - 1);
      assert Content(d, s)[512..] == Content(d, s[1..]);
      assert Content(d, s)[512 * i..512 * (i + 1)] == Content(d, s[1..])[512 * (i - 1)..512 * i];
    }
  }

  /** A chain whose sectors stay keeps its bytes. */
  lemma {:induction false} ContentKept(d: Disk, d': Disk, s: seq<nat>)
    requires forall i: nat | i < |s| :: FIRST <= s[i] < LIMIT && d'[s[i] + ClusToSec] == d[s[i] + ClusToSec]
    ensures Content(d', s) == Content(d, s)
  {
    if s != [] {
      ContentKept(d, d', s[1..]);
    }
  }

  /** Other files read the same after a change confined to one chain. */
  lemma OtherFilesKept(d: Disk, d': Disk, s: seq<nat>, t: seq<nat>)
    requires (forall i: nat | i < |t| :: FIRST <= t[i] < LIMIT) && OtherSectorsKept(d, d', s) && Apart(t, s)
    ensures Content(d', t) == Content(d, t)
  {
    forall i: nat | i < |t|
      ensures d'[t[i] + ClusToSec] == d[t[i] + ClusToSec]
    {
      assert t[i] in t;
      assert !InSectors(t[i] + ClusToSec, s);
    }
    ContentKept(d, d', t);
  }

  // ---- sys_read_file ----

  /** What sys_read_file does with a chain's bytes; a size of 0 is never reached, so everything is copied. */
  ghost function ReadResult(bytes: seq<Byte>, offset: nat, size: nat): (int, seq<Byte>) {
    if size > 0 && offset + size <= |bytes| then (size, bytes[offset..offset + size])
    else (-1, if offset <= |bytes| then bytes[offset..] else [])
  }

  /** sys_read_file's inner loop over one sector. */
  method TakeBytes(buff: Sector, skip: nat, got: seq<Byte>, size: nat) returns (dst: seq<Byte>, full: bool)
    requires skip < 512 && (size == 0 || |got| < size)
    ensures full == (0 < size <= |got| + 512 - skip)
    ensures dst == got + if full then buff[skip..skip + size - |got|] else buff[skip..]
  {
    dst := got;
    var i := skip;
    while i < 512
      invariant skip <= i <= 512 && dst == got + buff[skip..i] && (size == 0 || |dst| < size)
    {
      dst := dst + [buff[i]];
      if |dst| == size {
        return dst, true;
      }
      i := i + 1;
    }
    full := false;
  }

  /** Before the sector at byte `at`: what is left to skip, and what has been copied. */
  ghost predicate Progress(bytes: seq<Byte>, offset: nat, size: nat, at: nat, skip: nat, dst: seq<Byte>) {
    && at <= |bytes| && skip == (if offset >= at then offset - at else 0)
    && dst == (if offset <= at then bytes[offset..at] else [])
    && (size == 0 || |dst| < size)
  }

  lemma SectorSkipped(bytes: seq<Byte>, offset: nat, size: nat, at: nat, skip: nat, dst: seq<Byte>)
    requires Progress(bytes, offset, size, at, skip, dst) && skip >= 512 && at + 512 <= |bytes|
    ensures Progress(bytes, offset, size, at + 512, skip - 512, dst)
  {
  }

  lemma SectorCopied(bytes: seq<Byte>, offset: nat, size: nat, at: nat, skip: nat, dst: seq<Byte>, buff: Sector)
    requires Progress(bytes, offset, size, at, skip, dst) && skip < 512 && at + 512 <= |bytes|
    requires bytes[at..at + 512] == buff
    ensures if 0 < size <= |dst| + 512 - skip
              then ReadResult(bytes, offset, size) == (size, dst + buff[skip..skip + size - |dst|])
            else Progress(bytes, offset, size, at + 512, 0, dst + buff[skip..])
  {
    if 0 < size <= |dst| + 512 - skip {
      Gather(bytes, at, offset, skip, size - |dst|, buff);
    } else {
      Gather(bytes, at, offset, skip, 512 - skip, buff);
    }
  }

  /** One sector skipped, or copied as far as the request goes. */
  method TakeSector(buff: Sector, size: nat, skip: nat, got: seq<Byte>, ghost bytes: seq<Byte>, ghost offset: nat,
                    ghost at: nat)
    returns (full: bool, skip': nat, dst: seq<Byte>)
    requires Progress(bytes, offset, size, at, skip, got) && at + 512 <= |bytes| && bytes[at..at + 512] == buff
    ensures if full then ReadResult(bytes, offset, size) == (size, dst)
              else Progress(bytes, offset, size, at + 512, skip', dst)
  {
    hide Progress, ReadResult;
    if skip >= 512 {
      SectorSkipped(bytes, offset, size, at, skip, got);
      return false, skip - 512, got;
    }
    SectorCopied(bytes, offset, size, at, skip, got, buff);
    ReadStarted(bytes, offset, size, at, skip, got);
    dst, full := TakeBytes(buff, skip, got, size);
    skip' := 0;
  }

  /** sys_read_file refines a slice of the chain's bytes. */
  method ReadFile(v: Volume, first: nat, offset: nat, size: nat, ghost s: seq<nat>) returns (r: int, dst: seq<Byte>)
    requires |v.img| == 20 * 512 && IsChain(v.sectors, s) && s[0] == first
    modifies v`img
    ensures |v.img| == 20 * 512 && (r, dst) == ReadResult(Content(v.sectors, s), offset, size)
  {
    hide Entry, Progress, ReadResult, Content, IsChain;
    ChainInData(v.sectors, s);
    ghost var bytes := Content(v.sectors, s);
    ghost var i: nat := 0;
    var c: nat, skip := first, offset;
    dst := [];
    ReadStarts(bytes, offset, size);
    while !(0xff8 <= c <= 0xfff)
      invariant |v.img| == 20 * 512 && Reached(s, i, c)
      invariant Progress(bytes, offset, size, 512 * i, skip, dst)
      decreases |s| - i
    {
      assert c == s[i];
      var buff := v.sectors[c + ClusToSec];
      ContentAt(v.sectors, s, i);
      var full;
      full, skip, dst := TakeSector(buff, size, skip, dst, bytes, offset, 512 * i);
      if full {
        return size, dst;
      }
      NextInChain(v.sectors, s, i);
      c := v.GetNext(c);
      i := i + 1;
    }
    ReadEnds(bytes, offset, size, skip, dst);
    r := -1;
  }

  /** The walk stands at place `i` of the chain, or past its end. */
  ghost predicate Reached(s: seq<nat>, i: nat, c: nat) {
    i <= |s| && c < 4096 && (i < |s| ==> c == s[i]) && (i == |s| <==> IsEnd(c))
  }

  lemma ReadStarts(bytes: seq<Byte>, offset: nat, size: nat)
    ensures Progress(bytes, offset, size, 0, offset, [])
  {
  }

  lemma ReadStarted(bytes: seq<Byte>, offset: nat, size: nat, at: nat, skip: nat, dst: seq<Byte>)
    requires Progress(bytes, offset, size, at, skip, dst)
    ensures size == 0 || |dst| < size
  {
  }

  lemma ReadEnds(bytes: seq<Byte>, offset: nat, size: nat, skip: nat, dst: seq<Byte>)
    requires Progress(bytes, offset, size, |bytes|, skip, dst)
    ensures ReadResult(bytes, offset, size) == (-1, dst)
  {
    assert offset <= |bytes| ==> bytes[offset..|bytes|] == bytes[offset..];
  }

  /** What was gathered, followed by part of the next sector, is a longer slice. */
  lemma Gather(bytes: seq<Byte>, at: nat, offset: nat, skip: nat, n: nat, buff: Sector)
    requires at + 512 <= |bytes| && bytes[at..at + 512] == buff && skip + n <= 512 && offset <= at + skip
    ensures bytes[offset..at + skip] + buff[skip..skip + n] == bytes[offset..at + skip + n]
  {
    var rest := bytes[at..at + 512];
    forall k: nat | skip <= k < skip + n
      ensures buff[k] == bytes[at + k]
    {
      assert buff[k] == rest[k];
    }
  }

  lemma ChainInData(d: Disk, s: seq<nat>)
    requires IsChain(d, s)
    ensures s != [] && forall i: nat | i < |s| :: FIRST <= s[i] < LIMIT
  {
  }

  lemma NextInChain(d: Disk, s: seq<nat>, i: nat)
    requires IsChain(d, s) && i < |s|
    ensures i + 1 < |s| ==> Entry(d, s[i]) == s[i + 1] && !IsEnd(Entry(d, s[i]))
    ensures i + 1 == |s| ==> IsEnd(Entry(d, s[i]))
  {
    assert i + 1 < |s| ==> Entry(d, s[i]) == s[i + 1];
  }
}
