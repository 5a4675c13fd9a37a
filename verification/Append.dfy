/**
 * append_file of filesystem/fsfunc.c: the sectors of one chain poured after the last byte of another.
 */
module Append {
  import opened Fat
  import opened Chains
  import opened FileIO
  import opened Sequences

  // ---- what the loop writes ----

  /** The buffer filled up from the next source sector. */
  function Completed(cur: Sector, id: nat, next: Sector): Sector
    requires id < 512
  {
    cur[..id] + next[..512 - id]
  }

  /** What is in the buffer afterwards: the rest of the source sector, over a fresh cluster or over the same one. */
  function Carried(id: nat, next: Sector): Sector
    requires id < 512
  {
    next[512 - id..] + if id < 511 then Zeros()[id..] else next[..1]
  }

  /**
   * The sectors that end up from the current cluster on, when `cur` is in the buffer, `id` is the fill of the last
   * sector and `src` is still to come. At a fill of 511 the loop takes no new cluster and overwrites the current one.
   */
  function Pour(cur: Sector, id: nat, src: seq<Sector>): (r: seq<Sector>)
    requires id < 512
    ensures r != []
    decreases |src|
  {
    if src == [] then [cur]
    else (if id < 511 then [Completed(cur, id, src[0])] else []) + Pour(Carried(id, src[0]), id, src[1..])
  }

  /** Short of 511, nothing is lost: the filled part, then every source sector, then zeros. */
  lemma {:induction false} PourReads(cur: Sector, id: nat, src: seq<Sector>)
    requires id < 511 && (src == [] ==> cur[id..] == Zeros()[id..])
    ensures Flat(Pour(cur, id, src)) == cur[..id] + Flat(src) + Zeros()[id..]
    decreases |src|
  {
    if src == [] {
      assert Flat([cur]) == cur;
      assert cur == cur[..id] + cur[id..];
    } else {
      var next := Carried(id, src[0]);
      assert next[id..] == Zeros()[id..];
      PourReads(next, id, src[1..]);
      var first := Completed(cur, id, src[0]);
      assert next[..id] == src[0][512 - id..];
      assert Pour(cur, id, src) == [first] + Pour(next, id, src[1..]);
      assert Pour(cur, id, src)[1..] == Pour(next, id, src[1..]);
      assert Flat(Pour(cur, id, src)) == first + Flat(Pour(next, id, src[1..]));
      assert Flat(src) == src[0] + Flat(src[1..]);
      assert src[0] == src[0][..512 - id] + src[0][512 - id..];
    }
  }

  /** At 511 one sector is all that is left, whatever was poured. */
  lemma {:induction false} PourStuck(cur: Sector, src: seq<Sector>)
    ensures |Pour(cur, 511, src)| == 1
    ensures src != [] ==> var l := src[|src| - 1]; Pour(cur, 511, src) == [Carried(511, l)]
    decreases |src|
  {
    if src != [] {
      PourStuck(Carried(511, src[0]), src[1..]);
    }
  }

  // ---- the call ----

  /**
   * From `d0` the chain of `h` grew and the sectors of its clusters from place `base` on, but the last, hold `done`;
   * no other sector moved.
   */
  ghost predicate Pouring(d0: Disk, f0: Files, d: Disk, f: Files, h: nat, base: nat, done: seq<Sector>) {
    && h in f0 && h in f && f == f0[h := f[h]] && Sound(d, f)
    && f0[h] <= f[h] && base <= |f0[h]| && |f[h]| == base + |done| + 1
    && |FreeClusters(d)| + |f[h]| == |FreeClusters(d0)| + |f0[h]|
    && OtherSectorsKept(d0, d, f[h][base..])
    && InPlace(d, f[h], base, done)
    && (forall g | g in f0 && g != h :: Apart(f0[g], f[h]))
  }

  ghost predicate InPlace(d: Disk, s: seq<nat>, base: nat, done: seq<Sector>) {
    base + |done| <= |s| && forall k: nat | base <= k < base + |done| ::
      FIRST <= s[k] < LIMIT && d[s[k] + ClusToSec] == done[k - base]
  }

  /** A data sector written: the tables, and so the chains and the free clusters, stay. */
  lemma DataWritten(d: Disk, files: Files, c: nat, b: Sector)
    requires Sound(d, files) && FIRST <= c < LIMIT
    ensures Sound(PutData(d, c, b), files) && FreeClusters(PutData(d, c, b)) == FreeClusters(d)
  {
    hide Entry, Mirrored;
    var d' := PutData(d, c, b);
    TablesSame(d, d');
    forall g | g in files
      ensures IsChain(d', files[g])
    {
      ChainKept(d, d', files[g]);
    }
  }

  /** Writing the last cluster of the chain. */
  lemma TailWritten(d0: Disk, f0: Files, d: Disk, f: Files, h: nat, base: nat, done: seq<Sector>, b: Sector)
    requires Pouring(d0, f0, d, f, h, base, done)
    ensures FIRST <= f[h][|f[h]| - 1] < LIMIT
    ensures Pouring(d0, f0, PutData(d, f[h][|f[h]| - 1], b), f, h, base, done)
  {
    hide Sound, FreeClusters;
    SoundChain(d, f, h);
    var s := f[h];
    var c := s[|s| - 1];
    DataWritten(d, f, c, b);
    ChainsAreAcyclic(d, s);
    var d' := PutData(d, c, b);
    forall k: nat | 19 <= k < 2880 && !InSectors(k, s[base..])
      ensures d'[k] == d0[k]
    {
      assert c == s[base..][|s| - base - 1];
    }
  }

  /** A new cluster at the tail: the one before it is settled. */
  lemma TailGrown(d0: Disk, f0: Files, d: Disk, f: Files, h: nat, base: nat, done: seq<Sector>, b: Sector)
    requires Pouring(d0, f0, d, f, h, base, done) && FreeClusters(d) != {}
    requires FIRST <= f[h][|f[h]| - 1] < LIMIT && d[f[h][|f[h]| - 1] + ClusToSec] == b
    ensures HasRoom(d)
    ensures var s, e := f[h], FirstEmpty(d); var d' := Appended(d, s[|s| - 1], e);
            Pouring(d0, f0, d', f[h := s + [e]], h, base, done + [b]) && d'[e + ClusToSec] == Zeros()
  {
    hide Entry, FirstEmpty, Appended, FreeClusters, Mirrored, Sound, Grew, InPlace, OtherSectorsKept;
    GrewOne(d, f, h);
    AppendExtends(d, f, h);
    var s, e := f[h], FirstEmpty(d);
    var d', s' := Appended(d, s[|s| - 1], e), s + [e];
    GrewCount(d, f, d', f[h := s'], h);
    SettledSectors(d0, d, d', s, e, base, done, b);
    assert f[h := s'] == f0[h := s'];
    forall g | g in f0 && g != h
      ensures Apart(f0[g], s')
    {
      assert f[g] == f0[g] && Apart(f0[g], s) && e !in f[g];
    }
  }

  lemma SettledSectors(d0: Disk, d: Disk, d': Disk, s: seq<nat>, e: nat, base: nat, done: seq<Sector>, b: Sector)
    requires |s| == base + |done| + 1 && FIRST <= s[|s| - 1] < LIMIT && d[s[|s| - 1] + ClusToSec] == b
    requires OtherSectorsKept(d0, d, s[base..]) && OtherSectorsKept(d, d', [e]) && e !in s && InPlace(d, s, base, done)
    ensures OtherSectorsKept(d0, d', (s + [e])[base..]) && InPlace(d', s + [e], base, done + [b])
  {
    var s' := s + [e];
    assert s'[base..] == s[base..] + [e];
    forall k: nat | 19 <= k < 2880 && !InSectors(k, s'[base..])
      ensures d'[k] == d0[k]
    {
      assert !InSectors(k, s[base..]) && !InSectors(k, [e]);
    }
    forall k: nat | base <= k < base + |done| + 1
      ensures FIRST <= s'[k] < LIMIT && d'[s'[k] + ClusToSec] == (done + [b])[k - base]
    {
      assert s[k] in s;
      assert !InSectors(s[k] + ClusToSec, [e]);
    }
  }

  ghost function Sectors(d: Disk, s: seq<nat>): (r: seq<Sector>)
    requires forall i: nat | i < |s| :: FIRST <= s[i] < LIMIT
    ensures |r| == |s| && forall i: nat | i < |s| :: r[i] == d[s[i] + ClusToSec]
  {
    if s == [] then [] else [d[s[0] + ClusToSec]] + Sectors(d, s[1..])
  }

  /** Where the pouring starts: in the partly filled last cluster, or in a new one. */
  function Base(n: nat, size: nat): nat { if size % 512 == 0 || n == 0 then n else n - 1 }

  /** What append_file leaves on the disk. */
  ghost predicate Poured(d0: Disk, f0: Files, d: Disk, f: Files, h: nat, base: nat, out: seq<Sector>) {
    && h in f0 && h in f && f == f0[h := f[h]] && Sound(d, f)
    && f0[h] <= f[h] && base <= |f0[h]| && |f[h]| == base + |out| && InPlace(d, f[h], base, out)
    && OtherSectorsKept(d0, d, f[h][base..]) && (forall g | g in f0 && g != h :: Apart(f0[g], f[h]))
  }

  /** The walk to the last cluster of a chain. */
  method LastCluster(v: Volume, first: nat, ghost s: seq<nat>) returns (c: nat)
    requires |v.img| == 20 * 512 && IsChain(v.sectors, s) && s[0] == first
    modifies v`img
    ensures |v.img| == 20 * 512 && c == s[|s| - 1]
  {
    hide Entry;
    c := first;
    ghost var i := 0;
    while true
      invariant 0 <= i < |s| && c == s[i] && |v.img| == 20 * 512
      decreases |s| - i
    {
      NextInChain(v.sectors, s, i);
      var next := v.GetNext(c);
      if 0xff8 <= next <= 0xfff {
        break;
      }
      c := next;
      i := i + 1;
    }
  }

  /** append_a_cluster at the tail, and the read of the new sector. */
  method GrowTail(v: Volume, clus: nat, ghost d0: Disk, ghost f0: Files, ghost f: Files, ghost h: nat, ghost base: nat,
                  ghost done: seq<Sector>, ghost b: Sector) returns (e: nat, buff: Sector, ghost f': Files)
    requires |v.img| == 20 * 512 && Pouring(d0, f0, v.sectors, f, h, base, done) && FreeClusters(v.sectors) != {}
    requires clus == f[h][|f[h]| - 1] && FIRST <= clus < LIMIT && v.sectors[clus + ClusToSec] == b
    modifies v
    ensures |v.img| == 20 * 512 && h in f' && f'[h] == f[h] + [e] && FIRST <= e < LIMIT && buff == Zeros()
    ensures Pouring(d0, f0, v.sectors, f', h, base, done + [b])
    ensures |FreeClusters(v.sectors)| == |FreeClusters(old(v.sectors))| - 1
  {
    hide Entry, FirstEmpty, Appended, FreeClusters, Pouring;
    ghost var d := v.sectors;
    PouringGives(d0, f0, d, f, h, base, done);
    TailGrown(d0, f0, d, f, h, base, done, b);
    var ok;
    e, ok := AppendCluster(v, clus);
    f' := f[h := f[h] + [e]];
    buff := v.sectors[e + ClusToSec];
    OneFewer(d0, f0, d, f, v.sectors, f', h, base, done, done + [b]);
  }

  lemma OneFewer(d0: Disk, f0: Files, d: Disk, f: Files, d': Disk, f': Files, h: nat, base: nat,
                 done: seq<Sector>, done': seq<Sector>)
    requires Pouring(d0, f0, d, f, h, base, done) && Pouring(d0, f0, d', f', h, base, done') && |f'[h]| == |f[h]| + 1
    ensures |FreeClusters(d')| == |FreeClusters(d)| - 1
  {
    hide FreeClusters, Sound;
  }

  lemma PouringGives(d0: Disk, f0: Files, d: Disk, f: Files, h: nat, base: nat, done: seq<Sector>)
    requires Pouring(d0, f0, d, f, h, base, done)
    ensures h in f && f[h] != [] && FIRST <= f[h][|f[h]| - 1] < LIMIT && Sound(d, f)
  {
  }

  /** The source chain is untouched while the other grows. */
  lemma SourceKept(d0: Disk, f0: Files, d: Disk, f: Files, h: nat, base: nat, done: seq<Sector>, g: nat, i: nat)
    requires Sound(d0, f0) && Pouring(d0, f0, d, f, h, base, done) && g in f0 && g != h && i < |f0[g]|
    ensures FIRST <= f0[g][i] < LIMIT && d[f0[g][i] + ClusToSec] == d0[f0[g][i] + ClusToSec]
    ensures i + 1 < |f0[g]| ==> Entry(d, f0[g][i]) == f0[g][i + 1] && !IsEnd(f0[g][i + 1])
    ensures i + 1 == |f0[g]| ==> IsEnd(Entry(d, f0[g][i]))
  {
    hide Entry, FreeClusters, InPlace;
    var s := f0[g];
    assert f[g] == s && Apart(s, f[h]) && s[i] in s;
    NextInChain(d, s, i);
    assert forall c | c in f[h][base..] :: c in f[h];
    assert !InSectors(s[i] + ClusToSec, f[h][base..]);
  }

  lemma PouringStarts(d: Disk, f: Files, h: nat)
    requires Sound(d, f) && h in f
    ensures Pouring(d, f, d, f, h, |f[h]| - 1, [])
  {
    assert f == f[h := f[h]];
  }

  /** A full last cluster: pouring starts one place later, in a cluster just taken. */
  lemma StartsLater(d0: Disk, f0: Files, d: Disk, f: Files, h: nat, b: Sector)
    requires Sound(d0, f0) && h in f0 && f0[h] != [] && Pouring(d0, f0, d, f, h, |f0[h]| - 1, [b])
    requires FIRST <= f0[h][|f0[h]| - 1] < LIMIT && d0[f0[h][|f0[h]| - 1] + ClusToSec] == b
    ensures Pouring(d0, f0, d, f, h, |f0[h]|, [])
  {
    hide FreeClusters, Sound;
    var n, s := |f0[h]|, f[h];
    assert s[n - 1..] == [s[n - 1]] + s[n..] && s[n - 1] == f0[h][n - 1];
    assert InPlace(d, s, n - 1, [b]);
    forall k: nat | 19 <= k < 2880 && !InSectors(k, s[n..])
      ensures d[k] == d0[k]
    {
      if k != s[n - 1] + ClusToSec {
        assert !InSectors(k, s[n - 1..]);
      }
    }
  }

  /** One source sector: the current cluster completed and written, a new one taken, the rest kept in the buffer. */
  method PourSector(v: Volume, buff1: Sector, c2: nat, buff2: Sector, id: nat, ghost d0: Disk, ghost f0: Files,
                    ghost f: Files,
                    ghost h: nat, ghost base: nat, ghost done: seq<Sector>)
    returns (c2': nat, buff2': Sector, ghost f': Files, ghost done': seq<Sector>)
    requires |v.img| == 20 * 512 && id < 512 && Pouring(d0, f0, v.sectors, f, h, base, done)
    requires (id < 511 ==> FreeClusters(v.sectors) != {}) && h in f && f[h] != [] && c2 == f[h][|f[h]| - 1]
    modifies v
    ensures |v.img| == 20 * 512 && Pouring(d0, f0, v.sectors, f', h, base, done')
    ensures h in f' && f'[h] != [] && c2' == f'[h][|f'[h]| - 1]
    ensures |FreeClusters(v.sectors)| >= |FreeClusters(old(v.sectors))| - 1
    ensures done' == done + (if id < 511 then [Completed(buff2, id, buff1)] else []) && buff2' == Carried(id, buff1)
  {
    hide FreeClusters, Pouring;
    ghost var d := v.sectors;
    var w := Completed(buff2, id, buff1);
    TailWritten(d0, f0, d, f, h, base, done, w);
    FreeKept(d0, f0, d, f, h, base, done, w);
    v.sectors := PutData(v.sectors, c2, w);
    c2', buff2', f', done' := c2, w, f, done;
    if id < 511 {
      c2', buff2', f' := GrowTail(v, c2, d0, f0, f, h, base, done, w);
      done' := done + [w];
    }
    buff2' := buff1[512 - id..] + buff2'[id..];
  }

  /** append_file's loop over the source chain. */
  method PourAll(v: Volume, first1: nat, c: nat, cur: Sector, id: nat, ghost d0: Disk, ghost f0: Files, ghost f: Files,
                 ghost h: nat, ghost base: nat)
    returns (c2: nat, buff2: Sector, ghost f': Files, ghost done: seq<Sector>)
    requires |v.img| == 20 * 512 && id < 512 && Sound(d0, f0) && first1 in f0 && first1 != h
    requires Pouring(d0, f0, v.sectors, f, h, base, [])
    requires h in f && f[h] != [] && c == f[h][|f[h]| - 1] && (id < 511 ==> |f0[first1]| <= |FreeClusters(v.sectors)|)
    requires IsChain(d0, f0[first1]) && f0[first1][0] == first1
    modifies v
    ensures |v.img| == 20 * 512 && Pouring(d0, f0, v.sectors, f', h, base, done)
    ensures h in f' && f'[h] != [] && c2 == f'[h][|f'[h]| - 1] && FIRST <= c2 < LIMIT
    ensures Pour(cur, id, Sectors(d0, f0[first1])) == done + [buff2]
  {
    hide Entry, FreeClusters, Sound, Pouring, Pour, Sectors;
    ghost var s1 := f0[first1];
    ghost var src := Sectors(d0, s1);
    c2, buff2, f', done := c, cur, f, [];
    assert src[0..] == src && [] + Pour(cur, id, src) == Pour(cur, id, src);
    var c1 := first1;
    ghost var i := 0;
    while !(0xff8 <= c1 <= 0xfff)
      invariant 0 <= i <= |s1| && c1 < 4096 && |v.img| == 20 * 512
      invariant i < |s1| ==> c1 == s1[i]
      invariant i == |s1| <==> IsEnd(c1)
      invariant Pouring(d0, f0, v.sectors, f', h, base, done) && h in f' && f'[h] != [] && c2 == f'[h][|f'[h]| - 1]
      invariant id < 511 ==> |s1| - i <= |FreeClusters(v.sectors)|
      invariant Pour(cur, id, src) == done + Pour(buff2, id, src[i..])
      decreases |s1| - i
    {
      SomeFree(v.sectors);
      SourceKept(d0, f0, v.sectors, f', h, base, done, first1, i);
      PourOne(buff2, id, src, i, done);
      var buff1 := v.sectors[c1 + ClusToSec];
      c2, buff2, f', done := PourSector(v, buff1, c2, buff2, id, d0, f0, f', h, base, done);
      SourceKept(d0, f0, v.sectors, f', h, base, done, first1, i);
      c1 := v.GetNext(c1);
      i := i + 1;
    }
    assert src[|s1|..] == [];
    LastPoured(buff2, id);
    PouringGives(d0, f0, v.sectors, f', h, base, done);
  }

  /** append_file */
  method AppendFile(v: Volume, first1: nat, size1: nat, first2: nat, size2: nat, ghost f0: Files)
    returns (newSize: nat, ghost f: Files)
    requires |v.img| == 20 * 512 && Sound(v.sectors, f0) && first1 in f0 && first2 in f0 && first1 != first2
    requires size2 % 512 != 511 ==> |f0[first1]| + (if size2 % 512 == 0 then 1 else 0) <= |FreeClusters(v.sectors)|
    modifies v
    ensures |v.img| == 20 * 512 && newSize == size2 + size1
    ensures Result(old(v.sectors), f0, first1, first2, size2, v.sectors, f)
  {
    hide Entry, FreeClusters, Sound, Pouring, Pour, Result, Poured, Sectors;
    ghost var d0, h, s2 := v.sectors, first2, f0[first2];
    ghost var base, done := |s2| - 1, [];
    f := f0;
    SoundChain(d0, f0, first1);
    SoundChain(d0, f0, first2);
    PouringStarts(d0, f0, h);
    var c2 := LastCluster(v, first2, s2);
    var buff2 := v.sectors[c2 + ClusToSec];
    var id := size2 % 512;
    if id == 0 {
      ghost var last := buff2;
      SomeFree(d0);
      c2, buff2, f := GrowTail(v, c2, d0, f0, f, h, base, [], buff2);
      assert [] + [last] == [last];
      StartsLater(d0, f0, v.sectors, f, h, last);
      base := base + 1;
    }
    ghost var cur := buff2;
    c2, buff2, f, done := PourAll(v, first1, c2, buff2, id, d0, f0, f, h, base);
    TailWritten(d0, f0, v.sectors, f, h, base, done, buff2);
    v.sectors := PutData(v.sectors, c2, buff2);
    PouringEnds(d0, f0, v.sectors, f, h, base, done, buff2);
    Concluded(d0, f0, first1, first2, size2, v.sectors, f, base, cur, id);
    newSize := size2 + size1;
  }

  /** The chain of the second file, and the sectors from its last byte on. */
  ghost predicate Result(d0: Disk, f0: Files, g: nat, h: nat, size: nat, d: Disk, f: Files) {
    && g in f0 && h in f0 && g != h && Sound(d0, f0) && f0[h] != [] && FIRST <= f0[h][|f0[h]| - 1] < LIMIT
    && (forall i: nat | i < |f0[g]| :: FIRST <= f0[g][i] < LIMIT)
    && var cur := if size % 512 == 0 then Zeros() else d0[f0[h][|f0[h]| - 1] + ClusToSec];
       Poured(d0, f0, d, f, h, Base(|f0[h]|, size), Pour(cur, size % 512, Sectors(d0, f0[g])))
  }

  lemma Concluded(d0: Disk, f0: Files, g: nat, h: nat, size: nat, d: Disk, f: Files, base: nat, cur: Sector, id: nat)
    requires Sound(d0, f0) && g in f0 && h in f0 && g != h && id == size % 512
    requires forall i: nat | i < |f0[g]| :: FIRST <= f0[g][i] < LIMIT
    requires f0[h] != [] && FIRST <= f0[h][|f0[h]| - 1] < LIMIT
    requires base == (if id == 0 then |f0[h]| else |f0[h]| - 1)
    requires cur == if id == 0 then Zeros() else d0[f0[h][|f0[h]| - 1] + ClusToSec]
    requires Poured(d0, f0, d, f, h, base, Pour(cur, id, Sectors(d0, f0[g])))
    ensures Result(d0, f0, g, h, size, d, f)
  {
    hide Pour, Poured, Sound, Sectors;
  }

  lemma SomeFree(d: Disk)
    ensures |FreeClusters(d)| > 0 ==> FreeClusters(d) != {}
  {
  }

  lemma FreeKept(d0: Disk, f0: Files, d: Disk, f: Files, h: nat, base: nat, done: seq<Sector>, b: Sector)
    requires Pouring(d0, f0, d, f, h, base, done)
    ensures FIRST <= f[h][|f[h]| - 1] < LIMIT && FreeClusters(PutData(d, f[h][|f[h]| - 1], b)) == FreeClusters(d)
  {
    PouringGives(d0, f0, d, f, h, base, done);
    DataWritten(d, f, f[h][|f[h]| - 1], b);
  }

  lemma PourOne(buff: Sector, id: nat, src: seq<Sector>, i: nat, done: seq<Sector>)
    requires id < 512 && i < |src|
    ensures done + Pour(buff, id, src[i..])
         == done + (if id < 511 then [Completed(buff, id, src[i])]
           else []) + Pour(Carried(id, src[i]), id, src[i + 1..])
  {
    assert src[i..][1..] == src[i + 1..] && src[i..][0] == src[i];
  }

  lemma LastPoured(buff: Sector, id: nat)
    requires id < 512
    ensures Pour(buff, id, []) == [buff]
  {
  }

  lemma PouringEnds(d0: Disk, f0: Files, d: Disk, f: Files, h: nat, base: nat, done: seq<Sector>, b: Sector)
    requires Pouring(d0, f0, d, f, h, base, done) && FIRST <= f[h][|f[h]| - 1] < LIMIT
    requires d[f[h][|f[h]| - 1] + ClusToSec] == b
    ensures Poured(d0, f0, d, f, h, base, done + [b])
  {
    hide FreeClusters, Sound;
  }

  // ---- what a reader sees ----

  lemma {:induction false} ContentSplits(d: Disk, s: seq<nat>, t: seq<nat>)
    requires (forall i: nat | i < |s| :: FIRST <= s[i] < LIMIT) && forall i: nat | i < |t| :: FIRST <= t[i] < LIMIT
    ensures Content(d, s + t) == Content(d, s) + Content(d, t)
  {
    if s == [] {
      assert s + t == t;
    } else {
      assert (s + t)[1..] == s[1..] + t;
      ContentSplits(d, s[1..], t);
    }
  }

  lemma {:induction false} ContentIsFlat(d: Disk, s: seq<nat>)
    requires forall i: nat | i < |s| :: FIRST <= s[i] < LIMIT
    ensures Content(d, s) == Flat(Sectors(d, s))
  {
    if s != [] {
      ContentIsFlat(d, s[1..]);
      assert Sectors(d, s)[1..] == Sectors(d, s[1..]);
    }
  }

  lemma PouredTail(d: Disk, s: seq<nat>, base: nat, out: seq<Sector>)
    requires (forall i: nat | i < |s| :: FIRST <= s[i] < LIMIT) && InPlace(d, s, base, out) && |s| == base + |out|
    ensures Content(d, s[base..]) == Flat(out)
  {
    var b := s[base..];
    forall i: nat | i < |out|
      ensures d[b[i] + ClusToSec] == out[i]
    {
      var k := base + i;
      assert d[s[k] + ClusToSec] == out[k - base];
    }
    ContentBlocks(d, b, out);
  }

  lemma HalvesApart(s: seq<nat>, n: nat)
    requires NoDuplicates(s) && n <= |s|
    ensures Apart(s[..n], s[n..])
  {
  }

  /** The bytes of the grown chain: the full clusters as they were, then what was poured. */
  lemma PouredContent(d0: Disk, f0: Files, d: Disk, f: Files, h: nat, base: nat, out: seq<Sector>)
    requires Sound(d0, f0) && Poured(d0, f0, d, f, h, base, out)
    ensures (forall i: nat | i < |f0[h]| :: FIRST <= f0[h][i] < LIMIT)
    ensures forall i: nat | i < |f[h]| :: FIRST <= f[h][i] < LIMIT
    ensures Content(d, f[h]) == Content(d0, f0[h])[..512 * base] + Flat(out)
  {
    hide Sound, Content, Flat, InPlace, FreeClusters, NoDuplicates, Apart, OtherSectorsKept, IsChain;
    SoundChain(d0, f0, h);
    SoundChain(d, f, h);
    var s := f[h];
    ChainsAreAcyclic(d, s);
    HalvesApart(s, base);
    var a, b := s[..base], s[base..];
    assert s == a + b && a == f0[h][..base];
    ContentSplits(d, a, b);
    OtherFilesKept(d0, d, b, a);
    PouredTail(d, s, base, out);
    assert f0[h] == a + f0[h][base..];
    ContentSplits(d0, a, f0[h][base..]);
  }

  /** The second file, `size` bytes long, reads as its old bytes followed by the `size1` bytes of the first. */
  ghost predicate Concatenated(d0: Disk, f0: Files, g: nat, h: nat, size1: nat, size: nat, d: Disk, f: Files) {
    && g in f0 && h in f0 && h in f && size <= 512 * |f0[h]| && size1 <= 512 * |f0[g]|
    && InData(f0[g]) && InData(f0[h]) && InData(f[h])
    && Content(d0, f0[h])[..size] + Content(d0, f0[g])[..size1] <= Content(d, f[h])
  }

  ghost predicate InData(s: seq<nat>) { forall i: nat | i < |s| :: FIRST <= s[i] < LIMIT }

  /**
   * At a fill of 511 the last cluster ends up as the source's last sector rotated by one: right only by accident,
   * for a source of at most one byte.
   */
  ghost predicate RightByAccident(cur: Sector, src: seq<Sector>, size1: nat)
    requires src != []
  {
    var last := src[|src| - 1];
    size1 <= 1 && cur[..511] == last[1..] && (size1 == 1 ==> src[0][0] == last[0])
  }

  /**
   * When append_file concatenates, for a second file that is not empty and whose chain is as long as its size needs.
   */
  lemma AppendConcatenatesIff(d0: Disk, f0: Files, g: nat, h: nat, size1: nat, size: nat, d: Disk, f: Files)
    requires Result(d0, f0, g, h, size, d, f) && size > 0 && |f0[h]| == BlockCount(size) && size1 <= 512 * |f0[g]|
    ensures f0[g] != [] && InData(f0[g])
    ensures Concatenated(d0, f0, g, h, size1, size, d, f) <==>
            size % 512 != 511 || RightByAccident(d0[f0[h][|f0[h]| - 1] + ClusToSec], Sectors(d0, f0[g]), size1)
  {
    hide Sound, Pour, Content, Sectors, Flat, Poured, RightByAccident;
    var id, base := size % 512, Base(|f0[h]|, size);
    var cur := if id == 0 then Zeros() else d0[f0[h][|f0[h]| - 1] + ClusToSec];
    var src := Sectors(d0, f0[g]);
    PouredContent(d0, f0, d, f, h, base, Pour(cur, id, src));
    ContentIsFlat(d0, f0[g]);
    PouredGives(d0, f0, d, f, h, base, Pour(cur, id, src));
    SoundChain(d0, f0, g);
    OldBytes(d0, f0[h], size, base, id, cur);
    var old2 := Content(d0, f0[h])[..512 * base];
    if id == 511 {
      PourStuck(cur, src);
      StuckReads(old2, cur, src, size1);
    } else {
      PourReads(cur, id, src);
      PrefixChain(old2, cur[..id], Flat(src), size1, Zeros()[id..]);
    }
  }

  lemma CarriedFlat(last: Sector)
    ensures Flat([Carried(511, last)]) == last[1..] + last[..1]
  {
    assert [Carried(511, last)][1..] == [];
  }

  lemma OneByteOfIt(src: seq<Sector>, size1: nat, last: Sector)
    requires src != [] && size1 <= 512 * |src|
    ensures Flat(src)[..size1] <= last[..1] <==> size1 <= 1 && (size1 == 1 ==> src[0][0] == last[0])
  {
    hide Flat;
    var bytes := Flat(src)[..size1];
    if size1 >= 1 {
      FlatAt(src, 0);
      assert bytes[0] == src[0][0] && last[..1][0] == last[0];
    }
  }

  lemma PrefixBehind(o: seq<Byte>, w: seq<Byte>, x: seq<Byte>, l1: seq<Byte>, l2: seq<Byte>)
    requires |w| == |l1|
    ensures (o + w) + x <= o + (l1 + l2) <==> w == l1 && x <= l2
  {
    assert (o + w) + x == o + (w + x);
    Blockwise(o, w + x, o, l1 + l2);
    Blockwise(w, x, l1, l2);
  }

  lemma StuckReads(old2: seq<Byte>, cur: Sector, src: seq<Sector>, size1: nat)
    requires src != [] && size1 <= 512 * |src|
    ensures (old2 + cur[..511]) + Flat(src)[..size1] <= old2 + Flat([Carried(511, src[|src| - 1])])
            <==> RightByAccident(cur, src, size1)
  {
    hide Flat;
    var last, bytes := src[|src| - 1], Flat(src)[..size1];
    CarriedFlat(last);
    PrefixBehind(old2, cur[..511], bytes, last[1..], last[..1]);
    OneByteOfIt(src, size1, last);
  }

  lemma OldBytes(d: Disk, s: seq<nat>, size: nat, base: nat, id: nat, cur: Sector)
    requires (forall i: nat | i < |s| :: FIRST <= s[i] < LIMIT) && size > 0 && |s| == BlockCount(size)
    requires id == size % 512 && base == Base(|s|, size)
    requires id > 0 ==> cur == d[s[|s| - 1] + ClusToSec]
    ensures size <= 512 * |s| && Content(d, s)[..size] == Content(d, s)[..512 * base] + cur[..id]
  {
    hide Content;
    var bytes := Content(d, s);
    assert size == 512 * base + id;
    if id > 0 {
      ContentAt(d, s, base);
      assert bytes[512 * base..512 * (base + 1)][..id] == bytes[512 * base..size];
    }
  }

  lemma PrefixChain(a: seq<Byte>, b: seq<Byte>, c: seq<Byte>, n: nat, e: seq<Byte>)
    requires n <= |c|
    ensures (a + b) + c[..n] <= a + (b + c + e)
  {
    assert a + (b + c + e) == ((a + b) + c[..n]) + (c[n..] + e);
  }

  lemma PouredGives(d0: Disk, f0: Files, d: Disk, f: Files, h: nat, base: nat, out: seq<Sector>)
    requires Poured(d0, f0, d, f, h, base, out)
    ensures h in f && |f[h]| == base + |out|
  {
  }

  /** With an empty second file its one cluster comes first, then the source, then a cluster of zeros. */
  lemma EmptyTargetReads(d0: Disk, f0: Files, g: nat, h: nat, d: Disk, f: Files)
    requires Result(d0, f0, g, h, 0, d, f) && |f0[h]| == 1
    ensures g in f0 && h in f0 && h in f && InData(f0[g]) && InData(f0[h]) && InData(f[h])
    ensures Content(d, f[h]) == (d0[f0[h][0] + ClusToSec] + Content(d0, f0[g])) + Zeros()
    ensures |Content(d0, f0[h])| == 512
  {
    hide Sound, Pour, Content, Sectors, Flat, Poured;
    var src, first := Sectors(d0, f0[g]), d0[f0[h][0] + ClusToSec];
    PouredContent(d0, f0, d, f, h, 1, Pour(Zeros(), 0, src));
    PouredGives(d0, f0, d, f, h, 1, Pour(Zeros(), 0, src));
    ContentIsFlat(d0, f0[g]);
    SoundChain(d0, f0, g);
    PourReads(Zeros(), 0, src);
    ContentAt(d0, f0[h], 0);
    assert Content(d0, f0[h])[..512] == first;
    assert Zeros()[..0] + Flat(src) + Zeros()[0..] == Flat(src) + Zeros();
    assert first + (Flat(src) + Zeros()) == (first + Flat(src)) + Zeros();
  }

  /**
   * An empty second file has a cluster that append_file skips: its bytes come first, so the result is right only if
   * they and the source shifted behind them begin like the source.
   */
  lemma EmptyTargetIff(d0: Disk, f0: Files, g: nat, h: nat, size1: nat, d: Disk, f: Files)
    requires Result(d0, f0, g, h, 0, d, f) && |f0[h]| == 1 && size1 <= 512 * |f0[g]|
    ensures InData(f0[g])
    ensures Concatenated(d0, f0, g, h, size1, 0, d, f) <==>
            (d0[f0[h][0] + ClusToSec] + Content(d0, f0[g]))[..size1] == Content(d0, f0[g])[..size1]
  {
    hide Sound, Pour, Content, Sectors, Flat, Poured, Result;
    EmptyTargetReads(d0, f0, g, h, d, f);
    var first: seq<Byte>, bytes: seq<Byte> := d0[f0[h][0] + ClusToSec], Content(d0, f0[g]);
    assert ((first + bytes) + Zeros())[..size1] == (first + bytes)[..size1];
    assert Content(d0, f0[h])[..0] + bytes[..size1] == bytes[..size1];
  }

  lemma Blockwise(a: seq<Byte>, x: seq<Byte>, b: seq<Byte>, y: seq<Byte>)
    requires |a| == |b|
    ensures a + x <= b + y <==> a == b && x <= y
  {
    if a + x <= b + y {
      assert a == (a + x)[..|a|] == (b + y)[..|b|] == b;
      assert x == (a + x)[|a|..] == (b + y)[|b|..|b| + |x|];
    }
  }

  // ---- appending again ----

  /** When the grown chain is again as long as the new size needs, as a second append asks. */
  lemma ExactAgainIff(d0: Disk, f0: Files, g: nat, h: nat, size1: nat, size: nat, d: Disk, f: Files)
    requires Result(d0, f0, g, h, size, d, f) && size1 <= 512 * |f0[g]|
    requires |f0[h]| == if size == 0 then 1 else BlockCount(size)
    ensures h in f
    ensures |f[h]| == BlockCount(size + size1) <==>
            && size > 0
            && if size % 512 == 511 then size1 <= 1 else size % 512 + size1 > 512 * |f0[g]|
  {
    hide Sound, Pour, Content, Sectors, Flat, Poured;
    var id, base := size % 512, Base(|f0[h]|, size);
    var cur := if id == 0 then Zeros() else d0[f0[h][|f0[h]| - 1] + ClusToSec];
    var src := Sectors(d0, f0[g]);
    PouredGives(d0, f0, d, f, h, base, Pour(cur, id, src));
    if id == 511 {
      PourStuck(cur, src);
    } else {
      PourLength(cur, id, src);
    }
    BlocksBeyond(base, id, size1);
  }

  lemma {:induction false} PourLength(cur: Sector, id: nat, src: seq<Sector>)
    requires id < 511
    ensures |Pour(cur, id, src)| == |src| + 1
    decreases |src|
  {
    if src != [] {
      PourLength(Carried(id, src[0]), id, src[1..]);
    }
  }

  lemma BlocksBeyond(base: nat, id: nat, size1: nat)
    requires id < 512
    ensures BlockCount(512 * base + id + size1) == base + BlockCount(id + size1)
  {
  }
}
