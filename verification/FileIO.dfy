/**
 * Buffered writing: write_file and write_file_from_sda fill a list of buffer nodes and make the chain long enough;
 * active_file_close stores the buffers into the chain.
 */
module FileIO {
  import opened Options
  import opened Fat
  import opened Chains
  import opened Sequences

  const MAX_NODE_CNT: nat := 100

  // ---- the node pool ----

  datatype Node = Node(buff: Sector, next: Option<nat>, used: bool)
  type Nodes = n: seq<Node> | |n| == MAX_NODE_CNT ghost witness seq<Node>(MAX_NODE_CNT, _ => Node(Zeros(), None, false))

  ghost function Unused(n: Nodes): set<nat> { set i: nat | i < MAX_NODE_CNT && !n[i].used }

  /** The nodes of a buffer list, head first. */
  ghost predicate Linked(n: Nodes, list: seq<nat>) {
    && list != [] && NoDuplicates(list)
    && (forall k: nat | k < |list| :: list[k] < MAX_NODE_CNT && n[list[k]].used)
    && (forall k: nat | k + 1 < |list| :: n[list[k]].next == Some(list[k + 1]))
    && n[list[|list| - 1]].next == None
  }

  /** The first nodes of the list hold `blocks`. */
  ghost predicate Holds(n: Nodes, list: seq<nat>, blocks: seq<Sector>) {
    |blocks| <= |list| && forall k: nat | k < |blocks| :: list[k] < MAX_NODE_CNT && n[list[k]].buff == blocks[k]
  }

  function WithFresh(n: Nodes, i: nat): Nodes
    requires i < MAX_NODE_CNT
  {
    n[i := Node(Zeros(), None, true)]
  }

  class Pool {
    var nodes: Nodes

    constructor ()
      ensures forall i: nat | i < MAX_NODE_CNT :: !nodes[i].used
    {
      nodes := seq<Node>(MAX_NODE_CNT, _ => Node(Zeros(), None, false));
    }

    /** get_empty_AFBLNode: the first unused node, zeroed. */
    method GetEmptyNode() returns (r: Option<nat>)
      modifies this
      ensures r.None? <==> Unused(old(nodes)) == {}
      ensures r.None? ==> nodes == old(nodes)
      ensures r.Some? ==> r.value < MAX_NODE_CNT && !old(nodes)[r.value].used && nodes == WithFresh(old(nodes), r.value)
      ensures r.Some? ==> forall k: nat | k < r.value :: old(nodes)[k].used
    {
      var i := 0;
      while i < MAX_NODE_CNT
        invariant 0 <= i <= MAX_NODE_CNT && nodes == old(nodes)
        invariant forall k: nat | k < i :: nodes[k].used
      {
        if !nodes[i].used {
          assert i in Unused(nodes);
          nodes := WithFresh(nodes, i);
          return Some(i);
        }
        i := i + 1;
      }
      r := None;
    }
  }

  // ---- free clusters ----

  ghost function FreeClusters(d: Disk): set<nat> { set c: nat | FIRST <= c < LIMIT && Entry(d, c) == 0 }

  lemma RoomIffFree(d: Disk)
    requires Entry(d, 0) != 0 && Entry(d, 1) != 0
    ensures HasRoom(d) <==> FreeClusters(d) != {}
    ensures HasRoom(d) ==> FirstEmpty(d) in FreeClusters(d)
  {
    hide Entry, FirstEmpty;
    SearchOutcome(d);
    if SomeZero(d, FIRST, LIMIT) {
      var c: nat :| FIRST <= c < LIMIT && Entry(d, c) == 0;
      assert c in FreeClusters(d);
      assert FirstEmpty(d) in FreeClusters(d);
    }
  }

  /** append_a_cluster takes one free cluster. */
  lemma AppendTakesOne(d: Disk, c: nat)
    requires c < ENTRIES && HasRoom(d) && Entry(d, c) != 0 && Entry(d, 0) != 0 && Entry(d, 1) != 0
    ensures |FreeClusters(Appended(d, c, FirstEmpty(d)))| == |FreeClusters(d)| - 1
  {
    hide Entry, FirstEmpty, Appended;
    RoomIffFree(d);
    var e := FirstEmpty(d);
    AppendedEffect(d, c, e);
    assert FreeClusters(Appended(d, c, e)) == FreeClusters(d) - {e};
  }

  // ---- the chain and the list grow together ----

  /** From one volume to another the chain of `h` only grew, by clusters that were free; no other sector moved. */
  ghost predicate Grew(d: Disk, files: Files, d': Disk, files': Files, h: nat) {
    && h in files && h in files' && files' == files[h := files'[h]] && Sound(d', files')
    && files[h] <= files'[h]
    && |FreeClusters(d')| + |files'[h]| == |FreeClusters(d)| + |files[h]|
    && OtherSectorsKept(d, d', files'[h][|files[h]|..])
    && (forall g | g in files && g != h :: Apart(files[g], files'[h]))
  }

  lemma GrewMore(d: Disk, f: Files, d1: Disk, f1: Files, d2: Disk, f2: Files, h: nat)
    requires Grew(d, f, d1, f1, h) && Grew(d1, f1, d2, f2, h)
    ensures Grew(d, f, d2, f2, h)
  {
    hide Sound, FreeClusters;
    var n, n1 := |f[h]|, |f1[h]|;
    assert f2 == f[h := f2[h]];
    assert forall g | g in f && g != h :: f1[g] == f[g];
    forall k: nat | 19 <= k < 2880 && !InSectors(k, f2[h][n..])
      ensures d2[k] == d[k]
    {
      assert f2[h][n..] == f2[h][n..n1] + f2[h][n1..];
      assert f1[h] == f2[h][..n1];
      assert f2[h][n..n1] == f1[h][n..];
      assert !InSectors(k, f1[h][n..]) && !InSectors(k, f2[h][n1..]);
    }
  }

  lemma GrewNot(d: Disk, files: Files, h: nat)
    requires Sound(d, files) && h in files
    ensures Grew(d, files, d, files, h)
  {
    assert files == files[h := files[h]];
  }

  /** append_a_cluster at the tail of `h`. */
  lemma GrewOne(d: Disk, files: Files, h: nat)
    requires Sound(d, files) && h in files && FreeClusters(d) != {}
    ensures HasRoom(d)
    ensures var s, e := files[h], FirstEmpty(d); Grew(d, files, Appended(d, s[|s| - 1], e), files[h := s + [e]], h)
  {
    hide Entry, FirstEmpty, Appended, FreeClusters, Mirrored;
    RoomIffFree(d);
    var s, e := files[h], FirstEmpty(d);
    var c := s[|s| - 1];
    AppendExtends(d, files, h);
    assert c in s;
    ChainedIsTaken(d, s, c);
    AppendTakesOne(d, c);
    var f' := files[h := s + [e]];
    assert f'[h][|s|..] == [e];
    assert f' == files[h := f'[h]];
    forall g | g in files && g != h
      ensures Apart(files[g], f'[h])
    {
      assert f'[g] == files[g];
    }
  }

  /** A fresh node joins the list, the last node's link set to it. */
  function Joined(n: Nodes, last: nat, extra: nat): Nodes
    requires last < MAX_NODE_CNT && extra < MAX_NODE_CNT
  {
    var n1 := WithFresh(n, extra);
    n1[last := n1[last].(next := Some(extra))]
  }

  lemma JoinedList(n: Nodes, list: seq<nat>, extra: nat, blocks: seq<Sector>)
    requires Linked(n, list) && extra < MAX_NODE_CNT && !n[extra].used && Holds(n, list, blocks)
    ensures var n' := Joined(n, list[|list| - 1], extra);
            Linked(n', list + [extra]) && Holds(n', list + [extra], blocks) && |Unused(n')| + 1 == |Unused(n)|
  {
    var last := list[|list| - 1];
    var n', list' := Joined(n, last, extra), list + [extra];
    assert extra !in list;
    assert forall k: nat | k < |list| - 1 :: list[k] != last;
    forall k: nat | k + 1 < |list'|
      ensures n'[list'[k]].next == Some(list'[k + 1])
    {
      assert k + 1 < |list| ==> n[list[k]].next == Some(list[k + 1]);
    }
    assert Unused(n') == Unused(n) - {extra} && extra in Unused(n);
  }

  /** The step write_file and write_file_from_sda take before each block but the first. */
  method NextBuffer(v: Volume, p: Pool, clus: nat, now: nat, ghost files: Files, ghost h: nat, ghost list: seq<nat>,
                    ghost blocks: seq<Sector>)
    returns (ok: bool, clus': nat, now': nat, ghost files': Files)
    requires |v.img| == 20 * 512 && Sound(v.sectors, files) && h in files
    requires Linked(p.nodes, list) && Holds(p.nodes, list, blocks) && |list| <= |files[h]|
    requires now == list[|list| - 1] && clus == files[h][|list| - 1]
    requires |list| == |files[h]| ==> FreeClusters(v.sectors) != {}
    modifies v, p
    ensures |v.img| == 20 * 512 && h in files' && Grew(old(v.sectors), files, v.sectors, files', h)
    ensures ok <==> Unused(old(p.nodes)) != {}
    ensures !ok ==> p.nodes == old(p.nodes)
    ensures ok ==> |list| < |files'[h]| && clus' == files'[h][|list|] && now' < MAX_NODE_CNT
    ensures ok ==> p.nodes == Joined(old(p.nodes), now, now') && !old(p.nodes)[now'].used
    ensures ok ==> Linked(p.nodes, list + [now']) && Holds(p.nodes, list + [now'], blocks)
    ensures ok ==> |Unused(p.nodes)| + 1 == |Unused(old(p.nodes))|
  {
    hide Entry, Sound, Grew, Linked, Holds, FreeClusters, Unused, Appended;
    ghost var d, n := v.sectors, p.nodes;
    files', now' := files, now;
    LinkedNodes(n, list);
    SoundChain(d, files, h);
    NextInChain(d, files[h], |list| - 1);
    clus' := v.GetNext(clus);
    if 0xff8 <= clus' <= 0xfff {
      GrewOne(d, files, h);
      var taken;
      clus', taken := AppendCluster(v, clus);
      files' := files[h := files[h] + [clus']];
    } else {
      GrewNot(d, files, h);
    }
    var extra := p.GetEmptyNode();
    if extra == None {
      return false, clus', now, files';
    }
    now' := extra.value;
    p.nodes := p.nodes[now := p.nodes[now].(next := extra)];
    JoinedList(n, list, now', blocks);
    ok := true;
  }

  lemma SoundChain(d: Disk, files: Files, h: nat)
    requires Sound(d, files) && h in files
    ensures IsChain(d, files[h]) && files[h][0] == h
  {
  }

  lemma LinkedNodes(n: Nodes, list: seq<nat>)
    requires Linked(n, list)
    ensures list != [] && NoDuplicates(list) && forall k: nat | k < |list| :: list[k] < MAX_NODE_CNT && n[list[k]].used
  {
  }

  // ---- buffering the blocks ----

  /** What stands before the call: the volume, the files on it and the node pool. */
  datatype World = World(disk: Disk, files: Files, nodes: Nodes)

  /**
   * From `w0` to `w` the first blocks were buffered: a node each, and at least one; a cluster each in the chain of
   * `h`.
   */
  ghost predicate Staged(w0: World, w: World, h: nat, list: seq<nat>, blocks: seq<Sector>) {
    && Grew(w0.disk, w0.files, w.disk, w.files, h)
    && Linked(w.nodes, list) && Holds(w.nodes, list, blocks)
    && |list| == (if blocks == [] then 1 else |blocks|) && |list| <= |w.files[h]|
    && |Unused(w.nodes)| + |list| == |Unused(w0.nodes)|
    && OthersKept(w0.nodes, w.nodes, list)
  }

  /** Nodes that were in use are not in the list and keep their contents. */
  ghost predicate OthersKept(n0: Nodes, n: Nodes, list: seq<nat>) {
    forall i: nat | i < MAX_NODE_CNT && n0[i].used :: n[i] == n0[i] && i !in list
  }

  lemma OthersAfter(n0: Nodes, n: Nodes, list: seq<nat>, extra: nat)
    requires Linked(n, list) && OthersKept(n0, n, list) && extra < MAX_NODE_CNT && !n[extra].used
    ensures OthersKept(n0, Joined(n, list[|list| - 1], extra), list + [extra])
  {
    assert list[|list| - 1] in list;
  }

  function WithBuff(n: Nodes, i: nat, b: Sector): Nodes
    requires i < MAX_NODE_CNT
  {
    n[i := Node(b, None, n[i].used)]
  }

  /** init_AFBLNode on the last node of the list. */
  lemma LastFilled(n: Nodes, list: seq<nat>, blocks: seq<Sector>, b: Sector)
    requires Linked(n, list) && Holds(n, list, blocks) && |list| == |blocks| + 1
    ensures var n' := WithBuff(n, list[|blocks|], b);
            Linked(n', list) && Holds(n', list, blocks + [b]) && Unused(n') == Unused(n)
  {
    var last := list[|blocks|];
    var n' := WithBuff(n, last, b);
    assert forall k: nat | k < |blocks| :: list[k] != last;
    forall k: nat | k + 1 < |list|
      ensures n'[list[k]].next == Some(list[k + 1])
    {
      assert n[list[k]].next == Some(list[k + 1]);
    }
  }

  /** Room on the disk for `blocks` clusters in the chain of `h`. */
  ghost predicate RoomFor(w: World, h: nat, blocks: nat) {
    h in w.files && blocks <= |FreeClusters(w.disk)| + |w.files[h]|
  }

  /** The first `cnt` of `all` blocks are buffered; the writer stands at the last node and at its cluster. */
  ghost predicate Writing(w0: World, w: World, h: nat, list: seq<nat>, all: seq<Sector>, cnt: nat, clus: nat,
                          now: nat, head: nat) {
    && cnt <= |all| && Staged(w0, w, h, list, all[..cnt]) && RoomFor(w0, h, |all|) && cnt <= |Unused(w0.nodes)|
    && h in w.files && 1 <= |list| <= |w.files[h]|
    && list[0] == head && now == list[|list| - 1] && clus == w.files[h][|list| - 1]
  }

  /** A node and a cluster stand ready for the block after `blocks`. */
  ghost predicate Ready(w0: World, w: World, h: nat, list: seq<nat>, blocks: seq<Sector>) {
    && Grew(w0.disk, w0.files, w.disk, w.files, h)
    && Linked(w.nodes, list) && Holds(w.nodes, list, blocks) && |list| == |blocks| + 1 <= |w.files[h]|
    && |Unused(w.nodes)| + |list| == |Unused(w0.nodes)| && OthersKept(w0.nodes, w.nodes, list)
  }

  lemma WritingGives(w0: World, w: World, h: nat, list: seq<nat>, all: seq<Sector>, cnt: nat, clus: nat, now: nat,
                     head: nat)
    requires Writing(w0, w, h, list, all, cnt, clus, now, head)
    ensures Staged(w0, w, h, list, all[..cnt]) && h in w.files && Sound(w.disk, w.files) && Linked(w.nodes, list)
    ensures Holds(w.nodes, list, all[..cnt])
    ensures 1 <= |list| <= |w.files[h]| && list[0] == head && now == list[|list| - 1] && clus == w.files[h][|list| - 1]
    ensures |list| == (if cnt == 0 then 1 else cnt) && RoomFor(w0, h, |all|)
    ensures cnt < |all| && |list| == |w.files[h]| ==> cnt == 0 || FreeClusters(w.disk) != {}
    ensures |list| <= |Unused(w0.nodes)| && (Unused(w.nodes) != {} <==> |list| < |Unused(w0.nodes)|)
  {
    hide Linked, Holds, OthersKept;
    GrewCount(w0.disk, w0.files, w.disk, w.files, h);
    NoneUnused(w.nodes);
  }

  lemma FirstReady(w0: World, w: World, h: nat, list: seq<nat>, blocks: seq<Sector>)
    requires Staged(w0, w, h, list, blocks) && blocks == []
    ensures Ready(w0, w, h, list, blocks)
  {
    hide Grew, Linked, Holds, Unused;
  }

  lemma Advanced(w0: World, w: World, w': World, h: nat, list: seq<nat>, blocks: seq<Sector>, now: nat)
    requires Staged(w0, w, h, list, blocks) && blocks != [] && Grew(w.disk, w.files, w'.disk, w'.files, h)
    requires |list| < |w'.files[h]|
    requires now < MAX_NODE_CNT && !w.nodes[now].used && w'.nodes == Joined(w.nodes, list[|list| - 1], now)
    ensures Ready(w0, w', h, list + [now], blocks)
  {
    hide Grew, Linked, Holds, Unused, OthersKept;
    GrewMore(w0.disk, w0.files, w.disk, w.files, w'.disk, w'.files, h);
    JoinedList(w.nodes, list, now, blocks);
    OthersAfter(w0.nodes, w.nodes, list, now);
  }

  lemma BlockStored(w0: World, w: World, h: nat, list: seq<nat>, blocks: seq<Sector>, buff: Sector)
    requires Ready(w0, w, h, list, blocks)
    ensures list[|list| - 1] < MAX_NODE_CNT && 1 <= |list| <= |w.files[h]|
    ensures Staged(w0, w.(nodes := WithBuff(w.nodes, list[|list| - 1], buff)), h, list, blocks + [buff])
  {
    hide Grew, Holds, Unused, OthersKept;
    LinkedNodes(w.nodes, list);
    LastFilled(w.nodes, list, blocks, buff);
    OthersFilled(w0.nodes, w.nodes, list, buff);
  }

  lemma WritingAgain(w0: World, w: World, h: nat, list: seq<nat>, all: seq<Sector>, cnt: nat, clus: nat, now: nat,
                     head: nat)
    requires 1 <= cnt <= |all| && Ready(w0, w, h, list, all[..cnt - 1]) && RoomFor(w0, h, |all|)
    requires h in w.files && 1 <= |list| <= |w.files[h]| && list[0] == head && now == list[|list| - 1]
    requires clus == w.files[h][|list| - 1]
    ensures now < MAX_NODE_CNT && cnt <= |Unused(w0.nodes)|
    ensures Writing(w0, w.(nodes := WithBuff(w.nodes, now, all[cnt - 1])), h, list, all, cnt, clus, now, head)
  {
    hide Grew, Linked, Holds, OthersKept, WithBuff;
    assert all[..cnt] == all[..cnt - 1] + [all[cnt - 1]];
    BlockStored(w0, w, h, list, all[..cnt - 1], all[cnt - 1]);
  }

  /**
   * Out of nodes: the list holds as many of `all` the blocks as there were nodes, the chain may have grown by free
   * clusters, and nothing else changed.
   */
  ghost predicate Stopped(w0: World, w: World, h: nat, list: seq<nat>, all: seq<Sector>) {
    && Grew(w0.disk, w0.files, w.disk, w.files, h) && Unused(w.nodes) == {}
    && Linked(w.nodes, list) && |list| <= |w.files[h]| && OthersKept(w0.nodes, w.nodes, list)
    && |list| == |Unused(w0.nodes)| < |all| && Holds(w.nodes, list, all[..|list|])
  }

  lemma StoppedHere(w0: World, w: World, w': World, h: nat, list: seq<nat>, blocks: seq<Sector>, all: seq<Sector>)
    requires Staged(w0, w, h, list, blocks) && blocks != [] && |blocks| < |all| && blocks == all[..|blocks|]
    requires Grew(w.disk, w.files, w'.disk, w'.files, h)
    requires w'.nodes == w.nodes && Unused(w.nodes) == {}
    ensures Stopped(w0, w', h, list, all)
  {
    hide Linked, Holds, Unused, OthersKept;
    GrewMore(w0.disk, w0.files, w.disk, w.files, w'.disk, w'.files, h);
    assert w.files[h] <= w'.files[h];
    hide Grew;
  }

  /** Block number `cnt`, counted from 1, goes into its node. */
  method PutBlock(v: Volume, p: Pool, cnt: nat, clus: nat, now: nat, buff: Sector,
                  ghost w0: World, ghost w: World, ghost h: nat, ghost list: seq<nat>, ghost all: seq<Sector>,
                    ghost head: nat)
    returns (ok: bool, clus': nat, now': nat, ghost w': World, ghost list': seq<nat>)
    requires |v.img| == 20 * 512 && w == World(v.sectors, w.files, p.nodes)
    requires 1 <= cnt <= |all| && all[cnt - 1] == buff && Writing(w0, w, h, list, all, cnt - 1, clus, now, head)
    modifies v, p
    ensures |v.img| == 20 * 512 && w' == World(v.sectors, w'.files, p.nodes)
    ensures ok <==> cnt <= |Unused(w0.nodes)|
    ensures ok ==> Writing(w0, w', h, list', all, cnt, clus', now', head)
    ensures !ok ==> Stopped(w0, w', h, list', all) && list'[0] == head
  {
    hide Stopped, Staged, Ready, Writing, Grew, Linked, Holds, Unused, FreeClusters, WithBuff, RoomFor, Sound;
    ghost var blocks := all[..cnt - 1];
    ok, clus', now', w', list' := true, clus, now, w, list;
    WritingGives(w0, w, h, list, all, cnt - 1, clus, now, head);
    if cnt > 1 {
      ghost var files';
      ok, clus', now', files' := NextBuffer(v, p, clus, now, w.files, h, list, blocks);
      w' := World(v.sectors, files', p.nodes);
      if !ok {
        StoppedHere(w0, w, w', h, list, blocks, all);
        return;
      }
      list' := list + [now'];
      Advanced(w0, w, w', h, list, blocks, now');
    } else {
      FirstReady(w0, w, h, list, blocks);
    }
    WritingAgain(w0, w', h, list', all, cnt, clus', now', head);
    p.nodes := WithBuff(p.nodes, now', buff);
    w' := World(v.sectors, w'.files, p.nodes);
  }

  lemma OthersFilled(n0: Nodes, n: Nodes, list: seq<nat>, b: Sector)
    requires Linked(n, list) && OthersKept(n0, n, list)
    ensures OthersKept(n0, WithBuff(n, list[|list| - 1], b), list)
  {
    assert list[|list| - 1] in list;
  }

  lemma GrewCount(d: Disk, files: Files, d': Disk, files': Files, h: nat)
    requires Grew(d, files, d', files', h)
    ensures h in files && h in files' && Sound(d', files')
    ensures |FreeClusters(d')| + |files'[h]| == |FreeClusters(d)| + |files[h]|
    ensures FreeClusters(d') == {} ==> |FreeClusters(d')| == 0
  {
  }

  lemma NoneUnused(n: Nodes)
    ensures Unused(n) == {} <==> |Unused(n)| == 0
  {
  }

  // ---- the blocks of a content ----

  function BlockCount(n: nat): nat { (n + 511) / 512 }

  /** Block `k` of the content, the last one padded with zeros. */
  function Block(s: seq<Byte>, k: nat): Sector {
    seq(512, j requires 0 <= j => if 512 * k + j < |s| then s[512 * k + j] else 0)
  }

  function Blocks(s: seq<Byte>, n: nat): (r: seq<Sector>)
    ensures |r| == n && forall k: nat | k < n :: r[k] == Block(s, k)
  {
    if n == 0 then [] else Blocks(s, n - 1) + [Block(s, n - 1)]
  }

  class ActiveFile {
    const writable: bool
    const first: nat
    var fileSize: nat
    var head: Option<nat>
    var buffsize: nat

    constructor (writable: bool, first: nat, size: nat)
      ensures this.writable == writable && this.first == first && fileSize == size && head == None && buffsize == 0
    {
      this.writable, this.first, fileSize, head, buffsize := writable, first, size, None, 0;
    }
  }

  /** The head node of a new buffer list. */
  lemma Opened(w: World, h: nat, now: nat)
    requires Sound(w.disk, w.files) && h in w.files && now < MAX_NODE_CNT && !w.nodes[now].used
    ensures Staged(w, World(w.disk, w.files, WithFresh(w.nodes, now)), h, [now], [])
  {
    GrewNot(w.disk, w.files, h);
    SoundChain(w.disk, w.files, h);
    assert Unused(WithFresh(w.nodes, now)) == Unused(w.nodes) - {now} && now in Unused(w.nodes);
  }

  /** write_file's last act: the chain ends at the last cluster used, whatever followed it. */
  lemma Truncated(d: Disk, files: Files, h: nat, n: nat)
    requires Sound(d, files) && h in files && 1 <= n <= |files[h]|
    ensures files[h][n - 1] < ENTRIES && Sound(WithEntry(d, files[h][n - 1], 0xfff), files[h := files[h][..n]])
    ensures OtherSectorsKept(d, WithEntry(d, files[h][n - 1], 0xfff), [])
  {
    hide Entry, WithEntry, Mirrored;
    var s := files[h];
    var c, t := s[n - 1], s[..n];
    var d' := WithEntry(d, c, 0xfff);
    EntryFrame(d, c, 0xfff);
    ChainsAreAcyclic(d, s);
    forall x: nat | x < ENTRIES
      ensures Entry(d', x) == if x == c then 0xfff else Entry(d, x)
    {
      EntryWritten(d, c, 0xfff, x);
    }
    forall i: nat | i + 1 < n
      ensures Entry(d', t[i]) == t[i + 1]
    {
      assert Entry(d, s[i]) == s[i + 1] && s[i] != s[n - 1];
    }
    assert IsChain(d', t);
    forall g | g in files && g != h
      ensures IsChain(d', files[g]) && Apart(files[g], t) && Apart(t, files[g])
    {
      assert Apart(files[g], s) && Apart(s, files[g]) && c in s;
      ChainKept(d, d', files[g]);
    }
  }

  /** What a successful write leaves for the close. */
  ghost predicate Written(w0: World, w: World, h: nat, list: seq<nat>, blocks: seq<Sector>) {
    && h in w0.files && h in w.files && w.files == w0.files[h := w.files[h]] && Sound(w.disk, w.files)
    && Linked(w.nodes, list) && Holds(w.nodes, list, blocks) && OthersKept(w0.nodes, w.nodes, list)
    && |list| == (if blocks == [] then 1 else |blocks|) && |list| <= |w.files[h]|
    && OtherFiles(w0, w.disk, h) && (forall g | g in w0.files && g != h :: Apart(w0.files[g], w.files[h]))
    && |Unused(w.nodes)| + |list| == |Unused(w0.nodes)|
  }

  ghost predicate SameSectors(d: Disk, d': Disk, s: seq<nat>) {
    forall i: nat | i < |s| :: FIRST <= s[i] < LIMIT && d'[s[i] + ClusToSec] == d[s[i] + ClusToSec]
  }

  /** Every other file's sectors stay. */
  ghost predicate OtherFiles(w: World, d: Disk, h: nat) {
    forall g | g in w.files && g != h :: SameSectors(w.disk, d, w.files[g])
  }

  lemma OthersSpared(w0: World, d: Disk, h: nat, d': Disk, s: seq<nat>)
    requires OtherFiles(w0, d, h) && OtherSectorsKept(d, d', s)
    requires forall g | g in w0.files && g != h :: Apart(w0.files[g], s)
    ensures OtherFiles(w0, d', h)
  {
    forall g | g in w0.files && g != h
      ensures SameSectors(w0.disk, d', w0.files[g])
    {
      var t := w0.files[g];
      assert SameSectors(w0.disk, d, t) && Apart(t, s);
      forall i: nat | i < |t|
        ensures d'[t[i] + ClusToSec] == d[t[i] + ClusToSec]
      {
        assert t[i] in t;
        assert !InSectors(t[i] + ClusToSec, s);
      }
    }
  }

  /** Growing a chain spares the other files. */
  lemma GrewSpares(w0: World, w: World, h: nat)
    requires Sound(w0.disk, w0.files) && Grew(w0.disk, w0.files, w.disk, w.files, h)
    ensures OtherFiles(w0, w.disk, h)
  {
    hide FreeClusters, Mirrored, Entry;
    var s := w.files[h][|w0.files[h]|..];
    assert OtherFiles(w0, w0.disk, h);
    forall g | g in w0.files && g != h
      ensures Apart(w0.files[g], s)
    {
      assert Apart(w0.files[g], w.files[h]);
    }
    OthersSpared(w0, w0.disk, h, w.disk, s);
  }

  /** The first node of the buffer list. */
  method OpenBuffers(v: Volume, p: Pool, a: ActiveFile, ghost w0: World, ghost all: seq<Sector>)
    returns (now: nat, ghost w: World)
    requires w0 == World(v.sectors, w0.files, p.nodes) && Sound(v.sectors, w0.files) && RoomFor(w0, a.first, |all|)
    requires Unused(p.nodes) != {}
    modifies p, a`head
    ensures w == World(v.sectors, w.files, p.nodes) && a.head == Some(now)
    ensures Writing(w0, w, a.first, [now], all, 0, a.first, now, now)
  {
    hide Sound, Grew, Linked, Holds, Unused, FreeClusters, OthersKept;
    var head := p.GetEmptyNode();
    now := head.value;
    a.head := head;
    w := World(v.sectors, w0.files, p.nodes);
    Opened(w0, a.first, now);
    SoundChain(w0.disk, w0.files, a.first);
    assert all[..0] == [];
  }

  /**
   * write_file, the text already read. When a sector is full the source also stores a 0 at index 512 of its
   * 512-byte buffer; the model takes that store to change nothing else it looks at, and `past` says that it happened.
   */
  method WriteFile(v: Volume, p: Pool, a: ActiveFile, s: seq<Byte>, ghost w0: World)
    returns (ok: bool, past: bool, ghost w: World, ghost list: seq<nat>)
    requires |v.img| == 20 * 512 && w0 == World(v.sectors, w0.files, p.nodes) && Sound(v.sectors, w0.files)
    requires RoomFor(w0, a.first, BlockCount(|s|)) && Unused(p.nodes) != {}
    modifies v, p, a
    ensures |v.img| == 20 * 512 && w == World(v.sectors, w.files, p.nodes)
    ensures ok <==> a.writable && BlockCount(|s|) <= |Unused(w0.nodes)|
    ensures past <==> a.writable && |s| >= 512
    ensures ok ==> Written(w0, w, a.first, list, Blocks(s, BlockCount(|s|)))
    ensures ok ==> |w.files[a.first]| == |list| && a.head == Some(list[0]) && a.buffsize == |s|
    ensures !a.writable ==> w == w0 && a.head == old(a.head) && a.buffsize == old(a.buffsize)
    ensures a.writable && !ok ==> Stopped(w0, w, a.first, list, Blocks(s, BlockCount(|s|)))
    ensures a.writable && !ok ==> list != [] && a.head == Some(list[0])
    ensures a.writable && !ok ==> a.buffsize == old(a.buffsize)
  {
    hide Writing, Written, Sound, Unused, Block, Blocks, Stopped, Filling, RoomFor;
    w, list, past := w0, [], false;
    if !a.writable {
      return false, past, w, list;
    }
    ghost var h, all := a.first, Blocks(s, BlockCount(|s|));
    var size, id, cnt := 0, 0, 0;
    var buff: Sector := Zeros();
    var now;
    now, w := OpenBuffers(v, p, a, w0, all);
    ghost var head := now;
    list := [now];
    var clus := a.first;
    NoneFilled(s, buff);
    for i := 0 to |s|
      invariant size == i && (past <==> i >= 512) && id == i % 512 && cnt == i / 512 && |v.img| == 20 * 512
      invariant a.head == Some(head) && a.buffsize == old(a.buffsize)
      invariant w == World(v.sectors, w.files, p.nodes) && Writing(w0, w, h, list, all, cnt, clus, now, head)
      invariant Filling(s, cnt, id, buff)
    {
      FillOne(s, cnt, id, buff);
      buff := buff[id := s[i]];
      if id == 511 {
        past := past || id + 1 >= 512;
        cnt := cnt + 1;
        ok, clus, now, w, list := PutBlock(v, p, cnt, clus, now, buff, w0, w, h, list, all, head);
        if !ok {
          StoppedSome(w0, w, h, list, all);
          return false, past, w, list;
        }
      }
      id := (id + 1) % 512;
      size := size + 1;
    }
    if id > 0 {
      FillRest(s, cnt, id, buff);
      buff := buff[..id] + Zeros()[id..];
      cnt := cnt + 1;
      ok, clus, now, w, list := PutBlock(v, p, cnt, clus, now, buff, w0, w, h, list, all, head);
      if !ok {
        StoppedSome(w0, w, h, list, all);
        return false, past, w, list;
      }
    }
    FinishWrite(w0, w, h, list, all, clus, now, head);
    v.WriteNext(clus, 0xfff);
    w := World(v.sectors, w.files[h := w.files[h][..|list|]], p.nodes);
    a.buffsize := size;
    ok := true;
  }

  /** The buffer holds the first `id` bytes of block `cnt`. */
  ghost predicate Filling(s: seq<Byte>, cnt: nat, id: nat, buff: Sector) {
    id < 512 && 512 * cnt + id <= |s| && forall j: nat | j < id :: buff[j] == Block(s, cnt)[j]
  }

  lemma NoneFilled(s: seq<Byte>, b: Sector)
    ensures Filling(s, 0, 0, b)
  {
  }

  lemma FillOne(s: seq<Byte>, cnt: nat, id: nat, buff: Sector)
    requires Filling(s, cnt, id, buff) && 512 * cnt + id < |s|
    ensures var b := buff[id := s[512 * cnt + id]];
            if id == 511 then b == Block(s, cnt) && cnt < BlockCount(|s|) && Filling(s, cnt + 1, 0, b)
              else Filling(s, cnt, id + 1, b)
  {
  }

  lemma FillRest(s: seq<Byte>, cnt: nat, id: nat, buff: Sector)
    requires Filling(s, cnt, id, buff) && 512 * cnt + id == |s| && id > 0
    ensures buff[..id] + Zeros()[id..] == Block(s, cnt) && BlockCount(|s|) == cnt + 1
  {
  }

  /** write_file_from_sda: whole sectors of the other disk, and no new end mark. */
  method WriteFromSda(v: Volume, p: Pool, a: ActiveFile, filesize: nat, sda: seq<Sector>, ghost w0: World)
    returns (ok: bool, ghost w: World, ghost list: seq<nat>)
    requires |v.img| == 20 * 512 && w0 == World(v.sectors, w0.files, p.nodes) && Sound(v.sectors, w0.files)
    requires RoomFor(w0, a.first, BlockCount(filesize)) && Unused(p.nodes) != {} && 300 + BlockCount(filesize) <= |sda|
    modifies v, p, a
    ensures |v.img| == 20 * 512 && w == World(v.sectors, w.files, p.nodes)
    ensures ok <==> a.writable && BlockCount(filesize) <= |Unused(w0.nodes)|
    ensures !a.writable ==> w == w0 && a.head == old(a.head) && a.buffsize == old(a.buffsize)
    ensures a.writable && !ok ==> Stopped(w0, w, a.first, list, sda[300..300 + BlockCount(filesize)])
    ensures a.writable && !ok ==> list != [] && a.head == Some(list[0])
    ensures a.writable && !ok ==> a.buffsize == old(a.buffsize)
    ensures ok ==> Written(w0, w, a.first, list, sda[300..300 + BlockCount(filesize)])
    ensures ok ==> a.head == Some(list[0]) && a.buffsize == filesize
  {
    hide Writing, Written, Sound, Unused, Stopped;
    w, list := w0, [];
    if !a.writable {
      return false, w, list;
    }
    var secCnt := BlockCount(filesize);
    ghost var h, all := a.first, sda[300..300 + secCnt];
    var now;
    now, w := OpenBuffers(v, p, a, w0, all);
    ghost var head := now;
    list := [now];
    var clus := a.first;
    for i := 0 to secCnt
      invariant |v.img| == 20 * 512 && a.head == Some(head) && a.buffsize == old(a.buffsize)
      invariant w == World(v.sectors, w.files, p.nodes) && Writing(w0, w, h, list, all, i, clus, now, head)
    {
      ok, clus, now, w, list := PutBlock(v, p, i + 1, clus, now, sda[300 + i], w0, w, h, list, all, head);
      if !ok {
        StoppedSome(w0, w, h, list, all);
        return false, w, list;
      }
    }
    FinishFromSda(w0, w, h, list, all, clus, now, head);
    a.buffsize := filesize;
    ok := true;
  }

  lemma StoppedSome(w0: World, w: World, h: nat, list: seq<nat>, all: seq<Sector>)
    requires Stopped(w0, w, h, list, all)
    ensures list != []
  {
  }

  lemma StagedGives(w0: World, w: World, h: nat, list: seq<nat>, blocks: seq<Sector>)
    requires Staged(w0, w, h, list, blocks)
    ensures h in w.files && 1 <= |list| <= |w.files[h]| && w.files[h][0] == h && |list| <= |Unused(w0.nodes)|
    ensures Sound(w.disk, w.files) && forall i: nat | i < |w.files[h]| :: FIRST <= w.files[h][i] < LIMIT
  {
  }

  lemma FinishWrite(w0: World, w: World, h: nat, list: seq<nat>, all: seq<Sector>, clus: nat, now: nat, head: nat)
    requires Sound(w0.disk, w0.files) && Writing(w0, w, h, list, all, |all|, clus, now, head)
    ensures h in w.files && 1 <= |list| <= |w.files[h]| && clus < ENTRIES && list[0] == head
    ensures |all| <= |Unused(w0.nodes)|
    ensures Written(w0, World(WithEntry(w.disk, clus, 0xfff), w.files[h := w.files[h][..|list|]], w.nodes), h, list,
              all)
  {
    hide Linked, Holds, Unused, FreeClusters, OthersKept, OtherFiles, Sound, WithEntry, OtherSectorsKept;
    assert all[..|all|] == all;
    StagedGives(w0, w, h, list, all);
    Truncated(w.disk, w.files, h, |list|);
    GrewSpares(w0, w, h);
    OthersSpared(w0, w.disk, h, WithEntry(w.disk, clus, 0xfff), []);
    var f' := w.files[h := w.files[h][..|list|]];
    assert f' == w0.files[h := f'[h]];
  }

  lemma FinishFromSda(w0: World, w: World, h: nat, list: seq<nat>, all: seq<Sector>, clus: nat, now: nat, head: nat)
    requires Sound(w0.disk, w0.files) && Writing(w0, w, h, list, all, |all|, clus, now, head)
    ensures Written(w0, w, h, list, all) && list[0] == head && |all| <= |Unused(w0.nodes)|
  {
    hide Linked, Holds, Unused, FreeClusters, OthersKept, OtherFiles, Sound;
    assert all[..|all|] == all;
    StagedGives(w0, w, h, list, all);
    GrewSpares(w0, w, h);
  }

  // ---- active_file_close ----

  /** The buffers stored in the first clusters of a chain. */
  function Stored(d: Disk, s: seq<nat>, bufs: seq<Sector>): Disk
    requires |bufs| <= |s| && forall i: nat | i < |s| :: FIRST <= s[i] < LIMIT
  {
    if bufs == [] then d
    else PutData(Stored(d, s, bufs[..|bufs| - 1]), s[|bufs| - 1], bufs[|bufs| - 1])
  }

  function PutData(d: Disk, c: nat, b: Sector): Disk
    requires FIRST <= c < LIMIT
  {
    d[c + ClusToSec := b]
  }

  lemma {:induction false} StoredAt(d: Disk, s: seq<nat>, bufs: seq<Sector>, i: nat)
    requires |bufs| <= |s| && NoDuplicates(s) && (forall i: nat | i < |s| :: FIRST <= s[i] < LIMIT) && i < |bufs|
    ensures Stored(d, s, bufs)[s[i] + ClusToSec] == bufs[i]
  {
    var m := |bufs| - 1;
    if i < m {
      StoredAt(d, s, bufs[..m], i);
      assert s[i] != s[m];
    }
  }

  lemma {:induction false} StoredElsewhere(d: Disk, s: seq<nat>, bufs: seq<Sector>, k: nat)
    requires |bufs| <= |s| && (forall i: nat | i < |s| :: FIRST <= s[i] < LIMIT) && k < 2880
    ensures InSectors(k, s[..|bufs|]) || Stored(d, s, bufs)[k] == d[k]
  {
    if bufs != [] {
      var m := |bufs| - 1;
      StoredElsewhere(d, s, bufs[..m], k);
      assert s[..|bufs|] == s[..m] + [s[m]];
    }
  }

  lemma StoredEffect(d: Disk, s: seq<nat>, bufs: seq<Sector>)
    requires |bufs| <= |s| && NoDuplicates(s) && forall i: nat | i < |s| :: FIRST <= s[i] < LIMIT
    ensures forall i: nat | i < |bufs| :: Stored(d, s, bufs)[s[i] + ClusToSec] == bufs[i]
    ensures forall k: nat | k < 2880 :: InSectors(k, s[..|bufs|]) || Stored(d, s, bufs)[k] == d[k]
  {
    forall i: nat | i < |bufs|
      ensures Stored(d, s, bufs)[s[i] + ClusToSec] == bufs[i]
    {
      StoredAt(d, s, bufs, i);
    }
    forall k: nat | k < 2880
      ensures InSectors(k, s[..|bufs|]) || Stored(d, s, bufs)[k] == d[k]
    {
      StoredElsewhere(d, s, bufs, k);
    }
  }

  /** Data sectors are no part of the tables: the chains stay. */
  lemma StoredKeepsChains(d: Disk, files: Files, h: nat, bufs: seq<Sector>)
    requires Sound(d, files) && h in files && |bufs| <= |files[h]|
    ensures forall i: nat | i < |files[h]| :: FIRST <= files[h][i] < LIMIT
    ensures Sound(Stored(d, files[h], bufs), files) && OtherSectorsKept(d, Stored(d, files[h], bufs), files[h])
  {
    hide Entry, Stored, Mirrored;
    var s := files[h];
    SoundChain(d, files, h);
    ChainsAreAcyclic(d, s);
    StoredEffect(d, s, bufs);
    var d' := Stored(d, s, bufs);
    assert forall k: nat | k < 33 :: d'[k] == d[k] by {
      assert forall k: nat | k < 33 :: !InSectors(k, s[..|bufs|]);
    }
    TablesSame(d, d');
    forall g | g in files
      ensures IsChain(d', files[g])
    {
      ChainKept(d, d', files[g]);
    }
    forall k: nat | 19 <= k < 2880 && !InSectors(k, s)
      ensures d'[k] == d[k]
    {
      assert forall c | c in s[..|bufs|] :: c in s;
      assert !InSectors(k, s[..|bufs|]);
    }
  }

  lemma TablesSame(d: Disk, d': Disk)
    requires forall k: nat | k < 20 :: d'[k] == d[k]
    ensures forall c: nat | c < 4096 :: Entry(d', c) == Entry(d, c)
    ensures Mirrored(d) ==> Mirrored(d')
  {
    assert forall k: nat | k < 20 * 512 :: ImgByte(d', k) == ImgByte(d, k);
  }

  ghost function Bufs(n: Nodes, list: seq<nat>): (r: seq<Sector>)
    requires forall k: nat | k < |list| :: list[k] < MAX_NODE_CNT
    ensures |r| == |list| && forall k: nat | k < |list| :: r[k] == n[list[k]].buff
  {
    if list == [] then [] else Bufs(n, list[..|list| - 1]) + [n[list[|list| - 1]].buff]
  }

  /** The head of a buffer list, or none for a file that was opened and never written. */
  ghost predicate Buffered(n: Nodes, head: Option<nat>, list: seq<nat>) {
    if list == [] then head == None else Linked(n, list) && head == Some(list[0])
  }

  /** active_file_close */
  method CloseFile(v: Volume, p: Pool, a: ActiveFile, ghost files: Files, ghost list: seq<nat>)
    requires |v.img| == 20 * 512 && Sound(v.sectors, files) && a.first in files
    requires |list| <= |files[a.first]| && Buffered(p.nodes, a.head, list)
    modifies v, p, a
    ensures |v.img| == 20 * 512 && a.fileSize == old(a.buffsize) && a.head == None && a.buffsize == 0
    ensures forall k: nat | k < |list| :: list[k] < MAX_NODE_CNT
    ensures forall i: nat | i < |files[a.first]| :: FIRST <= files[a.first][i] < LIMIT
    ensures v.sectors == Stored(old(v.sectors), files[a.first], Bufs(old(p.nodes), list))
    ensures forall i: nat | i < MAX_NODE_CNT :: p.nodes[i].used == (old(p.nodes)[i].used && i !in list)
  {
    hide Entry, Sound, Linked, Mirrored, Stored, Bufs;
    ghost var d, n, s := v.sectors, p.nodes, files[a.first];
    SoundChain(d, files, a.first);
    if list != [] {
      LinkedNodes(n, list);
    }
    a.fileSize := a.buffsize;
    var clus := a.first;
    var now := a.head;
    ghost var k := 0;
    NothingStored(d, s, n, list);
    while now != None
      invariant 0 <= k <= |list| && |v.img| == 20 * 512 && a.fileSize == old(a.buffsize) && clus < 4096
      invariant now == (if k < |list| then Some(list[k]) else None)
      invariant k < |s| ==> clus == s[k]
      invariant v.sectors == Stored(d, s, Bufs(n, list[..k]))
      invariant forall i: nat | i < MAX_NODE_CNT :: p.nodes[i] == n[i].(used := n[i].used && i !in list[..k])
      decreases |list| - k
    {
      StoreOne(d, files, a.first, n, list, k);
      var i := now.value;
      v.sectors := PutData(v.sectors, clus, p.nodes[i].buff);
      now := p.nodes[i].next;
      p.nodes := p.nodes[i := p.nodes[i].(used := false)];
      clus := v.GetNext(clus);
      k := k + 1;
    }
    assert list[..k] == list;
    a.head, a.buffsize := None, 0;
  }

  lemma NothingStored(d: Disk, s: seq<nat>, n: Nodes, list: seq<nat>)
    requires forall i: nat | i < |s| :: FIRST <= s[i] < LIMIT
    ensures Bufs(n, list[..0]) == [] && Stored(d, s, []) == d
  {
  }

  lemma StoreOne(d: Disk, files: Files, h: nat, n: Nodes, list: seq<nat>, k: nat)
    requires Sound(d, files) && h in files && Linked(n, list) && k < |list| <= |files[h]|
    requires (forall i: nat | i < |list| :: list[i] < MAX_NODE_CNT)
    requires forall i: nat | i < |files[h]| :: FIRST <= files[h][i] < LIMIT
    ensures list[k] !in list[..k]
    ensures forall j: nat | j < MAX_NODE_CNT :: j in list[..k + 1] <==> j in list[..k] || j == list[k]
    ensures n[list[k]].next == (if k + 1 < |list| then Some(list[k + 1]) else None)
    ensures var d' := Stored(d, files[h], Bufs(n, list[..k + 1]));
            && d' == PutData(Stored(d, files[h], Bufs(n, list[..k])), files[h][k], n[list[k]].buff)
            && (k + 1 < |files[h]| ==> Entry(d', files[h][k]) == files[h][k + 1])
  {
    hide Entry, Sound;
    assert list[..k + 1][..k] == list[..k];
    var bufs := Bufs(n, list[..k + 1]);
    assert bufs[..k] == Bufs(n, list[..k]);
    StoredKeepsChains(d, files, h, bufs);
    SoundChain(Stored(d, files[h], bufs), files, h);
    NextInChain(Stored(d, files[h], bufs), files[h], k);
  }

  // ---- write, close, read ----

  ghost function Flat(blocks: seq<Sector>): (r: seq<Byte>)
    ensures |r| == 512 * |blocks|
  {
    if blocks == [] then [] else blocks[0] + Flat(blocks[1..])
  }

  lemma {:induction false} FlatAt(blocks: seq<Sector>, i: nat)
    requires i < 512 * |blocks|
    ensures Flat(blocks)[i] == blocks[i / 512][i % 512]
  {
    if i >= 512 {
      FlatAt(blocks[1..], i - 512);
      assert Flat(blocks)[i] == Flat(blocks[1..])[i - 512];
    }
  }

  lemma BlockByte(s: seq<Byte>, i: nat)
    requires i < |s|
    ensures i / 512 < BlockCount(|s|) && Block(s, i / 512)[i % 512] == s[i]
  {
    assert 512 * (i / 512) + i % 512 == i;
  }

  /** The zero-padded blocks of a content start with the content. */
  lemma FlatBlocks(s: seq<Byte>)
    ensures |s| <= 512 * BlockCount(|s|) && Flat(Blocks(s, BlockCount(|s|)))[..|s|] == s
  {
    hide Blocks, Flat, Block;
    var blocks := Blocks(s, BlockCount(|s|));
    forall i: nat | i < |s|
      ensures i < |Flat(blocks)| && Flat(blocks)[i] == s[i]
    {
      BlockByte(s, i);
      FlatAt(blocks, i);
    }
  }

  /** And nothing but zeros follows it, for less than a block. */
  lemma PaddedWithZeros(s: seq<Byte>)
    ensures var flat := Flat(Blocks(s, BlockCount(|s|)));
            |s| <= |flat| < |s| + 512 && flat[..|s|] == s && forall i: nat | |s| <= i < |flat| :: flat[i] == 0
  {
    FlatBlocks(s);
    hide Blocks, Flat;
    var blocks := Blocks(s, BlockCount(|s|));
    forall i: nat | |s| <= i < |Flat(blocks)|
      ensures Flat(blocks)[i] == 0
    {
      FlatAt(blocks, i);
      assert 512 * (i / 512) + i % 512 == i;
    }
  }

  lemma {:induction false} ContentBlocks(d: Disk, s: seq<nat>, blocks: seq<Sector>)
    requires |blocks| <= |s| && forall i: nat | i < |s| :: FIRST <= s[i] < LIMIT
    requires forall i: nat | i < |blocks| :: d[s[i] + ClusToSec] == blocks[i]
    ensures Flat(blocks) <= Content(d, s)
  {
    if blocks != [] {
      ContentBlocks(d, s[1..], blocks[1..]);
      assert Content(d, s)[..512] == blocks[0];
      assert Content(d, s)[512..] == Content(d, s[1..]);
    }
  }

  /** After write and close the chain starts with the blocks, the other files read as before, and the nodes are back. */
  ghost predicate SavedAs(w0: World, w: World, h: nat, blocks: seq<Sector>) {
    && h in w0.files && h in w.files && w.files == w0.files[h := w.files[h]] && Sound(w.disk, w.files)
    && Flat(blocks) <= Content(w.disk, w.files[h])
    && (forall g | g in w0.files && g != h :: Unchanged(w0.disk, w.disk, w0.files[g]))
    && Unused(w.nodes) == Unused(w0.nodes)
  }

  ghost predicate Unchanged(d: Disk, d': Disk, s: seq<nat>) {
    (forall i: nat | i < |s| :: FIRST <= s[i] < LIMIT) && Content(d', s) == Content(d, s)
  }

  lemma SoundData(d: Disk, files: Files, h: nat)
    requires Sound(d, files) && h in files
    ensures NoDuplicates(files[h]) && forall i: nat | i < |files[h]| :: FIRST <= files[h][i] < LIMIT
  {
    SoundChain(d, files, h);
    ChainsAreAcyclic(d, files[h]);
  }

  lemma BlocksStored(d: Disk, s: seq<nat>, n: Nodes, list: seq<nat>, blocks: seq<Sector>)
    requires NoDuplicates(s) && (forall i: nat | i < |s| :: FIRST <= s[i] < LIMIT) && |list| <= |s|
    requires (forall k: nat | k < |list| :: list[k] < MAX_NODE_CNT) && Holds(n, list, blocks)
    ensures Flat(blocks) <= Content(Stored(d, s, Bufs(n, list)), s)
  {
    hide Stored, NoDuplicates;
    StoredEffect(d, s, Bufs(n, list));
    ContentBlocks(Stored(d, s, Bufs(n, list)), s, blocks);
  }

  lemma Saved(w0: World, w: World, h: nat, list: seq<nat>, blocks: seq<Sector>, n: Nodes)
    requires Written(w0, w, h, list, blocks)
    requires forall i: nat | i < MAX_NODE_CNT :: n[i].used == (w.nodes[i].used && i !in list)
    ensures (forall k: nat | k < |list| :: list[k] < MAX_NODE_CNT)
    ensures forall i: nat | i < |w.files[h]| :: FIRST <= w.files[h][i] < LIMIT
    ensures SavedAs(w0, World(Stored(w.disk, w.files[h], Bufs(w.nodes, list)), w.files, n), h, blocks)
  {
    hide Sound, Linked, OthersKept, OtherFiles, Unused, Stored, Entry, Content, Flat, Unchanged, Holds, IsChain,
         OtherSectorsKept;
    LinkedNodes(w.nodes, list);
    var bufs, s := Bufs(w.nodes, list), w.files[h];
    SoundData(w.disk, w.files, h);
    StoredKeepsChains(w.disk, w.files, h, bufs);
    var d' := Stored(w.disk, s, bufs);
    BlocksStored(w.disk, s, w.nodes, list, blocks);
    OthersSpared(w0, w.disk, h, d', s);
    forall g | g in w0.files && g != h
      ensures Unchanged(w0.disk, d', w0.files[g])
    {
      OtherKept(w0, d', h, g);
    }
    NodesBack(w0.nodes, w.nodes, n, list);
  }

  lemma OtherKept(w0: World, d: Disk, h: nat, g: nat)
    requires OtherFiles(w0, d, h) && g in w0.files && g != h
    ensures Unchanged(w0.disk, d, w0.files[g])
  {
    assert SameSectors(w0.disk, d, w0.files[g]);
    ContentKept(w0.disk, d, w0.files[g]);
  }

  lemma NodesBack(n0: Nodes, n: Nodes, n': Nodes, list: seq<nat>)
    requires Linked(n, list) && OthersKept(n0, n, list) && |Unused(n)| + |list| == |Unused(n0)|
    requires forall i: nat | i < MAX_NODE_CNT :: n'[i].used == (n[i].used && i !in list)
    ensures Unused(n') == Unused(n0)
  {
    var mine := Elements(list);
    ElementsSize(list);
    assert mine !! Unused(n) && Unused(n') == Unused(n) + mine;
    assert Unused(n') <= Unused(n0);
    SameSize(Unused(n'), Unused(n0));
  }

  /** Reading back any stretch of what was written gives exactly those bytes. */
  lemma ReadsBack(bytes: seq<Byte>, content: seq<Byte>, offset: nat, size: nat)
    requires content <= bytes && 0 < size && offset + size <= |content|
    ensures ReadResult(bytes, offset, size) == (size, content[offset..offset + size])
  {
    assert content == bytes[..|content|];
    assert bytes[..|content|][offset..offset + size] == bytes[offset..offset + size];
  }

  /** write_file, active_file_close, then sys_read_file. */
  method WriteCloseRead(v: Volume, p: Pool, a: ActiveFile, s: seq<Byte>, offset: nat, size: nat, ghost w0: World)
    returns (ok: bool, r: int, dst: seq<Byte>, ghost w: World)
    requires |v.img| == 20 * 512 && w0 == World(v.sectors, w0.files, p.nodes) && Sound(v.sectors, w0.files)
    requires a.writable
    requires RoomFor(w0, a.first, BlockCount(|s|)) && Unused(p.nodes) != {}
    requires 0 < size && offset + size <= |s|
    modifies v, p, a
    ensures ok <==> BlockCount(|s|) <= |Unused(w0.nodes)|
    ensures ok ==> r == size && dst == s[offset..offset + size] && a.fileSize == |s|
    ensures ok ==> w == World(v.sectors, w.files, p.nodes) && SavedAs(w0, w, a.first, Blocks(s, BlockCount(|s|)))
  {
    hide Sound, Linked, Unused, Stored, Bufs, SavedAs, Written, Blocks, Content, RoomFor, ReadResult;
    ghost var list;
    r, dst := -1, [];
    var past;
    ok, past, w, list := WriteFile(v, p, a, s, w0);
    if ok {
      WrittenGives(w0, w, a.first, list, Blocks(s, BlockCount(|s|)));
      CloseFile(v, p, a, w.files, list);
      Saved(w0, w, a.first, list, Blocks(s, BlockCount(|s|)), p.nodes);
      w := World(v.sectors, w.files, p.nodes);
      SavedGives(w0, w, a.first, Blocks(s, BlockCount(|s|)));
      FlatBlocks(s);
      r, dst := ReadFile(v, a.first, offset, size, w.files[a.first]);
      PrefixOfPrefix(Flat(Blocks(s, BlockCount(|s|))), Content(v.sectors, w.files[a.first]), |s|);
      ReadsBack(Content(v.sectors, w.files[a.first]), s, offset, size);
    }
  }

  /** write_file_from_sda, active_file_close, then sys_read_file. */
  method SdaCloseRead(v: Volume, p: Pool, a: ActiveFile, filesize: nat, sda: seq<Sector>, offset: nat, size: nat,
                      ghost w0: World)
    returns (ok: bool, r: int, dst: seq<Byte>, ghost w: World)
    requires |v.img| == 20 * 512 && w0 == World(v.sectors, w0.files, p.nodes) && Sound(v.sectors, w0.files)
    requires a.writable
    requires RoomFor(w0, a.first, BlockCount(filesize)) && Unused(p.nodes) != {} && 300 + BlockCount(filesize) <= |sda|
    requires 0 < size && offset + size <= filesize
    modifies v, p, a
    ensures ok <==> BlockCount(filesize) <= |Unused(w0.nodes)|
    ensures ok ==> r == size && dst == Flat(sda[300..300 + BlockCount(filesize)])[offset..offset + size]
    ensures ok ==> a.fileSize == filesize
    ensures ok ==> w == World(v.sectors, w.files, p.nodes)
    ensures ok ==> SavedAs(w0, w, a.first, sda[300..300 + BlockCount(filesize)])
  {
    hide Sound, Linked, Unused, Stored, Bufs, SavedAs, Written, Content, RoomFor, ReadResult;
    ghost var list;
    ghost var blocks := sda[300..300 + BlockCount(filesize)];
    r, dst := -1, [];
    ok, w, list := WriteFromSda(v, p, a, filesize, sda, w0);
    if ok {
      WrittenGives(w0, w, a.first, list, blocks);
      CloseFile(v, p, a, w.files, list);
      Saved(w0, w, a.first, list, blocks, p.nodes);
      w := World(v.sectors, w.files, p.nodes);
      SavedGives(w0, w, a.first, blocks);
      r, dst := ReadFile(v, a.first, offset, size, w.files[a.first]);
      ReadsBack(Content(v.sectors, w.files[a.first]), Flat(blocks), offset, size);
    }
  }

  lemma WrittenGives(w0: World, w: World, h: nat, list: seq<nat>, blocks: seq<Sector>)
    requires Written(w0, w, h, list, blocks)
    ensures h in w.files && Sound(w.disk, w.files) && Linked(w.nodes, list) && list != [] && |list| <= |w.files[h]|
  {
  }

  lemma SavedGives(w0: World, w: World, h: nat, blocks: seq<Sector>)
    requires SavedAs(w0, w, h, blocks)
    ensures h in w.files && IsChain(w.disk, w.files[h]) && w.files[h][0] == h
    ensures Flat(blocks) <= Content(w.disk, w.files[h])
  {
  }

  lemma PrefixOfPrefix(a: seq<Byte>, b: seq<Byte>, n: nat)
    requires a <= b && n <= |a|
    ensures a[..n] <= b
  {
  }

  /** A file opened and closed without a write: its size becomes 0, its clusters keep their bytes. */
  method OpenThenClose(v: Volume, p: Pool, a: ActiveFile, ghost files: Files)
    requires |v.img| == 20 * 512 && Sound(v.sectors, files) && a.first in files && a.head == None && a.buffsize == 0
    modifies v, p, a
    ensures v.sectors == old(v.sectors) && a.fileSize == 0
    ensures forall i: nat | i < MAX_NODE_CNT :: p.nodes[i].used == old(p.nodes)[i].used
  {
    SoundChain(v.sectors, files, a.first);
    NothingStored(v.sectors, files[a.first], p.nodes, []);
    hide Sound;
    CloseFile(v, p, a, files, []);
  }
}
