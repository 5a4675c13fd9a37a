/**
 * lib/kernel/list.c: an intrusive doubly linked list between two sentinels.
 */
module Lists {
  import opened Sequences

  class Node {
    var prev: Node?
    var next: Node?

    constructor () {
      prev, next := null, null;
    }
  }

  /** `s` is linked in order, both ways. */
  ghost predicate Linked(s: seq<Node>)
    reads s
  {
    forall i: nat | i + 1 < |s| :: s[i].next == s[i + 1] && s[i + 1].prev == s[i]
  }

  /** The four assignments of list_insert_before; every other link of the list stays. */
  method LinkBetween(before: Node, node: Node, src: Node, ghost all: seq<Node>, ghost i: nat)
    requires NoDuplicates(all) && Linked(all) && i + 1 < |all| && all[i] == before && all[i + 1] == src && node !in all
    modifies before`next, node`prev, node`next, src`prev
    ensures before.next == node && node.prev == before && node.next == src && src.prev == node
    ensures LinkedBut(all, i, i + 1)
  {
    hide NoDuplicates;
    Differ(all, i, i + 1);
    before.next := node;
    node.prev := before;
    node.next := src;
    src.prev := node;
    forall k: nat | k + 1 < |all| && !(i <= k < i + 1)
      ensures all[k].next == all[k + 1] && all[k + 1].prev == all[k]
    {
      assert old(all[k].next == all[k + 1] && all[k + 1].prev == all[k]);
      Differ(all, k, i);
      Differ(all, k + 1, i + 1);
    }
  }

  /** The two assignments of list_remove. */
  method LinkAcross(before: Node, src: Node, ghost all: seq<Node>, ghost i: nat)
    requires NoDuplicates(all) && Linked(all) && i + 2 < |all| && all[i] == before && all[i + 2] == src
    modifies before`next, src`prev
    ensures before.next == src && src.prev == before && LinkedBut(all, i, i + 2)
  {
    hide NoDuplicates;
    before.next := src;
    src.prev := before;
    forall k: nat | k + 1 < |all| && !(i <= k < i + 2)
      ensures all[k].next == all[k + 1] && all[k + 1].prev == all[k]
    {
      assert old(all[k].next == all[k + 1] && all[k + 1].prev == all[k]);
      Differ(all, k, i);
      Differ(all, k + 1, i + 2);
    }
  }

  ghost function Reversed(s: seq<Node>): seq<Node> { if s == [] then [] else Reversed(s[1..]) + [s[0]] }

  /** Inserting between the sentinels is inserting in the whole. */
  lemma AllInserted(head: Node, nodes: seq<Node>, tail: Node, i: nat, node: Node)
    requires i <= |nodes|
    ensures var all := [head] + nodes + [tail];
            [head] + (nodes[..i] + [node] + nodes[i..]) + [tail] == all[..i + 1] + [node] + all[i + 1..]
  {
    var all := [head] + nodes + [tail];
    assert all[..i + 1] == [head] + nodes[..i];
    assert all[i + 1..] == nodes[i..] + [tail];
  }

  /** And so is removing. */
  lemma AllDeleted(head: Node, nodes: seq<Node>, tail: Node, i: nat)
    requires i < |nodes|
    ensures var all := [head] + nodes + [tail];
            [head] + (nodes[..i] + nodes[i + 1..]) + [tail] == all[..i + 1] + all[i + 2..]
  {
    var all := [head] + nodes + [tail];
    assert all[..i + 1] == [head] + nodes[..i];
    assert all[i + 2..] == nodes[i + 1..] + [tail];
  }

  class List {
    const head: Node
    const tail: Node
    /** The nodes between the sentinels, first to last. */
    ghost var nodes: seq<Node>

    ghost function All(): (r: seq<Node>)
      reads this
      ensures |r| == |nodes| + 2 && r[0] == head && r[|r| - 1] == tail
      ensures forall i: nat | i < |nodes| :: r[i + 1] == nodes[i]
    {
      [head] + nodes + [tail]
    }

    ghost predicate Valid()
      reads this, All()
    {
      NoDuplicates(All()) && Linked(All())
    }

    /** list_init */
    constructor ()
      ensures Valid() && nodes == [] && fresh(head) && fresh(tail)
    {
      var h := new Node();
      var t := new Node();
      h.next := t;
      t.prev := h;
      head, tail, nodes := h, t, [];
    }

    /** list_insert_before, `src` being the node at place `i` or the tail. */
    method InsertBefore(src: Node, node: Node, ghost i: nat)
      requires Valid() && i <= |nodes| && src == All()[i + 1] && node !in All()
      modifies this`nodes, All()[i], src, node
      ensures Valid() && nodes == old(nodes)[..i] + [node] + old(nodes)[i..]
    {
      hide NoDuplicates, Linked, LinkedBut;
      ghost var all := All();
      LinkAt(all, i);
      LinkBetween(src.prev, node, src, all, i);
      nodes := nodes[..i] + [node] + nodes[i..];
      AllInserted(head, old(nodes), tail, i, node);
      Inserted(all, i + 1, node);
      InsertedLinks(all, i, node);
    }

    /** list_push */
    method Push(node: Node)
      requires Valid() && node !in All()
      modifies this`nodes, head, All()[1], node
      ensures Valid() && nodes == [node] + old(nodes)
    {
      assert All()[0].next == All()[1];
      InsertBefore(head.next, node, 0);
    }

    /** list_append */
    method Append(node: Node)
      requires Valid() && node !in All()
      modifies this`nodes, tail, All()[|nodes|], node
      ensures Valid() && nodes == old(nodes) + [node]
    {
      InsertBefore(tail, node, |nodes|);
    }

    /** list_remove of the node at place `i`. */
    method Remove(node: Node, ghost i: nat)
      requires Valid() && i < |nodes| && nodes[i] == node
      modifies this`nodes, All()[i], All()[i + 2]
      ensures Valid() && nodes == old(nodes)[..i] + old(nodes)[i + 1..] && node !in All()
    {
      hide NoDuplicates, Linked, LinkedBut;
      ghost var all := All();
      LinkAt(all, i);
      LinkAt(all, i + 1);
      LinkAcross(node.prev, node.next, all, i);
      nodes := nodes[..i] + nodes[i + 1..];
      AllDeleted(head, old(nodes), tail, i);
      Deleted(all, i + 1);
      DeletedLinks(all, i);
    }

    /** list_pop */
    method Pop() returns (node: Node)
      requires Valid() && nodes != []
      modifies this`nodes, head, All()[2]
      ensures Valid() && node == old(nodes)[0] && nodes == old(nodes)[1..] && node !in All()
    {
      assert All()[0].next == All()[1];
      node := head.next;
      Remove(node, 0);
    }

    /** list_empty */
    method Empty() returns (empty: bool)
      requires Valid()
      ensures empty <==> nodes == []
    {
      assert All()[0].next == All()[1];
      empty := head.next == tail;
    }

    /** node_find */
    method Find(node: Node) returns (found: bool)
      requires Valid()
      ensures found <==> node in nodes
    {
      hide NoDuplicates, Linked;
      FirstLink(this);
      ghost var i := 0;
      var cur := head.next;
      while cur != tail
        invariant 0 <= i <= |nodes| && cur == All()[i + 1] && node !in nodes[..i]
        decreases |nodes| - i
      {
        InMiddle(this, i);
        if cur == node {
          return true;
        }
        cur := cur.next;
        i := i + 1;
      }
      AtEnd(this, i);
      assert nodes[..i] == nodes;
      found := false;
    }

    /** list_traversal: the first node the test accepts. */
    method Traverse(test: Node -> bool) returns (node: Node?)
      requires Valid()
      ensures node == null <==> forall n | n in nodes :: !test(n)
      ensures node != null ==> exists i: nat ::
                i < |nodes| && nodes[i] == node && test(node) && forall j: nat | j < i :: !test(nodes[j])
    {
      hide NoDuplicates, Linked;
      FirstLink(this);
      ghost var all := All();
      ghost var i := 0;
      var cur := head.next;
      while cur != tail
        invariant 0 <= i <= |nodes| && cur == all[i + 1] && forall j: nat | j < i :: !test(nodes[j])
        decreases |nodes| - i
      {
        InMiddle(this, i);
        if test(cur) {
          return cur;
        }
        cur := cur.next;
        i := i + 1;
      }
      AtEnd(this, i);
      node := null;
    }

    /** list_len */
    method Len() returns (len: nat)
      requires Valid()
      ensures len == |nodes|
    {
      hide NoDuplicates, Linked;
      FirstLink(this);
      ghost var all := All();
      var cur := head.next;
      len := 0;
      while cur != tail
        invariant 0 <= len <= |nodes| && cur == all[len + 1]
        decreases |nodes| - len
      {
        InMiddle(this, len);
        cur := cur.next;
        len := len + 1;
      }
      AtEnd(this, len);
    }
  }

  lemma FirstLink(l: List)
    requires l.Valid()
    ensures l.head.next == l.All()[1]
  {
    assert l.All()[0].next == l.All()[1];
  }

  lemma LastLink(l: List)
    requires l.Valid()
    ensures l.tail.prev == l.All()[|l.nodes|]
  {
    var n := |l.nodes|;
    assert l.All()[n].next == l.All()[n + 1] && l.All()[n + 1].prev == l.All()[n];
  }

  lemma LinkAt(s: seq<Node>, i: nat)
    requires Linked(s) && i + 1 < |s|
    ensures s[i].next == s[i + 1] && s[i + 1].prev == s[i]
  {
  }

  /** A node that is not the tail is at a place with a successor. */
  lemma InMiddle(l: List, i: nat)
    requires l.Valid() && i <= |l.nodes| && l.All()[i + 1] != l.tail
    ensures i < |l.nodes| && l.nodes[i] == l.All()[i + 1] && l.nodes[i].next == l.All()[i + 2]
  {
    var j := i + 1;
    assert l.All()[j].next == l.All()[j + 1];
  }

  /** The tail is at the last place only. */
  lemma AtEnd(l: List, i: nat)
    requires l.Valid() && i <= |l.nodes| && l.All()[i + 1] == l.tail
    ensures i == |l.nodes|
  {
    var j := |l.nodes| + 1;
    assert l.All()[j] == l.tail;
  }

  lemma Inserted(s: seq<Node>, i: nat, x: Node)
    requires i <= |s| && NoDuplicates(s) && x !in s
    ensures NoDuplicates(s[..i] + [x] + s[i..])
  {
  }

  lemma Deleted(s: seq<Node>, i: nat)
    requires i < |s| && NoDuplicates(s)
    ensures NoDuplicates(s[..i] + s[i + 1..]) && s[i] !in s[..i] + s[i + 1..]
  {
  }

  lemma Differ(s: seq<Node>, i: nat, j: nat)
    requires NoDuplicates(s) && i < |s| && j < |s| && i != j
    ensures s[i] != s[j]
  {
  }

  // ---- the two directions ----

  /** Following next from the head gives the nodes. */
  method Forwards(l: List) returns (s: seq<Node>)
    requires l.Valid()
    ensures s == l.nodes
  {
    hide NoDuplicates, Linked;
    FirstLink(l);
    var cur := l.head.next;
    s := [];
    while cur != l.tail
      invariant |s| <= |l.nodes| && s == l.nodes[..|s|] && cur == l.All()[|s| + 1]
      decreases |l.nodes| - |s|
    {
      InMiddle(l, |s|);
      s := s + [cur];
      cur := cur.next;
    }
    AtEnd(l, |s|);
  }

  /** Following prev from the tail gives them in reverse. */
  method Backwards(l: List) returns (s: seq<Node>)
    requires l.Valid()
    ensures s == Reversed(l.nodes)
  {
    hide NoDuplicates, Linked;
    LastLink(l);
    ghost var n := |l.nodes|;
    var cur := l.tail.prev;
    s := [];
    ghost var i: nat := n;
    while cur != l.head
      invariant i <= n && cur == l.All()[i] && s == Reversed(l.nodes[i..])
      decreases i
    {
      AfterHead(l, i);
      assert l.nodes[i - 1..] == [cur] + l.nodes[i..];
      s := s + [cur];
      cur := cur.prev;
      i := i - 1;
    }
    AtHead(l, i);
    assert l.nodes[0..] == l.nodes;
  }

  lemma AfterHead(l: List, i: nat)
    requires l.Valid() && i <= |l.nodes| && l.All()[i] != l.head
    ensures i > 0 && l.nodes[i - 1] == l.All()[i] && l.All()[i].prev == l.All()[i - 1]
  {
    if i > 0 {
      var j: nat := i - 1;
      assert l.All()[j].next == l.All()[j + 1];
    }
  }

  lemma AtHead(l: List, i: nat)
    requires l.Valid() && i <= |l.nodes| && l.All()[i] == l.head
    ensures i == 0
  {
  }

  /** The sentinels and what is between them. */
  lemma Ends(l: List)
    ensures forall n :: n in l.All() <==> n == l.head || n == l.tail || n in l.nodes
    ensures l.All()[1] in l.All() && (l.nodes != [] ==> l.nodes[0] == l.All()[1] && l.All()[2] in l.All())
  {
    assert l.All()[0] == l.head && l.All()[|l.nodes| + 1] == l.tail;
    forall n | n in l.nodes
      ensures n in l.All()
    {
      var i: nat :| i < |l.nodes| && l.nodes[i] == n;
      assert l.All()[i + 1] == n;
    }
  }

  ghost predicate Apart(l: List, m: List)
    reads l, m
  {
    l != m && forall n | n in l.All() :: n !in m.All()
  }

  /** A pop leaves a list apart from it as it was. */
  method PopBeside(l: List, other: List) returns (node: Node)
    requires l.Valid() && other.Valid() && Apart(l, other) && l.nodes != []
    modifies l`nodes, l.All()
    ensures l.Valid() && other.Valid() && Apart(l, other) && other.nodes == old(other.nodes)
    ensures node == old(l.nodes)[0] && l.nodes == old(l.nodes)[1..] && node !in l.All() && node !in other.All()
    ensures forall n | n in l.All() :: n in old(l.All())
  {
    hide NoDuplicates, Linked;
    Ends(l);
    ghost var rest := other.All();
    assert l.head !in rest && l.All()[2] !in rest;
    node := l.Pop();
    assert other.All() == rest && forall n | n in rest :: unchanged(n);
    Ends(l);
  }

  /** So does a push. */
  method PushBeside(l: List, other: List, node: Node)
    requires l.Valid() && other.Valid() && Apart(other, l) && node !in l.All() && node !in other.All()
    modifies l`nodes, l.All(), node
    ensures l.Valid() && other.Valid() && l.nodes == [node] + old(l.nodes) && other.nodes == old(other.nodes)
  {
    hide NoDuplicates, Linked;
    Ends(l);
    ghost var rest := other.All();
    assert l.head !in rest && l.All()[1] !in rest;
    l.Push(node);
    assert other.All() == rest && forall n | n in rest :: unchanged(n);
  }

  /**
   * As semaphore_up does: the first waiter leaves one list and goes to the front of another; neither disturbs the
   * other.
   */
  method MoveFirst(from: List, to: List)
    requires from.Valid() && to.Valid() && Apart(from, to) && from.nodes != []
    modifies from`nodes, from.All(), to`nodes, to.All()
    ensures from.Valid() && to.Valid()
    ensures from.nodes == old(from.nodes)[1..] && to.nodes == [old(from.nodes)[0]] + old(to.nodes)
  {
    hide NoDuplicates, Linked;
    var node := PopBeside(from, to);
    PushBeside(to, from, node);
  }

  /** The links of `s` hold but for those from place `i` to place `j`. */
  ghost predicate LinkedBut(s: seq<Node>, i: nat, j: nat)
    reads s
  {
    forall k: nat | k + 1 < |s| && !(i <= k < j) :: s[k].next == s[k + 1] && s[k + 1].prev == s[k]
  }

  lemma InsertedLinks(all: seq<Node>, i: nat, node: Node)
    requires i + 1 < |all| && LinkedBut(all, i, i + 1)
    requires all[i].next == node && node.prev == all[i] && node.next == all[i + 1] && all[i + 1].prev == node
    ensures Linked(all[..i + 1] + [node] + all[i + 1..])
  {
    var s := all[..i + 1] + [node] + all[i + 1..];
    forall k: nat | k + 1 < |s|
      ensures s[k].next == s[k + 1] && s[k + 1].prev == s[k]
    {
      if k < i {
        assert all[k].next == all[k + 1];
      } else if k > i + 1 {
        var j: nat := k - 1;
        assert all[j].next == all[j + 1];
      }
    }
  }

  lemma DeletedLinks(all: seq<Node>, i: nat)
    requires i + 2 < |all| && LinkedBut(all, i, i + 2) && all[i].next == all[i + 2] && all[i + 2].prev == all[i]
    ensures Linked(all[..i + 1] + all[i + 2..])
  {
    var s := all[..i + 1] + all[i + 2..];
    forall k: nat | k + 1 < |s|
      ensures s[k].next == s[k + 1] && s[k + 1].prev == s[k]
    {
      if k < i {
        assert all[k].next == all[k + 1];
      } else if k > i {
        var m: nat := k + 1;
        assert all[m].next == all[m + 1];
      }
    }
  }
}
