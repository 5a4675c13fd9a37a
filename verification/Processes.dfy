/**
 * fork, exit and wait: userprog/exit.c, userprog/wait.c, sys_fork and the pid pool of thread/thread.c.
 * A system call is atomic but for the block inside a wait loop.
 */
module Processes {
  import opened Bitmaps
  import opened Sequences

  datatype Wait = NoWait | AnyChild | ForPid(pid: nat)
  datatype Status = Active | Waiting | Hanging

  /** `uid` tells apart the processes that had the same pid; a woken waiter is Active with `wait` still set. */
  datatype Proc = Proc(uid: nat, parent: int, status: Status, wait: Wait, code: int)

  /** Processes by pid and the pid bitmap; `exits` and `log` record every exit call and every reaped child. */
  datatype State = State(procs: map<nat, Proc>, bits: seq<bool>, next: nat, exits: map<nat, int>, log: seq<(nat, int)>)

  const INIT: nat := 1

  /** The exit status stored in an int8_t. */
  function Int8(n: int): (r: int)
    ensures -128 <= r < 128 && (r - n) % 256 == 0
  {
    (n + 128) % 256 - 128
  }

  predicate Acts(s: State, p: nat) { p in s.procs && s.procs[p].status.Active? && s.procs[p].wait.NoWait? }

  // ---- the calls ----

  /** sys_fork, with a pid to be had. */
  ghost predicate Fork(s: State, s': State, p: nat, c: nat) {
    && Acts(s, p) && |s.bits| == 8 * 128
    && var r := FirstFit(s.bits, 128, 1);
       r >= 0 && c == r + 1
       && s' == s.(procs := s.procs[c := Proc(s.next, p, Active, NoWait, 0)], bits := s.bits[r := true],
            next := s.next + 1)
  }

  /** change_parent_to_init over every thread. */
  function Reparented(procs: map<nat, Proc>, p: nat): map<nat, Proc> {
    map q | q in procs :: if procs[q].parent == p then procs[q].(parent := INIT) else procs[q]
  }

  function Woken(procs: map<nat, Proc>, parent: int): map<nat, Proc> {
    if parent >= 0 && parent in procs && procs[parent].status.Waiting?
      then procs[parent := procs[parent].(status := Active)] else procs
  }

  /** sys_exit; a process without a parent panics instead. */
  ghost predicate Exit(s: State, s': State, p: nat, status: int) {
    && Acts(s, p) && s.procs[p].parent != -1
    && var procs := Woken(Reparented(s.procs, p), s.procs[p].parent);
       p in procs
       && s' == s.(procs := procs[p := procs[p].(status := Hanging, code := Int8(status))],
            exits := s.exits[s.procs[p].uid := status])
  }

  /** The threads a wait is about. */
  predicate Awaited(procs: map<nat, Proc>, p: nat, w: Wait, c: nat)
    requires c in procs
  {
    match w
    case NoWait => false
    case AnyChild => procs[c].parent == p
    case ForPid(q) => c == q
  }

  /** thread_exit on a hanging child, its pid released. */
  function Reaped(s: State, p: nat, c: nat): State
    requires p in s.procs && c in s.procs
  {
    s.(procs := (s.procs - {c})[p := s.procs[p].(wait := NoWait)],
       bits := if 1 <= c <= |s.bits| then s.bits[c - 1 := false] else s.bits,
       log := s.log + [(s.procs[c].uid, s.procs[c].code)])
  }

  /** One pass of a wait loop, entered or resumed: reap a hanging child, return -1, or block. */
  ghost predicate WaitPass(s: State, s': State, p: nat, w: Wait) {
    && p in s.procs && s.procs[p].status.Active? && (s.procs[p].wait.NoWait? || s.procs[p].wait == w) && !w.NoWait?
    && if exists c :: c in s.procs && Awaited(s.procs, p, w, c) && s.procs[c].status.Hanging? then
         exists c :: c in s.procs && Awaited(s.procs, p, w, c) && s.procs[c].status.Hanging? && s' == Reaped(s, p, c)
       else if exists c :: c in s.procs && Awaited(s.procs, p, w, c) then
         s' == s.(procs := s.procs[p := s.procs[p].(status := Waiting, wait := w)])
       else s' == s.(procs := s.procs[p := s.procs[p].(wait := NoWait)])
  }

  /** A process asleep in a wait by pid waits for its own child. */
  predicate OwnChild(s: State, p: nat, w: Wait) { w.ForPid? ==> w.pid in s.procs && s.procs[w.pid].parent == p }

  /** A wait by pid, if the pid is taken at all, is for a child of the caller. */
  predicate Proper(s: State, p: nat, w: Wait) { w.ForPid? && w.pid in s.procs ==> s.procs[w.pid].parent == p }

  datatype Call = ForkCall(child: nat) | ExitCall(status: int) | WaitCall(w: Wait)

  ghost predicate Step(s: State, s': State, p: nat, call: Call) {
    match call
    case ForkCall(c) => Fork(s, s', p, c)
    case ExitCall(status) => Exit(s, s', p, status)
    case WaitCall(w) => WaitPass(s, s', p, w) && Proper(s, p, w)
  }

  // ---- the invariant ----

  ghost predicate Pids(s: State) {
    && |s.bits| == 8 * 128
    && (forall p | p in s.procs :: 1 <= p <= 127)
    && (forall p: nat | 1 <= p <= |s.bits| :: s.bits[p - 1] <==> p in s.procs)
    && INIT in s.procs && s.procs[INIT].parent == -1
  }

  /** Every parent is alive, and only a process with a parent hangs. */
  ghost predicate Family(s: State) {
    && (forall q | q in s.procs && s.procs[q].parent != -1 :: HasParent(s, s.procs[q].parent))
    && (forall q | q in s.procs && s.procs[q].status.Hanging? :: s.procs[q].parent != -1 && s.procs[q].wait.NoWait?)
    && (forall q | q in s.procs && s.procs[q].parent != -1 :: s.procs[q].parent != q)
  }

  predicate HasParent(s: State, parent: int) { parent >= 0 && parent in s.procs && !s.procs[parent].status.Hanging? }

  /** A waiter's child is its own; and but for init, no waiter sleeps on a child that hangs. */
  ghost predicate Waits(s: State) {
    && (forall p | p in s.procs && s.procs[p].wait.ForPid? :: OwnChild(s, p, s.procs[p].wait))
    && (forall p | p in s.procs && s.procs[p].status.Waiting? :: !s.procs[p].wait.NoWait?)
    && (forall p, c | p in s.procs && c in s.procs && p != INIT && s.procs[p].status.Waiting? &&
         Awaited(s.procs, p, s.procs[p].wait, c) ::
          !s.procs[c].status.Hanging?)
  }

  /** The record: who has exited and who has been reaped. */
  ghost predicate Records(s: State) {
    && (forall p | p in s.procs :: s.procs[p].uid < s.next)
    && (forall p, q | p in s.procs && q in s.procs && p != q :: s.procs[p].uid != s.procs[q].uid)
    && (forall p | p in s.procs :: s.procs[p].status.Hanging? <==> s.procs[p].uid in s.exits)
    && (forall p | p in s.procs && s.procs[p].status.Hanging? :: s.procs[p].code == Int8(s.exits[s.procs[p].uid]))
  }

  ghost predicate Log(s: State) {
    && (forall i, j | 0 <= i < j < |s.log| :: s.log[i].0 != s.log[j].0)
    && (forall i | 0 <= i < |s.log| :: s.log[i].0 in s.exits && s.log[i].1 == Int8(s.exits[s.log[i].0]))
    && (forall i, p | 0 <= i < |s.log| && p in s.procs :: s.log[i].0 != s.procs[p].uid)
    && (forall u | u in s.exits :: u < s.next)
  }

  ghost predicate Inv(s: State) { Pids(s) && Family(s) && Waits(s) && Records(s) && Log(s) }

  // ---- every call keeps it ----

  lemma FreshPid(s: State, s': State, p: nat, c: nat)
    requires Pids(s) && Fork(s, s', p, c)
    ensures 1 <= c <= 127 && c !in s.procs && c != p && Pids(s')
  {
  }

  lemma ForkFamily(s: State, s': State, p: nat, c: nat)
    requires Family(s) && Fork(s, s', p, c) && c !in s.procs && c != p
    ensures Family(s')
  {
    hide FirstFit;
  }

  lemma ForkWaits(s: State, s': State, p: nat, c: nat)
    requires Waits(s) && Fork(s, s', p, c) && c !in s.procs && c != p
    ensures Waits(s')
  {
    hide FirstFit;
    forall x, y | x in s'.procs && y in s'.procs && x != INIT && s'.procs[x].status.Waiting? &&
      Awaited(s'.procs, x, s'.procs[x].wait, y)
      ensures !s'.procs[y].status.Hanging?
    {
      if y != c {
        assert Awaited(s.procs, x, s.procs[x].wait, y);
      }
    }
  }

  lemma ForkRecords(s: State, s': State, p: nat, c: nat)
    requires Records(s) && Log(s) && Fork(s, s', p, c) && c !in s.procs
    ensures Records(s') && Log(s')
  {
    hide FirstFit;
  }

  lemma ForkKeeps(s: State, s': State, p: nat, c: nat)
    requires Inv(s) && Fork(s, s', p, c)
    ensures Inv(s')
  {
    hide Pids, Family, Waits, Records, Log, Fork;
    FreshPid(s, s', p, c);
    ForkFamily(s, s', p, c);
    ForkWaits(s, s', p, c);
    ForkRecords(s, s', p, c);
  }

  // ---- exit ----

  /** What an exit changes, process by process. */
  lemma ExitEffect(s: State, s': State, p: nat, status: int)
    requires Inv(s) && Exit(s, s', p, status)
    ensures p in s.procs && s.procs[p].parent >= 0 && s.procs[p].parent in s.procs && s.procs[p].parent != p
    ensures p != INIT
    ensures s'.procs.Keys == s.procs.Keys && s'.bits == s.bits && s'.next == s.next && s'.log == s.log
    ensures s'.exits == s.exits[s.procs[p].uid := status]
    ensures forall q | q in s.procs :: Changed(s.procs[q], s'.procs[q], q, p, s.procs[p].parent, status)
  {
    hide Waits, Records, Log;
  }

  /** What the exit of `p`, child of `parent`, does to process `q`. */
  predicate Changed(a: Proc, b: Proc, q: nat, p: nat, parent: int, status: int) {
    && b.uid == a.uid && b.wait == a.wait && b.parent == (if a.parent == p then INIT else a.parent)
    && (q == p ==> b.status.Hanging? && b.code == Int8(status))
    && (q != p ==> b.code == a.code && (b.status.Hanging? <==> a.status.Hanging?))
    && (q != p && b.status.Waiting? ==> a.status.Waiting? && q != parent)
  }

  lemma FamilyAfter(s: State, s': State, p: nat, status: int)
    requires Pids(s) && Family(s) && Acts(s, p) && s.procs[p].parent != -1 && s'.procs.Keys == s.procs.Keys && p != INIT
    requires forall q | q in s.procs :: Changed(s.procs[q], s'.procs[q], q, p, s.procs[p].parent, status)
    ensures Family(s') && s'.procs[INIT].parent == -1
  {
    hide Int8;
    assert Changed(s.procs[INIT], s'.procs[INIT], INIT, p, s.procs[p].parent, status);
    forall q | q in s'.procs
      ensures s'.procs[q].parent != -1 ==> HasParent(s', s'.procs[q].parent) && s'.procs[q].parent != q
      ensures s'.procs[q].status.Hanging? ==> s'.procs[q].parent != -1 && s'.procs[q].wait.NoWait?
    {
      var a, b := s.procs[q], s'.procs[q];
      assert Changed(a, b, q, p, s.procs[p].parent, status);
      if a.parent != p && a.parent != -1 {
        assert HasParent(s, a.parent);
        assert Changed(s.procs[a.parent], s'.procs[a.parent], a.parent, p, s.procs[p].parent, status);
      }
    }
  }

  lemma ExitFamily(s: State, s': State, p: nat, status: int)
    requires Inv(s) && Exit(s, s', p, status)
    ensures Pids(s') && Family(s')
  {
    hide Exit, Inv, Waits, Records, Log, Int8, Changed, Family, HasParent;
    ActorFree(s, s', p, status);
    ExitEffect(s, s', p, status);
    FamilyAfter(s, s', p, status);
  }

  lemma WaitsAfter(s: State, s': State, p: nat, status: int)
    requires Waits(s) && Acts(s, p) && s'.procs.Keys == s.procs.Keys
    requires forall q | q in s.procs :: Changed(s.procs[q], s'.procs[q], q, p, s.procs[p].parent, status)
    ensures Waits(s')
  {
    hide Int8;
    forall x | x in s'.procs
      ensures s'.procs[x].wait.ForPid? ==> OwnChild(s', x, s'.procs[x].wait)
      ensures s'.procs[x].status.Waiting? ==> !s'.procs[x].wait.NoWait?
    {
      assert Changed(s.procs[x], s'.procs[x], x, p, s.procs[p].parent, status);
      if s.procs[x].wait.ForPid? {
        var q := s.procs[x].wait.pid;
        assert OwnChild(s, x, s.procs[x].wait);
        assert Changed(s.procs[q], s'.procs[q], q, p, s.procs[p].parent, status);
      }
    }
    forall x, y | x in s'.procs && y in s'.procs && x != INIT && s'.procs[x].status.Waiting? &&
      Awaited(s'.procs, x, s'.procs[x].wait, y)
      ensures !s'.procs[y].status.Hanging?
    {
      assert Changed(s.procs[x], s'.procs[x], x, p, s.procs[p].parent, status);
      assert Changed(s.procs[y], s'.procs[y], y, p, s.procs[p].parent, status);
      assert Awaited(s.procs, x, s.procs[x].wait, y);
      assert s.procs[x].wait.ForPid? ==> OwnChild(s, x, s.procs[x].wait);
    }
  }

  lemma ExitWaits(s: State, s': State, p: nat, status: int)
    requires Inv(s) && Exit(s, s', p, status)
    ensures Waits(s')
  {
    hide Exit, Inv, Pids, Family, Records, Log, Int8, Changed, Waits;
    ActorFree(s, s', p, status);
    ExitEffect(s, s', p, status);
    WaitsAfter(s, s', p, status);
  }

  lemma ActorFree(s: State, s': State, p: nat, status: int)
    requires Inv(s) && Exit(s, s', p, status)
    ensures Pids(s) && Family(s) && Waits(s) && Records(s) && Log(s) && Acts(s, p)
  {
  }

  lemma RecordsAfter(s: State, s': State, p: nat, status: int)
    requires Records(s) && Log(s) && Acts(s, p) && s'.procs.Keys == s.procs.Keys && s'.next == s.next && s'.log == s.log
    requires s'.exits == s.exits[s.procs[p].uid := status]
    requires forall q | q in s.procs :: Changed(s.procs[q], s'.procs[q], q, p, s.procs[p].parent, status)
    ensures Records(s') && Log(s')
  {
    hide Int8;
    forall q | q in s.procs
      ensures s'.procs[q].uid == s.procs[q].uid
    {
      assert Changed(s.procs[q], s'.procs[q], q, p, s.procs[p].parent, status);
    }
    forall q | q in s'.procs
      ensures s'.procs[q].status.Hanging? <==> s'.procs[q].uid in s'.exits
      ensures s'.procs[q].status.Hanging? ==> s'.procs[q].code == Int8(s'.exits[s'.procs[q].uid])
    {
      assert Changed(s.procs[q], s'.procs[q], q, p, s.procs[p].parent, status);
      assert q != p ==> s.procs[q].uid != s.procs[p].uid;
    }
    assert Records(s');
    hide Records, Changed;
    assert forall i | 0 <= i < |s.log| :: s.log[i].0 != s.procs[p].uid;
  }

  lemma ExitRecords(s: State, s': State, p: nat, status: int)
    requires Inv(s) && Exit(s, s', p, status)
    ensures Records(s') && Log(s')
  {
    hide Exit, Pids, Family, Waits, Inv, Int8, Changed, Records, Log;
    ActorFree(s, s', p, status);
    ExitEffect(s, s', p, status);
    RecordsAfter(s, s', p, status);
  }

  lemma ExitKeeps(s: State, s': State, p: nat, status: int)
    requires Inv(s) && Exit(s, s', p, status)
    ensures Inv(s')
  {
    hide Pids, Family, Waits, Records, Log, Exit;
    ExitFamily(s, s', p, status);
    ExitWaits(s, s', p, status);
    ExitRecords(s, s', p, status);
  }

  // ---- wait ----

  /** Reaping takes one hanging child of the caller away. */
  lemma ReapedEffect(s: State, p: nat, c: nat, w: Wait)
    requires Inv(s) && p in s.procs && s.procs[p].status.Active? && c in s.procs && s.procs[c].status.Hanging?
    requires Awaited(s.procs, p, w, c) && OwnChild(s, p, w)
    ensures p != c && s.procs[c].parent == p && c != INIT && 1 <= c <= |s.bits|
    ensures Reaped(s, p, c).procs.Keys == s.procs.Keys - {c}
    ensures forall q | q in s.procs && q != c ::
              q in Reaped(s, p, c).procs && Reaped(s, p, c).procs[q] == if q == p
                then s.procs[q].(wait := NoWait) else s.procs[q]
    ensures forall q | q in s.procs :: s.procs[q].parent != c
    ensures var s' := Reaped(s, p, c);
            s'.log == s.log + [(s.procs[c].uid, s.procs[c].code)] && s'.exits == s.exits && s'.next == s.next
  {
    hide Waits, Records, Log;
    assert forall q | q in s.procs && s.procs[q].parent != -1 :: HasParent(s, s.procs[q].parent);
  }

  lemma ReapedFamily(s: State, p: nat, c: nat, w: Wait)
    requires Inv(s) && p in s.procs && s.procs[p].status.Active? && c in s.procs && s.procs[c].status.Hanging?
    requires Awaited(s.procs, p, w, c) && OwnChild(s, p, w)
    ensures Pids(Reaped(s, p, c)) && Family(Reaped(s, p, c))
  {
    hide Inv, Waits, Records, Log;
    InvParts(s);
    ReapedEffect(s, p, c, w);
    var s' := Reaped(s, p, c);
    assert s'.bits == s.bits[c - 1 := false];
    forall q | q in s'.procs && s'.procs[q].parent != -1
      ensures HasParent(s', s'.procs[q].parent)
    {
      assert HasParent(s, s.procs[q].parent);
    }
  }

  lemma ReapedSleepers(s: State, p: nat, c: nat, w: Wait)
    requires Inv(s) && p in s.procs && s.procs[p].status.Active? && c in s.procs && s.procs[c].status.Hanging?
    requires Awaited(s.procs, p, w, c) && OwnChild(s, p, w)
    ensures var s' := Reaped(s, p, c);
            forall x, y | x in s'.procs && y in s'.procs && x != INIT && s'.procs[x].status.Waiting? &&
              Awaited(s'.procs, x, s'.procs[x].wait, y) :: !s'.procs[y].status.Hanging?
  {
    hide Inv, Pids, Family, Records, Log;
    InvParts(s);
    ReapedEffect(s, p, c, w);
    var s' := Reaped(s, p, c);
    forall x, y | x in s'.procs && y in s'.procs && x != INIT && s'.procs[x].status.Waiting? &&
      Awaited(s'.procs, x, s'.procs[x].wait, y)
      ensures !s'.procs[y].status.Hanging?
    {
      assert Awaited(s.procs, x, s.procs[x].wait, y);
    }
  }

  lemma ReapedWaits(s: State, p: nat, c: nat, w: Wait)
    requires Inv(s) && p in s.procs && s.procs[p].status.Active? && c in s.procs && s.procs[c].status.Hanging?
    requires Awaited(s.procs, p, w, c) && OwnChild(s, p, w)
    ensures Waits(Reaped(s, p, c))
  {
    hide Inv, Pids, Family, Records, Log;
    InvParts(s);
    ReapedEffect(s, p, c, w);
    var s' := Reaped(s, p, c);
    forall x | x in s'.procs && s'.procs[x].wait.ForPid?
      ensures OwnChild(s', x, s'.procs[x].wait)
    {
      assert OwnChild(s, x, s.procs[x].wait);
    }
    ReapedSleepers(s, p, c, w);
  }

  lemma ReapedRecords(s: State, p: nat, c: nat, w: Wait)
    requires Inv(s) && p in s.procs && s.procs[p].status.Active? && c in s.procs && s.procs[c].status.Hanging?
    requires Awaited(s.procs, p, w, c) && OwnChild(s, p, w)
    ensures Records(Reaped(s, p, c))
  {
    hide Inv, Pids, Family, Waits, Log, Reaped, Int8;
    InvParts(s);
    ReapedEffect(s, p, c, w);
  }

  lemma ReapedLog(s: State, p: nat, c: nat, w: Wait)
    requires Inv(s) && p in s.procs && s.procs[p].status.Active? && c in s.procs && s.procs[c].status.Hanging?
    requires Awaited(s.procs, p, w, c) && OwnChild(s, p, w)
    ensures Log(Reaped(s, p, c))
  {
    hide Inv, Pids, Family, Waits, Reaped, Int8;
    InvParts(s);
    ReapedEffect(s, p, c, w);
  }

  lemma ReapKeeps(s: State, p: nat, c: nat, w: Wait)
    requires Inv(s) && p in s.procs && s.procs[p].status.Active? && c in s.procs && s.procs[c].status.Hanging?
    requires Awaited(s.procs, p, w, c) && OwnChild(s, p, w)
    ensures Inv(Reaped(s, p, c))
  {
    hide Pids, Family, Waits, Records, Log, Reaped;
    ReapedFamily(s, p, c, w);
    ReapedWaits(s, p, c, w);
    ReapedRecords(s, p, c, w);
    ReapedLog(s, p, c, w);
  }

  /** The caller alone changes, keeping its parent and its identity. */
  lemma SelfKeeps(s: State, p: nat, status: Status, w: Wait)
    requires Inv(s) && p in s.procs && s.procs[p].status.Active? && !status.Hanging? && OwnChild(s, p, w)
    requires status.Waiting? ==> !w.NoWait?
    requires status.Waiting? ==> forall c | c in s.procs && Awaited(s.procs, p, w, c) :: !s.procs[c].status.Hanging?
    ensures Inv(s.(procs := s.procs[p := s.procs[p].(status := status, wait := w)]))
  {
    hide Family, Waits;
    var s' := s.(procs := s.procs[p := s.procs[p].(status := status, wait := w)]);
    assert Pids(s') && Records(s') && Log(s');
    SelfFamily(s, s', p, status, w);
    SelfWaits(s, s', p, status, w);
    hide Pids, Records, Log;
  }

  lemma SelfFamily(s: State, s': State, p: nat, status: Status, w: Wait)
    requires Inv(s) && p in s.procs && s.procs[p].status.Active? && !status.Hanging?
    requires s' == s.(procs := s.procs[p := s.procs[p].(status := status, wait := w)])
    ensures Family(s')
  {
    hide Pids, Waits, Records, Log;
    forall q | q in s'.procs && s'.procs[q].parent != -1
      ensures HasParent(s', s'.procs[q].parent)
    {
      assert HasParent(s, s.procs[q].parent);
    }
  }

  lemma SelfWaits(s: State, s': State, p: nat, status: Status, w: Wait)
    requires Inv(s) && p in s.procs && s.procs[p].status.Active? && !status.Hanging? && OwnChild(s, p, w)
    requires status.Waiting? ==> !w.NoWait?
    requires status.Waiting? ==> forall c | c in s.procs && Awaited(s.procs, p, w, c) :: !s.procs[c].status.Hanging?
    requires s' == s.(procs := s.procs[p := s.procs[p].(status := status, wait := w)])
    ensures Waits(s')
  {
    hide Pids, Family, Records, Log;
    forall x | x in s'.procs && s'.procs[x].wait.ForPid?
      ensures OwnChild(s', x, s'.procs[x].wait)
    {
      assert x != p ==> OwnChild(s, x, s.procs[x].wait);
    }
    forall x, y | x in s'.procs && y in s'.procs && x != INIT && s'.procs[x].status.Waiting? &&
      Awaited(s'.procs, x, s'.procs[x].wait, y)
      ensures !s'.procs[y].status.Hanging?
    {
      assert Awaited(s.procs, x, s'.procs[x].wait, y);
    }
  }

  lemma WaitKeeps(s: State, s': State, p: nat, w: Wait)
    requires Inv(s) && WaitPass(s, s', p, w) && Proper(s, p, w)
    ensures Inv(s')
  {
    hide Inv, Reaped;
    if exists c :: c in s.procs && Awaited(s.procs, p, w, c) && s.procs[c].status.Hanging? {
      var c :| c in s.procs && Awaited(s.procs, p, w, c) && s.procs[c].status.Hanging? && s' == Reaped(s, p, c);
      ReapKeeps(s, p, c, w);
    } else if exists c :: c in s.procs && Awaited(s.procs, p, w, c) {
      SelfKeeps(s, p, Waiting, w);
    } else {
      SelfKeeps(s, p, Active, NoWait);
    }
  }

  lemma StepKeeps(s: State, s': State, p: nat, call: Call)
    requires Inv(s) && Step(s, s', p, call)
    ensures Inv(s')
  {
    hide Inv, Fork, Exit, WaitPass;
    match call
    case ForkCall(c) => ForkKeeps(s, s', p, c);
    case ExitCall(status) => ExitKeeps(s, s', p, status);
    case WaitCall(w) => WaitKeeps(s, s', p, w);
  }

  // ---- what every run shows ----

  /**
   * No parent field names a process that hangs or is gone; no waiter but init sleeps on a hanging child; reaped once,
   * with the status.
   */
  ghost predicate Correct(s: State) {
    && (forall q | q in s.procs && s.procs[q].parent != -1 :: HasParent(s, s.procs[q].parent))
    && (forall p, c | p in s.procs && c in s.procs && p != INIT && s.procs[p].status.Waiting? &&
         Awaited(s.procs, p, s.procs[p].wait, c) ::
          !s.procs[c].status.Hanging?)
    && (forall i, j | 0 <= i < j < |s.log| :: s.log[i].0 != s.log[j].0)
    && (forall i | 0 <= i < |s.log| :: s.log[i].0 in s.exits && s.log[i].1 == Int8(s.exits[s.log[i].0]))
  }

  /** A process that hangs stays so until it is reaped, with the status it exited with. */
  ghost predicate HangsOn(s: State, s': State) {
    forall q | q in s.procs && s.procs[q].status.Hanging? ::
      (q in s'.procs && s'.procs[q].uid == s.procs[q].uid && s'.procs[q].status.Hanging? &&
        s'.procs[q].code == s.procs[q].code)
      || s'.log == s.log + [(s.procs[q].uid, s.procs[q].code)]
  }

  lemma InvParts(s: State)
    requires Inv(s)
    ensures Pids(s) && Family(s) && Waits(s) && Records(s) && Log(s)
  {
  }

  lemma ForkRevivesNone(s: State, s': State, p: nat, c: nat)
    requires Inv(s) && Fork(s, s', p, c)
    ensures HangsOn(s, s')
  {
    hide Inv, FirstFit, Pids;
    InvParts(s);
    FreshPid(s, s', p, c);
  }

  lemma ExitRevivesNone(s: State, s': State, p: nat, status: int)
    requires Inv(s) && Exit(s, s', p, status)
    ensures HangsOn(s, s')
  {
    hide Inv, Exit, Pids, Family, Waits, Records, Log;
    ActorFree(s, s', p, status);
    ExitEffect(s, s', p, status);
  }

  lemma WaitRevivesNone(s: State, s': State, p: nat, w: Wait)
    requires Inv(s) && WaitPass(s, s', p, w) && Proper(s, p, w)
    ensures HangsOn(s, s')
  {
    hide Inv;
    if exists c :: c in s.procs && Awaited(s.procs, p, w, c) && s.procs[c].status.Hanging? {
      var c :| c in s.procs && Awaited(s.procs, p, w, c) && s.procs[c].status.Hanging? && s' == Reaped(s, p, c);
      ReapedEffect(s, p, c, w);
    }
  }

  lemma NeverRevived(s: State, s': State, p: nat, call: Call)
    requires Inv(s) && Step(s, s', p, call)
    ensures HangsOn(s, s')
  {
    hide Inv, Fork, Exit, WaitPass, HangsOn;
    match call
    case ForkCall(c) => ForkRevivesNone(s, s', p, c);
    case ExitCall(status) => ExitRevivesNone(s, s', p, status);
    case WaitCall(w) => WaitRevivesNone(s, s', p, w);
  }

  datatype Event = Event(actor: nat, call: Call)

  ghost predicate Run(trace: seq<State>, events: seq<Event>) {
    && |trace| == |events| + 1 && Inv(trace[0])
    && forall i: nat | i < |events| :: StepAt(trace, events, i)
  }

  ghost predicate StepAt(trace: seq<State>, events: seq<Event>, i: nat)
    requires |trace| == |events| + 1 && i < |events|
  {
    Step(trace[i], trace[i + 1], events[i].actor, events[i].call)
  }

  lemma {:induction false} EveryRunIsCorrect(trace: seq<State>, events: seq<Event>, n: nat)
    requires Run(trace, events) && n < |trace|
    ensures Inv(trace[n]) && Correct(trace[n])
    ensures n > 0 ==> HangsOn(trace[n - 1], trace[n])
  {
    hide Pids, Records, Step, HangsOn;
    if n > 0 {
      var i := n - 1;
      EveryRunIsCorrect(trace, events, i);
      assert StepAt(trace, events, i);
      StepKeeps(trace[i], trace[n], events[i].actor, events[i].call);
      NeverRevived(trace[i], trace[n], events[i].actor, events[i].call);
    }
  }

  lemma FirstPids(all: seq<nat>, procs: map<nat, Proc>, n: nat)
    requires |all| == n && (forall i: nat | i < n :: all[i] == i + 1) && forall p: nat :: p in procs <==> 1 <= p <= n
    ensures NoDuplicates(all) && Listed(procs, all)
  {
    assert forall p | p in procs :: all[p - 1] == p;
  }

  /** The start: init and kernel threads, none of which has a parent. */
  lemma Boot(s: State)
    requires |s.bits| == 8 * 128 && INIT in s.procs && s.exits == map[] && s.log == []
    requires forall p | p in s.procs :: 1 <= p <= 127 && s.procs[p].parent == -1 && s.procs[p].status.Active? &&
               s.procs[p].wait.NoWait? && s.procs[p].uid < s.next
    requires forall p: nat | 1 <= p <= |s.bits| :: s.bits[p - 1] <==> p in s.procs
    requires forall p, q | p in s.procs && q in s.procs && p != q :: s.procs[p].uid != s.procs[q].uid
    ensures Inv(s)
  {
  }

  // ---- init is the exception ----

  ghost predicate Overlooked(s: State) {
    INIT in s.procs && s.procs[INIT].status.Waiting? && exists c ::
      c in s.procs && s.procs[c].parent == INIT && s.procs[c].status.Hanging?
  }

  /** An exit leaves init asleep on a hanging child exactly when it hands one over and is not itself init's child. */
  lemma InitOverlooksIff(s: State, s': State, p: nat, status: int)
    requires Inv(s) && Exit(s, s', p, status) && s.procs[INIT].status.Waiting? && !Overlooked(s)
    ensures Overlooked(s') <==> s.procs[p].parent != INIT && exists c ::
              c in s.procs && s.procs[c].parent == p && s.procs[c].status.Hanging?
  {
    hide Waits, Records, Log;
    ExitEffect(s, s', p, status);
    assert Changed(s.procs[INIT], s'.procs[INIT], INIT, p, s.procs[p].parent, status);
    if s.procs[p].parent != INIT {
      StillAsleep(s, s', p, status);
      if c :| c in s.procs && s.procs[c].parent == p && s.procs[c].status.Hanging? {
        assert Changed(s.procs[c], s'.procs[c], c, p, s.procs[p].parent, status);
        assert s'.procs[c].parent == INIT && s'.procs[c].status.Hanging?;
      }
      if Overlooked(s') {
        var c :| c in s'.procs && s'.procs[c].parent == INIT && s'.procs[c].status.Hanging?;
        assert Changed(s.procs[c], s'.procs[c], c, p, s.procs[p].parent, status);
        assert s.procs[c].parent == p && s.procs[c].status.Hanging?;
      }
    }
  }

  lemma StillAsleep(s: State, s': State, p: nat, status: int)
    requires Inv(s) && Exit(s, s', p, status) && s.procs[INIT].status.Waiting? && s.procs[p].parent != INIT
    ensures s'.procs[INIT].status.Waiting?
  {
    hide Waits, Records, Log;
  }

  // ---- what a wait returns ----

  /** The record of child `c`: its pid is free again, its status is in the log, and nothing else was logged. */
  ghost predicate Collected(s: State, s': State, c: nat) {
    && c in s.procs && s.procs[c].status.Hanging? && c !in s'.procs && 1 <= c <= |s'.bits| && !s'.bits[c - 1]
    && s.procs[c].uid in s.exits && s'.log == s.log + [(s.procs[c].uid, Int8(s.exits[s.procs[c].uid]))]
  }

  ghost predicate HasHanging(s: State, p: nat, w: Wait) {
    exists c :: c in s.procs && Awaited(s.procs, p, w, c) && s.procs[c].status.Hanging?
  }

  ghost predicate HasAwaited(s: State, p: nat, w: Wait) { exists c :: c in s.procs && Awaited(s.procs, p, w, c) }

  /** alloc_pid's search fails exactly when the pids 1 to 127 are all taken. */
  lemma PidsRunOutIff(s: State)
    requires Pids(s)
    ensures FirstFit(s.bits, 128, 1) == -1 <==> forall q: nat | 1 <= q <= 127 :: q in s.procs
  {
    var r := FirstFit(s.bits, 128, 1);
    if r == -1 {
      forall q: nat | 1 <= q <= 127
        ensures q in s.procs
      {
        assert !Fits(s.bits, q - 1, 1);
      }
    } else {
      assert Fits(s.bits, r, 1);
      assert r + 1 !in s.procs;
    }
  }

  lemma CollectedHung(s: State, s': State, c: nat)
    ensures Collected(s, s', c) ==> c in s.procs && s.procs[c].status.Hanging?
  {
  }

  /**
   * A wait collects a hanging child if there is one, sleeps if there is only a living one, and returns at once if
   * there is none.
   */
  lemma WaitOutcome(s: State, s': State, p: nat, w: Wait)
    requires Inv(s) && WaitPass(s, s', p, w) && Proper(s, p, w)
    ensures HasHanging(s, p, w) <==> exists c :: c in s.procs && Awaited(s.procs, p, w, c) && Collected(s, s', c)
    ensures p in s'.procs && (s'.procs[p].status.Waiting? <==> HasAwaited(s, p, w) && !HasHanging(s, p, w))
    ensures s'.procs[p].wait.NoWait? <==> !s'.procs[p].status.Waiting?
    ensures w.ForPid? ==>
              && (w.pid in s.procs && s.procs[w.pid].status.Hanging? <==> Collected(s, s', w.pid))
              && (s'.procs[p].status.Waiting? <==> w.pid in s.procs && !s.procs[w.pid].status.Hanging?)
    ensures w.AnyChild? ==>
              && (HangingChild(s.procs, p) <==>
                   exists c :: c in s.procs && s.procs[c].parent == p && Collected(s, s', c))
              && (s'.procs[p].status.Waiting? <==>
                   !HangingChild(s.procs, p) && exists c :: c in s.procs && s.procs[c].parent == p)
  {
    hide Inv, Collected, Reaped;
    if HasHanging(s, p, w) {
      var c :| c in s.procs && Awaited(s.procs, p, w, c) && s.procs[c].status.Hanging? && s' == Reaped(s, p, c);
      ReapCollects(s, p, c, w);
    } else {
      NoneCollected(s, s', p, w);
      if w.ForPid? {
        CollectedHung(s, s', w.pid);
      }
    }
  }

  lemma ReapCollects(s: State, p: nat, c: nat, w: Wait)
    requires Inv(s) && p in s.procs && s.procs[p].status.Active? && c in s.procs && s.procs[c].status.Hanging?
    requires Awaited(s.procs, p, w, c) && OwnChild(s, p, w)
    ensures Collected(s, Reaped(s, p, c), c)
    ensures p in Reaped(s, p, c).procs && Reaped(s, p, c).procs[p] == s.procs[p].(wait := NoWait)
  {
    hide Inv, Family, Waits, Log;
    InvParts(s);
    ReapedEffect(s, p, c, w);
  }

  lemma NoneCollected(s: State, s': State, p: nat, w: Wait)
    requires !HasHanging(s, p, w)
    ensures forall c | c in s.procs && Awaited(s.procs, p, w, c) :: !Collected(s, s', c)
  {
  }

  /** An exit wakes a waiting parent. */
  lemma ExitWakesParent(s: State, s': State, p: nat, status: int)
    requires Inv(s) && Exit(s, s', p, status)
    ensures s.procs[p].parent in s'.procs && !s'.procs[s.procs[p].parent].status.Waiting? && s'.procs[p].status.Hanging?
  {
    hide Exit;
    ExitEffect(s, s', p, status);
    var q := s.procs[p].parent;
    assert Changed(s.procs[q], s'.procs[q], q, p, q, status);
    assert Changed(s.procs[p], s'.procs[p], p, p, q, status);
  }

  // ---- in place ----

  datatype WaitResult = Child(pid: nat, status: int) | NoChild | Sleeps

  /** Some child of `p` hangs. */
  ghost predicate HangingChild(procs: map<nat, Proc>, p: nat) {
    exists q :: q in procs && procs[q].parent == p && procs[q].status.Hanging?
  }

  /** `c` is the first hanging child of `p` on the list of all threads. */
  ghost predicate FirstOf(all: seq<nat>, procs: map<nat, Proc>, p: nat, c: nat) {
    exists i: nat :: i < |all| && all[i] == c && NoneBefore(all, procs, p, i)
  }

  ghost predicate NoneBefore(all: seq<nat>, procs: map<nat, Proc>, p: nat, i: nat)
    requires i <= |all|
  {
    forall j: nat | j < i && all[j] in procs :: procs[all[j]].parent != p || !procs[all[j]].status.Hanging?
  }

  /** The process table: pcbs by pid, the all-threads list, the pid bitmap. */
  class Table {
    var procs: map<nat, Proc>
    var all: seq<nat>
    var bits: seq<bool>
    var next: nat
    ghost var exits: map<nat, int>
    ghost var log: seq<(nat, int)>

    ghost function S(): State
      reads this
    {
      State(procs, bits, next, exits, log)
    }

    ghost predicate Valid()
      reads this
    {
      Inv(S()) && NoDuplicates(all) && Listed(procs, all)
    }

    /** init and the kernel threads, started in the order of their pids. */
    constructor (kernelThreads: nat)
      requires kernelThreads <= 126
      ensures Valid() && (forall p: nat :: p in procs <==> 1 <= p <= 1 + kernelThreads) && exits == map[] && log == []
      ensures Taken(S(), 1 + kernelThreads) && forall p | p in procs :: procs[p] == Proc(p, -1, Active, NoWait, 0)
    {
      hide Inv, Pids, Family, Waits, Records, Log, NoDuplicates, Listed;
      var n := 1 + kernelThreads;
      procs := map p: nat | 1 <= p <= n :: Proc(p, -1, Active, NoWait, 0);
      bits := seq(8 * 128, i => i < n);
      all := seq(n, i => i + 1);
      next := n + 1;
      exits, log := map[], [];
      new;
      Boot(S());
      FirstPids(all, procs, n);
    }

    /**
     * sys_fork and alloc_pid, which does not test the search: without a pid to be had the child is pid 0 and
     * a bit is set far outside the bitmap, a store that is left out here.
     */
    method SysFork(p: nat) returns (c: nat, inside: bool)
      requires Valid() && Acts(S(), p)
      modifies this
      ensures Valid() && (inside <==> exists q: nat :: 1 <= q <= 127 && q !in old(procs))
      ensures inside ==> Fork(old(S()), S(), p, c) && all == old(all) + [c]
      ensures !inside ==> c == 0 && unchanged(this)
    {
      hide Inv, FirstFit, Family, Waits, Records, Log;
      ghost var s := S();
      InvParts(s);
      PidsRunOutIff(s);
      var idx := FirstFit(bits, 128, 1);
      inside := idx != -1;
      if !inside {
        return 0, false;
      }
      bits := bits[idx := true];
      c := idx + 1;
      procs := procs[c := Proc(next, p, Active, NoWait, 0)];
      next := next + 1;
      FreshPid(s, S(), p, c);
      ForkKeeps(s, S(), p, c);
      assert c !in all;
      all := all + [c];
    }

    /** list_traversal with change_parent_to_init, which never stops early. */
    method ChangeParents(p: nat)
      requires NoDuplicates(all) && Listed(procs, all)
      modifies this`procs
      ensures procs == Reparented(old(procs), p)
    {
      var i := 0;
      while i < |all|
        invariant 0 <= i <= |all| && procs.Keys == old(procs).Keys
        invariant forall j: nat | j < |all| ::
                    procs[all[j]] == if j < i && old(procs)[all[j]].parent == p
                      then old(procs)[all[j]].(parent := INIT) else old(procs)[all[j]]
      {
        var q := all[i];
        if procs[q].parent == p {
          procs := procs[q := procs[q].(parent := INIT)];
        }
        i := i + 1;
      }
      forall q | q in procs
        ensures procs[q] == Reparented(old(procs), p)[q]
      {
        assert q in all;
      }
    }

    /** sys_exit, up to the switch to another thread. */
    method SysExit(p: nat, status: int)
      requires Valid() && Acts(S(), p) && procs[p].parent != -1
      modifies this`procs, this`exits
      ensures Valid() && Exit(old(S()), S(), p, status)
    {
      hide Inv, Pids, Family, Waits, Records, Log;
      ghost var s := S();
      ParentKnown(s, p);
      var parent := procs[p].parent;
      ChangeParents(p);
      if parent in procs && procs[parent].status == Waiting {
        procs := procs[parent := procs[parent].(status := Active)];
      }
      procs := procs[p := procs[p].(status := Hanging, code := Int8(status))];
      exits := exits[s.procs[p].uid := status];
      ExitKeeps(s, S(), p, status);
    }

    /** list_traversal with one of the four check functions: the first match on the list. */
    method FirstAwaited(p: nat, w: Wait, hanging: bool) returns (c: int)
      requires Listed(procs, all)
      ensures c == -1 <==> forall q | q in procs && Awaited(procs, p, w, q) :: hanging && !procs[q].status.Hanging?
      ensures c != -1 ==> c >= 0 && c in procs && Awaited(procs, p, w, c) && (hanging ==> procs[c].status.Hanging?)
      ensures c != -1 ==> exists i: nat :: i < |all| && all[i] == c
                            && forall j: nat | j < i :: Awaited(procs, p, w, all[j]) ==>
                                 hanging && !procs[all[j]].status.Hanging?
      ensures w.ForPid? ==>
                c == if w.pid in procs && (hanging ==> procs[w.pid].status.Hanging?) then w.pid else -1
      ensures w.AnyChild? && c != -1 ==> procs[c].parent == p && (hanging ==> procs[c].status.Hanging?)
      ensures w.AnyChild? && c == -1 ==>
                forall q | q in procs && procs[q].parent == p :: hanging && !procs[q].status.Hanging?
    {
      var i := 0;
      while i < |all|
        invariant 0 <= i <= |all|
        invariant forall j: nat | j < i :: Awaited(procs, p, w, all[j]) ==> hanging && !procs[all[j]].status.Hanging?
      {
        if Awaited(procs, p, w, all[i]) && (!hanging || procs[all[i]].status.Hanging?) {
          return all[i];
        }
        i := i + 1;
      }
      c := -1;
    }

    /** thread_exit on the hanging child, and the wait is over. */
    method Reap(p: nat, c: nat, ghost w: Wait)
      requires Valid() && p in procs && procs[p].status.Active? && c in procs && procs[c].status.Hanging?
      requires Awaited(procs, p, w, c) && OwnChild(S(), p, w)
      modifies this
      ensures Valid() && S() == Reaped(old(S()), p, c) && Returned(old(S()), S(), c, old(procs)[c].code)
      ensures all == Remove(old(all), c)
    {
      hide Inv, Collected, Returned, Pids, Family, Waits, Records, Log, Reaped;
      ghost var s := S();
      ReapedEffect(s, p, c, w);
      ReapReturns(s, p, c, w);
      RemoveMembers(all, c);
      all := Remove(all, c);
      bits := bits[c - 1 := false];
      log := log + [(procs[c].uid, procs[c].code)];
      procs := procs - {c};
      procs := procs[p := procs[p].(wait := NoWait)];
      ReapedIs(s, p, c, S());
      ReapKeeps(s, p, c, w);
    }

    /** One pass of the loop of sys_wait or sys_wait_without_pid, with what the call returns if it does. */
    method SysWait(p: nat, w: Wait) returns (r: WaitResult)
      requires Valid() && p in procs && procs[p].status.Active? && (procs[p].wait.NoWait? || procs[p].wait == w)
      requires !w.NoWait? && Proper(S(), p, w)
      modifies this
      ensures Valid() && WaitPass(old(S()), S(), p, w)
      ensures r.Child? ==> Returned(old(S()), S(), r.pid, r.status) && all == Remove(old(all), r.pid)
      ensures r.Child? ==> r.pid in old(procs) && old(procs)[r.pid].status.Hanging? && old(procs)[r.pid].parent == p
      ensures r.Child? ==> r.status == old(procs)[r.pid].code
      ensures w.ForPid? ==>
                && (r.Child? <==> w.pid in old(procs) && old(procs)[w.pid].status.Hanging?)
                && (r.Child? ==> r.pid == w.pid)
                && (r.NoChild? <==> w.pid !in old(procs))
      ensures w.AnyChild? ==>
                && (r.Child? <==> HangingChild(old(procs), p))
                && (r.NoChild? <==> forall q | q in old(procs) :: old(procs)[q].parent != p)
                && (r.Child? ==> FirstOf(old(all), old(procs), p, r.pid))
      ensures r.Sleeps? ==> p in procs && procs[p].status.Waiting? && procs[p].wait == w
    {
      hide Inv, Collected, Returned, Pids, Family, Waits, Records, Log, Reaped;
      ghost var s := S();
      Looked(s, p, w);
      var c := FirstAwaited(p, w, true);
      if c != -1 {
        r := Child(c, procs[c].code);
        Reap(p, c, w);
        return;
      }
      c := FirstAwaited(p, w, false);
      if c == -1 {
        procs := procs[p := procs[p].(wait := NoWait)];
        r := NoChild;
      } else {
        procs := procs[p := procs[p].(status := Waiting, wait := w)];
        r := Sleeps;
      }
      WaitKeeps(s, S(), p, w);
    }
  }

  ghost predicate Listed(procs: map<nat, Proc>, all: seq<nat>) {
    (forall p | p in procs :: p in all) && forall p | p in all :: p in procs
  }

  /** What the parent gets: the pid, and the status byte of that child's exit. */
  ghost predicate Returned(s: State, s': State, c: nat, status: int) {
    Collected(s, s', c) && status == Int8(s.exits[s.procs[c].uid])
  }

  lemma ReapReturns(s: State, p: nat, c: nat, w: Wait)
    requires Inv(s) && p in s.procs && s.procs[p].status.Active? && c in s.procs && s.procs[c].status.Hanging?
    requires Awaited(s.procs, p, w, c) && OwnChild(s, p, w)
    ensures Returned(s, Reaped(s, p, c), c, s.procs[c].code)
  {
    hide Pids, Family, Waits, Log, Reaped;
    ReapCollects(s, p, c, w);
  }

  lemma ReapedIs(s: State, p: nat, c: nat, s': State)
    requires p in s.procs && c in s.procs && p != c && 1 <= c <= |s.bits|
    requires s' == s.(procs := (s.procs - {c})[p := s.procs[p].(wait := NoWait)], bits := s.bits[c - 1 := false],
               log := s.log + [(s.procs[c].uid, s.procs[c].code)])
    ensures s' == Reaped(s, p, c)
  {
  }

  lemma Looked(s: State, p: nat, w: Wait)
    ensures HasHanging(s, p, w) <==> !forall q | q in s.procs && Awaited(s.procs, p, w, q) ::
              !s.procs[q].status.Hanging?
    ensures HasHanging(s, p, w) ==> HasAwaited(s, p, w)
  {
  }

  lemma ParentKnown(s: State, p: nat)
    requires Inv(s) && p in s.procs && s.procs[p].parent != -1
    ensures s.procs[p].parent >= 0 && s.procs[p].parent in s.procs && s.procs[p].parent != p
  {
    assert HasParent(s, s.procs[p].parent);
  }

  // ---- a run that leaves init asleep ----

  /** The first `n` pids are taken and no other. */
  ghost predicate Taken(s: State, n: nat) {
    |s.bits| == 8 * 128 && n <= 127 && forall i: nat | i < |s.bits| :: s.bits[i] <==> i < n
  }

  lemma NextPid(s: State, n: nat)
    requires Taken(s, n) && n < 127
    ensures FirstFit(s.bits, 128, 1) == n
  {
    var r := FirstFit(s.bits, 128, 1);
    assert Fits(s.bits, n, 1);
  }

  /** init, its child 2, its grandchild 3 and that one's child 4, none of them asleep. */
  ghost predicate FourGenerations(s: State) {
    && s.procs.Keys == {1, 2, 3, 4}
    && s.procs[1].parent == -1 && s.procs[2].parent == 1 && s.procs[3].parent == 2 && s.procs[4].parent == 3
    && forall p | p in s.procs :: s.procs[p].status.Active? && s.procs[p].wait.NoWait?
  }

  /** A fork while the pids in use are the first `n`. */
  method ForkNext(t: Table, p: nat, ghost n: nat) returns (c: nat)
    requires t.Valid() && Acts(t.S(), p) && Taken(t.S(), n) && n < 126
    modifies t
    ensures t.Valid() && c == n + 1 && Fork(old(t.S()), t.S(), p, c) && Taken(t.S(), n + 1)
  {
    hide Inv, FirstFit, NoDuplicates, Listed, Family, Waits, Records, Log;
    InvParts(t.S());
    NextPid(t.S(), n);
    assert n + 1 !in t.procs;
    var inside;
    c, inside := t.SysFork(p);
  }

  /**
   * A full pid table: init and 126 kernel threads, then a fork. A kernel thread takes one kernel page and a process
   * some twenty-five, of at most 479, so forks alone do not fill it.
   */
  method PidsRunOut() returns (t: Table, c: nat, inside: bool)
    ensures t.Valid() && !inside && c == 0 && forall q: nat | 1 <= q <= 127 :: q in t.procs
  {
    hide Inv, FirstFit, NoDuplicates, Listed;
    t := new Table(126);
    c, inside := t.SysFork(1);
  }

  method ForkThrice() returns (t: Table, ghost trace: seq<State>, ghost events: seq<Event>)
    ensures fresh(t) && t.Valid() && |trace| == 4 && trace[3] == t.S() && FourGenerations(t.S())
    ensures Run(trace, events) && trace[0].procs.Keys == {INIT}
  {
    hide Inv, FirstFit, NoDuplicates, Listed;
    t := new Table(0);
    ghost var s0 := t.S();
    var a := ForkNext(t, 1, 1);
    ghost var s1 := t.S();
    var b := ForkNext(t, 2, 2);
    ghost var s2 := t.S();
    var c := ForkNext(t, 3, 3);
    trace := [s0, s1, s2, t.S()];
    events := [Event(1, ForkCall(2)), Event(2, ForkCall(3)), Event(3, ForkCall(4))];
  }

  /**
   * init forks 2, which forks 3, which forks 4; init waits; 4 exits, then 3. Process 4 now hangs as init's child,
   * and init, waiting for any child, is not woken.
   */
  method InitLeftAsleep() returns (t: Table, ghost trace: seq<State>, ghost events: seq<Event>)
    ensures Run(trace, events) && trace[0].procs.Keys == {INIT} && Overlooked(trace[|trace| - 1])
  {
    hide Inv, NoDuplicates, Listed, Run, StepAt;
    t, trace, events := ForkThrice();
    ghost var s3 := t.S();
    var r := t.SysWait(1, AnyChild);
    ghost var s4 := t.S();
    InitSleeps(s3, s4);
    t.SysExit(4, 0);
    ghost var s5 := t.S();
    LastExits(s4, s5);
    t.SysExit(3, 0);
    ghost var s6 := t.S();
    InitOverlooksIff(s5, s6, 3, 0);
    Continued(trace, events, s4, Event(1, WaitCall(AnyChild)));
    trace, events := trace + [s4], events + [Event(1, WaitCall(AnyChild))];
    Continued(trace, events, s5, Event(4, ExitCall(0)));
    trace, events := trace + [s5], events + [Event(4, ExitCall(0))];
    Continued(trace, events, s6, Event(3, ExitCall(0)));
    trace, events := trace + [s6], events + [Event(3, ExitCall(0))];
  }

  lemma InitSleeps(s: State, s': State)
    requires FourGenerations(s) && WaitPass(s, s', 1, AnyChild)
    ensures s'.procs == s.procs[1 := s.procs[1].(status := Waiting, wait := AnyChild)]
  {
    assert Awaited(s.procs, 1, AnyChild, 2);
  }

  /** Process 4 hangs as a child of 3; init still waits, and has no hanging child. */
  lemma LastExits(s: State, s': State)
    requires s.procs.Keys == {1, 2, 3, 4} && Exit(s, s', 4, 0) && s.procs[1].status.Waiting?
    requires s.procs[1].parent == -1 && s.procs[2].parent == 1 && s.procs[3].parent == 2 && s.procs[4].parent == 3
    requires forall p | p in s.procs && p != 1 :: s.procs[p].status.Active? && s.procs[p].wait.NoWait?
    ensures Acts(s', 3) && s'.procs[3].parent == 2 && s'.procs[4].parent == 3 && s'.procs[4].status.Hanging?
    ensures s'.procs[1].status.Waiting? && !Overlooked(s')
  {
  }

  lemma Continued(trace: seq<State>, events: seq<Event>, s: State, e: Event)
    requires Run(trace, events) && Step(trace[|trace| - 1], s, e.actor, e.call)
    ensures Run(trace + [s], events + [e])
  {
    hide Step, Inv;
    var trace', events' := trace + [s], events + [e];
    forall i: nat | i < |events'|
      ensures StepAt(trace', events', i)
    {
      assert i < |events| ==> StepAt(trace, events, i);
    }
  }
}
