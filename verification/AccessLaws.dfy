/** What the readers and writers of readerwriter.c are let do, and whom they keep out. */
module AccessLaws {
  import opened Options
  import Locks
  import opened ReadersWriters

  type Tid = Locks.Tid

  /** Process `t` makes `n` steps with nobody in between. */
  function Solo(s: State, t: Tid, n: nat): (r: State)
    requires t in s.procs
    ensures t in r.procs
    decreases n
  {
    if n == 0 then s else Next(Solo(s, t, n - 1), t)
  }

  predicate Stands(s: State, t: Tid, writer: bool, pc: nat) {
    t in s.procs && s.procs[t].writer == writer && s.procs[t].pc == pc && !s.procs[t].inDown
  }

  // ---- one process alone ----

  function Held(t: Tid, yes: bool): Locks.Lock { if yes then Locks.Lock(0, [], Some(t), 1) else Locks.InitialLock() }

  /** `t` alone among idle locks: it holds `held`, stands at `pc`, and the counter of its kind is `n`. */
  function Single(s: State, t: Tid, writer: bool, held: set<Name>, n: int, pc: nat, reg: int): State {
    State(Held(t, Rdr in held), Held(t, Wrt in held), Held(t, M in held), Held(t, X in held), Held(t, Y in held),
          if writer then 0 else n, if writer then n else 0, s.procs[t := Proc(writer, pc, false, reg)])
  }

  /** What an instruction makes of the locks held, the counter and the register, when it does not block or jump. */
  ghost predicate Effect(i: Instr, held: set<Name>, n: int, reg: int, held': set<Name>, n': int, reg': int) {
    match i
    case Acquire(l) => l !in held && held' == held + {l} && n' == n && reg' == reg
    case Release(l) => l in held && held' == held - {l} && n' == n && reg' == reg
    case Load => held' == held && n' == n && reg' == n
    case Store(d) => held' == held && n' == reg + d && reg' == reg
    case Unless(v, _) => n == v && held' == held && n' == n && reg' == reg
    case Access => held' == held && n' == n && reg' == reg
  }

  lemma SameLocks(s: State, t: Tid, writer: bool, held: set<Name>, n: int, pc: nat, reg: int, l: Name)
    ensures Single(s, t, writer, held, n, pc, reg).Get(l) == Held(t, l in held)
    ensures var h := Single(s, t, writer, held, n, pc, reg);
            && h.With(l, Held(t, true)) == Single(s, t, writer, held + {l}, n, pc, reg)
            && h.With(l, Held(t, false)) == Single(s, t, writer, held - {l}, n, pc, reg)
  {
  }

  lemma SamePlace(s: State, t: Tid, writer: bool, held: set<Name>, n: int, pc: nat, reg: int, pc': nat, reg': int)
    ensures Single(s, t, writer, held, n, pc, reg).At(t, Proc(writer, pc', false, reg')) ==
            Single(s, t, writer, held, n, pc', reg')
  {
    var p, q := Proc(writer, pc, false, reg), Proc(writer, pc', false, reg');
    assert s.procs[t := p][t := q] == s.procs[t := q];
  }

  lemma SingleStep(s: State, t: Tid, writer: bool, held: set<Name>, n: int, pc: nat, reg: int, held': set<Name>,
                   n': int, reg': int)
    requires Effect(Code(Proc(writer, pc, false, reg)), held, n, reg, held', n', reg')
    ensures Next(Single(s, t, writer, held, n, pc, reg), t) ==
            Single(s, t, writer, held', n', if pc == LAST then 0 else pc + 1, reg')
  {
    hide Code;
    var h, i := Single(s, t, writer, held, n, pc, reg), Code(Proc(writer, pc, false, reg));
    var to := if pc == LAST then 0 else pc + 1;
    if i.Acquire? || i.Release? {
      SameLocks(s, t, writer, held, n, pc, reg, i.lock);
    }
    SamePlace(s, t, writer, held', n', pc, reg, to, reg');
    assert h.procs[t] == Proc(writer, pc, false, reg);
    assert h.Counter(writer) == n && h.WithCounter(writer, n') == Single(s, t, writer, held, n', pc, reg);
  }

  /** After `k` steps alone `t` stands so. */
  ghost predicate Reached(s: State, t: Tid, writer: bool, k: nat, held: set<Name>, n: int, reg: int)
    requires t in s.procs
  {
    Solo(s, t, k) == Single(s, t, writer, held, n, if k == LAST + 1 then 0 else k, reg)
  }

  lemma Go(s: State, t: Tid, writer: bool, k: nat, held: set<Name>, n: int, reg: int, held': set<Name>, n': int,
           reg': int)
    requires t in s.procs && k <= LAST && Reached(s, t, writer, k, held, n, reg)
    requires Effect(Code(Proc(writer, k, false, reg)), held, n, reg, held', n', reg')
    ensures Reached(s, t, writer, k + 1, held', n', reg')
  {
    hide Code, Effect, Next, Single;
    SingleStep(s, t, writer, held, n, k, reg, held', n', reg');
    assert Solo(s, t, k + 1) == Next(Solo(s, t, k), t);
  }

  ghost predicate Resting(s: State, t: Tid, writer: bool) {
    Stands(s, t, writer, 0) && s == Single(s, t, writer, {}, 0, 0, s.procs[t].reg)
  }

  lemma Begins(s: State, t: Tid, writer: bool)
    requires Resting(s, t, writer)
    ensures Reached(s, t, writer, 0, {}, 0, s.procs[t].reg)
  {
    assert Solo(s, t, 0) == s;
  }

  /**
   * Alone, a reader reaches the data in nine steps, holding wrt and m for its kind; eight more leave every lock and
   * counter as they were.
   */
  lemma ReaderRound(s: State, t: Tid)
    requires Resting(s, t, false)
    ensures Reached(s, t, false, 9, {Wrt, M}, 1, 0) && Code(Proc(false, 9, false, 0)).Access?
    ensures Reached(s, t, false, 17, {}, 0, 1)
  {
    hide Solo, Single;
    var r := s.procs[t].reg;
    Begins(s, t, false);
    hide Reached;
    Go(s, t, false, 0, {}, 0, r, {Rdr}, 0, r);
    Go(s, t, false, 1, {Rdr}, 0, r, {}, 0, r);
    Go(s, t, false, 2, {}, 0, r, {X}, 0, r);
    Go(s, t, false, 3, {X}, 0, r, {X}, 0, 0);
    Go(s, t, false, 4, {X}, 0, 0, {X}, 1, 0);
    Go(s, t, false, 5, {X}, 1, 0, {X}, 1, 0);
    Go(s, t, false, 6, {X}, 1, 0, {X, Wrt}, 1, 0);
    Go(s, t, false, 7, {X, Wrt}, 1, 0, {X, Wrt, M}, 1, 0);
    Go(s, t, false, 8, {X, Wrt, M}, 1, 0, {Wrt, M}, 1, 0);
    Go(s, t, false, 9, {Wrt, M}, 1, 0, {Wrt, M}, 1, 0);
    Go(s, t, false, 10, {Wrt, M}, 1, 0, {X, Wrt, M}, 1, 0);
    Go(s, t, false, 11, {X, Wrt, M}, 1, 0, {X, Wrt, M}, 1, 1);
    Go(s, t, false, 12, {X, Wrt, M}, 1, 1, {X, Wrt, M}, 0, 1);
    Go(s, t, false, 13, {X, Wrt, M}, 0, 1, {X, Wrt, M}, 0, 1);
    Go(s, t, false, 14, {X, Wrt, M}, 0, 1, {X, M}, 0, 1);
    Go(s, t, false, 15, {X, M}, 0, 1, {X}, 0, 1);
    Go(s, t, false, 16, {X}, 0, 1, {}, 0, 1);
  }

  /** And so does a writer, holding m for itself and rdr for its kind while it writes. */
  lemma WriterRound(s: State, t: Tid)
    requires Resting(s, t, true)
    ensures Reached(s, t, true, 9, {Rdr, M}, 1, 0) && Code(Proc(true, 9, false, 0)).Access?
    ensures Reached(s, t, true, 17, {}, 0, 1)
  {
    hide Solo, Single;
    var r := s.procs[t].reg;
    Begins(s, t, true);
    hide Reached;
    Go(s, t, true, 0, {}, 0, r, {Wrt}, 0, r);
    Go(s, t, true, 1, {Wrt}, 0, r, {}, 0, r);
    Go(s, t, true, 2, {}, 0, r, {Y}, 0, r);
    Go(s, t, true, 3, {Y}, 0, r, {Y}, 0, 0);
    Go(s, t, true, 4, {Y}, 0, 0, {Y}, 1, 0);
    Go(s, t, true, 5, {Y}, 1, 0, {Y}, 1, 0);
    Go(s, t, true, 6, {Y}, 1, 0, {Y, Rdr}, 1, 0);
    Go(s, t, true, 7, {Y, Rdr}, 1, 0, {Rdr}, 1, 0);
    Go(s, t, true, 8, {Rdr}, 1, 0, {Rdr, M}, 1, 0);
    Go(s, t, true, 9, {Rdr, M}, 1, 0, {Rdr, M}, 1, 0);
    Go(s, t, true, 10, {Rdr, M}, 1, 0, {Rdr}, 1, 0);
    Go(s, t, true, 11, {Rdr}, 1, 0, {Y, Rdr}, 1, 0);
    Go(s, t, true, 12, {Y, Rdr}, 1, 0, {Y, Rdr}, 1, 1);
    Go(s, t, true, 13, {Y, Rdr}, 1, 1, {Y, Rdr}, 0, 1);
    Go(s, t, true, 14, {Y, Rdr}, 0, 1, {Y, Rdr}, 0, 1);
    Go(s, t, true, 15, {Y, Rdr}, 0, 1, {Y}, 0, 1);
    Go(s, t, true, 16, {Y}, 0, 1, {}, 0, 1);
  }

  // ---- readers share the data ----

  /**
   * While one reader is at the data, a second one that finds rdr and x free is there too after its next seven
   * steps, and takes no other lock.
   */
  lemma ReadersShare(s: State, t: Tid, u: Tid)
    requires Inv(s) && Stands(s, t, false, 9) && Stands(s, u, false, 0) && s.rdr.value == 1 && s.x.value == 1
    ensures var r := Solo(s, u, 7);
            && Stands(r, t, false, 9) && Stands(r, u, false, 9) && r.readers == s.readers + 1
            && r.wrt == s.wrt && r.m == s.m
  {
    CountedMatters(s, t);
    assert LockSound(s, Rdr) && LockSound(s, X);
    hide Inv, LockSound;
    ThroughTheDoor(s, u);
    CountedIn(Solo(s, u, 3), u, s.readers);
    assert Solo(s, u, 5) == Next(Next(Solo(s, u, 3), u), u);
    assert Solo(s, u, 7) == Next(Next(Solo(s, u, 5), u), u);
  }

  ghost predicate OnlyLocks(s: State, r: State, u: Tid) {
    && r.wrt == s.wrt && r.m == s.m && r.y == s.y && r.procs.Keys == s.procs.Keys
    && (forall t | t in s.procs && t != u :: r.procs[t] == s.procs[t])
  }

  lemma ThroughTheDoor(s: State, u: Tid)
    requires Stands(s, u, false, 0) && s.rdr.value == 1 && s.x.value == 1 && s.rdr.holder == None && s.x.holder == None
    ensures var r := Solo(s, u, 3);
            Stands(r, u, false, 3) && r.readers == s.readers && OnlyLocks(s, r, u) && r.x.cnt == 1
  {
    assert Solo(s, u, 0) == s;
    var s1 := Solo(s, u, 1);
    assert s1 == AcquireStep(s, u, Rdr);
    var s2 := Solo(s, u, 2);
    assert s2 == ReleaseStep(s1, u, Rdr);
    assert Solo(s, u, 3) == AcquireStep(s2, u, X);
  }

  lemma CountedIn(s: State, u: Tid, n: int)
    requires Stands(s, u, false, 3) && s.readers == n && n >= 1 && s.x.cnt == 1
    ensures var r := Next(Next(Next(Next(s, u), u), u), u);
            Stands(r, u, false, 9) && r.readers == n + 1 && OnlyLocks(s, r, u)
  {
    var s1 := Next(s, u);
    assert Stands(s1, u, false, 4) && s1.procs[u].reg == n;
    var s2 := Next(s1, u);
    assert Stands(s2, u, false, 5) && s2.readers == n + 1;
    var s3 := Next(s2, u);
    assert Stands(s3, u, false, 8);
  }

  // ---- and each kind keeps the other at the door ----

  /** `w` is past the door of its kind and has not yet given up the other kind's. */
  predicate Inside(s: State, w: Tid) { w in s.procs && 7 <= s.procs[w].pc <= 14 }

  function Door(writer: bool): Name { if writer then Wrt else Rdr }

  lemma DoorIsShut(s: State, w: Tid)
    requires Inv(s) && Inside(s, w)
    ensures var l := Door(!s.procs[w].writer); s.Get(l).value == 0 && GroupHolds(s, l)
  {
    var writer := s.procs[w].writer;
    var own := if writer then Y else X;
    var l := Door(!writer);
    assert LockSound(s, l);
    if Owns(s.procs[w], own) {
      OwnerIsHolder(s, w, own);
    } else {
      CountedMatters(s, w);
      HoldersOwn(s);
      var h := s.Get(own).holder;
      if h.Some? {
        StandsWell(s, h.value);
      }
    }
  }

  lemma OthersStay(s: State, u: Tid, v: Tid)
    requires u in s.procs && v in s.procs && u != v
    ensures u in Next(s, v).procs && Next(s, v).procs[u] == s.procs[u]
  {
    hide Code;
  }

  /** One step of anybody leaves a process of the other kind where it waits. */
  lemma StaysOutside(s: State, w: Tid, u: Tid, v: Tid)
    requires Inv(s) && Inside(s, w) && u in s.procs && s.procs[u].writer != s.procs[w].writer && s.procs[u].pc == 0
    requires v in s.procs
    ensures u in Next(s, v).procs && Next(s, v).procs[u].pc == 0 && Next(s, v).procs[u].writer == s.procs[u].writer
  {
    if u == v {
      var l := Door(s.procs[u].writer);
      DoorIsShut(s, w);
      NeverReentrant(s, u, l);
      hide Inv, Inside;
      assert Code(s.procs[u]) == Acquire(l) && Next(s, u) == AcquireStep(s, u, l);
    } else {
      hide Inv, Inside;
      OthersStay(s, u, v);
    }
  }

  /** In state `s` some process of the given kind is past its door. */
  ghost predicate SomeInside(s: State, writer: bool) { exists w :: Inside(s, w) && s.procs[w].writer == writer }

  /**
   * In every run, as long as writers follow one another inside, no reader that comes passes the first lock; and
   * none of the writers as long as readers do.
   */
  lemma {:induction false} KeptOut(trace: seq<State>, i: nat, j: nat, u: Tid)
    requires Run(trace) && i <= j < |trace| && u in trace[i].procs && trace[i].procs[u].pc == 0
    requires forall k: nat | i <= k < j :: SomeInside(trace[k], !trace[i].procs[u].writer)
    ensures u in trace[j].procs && trace[j].procs[u].pc == 0 && trace[j].procs[u].writer == trace[i].procs[u].writer
    decreases j
  {
    hide Inv, Correct, Blocked, Next;
    if i < j {
      KeptOut(trace, i, j - 1, u);
      var s := trace[j - 1];
      EveryRunIsCorrect(trace, j - 1);
      assert SomeInside(s, !trace[i].procs[u].writer);
      var w :| Inside(s, w) && s.procs[w].writer == !trace[i].procs[u].writer;
      var k := j - 1;
      assert Step(trace[k], trace[k + 1]);
      var v :| v in s.procs && !Blocked(s, v) && trace[j] == Next(s, v);
      StaysOutside(s, w, u, v);
    }
  }

  // ---- the queues ----

  /** On a lock that is taken a caller waits behind all who came before. */
  lemma WaitsLast(s: State, t: Tid, l: Name)
    requires Inv(s) && t in s.procs && !Blocked(s, t) && Code(s.procs[t]) == Acquire(l) && s.Get(l).value == 0
    ensures var r := Next(s, t);
            && r.Get(l) == s.Get(l).(waiters := s.Get(l).waiters + [t]) && Blocked(r, t)
            && forall k | k != l :: r.Get(k) == s.Get(k)
  {
    NeverReentrant(s, t, l);
    hide Inv, Code;
    assert Next(s, t) == AcquireStep(s, t, l);
  }

  /** A release frees the lock and lets the first waiter, and no other, try again. */
  lemma FirstIsWoken(s: State, t: Tid, l: Name, u: Tid)
    requires Inv(s) && t in s.procs && !Blocked(s, t) && Code(s.procs[t]) == Release(l)
    requires u in s.procs && u in s.Get(l).waiters
    ensures var r, w := Next(s, t), s.Get(l).waiters;
            && r.Get(l) == Locks.Lock(1, w[1..], None, 0) && (forall k | k != l :: r.Get(k) == s.Get(k))
            && u in r.procs && (Blocked(r, u) <==> u != w[0])
  {
    ReleaseLocal(s, t, l);
    assert QueueSound(s, l);
    hide Inv, QueueSound;
    assert Next(s, t) == ReleaseStep(s, t, l);
    var w := s.Get(l).waiters;
    assert w == [w[0]] + w[1..];
  }
}
