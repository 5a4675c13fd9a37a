/**
 * userprog/actualuserprogs/readerwriter.c: any number of readers and writers over five locks. Each lock call is a
 * system call, atomic but for the block inside semaphore_down; between calls a process may be preempted anywhere.
 */
module ReadersWriters {
  import opened Options
  import opened Sequences
  import opened Locks

  datatype Name = Rdr | Wrt | M | X | Y

  datatype Instr =
    | Acquire(lock: Name) | Release(lock: Name)
    | Load                                   // reg := counter
    | Store(delta: int)                      // counter := reg + delta
    | Unless(value: int, target: nat)        // go to target unless the counter equals value
    | Access                                 // read or write the data

  /** reader */
  function ReaderCode(pc: nat): Instr {
    match pc
    case 0 => Acquire(Rdr)
    case 1 => Release(Rdr)
    case 2 => Acquire(X)
    case 3 => Load
    case 4 => Store(1)
    case 5 => Unless(1, 8)
    case 6 => Acquire(Wrt)
    case 7 => Acquire(M)
    case 8 => Release(X)
    case 9 => Access
    case 10 => Acquire(X)
    case 11 => Load
    case 12 => Store(-1)
    case 13 => Unless(0, 16)
    case 14 => Release(Wrt)
    case 15 => Release(M)
    case _ => Release(X)
  }

  /** writer */
  function WriterCode(pc: nat): Instr {
    match pc
    case 0 => Acquire(Wrt)
    case 1 => Release(Wrt)
    case 2 => Acquire(Y)
    case 3 => Load
    case 4 => Store(1)
    case 5 => Unless(1, 7)
    case 6 => Acquire(Rdr)
    case 7 => Release(Y)
    case 8 => Acquire(M)
    case 9 => Access
    case 10 => Release(M)
    case 11 => Acquire(Y)
    case 12 => Load
    case 13 => Store(-1)
    case 14 => Unless(0, 16)
    case 15 => Release(Rdr)
    case _ => Release(Y)
  }

  const LAST: nat := 16

  /** `inDown`: the thread is inside semaphore_down, past lock_acquire's test of the holder. */
  datatype Proc = Proc(writer: bool, pc: nat, inDown: bool, reg: int)

  function Code(p: Proc): Instr { if p.writer then WriterCode(p.pc) else ReaderCode(p.pc) }

  datatype State = State(rdr: Lock, wrt: Lock, m: Lock, x: Lock, y: Lock, readers: int, writers: int, procs: map<Tid,
    Proc>)
  {
    function Get(l: Name): Lock {
      match l
      case Rdr => rdr
      case Wrt => wrt
      case M => m
      case X => x
      case Y => y
    }

    function With(l: Name, k: Lock): State {
      match l
      case Rdr => this.(rdr := k)
      case Wrt => this.(wrt := k)
      case M => this.(m := k)
      case X => this.(x := k)
      case Y => this.(y := k)
    }

    function Counter(writer: bool): int { if writer then writers else readers }

    function WithCounter(writer: bool, n: int): State {
      if writer then this.(writers := n) else this.(readers := n)
    }

    function At(t: Tid, p: Proc): State { this.(procs := procs[t := p]) }
  }

  function Advanced(p: Proc): Proc { p.(pc := if p.pc == LAST then 0 else p.pc + 1, inDown := false) }

  /** lock_acquire: the reentrant branch, the block, or the lock taken. */
  function AcquireStep(s: State, t: Tid, l: Name): State
    requires t in s.procs
  {
    var p, k := s.procs[t], s.Get(l);
    if !p.inDown && k.holder == Some(t) then s.With(l, k.(cnt := k.cnt + 1)).At(t, Advanced(p))
    else if k.value == 0 then s.With(l, k.(waiters := k.waiters + [t])).At(t, p.(inDown := true))
    else s.With(l, k.(value := k.value - 1, holder := Some(t), cnt := 1)).At(t, Advanced(p))
  }

  /** lock_release, by whoever calls it. */
  function ReleaseStep(s: State, t: Tid, l: Name): State
    requires t in s.procs
  {
    var p, k := s.procs[t], s.Get(l);
    if k.cnt > 1 then s.With(l, k.(cnt := k.cnt - 1)).At(t, Advanced(p))
    else s.With(l, Lock(k.value + 1, if k.waiters == [] then [] else k.waiters[1..], None, 0)).At(t, Advanced(p))
  }

  function Next(s: State, t: Tid): State
    requires t in s.procs
  {
    var p := s.procs[t];
    match Code(p)
    case Acquire(l) => AcquireStep(s, t, l)
    case Release(l) => ReleaseStep(s, t, l)
    case Load => s.At(t, Advanced(p).(reg := s.Counter(p.writer)))
    case Store(d) => s.WithCounter(p.writer, p.reg + d).At(t, Advanced(p))
    case Unless(v, target) => s.At(t, if s.Counter(p.writer) == v then Advanced(p) else p.(pc := target))
    case Access => s.At(t, Advanced(p))
  }

  /** Blocked in semaphore_down until someone's release pops it. */
  predicate Blocked(s: State, t: Tid)
    requires t in s.procs
  {
    Code(s.procs[t]).Acquire? && t in s.Get(Code(s.procs[t]).lock).waiters
  }

  ghost predicate Init(s: State) {
    && s.rdr == s.wrt == s.m == s.x == s.y == InitialLock() && s.readers == 0 && s.writers == 0
    && forall t | t in s.procs :: s.procs[t] == Proc(s.procs[t].writer, 0, false, 0)
  }

  ghost predicate Step(s: State, s': State) { exists t :: t in s.procs && !Blocked(s, t) && s' == Next(s, t) }

  // ---- who holds what ----

  /** A process between its own acquire and its own release of `l`. */
  predicate Owns(p: Proc, l: Name) {
    if p.writer then
      match l
      case Wrt => p.pc == 1
      case Y => 3 <= p.pc <= 7 || 12 <= p.pc <= 16
      case M => p.pc == 9 || p.pc == 10
      case _ => false
    else
      match l
      case Rdr => p.pc == 1
      case X => 3 <= p.pc <= 8 || 11 <= p.pc <= 16
      case _ => false
  }

  /** A process the counter of its kind includes. */
  predicate Counted(p: Proc) { if p.writer then 5 <= p.pc <= 13 else 5 <= p.pc <= 12 }

  /** The readers together hold wrt, judged by where the holder of x stands. */
  predicate ReadersHoldWrt(s: State) {
    match s.x.holder
    case None => s.readers > 0
    case Some(t) =>
      var pc := if t in s.procs then s.procs[t].pc else 0;
      if pc == 5 then s.readers > 1 else if pc == 6 || pc == 15 then false
      else if pc <= 4 || pc == 16 then s.readers > 0 else true
  }

  predicate ReadersHoldM(s: State) {
    match s.x.holder
    case None => s.readers > 0
    case Some(t) =>
      var pc := if t in s.procs then s.procs[t].pc else 0;
      if pc == 5 then s.readers > 1 else if pc == 6 || pc == 7 then false
      else if pc <= 4 || pc == 16 then s.readers > 0 else true
  }

  predicate WritersHoldRdr(s: State) {
    match s.y.holder
    case None => s.writers > 0
    case Some(t) =>
      var pc := if t in s.procs then s.procs[t].pc else 0;
      if pc == 5 then s.writers > 1 else if pc == 6 then false
      else if pc <= 4 || pc == 16 then s.writers > 0 else true
  }

  predicate GroupHolds(s: State, l: Name) {
    match l
    case Rdr => WritersHoldRdr(s)
    case Wrt => ReadersHoldWrt(s)
    case M => ReadersHoldM(s)
    case _ => false
  }

  /** What is known of a process by its place in the program. */
  predicate Sensible(s: State, p: Proc) {
    && p.pc <= LAST && (p.inDown ==> Code(p).Acquire?)
    && var n := s.Counter(p.writer);
       if p.writer then
         (p.pc == 4 || p.pc == 13 ==> p.reg == n) && (p.pc == 6 ==> n == 1) && (p.pc == 15 ==> n == 0)
       else
         (p.pc == 4 || p.pc == 12 ==> p.reg == n) && (p.pc == 6 || p.pc == 7 ==> n == 1) &&
           (p.pc == 14 || p.pc == 15 ==> n == 0)
  }

  /** A lock is free and nobody has a claim on it; or one process owns it; or one kind holds it as a group. */
  ghost predicate LockSound(s: State, l: Name) {
    var k := s.Get(l);
    if k.value == 0 then
      && k.cnt == 1 && k.holder.Some? && k.holder.value in s.procs
      && (forall t | t in s.procs && Owns(s.procs[t], l) :: Some(t) == k.holder)
      && GroupHolds(s, l) == !Owns(s.procs[k.holder.value], l)
      && (GroupHolds(s, l) ==> s.procs[k.holder.value].writer == (l == Rdr))
    else
      && k.value == 1 && k.cnt == 0 && k.holder == None && !GroupHolds(s, l)
      && forall t | t in s.procs :: !Owns(s.procs[t], l)
  }

  predicate AtAcquire(p: Proc, l: Name) { Code(p) == Acquire(l) && p.inDown }

  /** The waiters are processes inside semaphore_down of this lock, and a free lock with waiters has one re-checking. */
  ghost predicate QueueSound(s: State, l: Name) {
    var w := s.Get(l).waiters;
    && NoDuplicates(w)
    && (forall t | t in w :: t in s.procs && AtAcquire(s.procs[t], l))
    && (s.Get(l).value == 1 && w != [] ==> exists t :: t in s.procs && AtAcquire(s.procs[t], l) && t !in w)
  }

  ghost function CountedOf(s: State, writer: bool): set<Tid> {
    set t | t in s.procs && s.procs[t].writer == writer && Counted(s.procs[t])
  }

  ghost predicate Inv(s: State) {
    && (forall t | t in s.procs :: Sensible(s, s.procs[t]))
    && (forall l :: LockSound(s, l)) && (forall l :: QueueSound(s, l))
    && s.readers == |CountedOf(s, false)| && s.writers == |CountedOf(s, true)|
  }

  // ---- consequences ----

  lemma OwnerIsHolder(s: State, t: Tid, l: Name)
    requires Inv(s) && t in s.procs && Owns(s.procs[t], l)
    ensures s.Get(l).holder == Some(t) && s.Get(l).value == 0 && s.Get(l).cnt == 1 && !GroupHolds(s, l)
  {
    assert LockSound(s, l);
  }

  lemma CountedMatters(s: State, t: Tid)
    requires Inv(s) && t in s.procs && Counted(s.procs[t])
    ensures s.Counter(s.procs[t].writer) >= 1
    ensures s.Counter(s.procs[t].writer) == 1 ==>
              forall u | u in s.procs && s.procs[u].writer == s.procs[t].writer && Counted(s.procs[u]) :: u == t
  {
    var c := CountedOf(s, s.procs[t].writer);
    assert t in c;
    if |c| == 1 {
      assert |c - {t}| == 0;
      forall u | u in s.procs && s.procs[u].writer == s.procs[t].writer && Counted(s.procs[u])
        ensures u == t
      {
        assert u in c && (u != t ==> u in c - {t});
      }
    }
  }

  /** The step of one process: the others stay, and so does its kind. */
  ghost predicate Moves(s: State, s': State, t: Tid) {
    && t in s.procs && t in s'.procs && s'.procs == s.procs[t := s'.procs[t]] && s'.procs[t].writer == s.procs[t].writer
  }

  lemma SameCount(s: State, s': State, t: Tid, writer: bool)
    requires Moves(s, s', t) && Counted(s'.procs[t]) == Counted(s.procs[t])
    ensures CountedOf(s', writer) == CountedOf(s, writer)
  {
  }

  lemma CountChanges(s: State, s': State, t: Tid)
    requires Moves(s, s', t) && Counted(s'.procs[t]) != Counted(s.procs[t])
    ensures var w := s.procs[t].writer;
            && |CountedOf(s', w)| == |CountedOf(s, w)| + (if Counted(s'.procs[t]) then 1 else -1)
            && CountedOf(s', !w) == CountedOf(s, !w)
  {
    var w := s.procs[t].writer;
    if Counted(s'.procs[t]) {
      assert CountedOf(s', w) == CountedOf(s, w) + {t} && t !in CountedOf(s, w);
    } else {
      assert CountedOf(s', w) == CountedOf(s, w) - {t} && t in CountedOf(s, w);
    }
    assert CountedOf(s', !w) == CountedOf(s, !w);
  }

  /** A lock whose state and claims a step leaves alone stays sound. */
  lemma LockUntouched(s: State, s': State, t: Tid, l: Name)
    requires LockSound(s, l) && Moves(s, s', t)
    requires s'.Get(l) == s.Get(l).(waiters := s'.Get(l).waiters)
    requires Owns(s'.procs[t], l) == Owns(s.procs[t], l) && GroupHolds(s', l) == GroupHolds(s, l)
    ensures LockSound(s', l)
  {
    hide Owns, GroupHolds;
  }

  lemma QueueUntouched(s: State, s': State, t: Tid, l: Name)
    requires QueueSound(s, l) && Moves(s, s', t)
    requires s'.Get(l).waiters == s.Get(l).waiters && (s'.Get(l).value == s.Get(l).value || s'.Get(l).value == 0)
    requires t !in s.Get(l).waiters && (AtAcquire(s.procs[t], l) ==> s'.Get(l).value == 0)
    ensures QueueSound(s', l)
  {
    hide AtAcquire;
    var w := s.Get(l).waiters;
    if s'.Get(l).value == 1 && w != [] {
      var u :| u in s.procs && AtAcquire(s.procs[u], l) && u !in w;
      assert u in s'.procs && AtAcquire(s'.procs[u], l);
    }
  }

  lemma NotWaiting(s: State, t: Tid, l: Name)
    requires Inv(s) && t in s.procs && !Blocked(s, t)
    ensures t !in s.Get(l).waiters
  {
    assert QueueSound(s, l);
  }

  // ---- steps that touch no lock ----

  lemma SensibleKept(s: State, s': State, t: Tid)
    requires Inv(s) && Moves(s, s', t) && Sensible(s', s'.procs[t])
    requires s'.Counter(true) == s.Counter(true) && s'.Counter(false) == s.Counter(false)
    ensures forall u | u in s'.procs :: Sensible(s', s'.procs[u])
  {
    forall u | u in s'.procs && u != t
      ensures Sensible(s', s'.procs[u])
    {
      assert Sensible(s, s.procs[u]);
    }
  }

  lemma QueuesKept(s: State, s': State, t: Tid)
    requires Inv(s) && Moves(s, s', t) && !Blocked(s, t) && !Code(s.procs[t]).Acquire?
    requires forall l :: s'.Get(l) == s.Get(l)
    ensures forall l :: QueueSound(s', l)
  {
    forall l
      ensures QueueSound(s', l)
    {
      assert QueueSound(s, l);
      NotWaiting(s, t, l);
      QueueUntouched(s, s', t, l);
    }
  }

  /** Load, the test and the access to the data. */
  lemma QuietKeeps(s: State, t: Tid)
    requires Inv(s) && t in s.procs && !Blocked(s, t)
    requires Code(s.procs[t]).Load? || Code(s.procs[t]).Unless? || Code(s.procs[t]).Access?
    ensures Inv(Next(s, t))
  {
    var s' := Next(s, t);
    assert Sensible(s, s.procs[t]);
    QuietLocal(s, t);
    SameCount(s, s', t, true);
    SameCount(s, s', t, false);
    QueuesKept(s, s', t);
    forall l
      ensures LockSound(s', l)
    {
      QuietGroup(s, t, l);
      assert LockSound(s, l);
      LockUntouched(s, s', t, l);
    }
    SensibleKept(s, s', t);
  }

  lemma QuietLocal(s: State, t: Tid)
    requires Inv(s) && t in s.procs
    requires Code(s.procs[t]).Load? || Code(s.procs[t]).Unless? || Code(s.procs[t]).Access?
    ensures var s' := Next(s, t);
            Moves(s, s', t) && Sensible(s', s'.procs[t]) && Counted(s'.procs[t]) == Counted(s.procs[t])
  {
    assert Sensible(s, s.procs[t]);
    var p := s.procs[t];
    if Owns(p, X) {
      OwnerIsHolder(s, t, X);
    }
    if Counted(p) {
      CountedMatters(s, t);
    }
  }

  lemma QuietGroup(s: State, t: Tid, l: Name)
    requires Inv(s) && t in s.procs
    requires Code(s.procs[t]).Load? || Code(s.procs[t]).Unless? || Code(s.procs[t]).Access?
    ensures var s' := Next(s, t); Owns(s'.procs[t], l) == Owns(s.procs[t], l) && GroupHolds(s', l) == GroupHolds(s, l)
  {
    hide Inv, LockSound, QueueSound;
    StandsWell(s, t);
    assert Code(s.procs[t]).Unless? ==> s.Counter(s.procs[t].writer) >= 0;
  }

  /** x and y are held by the process that is inside them. */
  lemma HoldersOwn(s: State)
    requires Inv(s)
    ensures s.x.holder.Some? ==> s.x.holder.value in s.procs && Owns(s.procs[s.x.holder.value], X)
    ensures s.y.holder.Some? ==> s.y.holder.value in s.procs && Owns(s.procs[s.y.holder.value], Y)
  {
    assert LockSound(s, X) && LockSound(s, Y);
    assert s.Get(X) == s.x && s.Get(Y) == s.y;
  }

  /** The counter is written by the process inside x, or inside y. */
  lemma StoreKeeps(s: State, t: Tid)
    requires Inv(s) && t in s.procs && !Blocked(s, t) && Code(s.procs[t]).Store?
    ensures Inv(Next(s, t))
  {
    var s' := Next(s, t);
    assert Sensible(s, s.procs[t]);
    CountChanges(s, s', t);
    QueuesKept(s, s', t);
    forall l
      ensures LockSound(s', l)
    {
      StoreGroup(s, t, l);
      assert LockSound(s, l);
      LockUntouched(s, s', t, l);
    }
    StoreSensible(s, t);
  }

  lemma StoreGroup(s: State, t: Tid, l: Name)
    requires Inv(s) && t in s.procs && Code(s.procs[t]).Store?
    ensures var s' := Next(s, t); Owns(s'.procs[t], l) == Owns(s.procs[t], l) && GroupHolds(s', l) == GroupHolds(s, l)
  {
    hide Inv, LockSound, QueueSound;
    StandsWell(s, t);
  }

  lemma StoreSensible(s: State, t: Tid)
    requires Inv(s) && t in s.procs && Code(s.procs[t]).Store?
    ensures forall u | u in s.procs :: Sensible(Next(s, t), Next(s, t).procs[u])
  {
    var s', p := Next(s, t), s.procs[t];
    OwnerIsHolder(s, t, if p.writer then Y else X);
    forall u | u in s.procs && u != t
      ensures Sensible(s', s'.procs[u])
    {
      assert Sensible(s, s.procs[u]);
      if Owns(s.procs[u], if p.writer then Y else X) {
        OwnerIsHolder(s, u, if p.writer then Y else X);
      }
    }
  }

  // ---- steps on locks ----

  lemma BlockKeeps(s: State, t: Tid, l: Name)
    requires Inv(s) && t in s.procs && !Blocked(s, t) && Code(s.procs[t]) == Acquire(l) && s.Get(l).value == 0
    requires s.procs[t].inDown || s.Get(l).holder != Some(t)
    ensures Inv(Next(s, t))
  {
    var s', p := Next(s, t), s.procs[t];
    hide LockSound, QueueSound, Owns, Counted, Sensible, Inv;
    BlockLocal(s, t, l);
    SameCount(s, s', t, true);
    SameCount(s, s', t, false);
    forall k
      ensures LockSound(s', k)
    {
      SoundLock(s, k);
      BlockGroup(s, t, l, k);
      LockUntouched(s, s', t, k);
    }
    BlockQueues(s, t, l);
    SensibleKept(s, s', t);
    Reassembled(s, s');
  }

  lemma SoundLock(s: State, l: Name)
    requires Inv(s)
    ensures LockSound(s, l)
  {
  }

  lemma Reassembled(s: State, s': State)
    requires Inv(s) && s'.readers == s.readers && s'.writers == s.writers
    requires CountedOf(s', true) == CountedOf(s, true) && CountedOf(s', false) == CountedOf(s, false)
    requires forall t | t in s'.procs :: Sensible(s', s'.procs[t])
    requires (forall l :: LockSound(s', l)) && (forall l :: QueueSound(s', l))
    ensures Inv(s')
  {
    hide LockSound, QueueSound, Sensible;
  }

  lemma BlockLocal(s: State, t: Tid, l: Name)
    requires Inv(s) && t in s.procs && Code(s.procs[t]) == Acquire(l) && s.Get(l).value == 0
    requires s.procs[t].inDown || s.Get(l).holder != Some(t)
    ensures var s' := Next(s, t);
            && Moves(s, s', t) && Sensible(s', s'.procs[t]) && Counted(s'.procs[t]) == Counted(s.procs[t])
                                  && forall k :: Owns(s'.procs[t], k) == Owns(s.procs[t], k)
  {
    assert Sensible(s, s.procs[t]);
  }

  lemma BlockGroup(s: State, t: Tid, l: Name, k: Name)
    requires t in s.procs && Code(s.procs[t]) == Acquire(l) && s.Get(l).value == 0
    requires s.procs[t].inDown || s.Get(l).holder != Some(t)
    ensures var s' := Next(s, t); GroupHolds(s', k) == GroupHolds(s, k)
    ensures var s' := Next(s, t); s'.Get(k) == s.Get(k).(waiters := s'.Get(k).waiters)
  {
  }

  lemma BlockQueues(s: State, t: Tid, l: Name)
    requires Inv(s) && t in s.procs && !Blocked(s, t) && Code(s.procs[t]) == Acquire(l) && s.Get(l).value == 0
    requires s.procs[t].inDown || s.Get(l).holder != Some(t)
    ensures forall k :: QueueSound(Next(s, t), k)
  {
    var s', p := Next(s, t), s.procs[t];
    forall k
      ensures QueueSound(s', k)
    {
      assert QueueSound(s, k);
      NotWaiting(s, t, k);
      if k == l {
        assert s'.Get(l).waiters == s.Get(l).waiters + [t];
      } else {
        QueueUntouched(s, s', t, k);
      }
    }
  }

  /** The holder of a lock never asks for it again. */
  lemma NeverReentrant(s: State, t: Tid, l: Name)
    requires Inv(s) && t in s.procs && Code(s.procs[t]) == Acquire(l)
    ensures s.Get(l).holder != Some(t)
  {
    var p := s.procs[t];
    assert Sensible(s, p) && LockSound(s, l);
    if (p.writer && p.pc == 6) || (!p.writer && (p.pc == 6 || p.pc == 7)) {
      OwnerIsHolder(s, t, if p.writer then Y else X);
    }
  }

  lemma TakeKeeps(s: State, t: Tid, l: Name)
    requires Inv(s) && t in s.procs && !Blocked(s, t) && Code(s.procs[t]) == Acquire(l) && s.Get(l).value != 0
    ensures Inv(Next(s, t))
  {
    NeverReentrant(s, t, l);
    var s', p := Next(s, t), s.procs[t];
    assert Sensible(s, p);
    TakeLocal(s, t, l);
    SameCount(s, s', t, true);
    SameCount(s, s', t, false);
    forall k
      ensures LockSound(s', k) && QueueSound(s', k)
    {
      assert LockSound(s, k) && QueueSound(s, k);
      NotWaiting(s, t, k);
      QueueUntouched(s, s', t, k);
      TakeGroup(s, t, l, k);
      if k != l {
        LockUntouched(s, s', t, k);
      }
    }
    SensibleKept(s, s', t);
  }

  lemma TakeLocal(s: State, t: Tid, l: Name)
    requires Inv(s) && t in s.procs && Code(s.procs[t]) == Acquire(l) && s.Get(l).value != 0
    requires s.Get(l).holder != Some(t)
    ensures var s' := Next(s, t);
            Moves(s, s', t) && Sensible(s', s'.procs[t]) && Counted(s'.procs[t]) == Counted(s.procs[t])
    ensures var s' := Next(s, t); s'.Get(l).value == 0 && s'.Get(l).cnt == 1 && s'.Get(l).holder == Some(t)
  {
    assert Sensible(s, s.procs[t]) && LockSound(s, l);
  }

  /** What the invariant says about one process and the counters it can see. */
  lemma StandsWell(s: State, t: Tid)
    requires Inv(s) && t in s.procs
    ensures Sensible(s, s.procs[t])
    ensures s.x.holder.Some? ==> s.x.holder.value in s.procs && Owns(s.procs[s.x.holder.value], X)
    ensures s.y.holder.Some? ==> s.y.holder.value in s.procs && Owns(s.procs[s.y.holder.value], Y)
    ensures Owns(s.procs[t], X) ==> s.x.holder == Some(t)
    ensures Owns(s.procs[t], Y) ==> s.y.holder == Some(t)
    ensures Counted(s.procs[t]) ==> s.Counter(s.procs[t].writer) >= 1
    ensures s.readers >= 0 && s.writers >= 0
  {
    HoldersOwn(s);
    if Counted(s.procs[t]) {
      CountedMatters(s, t);
    }
    if Owns(s.procs[t], X) {
      OwnerIsHolder(s, t, X);
    }
    if Owns(s.procs[t], Y) {
      OwnerIsHolder(s, t, Y);
    }
  }

  lemma FreeLock(s: State, l: Name)
    requires Inv(s) && s.Get(l).value != 0
    ensures !GroupHolds(s, l) && s.Get(l).holder == None && forall u | u in s.procs :: !Owns(s.procs[u], l)
  {
    assert LockSound(s, l);
  }

  /** A taken lock has one claim on it, by its holder or by a group. */
  lemma ClaimedOnce(s: State, t: Tid, l: Name)
    requires Inv(s) && t in s.procs && s.Get(l).cnt == 1
    ensures forall u | u in s.procs && Owns(s.procs[u], l) :: s.Get(l).holder == Some(u) && !GroupHolds(s, l)
  {
    assert LockSound(s, l);
  }

  lemma TakeGroupRdr(s: State, t: Tid, l: Name, k: Name)
    requires Inv(s) && t in s.procs && Code(s.procs[t]) == Acquire(l) && s.Get(l).value != 0
    requires s.Get(l).holder != Some(t)
    requires k == Rdr
    ensures var s' := Next(s, t);
            if k == l then GroupHolds(s', k) == !Owns(s'.procs[t], k) &&
              (GroupHolds(s', k) ==> s'.procs[t].writer == (l == Rdr))
            else GroupHolds(s', k) == GroupHolds(s, k) && Owns(s'.procs[t], k) == Owns(s.procs[t], k)
  {
    hide Inv, LockSound, QueueSound, ReadersHoldWrt, ReadersHoldM;
    StandsWell(s, t);
    FreeLock(s, l);
  }

  lemma TakeGroupWrt(s: State, t: Tid, l: Name, k: Name)
    requires Inv(s) && t in s.procs && Code(s.procs[t]) == Acquire(l) && s.Get(l).value != 0
    requires s.Get(l).holder != Some(t)
    requires k == Wrt
    ensures var s' := Next(s, t);
            if k == l then GroupHolds(s', k) == !Owns(s'.procs[t], k) &&
              (GroupHolds(s', k) ==> s'.procs[t].writer == (l == Rdr))
            else GroupHolds(s', k) == GroupHolds(s, k) && Owns(s'.procs[t], k) == Owns(s.procs[t], k)
  {
    hide Inv, LockSound, QueueSound, WritersHoldRdr, ReadersHoldM;
    StandsWell(s, t);
    FreeLock(s, l);
  }

  lemma TakeGroupRest(s: State, t: Tid, l: Name, k: Name)
    requires Inv(s) && t in s.procs && Code(s.procs[t]) == Acquire(l) && s.Get(l).value != 0
    requires s.Get(l).holder != Some(t)
    requires k != Rdr && k != Wrt
    ensures var s' := Next(s, t);
            if k == l then GroupHolds(s', k) == !Owns(s'.procs[t], k) &&
              (GroupHolds(s', k) ==> s'.procs[t].writer == (l == Rdr))
            else GroupHolds(s', k) == GroupHolds(s, k) && Owns(s'.procs[t], k) == Owns(s.procs[t], k)
  {
    hide Inv, LockSound, QueueSound, WritersHoldRdr, ReadersHoldWrt;
    StandsWell(s, t);
    FreeLock(s, l);
  }

  /** Taking `l` gives the taker, or its group, a claim on `l` and moves no other claim. */
  lemma TakeGroup(s: State, t: Tid, l: Name, k: Name)
    requires Inv(s) && t in s.procs && Code(s.procs[t]) == Acquire(l) && s.Get(l).value != 0
    requires s.Get(l).holder != Some(t)
    ensures var s' := Next(s, t);
            if k == l then GroupHolds(s', k) == !Owns(s'.procs[t], k) &&
              (GroupHolds(s', k) ==> s'.procs[t].writer == (l == Rdr))
            else GroupHolds(s', k) == GroupHolds(s, k) && Owns(s'.procs[t], k) == Owns(s.procs[t], k)
  {
    hide Inv, Next, GroupHolds, Owns;
    if k == Rdr {
      TakeGroupRdr(s, t, l, k);
    } else if k == Wrt {
      TakeGroupWrt(s, t, l, k);
    } else {
      TakeGroupRest(s, t, l, k);
    }
  }

  lemma ReleaseKeeps(s: State, t: Tid, l: Name)
    requires Inv(s) && t in s.procs && !Blocked(s, t) && Code(s.procs[t]) == Release(l)
    ensures Inv(Next(s, t))
  {
    var s', p := Next(s, t), s.procs[t];
    assert Sensible(s, p);
    ReleaseLocal(s, t, l);
    SameCount(s, s', t, true);
    SameCount(s, s', t, false);
    forall k
      ensures LockSound(s', k) && QueueSound(s', k)
    {
      assert LockSound(s, k) && QueueSound(s, k);
      NotWaiting(s, t, k);
      ReleaseGroup(s, t, l, k);
      if k != l {
        QueueUntouched(s, s', t, k);
        LockUntouched(s, s', t, k);
      } else {
        ReleaseQueue(s, t, l);
      }
    }
    SensibleKept(s, s', t);
  }

  /** Every release finds the lock taken once, whoever took it. */
  lemma ReleaseLocal(s: State, t: Tid, l: Name)
    requires Inv(s) && t in s.procs && Code(s.procs[t]) == Release(l)
    ensures s.Get(l).cnt == 1 && s.Get(l).value == 0
    ensures var s' := Next(s, t);
            Moves(s, s', t) && Sensible(s', s'.procs[t]) && Counted(s'.procs[t]) == Counted(s.procs[t])
    ensures var s' := Next(s, t); s'.Get(l).value == 1 && s'.Get(l).cnt == 0 && s'.Get(l).holder == None
  {
    var p := s.procs[t];
    assert Sensible(s, p) && LockSound(s, l);
    if Owns(p, X) {
      OwnerIsHolder(s, t, X);
    }
    if Owns(p, Y) {
      OwnerIsHolder(s, t, Y);
    }
  }

  lemma ReleaseGroupRdr(s: State, t: Tid, l: Name, k: Name)
    requires Inv(s) && t in s.procs && Code(s.procs[t]) == Release(l) && s.Get(l).cnt == 1
    requires k == Rdr
    ensures var s' := Next(s, t);
            if k == l then !GroupHolds(s', k) && forall u | u in s'.procs :: !Owns(s'.procs[u], k)
            else GroupHolds(s', k) == GroupHolds(s, k) && Owns(s'.procs[t], k) == Owns(s.procs[t], k)
  {
    hide Inv, LockSound, QueueSound, ReadersHoldWrt, ReadersHoldM;
    StandsWell(s, t);
    ClaimedOnce(s, t, l);
  }

  lemma ReleaseGroupWrt(s: State, t: Tid, l: Name, k: Name)
    requires Inv(s) && t in s.procs && Code(s.procs[t]) == Release(l) && s.Get(l).cnt == 1
    requires k == Wrt
    ensures var s' := Next(s, t);
            if k == l then !GroupHolds(s', k) && forall u | u in s'.procs :: !Owns(s'.procs[u], k)
            else GroupHolds(s', k) == GroupHolds(s, k) && Owns(s'.procs[t], k) == Owns(s.procs[t], k)
  {
    hide Inv, LockSound, QueueSound, WritersHoldRdr, ReadersHoldM;
    StandsWell(s, t);
    ClaimedOnce(s, t, l);
  }

  lemma ReleaseGroupRest(s: State, t: Tid, l: Name, k: Name)
    requires Inv(s) && t in s.procs && Code(s.procs[t]) == Release(l) && s.Get(l).cnt == 1
    requires k != Rdr && k != Wrt
    ensures var s' := Next(s, t);
            if k == l then !GroupHolds(s', k) && forall u | u in s'.procs :: !Owns(s'.procs[u], k)
            else GroupHolds(s', k) == GroupHolds(s, k) && Owns(s'.procs[t], k) == Owns(s.procs[t], k)
  {
    hide Inv, LockSound, QueueSound, WritersHoldRdr, ReadersHoldWrt;
    StandsWell(s, t);
    ClaimedOnce(s, t, l);
  }

  lemma ReleaseGroup(s: State, t: Tid, l: Name, k: Name)
    requires Inv(s) && t in s.procs && Code(s.procs[t]) == Release(l) && s.Get(l).cnt == 1
    ensures var s' := Next(s, t);
            if k == l then !GroupHolds(s', k) && forall u | u in s'.procs :: !Owns(s'.procs[u], k)
            else GroupHolds(s', k) == GroupHolds(s, k) && Owns(s'.procs[t], k) == Owns(s.procs[t], k)
  {
    hide Inv, Next, GroupHolds, Owns;
    if k == Rdr {
      ReleaseGroupRdr(s, t, l, k);
    } else if k == Wrt {
      ReleaseGroupWrt(s, t, l, k);
    } else {
      ReleaseGroupRest(s, t, l, k);
    }
  }

  lemma ReleaseQueue(s: State, t: Tid, l: Name)
    requires Inv(s) && t in s.procs && !Blocked(s, t) && Code(s.procs[t]) == Release(l) && s.Get(l).cnt == 1
    ensures QueueSound(Next(s, t), l)
  {
    var s', w := Next(s, t), s.Get(l).waiters;
    assert QueueSound(s, l);
    NotWaiting(s, t, l);
    if w != [] {
      assert w == [w[0]] + w[1..];
      assert AtAcquire(s'.procs[w[0]], l) && w[0] !in w[1..];
    }
  }

  lemma StepKeeps(s: State, t: Tid)
    requires Inv(s) && t in s.procs && !Blocked(s, t)
    ensures Inv(Next(s, t))
  {
    match Code(s.procs[t])
    case Acquire(l) =>
      NeverReentrant(s, t, l);
      if s.Get(l).value == 0 {
        BlockKeeps(s, t, l);
      } else {
        TakeKeeps(s, t, l);
      }
    case Release(l) => ReleaseKeeps(s, t, l);
    case Store(_) => StoreKeeps(s, t);
    case _ => QuietKeeps(s, t);
  }

  // ---- what the protocol promises ----

  predicate Accessing(p: Proc) { p.pc == 9 }

  /** One writer at a time, and no reader beside it. */
  ghost predicate Exclusive(s: State) {
    forall t, u | t in s.procs && u in s.procs && t != u && Accessing(s.procs[t]) && Accessing(s.procs[u]) ::
      !s.procs[t].writer && !s.procs[u].writer
  }

  /** The locks' ASSERTs hold and neither reentrant branch is ever taken. */
  ghost predicate PlainLocking(s: State) {
    forall t | t in s.procs :: PlainCall(s, t, Code(s.procs[t]))
  }

  predicate PlainCall(s: State, t: Tid, i: Instr) {
    match i
    case Acquire(l) => s.Get(l).holder != Some(t) && (s.Get(l).value != 0 ==> s.Get(l).value == 1 && s.Get(l).cnt == 0)
    case Release(l) => s.Get(l).cnt == 1
    case _ => true
  }

  ghost predicate SomeoneCanMove(s: State) { exists t :: t in s.procs && !Blocked(s, t) }

  ghost predicate Correct(s: State) {
    Exclusive(s) && PlainLocking(s) && (s.procs.Keys != {} ==> SomeoneCanMove(s))
  }

  lemma InvIsExclusive(s: State)
    requires Inv(s)
    ensures Exclusive(s)
  {
    forall t, u | t in s.procs && u in s.procs && t != u && Accessing(s.procs[t]) && Accessing(s.procs[u])
      ensures !s.procs[t].writer
    {
      if s.procs[t].writer {
        OwnerIsHolder(s, t, M);
        if s.procs[u].writer {
          OwnerIsHolder(s, u, M);
        } else {
          ReaderSeesM(s, u);
        }
      }
    }
  }

  /** While anyone reads, the readers hold m. */
  lemma ReaderSeesM(s: State, u: Tid)
    requires Inv(s) && u in s.procs && !s.procs[u].writer && Accessing(s.procs[u])
    ensures GroupHolds(s, M)
  {
    CountedMatters(s, u);
    HoldersOwn(s);
    if s.x.holder.Some? {
      var h := s.x.holder.value;
      assert Sensible(s, s.procs[h]);
      if Counted(s.procs[h]) {
        CountedMatters(s, h);
      }
    }
  }

  lemma InvIsPlain(s: State)
    requires Inv(s)
    ensures PlainLocking(s)
  {
    forall t | t in s.procs
      ensures PlainCall(s, t, Code(s.procs[t]))
    {
      match Code(s.procs[t])
      case Acquire(l) =>
        NeverReentrant(s, t, l);
        assert LockSound(s, l);
      case Release(l) =>
        ReleaseLocal(s, t, l);
      case _ =>
    }
  }

  /** No wakeup is lost: a free lock with waiters has a process that can re-check it. */
  lemma WakerExists(s: State, l: Name)
    requires Inv(s) && s.Get(l).value != 0 && s.Get(l).waiters != []
    ensures SomeoneCanMove(s)
  {
    assert QueueSound(s, l) && LockSound(s, l);
    var u :| u in s.procs && AtAcquire(s.procs[u], l) && u !in s.Get(l).waiters;
    assert !Blocked(s, u);
  }

  /** A blocked process waits for a taken lock, or someone else is on the way to re-check it. */
  lemma BlockedOnTaken(s: State, t: Tid)
    requires Inv(s) && t in s.procs && !SomeoneCanMove(s)
    ensures Code(s.procs[t]).Acquire? && s.Get(Code(s.procs[t]).lock).value == 0
  {
    hide Inv, QueueSound, LockSound;
    assert Blocked(s, t);
    var l := Code(s.procs[t]).lock;
    if s.Get(l).value != 0 {
      WakerExists(s, l);
    }
  }

  /** If everyone were blocked, nobody could be inside x or y. */
  lemma NobodyInside(s: State)
    requires Inv(s) && !SomeoneCanMove(s)
    ensures s.x.holder == None && s.y.holder == None
    ensures forall t, l | t in s.procs :: !Owns(s.procs[t], l)
  {
    forall t, l | t in s.procs
      ensures !Owns(s.procs[t], l)
    {
      if Owns(s.procs[t], l) {
        BlockedOnTaken(s, t);
        InsiderCanMove(s, t, l);
      }
    }
    HoldersOwn(s);
  }

  /** A process that owns a lock and asks for another finds that one free of any claim. */
  lemma InsiderCanMove(s: State, t: Tid, l: Name)
    requires Inv(s) && t in s.procs && Owns(s.procs[t], l) && Code(s.procs[t]).Acquire?
    requires forall u | u in s.procs :: Code(s.procs[u]).Acquire?
    ensures s.Get(Code(s.procs[t]).lock).value == 1
  {
    var p := s.procs[t];
    assert Sensible(s, p);
    assert LockSound(s, Code(p).lock);
    OwnerIsHolder(s, t, l);
  }

  lemma NoDeadlock(s: State)
    requires Inv(s) && s.procs.Keys != {}
    ensures SomeoneCanMove(s)
  {
    hide Inv, LockSound, QueueSound;
    if !SomeoneCanMove(s) {
      RdrIsFree(s);
      var t :| t in s.procs;
      OnlyReadersOutside(s, t);
      BlockedOnTaken(s, t);
    }
  }

  /** If everyone were blocked, all would be readers at the door. */
  lemma OnlyReadersOutside(s: State, t: Tid)
    requires Inv(s) && !SomeoneCanMove(s) && t in s.procs
    ensures !s.procs[t].writer && s.procs[t].pc == 0
  {
    NobodyInside(s);
    BlockedOnTaken(s, t);
    NobodyCounted(s);
    var l := Code(s.procs[t]).lock;
    assert LockSound(s, l) && Sensible(s, s.procs[t]);
    assert !Owns(s.procs[s.Get(l).holder.value], l) && GroupHolds(s, l);
    assert !Owns(s.procs[t], X) && !Owns(s.procs[t], Y);
  }

  /** ... and the door would be open. */
  lemma RdrIsFree(s: State)
    requires Inv(s) && !SomeoneCanMove(s)
    ensures s.rdr.value == 1
  {
    forall t | t in s.procs
      ensures !s.procs[t].writer && s.procs[t].pc == 0
    {
      OnlyReadersOutside(s, t);
    }
    NobodyInside(s);
    assert CountedOf(s, true) == {};
    assert LockSound(s, Rdr) && s.Get(Rdr) == s.rdr;
  }

  lemma NobodyCounted(s: State)
    requires Inv(s) && !SomeoneCanMove(s)
    ensures s.readers == 0
  {
    NobodyInside(s);
    forall t | t in s.procs && !s.procs[t].writer
      ensures !Counted(s.procs[t])
    {
      BlockedOnTaken(s, t);
      assert Sensible(s, s.procs[t]) && LockSound(s, X);
    }
    assert CountedOf(s, false) == {};
  }

  ghost predicate Run(trace: seq<State>) {
    trace != [] && Init(trace[0]) && forall i: nat | i + 1 < |trace| :: Step(trace[i], trace[i + 1])
  }

  /** In every state of every run: exclusion, plain use of the locks, and someone who can move. */
  lemma {:induction false} EveryRunIsCorrect(trace: seq<State>, n: nat)
    requires Run(trace) && n < |trace|
    ensures Inv(trace[n]) && Correct(trace[n])
  {
    if n == 0 {
      Starts(trace[0]);
    } else {
      EveryRunIsCorrect(trace, n - 1);
      var i := n - 1;
      assert Step(trace[i], trace[i + 1]);
      var t :| t in trace[n - 1].procs && !Blocked(trace[n - 1], t) && trace[n] == Next(trace[n - 1], t);
      StepKeeps(trace[n - 1], t);
    }
    InvIsExclusive(trace[n]);
    InvIsPlain(trace[n]);
    if trace[n].procs.Keys != {} {
      NoDeadlock(trace[n]);
    }
  }

  lemma Starts(s: State)
    requires Init(s)
    ensures Inv(s)
  {
    assert CountedOf(s, true) == {} && CountedOf(s, false) == {};
    forall l
      ensures LockSound(s, l) && QueueSound(s, l)
    {
      assert s.Get(l) == InitialLock();
    }
  }
}
