/**
 * thread/sync.c: the lock built on a binary semaphore, under preemption between any two memory accesses.
 * Only the bodies of semaphore_down and semaphore_up run with interrupts off.
 */
module Locks {
  import opened Options
  import opened Sequences

  type Tid = nat

  datatype Lock = Lock(value: nat, waiters: seq<Tid>, holder: Option<Tid>, cnt: int)

  /** lock_init */
  function InitialLock(): Lock { Lock(1, [], None, 0) }

  /** Where a thread stands: between calls, or before the named step of lock_acquire or lock_release. */
  datatype Pc =
    | Idle
    | TestHolder | Down | Waiting | SetHolder | AssertZero | SetOne | LoadAgain | StoreAgain
    | TestDepth | LoadDepth | StoreDepth | AssertOne | ClearHolder | ClearCnt | Up

  /** `depth` is the client's own count of acquires completed and not yet released; `reg` a register. */
  datatype Thread = Thread(pc: Pc, depth: int, reg: int)

  datatype State = State(lock: Lock, threads: map<Tid, Thread>)

  ghost predicate Init(s: State) {
    s.lock == InitialLock() && forall t | t in s.threads :: s.threads[t] == Thread(Idle, 0, 0)
  }

  function At(s: State, t: Tid, pc: Pc): State
    requires t in s.threads
  {
    s.(threads := s.threads[t := s.threads[t].(pc := pc)])
  }

  function WithDepth(s: State, t: Tid, pc: Pc, depth: int): State
    requires t in s.threads
  {
    s.(threads := s.threads[t := s.threads[t].(pc := pc, depth := depth)])
  }

  function WithReg(s: State, t: Tid, pc: Pc, reg: int): State
    requires t in s.threads
  {
    s.(threads := s.threads[t := s.threads[t].(pc := pc, reg := reg)])
  }

  /** One pass of semaphore_down's loop: block at the tail of the waiters, or take the value. */
  function DownStep(s: State, t: Tid): State
    requires t in s.threads
  {
    if s.lock.value == 0 then At(s.(lock := s.lock.(waiters := s.lock.waiters + [t])), t, Waiting)
    else At(s.(lock := s.lock.(value := s.lock.value - 1)), t, SetHolder)
  }

  /** semaphore_up: the first waiter is made ready to re-check, then the value goes up. */
  function UpStep(s: State, t: Tid): State
    requires t in s.threads
  {
    var w := s.lock.waiters;
    var s1 := if w == [] || w[0] !in s.threads then s else At(s.(lock := s.lock.(waiters := w[1..])), w[0], Down);
    WithDepth(s1.(lock := s1.lock.(value := s1.lock.value + 1)), t, Idle, s.threads[t].depth - 1)
  }

  /** The next step of `t` inside a call, or its call of lock_acquire; a waiting thread stays. */
  function Next(s: State, t: Tid): State
    requires t in s.threads
  {
    var th := s.threads[t];
    match th.pc
    case Idle => At(s, t, TestHolder)
    case TestHolder => At(s, t, if s.lock.holder == Some(t) then LoadAgain else Down)
    case Down => DownStep(s, t)
    case Waiting => s
    case SetHolder => At(s.(lock := s.lock.(holder := Some(t))), t, AssertZero)
    case AssertZero => At(s, t, SetOne)
    case SetOne => WithDepth(s.(lock := s.lock.(cnt := 1)), t, Idle, th.depth + 1)
    case LoadAgain => WithReg(s, t, StoreAgain, s.lock.cnt)
    case StoreAgain => WithDepth(s.(lock := s.lock.(cnt := th.reg + 1)), t, Idle, th.depth + 1)
    case TestDepth => At(s, t, if s.lock.cnt > 1 then LoadDepth else AssertOne)
    case LoadDepth => WithReg(s, t, StoreDepth, s.lock.cnt)
    case StoreDepth => WithDepth(s.(lock := s.lock.(cnt := th.reg - 1)), t, Idle, th.depth - 1)
    case AssertOne => At(s, t, ClearHolder)
    case ClearHolder => At(s.(lock := s.lock.(holder := None)), t, ClearCnt)
    case ClearCnt => At(s.(lock := s.lock.(cnt := 0)), t, Up)
    case Up => UpStep(s, t)
  }

  /** Thread `t` moves. A client calls lock_release only on what it has acquired. */
  ghost predicate Step(s: State, s': State, t: Tid) {
    && t in s.threads && !s.threads[t].pc.Waiting?
    && (s' == Next(s, t) || (s.threads[t].pc.Idle? && s.threads[t].depth > 0 && s' == At(s, t, TestDepth)))
  }

  // ---- the invariant ----

  /** The thread took the semaphore and has not given it back. */
  predicate Owns(th: Thread) { th.depth > 0 || th.pc.SetHolder? || th.pc.AssertZero? || th.pc.SetOne? }

  /** The holder field names this thread. */
  predicate Named(th: Thread) {
    if th.depth > 0 then !(th.pc.ClearCnt? || th.pc.Up?) else th.pc.AssertZero? || th.pc.SetOne?
  }

  /** What the repeat count reads while this thread owns the lock. */
  function CountFor(th: Thread): int { if th.pc == Up then 0 else th.depth }

  predicate Sensible(th: Thread) {
    match th.pc
    case Idle | TestHolder => th.depth >= 0
    case Down | Waiting | SetHolder | AssertZero | SetOne => th.depth == 0
    case LoadAgain => th.depth > 0
    case StoreAgain => th.depth > 0 && th.reg == th.depth
    case TestDepth => th.depth > 0
    case LoadDepth => th.depth > 1
    case StoreDepth => th.depth > 1 && th.reg == th.depth
    case AssertOne | ClearHolder | ClearCnt | Up => th.depth == 1
  }

  /** The value is 1 and nobody owns the lock, or it is 0 and `o` alone does. */
  ghost predicate OwnedBy(s: State, o: Option<Tid>) {
    match o
    case None => s.lock.value == 1 && s.lock.holder == None && s.lock.cnt == 0 && forall t | t in s.threads ::
      !Owns(s.threads[t])
    case Some(h) =>
      && s.lock.value == 0 && h in s.threads && Owns(s.threads[h])
      && (forall t | t in s.threads && Owns(s.threads[t]) :: t == h)
      && s.lock.holder == (if Named(s.threads[h]) then Some(h) else None)
      && s.lock.cnt == CountFor(s.threads[h])
  }

  ghost predicate Queue(s: State) {
    && NoDuplicates(s.lock.waiters)
    && (forall t | t in s.lock.waiters :: t in s.threads && s.threads[t].pc == Waiting)
    && (forall t | t in s.threads && s.threads[t].pc == Waiting :: t in s.lock.waiters)
  }

  /** A free lock with waiters has a thread on its way to re-check the value. */
  ghost predicate NoLostWakeup(s: State) {
    s.lock.value == 1 && s.lock.waiters != [] ==> exists t :: t in s.threads && s.threads[t].pc == Down
  }

  ghost predicate Inv(s: State) {
    && (exists o :: OwnedBy(s, o))
    && (forall t | t in s.threads :: Sensible(s.threads[t]))
    && Queue(s) && NoLostWakeup(s)
  }

  /** Every ASSERT a thread is about to evaluate holds. */
  ghost predicate AssertsHold(s: State) {
    forall t | t in s.threads :: AssertHolds(s.lock, t, s.threads[t].pc)
  }

  predicate AssertHolds(l: Lock, t: Tid, pc: Pc) {
    match pc
    case Down => t !in l.waiters && (l.value > 0 ==> l.value - 1 == 0)
    case AssertZero => l.cnt == 0
    case AssertOne => l.cnt == 1
    case _ => true
  }

  // ---- steps keep it ----

  /** A step of `t` that touches neither the queue nor ownership. */
  lemma PrivateStep(s: State, s': State, t: Tid, o: Option<Tid>)
    requires Inv(s) && OwnedBy(s, o) && t in s.threads && s'.threads.Keys == s.threads.Keys
    requires forall u | u in s.threads && u != t :: s'.threads[u] == s.threads[u]
    requires s'.lock.value == s.lock.value && s'.lock.waiters == s.lock.waiters
    requires Owns(s'.threads[t]) == Owns(s.threads[t]) && Sensible(s'.threads[t])
    requires !s.threads[t].pc.Waiting? && !s.threads[t].pc.Down? && s'.threads[t].pc != Waiting
    requires o == Some(t) ==> s'.lock.holder == (if Named(s'.threads[t]) then Some(t) else None)
    requires o == Some(t) ==> s'.lock.cnt == CountFor(s'.threads[t])
    requires o != Some(t) ==> s'.lock.holder == s.lock.holder && s'.lock.cnt == s.lock.cnt
    ensures Inv(s')
  {
    assert OwnedBy(s', o);
    if s.lock.value == 1 && s.lock.waiters != [] {
      var u :| u in s.threads && s.threads[u].pc == Down;
      assert s'.threads[u].pc == Down;
    }
  }

  lemma DownKeeps(s: State, t: Tid, o: Option<Tid>)
    requires Inv(s) && OwnedBy(s, o) && t in s.threads && s.threads[t].pc == Down
    ensures Inv(DownStep(s, t))
  {
    var s' := DownStep(s, t);
    if s.lock.value == 0 {
      assert OwnedBy(s', o);
      assert s'.lock.waiters == s.lock.waiters + [t];
    } else {
      assert OwnedBy(s', Some(t));
    }
  }

  lemma UpKeeps(s: State, t: Tid, o: Option<Tid>)
    requires Inv(s) && OwnedBy(s, o) && t in s.threads && s.threads[t].pc == Up
    ensures Inv(UpStep(s, t))
  {
    assert s.lock.waiters != [] ==> s.lock.waiters[0] in s.lock.waiters;
    var s' := UpStep(s, t);
    assert OwnedBy(s', None);
    var w := s.lock.waiters;
    if w != [] {
      assert w == [w[0]] + w[1..];
      assert s'.threads[w[0]].pc == Down;
    }
  }

  lemma Owner(s: State) returns (o: Option<Tid>)
    requires Inv(s)
    ensures OwnedBy(s, o)
  {
    o :| OwnedBy(s, o);
  }

  lemma Sense(s: State, t: Tid)
    requires Inv(s) && t in s.threads
    ensures Sensible(s.threads[t])
  {
  }

  /** Every other statement moves its thread alone. */
  lemma MovesAlone(s: State, s': State, t: Tid, o: Option<Tid>)
    requires Inv(s) && OwnedBy(s, o) && Step(s, s', t) && Sensible(s.threads[t])
    requires !s.threads[t].pc.Down? && !s.threads[t].pc.Up?
    ensures Inv(s')
  {
    hide Inv;
    PrivateStep(s, s', t, o);
  }

  lemma StepKeeps(s: State, s': State, t: Tid)
    requires Inv(s) && Step(s, s', t)
    ensures Inv(s')
  {
    hide Inv, OwnedBy;
    var o := Owner(s);
    Sense(s, t);
    if s.threads[t].pc == Down {
      DownKeeps(s, t, o);
    } else if s.threads[t].pc == Up {
      UpKeeps(s, t, o);
    } else {
      MovesAlone(s, s', t, o);
    }
  }

  /** In every reachable state the lock's promises hold. */
  ghost predicate Correct(s: State) {
    && s.lock.value <= 1
    && (forall t, u | t in s.threads && u in s.threads && s.threads[t].depth > 0 && s.threads[u].depth > 0 :: t == u)
    && (forall t | t in s.threads && s.threads[t].pc == Idle && s.threads[t].depth > 0 ::
          s.lock.holder == Some(t) && s.lock.cnt == s.threads[t].depth && s.lock.value == 0)
    && AssertsHold(s) && NoLostWakeup(s)
    && (s.lock.waiters != [] ==> exists t ::
         t in s.threads && s.threads[t].pc != Waiting && (Owns(s.threads[t]) || s.threads[t].pc == Down))
  }

  lemma InvIsCorrect(s: State)
    requires Inv(s)
    ensures Correct(s)
  {
    var o :| OwnedBy(s, o);
    if s.lock.waiters != [] {
      match o
      case Some(h) =>
        assert h in s.threads && s.threads[h].pc != Waiting && Owns(s.threads[h]);
      case None =>
        var t :| t in s.threads && s.threads[t].pc == Down;
        assert s.threads[t].pc != Waiting;
    }
  }

  ghost predicate Steps(s: State, s': State) { exists t :: Step(s, s', t) }

  /** Any interleaving of any number of well-bracketed clients. */
  ghost predicate Run(trace: seq<State>) {
    && trace != [] && Init(trace[0])
    && forall i: nat | i + 1 < |trace| :: Steps(trace[i], trace[i + 1])
  }

  lemma {:induction false} EveryRunIsCorrect(trace: seq<State>, n: nat)
    requires Run(trace) && n < |trace|
    ensures Inv(trace[n]) && Correct(trace[n])
  {
    if n == 0 {
      assert OwnedBy(trace[0], None);
    } else {
      EveryRunIsCorrect(trace, n - 1);
      var i := n - 1;
      var t :| Step(trace[i], trace[i + 1], t);
      StepKeeps(trace[n - 1], trace[n], t);
    }
    InvIsCorrect(trace[n]);
  }
}
