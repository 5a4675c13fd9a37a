/** What lock_acquire and lock_release of thread/sync.c do when their caller is not interrupted. */
module LockLaws {
  import opened Options
  import opened Locks

  /** Thread `t` makes `n` steps with nobody in between. */
  function Alone(s: State, t: Tid, n: nat): (r: State)
    requires t in s.threads
    ensures r.threads.Keys == s.threads.Keys
    decreases n
  {
    if n == 0 then s else Alone(Next(s, t), t, n - 1)
  }

  /** `t` stands between two calls with this depth, and no other thread differs from `s`. */
  predicate Returned(s: State, r: State, t: Tid, depth: int)
    requires t in s.threads
  {
    && r.threads.Keys == s.threads.Keys && r.threads[t].pc == Idle && r.threads[t].depth == depth
    && forall u | u in s.threads && u != t :: r.threads[u] == s.threads[u]
  }

  lemma SixSteps(s: State, t: Tid)
    requires t in s.threads
    ensures Alone(s, t, 3) == Next(Next(Next(s, t), t), t)
    ensures Alone(s, t, 4) == Next(Next(Next(Next(s, t), t), t), t)
    ensures Alone(s, t, 5) == Next(Alone(s, t, 4), t)
    ensures Alone(s, t, 6) == Next(Next(Next(Next(Next(Next(s, t), t), t), t), t), t)
  {
    hide Next;
  }

  /** A free lock is taken: the caller is its holder, once. */
  lemma AcquireFree(s: State, t: Tid)
    requires t in s.threads && s.threads[t].pc == Idle && s.lock.holder != Some(t) && s.lock.value == 1
    ensures var r := Alone(s, t, 6);
            Returned(s, r, t, s.threads[t].depth + 1) && r.lock == Lock(0, s.lock.waiters, Some(t), 1)
  {
    hide Alone;
    SixSteps(s, t);
  }

  /** The holder takes it again by counting. */
  lemma AcquireAgain(s: State, t: Tid)
    requires t in s.threads && s.threads[t].pc == Idle && s.lock.holder == Some(t)
    ensures var r := Alone(s, t, 4);
            Returned(s, r, t, s.threads[t].depth + 1) && r.lock == s.lock.(cnt := s.lock.cnt + 1)
  {
    hide Alone;
    SixSteps(s, t);
  }

  /** On a lock another thread holds the caller waits behind all who came before. */
  lemma AcquireHeld(s: State, t: Tid)
    requires t in s.threads && s.threads[t].pc == Idle && s.lock.holder != Some(t) && s.lock.value == 0
    ensures var r := Alone(s, t, 3);
            && r.threads == s.threads[t := s.threads[t].(pc := Waiting)]
            && r.lock == s.lock.(waiters := s.lock.waiters + [t])
  {
    hide Alone;
    SixSteps(s, t);
  }

  /** Two places of one thread, of which the later counts. */
  lemma Places(s: State, t: Tid, p: Pc, q: Pc)
    requires t in s.threads
    ensures At(At(s, t, p), t, q) == At(s, t, q)
  {
  }

  lemma UpIsNext(s: State, t: Tid)
    requires t in s.threads && s.threads[t].pc == Up
    ensures Next(s, t) == UpStep(s, t)
  {
  }

  lemma ReleaseSteps(s: State, t: Tid)
    requires t in s.threads
    ensures s.lock.cnt == 1 ==> Next(At(s, t, TestDepth), t) == At(s, t, AssertOne)
    ensures Next(At(s, t, AssertOne), t) == At(s, t, ClearHolder)
    ensures Next(At(s, t, ClearHolder), t) == At(s.(lock := s.lock.(holder := None)), t, ClearCnt)
    ensures Next(At(s, t, ClearCnt), t) == At(s.(lock := s.lock.(cnt := 0)), t, Up)
  {
    Places(s, t, TestDepth, AssertOne);
    Places(s, t, AssertOne, ClearHolder);
    Places(s.(lock := s.lock.(holder := None)), t, ClearHolder, ClearCnt);
    Places(s.(lock := s.lock.(cnt := 0)), t, ClearCnt, Up);
  }

  lemma CountSteps(s: State, t: Tid)
    requires t in s.threads
    ensures s.lock.cnt > 1 ==> Next(At(s, t, TestDepth), t) == At(s, t, LoadDepth)
    ensures Next(At(s, t, LoadDepth), t) == WithReg(s, t, StoreDepth, s.lock.cnt)
    ensures var n, depth := s.lock.cnt, s.threads[t].depth - 1;
            && Next(WithReg(s, t, StoreDepth, n), t)
            == WithDepth(WithReg(s.(lock := s.lock.(cnt := n - 1)), t, StoreDepth, n), t, Idle, depth)
  {
    Places(s, t, TestDepth, LoadDepth);
    assert WithReg(At(s, t, LoadDepth), t, StoreDepth, s.lock.cnt) == WithReg(s, t, StoreDepth, s.lock.cnt);
  }

  /** A release that is not the last one counts down and frees nothing. */
  lemma ReleaseInner(s: State, t: Tid)
    requires t in s.threads && s.threads[t].pc == Idle && s.lock.cnt > 1
    ensures var r := Alone(At(s, t, TestDepth), t, 3);
            Returned(s, r, t, s.threads[t].depth - 1) && r.lock == s.lock.(cnt := s.lock.cnt - 1)
  {
    hide Alone, Next;
    SixSteps(At(s, t, TestDepth), t);
    CountSteps(s, t);
  }

  /** A last release up to its semaphore_up. */
  lemma ReachesUp(s: State, t: Tid)
    requires t in s.threads && s.lock.cnt == 1
    ensures Alone(At(s, t, TestDepth), t, 4) == At(s.(lock := s.lock.(holder := None, cnt := 0)), t, Up)
  {
    hide Alone, Next;
    SixSteps(At(s, t, TestDepth), t);
    hide At;
    ReleaseSteps(s, t);
    ReleaseSteps(s.(lock := s.lock.(holder := None)), t);
  }

  /** The last release frees the lock and sends the first waiter, and no other, to try again. */
  lemma ReleaseLast(s: State, t: Tid)
    requires Inv(s) && t in s.threads && s.threads[t].pc == Idle && s.lock.cnt == 1 && s.lock.holder == Some(t)
    ensures var r, w := Alone(At(s, t, TestDepth), t, 5), s.lock.waiters;
            && r.lock == Lock(1, if w == [] then [] else w[1..], None, 0)
            && r.threads.Keys == s.threads.Keys && r.threads[t].pc == Idle
            && r.threads[t].depth == s.threads[t].depth - 1
            && (forall u | u in s.threads && u != t :: r.threads[u] ==
                 if w != [] && u == w[0] then s.threads[u].(pc := Down) else s.threads[u])
  {
    hide Inv, Alone, Next, UpStep;
    HolderOwns(s, t);
    SixSteps(At(s, t, TestDepth), t);
    ReachesUp(s, t);
    var s1 := At(s.(lock := s.lock.(holder := None, cnt := 0)), t, Up);
    UpIsNext(s1, t);
    UpEffect(s1, t);
  }

  /** semaphore_up by a thread that does not itself wait. */
  lemma UpEffect(s: State, t: Tid)
    requires t in s.threads && (s.lock.waiters != [] ==> s.lock.waiters[0] != t && s.lock.waiters[0] in s.threads)
    ensures var r, w := UpStep(s, t), s.lock.waiters;
            && r.lock == s.lock.(value := s.lock.value + 1, waiters := if w == [] then [] else w[1..])
            && r.threads.Keys == s.threads.Keys
            && r.threads[t] == s.threads[t].(pc := Idle, depth := s.threads[t].depth - 1)
            && (forall u | u in s.threads && u != t :: r.threads[u] ==
                 if w != [] && u == w[0] then s.threads[u].(pc := Down) else s.threads[u])
  {
    if s.lock.waiters != [] {
      assert s.lock.waiters[0] in s.threads;
    }
  }

  lemma HolderOwns(s: State, t: Tid)
    requires Inv(s) && t in s.threads && s.lock.holder == Some(t) && s.threads[t].pc == Idle
    ensures s.lock.value == 0
    ensures s.lock.waiters != [] ==> s.lock.waiters[0] != t && s.lock.waiters[0] in s.threads
  {
    var o :| OwnedBy(s, o);
    if s.lock.waiters != [] {
      assert s.lock.waiters[0] in s.lock.waiters;
    }
  }

  lemma RetryTakes(s: State, u: Tid)
    requires u in s.threads && s.threads[u].pc == Down && s.lock.value == 1
    ensures var r := Alone(s, u, 4);
            Returned(s, r, u, s.threads[u].depth + 1) && r.lock == Lock(0, s.lock.waiters, Some(u), 1)
  {
    hide Alone, Next;
    SixSteps(s, u);
    TakeSteps(s, u);
    TakeSteps(s.(lock := s.lock.(value := 0)), u);
    TakeSteps(s.(lock := s.lock.(value := 0, holder := Some(u))), u);
  }

  lemma TakeSteps(s: State, u: Tid)
    requires u in s.threads
    ensures s.threads[u].pc == Down && s.lock.value == 1 ==>
              Next(s, u) == At(s.(lock := s.lock.(value := 0)), u, SetHolder)
    ensures Next(At(s, u, SetHolder), u) == At(s.(lock := s.lock.(holder := Some(u))), u, AssertZero)
    ensures Next(At(s, u, AssertZero), u) == At(s, u, SetOne)
    ensures Next(At(s, u, SetOne), u) == WithDepth(s.(lock := s.lock.(cnt := 1)), u, Idle, s.threads[u].depth + 1)
  {
    Places(s.(lock := s.lock.(holder := Some(u))), u, SetHolder, AssertZero);
    Places(s, u, AssertZero, SetOne);
    var s1, n := s.(lock := s.lock.(cnt := 1)), s.threads[u].depth + 1;
    assert WithDepth(At(s1, u, SetOne), u, Idle, n) == WithDepth(s1, u, Idle, n);
  }

  /** The waiter sent to try again, if it is the next to run, leaves lock_acquire with the lock. */
  lemma FirstWaiterIsNext(s: State, t: Tid, u: Tid)
    requires Inv(s) && t in s.threads && s.threads[t].pc == Idle && s.lock.cnt == 1 && s.lock.holder == Some(t)
    requires s.lock.waiters != [] && s.lock.waiters[0] == u && u in s.threads
    ensures var r := Alone(Alone(At(s, t, TestDepth), t, 5), u, 4);
            && r.lock == Lock(0, s.lock.waiters[1..], Some(u), 1)
            && r.threads[u].pc == Idle && r.threads[u].depth == s.threads[u].depth + 1
            && r.threads[t].pc == Idle && r.threads[t].depth == s.threads[t].depth - 1
  {
    hide Alone, Next;
    assert u in s.lock.waiters;
    ReleaseLast(s, t);
    hide Inv;
    RetryTakes(Alone(At(s, t, TestDepth), t, 5), u);
  }

  // ---- nesting ----

  /** `n` calls of lock_acquire by `t`, one after the other. */
  function Acquires(s: State, t: Tid, n: nat): (r: State)
    requires t in s.threads
    ensures t in r.threads
  {
    if n == 0 then s
    else var r := Acquires(s, t, n - 1); Alone(r, t, if r.lock.holder == Some(t) then 4 else 6)
  }

  function Releases(s: State, t: Tid, n: nat): (r: State)
    requires t in s.threads
    ensures t in r.threads
    decreases n
  {
    if n == 0 then s
    else var r := At(s, t, TestDepth); Releases(Alone(r, t, if s.lock.cnt > 1 then 3 else 5), t, n - 1)
  }

  lemma {:induction false} AcquiresCount(s: State, t: Tid, n: nat)
    requires t in s.threads && s.threads[t].pc == Idle && s.lock == InitialLock() && n > 0
    ensures var r := Acquires(s, t, n);
            Returned(s, r, t, s.threads[t].depth + n) && r.lock == Lock(0, [], Some(t), n)
  {
    hide Alone, Next;
    if n == 1 {
      AcquireFree(s, t);
      assert Acquires(s, t, 0) == s;
    } else {
      AcquiresCount(s, t, n - 1);
      AcquireAgain(Acquires(s, t, n - 1), t);
    }
  }

  lemma ReleaseUnawaited(s: State, t: Tid)
    requires t in s.threads && s.threads[t].pc == Idle && s.lock == Lock(0, [], Some(t), 1)
    ensures var r := Alone(At(s, t, TestDepth), t, 5);
            Returned(s, r, t, s.threads[t].depth - 1) && r.lock == InitialLock()
  {
    hide Alone, Next;
    SixSteps(At(s, t, TestDepth), t);
    ReachesUp(s, t);
    UpIsNext(At(s.(lock := s.lock.(holder := None, cnt := 0)), t, Up), t);
  }

  lemma {:induction false} ReleasesCount(s: State, t: Tid, n: nat)
    requires t in s.threads && s.threads[t].pc == Idle && n > 0 && s.lock == Lock(0, [], Some(t), n)
    ensures var r := Releases(s, t, n); Returned(s, r, t, s.threads[t].depth - n) && r.lock == InitialLock()
    decreases n
  {
    hide Alone, Next;
    var r := Alone(At(s, t, TestDepth), t, if s.lock.cnt > 1 then 3 else 5);
    if n == 1 {
      ReleaseUnawaited(s, t);
      assert Releases(s, t, 1) == Releases(r, t, 0);
    } else {
      ReleaseInner(s, t);
      ReleasesCount(r, t, n - 1);
      assert Releases(s, t, n) == Releases(r, t, n - 1);
    }
  }

  /** However deep a thread nests its calls, as many releases leave the lock as lock_init made it. */
  lemma NestingUndone(s: State, t: Tid, n: nat)
    requires t in s.threads && s.threads[t].pc == Idle && s.lock == InitialLock()
    ensures var r := Releases(Acquires(s, t, n), t, n);
            Returned(s, r, t, s.threads[t].depth) && r.lock == InitialLock()
  {
    hide Alone, Next;
    if n > 0 {
      AcquiresCount(s, t, n);
      ReleasesCount(Acquires(s, t, n), t, n);
    }
  }
}
