/**
 * What each call of thread/thread.c and thread/sync.c does to the CPU, the ready list, the slices and the semaphores.
 */
module SchedulerLaws {
  import opened Sequences
  import opened Scheduler

  /** The threads' states after `by` left the CPU in state `st` and `next` took it. */
  ghost predicate Handed(s: State, r: State, st: Status, next: Tid) {
    && r.running == next && r.status.Keys == s.status.Keys && r.all == s.all && r.priority == s.priority
    && forall t | t in s.status ::
         r.status[t] == if t == next then RUNNING else if t == s.running then st else s.status[t]
  }

  predicate SameSemaphores(s: State, r: State) { r.value == s.value && r.waiters == s.waiters }

  lemma Known(s: State)
    requires Inv(s)
    ensures s.running in s.status && s.status[s.running].RUNNING? && s.running in s.priority && s.running in s.ticks
    ensures s.running !in s.ready && s.idle in s.status && forall t | t in s.ready :: t in s.status
  {
    RunningKnown(s);
  }

  /** A thread whose slice ended goes to the tail with its slice full again, and the head of the list runs. */
  lemma PreemptedLaw(s: State)
    requires Inv(s)
    ensures s.running in s.priority
    ensures var r, queue := Schedule(s), s.ready + [s.running];
            && Handed(s, r, READY, queue[0]) && r.ready == queue[1..] && SameSemaphores(s, r)
            && r.ticks == s.ticks[s.running := s.priority[s.running]]
  {
    hide Inv;
    Known(s);
    assert s.ready != [] ==> s.ready[0] in s.ready;
  }

  /** A thread that yields goes to the tail, keeps what is left of its slice, and the head of the list runs. */
  lemma YieldLaw(s: State)
    requires Inv(s)
    ensures s.running in s.priority
    ensures var r, queue := Yield(s), s.ready + [s.running];
            && Handed(s, r, READY, queue[0]) && r.ready == queue[1..] && SameSemaphores(s, r) && r.ticks == s.ticks
  {
    hide Inv;
    Known(s);
    assert s.ready != [] ==> s.ready[0] in s.ready;
  }

  /** So a yield lets every other ready thread run before the caller runs again. */
  lemma YieldLetsGo(s: State, k: nat)
    requires Inv(s) && k < |s.ready|
    ensures s.running in s.priority && Inv(Yield(s)) && Preemptions(Yield(s), k).running == s.ready[k]
  {
    YieldLaw(s);
    YieldKeeps(s);
    RoundRobin(Yield(s), k);
  }

  /** A thread that blocks has the state it asked for, and the head of the list runs, or idle when the list is empty. */
  lemma BlockLaw(s: State, st: Status)
    requires Inv(s) && (st.BLOCKED? || st.WAITING? || st.HANGING?) && (s.running == s.idle ==> st.BLOCKED?)
    ensures s.running in s.priority
    ensures var r := Block(s, st);
            && Handed(s, r, st, if s.ready == [] then s.idle else s.ready[0])
            && r.ready == (if s.ready == [] then [] else s.ready[1..]) && r.ticks == s.ticks && SameSemaphores(s, r)
  {
    hide Inv, Schedule;
    Known(s);
    assert s.ready != [] ==> s.ready[0] in s.ready;
    DispatchedAfter(s.(status := s.status[s.running := st]));
  }

  /** A thread that is woken is READY in front of all others, so it is the next to run, however the CPU is given up. */
  lemma UnblockLaw(s: State, t: Tid, st: Status)
    requires Inv(s) && t in s.status && !s.status[t].READY? && !s.status[t].RUNNING? && OffLists(s, t)
    requires (st.BLOCKED? || st.WAITING? || st.HANGING?) && (s.running == s.idle ==> st.BLOCKED?)
    ensures var r := Unblock(s, t);
            && Inv(r) && r == s.(ready := r.ready, status := r.status) && r.ready == [t] + s.ready
            && r.status[t] == READY
            && (forall u | u in s.status && u != t :: u in r.status && r.status[u] == s.status[u])
            && r.running in r.priority && Schedule(r).running == t && Yield(r).running == t && Block(r, st).running == t
  {
    hide Inv, Schedule, Yield, Block, OffLists;
    UnblockKeeps(s, t);
    var r := Unblock(s, t);
    PreemptedLaw(r);
    YieldLaw(r);
    BlockLaw(r, st);
  }

  /** A new thread is last on both lists with a full slice, and nothing else changes. */
  lemma StartLaw(s: State, t: Tid, priority: nat)
    requires Inv(s) && t !in s.status
    ensures var r := Start(s, t, priority);
            && Inv(r) && r.running == s.running && SameSemaphores(s, r)
            && r.ready == s.ready + [t] && r.all == s.all + [t] && r.status == s.status[t := READY]
            && r.ticks == s.ticks[t := priority] && r.priority == s.priority[t := priority]
            && Preemptions(r, |s.ready| + 1).running == t
  {
    StartKeeps(s, t, priority);
    var r := Start(s, t, priority);
    RoundRobin(r, |s.ready| + 1);
    assert ([r.running] + r.ready)[|s.ready| + 1] == t;
  }

  lemma {:induction false} RemovedFrom(a: seq<Tid>, t: Tid, b: seq<Tid>)
    requires t !in a
    ensures Remove(a + [t] + b, t) == a + b
  {
    if a == [] {
      assert [] + [t] + b == [t] + b;
    } else {
      RemovedFrom(a[1..], t, b);
      assert (a + [t] + b)[1..] == a[1..] + [t] + b;
      assert a + b == [a[0]] + (a[1..] + b);
    }
  }

  /**
   * A thread that ends leaves both lists, the order of the others kept; if it was running the head of the list runs.
   */
  lemma ExitLaw(s: State, t: Tid, a: seq<Tid>, b: seq<Tid>)
    requires Inv(s) && t in s.status && t != s.idle && (forall m | m in s.waiters :: t !in s.waiters[m])
    requires if t in s.ready then s.ready == a + [t] + b && t !in a else a == s.ready && b == []
    ensures s.running in s.priority
    ensures var r := Exit(s, t);
            && Inv(r) && r.status.Keys == s.status.Keys - {t} && r.all == Remove(s.all, t) && SameSemaphores(s, r)
            && (t != s.running ==> r.running == s.running && r.ready == a + b)
            && (t == s.running ==> r.running == (if a + b == [] then s.idle else (a + b)[0]))
            && (t == s.running && a + b != [] ==> r.ready == (a + b)[1..])
            && (forall u | u in r.status && u != r.running :: r.status[u] == s.status[u] && r.ticks[u] == s.ticks[u])
  {
    hide Inv, Remove, Schedule;
    ExitKeeps(s, t);
    RemovedFrom(a, t, b);
    RemoveAbsent(s.ready, t);
    GoneLaw(s, t);
    GoneTicks(s, t);
    Known(s);
    assert a + [] == a;
    if t == s.running {
      DispatchedAfter(Gone(s, t));
    }
  }

  lemma GoneTicks(s: State, t: Tid)
    requires Inv(s) && t in s.status
    ensures s.ticks.Keys == s.status.Keys && s.priority.Keys == s.status.Keys
  {
  }

  lemma GoneLaw(s: State, t: Tid)
    requires Inv(s) && t in s.status
    ensures var g := Gone(s, t);
            g.status == s.status - {t} && g.ticks == s.ticks - {t} && g.ready == Remove(s.ready, t) &&
              g.running == s.running
  {
  }

  /** schedule when the thread on the CPU is not RUNNING any more. */
  lemma DispatchedAfter(g: State)
    requires g.running in g.status ==> !g.status[g.running].RUNNING? && g.running in g.priority
    ensures var r := Schedule(g);
            && r.running == (if g.ready == [] then g.idle else g.ready[0]) && r.ticks == g.ticks
            && r.ready == (if g.ready == [] then [] else g.ready[1..])
            && r.status == g.status[r.running := RUNNING] && r.all == g.all && r.priority == g.priority
            && SameSemaphores(g, r)
  {
  }

  // ---- semaphores ----

  /** semaphore_down takes one off a positive value and nothing else; at 0 the caller is the last waiter, BLOCKED. */
  lemma DownLaw(s: State, m: Sem)
    requires Inv(s) && m in s.waiters && s.running != s.idle
    ensures m in s.value && s.running in s.priority
    ensures var r := Down(s, m);
            if s.value[m] > 0 then r == s.(value := r.value) && r.value == s.value[m := s.value[m] - 1]
            else
              && Handed(s, r, BLOCKED, if s.ready == [] then s.idle else s.ready[0]) && r.value == s.value
              && r.waiters == s.waiters[m := s.waiters[m] + [s.running]] && r.ticks == s.ticks
              && r.ready == (if s.ready == [] then [] else s.ready[1..])
  {
    hide Inv;
    Known(s);
    HasValue(s, m);
    assert s.ready != [] ==> s.ready[0] in s.ready;
  }

  /** semaphore_up adds one, and the longest waiter, if any, is READY in front of all others. */
  lemma UpLaw(s: State, m: Sem)
    requires Inv(s) && m in s.waiters
    ensures m in s.value
    ensures var r, w := Up(s, m), s.waiters[m];
            && r.value == s.value[m := s.value[m] + 1] && r.running == s.running && r.ticks == s.ticks && r.all == s.all
            && (w == [] ==> r == s.(value := r.value))
            && (w != [] ==> r.waiters == s.waiters[m := w[1..]] && r.ready == [w[0]] + s.ready &&
                            r.status == s.status[w[0] := READY])
  {
    hide Inv;
    HasValue(s, m);
  }

  /** The events of a run in which nobody takes from semaphore `m`. */
  predicate NoDowns(events: seq<Event>, m: Sem) { forall i: nat | i < |events| :: events[i] != Downs(m) }

  lemma ScheduleValue(s: State)
    requires s.running in s.status ==> s.running in s.priority
    ensures SameSemaphores(s, Schedule(s))
  {
  }

  lemma ValueKept(s: State, e: Event, m: Sem)
    requires Inv(s) && Allowed(s, e) && m in s.waiters && m in s.value
    ensures m in Apply(s, e).waiters && m in Apply(s, e).value
    ensures Apply(s, e).value[m] ==
            s.value[m] + (if e == Ups(m) then 1 else 0) - (if e == Downs(m) && s.value[m] > 0 then 1 else 0)
  {
    hide Inv, Schedule;
    Known(s);
    match e
    case Ticks =>
      ScheduleValue(s);
    case Yields =>
      ScheduleValue(s.(ready := s.ready + [s.running], status := s.status[s.running := READY]));
    case Blocks(to) =>
      ScheduleValue(s.(status := s.status[s.running := to]));
    case Exits(t) =>
      if t == s.running {
        ScheduleValue(Gone(s, t));
      }
    case Downs(n) =>
      ScheduleValue(s.(waiters := s.waiters[n := s.waiters[n] + [s.running]],
        status := s.status[s.running := BLOCKED]));
    case _ =>
  }

  lemma {:induction false} ValueGrows(s: State, events: seq<Event>, s': State, m: Sem)
    requires Inv(s) && Run(s, events, s') && NoDowns(events, m) && m in s.waiters && m in s.value
    ensures Inv(s') && m in s'.waiters && m in s'.value && s'.value[m] >= s.value[m]
    decreases |events|
  {
    hide Inv, Allowed, Apply;
    if events != [] {
      ApplyKeeps(s, events[0]);
      ValueKept(s, events[0], m);
      assert forall i: nat | i < |events[1..]| :: events[1..][i] == events[i + 1];
      ValueGrows(Apply(s, events[0]), events[1..], s', m);
    }
  }

  /**
   * A woken waiter gets through: it is the next to run, and whenever it next runs its test of the value succeeds,
   * unless another thread took from the semaphore in between.
   */
  lemma WokenGetsThrough(s: State, m: Sem, events: seq<Event>, s': State)
    requires Inv(s) && m in s.waiters && s.waiters[m] != [] && m in s.value
    requires Inv(Up(s, m)) && Run(Up(s, m), events, s') && NoDowns(events, m)
    requires s'.running == s.waiters[m][0] && s'.running != s'.idle
    ensures Up(s, m).running in Up(s, m).priority && Schedule(Up(s, m)).running == s.waiters[m][0]
    ensures Inv(s') && m in s'.waiters && m in s'.value && s'.running in s'.priority && s'.value[m] > 0
    ensures Down(s', m).running == s'.running && Down(s', m).value[m] == s'.value[m] - 1
  {
    hide Inv, Run, Schedule, Up, Down;
    UpLaw(s, m);
    PreemptedLaw(Up(s, m));
    ValueGrows(Up(s, m), events, s', m);
    DownLaw(s', m);
  }

  // ---- units of a semaphore over a run ----

  /** How often `m` was taken, and how often raised, in a run from `s`. */
  ghost function Takes(s: State, events: seq<Event>, m: Sem): nat
    requires Inv(s)
    decreases |events|
  {
    if events == [] || !Allowed(s, events[0]) then 0 else
      ApplyKeeps(s, events[0]);
      (if events[0] == Downs(m) && m in s.value && s.value[m] > 0 then 1
        else 0) + Takes(Apply(s, events[0]), events[1..], m)
  }

  function Raises(events: seq<Event>, m: Sem): nat {
    if events == [] then 0 else (if events[0] == Ups(m) then 1 else 0) + Raises(events[1..], m)
  }

  /** In every run the value is what it was, and what was added, less what was taken. */
  lemma {:induction false} ValueBalances(s: State, events: seq<Event>, s': State, m: Sem)
    requires Inv(s) && Run(s, events, s') && m in s.waiters && m in s.value
    ensures Inv(s') && m in s'.value && s'.value[m] + Takes(s, events, m) == s.value[m] + Raises(events, m)
    decreases |events|
  {
    hide Inv, Allowed, Apply;
    if events != [] {
      ApplyKeeps(s, events[0]);
      ValueKept(s, events[0], m);
      ValueBalances(Apply(s, events[0]), events[1..], s', m);
    }
  }
}
