/**
 * thread/thread.c and the timer: thread states, the ready list, the idle thread, and the wait lists of semaphores.
 */
module Scheduler {
  import opened Sequences

  type Tid = nat

  datatype Status = RUNNING | READY | BLOCKED | WAITING | HANGING

  type Sem = nat

  /** `running` is the thread on the CPU. A dead thread leaves `status`; each semaphore has a value and waiters. */
  datatype State = State(status: map<Tid, Status>, ready: seq<Tid>, all: seq<Tid>, running: Tid, idle: Tid,
                         ticks: map<Tid, nat>, priority: map<Tid, nat>, value: map<Sem, nat>, waiters: map<Sem,
                           seq<Tid>>)

  // ---- the invariant ----

  ghost predicate Listed(s: State) {
    && NoDuplicates(s.ready) && (forall t | t in s.ready :: t in s.status && s.status[t].READY?)
    && (forall t | t in s.status && s.status[t].READY? :: t in s.ready)
    && NoDuplicates(s.all) && (forall t :: t in s.all <==> t in s.status)
  }

  /** A waiter is blocked and on one wait list only. */
  ghost predicate Waits(s: State) {
    && s.value.Keys == s.waiters.Keys
    && (forall m | m in s.waiters :: NoDuplicates(s.waiters[m]) && AllBlocked(s, s.waiters[m]))
    && (forall m, n | m in s.waiters && n in s.waiters && m != n :: Disjoint(s.waiters[m], s.waiters[n]))
  }

  ghost predicate AllBlocked(s: State, w: seq<Tid>) {
    forall t | t in w :: t in s.status && s.status[t].BLOCKED? && t != s.idle
  }

  ghost predicate Disjoint(w: seq<Tid>, v: seq<Tid>) { forall t | t in w :: t !in v }

  ghost predicate IdleThere(s: State) {
    s.idle in s.status && (s.status[s.idle].RUNNING? || s.status[s.idle].READY? || s.status[s.idle].BLOCKED?)
  }

  ghost predicate Slices(s: State) {
    s.ticks.Keys == s.status.Keys && s.priority.Keys == s.status.Keys && forall t | t in s.status ::
      s.ticks[t] <= s.priority[t]
  }

  /** What holds even inside a switch, when nobody may be RUNNING. */
  ghost predicate Held(s: State) {
    && Listed(s) && Waits(s) && IdleThere(s) && Slices(s)
    && forall t | t in s.status && s.status[t].RUNNING? :: t == s.running
  }

  /** Between operations exactly one thread is RUNNING, the one on the CPU. */
  ghost predicate Inv(s: State) { Held(s) && s.running in s.status && s.status[s.running].RUNNING? }

  /** On no list but the all-list. */
  ghost predicate OffLists(s: State, t: Tid) { t !in s.ready && forall m | m in s.waiters :: t !in s.waiters[m] }

  // ---- operations ----

  /** A thread whose slice ended goes to the tail with a new slice. */
  function Requeue(s: State): State
    requires s.running in s.status ==> s.running in s.priority
  {
    if s.running in s.status && s.status[s.running].RUNNING? then
      s.(ready := s.ready + [s.running], ticks := s.ticks[s.running := s.priority[s.running]],
        status := s.status[s.running := READY])
    else s
  }

  /** idle is woken if nobody is ready. */
  function Rouse(s: State): (r: State)
    ensures r.ready != []
  {
    if s.ready == [] then Unblock(s, s.idle) else s
  }

  /** The head of the ready list gets the CPU. */
  function Dispatch(s: State): State
    requires s.ready != []
  {
    s.(running := s.ready[0], ready := s.ready[1..], status := s.status[s.ready[0] := RUNNING])
  }

  /** schedule */
  function Schedule(s: State): State
    requires s.running in s.status ==> s.running in s.priority
  {
    Dispatch(Rouse(Requeue(s)))
  }

  /** thread_yield */
  function Yield(s: State): State
    requires s.running in s.priority
  {
    Schedule(s.(ready := s.ready + [s.running], status := s.status[s.running := READY]))
  }

  /** thread_block */
  function Block(s: State, st: Status): State
    requires s.running in s.priority
  {
    Schedule(s.(status := s.status[s.running := st]))
  }

  /** thread_unblock: to the front of the ready list. */
  function Unblock(s: State, t: Tid): State { s.(ready := [t] + s.ready, status := s.status[t := READY]) }

  /** thread_start, and the tails of process_execute and sys_fork. */
  function Start(s: State, t: Tid, priority: nat): State {
    s.(status := s.status[t := READY], ready := s.ready + [t], all := s.all + [t],
       ticks := s.ticks[t := priority], priority := s.priority[t := priority])
  }

  function Gone(s: State, t: Tid): State {
    s.(status := s.status - {t}, ready := Remove(s.ready, t), all := Remove(s.all, t), ticks := s.ticks - {t},
      priority := s.priority - {t})
  }

  /** thread_exit; a thread that ends itself also switches away. */
  function Exit(s: State, t: Tid): State
    requires t != s.running ==> s.running in s.priority
  {
    if t == s.running then Schedule(Gone(s, t)) else Gone(s, t)
  }

  /** intr_timer_handler */
  function Tick(s: State): State
    requires s.running in s.ticks && s.running in s.priority
  {
    if s.ticks[s.running] == 0 then Schedule(s) else s.(ticks := s.ticks[s.running := s.ticks[s.running] - 1])
  }

  /** One pass of semaphore_down's loop. */
  function Down(s: State, m: Sem): State
    requires m in s.waiters && m in s.value && s.running in s.priority
  {
    if s.value[m] == 0 then Block(s.(waiters := s.waiters[m := s.waiters[m] + [s.running]]), BLOCKED)
    else s.(value := s.value[m := s.value[m] - 1])
  }

  /** semaphore_up */
  function Up(s: State, m: Sem): State
    requires m in s.waiters && m in s.value
  {
    var w := s.waiters[m];
    var s1 := if w == [] then s else Unblock(s.(waiters := s.waiters[m := w[1..]]), w[0]);
    s1.(value := s1.value[m := s1.value[m] + 1])
  }

  // ---- they keep the invariant ----

  /** Nobody is RUNNING. */
  ghost predicate Paused(s: State) { Held(s) && forall t | t in s.status :: !s.status[t].RUNNING? }

  lemma RequeueListed(s: State)
    requires Listed(s) && s.running in s.status && s.status[s.running].RUNNING? && s.running in s.priority
    ensures Listed(Requeue(s))
  {
    assert s.running !in s.ready;
  }

  lemma RequeueWaits(s: State)
    requires Waits(s) && s.running in s.status && s.status[s.running].RUNNING? && s.running in s.priority
    ensures Waits(Requeue(s))
  {
    hide NoDuplicates, Disjoint;
  }

  lemma RequeueKeeps(s: State)
    requires Held(s)
    ensures Paused(Requeue(s))
  {
    hide Listed, Waits;
    if s.running in s.status && s.status[s.running].RUNNING? {
      RequeueListed(s);
      RequeueWaits(s);
    }
  }

  /** schedule's wake-up of idle is sound: an empty ready list means that idle is blocked. */
  lemma RouseKeeps(s: State)
    requires Paused(s)
    ensures s.ready == [] ==> s.status[s.idle].BLOCKED? && OffLists(s, s.idle)
    ensures Paused(Rouse(s))
  {
    assert s.ready == [] ==> s.idle !in s.ready;
  }

  lemma DispatchListed(s: State)
    requires Listed(s) && s.ready != [] && s.ready[0] in s.status
    ensures Listed(Dispatch(s))
  {
    var first, rest := s.ready[0], s.ready[1..];
    assert s.ready == [first] + rest;
    assert first !in rest && NoDuplicates(rest);
  }

  lemma DispatchWaits(s: State)
    requires Listed(s) && Waits(s) && s.ready != []
    ensures s.ready[0] in s.status && s.status[s.ready[0]].READY? && Waits(Dispatch(s))
  {
    hide NoDuplicates, Disjoint;
    assert s.ready[0] in s.ready;
  }

  lemma DispatchKeeps(s: State)
    requires Paused(s) && s.ready != []
    ensures Inv(Dispatch(s))
  {
    hide Listed, Waits;
    DispatchWaits(s);
    DispatchListed(s);
  }

  /** Whatever state the last thread left behind, schedule finds a thread to run. */
  lemma ScheduleKeeps(s: State)
    requires Held(s)
    ensures Inv(Schedule(s))
  {
    RequeueKeeps(s);
    RouseKeeps(Requeue(s));
    DispatchKeeps(Rouse(Requeue(s)));
  }

  lemma RunningKnown(s: State)
    requires Inv(s)
    ensures Held(s) && s.running in s.status && s.running in s.priority && s.running in s.ticks
    ensures OffLists(s, s.running)
  {
    forall m | m in s.waiters
      ensures s.running !in s.waiters[m]
    {
      assert AllBlocked(s, s.waiters[m]);
    }
  }

  lemma Clean(s: State)
    requires Held(s)
    ensures s.idle in s.status && (s.running in s.status ==> s.running in s.priority)
    ensures s.running in s.status && s.status[s.running].RUNNING? ==> s.running !in s.ready
  {
  }

  lemma Yielded(s: State)
    requires Inv(s)
    ensures Held(s.(ready := s.ready + [s.running], status := s.status[s.running := READY]))
  {
  }

  lemma YieldKeeps(s: State)
    requires Inv(s)
    ensures Inv(Yield(s))
  {
    Yielded(s);
    ScheduleKeeps(s.(ready := s.ready + [s.running], status := s.status[s.running := READY]));
  }

  lemma BlockedSelf(s: State, st: Status)
    requires Inv(s) && (st.BLOCKED? || st.WAITING? || st.HANGING?) && (s.running == s.idle ==> st.BLOCKED?)
    ensures Held(s.(status := s.status[s.running := st]))
  {
  }

  lemma BlockKeeps(s: State, st: Status)
    requires Inv(s) && (st.BLOCKED? || st.WAITING? || st.HANGING?) && (s.running == s.idle ==> st.BLOCKED?)
    ensures Inv(Block(s, st))
  {
    BlockedSelf(s, st);
    ScheduleKeeps(s.(status := s.status[s.running := st]));
  }

  lemma UnblockKeeps(s: State, t: Tid)
    requires Inv(s) && t in s.status && !s.status[t].READY? && !s.status[t].RUNNING? && OffLists(s, t)
    ensures Inv(Unblock(s, t))
  {
  }

  lemma Stranger(s: State, t: Tid)
    requires Inv(s) && t !in s.status
    ensures t !in s.ready && t !in s.all
  {
  }

  lemma StartKeeps(s: State, t: Tid, priority: nat)
    requires Inv(s) && t !in s.status
    ensures Inv(Start(s, t, priority))
  {
  }

  lemma RemoveListed(s: State, t: Tid)
    requires Listed(s) && t in s.status
    ensures Listed(Gone(s, t))
  {
    RemoveMembers(s.ready, t);
    RemoveMembers(s.all, t);
    hide Remove, NoDuplicates;
  }

  lemma RemoveWaits(s: State, t: Tid)
    requires Waits(s) && (forall m | m in s.waiters :: t !in s.waiters[m])
    ensures Waits(Gone(s, t))
  {
    hide Remove, NoDuplicates, Disjoint;
  }

  lemma RemoveKeeps(s: State, t: Tid)
    requires Inv(s) && t in s.status && t != s.idle && (forall m | m in s.waiters :: t !in s.waiters[m])
    ensures Held(Gone(s, t)) && (t != s.running ==> Inv(Gone(s, t)))
  {
    hide Listed, Waits, NoDuplicates;
    RemoveListed(s, t);
    RemoveWaits(s, t);
  }

  lemma ExitKeeps(s: State, t: Tid)
    requires Inv(s) && t in s.status && t != s.idle && (forall m | m in s.waiters :: t !in s.waiters[m])
    ensures Inv(Exit(s, t))
  {
    RemoveKeeps(s, t);
    if t == s.running {
      ScheduleKeeps(Gone(s, t));
    }
  }

  lemma TickKeeps(s: State)
    requires Inv(s)
    ensures Inv(Tick(s))
  {
    if s.ticks[s.running] == 0 {
      ScheduleKeeps(s);
    }
  }

  lemma DownWaits(s: State, s1: State, m: Sem)
    requires Inv(s) && m in s.waiters && s.running != s.idle
    requires s1 == s.(waiters := s.waiters[m := s.waiters[m] + [s.running]], status := s.status[s.running := BLOCKED])
    ensures Waits(s1)
  {
    hide Listed, Slices, IdleThere;
    RunningKnown(s);
    var w := s.waiters[m] + [s.running];
    assert NoDuplicates(s.waiters[m]) && AllBlocked(s, s.waiters[m]);
    assert NoDuplicates(w) && AllBlocked(s1, w);
    hide NoDuplicates;
    forall n | n in s.waiters && n != m
      ensures AllBlocked(s1, s.waiters[n]) && Disjoint(s.waiters[n], w) && Disjoint(w, s.waiters[n])
    {
      assert AllBlocked(s, s.waiters[n]) && Disjoint(s.waiters[n], s.waiters[m]);
    }
  }

  lemma DownListed(s: State, s1: State)
    requires Inv(s) && s1 == s.(waiters := s1.waiters, status := s.status[s.running := BLOCKED])
    ensures Listed(s1)
  {
    hide Waits, NoDuplicates;
  }

  lemma QueuedSelf(s: State, m: Sem)
    requires Inv(s) && m in s.waiters && s.running != s.idle
    ensures Held(s.(waiters := s.waiters[m := s.waiters[m] + [s.running]], status := s.status[s.running := BLOCKED]))
  {
    var s1 := s.(waiters := s.waiters[m := s.waiters[m] + [s.running]], status := s.status[s.running := BLOCKED]);
    DownWaits(s, s1, m);
    DownListed(s, s1);
    hide Waits, Listed, Inv;
  }

  lemma DownKeeps(s: State, m: Sem)
    requires Inv(s) && m in s.waiters && s.running != s.idle
    ensures Inv(Down(s, m))
  {
    hide Inv, Held;
    HasValue(s, m);
    RunningKnown(s);
    if s.value[m] == 0 {
      QueuedSelf(s, m);
      ScheduleKeeps(s.(waiters := s.waiters[m := s.waiters[m] + [s.running]],
        status := s.status[s.running := BLOCKED]));
    } else {
      NewValue(s, m, s.value[m] - 1);
    }
  }

  lemma NewValue(s: State, m: Sem, v: nat)
    requires Inv(s) && m in s.value
    ensures Inv(s.(value := s.value[m := v]))
  {
    hide NoDuplicates, Disjoint;
    assert Waits(s.(value := s.value[m := v]));
  }

  lemma HasValue(s: State, m: Sem)
    requires Inv(s) && m in s.waiters
    ensures m in s.value
  {
  }

  lemma Queue(s: State, m: Sem)
    requires Inv(s) && m in s.waiters
    ensures forall t | t in s.waiters[m] :: t in s.status && s.status[t].BLOCKED? && t != s.idle && t !in s.ready
    ensures forall t, n | t in s.waiters[m] && n in s.waiters && n != m :: t !in s.waiters[n]
    ensures NoDuplicates(s.waiters[m])
  {
    assert AllBlocked(s, s.waiters[m]);
    assert forall n | n in s.waiters && n != m :: Disjoint(s.waiters[m], s.waiters[n]);
  }

  lemma FirstOut(w: seq<Tid>)
    requires NoDuplicates(w) && w != []
    ensures w == [w[0]] + w[1..] && w[0] in w && w[0] !in w[1..]
  {
  }

  lemma FewerWaiters(s: State, s1: State, m: Sem)
    requires Inv(s) && m in s.waiters && s.waiters[m] != [] && s1 == s.(waiters := s.waiters[m := s.waiters[m][1..]])
    ensures Inv(s1) && OffLists(s1, s.waiters[m][0]) && s.waiters[m][0] in s.status
    ensures s.status[s.waiters[m][0]].BLOCKED?
  {
    hide Waits, NoDuplicates;
    var w := s.waiters[m];
    Queue(s, m);
    FirstOut(w);
    FewerWait(s, s1, m);
  }

  lemma FewerWait(s: State, s1: State, m: Sem)
    requires Waits(s) && m in s.waiters && s.waiters[m] != [] && s1 == s.(waiters := s.waiters[m := s.waiters[m][1..]])
    ensures Waits(s1)
  {
    var w := s.waiters[m];
    assert w == [w[0]] + w[1..];
    assert NoDuplicates(w) && AllBlocked(s, w);
    assert NoDuplicates(w[1..]) && AllBlocked(s1, w[1..]);
    hide NoDuplicates;
    forall n | n in s.waiters && n != m
      ensures AllBlocked(s1, s.waiters[n]) && Disjoint(s.waiters[n], w[1..]) && Disjoint(w[1..], s.waiters[n])
    {
      assert AllBlocked(s, s.waiters[n]) && Disjoint(s.waiters[n], w);
    }
  }

  lemma UpKeeps(s: State, m: Sem)
    requires Inv(s) && m in s.waiters
    ensures Inv(Up(s, m))
  {
    hide Inv, Held, Waits;
    HasValue(s, m);
    var w := s.waiters[m];
    if w != [] {
      var s1 := s.(waiters := s.waiters[m := w[1..]]);
      FewerWaiters(s, s1, m);
      UnblockKeeps(s1, w[0]);
      NewValue(Unblock(s1, w[0]), m, s.value[m] + 1);
    } else {
      NewValue(s, m, s.value[m] + 1);
    }
  }

  // ---- runs ----

  datatype Event =
    | Ticks | Yields | Blocks(to: Status) | Unblocks(t: Tid) | Starts(t: Tid,
      priority: nat) | Exits(t: Tid) | Downs(m: Sem) | Ups(m: Sem)

  /** idle only blocks itself; a thread is unblocked off any wait list, and ended off any wait list. */
  ghost predicate Allowed(s: State, e: Event) {
    match e
    case Ticks => true
    case Yields => true
    case Blocks(to) => (to.BLOCKED? || to.WAITING? || to.HANGING?) && (s.running == s.idle ==> to.BLOCKED?)
    case Unblocks(t) => t in s.status && !s.status[t].READY? && !s.status[t].RUNNING? && OffLists(s, t)
    case Starts(t, _) => t !in s.status
    case Exits(t) => t in s.status && t != s.idle && (forall m | m in s.waiters :: t !in s.waiters[m])
    case Downs(m) => m in s.waiters && s.running != s.idle
    case Ups(m) => m in s.waiters
  }

  ghost function Apply(s: State, e: Event): State
    requires Inv(s) && Allowed(s, e)
  {
    match e
    case Ticks => Tick(s)
    case Yields => Yield(s)
    case Blocks(to) => Block(s, to)
    case Unblocks(t) => Unblock(s, t)
    case Starts(t, p) => Start(s, t, p)
    case Exits(t) => Exit(s, t)
    case Downs(m) => Down(s, m)
    case Ups(m) => Up(s, m)
  }

  lemma ApplyKeeps(s: State, e: Event)
    requires Inv(s) && Allowed(s, e)
    ensures Inv(Apply(s, e))
  {
    match e
    case Ticks => TickKeeps(s);
    case Yields => YieldKeeps(s);
    case Blocks(to) => BlockKeeps(s, to);
    case Unblocks(t) => UnblockKeeps(s, t);
    case Starts(t, p) => StartKeeps(s, t, p);
    case Exits(t) => ExitKeeps(s, t);
    case Downs(m) => DownKeeps(s, m);
    case Ups(m) => UpKeeps(s, m);
  }

  ghost predicate Run(s: State, events: seq<Event>, s': State)
    requires Inv(s)
    decreases |events|
  {
    if events == [] then s' == s
    else Allowed(s, events[0]) && (ApplyKeeps(s, events[0]); Run(Apply(s, events[0]), events[1..], s'))
  }

  /** In every state of every run one thread runs, and each thread's state says which list it is on. */
  ghost predicate Sound(s: State) {
    && (exists t :: t in s.status && s.status[t].RUNNING? && forall u | u in s.status && s.status[u].RUNNING? :: u == t)
    && NoDuplicates(s.ready)
    && (forall t | t in s.status :: t in s.ready <==> s.status[t].READY?)
    && (forall m, t | m in s.waiters && t in s.waiters[m] ::
         t !in s.ready && forall n | n in s.waiters && t in s.waiters[n] :: n == m)
    && (s.ready == [] && s.running != s.idle ==> s.idle in s.status && s.status[s.idle].BLOCKED?)
  }

  lemma {:induction false} EveryRunIsSound(s: State, events: seq<Event>, s': State)
    requires Inv(s) && Run(s, events, s')
    ensures Inv(s') && Sound(s')
    decreases |events|
  {
    if events == [] {
      assert s.status[s.running].RUNNING?;
    } else {
      ApplyKeeps(s, events[0]);
      EveryRunIsSound(Apply(s, events[0]), events[1..], s');
    }
  }

  /** thread_init: main runs, the others and idle are ready. */
  lemma Boot(main: Tid, idle: Tid, init: Tid, p: map<Tid, nat>)
    requires main != idle && main != init && idle != init && p.Keys == {main, idle, init}
    ensures Inv(State(map[main := RUNNING, idle := READY, init := READY], [init, idle], [init, main, idle], main,
              idle, p, p, map[], map[]))
  {
  }

  // ---- round robin ----

  /** `n` slices in a row that end by preemption. */
  ghost function Preemptions(s: State, n: nat): State
    requires Inv(s)
    decreases n
  {
    if n == 0 then s else
      RunningKnown(s);
      ScheduleKeeps(s);
      Preemptions(Schedule(s), n - 1)
  }

  lemma Preempted(s: State)
    requires Inv(s)
    ensures s.running in s.priority && Inv(Schedule(s))
    ensures Schedule(s).running == (s.ready + [s.running])[0] && Schedule(s).ready == (s.ready + [s.running])[1..]
  {
    ScheduleKeeps(s);
  }

  lemma NoSlices(s: State)
    requires Inv(s)
    ensures Preemptions(s, 0) == s
  {
  }

  lemma OneSlice(s: State, n: nat)
    requires Inv(s) && n > 0
    ensures s.running in s.priority && Inv(Schedule(s)) && Preemptions(s, n) == Preemptions(Schedule(s), n - 1)
  {
    Preempted(s);
  }

  lemma Rotated(t: Tid, ready: seq<Tid>, t1: Tid, ready1: seq<Tid>, n: nat)
    requires 0 < n <= |ready| && t1 == (ready + [t])[0] && ready1 == (ready + [t])[1..]
    ensures ([t1] + ready1)[n - 1] == ([t] + ready)[n]
    ensures ready1[n - 1..] + ([t1] + ready1)[..n - 1] == ready[n..] + ([t] + ready)[..n]
  {
    assert [t1] + ready1 == ready + [t];
    assert ready1 == ready[1..] + [t];
    assert ready1[n - 1..] == ready[n..] + [t];
    assert (ready + [t])[..n - 1] == ready[..n - 1];
    assert ([t] + ready)[..n] == [t] + ready[..n - 1];
  }

  /** With nobody blocking or waking, the thread at place `k` of the ready list runs after `k + 1` slices. */
  lemma {:induction false} RoundRobin(s: State, n: nat)
    requires Inv(s) && n <= |s.ready|
    ensures Preemptions(s, n).running == ([s.running] + s.ready)[n]
    ensures Preemptions(s, n).ready == s.ready[n..] + ([s.running] + s.ready)[..n]
    decreases n
  {
    hide Inv, Schedule, Preemptions;
    if n == 0 {
      NoSlices(s);
    } else {
      Preempted(s);
      OneSlice(s, n);
      var s1 := Schedule(s);
      RoundRobin(s1, n - 1);
      Rotated(s.running, s.ready, s1.running, s1.ready, n);
    }
  }

  ghost function TicksLater(s: State, n: nat): State
    requires Inv(s)
    decreases n
  {
    if n == 0 then s else
      RunningKnown(s);
      TickKeeps(s);
      TicksLater(Tick(s), n - 1)
  }

  lemma NoTicks(s: State)
    requires Inv(s)
    ensures TicksLater(s, 0) == s
  {
  }

  lemma OneTick(s: State, n: nat)
    requires Inv(s) && n > 0
    ensures s.running in s.ticks && s.running in s.priority && Inv(Tick(s))
    ensures TicksLater(s, n) == TicksLater(Tick(s), n - 1)
  {
    RunningKnown(s);
    TickKeeps(s);
  }

  /** A thread that neither blocks nor yields keeps the CPU for its remaining ticks, and loses it at the next one. */
  lemma {:induction false} SliceLasts(s: State, n: nat)
    requires Inv(s) && s.running in s.ticks && n <= s.ticks[s.running] + 1
    ensures s.running in s.priority
    ensures TicksLater(s, n) == if n <= s.ticks[s.running]
              then s.(ticks := s.ticks[s.running := s.ticks[s.running] - n])
                                else Schedule(s.(ticks := s.ticks[s.running := 0]))
    decreases n
  {
    hide Inv, Schedule, TicksLater;
    RunningKnown(s);
    if n == 0 {
      assert s.ticks[s.running := s.ticks[s.running]] == s.ticks;
      NoTicks(s);
    } else {
      TickKeeps(s);
      OneTick(s, n);
      if s.ticks[s.running] == 0 {
        NoTicks(Tick(s));
        assert s.ticks[s.running := 0] == s.ticks;
      } else {
        var s1 := Tick(s);
        SliceLasts(s1, n - 1);
        if n <= s.ticks[s.running] {
          assert s1.ticks[s.running := s1.ticks[s.running] - (n - 1)] == s.ticks[s.running := s.ticks[s.running] - n];
        } else {
          assert s1.ticks[s.running := 0] == s.ticks[s.running := 0];
        }
      }
    }
  }

  /** A full round brings back the running thread and the order of the others. */
  lemma FullRound(s: State)
    requires Inv(s)
    ensures var r := Preemptions(s, |s.ready| + 1); r.running == s.running && r.ready == s.ready
  {
    hide Inv, Schedule, Preemptions;
    var n := |s.ready|;
    Preempted(s);
    OneSlice(s, n + 1);
    var s1 := Schedule(s);
    assert [s1.running] + s1.ready == s.ready + [s.running];
    RoundRobin(s1, n);
    assert s1.ready[n..] + (s.ready + [s.running])[..n] == s.ready;
  }

  // ---- in place ----

  class Kernel {
    var status: map<Tid, Status>
    var ready: seq<Tid>
    var all: seq<Tid>
    var running: Tid
    const idle: Tid
    var ticks: map<Tid, nat>
    var priority: map<Tid, nat>
    var value: map<Sem, nat>
    var waiters: map<Sem, seq<Tid>>

    ghost function S(): State
      reads this
    {
      State(status, ready, all, running, idle, ticks, priority, value, waiters)
    }

    /** schedule, up to the switch of stacks. */
    method DoSchedule()
      requires Held(S())
      modifies this`status, this`ready, this`running, this`ticks
      ensures (old(running) in old(status) ==> old(running) in old(priority)) && Inv(S()) && S() == Schedule(old(S()))
    {
      hide Held, Inv;
      ghost var s := S();
      ScheduleKeeps(s);
      RequeueKeeps(s);
      Clean(s);
      RouseKeeps(Requeue(s));
      var now := running;
      if now in status && status[now] == RUNNING {
        assert now !in ready;
        ready := ready + [now];
        ticks := ticks[now := priority[now]];
        status := status[now := READY];
      }
      if ready == [] {
        assert status[idle].BLOCKED? && idle !in ready;
        ready := [idle] + ready;
        status := status[idle := READY];
      }
      assert ready != [];
      var next := ready[0];
      ready := ready[1..];
      status := status[next := RUNNING];
      running := next;
    }

    /** thread_yield */
    method DoYield()
      requires Inv(S())
      modifies this`status, this`ready, this`running, this`ticks
      ensures old(running) in old(priority) && Inv(S()) && S() == Yield(old(S()))
    {
      hide Held, Inv;
      RunningKnown(S());
      Yielded(S());
      assert running !in ready;
      ready := ready + [running];
      status := status[running := READY];
      DoSchedule();
    }

    /** thread_block */
    method DoBlock(st: Status)
      requires Inv(S()) && (st.BLOCKED? || st.WAITING? || st.HANGING?) && (running == idle ==> st.BLOCKED?)
      modifies this`status, this`ready, this`running, this`ticks
      ensures old(running) in old(priority) && Inv(S()) && S() == Block(old(S()), st)
    {
      hide Held, Inv;
      RunningKnown(S());
      BlockedSelf(S(), st);
      status := status[running := st];
      DoSchedule();
    }

    /** thread_unblock */
    method DoUnblock(t: Tid)
      requires Inv(S()) && t in status && (status[t].BLOCKED? || status[t].WAITING? || status[t].HANGING?)
      requires OffLists(S(), t)
      modifies this`status, this`ready
      ensures Inv(S()) && S() == Unblock(old(S()), t)
    {
      UnblockKeeps(S(), t);
      if status[t] != READY {
        assert t !in ready;
        ready := [t] + ready;
        status := status[t := READY];
      }
    }

    /** thread_start */
    method DoStart(t: Tid, prio: nat)
      requires Inv(S()) && t !in status
      modifies this`status, this`ready, this`all, this`ticks, this`priority
      ensures Inv(S()) && S() == Start(old(S()), t, prio)
    {
      hide Held, Inv;
      Stranger(S(), t);
      StartKeeps(S(), t, prio);
      assert t !in ready && t !in all;
      status, ticks, priority := status[t := READY], ticks[t := prio], priority[t := prio];
      ready := ready + [t];
      all := all + [t];
    }

    /** thread_exit */
    method DoExit(t: Tid, needSchedule: bool)
      requires Inv(S()) && t in status && t != idle && (forall m | m in waiters :: t !in waiters[m])
      requires needSchedule == (t == running)
      modifies this
      ensures old(running) in old(priority) && Inv(S()) && S() == Exit(old(S()), t)
    {
      hide Held, Inv;
      RunningKnown(S());
      ghost var s := S();
      RemoveKeeps(s, t);
      if t in ready {
        ready := Remove(ready, t);
      }
      RemoveAbsent(s.ready, t);
      status, ticks, priority := status - {t}, ticks - {t}, priority - {t};
      all := Remove(all, t);
      assert S() == Gone(s, t);
      if needSchedule {
        DoSchedule();
      }
    }

    /** intr_timer_handler */
    method TimerInterrupt()
      requires Inv(S())
      modifies this`status, this`ready, this`running, this`ticks
      ensures old(running) in old(priority) && old(running) in old(ticks) && Inv(S()) && S() == Tick(old(S()))
    {
      hide Held, Inv;
      RunningKnown(S());
      TickKeeps(S());
      if ticks[running] == 0 {
        DoSchedule();
      } else {
        ticks := ticks[running := ticks[running] - 1];
      }
    }

    /** semaphore_down up to its block or its return; a blocked caller comes back here when it runs again. */
    method SemaphoreDown(m: Sem) returns (done: bool)
      requires Inv(S()) && m in waiters && running != idle
      modifies this`status, this`ready, this`running, this`ticks, this`waiters, this`value
      ensures old(running) in old(priority) && Inv(S()) && m in old(value)
      ensures S() == Down(old(S()), m) && done == (old(value)[m] > 0)
    {
      hide Held, Inv;
      HasValue(S(), m);
      RunningKnown(S());
      DownKeeps(S(), m);
      if value[m] == 0 {
        assert running !in waiters[m];
        QueuedSelf(S(), m);
        waiters := waiters[m := waiters[m] + [running]];
        status := status[running := BLOCKED];
        DoSchedule();
        return false;
      }
      value := value[m := value[m] - 1];
      done := true;
    }

    /** semaphore_up */
    method SemaphoreUp(m: Sem)
      requires Inv(S()) && m in waiters
      modifies this`status, this`ready, this`waiters, this`value
      ensures Inv(S()) && m in old(value) && S() == Up(old(S()), m)
    {
      hide Held, Inv;
      HasValue(S(), m);
      ghost var s := S();
      UpKeeps(s, m);
      if waiters[m] != [] {
        var t := waiters[m][0];
        FewerWaiters(s, s.(waiters := s.waiters[m := s.waiters[m][1..]]), m);
        waiters := waiters[m := waiters[m][1..]];
        DoUnblock(t);
      }
      value := value[m := value[m] + 1];
    }
  }
}
