/**
 * The machine from boot on, under any sequence of requests: allocate, free, start a process, fork, exit, switch.
 */
module KernelRuns {
  import opened Options
  import opened Paging
  import opened Pools
  import opened PageSteps
  import opened FrameZero
  import opened PageAllocator
  import opened AddressSpaces
  import opened Fork
  import opened Teardown
  import opened MemoryRuns
  import Bitmaps

  /** What may be asked of the kernel. `None` is a kernel thread, a number the process with that directory. */
  datatype Request =
    | MallocRequest(pf: PoolFlag, cnt: nat)
    | FreeRequest(pf: PoolFlag, v: Word, cnt: nat)
    | ExecuteRequest
    | ForkRequest
    | ExitRequest(next: Option<nat>)
    | SwitchRequest(next: Option<nat>)

  /** `call` is how request `r` ended. */
  predicate Answers(r: Request, call: Call) {
    match r
    case MallocRequest(pf, cnt) =>
      (call.Malloced? && call.pf == pf && call.cnt == cnt) || call == NoRun(pf, cnt)
    case FreeRequest(pf, v, cnt) => call == MFreed(pf, v / 4096, cnt)
    case ExecuteRequest => call.StartedAs? || call.NotStarted?
    case ForkRequest => call.ForkedAs? || call.NotForked?
    case ExitRequest(next) => call == ExitedTo(FrameFor(next))
    case SwitchRequest(next) => call == SwitchedTo(FrameFor(next))
  }

  function FrameFor(next: Option<nat>): nat { if next.Some? then next.value else BOOT }

  /**
   * What the source asks of the caller, or of the moment: for an allocation, a search that stays in the bitmap
   * and tables for the pages that get a frame; for a release, mapped pages; for a fork, no reserved page
   * unmapped and frames enough for the copy.
   */
  ghost predicate Permitted(w: World, r: Request)
    requires Inv(w.s) && Directory(w.s, w.cr3)
  {
    match r
    case MallocRequest(pf, cnt) =>
      && 0 < cnt < 3840 && (pf.PF_USER? ==> w.cr3 in w.s.uv) && !RunStrays(w.s, pf, w.cr3, cnt)
      && TablesSuffice(w.s, pf, w.cr3, cnt)
    case FreeRequest(pf, v, cnt) => v % 4096 == 0 && 1 <= cnt && RunIsMapped(w.s, pf, w.cr3, v / 4096, cnt)
    case ExecuteRequest => true
    case ForkRequest => w.cr3 in w.s.uv && UsedPagesMapped(w.s, w.cr3) && EnoughFrames(w.s, w.cr3)
    case ExitRequest(next) => w.cr3 in w.s.uv && (next.Some? ==> next.value in w.s.uv && next.value != w.cr3)
    case SwitchRequest(next) => next.Some? ==> next.value in w.s.uv
  }

  class System {
    const m: Machine
    var dirs: map<nat, Word>                  // pg_dir of each process, by the frame behind it

    ghost function W(): World
      reads this, m
    {
      World(m.S(), m.cr3)
    }

    /** Pools, tables, pages and bitmaps agree, no user frame is lost, every directory is where its pcb says. */
    ghost predicate Valid()
      reads this, m
    {
      Sound(W()) && AllAt(m.S(), dirs)
    }

    /** The kernel after mem_pool_init, before the first process. */
    constructor (boot: Memory)
      requires AtBoot(boot)
      ensures Valid() && fresh(m) && m.mem == boot && m.cr3 == BOOT && m.userVaddr == map[] && dirs == map[]
    {
      m := new Machine(boot);
      dirs := map[];
      new;
      BootIsSound(m.S());
    }

    ghost predicate Allowed(r: Request)
      requires Valid()
      reads this, m
    {
      Permitted(W(), r)
    }

    /** The books after a step: directories of processes that live on stay where they were. */
    ghost method Settle(w: World, call: Call)
      requires Sound(w) && Step(w, call, W()) && m.Valid()
      requires dirs.Keys == m.userVaddr.Keys
      requires forall d | d in dirs :: (d in w.s.uv && DirectoryAt(w.s, dirs[d], d)) || DirectoryAt(m.S(), dirs[d], d)
      ensures Valid()
    {
      hide Inv, Step, Sound, DirectoryAt;
      SoundIsInv(w);
      StepLosesNone(w, call, W());
      forall d | d in dirs
        ensures DirectoryAt(m.S(), dirs[d], d)
      {
        if d in w.s.uv && DirectoryAt(w.s, dirs[d], d) {
          DirectoryStays(w, call, W(), dirs[d], d);
        }
      }
    }

    method Malloc(pf: PoolFlag, cnt: nat) returns (v: Word, ghost call: Call)
      requires Valid() && Allowed(MallocRequest(pf, cnt))
      modifies m
      ensures Valid() && Step(old(W()), call, W()) && Answers(MallocRequest(pf, cnt), call)
      ensures v != 0 <==> call.Malloced? && call.done == cnt
    {
      hide Inv, MappedRun, ReservedRun, Sound, TablesSuffice, DirectoryAt, FirstRun, RunStrays;
      ghost var w := W();
      SoundIsInv(w);
      ghost var r, done;
      v, r, done := m.MallocPage(pf, cnt);
      ghost var run := FirstRun(w.s, pf, w.cr3, cnt);
      call := if run == -1 then NoRun(pf, cnt) else Malloced(pf, cnt, Base(pf) + run, r, done);
      SameSpaces(w, call, W());
      Settle(w, call);
    }

    method MFree(pf: PoolFlag, v: Word, cnt: nat) returns (ghost call: Call)
      requires Valid() && Allowed(FreeRequest(pf, v, cnt))
      modifies m
      ensures Valid() && Step(old(W()), call, W()) && Answers(FreeRequest(pf, v, cnt), call)
    {
      hide Inv, RunIsMapped, ReleasedRun, Sound, DirectoryAt;
      ghost var w := W();
      SoundIsInv(w);
      m.MFreePage(pf, v, cnt);
      call := MFreed(pf, v / 4096, cnt);
      SameSpaces(w, call, W());
      Settle(w, call);
    }

    method Execute() returns (ok: bool, ghost call: Call)
      requires Valid()
      modifies this, m
      ensures Valid() && Step(old(W()), call, W()) && Answers(ExecuteRequest, call) && (ok <==> call.StartedAs?)
    {
      hide Inv, Sound, DirectoryAt, Started, NoKernelPage, Directory;
      ghost var w := W();
      SoundIsInv(w);
      var dir, pd := ProcessExecute(m);
      ok := dir != 0;
      if ok {
        dirs := dirs[pd := dir];
        call := StartedAs(pd, dir / 4096);
        StartedGives(w.s, m.S(), pd, dir / 4096);
      } else {
        call := NotStarted;
        SameSpaces(w, call, W());
      }
      Settle(w, call);
    }

    method Fork() returns (ok: bool, ghost call: Call)
      requires Valid() && Allowed(ForkRequest)
      modifies this, m
      ensures Valid() && Step(old(W()), call, W()) && Answers(ForkRequest, call) && (ok <==> call.ForkedAs?)
    {
      hide Inv, Sound, DirectoryAt, Forked, ForkFailed, Directory, UsedPagesMapped, EnoughFrames;
      ghost var w := W();
      SoundIsInv(w);
      var dir, child := CopyProcess(m, dirs[m.cr3]);
      ok := dir != 0;
      if ok {
        dirs := dirs[child := dir];
        call := ForkedAs(child, dir / 4096);
        ForkedSpaces(w.s, m.S(), m.cr3, child, dir / 4096);
      } else {
        call := NotForked;
        SameSpaces(w, call, W());
      }
      Settle(w, call);
    }

    /** The running process releases its memory and the next thread runs. */
    method ExitTo(next: Option<nat>) returns (ghost call: Call)
      requires Valid() && Allowed(ExitRequest(next))
      modifies this, m
      ensures Valid() && Step(old(W()), call, W()) && Answers(ExitRequest(next), call)
    {
      hide Inv, Sound, DirectoryAt, Exited, KernelReach;
      ghost var w, pd := W(), m.cr3;
      SoundIsInv(w);
      ReleaseProgResource(m, dirs[m.cr3], pd);
      dirs := dirs - {m.cr3};
      ExitedSpaces(w.s, m.S(), dirs, pd);
      SwitchDirectory(next);
      call := ExitedTo(FrameFor(next));
      Settle(w, call);
    }

    method SwitchTo(next: Option<nat>) returns (ghost call: Call)
      requires Valid() && Allowed(SwitchRequest(next))
      modifies this, m
      ensures Valid() && Step(old(W()), call, W()) && Answers(SwitchRequest(next), call)
    {
      hide Inv, Sound, DirectoryAt, KernelReach;
      ghost var w := W();
      SoundIsInv(w);
      ReachOfDirectory(m.S(), m.cr3);
      SwitchDirectory(next);
      call := SwitchedTo(FrameFor(next));
      SameSpaces(w, call, W());
      Settle(w, call);
    }

    /** page_dir_activate with the pg_dir of the pcb that is to run. */
    method SwitchDirectory(next: Option<nat>)
      requires Inv(m.S()) && KernelReach(m.S(), m.cr3) && AllAt(m.S(), dirs)
      requires next.Some? ==> next.value in m.userVaddr
      modifies m`cr3
      ensures m.cr3 == FrameFor(next) && m.Valid()
    {
      hide Inv, KernelReach;
      Activate(m, if next.Some? then dirs[next.value] else 0, FrameFor(next));
    }

    // ---- any request at any time ----

    function View(): Snap
      reads m
    {
      Snap(m.mem, m.kernelPool, m.userPool, m.kernelVaddr, m.userVaddr, map[])
    }

    method MayMalloc(pf: PoolFlag, cnt: nat) returns (ok: bool)
      requires Valid()
      ensures ok == Allowed(MallocRequest(pf, cnt))
    {
      hide Sound, AllAt;
      SoundIsInv(W());
      InvSane(m.S());
      hide Inv;
      if !(0 < cnt < 3840) || (pf.PF_USER? && m.cr3 !in m.userVaddr) {
        return false;
      }
      SelfMap(m.S(), m.cr3);
      var bits := if pf.PF_KERNEL? then m.kernelVaddr else m.userVaddr[m.cr3];
      if Bitmaps.Strays(bits, |bits| / 8, cnt) {
        return false;
      }
      if pf.PF_KERNEL? {
        KernelTablesSuffice(m.S(), m.cr3, cnt);
        return true;
      }
      var run := Bitmaps.FirstFit(bits, |bits| / 8, cnt);
      var left := |m.userPool.Allocatable()|;
      var lo, n := USER_START + run, if cnt <= left then cnt else left;
      var row := m.mem[m.cr3];
      var missing := set i: nat | i < 768 && lo < lo + n && lo / 1024 <= i && i * 1024 < lo + n && !Present(row[i]);
      ok := run == -1 || |missing| <= |m.kernelPool.Allocatable()|;
      if run >= 0 {
        assert missing == MissingSlots(m.S(), m.cr3, lo, lo + n);
      }
    }

    method MayFree(pf: PoolFlag, v: Word, cnt: nat) returns (ok: bool)
      requires Valid()
      ensures ok == Allowed(FreeRequest(pf, v, cnt))
    {
      hide Sound, AllAt;
      SoundIsInv(W());
      hide Inv;
      var lo := v / 4096;
      if v % 4096 != 0 || cnt == 0 || (pf.PF_USER? && m.cr3 !in m.userVaddr) || lo < Base(pf) || lo + cnt > 0x10_0000 {
        return false;
      }
      var view, pd := View(), m.cr3;
      ok := forall vp: nat | lo <= vp < lo + cnt :: Freeable(view, PageAt(pf, pd, vp));
      if ok {
        forall q | InRun(pf, pd, lo, cnt, q)
          ensures Managed(m.S(), q) && Look(m.S(), q).Some? && Look(m.S(), q).value !in m.userVaddr
        {
          assert Freeable(view, PageAt(pf, pd, q.vp));
        }
      } else {
        var vp: nat :| lo <= vp < lo + cnt && !Freeable(view, PageAt(pf, pd, vp));
        assert InRun(pf, pd, lo, cnt, PageAt(pf, pd, vp));
      }
    }

    method MayFork() returns (ok: bool)
      requires Valid()
      ensures ok == Allowed(ForkRequest)
    {
      hide Sound, AllAt;
      SoundIsInv(W());
      InvSane(m.S());
      if m.cr3 !in m.userVaddr {
        return false;
      }
      SelfMap(m.S(), m.cr3);
      hide Inv;
      var view, pd, bits := View(), m.cr3, m.userVaddr[m.cr3];
      var mapped := forall vp: nat | vp < KERNEL_HALF && UsedBelow(bits, vp, |bits|) ::
        Look(view, UserPage(pd, vp)).Some?;
      ok := mapped && |PagesLeft(bits, 0)| <= |m.userPool.Allocatable()|
        && |SlotsNeeded(bits)| + 2 <= |m.kernelPool.Allocatable()|;
      assert mapped == UsedPagesMapped(m.S(), pd);
    }

    /** Is the request one the source can meet now? */
    method Check(r: Request) returns (ok: bool)
      requires Valid()
      ensures ok == Allowed(r)
    {
      hide Sound, AllAt, TablesSuffice, RunStrays, RunIsMapped, UsedPagesMapped, EnoughFrames;
      match r
      case MallocRequest(pf, cnt) => ok := MayMalloc(pf, cnt);
      case FreeRequest(pf, v, cnt) => ok := MayFree(pf, v, cnt);
      case ExecuteRequest => ok := true;
      case ForkRequest => ok := MayFork();
      case ExitRequest(next) =>
        ok := m.cr3 in m.userVaddr && (next.Some? ==> next.value in m.userVaddr && next.value != m.cr3);
      case SwitchRequest(next) => ok := next.Some? ==> next.value in m.userVaddr;
    }

    /** Any request: met if it may be, refused without a change if not. */
    method Serve(r: Request) returns (ok: bool, ghost call: Call)
      requires Valid()
      modifies this, m
      ensures Valid() && ok == old(Allowed(r))
      ensures Served(old(W()), r, ok, W())
    {
      hide Sound, AllAt, Inv, Step, Answers, Permitted;
      ghost var w := W();
      SoundIsInv(w);
      ok := Check(r);
      call := NotStarted;
      if ok {
        match r
        case MallocRequest(pf, cnt) => var v; v, call := Malloc(pf, cnt);
        case FreeRequest(pf, v, cnt) => call := MFree(pf, v, cnt);
        case ExecuteRequest => var started; started, call := Execute();
        case ForkRequest => var forked; forked, call := Fork();
        case ExitRequest(next) => call := ExitTo(next);
        case SwitchRequest(next) => call := SwitchTo(next);
      }
    }
  }

  /** Allocating, freeing and failing leave the processes as they are. */
  lemma SameSpaces(w: World, call: Call, w': World)
    requires Inv(w.s) && Step(w, call, w') && !call.StartedAs? && !call.ForkedAs? && !call.ExitedTo?
    ensures w'.s.uv.Keys == w.s.uv.Keys
  {
    hide Inv, FirstRun;
  }

  lemma ForkedSpaces(s: Snap, z: Snap, parent: nat, child: nat, dirPage: nat)
    requires Inv(s) && Forked(s, z, parent, child, dirPage)
    ensures z.uv.Keys == s.uv.Keys + {child} && child !in s.uv
  {
    hide Inv;
  }

  lemma ExitedSpaces(s: Snap, z: Snap, dirs: map<nat, Word>, pd: nat)
    requires Inv(s) && Exited(s, z, pd) && dirs.Keys == s.uv.Keys - {pd}
    requires forall d | d in dirs :: DirectoryAt(s, dirs[d], d)
    ensures Inv(z) && AllAt(z, dirs)
  {
    hide Inv;
    forall d | d in dirs
      ensures DirectoryAt(z, dirs[d], d)
    {
      ExitedGives(s, z, dirs[d], d, pd);
    }
  }

  /** A present page whose frame holds no live directory. */
  predicate Freeable(s: Snap, pg: Page) { Managed(s, pg) && Look(s, pg).Some? && Look(s, pg).value !in s.uv }

  /** From `w` to `w'` request `r` was met, as it is whenever permitted, or refused with nothing changed. */
  ghost predicate Served(w: World, r: Request, ok: bool, w': World) {
    && Inv(w.s) && Directory(w.s, w.cr3) && ok == Permitted(w, r)
    && if ok then exists call :: Answers(r, call) && Step(w, call, w') else w' == w
  }

  /**
   * From boot on, through any sequence of requests, whatever their order and whichever fail: in every state the
   * invariant holds and a user frame is taken exactly while a page of a live process maps to it.
   */
  method RunFromBoot(boot: Memory, requests: seq<Request>)
    returns (system: System, met: seq<bool>, ghost trace: seq<World>)
    requires AtBoot(boot)
    ensures system.Valid() && |met| == |requests| && |trace| == |requests| + 1 && trace[|requests|] == system.W()
    ensures trace[0].s.mem == boot && trace[0].cr3 == BOOT && trace[0].s.uv == map[]
    ensures forall k: nat | k < |trace| :: Sound(trace[k])
    ensures forall k: nat | k < |requests| :: Served(trace[k], requests[k], met[k], trace[k + 1])
  {
    hide Sound, Served, AllAt;
    system := new System(boot);
    met, trace := [], [system.W()];
    for i := 0 to |requests|
      invariant fresh(system) && fresh(system.m) && system.Valid() && |met| == i && |trace| == i + 1
      invariant trace[i] == system.W()
      invariant trace[0].s.mem == boot && trace[0].cr3 == BOOT && trace[0].s.uv == map[]
      invariant forall k: nat | k <= i :: Sound(trace[k])
      invariant forall k: nat | k < i :: Served(trace[k], requests[k], met[k], trace[k + 1])
    {
      var ok;
      ghost var call;
      ok, call := system.Serve(requests[i]);
      met, trace := met + [ok], trace + [system.W()];
    }
  }

  // ---- a run that loses the pools ----

  /** One process without pages or tables, an untouched user pool, and as many kernel pages to be had as frames. */
  ghost predicate Draining(s: Snap, pd: nat) {
    && Inv(s) && pd in s.uv && s.uv[pd] == NoPages() && pd < 0x10_0000
    && (forall i: nat | i < 768 :: !Present(s.mem[pd][i]))
    && s.up == Pool(NoneTaken(), 480, 0x200 + 3840) && |ClearStarts(s.kv)| == |s.kp.Allocatable()|
  }

  lemma DrainStarts(s: Snap, z: Snap, pd: nat, dirPage: nat)
    requires Inv(s) && Started(s, z, pd, dirPage) && s.up == Pool(NoneTaken(), 480, 0x200 + 3840)
    requires s.kv == NoneTaken() && s.kp == Pool(NoneTaken(), 480, 0x200)
    ensures Draining(z, pd) && Inv(z)
  {
    StartedGives(s, z, pd, dirPage);
    hide Inv;
    assert ClearStarts(NoneTaken()) == Pool(NoneTaken(), 480, 0x200).Allocatable();
  }

  lemma DrainOn(s: Snap, z: Snap, pd: nat, vp: nat)
    requires Draining(s, pd) && KernelPageStep(s, z, pd, vp, ZeroFrame())
    ensures Draining(z, pd) && pd in z.uv && z.kp.Sane() && s.kp.Sane() && |z.kp.Allocatable()| < |s.kp.Allocatable()|
  {
    KernelVaddrKept(s, z, pd, vp);
    ChildIsDirectory(s, pd);
    hide Inv;
  }

  /** With the kernel pool drained the process has no table for its first page, and none can be made. */
  lemma Drained(s: Snap, pd: nat)
    requires Draining(s, pd) && Directory(s, pd)
    requires (ClearStarts(s.kv) == {} || (s.kp.Sane() && s.kp.Allocatable() == {}))
    ensures !RunStrays(s, PF_USER, pd, 1) && FirstRun(s, PF_USER, pd, 1) >= 0
    ensures s.up.Sane() && |s.up.Allocatable()| >= 1 && !TablesSuffice(s, PF_USER, pd, 1)
  {
    InvSane(s);
    hide Inv;
    var run, bits := FirstRun(s, PF_USER, pd, 1), NoPages();
    assert Bitmaps.Fits(bits, 0, 1);
    assert 0 in s.up.Allocatable();
    Nonempty(s.up.Allocatable(), 0);
    var lo := USER_START + run;
    assert Supply(s, PF_USER, 1) == 1;
    assert lo / 1024 in MissingSlots(s, pd, lo, lo + 1);
    Nonempty(MissingSlots(s, pd, lo, lo + 1), lo / 1024);
  }

  lemma Nonempty(s: set<nat>, x: nat)
    requires x in s
    ensures |s| >= 1
  {
  }

  /**
   * From boot: one process is started, kernel pages are taken until there are none, then the process is given its
   * first page. The call reports success and the pools are lost.
   */
  method StarveFromBoot(boot: Memory) returns (m: Machine, v: Word)
    requires AtBoot(boot)
    ensures v != 0 && Lost(m.S())
  {
    hide Inv, Directory, Started, Look, Draining, KernelPageStep, Lost, TablesSuffice, RunStrays, FirstRun;
    m := new Machine(boot);
    BootSupplies();
    ghost var s := m.S();
    var dir, pd := ProcessExecute(m);
    DrainStarts(s, m.S(), pd, dir / 4096);
    ReachOfDirectory(m.S(), m.cr3);
    StartedGives(s, m.S(), pd, dir / 4096);
    Activate(m, dir, pd);
    InvSane(m.S());
    v := 1;
    while v != 0
      invariant fresh(m) && m.Valid() && m.cr3 == pd && pd in m.userVaddr && Draining(m.S(), pd) && PoolsSane(m.S())
      invariant v == 0 ==> ClearStarts(m.kernelVaddr) == {} || m.kernelPool.Allocatable() == {}
      decreases v != 0, |m.kernelPool.Allocatable()|
    {
      ghost var s1 := m.S();
      v := GetKernelPage(m);
      InvSane(m.S());
      if v != 0 {
        DrainOn(s1, m.S(), pd, v / 4096);
      } else {
        DrainFails(s1, m.S(), pd);
      }
    }
    Drained(m.S(), pd);
    ghost var r, done;
    v, r, done := m.MallocPage(PF_USER, 1);
  }

  lemma DrainFails(s: Snap, z: Snap, pd: nat)
    requires Draining(s, pd) && Inv(z) && NoKernelPage(s, z) && s.kp.Sane() && z.kp.Sane()
    ensures Draining(z, pd) && pd in z.uv && (ClearStarts(z.kv) == {} || z.kp.Allocatable() == {})
  {
    hide Inv, FirstRun;
    assert |ClearStarts(s.kv)| == |s.kp.Allocatable()|;
  }
}
