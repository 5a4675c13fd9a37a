/**
 * Every run of malloc_page, mfree_page, process start, fork, exit and directory switch: the pools stay sound
 * and no user frame is ever lost.
 */
module MemoryRuns {
  import opened Options
  import opened Pools
  import opened PageSteps
  import opened Paging
  import opened PageAllocator
  import opened AddressSpaces
  import opened Fork
  import opened Teardown

  /** Memory, pools and bitmaps, with the frame of the active directory. */
  datatype World = World(s: Snap, cr3: nat)

  /** A kernel call, with the choices its searches made. */
  datatype Call =
    | Malloced(pf: PoolFlag, cnt: nat, vp: nat, reserved: Snap, done: nat)
    | NoRun(pf: PoolFlag, cnt: nat)
    | MFreed(pf: PoolFlag, vp: nat, cnt: nat)
    | StartedAs(pd: nat, dirPage: nat)
    | NotStarted
    | ForkedAs(child: nat, dirPage: nat)
    | NotForked
    | ExitedTo(next: nat)
    | SwitchedTo(pd: nat)

  /** What each call does, failed ones included, between two states that meet the invariant. */
  ghost predicate Step(w: World, call: Call, w': World)
    requires Inv(w.s)
  {
    match call
    case Malloced(pf, cnt, vp, r, done) =>
      && (pf.PF_USER? ==> w.cr3 in w.s.uv) && ReservedRun(w.s, r, pf, w.cr3, vp, cnt) && Inv(r) && done <= cnt
      && MappedRun(r, w'.s, pf, w.cr3, vp, done) && w'.cr3 == w.cr3
    case NoRun(pf, cnt) => (pf.PF_USER? ==> w.cr3 in w.s.uv) && FirstRun(w.s, pf, w.cr3, cnt) == -1 && w' == w
    case MFreed(pf, vp, cnt) =>
      RunIsMapped(w.s, pf, w.cr3, vp, cnt) && ReleasedRun(w.s, w'.s, pf, w.cr3, vp, cnt) && w'.cr3 == w.cr3
    case StartedAs(pd, dirPage) => Started(w.s, w'.s, pd, dirPage) && w'.cr3 == w.cr3
    case NotStarted => NoKernelPage(w.s, w'.s) && w'.cr3 == w.cr3
    case ForkedAs(child, dirPage) => Forked(w.s, w'.s, w.cr3, child, dirPage) && w'.cr3 == w.cr3
    case NotForked => ForkFailed(w.s, w'.s, w.cr3) && w'.cr3 == w.cr3
    case ExitedTo(next) => Exited(w.s, w'.s, w.cr3) && Directory(w'.s, next) && w'.cr3 == next
    case SwitchedTo(pd) => w'.s == w.s && Directory(w.s, pd) && w'.cr3 == pd
  }

  ghost predicate Serves(s: Snap, f: nat) { exists q: Page :: ServesPage(s, f, q) }

  ghost predicate ServesPage(s: Snap, f: nat, q: Page) { q.UserPage? && InSpace(s, q) && Look(s, q) == Some(f) }

  /** A user frame is taken exactly while a user page of a live process maps to it. */
  ghost predicate NoneLost(s: Snap)
    requires s.up.Sane()
  {
    forall f: nat | s.up.Holds(f) :: !s.up.Free(f) <==> Serves(s, f)
  }

  ghost predicate Sound(w: World) { Inv(w.s) && Directory(w.s, w.cr3) && NoneLost(w.s) }

  /** One direction is the invariant's. */
  lemma ServingIsTaken(s: Snap, f: nat)
    requires Inv(s) && Serves(s, f)
    ensures s.up.Sane() && s.up.Holds(f) && !s.up.Free(f)
  {
    var q :| ServesPage(s, f, q);
    assert Managed(s, q);
    assert !Free(s, f);
  }

  /** So a step need only find a page for every frame still taken. */
  lemma FindPages(s: Snap)
    requires Inv(s) && s.up.Sane() && forall f: nat | s.up.Holds(f) && !s.up.Free(f) :: Serves(s, f)
    ensures NoneLost(s)
  {
    hide Inv, Serves;
    forall f: nat | s.up.Holds(f)
      ensures !s.up.Free(f) <==> Serves(s, f)
    {
      if Serves(s, f) {
        ServingIsTaken(s, f);
      }
    }
  }

  lemma UserFrame(s: Snap, f: nat)
    requires PoolsSane(s) && s.up.Holds(f)
    ensures Free(s, f) == s.up.Free(f) && !s.kp.Holds(f)
  {
  }

  lemma MallocLosesNone(w: World, call: Call, w': World, f: nat)
    requires Sound(w) && call.Malloced? && Step(w, call, w') && PoolsSane(w'.s) && w'.s.up.Holds(f)
    requires !w'.s.up.Free(f)
    ensures Serves(w'.s, f)
  {
    hide Inv, OwnersKept, PagesIntact, OtherDirsKept, TakenForRun;
    var pf, vp, cnt, r, done := call.pf, call.vp, call.cnt, call.reserved, call.done;
    InvSane(w.s);
    InvSane(r);
    SameView(w.s, r);
    UserFrame(w'.s, f);
    UserFrame(r, f);
    if Free(r, f) {
      MallocTook(r, w'.s, pf, w.cr3, vp, done, f);
    } else {
      var q :| ServesPage(w.s, f, q);
      assert !InRun(pf, w.cr3, vp, cnt, q);
      assert ServesPage(w'.s, f, q);
    }
  }

  lemma MallocTook(r: Snap, s: Snap, pf: PoolFlag, pd: nat, vp: nat, done: nat, f: nat)
    requires Inv(r) && MappedRun(r, s, pf, pd, vp, done) && r.up.Sane() && r.up.Holds(f) && Free(r, f) && !Free(s, f)
    ensures Serves(s, f)
  {
    UserFrame(r, f);
    var q := s.owner[f].page;
    assert ServesPage(s, f, q);
  }

  lemma FreeLosesNone(w: World, call: Call, w': World, f: nat)
    requires Sound(w) && call.MFreed? && Step(w, call, w') && PoolsSane(w'.s) && w'.s.up.Holds(f) && !w'.s.up.Free(f)
    ensures Serves(w'.s, f)
  {
    InvSane(w.s);
    UserFrame(w'.s, f);
    UserFrame(w.s, f);
    var q :| ServesPage(w.s, f, q);
    MappedOwner(w.s, q);
    hide Inv;
    assert !InRun(call.pf, w.cr3, call.vp, call.cnt, q);
    assert ServesPage(w'.s, f, q);
  }

  lemma ExecuteLosesNone(w: World, call: Call, w': World, f: nat)
    requires Sound(w) && call.StartedAs? && Step(w, call, w') && PoolsSane(w'.s) && w'.s.up.Holds(f) && !w'.s.up.Free(f)
    ensures Serves(w'.s, f)
  {
    hide Inv;
    var q :| ServesPage(w.s, f, q);
    assert ServesPage(w'.s, f, q);
  }

  lemma StepForked(w: World, call: Call, w': World)
    requires Inv(w.s) && call.ForkedAs? && Step(w, call, w')
    ensures Inv(w'.s)
  {
  }

  lemma ForkLosesNone(w: World, call: Call, w': World, f: nat)
    requires Sound(w) && call.ForkedAs? && Step(w, call, w') && PoolsSane(w'.s) && w'.s.up.Holds(f)
    requires !w'.s.up.Free(f)
    ensures Serves(w'.s, f)
  {
    hide Inv, Copied;
    StepForked(w, call, w');
    if w.s.up.Free(f) {
      assert TakenForChild(w'.s, call.child, f);
      ChildFrame(w'.s, call.child, f);
    } else {
      var q :| ServesPage(w.s, f, q);
      assert ServesPage(w'.s, f, q);
    }
  }

  lemma ChildFrame(s: Snap, child: nat, f: nat)
    requires Inv(s) && child < 0x10_0000 && TakenForChild(s, child, f) && s.up.Sane() && s.up.Holds(f)
    ensures Serves(s, f)
  {
    UserFrame(s, f);
    assert ServesPage(s, f, s.owner[f].page);
  }

  lemma ExitLosesNone(w: World, call: Call, w': World, f: nat)
    requires Sound(w) && call.ExitedTo? && Step(w, call, w') && PoolsSane(w'.s) && w'.s.up.Holds(f) && !w'.s.up.Free(f)
    ensures Serves(w'.s, f)
  {
    InvSane(w.s);
    UserFrame(w'.s, f);
    UserFrame(w.s, f);
    var q :| ServesPage(w.s, f, q);
    MappedOwner(w.s, q);
    hide Inv;
    assert q.pd != w.cr3;
    assert ServesPage(w'.s, f, q);
  }

  /** User memory stands still while a call fails or only switches. */
  lemma UserHalfKept(s: Snap, s': Snap, f: nat)
    requires Inv(s) && NoneLost(s) && s'.up == s.up && s'.uv.Keys == s.uv.Keys && s.up.Holds(f) && !s.up.Free(f)
    requires forall q: Page | q.UserPage? && InSpace(s, q) :: Look(s', q) == Look(s, q)
    ensures Serves(s', f)
  {
    hide Inv;
    var q :| ServesPage(s, f, q);
    assert ServesPage(s', f, q);
  }

  lemma FailureLosesNone(w: World, call: Call, w': World, f: nat)
    requires Sound(w) && (call.NoRun? || call.NotStarted? || call.NotForked? || call.SwitchedTo?) && Step(w, call, w')
    requires PoolsSane(w'.s) && w'.s.up.Holds(f) && !w'.s.up.Free(f)
    ensures Serves(w'.s, f)
  {
    hide Inv, FirstRun;
    if call.NotForked? && w'.s != w.s {
      var tv: nat :| KernelPageStep(w.s, w'.s, w.cr3, tv, ZeroFrame());
    }
    UserHalfKept(w.s, w'.s, f);
  }

  /** Of a call that leaves a valid machine: no user frame is lost by it. */
  lemma StepLosesNone(w: World, call: Call, w': World)
    requires Sound(w) && Step(w, call, w') && Inv(w'.s) && Directory(w'.s, w'.cr3)
    ensures Sound(w')
  {
    hide Serves, NoneLost;
    InvSane(w'.s);
    forall f: nat | w'.s.up.Holds(f) && !w'.s.up.Free(f)
      ensures Serves(w'.s, f)
    {
      hide Step, Sound, Inv;
      match call
      case Malloced(_, _, _, _, _) => MallocLosesNone(w, call, w', f);
      case MFreed(_, _, _) => FreeLosesNone(w, call, w', f);
      case StartedAs(_, _) => ExecuteLosesNone(w, call, w', f);
      case ForkedAs(_, _) => ForkLosesNone(w, call, w', f);
      case ExitedTo(_) => ExitLosesNone(w, call, w', f);
      case _ => FailureLosesNone(w, call, w', f);
    }
    FindPages(w'.s);
  }

  /** The machine as mem_pool_init leaves it is sound. */
  lemma BootIsSound(s: Snap)
    requires Inv(s) && s.up == Pool(NoneTaken(), 480, 0x200 + 3840)
    ensures Sound(World(s, BOOT))
  {
    FindPages(s);
  }

  lemma SoundIsInv(w: World)
    requires Sound(w)
    ensures Inv(w.s) && Directory(w.s, w.cr3)
  {
  }

  // ---- the directories of the processes ----

  /** Every process's directory is mapped at the kernel address its pcb names. */
  ghost predicate AllAt(s: Snap, dirs: map<nat, Word>) {
    dirs.Keys == s.uv.Keys && forall d | d in dirs :: DirectoryAt(s, dirs[d], d)
  }

  lemma StepFreed(w: World, call: Call, w': World)
    requires Inv(w.s) && call.MFreed? && Step(w, call, w')
    ensures RunIsMapped(w.s, call.pf, w.cr3, call.vp, call.cnt)
  {
  }

  /** A page that is mapped and not freed stays where it is, unless its own process exits. */
  lemma LookStays(w: World, call: Call, w': World, pg: Page)
    requires Inv(w.s) && Step(w, call, w') && InSpace(w.s, pg) && Look(w.s, pg).Some?
    requires call.MFreed? ==> !InRun(call.pf, w.cr3, call.vp, call.cnt, pg)
    requires call.ExitedTo? && pg.UserPage? ==> pg.pd != w.cr3
    ensures InSpace(w'.s, pg) && Look(w'.s, pg) == Look(w.s, pg)
  {
    hide Inv, FirstRun;
    match call
    case Malloced(pf, cnt, vp, r, done) =>
      SameView(w.s, r);
      assert !InRun(pf, w.cr3, vp, cnt, pg);
    case _ =>
  }

  /** A process that was not there before has a directory on a frame that was free. */
  lemma NewSpaceFresh(w: World, call: Call, w': World, d: nat)
    requires Inv(w.s) && Step(w, call, w') && d in w'.s.uv && d !in w.s.uv
    ensures w.s.kp.Sane() && w.s.up.Sane() && Free(w.s, d)
  {
    InvSane(w.s);
    hide Inv, FirstRun;
  }

  /** No call moves the directory of a process that lives through it. */
  lemma DirectoryStays(w: World, call: Call, w': World, dir: Word, d: nat)
    requires Inv(w.s) && Step(w, call, w') && d in w.s.uv && DirectoryAt(w.s, dir, d)
    ensures DirectoryAt(w'.s, dir, d)
  {
    hide Inv, Step;
    var pg := KernelPage(dir / 4096);
    if call.MFreed? {
      StepFreed(w, call, w');
      assert !InRun(call.pf, w.cr3, call.vp, call.cnt, pg);
    }
    LookStays(w, call, w', pg);
  }
}
