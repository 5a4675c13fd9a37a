/** What fork, exit and the reaping of a child do to the process table, process by process. */
module ProcessLaws {
  import opened Bitmaps
  import opened Processes

  /**
   * A fork adds one process: the least pid not in use, the caller for a parent, not waiting; no other process
   * changes.
   */
  lemma ForkLaw(s: State, s': State, p: nat, c: nat)
    requires Inv(s) && Fork(s, s', p, c)
    ensures c !in s.procs && 1 <= c && (forall q: nat | 1 <= q < c :: q in s.procs)
    ensures s'.procs.Keys == s.procs.Keys + {c} && forall q | q in s.procs :: s'.procs[q] == s.procs[q]
    ensures var child := s'.procs[c];
            child.parent == p && child.status.Active? && child.wait.NoWait? && forall q | q in s.procs ::
              s.procs[q].uid != child.uid
    ensures s'.bits == s.bits[c - 1 := true]
  {
    hide Family, Waits, Log;
    forall q: nat | 1 <= q < c
      ensures q in s.procs
    {
      assert !Fits(s.bits, q - 1, 1);
    }
  }

  /**
   * An exit hands the caller's children to process 1, leaves it hanging with the low byte of its status, and wakes
   * its parent if that waits; nothing else of any process changes and none leaves the table.
   */
  lemma ExitLaw(s: State, s': State, p: nat, status: int, q: nat)
    requires Inv(s) && Exit(s, s', p, status) && q in s.procs
    ensures s'.procs.Keys == s.procs.Keys && s'.bits == s.bits && s'.log == s.log
    ensures s'.procs[q].parent == (if s.procs[q].parent == p then 1 else s.procs[q].parent)
    ensures s'.procs[q].status == if q == p then Hanging
                                  else if q == s.procs[p].parent && s.procs[q].status.Waiting? then Active
                                  else s.procs[q].status
    ensures q == p ==> s'.procs[q].code == Int8(status) && s'.procs[q].wait == s.procs[q].wait
    ensures q != p ==> s'.procs[q].code == s.procs[q].code && s'.procs[q].wait == s.procs[q].wait
    ensures s'.procs[q].uid == s.procs[q].uid
  {
    hide Records, Log, Waits;
  }

  /** Reaping removes the child and frees its pid; the caller no longer waits; nothing else changes. */
  lemma ReapLaw(s: State, p: nat, c: nat, q: nat)
    requires Inv(s) && p in s.procs && c in s.procs && p != c && q in s.procs
    ensures var s' := Reaped(s, p, c);
            && s'.procs.Keys == s.procs.Keys - {c} && s'.bits == s.bits[c - 1 := false]
            && (q != c && q != p ==> s'.procs[q] == s.procs[q])
            && (q == p ==> s'.procs[q] == s.procs[q].(wait := NoWait))
            && s'.log == s.log + [(s.procs[c].uid, s.procs[c].code)]
  {
    hide Records, Log, Waits, Family;
  }
}
