/**
 * device/ide.c: transfers in chunks of at most 256 sectors through an 8-bit count, and the handshake between the
 * driver and the interrupt handler.
 */
module Ide {
  import opened Options

  type Block = s: seq<int> | |s| == 512 witness seq(512, _ => 0)

  const MAX_LBA: nat := 163839

  // ---- the registers ----

  const CMD_READ_SECTOR: nat := 0x20
  const CMD_WRITE_SECTOR: nat := 0x30

  /** The registers of a channel, a byte each. */
  datatype Registers = Registers(count: nat, low: nat, mid: nat, high: nat, dev: nat, cmd: nat)

  /** BIT_DEV_MBS, BIT_DEV_LBA and, for the second drive, BIT_DEV_DEV. */
  function DevBits(no: nat): nat { 0xa0 + 0x40 + if no == 1 then 0x10 else 0 }

  /** select_sector: every outb keeps the low byte of its operand. */
  function Select(r: Registers, no: nat, lba: nat, secs: nat): Registers {
    r.(count := secs % 256, low := lba % 256, mid := lba / 256 % 256, high := lba / 65536 % 256,
       dev := (DevBits(no) + lba / 16777216) % 256)
  }

  // What the device makes of them, by the ATA register layout: bit 4 of the device register names the drive, bit 6
  // asks for LBA addressing, its low four bits are the top of the address, and a count of 0 stands for 256.

  function Selected(r: Registers): nat { r.dev / 16 % 2 }

  predicate ByLba(r: Registers) { r.dev / 64 % 2 == 1 }

  function Start(r: Registers): nat { r.low + 256 * r.mid + 65536 * r.high + 16777216 * (r.dev % 16) }

  function Count(r: Registers): nat { if r.count == 0 then 256 else r.count }

  /** What the driver selects is what the device sees: drive, address and count, the fixed bits 7 and 5 set. */
  lemma SelectedIsSeen(r: Registers, no: nat, lba: nat, secs: nat)
    requires no < 2 && lba < 0x1000_0000 && 1 <= secs <= 256
    ensures var r' := Select(r, no, lba, secs);
            && Selected(r') == no && ByLba(r') && Start(r') == lba && Count(r') == secs && r'.cmd == r.cmd
            && r'.dev < 256 && r'.dev / 128 == 1 && r'.dev / 32 % 2 == 1
  {
    var a, b, c := lba / 256, lba / 65536, lba / 16777216;
    assert a / 256 == b && b / 256 == c && c < 16;
    assert lba == a * 256 + lba % 256 && a == b * 256 + a % 256 && b == c * 256 + b % 256;
    var base := if no == 1 then 0xf0 else 0xe0;
    assert (base + c) % 256 == base + c && (base + c) % 16 == c && (base + c) / 16 == base / 16;
  }

  /** The sectors from `at` on replaced by `data`. */
  function Splice(b: seq<Block>, at: nat, data: seq<Block>): (r: seq<Block>)
    requires at + |data| <= |b|
    ensures |r| == |b|
  {
    b[..at] + data + b[at + |data|..]
  }

  lemma SpliceMore(b: seq<Block>, at: nat, x: seq<Block>, y: seq<Block>)
    requires at + |x| + |y| <= |b|
    ensures Splice(Splice(b, at, x), at + |x|, y) == Splice(b, at, x + y)
  {
  }

  lemma SpliceNone(b: seq<Block>, at: nat)
    requires at <= |b|
    ensures Splice(b, at, []) == b
  {
  }

  /** A channel with its two drives; the device side acts on the drive its register names. */
  class Controller {
    var master: seq<Block>
    var slave: seq<Block>
    var regs: Registers

    constructor (master: seq<Block>, slave: seq<Block>)
      ensures this.master == master && this.slave == slave
    {
      this.master, this.slave, regs := master, slave, Registers(0, 0, 0, 0, 0, 0);
    }

    function Drive(no: nat): seq<Block>
      reads this
    {
      if no == 1 then slave else master
    }

    /** select_disk */
    method SelectDisk(no: nat)
      modifies this`regs
      ensures regs == old(regs).(dev := DevBits(no))
    {
      regs := regs.(dev := DevBits(no));
    }

    /** cmd_out */
    method CmdOut(cmd: nat)
      modifies this`regs
      ensures regs == old(regs).(cmd := cmd)
    {
      regs := regs.(cmd := cmd);
    }

    /** read_from_sector: the driver takes as many sectors as its own 8-bit count says, of the drive selected. */
    method ReadFromSector(secCnt: nat) returns (data: seq<Block>)
      requires secCnt < 256 && ByLba(regs) && regs.cmd == CMD_READ_SECTOR
      requires Start(regs) + Count(regs) <= |Drive(Selected(regs))|
      requires Count(regs) == if secCnt == 0 then 256 else secCnt
      ensures data == Drive(Selected(regs))[Start(regs)..Start(regs) + Count(regs)]
    {
      var n := if secCnt == 0 then 256 else secCnt;
      data := Drive(Selected(regs))[Start(regs)..Start(regs) + n];
    }

    /** write2sector */
    method Write2Sector(secCnt: nat, data: seq<Block>)
      requires secCnt < 256 && ByLba(regs) && regs.cmd == CMD_WRITE_SECTOR
      requires Start(regs) + Count(regs) <= |Drive(Selected(regs))|
      requires Count(regs) == (if secCnt == 0 then 256 else secCnt) && |data| >= Count(regs)
      modifies this`master, this`slave
      ensures Drive(Selected(regs)) == Splice(old(Drive(Selected(regs))), Start(regs), data[..Count(regs)])
      ensures Drive(1 - Selected(regs)) == old(Drive(1 - Selected(regs)))
    {
      var n := if secCnt == 0 then 256 else secCnt;
      if Selected(regs) == 1 {
        slave := Splice(slave, Start(regs), data[..n]);
      } else {
        master := Splice(master, Start(regs), data[..n]);
      }
    }

    /** One pass of ide_read's loop: select, command, transfer. */
    method ReadChunk(no: nat, lba: nat, op: nat) returns (data: seq<Block>)
      requires no < 2 && lba <= MAX_LBA && 1 <= op <= 256 && lba + op <= |Drive(no)|
      modifies this`regs
      ensures data == Drive(no)[lba..lba + op]
    {
      hide Select, Start, Count, Selected, ByLba;
      CmdSelects(regs, no, lba, op, CMD_READ_SECTOR);
      regs := Select(regs, no, lba, op);
      CmdOut(CMD_READ_SECTOR);
      data := ReadFromSector(op % 256);
    }

    /** ide_read from drive `no`. */
    method Read(no: nat, lba: nat, secCnt: nat) returns (buf: seq<Block>)
      requires no < 2 && lba <= MAX_LBA && secCnt > 0 && lba + secCnt <= |Drive(no)|
      requires lba + (secCnt - 1) / 256 * 256 <= MAX_LBA
      modifies this`regs
      ensures buf == Drive(no)[lba..lba + secCnt]
    {
      SelectDisk(no);
      buf := [];
      var done := 0;
      while done < secCnt
        invariant 0 <= done <= secCnt && (done < secCnt ==> done % 256 == 0)
        invariant buf == Drive(no)[lba..lba + done]
      {
        var op := 0;
        if done + 256 <= secCnt {
          op := 256;
        } else {
          op := secCnt - done;
        }
        ChunkInRange(lba, secCnt, done);
        var data := ReadChunk(no, lba + done, op);
        SliceMore(Drive(no), lba, done, op);
        buf := buf + data;
        done := done + op;
      }
    }

    /** ide_write to drive `no`. */
    method Write(no: nat, lba: nat, buf: seq<Block>)
      requires no < 2 && lba <= MAX_LBA && |buf| > 0 && lba + |buf| <= |Drive(no)|
      requires lba + (|buf| - 1) / 256 * 256 <= MAX_LBA
      modifies this
      ensures Drive(no) == Splice(old(Drive(no)), lba, buf) && Drive(1 - no) == old(Drive(1 - no))
    {
      hide Select, Start, Count, Selected, ByLba, Splice;
      var secCnt := |buf|;
      var done := 0;
      SelectDisk(no);
      ghost var before := Drive(no);
      SpliceNone(before, lba);
      while done < secCnt
        invariant 0 <= done <= secCnt && (done < secCnt ==> done % 256 == 0) && |Drive(no)| == |before|
        invariant Drive(no) == Splice(before, lba, buf[..done]) && Drive(1 - no) == old(Drive(1 - no))
      {
        var op := 0;
        if done + 256 <= secCnt {
          op := 256;
        } else {
          op := secCnt - done;
        }
        ChunkInRange(lba, secCnt, done);
        assert lba + done <= MAX_LBA;
        CmdSelects(regs, no, lba + done, op, CMD_WRITE_SECTOR);
        regs := Select(regs, no, lba + done, op);
        CmdOut(CMD_WRITE_SECTOR);
        Write2Sector(op % 256, buf[done..]);
        assert buf[done..][..op] == buf[done..done + op] && buf[..done + op] == buf[..done] + buf[done..done + op];
        SpliceMore(before, lba, buf[..done], buf[done..done + op]);
        done := done + op;
      }
      assert buf[..done] == buf;
    }
  }

  /** The command written last leaves drive, address and count selected. */
  lemma CmdSelects(r: Registers, no: nat, lba: nat, secs: nat, cmd: nat)
    requires no < 2 && lba < 0x1000_0000 && 1 <= secs <= 256
    ensures var r' := Select(r, no, lba, secs).(cmd := cmd);
            Selected(r') == no && ByLba(r') && Start(r') == lba && Count(r') == secs
  {
    SelectedIsSeen(r, no, lba, secs);
  }

  lemma SliceMore(b: seq<Block>, lba: nat, done: nat, op: nat)
    requires lba + done + op <= |b|
    ensures b[lba..lba + done] + b[lba + done..lba + done + op] == b[lba..lba + done + op]
  {
  }

  lemma ChunkInRange(lba: nat, secCnt: nat, done: nat)
    requires secCnt > 0 && done < secCnt && done % 256 == 0
    ensures done <= (secCnt - 1) / 256 * 256
  {
  }

  /**
   * Writing then reading the same range of a drive gives the data back, and neither the sectors outside it nor the
   * other drive are touched.
   */
  method WriteThenRead(c: Controller, no: nat, lba: nat, buf: seq<Block>) returns (back: seq<Block>)
    requires no < 2 && lba <= MAX_LBA && |buf| > 0 && lba + |buf| <= |c.Drive(no)|
    requires lba + (|buf| - 1) / 256 * 256 <= MAX_LBA
    modifies c
    ensures back == buf && |c.Drive(no)| == |old(c.Drive(no))| && c.Drive(1 - no) == old(c.Drive(1 - no))
    ensures forall k: nat | k < |c.Drive(no)| && !(lba <= k < lba + |buf|) :: c.Drive(no)[k] == old(c.Drive(no))[k]
  {
    c.Write(no, lba, buf);
    back := c.Read(no, lba, |buf|);
  }

  // ---- the handshake ----

  type Tid = nat

  /** Outside the lock; about to issue; issued and about to try disk_done; blocked on it; served. */
  datatype Pc = Out | Selecting | Issued | Blocked | Served

  /**
   * The channel: its lock's holder, expecting_intr, disk_done, and counts of commands, completions and wake-ups
   * taken.
   */
  datatype Channel = Channel(holder: Option<Tid>, expecting: bool, done: nat, waiter: Option<Tid>, pcs: map<Tid, Pc>,
    cmds: nat, ups: nat, downs: nat)

  datatype Event = Acquire(t: Tid) | Command(t: Tid) | Down(t: Tid) | Again(t: Tid) | Release(t: Tid) | Interrupt

  function At(s: Channel, t: Tid, pc: Pc): Channel { s.(pcs := s.pcs[t := pc]) }

  /** intr_hd_handler, for an interrupt of the device or a spurious one. */
  function Handled(s: Channel): Channel {
    if !s.expecting then s else
      var s1 := s.(expecting := false, ups := s.ups + 1, done := s.done + 1, waiter := None);
      if s.waiter.Some? then At(s1, s.waiter.value, Issued) else s1
  }

  ghost predicate Step(s: Channel, s': Channel, e: Event) {
    match e
    case Acquire(t) => t in s.pcs && s.pcs[t].Out? && s.holder == None && s' == At(s, t, Selecting).(holder := Some(t))
    case Command(t) => t in s.pcs && s.pcs[t].Selecting? &&
      s' == At(s, t, Issued).(expecting := true, cmds := s.cmds + 1)
    case Down(t) => t in s.pcs && s.pcs[t].Issued?
                    && s' == if s.done == 0 then At(s, t, Blocked).(waiter := Some(t))
                         else At(s, t, Served).(done := s.done - 1, downs := s.downs + 1)
    case Again(t) => t in s.pcs && s.pcs[t].Served? && s' == At(s, t, Selecting)
    case Release(t) => t in s.pcs && s.pcs[t].Served? && s' == At(s, t, Out).(holder := None)
    case Interrupt => s' == Handled(s)
  }

  /** The holder has issued a command whose completion it has not taken. */
  predicate InFlight(s: Channel) {
    s.holder.Some? && s.holder.value in s.pcs && (s.pcs[s.holder.value].Issued? || s.pcs[s.holder.value].Blocked?)
  }

  ghost predicate Inv(s: Channel) {
    && (forall t | t in s.pcs && !s.pcs[t].Out? :: s.holder == Some(t))
    && (s.holder.Some? ==> s.holder.value in s.pcs && !s.pcs[s.holder.value].Out?)
    && s.done + (if s.expecting then 1 else 0) == (if InFlight(s) then 1 else 0)
    && s.cmds == s.ups + (if s.expecting then 1 else 0) && s.ups == s.downs + s.done
    && (forall t | t in s.pcs :: s.pcs[t].Blocked? <==> s.waiter == Some(t))
    && (s.waiter.Some? ==> s.waiter.value in s.pcs && s.expecting)
  }

  lemma StepKeeps(s: Channel, s': Channel, e: Event)
    requires Inv(s) && Step(s, s', e)
    ensures Inv(s')
  {
  }

  /** The state after `t` took the completion of the command in flight. */
  ghost predicate Completed(s: Channel, r: Channel, t: Tid) {
    && r.pcs == s.pcs[t := Served] && r.holder == Some(t) && !r.expecting && r.done == 0 && r.waiter == None
    && r.cmds == s.cmds && r.ups == s.ups + 1 && r.downs == s.downs + 1
  }

  /** The interrupt may come before semaphore_down or find the caller asleep in it: the end is the same. */
  lemma ServedEitherWay(s: Channel, t: Tid, early: Channel, asleep: Channel, late: Channel)
    requires Inv(s) && t in s.pcs && s.pcs[t].Issued? && s.expecting
    requires Step(Handled(s), early, Down(t))
    requires Step(s, asleep, Down(t)) && Step(Handled(asleep), late, Down(t))
    ensures asleep.pcs[t].Blocked? && Completed(s, early, t) && late == early
  {
    assert late.pcs == early.pcs;
  }

  /** A call of one sector that nobody contends for leaves the channel as it was, one command further. */
  lemma CommandRound(s: Channel, t: Tid, trace: seq<Channel>)
    requires Inv(s) && t in s.pcs && s.holder == None && |trace| == 5
    requires Step(s, trace[0], Acquire(t)) && Step(trace[0], trace[1], Command(t))
    requires Step(trace[1], trace[2], Interrupt) && Step(trace[2], trace[3], Down(t))
    requires Step(trace[3], trace[4], Release(t))
    ensures trace[4] == s.(cmds := s.cmds + 1, ups := s.ups + 1, downs := s.downs + 1)
  {
    assert trace[4].pcs == s.pcs;
  }

  /** disk_done is 0 or 1, a command is never issued over an unfinished one, and a sleeper has an interrupt to come. */
  ghost predicate Matched(s: Channel) {
    && s.done <= 1
    && (forall t | t in s.pcs && s.pcs[t].Issued? && s.done > 0 :: s.done - 1 == 0)
    && (forall t | t in s.pcs && s.pcs[t].Selecting? :: !s.expecting && s.done == 0 && s.cmds == s.ups == s.downs)
    && (forall t | t in s.pcs && s.pcs[t].Served? :: s.cmds == s.ups == s.downs)
    && (forall t | t in s.pcs && s.pcs[t].Blocked? :: s.expecting)
    && s.downs <= s.ups <= s.cmds <= s.downs + 1
  }

  ghost predicate Run(trace: seq<Channel>, events: seq<Event>) {
    && |trace| == |events| + 1
    && trace[0].holder == None && !trace[0].expecting && trace[0].done == 0 && trace[0].waiter == None
    && trace[0].cmds == 0 && trace[0].ups == 0 && trace[0].downs == 0
    && (forall t | t in trace[0].pcs :: trace[0].pcs[t].Out?)
    && forall i: nat | i < |events| :: StepAt(trace, events, i)
  }

  ghost predicate StepAt(trace: seq<Channel>, events: seq<Event>, i: nat)
    requires |trace| == |events| + 1 && i < |events|
  {
    Step(trace[i], trace[i + 1], events[i])
  }

  /** Under any interleaving of clients and interrupts each command has exactly one completion. */
  lemma {:induction false} EveryCommandIsMatched(trace: seq<Channel>, events: seq<Event>, n: nat)
    requires Run(trace, events) && n < |trace|
    ensures Inv(trace[n]) && Matched(trace[n])
  {
    if n > 0 {
      var i := n - 1;
      EveryCommandIsMatched(trace, events, i);
      assert StepAt(trace, events, i);
      StepKeeps(trace[i], trace[n], events[i]);
    }
  }
}
