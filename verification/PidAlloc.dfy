/** How fork1 finds a process ID: nextpid and pidchecked remember a range of IDs known to be unused,
    so that most forks need no search. */
module PidAlloc {
  const PID_MAX := 30000

  /** A process on allproc or zombproc: its ID and that of its group. */
  datatype Proc = Proc(pid: int, pgid: int)

  predicate Has(p: Proc, id: int) { p.pid == id || p.pgid == id }

  ghost predicate Used(procs: seq<Proc>, id: int) { exists i :: 0 <= i < |procs| && Has(procs[i], id) }

  /** Neither ID of p is from lo up to hi. */
  predicate Clear(p: Proc, lo: int, hi: int) { !(lo <= p.pid < hi) && !(lo <= p.pgid < hi) }

  ghost predicate AllClear(procs: seq<Proc>, lo: int, hi: int) {
    forall i :: 0 <= i < |procs| ==> Clear(procs[i], lo, hi)
  }

  ghost predicate AllUsed(procs: seq<Proc>, lo: int, hi: int) { forall id :: lo <= id < hi ==> Used(procs, id) }

  /** id is the first unused ID after the last one given out, or from 100 on if there is none up to the
      largest. */
  ghost predicate Next(procs: seq<Proc>, last: int, id: int) {
    !Used(procs, id) &&
    if last < id then AllUsed(procs, last + 1, id)
    else 100 <= id && AllUsed(procs, last + 1, PID_MAX) && AllUsed(procs, 100, id)
  }

  lemma ClearUnused(procs: seq<Proc>, lo: int, hi: int, id: int)
    requires AllClear(procs, lo, hi) && lo <= id < hi
    ensures !Used(procs, id)
  {
    forall i | 0 <= i < |procs|
      ensures !Has(procs[i], id)
    {
      assert Clear(procs[i], lo, hi);
    }
  }

  /** How far the search is from an ID it cannot pass. */
  function Distance(next: int, goal: int): int {
    if next > goal then 2 * PID_MAX - next else goal - next
  }

  /** The processes, live ones first, and the two static variables of fork1. */
  class PidTable {
    var procs: seq<Proc>
    var nextpid: int
    var pidchecked: int

    /** The cached range is unused, and no two processes have the same ID. */
    ghost predicate Valid()
      reads this
    {
      0 <= nextpid < PID_MAX && AllClear(procs, nextpid + 1, pidchecked) && pidchecked <= PID_MAX &&
      forall i, j :: 0 <= i < j < |procs| ==> procs[i].pid != procs[j].pid
    }

    /** Step nextpid over the IDs of one process; again tells that the checked range is used up. */
    method StepOver(p: Proc, ghost goal: int) returns (again: bool)
      requires nextpid < pidchecked <= PID_MAX && !Has(p, goal) && nextpid <= PID_MAX
      modifies this`nextpid
      ensures old(nextpid) <= nextpid <= pidchecked && (again ==> old(nextpid) < nextpid == pidchecked)
      ensures !again ==> nextpid < pidchecked && !Has(p, nextpid)
      ensures old(nextpid) <= goal ==> nextpid <= goal
      ensures forall id :: old(nextpid) <= id < nextpid ==> Has(p, id)
    {
      again := false;
      while p.pid == nextpid || p.pgid == nextpid
        invariant old(nextpid) <= nextpid < pidchecked && (old(nextpid) <= goal ==> nextpid <= goal)
        invariant forall id :: old(nextpid) <= id < nextpid ==> Has(p, id)
        decreases pidchecked - nextpid
      {
        nextpid := nextpid + 1;
        if nextpid >= pidchecked { return true; }
      }
    }

    /** One pass over all processes: either nextpid is unused and everything up to pidchecked with it,
        or the pass has to be made again from a higher nextpid. */
    method Pass(ghost goal: int) returns (again: bool)
      requires nextpid < PID_MAX && !Used(procs, goal) && 100 <= goal < PID_MAX
      modifies this`nextpid, this`pidchecked
      ensures old(nextpid) <= nextpid <= PID_MAX && pidchecked <= PID_MAX && (old(nextpid) <= goal ==> nextpid <= goal)
      ensures if again then old(nextpid) < nextpid && nextpid >= pidchecked
              else nextpid < pidchecked && AllClear(procs, nextpid, pidchecked)
      ensures AllUsed(procs, old(nextpid), nextpid)
    {
      pidchecked := PID_MAX;
      var i := 0;
      while i < |procs|
        invariant 0 <= i <= |procs| && old(nextpid) <= nextpid < pidchecked <= PID_MAX &&
                  (old(nextpid) <= goal ==> nextpid <= goal)
        invariant forall j :: 0 <= j < i ==> Clear(procs[j], nextpid, pidchecked)
        invariant AllUsed(procs, old(nextpid), nextpid)
      {
        var p := procs[i];
        assert !Has(p, goal);
        again := StepOver(p, goal);
        if again { return; }
        if p.pid > nextpid && pidchecked > p.pid { pidchecked := p.pid; }
        if p.pgid > nextpid && pidchecked > p.pgid { pidchecked := p.pgid; }
        i := i + 1;
      }
      again := false;
    }

    /** The search of fork1. goal is any unused ID from 100 on; because there is one, the search ends. */
    method FindPid(ghost goal: int)
      requires Valid() && !Used(procs, goal) && 100 <= goal < PID_MAX
      modifies this`nextpid, this`pidchecked
      ensures Valid() && 0 < nextpid && Next(procs, old(nextpid), nextpid)
    {
      nextpid := nextpid + 1;
      ghost var wrapped := false;
      while true
        invariant if wrapped
                  then 100 <= nextpid && AllUsed(procs, old(nextpid) + 1, PID_MAX) && AllUsed(procs, 100, nextpid)
                  else old(nextpid) < nextpid && AllUsed(procs, old(nextpid) + 1, nextpid)
        invariant 0 < nextpid <= PID_MAX && pidchecked <= PID_MAX
        invariant nextpid < pidchecked ==> AllClear(procs, nextpid, pidchecked)
        decreases Distance(nextpid, goal), if nextpid < pidchecked then 0 else 1
      {
        if nextpid >= PID_MAX {
          nextpid := 100;
          pidchecked := 0;
          wrapped := true;
        }
        if nextpid < pidchecked { break; }
        var again := Pass(goal);
        if !again { break; }
      }
      ClearUnused(procs, nextpid, pidchecked, nextpid);
    }

    /** The new process has an ID that no process, live or zombie, has as its own or its group's; it
        joins its parent's group. */
    method Fork(parent: nat, ghost goal: int)
      requires Valid() && parent < |procs| && !Used(procs, goal) && 100 <= goal < PID_MAX
      modifies this
      ensures Valid() && Next(old(procs), old(nextpid), nextpid)
      ensures procs == [Proc(nextpid, old(procs)[parent].pgid)] + old(procs)
    {
      FindPid(goal);
      ghost var p := procs;
      procs := [Proc(nextpid, procs[parent].pgid)] + procs;
      assert Clear(p[parent], nextpid + 1, pidchecked);
      forall i | 0 <= i < |p|
        ensures p[i].pid != nextpid
      {
        assert !Has(p[i], nextpid);
      }
    }

    /** A process moves to a group of its own or to one that exists: the cached range stays unused. */
    method Setpgid(i: nat, pgid: int)
      requires Valid() && i < |procs| && (pgid == procs[i].pid || exists j :: 0 <= j < |procs| && procs[j].pgid == pgid)
      modifies this`procs
      ensures Valid() && procs == old(procs)[i := Proc(old(procs)[i].pid, pgid)]
    {
      assert Clear(procs[i], nextpid + 1, pidchecked);
      procs := procs[i := Proc(procs[i].pid, pgid)];
    }

    /** A process is gone for good. */
    method Reap(i: nat)
      requires Valid() && i < |procs|
      modifies this`procs
      ensures Valid() && procs == old(procs)[..i] + old(procs)[i + 1..]
    {
      procs := procs[..i] + procs[i + 1..];
    }
  }
}
