/** select, selscan, selrecord and selwakeup: how a process that waits for one of several
    descriptors agrees with the interrupts that make descriptors ready. */
module Select {
  import opened Common

  /** One selectable condition: its selinfo (si_pid, SI_COLL) and whether fo_select finds it ready. */
  datatype SelInfo = SelInfo(pid: Option<nat>, coll: bool, ready: bool)

  /** Where a process is: not in select, in selscan with descriptors left, or gone into tsleep. */
  datatype Pc = Outside | Scanning(left: seq<Option<nat>>, found: nat) | Blocked

  /** select is P_SELECT, wchan says p_wchan is selwait, wants is what the caller asked for
      (None where no file is open), polled what this round found not ready. */
  datatype Proc = Proc(alive: bool, select: bool, wchan: bool, ncoll: nat, wants: seq<Option<nat>>, polled: set<nat>,
      pc: Pc)

  datatype State = State(procs: seq<Proc>, infos: seq<SelInfo>, nselcoll: nat)

  // ---------- the wakeup side ----------

  predicate OnSelwait(s: State, pid: Option<nat>) {
    pid.Some? && pid.value < |s.procs| && s.procs[pid.value].alive && s.procs[pid.value].wchan
  }

  function SetProc(s: State, p: nat, q: Proc): State
    requires p < |s.procs|
  {
    s.(procs := s.procs[p := q])
  }

  function SetInfo(s: State, o: nat, i: SelInfo): State
    requires o < |s.infos|
  {
    s.(infos := s.infos[o := i])
  }

  function Selrecord(s: State, p: nat, o: nat): State
    requires o < |s.infos|
  {
    var i := s.infos[o];
    if i.pid == Some(p) then s
    else if OnSelwait(s, i.pid) then SetInfo(s, o, i.(coll := true))
    else SetInfo(s, o, i.(pid := Some(p)))
  }

  /** wakeup(&selwait). */
  function WakeAll(procs: seq<Proc>): (r: seq<Proc>)
    ensures |r| == |procs|
    ensures forall p :: 0 <= p < |procs| ==> r[p] == procs[p].(wchan := false)
  {
    if procs == [] then [] else WakeAll(procs[..|procs| - 1]) + [procs[|procs| - 1].(wchan := false)]
  }

  function WakeOne(s: State, pid: nat): State {
    if pid >= |s.procs| || !s.procs[pid].alive then s
    else if s.procs[pid].wchan then SetProc(s, pid, s.procs[pid].(wchan := false))
    else SetProc(s, pid, s.procs[pid].(select := false))
  }

  function Collided(s: State, o: nat): State
    requires o < |s.infos|
  {
    if s.infos[o].coll then
      SetInfo(s, o, s.infos[o].(coll := false)).(nselcoll := s.nselcoll + 1, procs := WakeAll(s.procs))
    else s
  }

  function Selwakeup(s: State, o: nat): State
    requires o < |s.infos|
  {
    if s.infos[o].pid.None? then s
    else
      var t := Collided(s, o);
      WakeOne(SetInfo(t, o, t.infos[o].(pid := None)), s.infos[o].pid.value)
  }

  // ---------- the steps ----------

  /** Process steps: enter select, poll one descriptor, end a scan, give up on a timeout that has
      already passed, come back from tsleep, exit, fork. Interrupts: a condition comes true, a
      signal or timeout makes a sleeper runnable. Consume: a condition goes away again. */
  datatype Event =
    | Enter(p: nat, wants: seq<Option<nat>>) | Poll(p: nat) | Settle(p: nat) | Expire(p: nat)
    | Resume(p: nat, error: bool) | Exit(p: nat) | Fork(p: nat)
    | Fire(o: nat) | Interrupt(p: nat) | Consume(o: nat)

  /** A scan begins: the collision count is noted and P_SELECT set. */
  function Retry(s: State, p: nat, wants: seq<Option<nat>>): State
    requires p < |s.procs|
  {
    SetProc(s, p, s.procs[p].(select := true, ncoll := s.nselcoll, wants := wants, polled := {},
        pc := Scanning(wants, 0)))
  }

  function Leave(s: State, p: nat): State
    requires p < |s.procs|
  {
    SetProc(s, p, s.procs[p].(select := false, pc := Outside))
  }

  ghost predicate ValidWants(s: State, wants: seq<Option<nat>>) {
    forall i :: 0 <= i < |wants| && wants[i].Some? ==> wants[i].value < |s.infos|
  }

  /** The kernel is not preemptive: while a process scans, no other process runs. */
  ghost predicate HasCpu(s: State, p: nat) {
    p < |s.procs| && forall q :: 0 <= q < |s.procs| && s.procs[q].pc.Scanning? ==> q == p
  }

  /** What each event needs, apart from having the processor. */
  ghost predicate Ready(s: State, e: Event) {
    match e
    case Enter(p, wants) => p < |s.procs| && s.procs[p].alive && s.procs[p].pc.Outside? && ValidWants(s, wants)
    case Poll(p) => p < |s.procs| && s.procs[p].pc.Scanning? && s.procs[p].pc.left != [] &&
        ValidWants(s, s.procs[p].pc.left)
    case Settle(p) => p < |s.procs| && s.procs[p].pc.Scanning? && s.procs[p].pc.left == []
    case Expire(p) => p < |s.procs| && s.procs[p].pc.Scanning? && s.procs[p].pc.left == []
    case Resume(p, _) => p < |s.procs| && s.procs[p].pc.Blocked? && !s.procs[p].wchan
    case Exit(p) => p < |s.procs| && s.procs[p].alive && s.procs[p].pc.Outside?
    case Fork(p) => p < |s.procs| && !s.procs[p].alive
    case Fire(o) => o < |s.infos|
    case Interrupt(p) => p < |s.procs|
    case Consume(o) => o < |s.infos|
  }

  ghost predicate IsInterrupt(e: Event) { e.Fire? || e.Interrupt? || e.Consume? }

  ghost predicate Enabled(s: State, e: Event) {
    Ready(s, e) && (IsInterrupt(e) || HasCpu(s, e.p))
  }

  function PollOne(s: State, p: nat): State
    requires p < |s.procs| && s.procs[p].pc.Scanning? && s.procs[p].pc.left != []
    requires s.procs[p].pc.left[0].Some? ==> s.procs[p].pc.left[0].value < |s.infos|
  {
    var q := s.procs[p];
    match q.pc.left[0]
    case None => Leave(s, p)
    case Some(o) =>
      if s.infos[o].ready then SetProc(s, p, q.(pc := Scanning(q.pc.left[1..], q.pc.found + 1)))
      else SetProc(Selrecord(s, p, o), p, q.(pc := Scanning(q.pc.left[1..], q.pc.found), polled := q.polled + {o}))
  }

  function EndScan(s: State, p: nat): State
    requires p < |s.procs| && s.procs[p].pc.Scanning?
  {
    var q := s.procs[p];
    if q.pc.found != 0 then Leave(s, p)
    else if !q.select || s.nselcoll != q.ncoll then Retry(s, p, q.wants)
    else SetProc(s, p, q.(select := false, wchan := true, pc := Blocked))
  }

  ghost function Step(s: State, e: Event): State
    requires Ready(s, e)
  {
    match e
    case Enter(p, wants) => Retry(s, p, wants)
    case Poll(p) => PollOne(s, p)
    case Settle(p) => EndScan(s, p)
    case Expire(p) => Leave(s, p)
    case Resume(p, error) => if error then Leave(s, p) else Retry(s, p, s.procs[p].wants)
    case Exit(p) => SetProc(s, p, s.procs[p].(alive := false))
    case Fork(p) => SetProc(s, p, Proc(true, false, false, 0, [], {}, Outside))
    case Fire(o) => Selwakeup(SetInfo(s, o, s.infos[o].(ready := true)), o)
    case Interrupt(p) => SetProc(s, p, s.procs[p].(wchan := false))
    case Consume(o) => SetInfo(s, o, s.infos[o].(ready := false))
  }

  /** A run of the kernel: each event finds what it needs, and processes take turns. */
  ghost predicate Possible(s: State, es: seq<Event>): (r: bool)
    ensures r ==> Feasible(s, es)
    decreases |es|
  {
    es == [] || (Enabled(s, es[0]) && Possible(Step(s, es[0]), es[1..]))
  }

  /** The same without the processor: any interleaving. */
  ghost predicate Feasible(s: State, es: seq<Event>)
    decreases |es|
  {
    es == [] || (Ready(s, es[0]) && Feasible(Step(s, es[0]), es[1..]))
  }

  ghost function Exec(s: State, es: seq<Event>): State
    requires Feasible(s, es)
    decreases |es|
  {
    if es == [] then s else Exec(Step(s, es[0]), es[1..])
  }

  ghost predicate Init(s: State) {
    (forall p :: 0 <= p < |s.procs| ==> s.procs[p].pc.Outside? && !s.procs[p].wchan) &&
    (forall o :: 0 <= o < |s.infos| ==> s.infos[o].pid.None? && !s.infos[o].coll)
  }

  // ---------- what each step does to its process ----------

  /** Everything but process p is as it was. */
  ghost predicate OnlyProc(s: State, t: State, p: nat) {
    t.infos == s.infos && t.nselcoll == s.nselcoll && |t.procs| == |s.procs| &&
    forall q :: 0 <= q < |s.procs| && q != p ==> t.procs[q] == s.procs[q]
  }

  /** A scan of wants from the start: nothing polled, nothing found, P_SELECT set, the count noted. */
  ghost predicate Begins(s: State, q: Proc, wants: seq<Option<nat>>) {
    q.pc == Scanning(wants, 0) && q.wants == wants && q.polled == {} && q.select && q.ncoll == s.nselcoll
  }

  /** The end of a scan: select returns exactly when something was found ready; otherwise it sleeps exactly
      when P_SELECT is still set and no collision has been counted since the scan began, and else it
      scans everything asked for again. */
  lemma SettleOutcome(s: State, p: nat)
    requires Ready(s, Settle(p))
    ensures var q, t := s.procs[p], Step(s, Settle(p));
            OnlyProc(s, t, p) && t.procs[p].alive == q.alive && t.procs[p].wants == q.wants &&
            (t.procs[p].pc.Outside? <==> q.pc.found != 0) &&
            (t.procs[p].pc.Blocked? <==> q.pc.found == 0 && q.select && q.ncoll == s.nselcoll) &&
            (t.procs[p].pc.Blocked? ==> t.procs[p].wchan && !t.procs[p].select && t.procs[p].polled == q.polled) &&
            (t.procs[p].pc.Outside? ==> !t.procs[p].select && t.procs[p].wchan == q.wchan) &&
            (t.procs[p].pc.Scanning? ==> Begins(s, t.procs[p], q.wants) && t.procs[p].wchan == q.wchan)
  {
  }

  /** One poll: a ready descriptor is counted; one that is not is noted as polled and recorded; one that
      is not open ends the call. */
  lemma PollOutcome(s: State, p: nat)
    requires Ready(s, Poll(p))
    ensures var q, t := s.procs[p], Step(s, Poll(p));
            var d := q.pc.left[0];
            |t.procs| == |s.procs| && t.nselcoll == s.nselcoll &&
            (forall x :: 0 <= x < |s.procs| && x != p ==> t.procs[x] == s.procs[x]) &&
            (t.procs[p].pc.Outside? <==> d.None?) && (d.None? ==> t.infos == s.infos && !t.procs[p].select) &&
            (d.Some? ==>
               var ready := s.infos[d.value].ready;
               t.procs[p] == q.(pc := t.procs[p].pc, polled := t.procs[p].polled) && t.procs[p].pc.Scanning? &&
               t.procs[p].pc.left == q.pc.left[1..] && t.procs[p].pc.found == q.pc.found + (if ready then 1 else 0) &&
               t.procs[p].polled == (if ready then q.polled else q.polled + {d.value}) &&
               (ready ==> t.infos == s.infos) && |t.infos| == |s.infos| &&
               forall o :: 0 <= o < |s.infos| ==>
                 t.infos[o].ready == s.infos[o].ready && (o != d.value ==> t.infos[o] == s.infos[o]))
  {
  }

  /** The other steps: entering and coming back from a sleep begin a scan of everything asked for; an
      error or a timeout ends the call; what interrupts do. */
  lemma StepOutcome(s: State, e: Event)
    requires Ready(s, e) && !e.Settle? && !e.Poll? && !e.Fire?
    ensures var t := Step(s, e);
            match e
            case Enter(p, wants) =>
              OnlyProc(s, t, p) && Begins(s, t.procs[p], wants) && t.procs[p].wchan == s.procs[p].wchan
            case Expire(p) => OnlyProc(s, t, p) && t.procs[p].pc.Outside? && !t.procs[p].select
            case Resume(p, error) =>
              OnlyProc(s, t, p) && (t.procs[p].pc.Outside? <==> error) &&
              (!error ==> Begins(s, t.procs[p], s.procs[p].wants)) && !t.procs[p].wchan
            case Exit(p) => OnlyProc(s, t, p) && t.procs[p] == s.procs[p].(alive := false)
            case Fork(p) => OnlyProc(s, t, p) && t.procs[p].alive && t.procs[p].pc.Outside? && !t.procs[p].wchan
            case Interrupt(p) => OnlyProc(s, t, p) && t.procs[p] == s.procs[p].(wchan := false)
            case Consume(o) =>
              t.procs == s.procs && t.nselcoll == s.nselcoll && |t.infos| == |s.infos| &&
              forall x :: 0 <= x < |s.infos| ==>
                t.infos[x] == if x == o then s.infos[x].(ready := false) else s.infos[x]
  {
  }

  /** A condition that comes true: it is ready, and its record is gone; other conditions are untouched. */
  lemma FireOutcome(s: State, o: nat)
    requires o < |s.infos| && InfoOk(s.infos[o])
    ensures var t := Step(s, Event.Fire(o));
            |t.infos| == |s.infos| && |t.procs| == |s.procs| &&
            t.infos[o].ready && t.infos[o].pid.None? && !t.infos[o].coll &&
            (forall x :: 0 <= x < |s.infos| && x != o ==> t.infos[x] == s.infos[x]) &&
            t.nselcoll == s.nselcoll + (if s.infos[o].coll then 1 else 0) &&
            forall x :: 0 <= x < |s.procs| ==>
              t.procs[x] == s.procs[x].(wchan := t.procs[x].wchan, select := t.procs[x].select) &&
              (t.procs[x].wchan ==> s.procs[x].wchan) && (t.procs[x].select ==> s.procs[x].select)
  {
  }

  // ---------- what a scan counts ----------

  /** Events of other processes, and interrupts. */
  ghost predicate NotOf(e: Event, p: nat) { IsInterrupt(e) || e.p != p }

  ghost predicate PollsReady(s: State, e: Event, p: nat)
    requires Ready(s, e)
  {
    e == Poll(p) && s.procs[p].pc.left[0].Some? && s.infos[s.procs[p].pc.left[0].value].ready
  }

  /** How many descriptors p polls in a run, and how many of them are ready at that moment. */
  ghost function Polls(es: seq<Event>, p: nat): nat {
    if es == [] then 0 else (if es[0] == Poll(p) then 1 else 0) + Polls(es[1..], p)
  }

  ghost function ReadyPolls(s: State, es: seq<Event>, p: nat): nat
    requires Feasible(s, es)
    decreases |es|
  {
    if es == [] then 0 else (if PollsReady(s, es[0], p) then 1 else 0) + ReadyPolls(Step(s, es[0]), es[1..], p)
  }

  lemma OthersLeave(s: State, e: Event, p: nat)
    requires Ready(s, e) && NotOf(e, p) && p < |s.procs|
    ensures p < |Step(s, e).procs| && Step(s, e).procs[p].pc == s.procs[p].pc
  {
  }

  /** Outside select, a process stays there until it enters again. */
  lemma {:induction false} StaysOutside(s: State, es: seq<Event>, p: nat)
    requires Feasible(s, es) && p < |s.procs| && s.procs[p].pc.Outside?
    requires forall k :: 0 <= k < |es| ==> es[k] == Poll(p) || NotOf(es[k], p)
    ensures p < |Exec(s, es).procs| && Exec(s, es).procs[p].pc.Outside?
    decreases |es|
  {
    hide Step;
    if es != [] {
      assert es[0] == Poll(p) || NotOf(es[0], p);
      OthersLeave(s, es[0], p);
      StaysOutside(Step(s, es[0]), es[1..], p);
    }
  }

  /** A scan counts exactly the descriptors that are ready when it polls them, whatever interrupts and
      other processes do meanwhile. */
  lemma {:induction false} ScanCounts(s: State, es: seq<Event>, p: nat)
    requires Feasible(s, es) && p < |s.procs| && s.procs[p].pc.Scanning?
    requires forall k :: 0 <= k < |es| ==> es[k] == Poll(p) || NotOf(es[k], p)
    requires p < |Exec(s, es).procs| && Exec(s, es).procs[p].pc.Scanning?
    ensures Polls(es, p) <= |s.procs[p].pc.left|
    ensures var pc := s.procs[p].pc;
            Exec(s, es).procs[p].pc == Scanning(pc.left[Polls(es, p)..], pc.found + ReadyPolls(s, es, p))
    decreases |es|
  {
    hide Step;
    if es != [] {
      var e, t := es[0], Step(s, es[0]);
      if e == Poll(p) {
        PollOutcome(s, p);
        if t.procs[p].pc.Outside? { StaysOutside(t, es[1..], p); }
      } else {
        assert NotOf(e, p);
        OthersLeave(s, e, p);
      }
      ScanCounts(t, es[1..], p);
    }
  }

  /** select returns after a scan if and only if one of the descriptors asked for was ready when it was
      polled. */
  lemma SelectReturns(s: State, es: seq<Event>, p: nat)
    requires Feasible(s, es) && p < |s.procs| && Begins(s, s.procs[p], s.procs[p].wants)
    requires forall k :: 0 <= k < |es| ==> es[k] == Poll(p) || NotOf(es[k], p)
    requires p < |Exec(s, es).procs| && Ready(Exec(s, es), Settle(p))
    ensures Polls(es, p) == |s.procs[p].wants|
    ensures Step(Exec(s, es), Settle(p)).procs[p].pc.Outside? <==> ReadyPolls(s, es, p) > 0
  {
    hide Step;
    ScanCounts(s, es, p);
    SettleOutcome(Exec(s, es), p);
  }

  // ---------- the invariant ----------

  /** o is quiet, and p is recorded in it: by name or in the collision. */
  ghost predicate Covered(s: State, p: nat, o: nat) {
    o < |s.infos| && !s.infos[o].ready && (s.infos[o].pid == Some(p) || s.infos[o].coll)
  }

  ghost predicate AllCovered(s: State, p: nat, objs: set<nat>) {
    forall o :: o in objs ==> Covered(s, p, o)
  }

  /** The first n descriptors asked for are open and were found not ready. */
  ghost predicate Polled(q: Proc, n: int) {
    0 <= n <= |q.wants| && forall i :: 0 <= i < n ==> q.wants[i].Some? && q.wants[i].value in q.polled
  }

  /** A scan has seen a prefix of the descriptors; unless the flag or the count tells it to
      retry, everything it polled is still quiet and still holds its record. */
  ghost predicate ScanOk(s: State, p: nat)
    requires p < |s.procs| && s.procs[p].pc.Scanning?
  {
    var q := s.procs[p];
    q.alive && !q.wchan && q.ncoll <= s.nselcoll && |q.pc.left| <= |q.wants| &&
    q.pc.left == q.wants[|q.wants| - |q.pc.left|..] &&
    (q.pc.found == 0 ==> Polled(q, |q.wants| - |q.pc.left|)) &&
    (q.select && s.nselcoll == q.ncoll ==> AllCovered(s, p, q.polled))
  }

  /** A process on selwait has polled all it asked for, and all of it is quiet and records it. */
  ghost predicate SleepOk(s: State, p: nat)
    requires p < |s.procs| && s.procs[p].wchan
  {
    var q := s.procs[p];
    q.alive && q.pc.Blocked? && Polled(q, |q.wants|) && AllCovered(s, p, q.polled)
  }

  ghost predicate ProcOk(s: State, p: nat)
    requires p < |s.procs|
  {
    var q := s.procs[p];
    ValidWants(s, q.wants) && (!q.pc.Outside? ==> q.alive) &&
    (q.wchan ==> SleepOk(s, p)) && (q.pc.Scanning? ==> ScanOk(s, p))
  }

  /** selwakeup does nothing when si_pid is 0, so a collision must never be left without a pid. */
  ghost predicate InfoOk(i: SelInfo) { i.coll ==> i.pid.Some? }

  ghost predicate Inv(s: State) {
    (forall p :: 0 <= p < |s.procs| ==> ProcOk(s, p)) && (forall o :: 0 <= o < |s.infos| ==> InfoOk(s.infos[o]))
  }

  /** Another process's obligations survive as long as its records do. */
  lemma Transfer(s: State, t: State, p: nat)
    requires p < |s.procs| == |t.procs| && s.procs[p] == t.procs[p] && |s.infos| == |t.infos|
    requires s.nselcoll <= t.nselcoll && ProcOk(s, p)
    requires forall o :: Covered(s, p, o) ==> Covered(t, p, o)
    ensures ProcOk(t, p)
  {
  }

  /** Changing one process only. */
  lemma OneProc(s: State, p: nat, q: Proc)
    requires Inv(s) && p < |s.procs| && ProcOk(SetProc(s, p, q), p)
    ensures Inv(SetProc(s, p, q))
  {
    var t := SetProc(s, p, q);
    forall r | 0 <= r < |t.procs| && r != p
      ensures ProcOk(t, r)
    {
      Transfer(s, t, r);
    }
  }

  /** selrecord covers its caller, and takes a record from another process exactly when that
      process is named, not on selwait, and not in a collision. */
  lemma SelrecordCovers(s: State, p: nat, o: nat, q: nat)
    requires Inv(s) && o < |s.infos| && !s.infos[o].ready && q < |s.procs|
    ensures Covered(Selrecord(s, p, o), p, o) && InfoOk(Selrecord(s, p, o).infos[o])
    ensures q != p && Covered(s, q, o) ==> (Covered(Selrecord(s, p, o), q, o) <==> s.infos[o].coll || s.procs[q].wchan)
  {
    assert ProcOk(s, q) && InfoOk(s.infos[o]);
  }

  /** A record made by the process that has the processor costs no other process anything. */
  lemma RecordKeepsOthers(s: State, t: State, p: nat, o: nat, r: nat)
    requires Inv(s) && HasCpu(s, p) && o < |s.infos| && !s.infos[o].ready && r < |s.procs| && r != p
    requires t.infos == Selrecord(s, p, o).infos && t.nselcoll == s.nselcoll && |t.procs| == |s.procs| &&
             t.procs[r] == s.procs[r]
    ensures ProcOk(t, r)
  {
    hide Polled;
    assert ProcOk(s, r);
    SelrecordCovers(s, p, o, r);
    if s.procs[r].wchan {
      Transfer(s, t, r);
    }
  }

  lemma PollKeeps(s: State, p: nat)
    requires Inv(s) && Ready(s, Poll(p)) && HasCpu(s, p)
    ensures Inv(PollOne(s, p))
  {
    hide Polled, HasCpu;
    assert ProcOk(s, p);
    var q := s.procs[p];
    var t := PollOne(s, p);
    if q.pc.left[0].Some? && !s.infos[q.pc.left[0].value].ready {
      var o := q.pc.left[0].value;
      forall r | 0 <= r < |t.procs| && r != p
        ensures ProcOk(t, r)
      {
        RecordKeepsOthers(s, t, p, o, r);
      }
      SelrecordCovers(s, p, o, p);
      if q.pc.found == 0 {
        PolledNext(q, o);
      }
      assert AllCovered(s, p, q.polled) ==> AllCovered(t, p, q.polled + {o});
    } else {
      OneProc(s, p, t.procs[p]);
    }
  }

  lemma PolledNext(q: Proc, o: nat)
    requires q.pc.Scanning? && |q.pc.left| <= |q.wants| && q.pc.left == q.wants[|q.wants| - |q.pc.left|..]
    requires q.pc.left != [] && q.pc.left[0] == Some(o) && Polled(q, |q.wants| - |q.pc.left|)
    ensures var q' := q.(pc := Scanning(q.pc.left[1..], q.pc.found), polled := q.polled + {o});
            Polled(q', |q'.wants| - |q'.pc.left|)
  {
  }

  lemma RetryKeeps(s: State, p: nat, wants: seq<Option<nat>>)
    requires Inv(s) && p < |s.procs| && s.procs[p].alive && !s.procs[p].wchan && ValidWants(s, wants)
    ensures Inv(Retry(s, p, wants))
  {
    assert ProcOk(s, p);
    OneProc(s, p, Retry(s, p, wants).procs[p]);
  }

  lemma LeaveKeeps(s: State, p: nat)
    requires Inv(s) && p < |s.procs| && !s.procs[p].wchan
    ensures Inv(Leave(s, p))
  {
    assert ProcOk(s, p);
    OneProc(s, p, Leave(s, p).procs[p]);
  }

  lemma SettleKeeps(s: State, p: nat)
    requires Inv(s) && Ready(s, Settle(p))
    ensures Inv(EndScan(s, p))
  {
    assert ProcOk(s, p);
    var q := s.procs[p];
    if q.pc.found != 0 {
      LeaveKeeps(s, p);
    } else if !q.select || s.nselcoll != q.ncoll {
      RetryKeeps(s, p, q.wants);
    } else {
      OneProc(s, p, EndScan(s, p).procs[p]);
    }
  }

  /** Firing empties o's record; a collision is counted. */
  lemma FireInfos(s: State, o: nat)
    requires Inv(s) && o < |s.infos|
    ensures var t := Step(s, Fire(o));
            |t.procs| == |s.procs| && t.infos == s.infos[o := SelInfo(None, false, true)] &&
            t.nselcoll == s.nselcoll + (if s.infos[o].coll then 1 else 0)
  {
    assert InfoOk(s.infos[o]);
  }

  /** A process stays on selwait only if o does not record it, and keeps P_SELECT only if o does
      not name it. */
  lemma FireProc(s: State, o: nat, p: nat)
    requires Inv(s) && o < |s.infos| && p < |s.procs|
    ensures var t := Step(s, Fire(o)); p < |t.procs| && FiredProc(s.infos[o], p, s.procs[p], t.procs[p])
  {
    assert ProcOk(s, p) && InfoOk(s.infos[o]);
  }

  ghost predicate FiredProc(i: SelInfo, p: nat, q: Proc, q': Proc) {
    q' == q.(select := q'.select, wchan := q'.wchan) &&
    (q'.wchan ==> q.wchan && !i.coll && i.pid != Some(p)) &&
    (q'.select ==> q.select && (q.alive && !q.wchan ==> i.pid != Some(p)))
  }

  /** The heart of the protocol: when o fires, each process that had polled it is made runnable
      or told to retry. */
  lemma FireKeeps(s: State, o: nat)
    requires Inv(s) && o < |s.infos|
    ensures Inv(Step(s, Fire(o)))
  {
    hide Selwakeup, Polled;
    var t := Step(s, Fire(o));
    FireInfos(s, o);
    forall p | 0 <= p < |t.procs|
      ensures ProcOk(t, p)
    {
      assert ProcOk(s, p);
      FireProc(s, o, p);
      assert s.procs[p].wants == t.procs[p].wants;
      PolledSame(s.procs[p], t.procs[p]);
    }
  }

  lemma PolledSame(q: Proc, q': Proc)
    requires q.wants == q'.wants && q.polled == q'.polled
    ensures forall n :: Polled(q, n) <==> Polled(q', n)
  {
  }

  lemma StepKeeps(s: State, e: Event)
    requires Inv(s) && Enabled(s, e)
    ensures Inv(Step(s, e))
  {
    hide ScanOk, SleepOk, EndScan, PollOne, Retry, Leave, Selwakeup;
    if !IsInterrupt(e) { assert ProcOk(s, e.p); }
    match e
    case Enter(p, wants) => OutsideAwake(s, p); RetryKeeps(s, p, wants);
    case Poll(p) => PollKeeps(s, p);
    case Settle(p) => SettleKeeps(s, p);
    case Expire(p) => OutsideAwake(s, p); LeaveKeeps(s, p);
    case Resume(p, error) =>
      LeaveKeeps(s, p);
      RetryKeeps(s, p, s.procs[p].wants);
    case Exit(p) => OutsideAwake(s, p); OneProc(s, p, s.procs[p].(alive := false));
    case Fork(p) => OneProc(s, p, Proc(true, false, false, 0, [], {}, Outside));
    case Fire(o) => FireKeeps(s, o);
    case Interrupt(p) => InterruptKeeps(s, p);
    case Consume(o) => ConsumeKeeps(s, o);
  }

  lemma OutsideAwake(s: State, p: nat)
    requires Inv(s) && p < |s.procs| && !s.procs[p].pc.Blocked?
    ensures !s.procs[p].wchan
  {
    assert ProcOk(s, p);
  }

  lemma InterruptKeeps(s: State, p: nat)
    requires Inv(s) && p < |s.procs|
    ensures Inv(Step(s, Interrupt(p)))
  {
    assert ProcOk(s, p);
    OneProc(s, p, s.procs[p].(wchan := false));
  }

  lemma ConsumeKeeps(s: State, o: nat)
    requires Inv(s) && o < |s.infos|
    ensures Inv(Step(s, Consume(o)))
  {
    var t := Step(s, Consume(o));
    assert InfoOk(s.infos[o]);
    forall p | 0 <= p < |t.procs|
      ensures ProcOk(t, p)
    {
      Transfer(s, t, p);
    }
  }

  // ---------- whole runs ----------

  lemma InitInv(s: State)
    requires Init(s) && forall p :: 0 <= p < |s.procs| ==> ValidWants(s, s.procs[p].wants)
    ensures Inv(s)
  {
  }

  lemma {:induction false} RunKeeps(s: State, es: seq<Event>)
    requires Inv(s) && Possible(s, es)
    ensures Inv(Exec(s, es))
    decreases |es|
  {
    if es != [] {
      StepKeeps(s, es[0]);
      RunKeeps(Step(s, es[0]), es[1..]);
    }
  }

  /** No lost wakeup: in every run, a process on selwait sleeps only while all the descriptors it
      asked for are open and not ready, and whichever becomes ready first takes it off the queue. */
  lemma NoLostWakeup(s: State, es: seq<Event>, p: nat, i: nat)
    requires Inv(s) && Possible(s, es)
    ensures var t := Exec(s, es);
            p < |t.procs| && t.procs[p].wchan && i < |t.procs[p].wants| ==>
              (t.procs[p].wants[i].Some? &&
               var o := t.procs[p].wants[i].value;
               o < |t.infos| && !t.infos[o].ready &&
               p < |Step(t, Fire(o)).procs| && !Step(t, Fire(o)).procs[p].wchan)
  {
    RunKeeps(s, es);
    var t := Exec(s, es);
    if p < |t.procs| && t.procs[p].wchan && i < |t.procs[p].wants| {
      assert ProcOk(t, p);
      FireProc(t, t.procs[p].wants[i].value, p);
    }
  }

  /** The race with the scan: once a polled descriptor has fired, the scan in progress, however it
      goes on and whatever interrupts follow, does not end in a sleep. */
  lemma FiredScanRetries(s: State, p: nat, o: nat, es: seq<Event>)
    requires Inv(s) && p < |s.procs| && s.procs[p].pc.Scanning? && o in s.procs[p].polled && o < |s.infos|
    requires Possible(Step(s, Fire(o)), es) && forall e :: e in es ==> IsInterrupt(e) || e == Poll(p)
    ensures NoSleep(Exec(Step(s, Fire(o)), es), p)
  {
    StepKeeps(s, Fire(o));
    assert ProcOk(s, p);
    FireProc(s, o, p);
    FireInfos(s, o);
    NoSleepStays(Step(s, Fire(o)), p, es);
  }

  /** The process has left select, or is in a scan whose end will not put it to sleep. */
  ghost predicate NoSleep(s: State, p: nat) {
    p < |s.procs| && !s.procs[p].wchan &&
    (s.procs[p].pc.Outside? || (s.procs[p].pc.Scanning? && !EndScan(s, p).procs[p].wchan))
  }

  lemma {:induction false} NoSleepStays(s: State, p: nat, es: seq<Event>)
    requires Inv(s) && NoSleep(s, p) && Possible(s, es) && forall e :: e in es ==> IsInterrupt(e) || e == Poll(p)
    ensures NoSleep(Exec(s, es), p)
    decreases |es|
  {
    if es != [] {
      var e := es[0];
      assert e in es && ProcOk(s, p);
      StepKeeps(s, e);
      if e.Fire? {
        FireProc(s, e.o, p);
        FireInfos(s, e.o);
      }
      NoSleepStays(Step(s, e), p, es[1..]);
    }
  }

  /** The scan must not be preempted: if a second process may poll between the first one's poll
      and its sleep, the second takes over the record and the first sleeps through the event. */
  lemma PreemptedScanLosesWakeup() returns (s: State, es: seq<Event>)
    ensures Inv(s) && Feasible(s, es)
    ensures var t := Exec(s, es);
            |t.procs| == 2 && |t.infos| == 1 && t.procs[0].wchan && t.procs[0].wants == [Some(0)] && t.infos[0].ready
  {
    hide Feasible, Exec, PollOne;
    s := State([Idle(), Idle()], [SelInfo(None, false, false)], 0);
    SleepsThrough();
    FirstPoll();
    var tail := [Poll(1), Settle(0), Settle(1), Fire(0)];
    assert Step(State([Polled0(), Idle()], [Named(0)], 0), Enter(1, [Some(0)])) ==
        State([Polled0(), Begun()], [Named(0)], 0);
    Unroll(State([Polled0(), Idle()], [Named(0)], 0), Enter(1, [Some(0)]), tail);
    tail := [Enter(1, [Some(0)])] + tail;
    assert Step(State([Begun(), Idle()], s.infos, 0), Poll(0)) == State([Polled0(), Idle()], [Named(0)], 0);
    Unroll(State([Begun(), Idle()], s.infos, 0), Poll(0), tail);
    tail := [Poll(0)] + tail;
    assert Step(s, Enter(0, [Some(0)])) == State([Begun(), Idle()], s.infos, 0);
    Unroll(s, Enter(0, [Some(0)]), tail);
    es := [Enter(0, [Some(0)])] + tail;
  }

  lemma FirstPoll()
    ensures PollOne(State([Begun(), Idle()], [SelInfo(None, false, false)], 0), 0) ==
            State([Polled0(), Idle()], [Named(0)], 0)
  {
    var quiet: set<nat> := {};
    assert quiet + {0} == {0} && Begun().pc.left[1..] == [];
  }

  function Idle(): Proc { Proc(true, false, false, 0, [], {}, Outside) }
  function Begun(): Proc { Proc(true, true, false, 0, [Some(0)], {}, Scanning([Some(0)], 0)) }
  function Polled0(): Proc { Proc(true, true, false, 0, [Some(0)], {0}, Scanning([], 0)) }
  function Slept(): Proc { Proc(true, false, true, 0, [Some(0)], {0}, Blocked) }
  function Named(p: nat): SelInfo { SelInfo(Some(p), false, false) }

  lemma SleepsThrough()
    ensures var s, es := State([Polled0(), Begun()], [Named(0)], 0), [Poll(1), Settle(0), Settle(1), Fire(0)];
            Feasible(s, es) && Exec(s, es) == State([Slept(), Slept().(wchan := false)], [SelInfo(None, false, true)],
                0)
  {
    var quiet: set<nat> := {};
    assert quiet + {0} == {0} && Begun().pc.left[1..] == [];
    var s3 := State([Polled0(), Begun()], [Named(0)], 0);
    assert Selrecord(s3, 1, 0).infos == [Named(1)];
    assert s3.procs[1 := Polled0()] == [Polled0(), Polled0()];
    var s4, s5, s6 := State([Polled0(), Polled0()], [Named(1)], 0), State([Slept(), Polled0()], [Named(1)], 0),
        State([Slept(), Slept()], [Named(1)], 0);
    assert Step(State([Polled0(), Begun()], [Named(0)], 0), Poll(1)) == s4;
    assert Step(s4, Settle(0)) == s5 && Step(s5, Settle(1)) == s6;
    hide Feasible, Exec;
    Unroll0(Step(s6, Fire(0)));
    Unroll(s6, Fire(0), []);
    Unroll(s5, Settle(1), [Fire(0)]);
    Unroll(s4, Settle(0), [Settle(1), Fire(0)]);
    Unroll(State([Polled0(), Begun()], [Named(0)], 0), Poll(1), [Settle(0), Settle(1), Fire(0)]);
    assert [Poll(1)] + [Settle(0), Settle(1), Fire(0)] == [Poll(1), Settle(0), Settle(1), Fire(0)];
    assert [Settle(0)] + [Settle(1), Fire(0)] == [Settle(0), Settle(1), Fire(0)];
    assert [Settle(1)] + [Fire(0)] == [Settle(1), Fire(0)];
    assert [Fire(0)] + [] == [Fire(0)];
  }

  lemma Unroll0(s: State)
    ensures Feasible(s, []) && Exec(s, []) == s
  {
  }

  lemma Unroll(s: State, e: Event, es: seq<Event>)
    requires Ready(s, e) && Feasible(Step(s, e), es)
    ensures Feasible(s, [e] + es) && Exec(s, [e] + es) == Exec(Step(s, e), es)
  {
    assert ([e] + es)[1..] == es;
  }

  // ---------- the code that runs between the sleeps ----------

  /** The kernel's own variables, changed in place. */
  class Kernel {
    var procs: seq<Proc>
    var infos: seq<SelInfo>
    var nselcoll: nat

    ghost function Now(): State
      reads this
    {
      State(procs, infos, nselcoll)
    }

    /** selrecord, called by the process that has the processor for a condition that is not ready: the
        caller is covered, and nobody asleep and no record of the caller's own loses its cover. */
    method SelRecord(p: nat, o: nat)
      requires Inv(Now()) && HasCpu(Now(), p) && o < |infos| && !infos[o].ready
      modifies this`infos
      ensures Inv(Now()) && Covered(Now(), p, o) && Now() == Selrecord(old(Now()), p, o)
      ensures forall q: nat, u: nat :: q < |procs| && (q == p || procs[q].wchan) && Covered(old(Now()), q, u) ==>
              Covered(Now(), q, u)
    {
      RecordKeepsAll(Now(), p, o);
      var pid := infos[o].pid;
      if pid == Some(p) { return; }
      if pid.Some? && pid.value < |procs| && procs[pid.value].alive && procs[pid.value].wchan {
        infos := infos[o := infos[o].(coll := true)];
      } else {
        infos := infos[o := infos[o].(pid := Some(p))];
      }
    }

    /** One descriptor of selscan. */
    method PollNext(p: nat)
      requires Inv(Now()) && Ready(Now(), Poll(p)) && HasCpu(Now(), p)
      modifies this
      ensures Inv(Now()) && Now() == PollOne(old(Now()), p)
    {
      hide Inv, HasCpu;
      PollKeeps(Now(), p);
      var q := procs[p];
      match q.pc.left[0]
      case None => procs := procs[p := q.(select := false, pc := Outside)];
      case Some(o) =>
        if infos[o].ready {
          procs := procs[p := q.(pc := Scanning(q.pc.left[1..], q.pc.found + 1))];
        } else {
          SelRecord(p, o);
          procs := procs[p := q.(pc := Scanning(q.pc.left[1..], q.pc.found), polled := q.polled + {o})];
        }
    }

    /** wakeup(&selwait): walk the sleep queue. */
    method Wakeup()
      modifies this`procs
      ensures procs == WakeAll(old(procs))
    {
      var i := 0;
      while i < |procs|
        invariant i <= |procs| == |old(procs)|
        invariant procs[i..] == old(procs)[i..] && procs[..i] == WakeAll(old(procs))[..i]
      {
        procs := procs[i := procs[i].(wchan := false)];
        i := i + 1;
      }
    }

    /** selwakeup: every process the condition records is taken off selwait, or is told by P_SELECT or
        the collision count that its scan is stale; the record is then empty. */
    method SelWakeup(o: nat)
      requires o < |infos| && InfoOk(infos[o])
      modifies this
      ensures Now() == Selwakeup(old(Now()), o) && |procs| == |old(procs)| && o < |infos| && infos[o].pid.None? &&
              !infos[o].coll
      ensures forall p: nat :: p < |procs| && old(procs)[p].alive && Records(old(infos)[o], p) ==>
              Told(old(Now()), Now(), p)
    {
      hide WakeAll;
      if infos[o].pid.None? { return; }
      if infos[o].coll {
        nselcoll := nselcoll + 1;
        infos := infos[o := infos[o].(coll := false)];
        Wakeup();
      }
      var pid := infos[o].pid.value;
      infos := infos[o := infos[o].(pid := None)];
      if pid < |procs| && procs[pid].alive {
        if procs[pid].wchan {
          procs := procs[pid := procs[pid].(wchan := false)];
        } else if procs[pid].select {
          procs := procs[pid := procs[pid].(select := false)];
        }
      }
    }

    /** An interrupt makes a condition true and calls selwakeup: no process that had polled it is on
        selwait, or in a scan that will end there. */
    method Fire(o: nat)
      requires Inv(Now()) && o < |infos|
      modifies this
      ensures Inv(Now()) && Now() == Step(old(Now()), Event.Fire(o))
      ensures forall p: nat :: p < |procs| && o in procs[p].polled ==> !procs[p].wchan
      ensures forall p: nat :: p < |procs| && o in procs[p].polled && procs[p].pc.Scanning? ==> NoSleep(Now(), p)
    {
      FireKeeps(Now(), o);
      assert InfoOk(infos[o]);
      infos := infos[o := infos[o].(ready := true)];
      SelWakeup(o);
      forall p: nat | p < |procs|
        ensures o in procs[p].polled ==> !procs[p].wchan && (procs[p].pc.Scanning? ==> NoSleep(Now(), p))
      {
        assert ProcOk(Now(), p);
      }
    }
  }

  /** o's record holds p: by name or in a collision. */
  predicate Records(i: SelInfo, p: nat) { i.pid == Some(p) || i.coll }

  /** p is not on selwait; and if it was not asleep before, it will see that something happened. */
  ghost predicate Told(s: State, t: State, p: nat) {
    p < |s.procs| && p < |t.procs| && !t.procs[p].wchan &&
    (s.procs[p].wchan || !t.procs[p].select || t.nselcoll != s.nselcoll)
  }

  lemma RecordKeepsAll(s: State, p: nat, o: nat)
    requires Inv(s) && HasCpu(s, p) && o < |s.infos| && !s.infos[o].ready
    ensures Inv(Selrecord(s, p, o)) && Covered(Selrecord(s, p, o), p, o)
    ensures forall q: nat, u: nat :: q < |s.procs| && (q == p || s.procs[q].wchan) && Covered(s, q, u) ==>
            Covered(Selrecord(s, p, o), q, u)
  {
    hide Polled;
    var t := Selrecord(s, p, o);
    SelrecordCovers(s, p, o, p);
    forall q: nat, u: nat | q < |s.procs| && (q == p || s.procs[q].wchan) && Covered(s, q, u)
      ensures Covered(t, q, u)
    {
      if u == o { SelrecordCovers(s, p, o, q); }
    }
    forall r | 0 <= r < |t.procs|
      ensures ProcOk(t, r)
    {
      if r != p {
        RecordKeepsOthers(s, t, p, o, r);
      } else {
        Transfer(s, t, p);
      }
    }
  }
}
