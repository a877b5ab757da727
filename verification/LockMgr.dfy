/** lockmgr as a transition system.  A request runs without interruption from its entry to its
    return or to a tsleep, and from a wakeup (or a sleep error) to the next tsleep or return;
    these stretches are the steps.  Processes are numbered; besides the fields of struct lock the
    state records what each process really holds. */
module LockMgr {
  import opened Common

  datatype Request = Shared | Downgrade | ExclUpgrade | Upgrade | Exclusive | Release | Drain

  /** The external flags of a request, merged with those of the lock. */
  datatype Ext = Ext(nowait: bool, sleepfail: bool, canrecurse: bool)

  /** Where a process sleeps inside lockmgr; the first four are uses of ACQUIRE. */
  datatype Pc = Out | InShared | InUpgrade | InExcl1 | InExcl2 | InDrain

  /** shares, excls: the holds of the process, by its own requests and releases.
      failed: its last request returned an error. */
  datatype Proc = Proc(pc: Pc, ext: Ext, shares: int, excls: int, failed: bool)

  datatype State = State(
    wantUpgrade: bool, wantExcl: bool, haveExcl: bool, waitDrain: bool, draining: bool, drained: bool,
    share: int, excl: int, wait: int, holder: Option<nat>,
    procs: seq<Proc>, woken: set<nat>)

  datatype Reason =
    | Decommissioned | NonReleaseOnDraining | NotHoldingExclusive | UpgradeExclusive
    | UpgradeGrant | AgainstMyself | ExclusiveGrant | NotHolder | DrainMyself

  datatype Outcome = Ok(s: State) | Panic(why: Reason)

  /** Panics that answer a wrong request: on a drained or draining lock, or against oneself. */
  predicate CallerFault(why: Reason) {
    why.Decommissioned? || why.NonReleaseOnDraining? || why.NotHoldingExclusive? || why.AgainstMyself? ||
      why.DrainMyself?
  }

  predicate Acquiring(pc: Pc) { pc.InShared? || pc.InUpgrade? || pc.InExcl1? || pc.InExcl2? }

  // ---------- pieces of a step ----------

  function SetProc(s: State, p: nat, q: Proc): State
    requires p < |s.procs|
  {
    s.(procs := s.procs[p := q])
  }

  function Wakeup(s: State): State {
    s.(woken := s.woken + set p: nat | p < |s.procs| && Acquiring(s.procs[p].pc))
  }

  /** Wake the ACQUIRE sleepers if there are any. */
  function Awaken(s: State): State { if s.wait != 0 then Wakeup(s) else s }

  function WakeupDrainers(s: State): State {
    s.(woken := s.woken + set p: nat | p < |s.procs| && s.procs[p].pc.InDrain?)
  }

  predicate Busy(s: State) { s.haveExcl || s.wantExcl || s.wantUpgrade }

  predicate DrainBlocked(s: State) { Busy(s) || s.share != 0 || s.wait != 0 }

  /** The common tail: the last activity wakes a waiting drainer. */
  function Return(s: State, p: nat, failed: bool): Outcome
    requires p < |s.procs|
  {
    var t := SetProc(s, p, s.procs[p].(pc := Out, failed := failed));
    Ok(if t.waitDrain && !DrainBlocked(t) then WakeupDrainers(t.(waitDrain := false)) else t)
  }

  /** tsleep in ACQUIRE. */
  function Sleep(s: State, p: nat, pc: Pc): Outcome
    requires p < |s.procs|
  {
    Ok(SetProc(s, p, s.procs[p].(pc := pc)).(wait := s.wait + 1, woken := s.woken - {p}))
  }

  function GrantShared(s: State, p: nat): Outcome
    requires p < |s.procs|
  {
    Return(SetProc(s, p, s.procs[p].(shares := s.procs[p].shares + 1)).(share := s.share + 1), p, false)
  }

  function GrantExclusive(s: State, p: nat, why: Reason): Outcome
    requires p < |s.procs|
  {
    if s.excl != 0 then Panic(why)
    else Return(SetProc(s, p, s.procs[p].(excls := 1)).(haveExcl := true, holder := Some(p), excl := 1), p, false)
  }

  /** Test the wait condition at one place, then go on from there. */
  function TryShared(s: State, p: nat): Outcome
    requires p < |s.procs|
  {
    if Busy(s) then Sleep(s, p, InShared) else GrantShared(s, p)
  }

  function TryUpgrade(s: State, p: nat): Outcome
    requires p < |s.procs|
  {
    if s.share != 0 then Sleep(s, p, InUpgrade)
    else GrantExclusive(s.(wantUpgrade := false), p, UpgradeGrant)
  }

  function TryExcl2(s: State, p: nat): Outcome
    requires p < |s.procs|
  {
    if s.share != 0 || s.wantUpgrade then Sleep(s, p, InExcl2)
    else GrantExclusive(s.(wantExcl := false), p, ExclusiveGrant)
  }

  function TryExcl1(s: State, p: nat): Outcome
    requires p < |s.procs|
  {
    if s.haveExcl || s.wantExcl then Sleep(s, p, InExcl1)
    else TryExcl2(s.(wantExcl := true), p)
  }

  function TryDrain(s: State, p: nat): Outcome
    requires p < |s.procs|
  {
    if DrainBlocked(s) then
      Ok(SetProc(s, p, s.procs[p].(pc := InDrain)).(waitDrain := true, woken := s.woken - {p}))
    else
      Return(SetProc(s, p, s.procs[p].(excls := 1)).(draining := true, haveExcl := true, holder := Some(p), excl := 1),
          p, false)
  }

  // ---------- a request enters ----------

  function EnterDowngrade(s: State, p: nat): Outcome
    requires p < |s.procs|
  {
    if s.holder != Some(p) || s.excl == 0 then Panic(NotHoldingExclusive) else
      var q := s.procs[p];
      var t := SetProc(s, p, q.(shares := q.shares + q.excls, excls := 0))
               .(share := s.share + s.excl, excl := 0, haveExcl := false, holder := None);
      Return(Awaken(t), p, false)
  }

  function EnterShared(s: State, p: nat): Outcome
    requires p < |s.procs|
  {
    if s.holder != Some(p) then
      if s.procs[p].ext.nowait && Busy(s) then Return(s, p, true) else TryShared(s, p)
    else
      EnterDowngrade(SetProc(s, p, s.procs[p].(shares := s.procs[p].shares + 1)).(share := s.share + 1), p)
  }

  function EnterExclusive(s: State, p: nat): Outcome
    requires p < |s.procs|
  {
    if s.holder == Some(p) then
      if !s.procs[p].ext.canrecurse then Panic(AgainstMyself)
      else Return(SetProc(s, p, s.procs[p].(excls := s.procs[p].excls + 1)).(excl := s.excl + 1), p, false)
    else if s.procs[p].ext.nowait && (Busy(s) || s.share != 0) then Return(s, p, true)
    else TryExcl1(s, p)
  }

  /** Give up one shared hold. */
  function DropShare(s: State, p: nat): State
    requires p < |s.procs|
  {
    SetProc(s, p, s.procs[p].(shares := s.procs[p].shares - 1)).(share := s.share - 1)
  }

  function EnterUpgrade(s: State, p: nat): Outcome
    requires p < |s.procs|
  {
    if s.holder == Some(p) || s.share <= 0 then Panic(UpgradeExclusive) else
      var t := DropShare(s, p);
      if t.procs[p].ext.nowait && (t.wantUpgrade || t.share > 1) then Return(t, p, true)
      else if !t.wantUpgrade then TryUpgrade(t.(wantUpgrade := true), p)
      else EnterExclusive(if t.share == 0 && t.wait != 0 then Wakeup(t) else t, p)
  }

  function EnterExclUpgrade(s: State, p: nat): Outcome
    requires p < |s.procs|
  {
    if s.wantUpgrade then Return(DropShare(s, p), p, true) else EnterUpgrade(s, p)
  }

  function EnterRelease(s: State, p: nat): Outcome
    requires p < |s.procs|
  {
    if s.excl != 0 then
      if s.holder != Some(p) then Panic(NotHolder) else
        var t := SetProc(s, p, s.procs[p].(excls := s.procs[p].excls - 1)).(excl := s.excl - 1);
        var u := if t.excl == 0 then t.(haveExcl := false, holder := None) else t;
        Return(Awaken(u), p, false)
    else
      var t := if s.share != 0 then DropShare(s, p) else s;
      Return(Awaken(t), p, false)
  }

  function EnterDrain(s: State, p: nat): Outcome
    requires p < |s.procs|
  {
    if s.holder == Some(p) then Panic(DrainMyself)
    else if s.procs[p].ext.nowait && DrainBlocked(s) then Return(s, p, true)
    else TryDrain(s, p)
  }

  /** What a caller promises: it is not inside lockmgr already, and it upgrades or releases only
      what it holds; lockmgr has no record of who holds the shared locks. */
  predicate Legal(s: State, p: nat, r: Request) {
    && p < |s.procs| && s.procs[p].pc.Out?
    && (r.Upgrade? || r.ExclUpgrade? ==> s.procs[p].shares > 0)
    && (r.Release? ==> s.procs[p].shares > 0 || s.procs[p].excls > 0)
  }

  function Dispatch(s: State, p: nat, r: Request): Outcome
    requires Legal(s, p, r)
  {
    match r
    case Shared => EnterShared(s, p)
    case Downgrade => EnterDowngrade(s, p)
    case ExclUpgrade => EnterExclUpgrade(s, p)
    case Upgrade => EnterUpgrade(s, p)
    case Exclusive => EnterExclusive(s, p)
    case Release => EnterRelease(s, p)
    case Drain => EnterDrain(s, p)
  }

  /** The entry of lockmgr, with the checks on a draining or decommissioned lock. */
  function Enter(s: State, p: nat, r: Request, ext: Ext, reenable: bool): Outcome
    requires Legal(s, p, r)
  {
    var t := SetProc(s, p, s.procs[p].(ext := ext));
    if s.drained then Panic(Decommissioned)
    else if s.draining then
      if !r.Release? || s.holder != Some(p) then Panic(NonReleaseOnDraining)
      else Dispatch(t.(draining := false, drained := !reenable), p, r)
    else Dispatch(t, p, r)
  }

  // ---------- a sleeper runs again ----------

  /** error: the sleep was interrupted or timed out; without one, a wakeup must have come. */
  predicate CanResume(s: State, p: nat, error: bool) {
    p < |s.procs| && !s.procs[p].pc.Out? && (error || p in s.woken)
  }

  function Resume(s: State, p: nat, error: bool): Outcome
    requires CanResume(s, p, error)
  {
    var failed := error || s.procs[p].ext.sleepfail;
    var u := SetProc(s, p, s.procs[p].(pc := Out));
    var t := u.(wait := s.wait - 1);
    match s.procs[p].pc
    case InShared => if failed then Return(t, p, true) else TryShared(t, p)
    case InUpgrade => if failed then Return(t.(wantUpgrade := false), p, true) else TryUpgrade(t, p)
    case InExcl1 => if failed then Return(t, p, true) else TryExcl1(t, p)
    case InExcl2 => if failed then Return(t.(wantExcl := false), p, true) else TryExcl2(t, p)
    case InDrain => if failed then Ok(SetProc(s, p, s.procs[p].(pc := Out, failed := true))) else TryDrain(u, p)
    case Out => Ok(s)
  }

  // ---------- what holds in every reachable state ----------

  function Shares(procs: seq<Proc>): int {
    if procs == [] then 0 else Shares(procs[..|procs| - 1]) + procs[|procs| - 1].shares
  }

  function Count(procs: seq<Proc>, pc: Pc): nat {
    if procs == [] then 0 else Count(procs[..|procs| - 1], pc) + if procs[|procs| - 1].pc == pc then 1 else 0
  }

  function Bit(b: bool): int { if b then 1 else 0 }

  /** up, ex: 1 if the running process itself is the owner of LK_WANT_UPGRADE or LK_WANT_EXCL. */
  ghost predicate Inv(s: State, up: int, ex: int) {
    && s.share == Shares(s.procs)
    && s.wait == Count(s.procs, InShared) + Count(s.procs, InUpgrade) + Count(s.procs, InExcl1) +
      Count(s.procs, InExcl2)
    && Count(s.procs, InUpgrade) + up == Bit(s.wantUpgrade)
    && Count(s.procs, InExcl2) + ex == Bit(s.wantExcl)
    && s.excl >= 0 && (s.haveExcl <==> s.excl > 0) && (s.holder.None? <==> s.excl == 0)
    && (s.holder.Some? ==> s.holder.value < |s.procs|)
    && (s.excl > 0 ==> s.share == 0 && !s.wantUpgrade)
    && (forall p :: 0 <= p < |s.procs| ==>
          s.procs[p].shares >= 0 && s.procs[p].excls == if s.holder == Some(p) then s.excl else 0)
  }

  /** A step of p touches no other process and keeps the invariant. */
  ghost predicate Keeps(s: State, p: nat, r: Outcome) {
    r.Ok? ==> Inv(r.s, 0, 0) && |r.s.procs| == |s.procs| &&
              forall q :: 0 <= q < |s.procs| && q != p ==> r.s.procs[q] == s.procs[q]
  }

  lemma {:induction false} Update(procs: seq<Proc>, p: nat, q: Proc)
    requires p < |procs|
    ensures Shares(procs[p := q]) == Shares(procs) - procs[p].shares + q.shares
    ensures forall pc :: Count(procs[p := q], pc) == Count(procs, pc) - Bit(procs[p].pc == pc) + Bit(q.pc == pc)
  {
    var n := |procs| - 1;
    if p == n {
      assert procs[p := q][..n] == procs[..n];
    } else {
      assert procs[p := q][..n] == procs[..n][p := q];
      Update(procs[..n], p, q);
    }
  }

  lemma {:induction false} SharesBound(procs: seq<Proc>, p: nat)
    requires p < |procs| && forall q :: 0 <= q < |procs| ==> procs[q].shares >= 0
    ensures 0 <= procs[p].shares <= Shares(procs)
  {
    var n := |procs| - 1;
    SharesNonNegative(procs[..n]);
    if p < n { SharesBound(procs[..n], p); }
  }

  lemma {:induction false} SharesNonNegative(procs: seq<Proc>)
    requires forall q :: 0 <= q < |procs| ==> procs[q].shares >= 0
    ensures Shares(procs) >= 0
  {
    if procs != [] { SharesNonNegative(procs[..|procs| - 1]); }
  }

  lemma ReturnKeeps(s: State, p: nat, failed: bool)
    requires p < |s.procs| && s.procs[p].pc.Out? && Inv(s, 0, 0)
    ensures Return(s, p, failed).Ok? && Keeps(s, p, Return(s, p, failed))
  {
    hide Shares, Count;
    Update(s.procs, p, s.procs[p].(pc := Out, failed := failed));
  }

  lemma SleepKeeps(s: State, p: nat, pc: Pc)
    requires p < |s.procs| && s.procs[p].pc.Out? && Acquiring(pc)
    requires Inv(s, Bit(pc == InUpgrade), Bit(pc == InExcl2))
    ensures Keeps(s, p, Sleep(s, p, pc))
  {
    hide Shares, Count;
    Update(s.procs, p, s.procs[p].(pc := pc));
  }

  lemma RetouchKeeps(s: State, p: nat, t: State)
    requires p < |s.procs| == |t.procs| && t.procs == s.procs[p := t.procs[p]]
    requires s.procs[p].pc.Out? && t.procs[p].pc.Out?
    ensures Shares(t.procs) == Shares(s.procs) - s.procs[p].shares + t.procs[p].shares
    ensures forall pc :: Count(t.procs, pc) == Count(s.procs, pc)
  {
    hide Shares, Count;
    Update(s.procs, p, t.procs[p]);
  }

  lemma GrantSharedKeeps(s: State, p: nat)
    requires p < |s.procs| && s.procs[p].pc.Out? && Inv(s, 0, 0) && s.excl == 0
    ensures Keeps(s, p, GrantShared(s, p))
  {
    hide Shares, Count;
    var t := SetProc(s, p, s.procs[p].(shares := s.procs[p].shares + 1)).(share := s.share + 1);
    RetouchKeeps(s, p, t);
    ReturnKeeps(t, p, false);
  }

  /** With no holder, no share and no pending upgrade the grant cannot panic. */
  lemma GrantExclusiveKeeps(s: State, p: nat, why: Reason)
    requires p < |s.procs| && s.procs[p].pc.Out? && Inv(s, 0, 0) && s.share == 0 && !s.wantUpgrade
    ensures Keeps(s, p, GrantExclusive(s, p, why))
    ensures GrantExclusive(s, p, why).Panic? <==> s.haveExcl
  {
    hide Shares, Count;
    if s.excl == 0 {
      var t := SetProc(s, p, s.procs[p].(excls := 1)).(haveExcl := true, holder := Some(p), excl := 1);
      RetouchKeeps(s, p, t);
      ReturnKeeps(t, p, false);
    }
  }

  lemma TryKeeps(s: State, p: nat)
    requires p < |s.procs| && s.procs[p].pc.Out?
    ensures Inv(s, 0, 0) ==> Keeps(s, p, TryShared(s, p)) && TryShared(s, p).Ok?
    ensures Inv(s, 1, 0) && s.wantUpgrade ==> Keeps(s, p, TryUpgrade(s, p)) && TryUpgrade(s, p).Ok?
  {
    hide Shares, Count;
    if Inv(s, 0, 0) {
      if Busy(s) { SleepKeeps(s, p, InShared); } else { GrantSharedKeeps(s, p); }
    }
    if Inv(s, 1, 0) && s.wantUpgrade {
      if s.share != 0 { SleepKeeps(s, p, InUpgrade); }
      else { GrantExclusiveKeeps(s.(wantUpgrade := false), p, UpgradeGrant); }
    }
  }

  /** The second exclusive wait does not look at LK_HAVE_EXCL: it panics exactly when it meets
      a holder. */
  lemma TryExcl2Keeps(s: State, p: nat)
    requires p < |s.procs| && s.procs[p].pc.Out? && Inv(s, 0, 1)
    ensures Keeps(s, p, TryExcl2(s, p))
    ensures TryExcl2(s, p).Panic? <==> s.haveExcl
    ensures TryExcl2(s, p).Panic? ==> TryExcl2(s, p).why == ExclusiveGrant
  {
    hide Shares, Count;
    if s.share != 0 || s.wantUpgrade { SleepKeeps(s, p, InExcl2); }
    else { GrantExclusiveKeeps(s.(wantExcl := false), p, ExclusiveGrant); }
  }

  lemma TryExcl1Keeps(s: State, p: nat)
    requires p < |s.procs| && s.procs[p].pc.Out? && Inv(s, 0, 0)
    ensures Keeps(s, p, TryExcl1(s, p)) && TryExcl1(s, p).Ok?
  {
    hide Shares, Count;
    if s.haveExcl || s.wantExcl { SleepKeeps(s, p, InExcl1); }
    else { TryExcl2Keeps(s.(wantExcl := true), p); }
  }

  lemma TryDrainKeeps(s: State, p: nat)
    requires p < |s.procs| && s.procs[p].pc.Out? && Inv(s, 0, 0)
    ensures Keeps(s, p, TryDrain(s, p)) && TryDrain(s, p).Ok?
  {
    hide Shares, Count;
    if DrainBlocked(s) {
      Update(s.procs, p, s.procs[p].(pc := InDrain));
    } else {
      var t := SetProc(s, p, s.procs[p].(excls := 1)).(draining := true, haveExcl := true, holder := Some(p),
          excl := 1);
      RetouchKeeps(s, p, t);
      ReturnKeeps(t, p, false);
    }
  }

  lemma AwakenReturns(s: State, p: nat, t: State)
    requires p < |s.procs| == |t.procs| && t.procs == s.procs[p := t.procs[p]] && t.procs[p].pc.Out? && Inv(t, 0, 0)
    ensures Return(Awaken(t), p, false).Ok? && Keeps(s, p, Return(Awaken(t), p, false))
  {
    hide Shares, Count, Return;
    ReturnKeeps(Awaken(t), p, false);
  }

  lemma DowngradeKeeps(s: State, p: nat, extra: int)
    requires p < |s.procs| && s.procs[p].pc.Out? && 0 <= extra
    requires Inv(s, 0, 0) && (extra > 0 ==> s.holder == Some(p))
    ensures var t := SetProc(s, p, s.procs[p].(shares := s.procs[p].shares + extra)).(share := s.share + extra);
            && Keeps(s, p, EnterDowngrade(t, p))
            && (EnterDowngrade(t, p).Panic? ==> EnterDowngrade(t, p).why == NotHoldingExclusive)
  {
    hide Shares, Count, Return, Awaken;
    var q := s.procs[p];
    var t := SetProc(s, p, q.(shares := q.shares + extra)).(share := s.share + extra);
    if s.holder == Some(p) {
      var q' := q.(shares := q.shares + extra + q.excls, excls := 0);
      var u := t.(procs := t.procs[p := q'], share := t.share + t.excl, excl := 0, haveExcl := false, holder := None);
      assert u.procs == s.procs[p := q'];
      RetouchKeeps(s, p, u);
      AwakenReturns(s, p, u);
    }
  }

  lemma SharedKeeps(s: State, p: nat)
    requires p < |s.procs| && s.procs[p].pc.Out? && Inv(s, 0, 0)
    ensures Keeps(s, p, EnterShared(s, p))
    ensures EnterShared(s, p).Ok?
  {
    hide Shares, Count, EnterDowngrade;
    if s.holder != Some(p) {
      ReturnKeeps(s, p, true);
      TryKeeps(s, p);
    } else {
      DowngradeKeeps(s, p, 1);
      HolderDowngrades(SetProc(s, p, s.procs[p].(shares := s.procs[p].shares + 1)).(share := s.share + 1), p);
    }
  }

  lemma HolderDowngrades(s: State, p: nat)
    requires p < |s.procs| && s.holder == Some(p) && s.excl > 0
    ensures EnterDowngrade(s, p).Ok?
  {
  }

  lemma ExclusiveKeeps(s: State, p: nat)
    requires p < |s.procs| && s.procs[p].pc.Out? && Inv(s, 0, 0)
    ensures Keeps(s, p, EnterExclusive(s, p))
    ensures EnterExclusive(s, p).Panic? ==> EnterExclusive(s, p).why == AgainstMyself
  {
    hide Shares, Count;
    if s.holder == Some(p) {
      var t := SetProc(s, p, s.procs[p].(excls := s.procs[p].excls + 1)).(excl := s.excl + 1);
      RetouchKeeps(s, p, t);
      ReturnKeeps(t, p, false);
    } else {
      ReturnKeeps(s, p, true);
      TryExcl1Keeps(s, p);
    }
  }

  lemma DropShareKeeps(s: State, p: nat)
    requires p < |s.procs| && s.procs[p].pc.Out? && Inv(s, 0, 0) && s.procs[p].shares > 0
    ensures s.excl == 0 && s.share > 0 && Inv(DropShare(s, p), 0, 0) && DropShare(s, p).procs[p].pc.Out?
  {
    hide Shares, Count;
    SharesBound(s.procs, p);
    RetouchKeeps(s, p, DropShare(s, p));
  }

  lemma UpgradeKeeps(s: State, p: nat)
    requires p < |s.procs| && s.procs[p].pc.Out? && Inv(s, 0, 0) && s.procs[p].shares > 0
    ensures Keeps(s, p, EnterUpgrade(s, p)) && EnterUpgrade(s, p).Ok?
  {
    hide Shares, Count, EnterExclusive, TryUpgrade, Return;
    DropShareKeeps(s, p);
    var t := DropShare(s, p);
    ReturnKeeps(t, p, true);
    TryKeeps(t.(wantUpgrade := true), p);
    ExclusiveKeeps(t, p);
    ExclusiveKeeps(Wakeup(t), p);
    NotAgainstMyself(t, p);
    NotAgainstMyself(Wakeup(t), p);
  }

  lemma NotAgainstMyself(s: State, p: nat)
    requires p < |s.procs| && s.holder != Some(p)
    ensures EnterExclusive(s, p).Panic? ==> EnterExclusive(s, p).why != AgainstMyself
  {
  }

  lemma ReleaseExclusiveKeeps(s: State, p: nat)
    requires p < |s.procs| && s.procs[p].pc.Out? && Inv(s, 0, 0) && s.holder == Some(p)
    ensures Keeps(s, p, EnterRelease(s, p)) && EnterRelease(s, p).Ok?
  {
    hide Shares, Count, Return, Awaken;
    var t := SetProc(s, p, s.procs[p].(excls := s.procs[p].excls - 1)).(excl := s.excl - 1);
    var u := if t.excl == 0 then t.(haveExcl := false, holder := None) else t;
    RetouchKeeps(s, p, u);
    AwakenReturns(s, p, u);
  }

  lemma ReleaseKeeps(s: State, p: nat)
    requires p < |s.procs| && s.procs[p].pc.Out? && Inv(s, 0, 0)
    requires s.procs[p].shares > 0 || s.procs[p].excls > 0
    ensures Keeps(s, p, EnterRelease(s, p)) && EnterRelease(s, p).Ok?
  {
    hide Shares, Count, Return, Awaken;
    if s.excl != 0 {
      if s.procs[p].shares > 0 { SharesBound(s.procs, p); }
      ReleaseExclusiveKeeps(s, p);
    } else {
      DropShareKeeps(s, p);
      var t := DropShare(s, p);
      AwakenReturns(s, p, t);
    }
  }

  lemma DispatchKeeps(s: State, p: nat, r: Request)
    requires Legal(s, p, r) && Inv(s, 0, 0)
    ensures Keeps(s, p, Dispatch(s, p, r))
    ensures Dispatch(s, p, r).Panic? ==> CallerFault(Dispatch(s, p, r).why)
  {
    hide Shares, Count, EnterUpgrade, EnterExclusive, EnterShared, Return, TryDrain;
    match r
    case Shared => SharedKeeps(s, p);
    case Downgrade =>
      DowngradeKeeps(s, p, 0);
      assert SetProc(s, p, s.procs[p].(shares := s.procs[p].shares + 0)).(share := s.share + 0) == s;
    case ExclUpgrade =>
      DropShareKeeps(s, p);
      ReturnKeeps(DropShare(s, p), p, true);
      UpgradeKeeps(s, p);
    case Upgrade => UpgradeKeeps(s, p);
    case Exclusive => ExclusiveKeeps(s, p);
    case Release => ReleaseKeeps(s, p);
    case Drain =>
      ReturnKeeps(s, p, true);
      TryDrainKeeps(s, p);
  }

  // ---------- whole steps ----------

  /** Entering never reaches the panics on a foreign release, on an upgrade without a share, or in
      either grant. */
  lemma EnterKeeps(s: State, p: nat, r: Request, ext: Ext, reenable: bool)
    requires Legal(s, p, r) && Inv(s, 0, 0)
    ensures Keeps(s, p, Enter(s, p, r, ext, reenable))
    ensures Enter(s, p, r, ext, reenable).Panic? ==> CallerFault(Enter(s, p, r, ext, reenable).why)
  {
    hide Shares, Count, Dispatch;
    var t := SetProc(s, p, s.procs[p].(ext := ext));
    RetouchKeeps(s, p, t);
    DispatchKeeps(t, p, r);
    DispatchKeeps(t.(draining := false, drained := !reenable), p, r);
  }

  /** A sleeper that leaves its sleep takes its waitcount and its want flag with it. */
  lemma LeaveSleep(s: State, p: nat)
    requires p < |s.procs| && !s.procs[p].pc.Out? && Inv(s, 0, 0)
    ensures var u := SetProc(s, p, s.procs[p].(pc := Out));
            var pc := s.procs[p].pc;
            && (pc.InDrain? ==> Inv(u, 0, 0) && Inv(SetProc(s, p, s.procs[p].(pc := Out, failed := true)), 0, 0))
            && (Acquiring(pc) ==> Inv(u.(wait := s.wait - 1), Bit(pc == InUpgrade), Bit(pc == InExcl2)))
            && (pc.InUpgrade? ==> s.wantUpgrade) && (pc.InExcl2? ==> s.wantExcl)
  {
    hide Shares, Count;
    CountOne(s.procs, p);
    Update(s.procs, p, s.procs[p].(pc := Out));
    Update(s.procs, p, s.procs[p].(pc := Out, failed := true));
  }

  lemma ResumeWant(s: State, p: nat, error: bool)
    requires CanResume(s, p, error) && Inv(s, 0, 0) && (s.procs[p].pc.InUpgrade? || s.procs[p].pc.InExcl2?)
    ensures Keeps(s, p, Resume(s, p, error))
    ensures Resume(s, p, error).Panic? <==>
              s.procs[p].pc.InExcl2? && !error && !s.procs[p].ext.sleepfail && s.haveExcl
    ensures Resume(s, p, error).Panic? ==> Resume(s, p, error).why == ExclusiveGrant
  {
    hide Shares, Count, TryUpgrade, TryExcl2, Return;
    LeaveSleep(s, p);
    var t := SetProc(s, p, s.procs[p].(pc := Out)).(wait := s.wait - 1);
    if s.procs[p].pc.InUpgrade? {
      TryKeeps(t, p);
      ReturnKeeps(t.(wantUpgrade := false), p, true);
    } else {
      TryExcl2Keeps(t, p);
      ReturnKeeps(t.(wantExcl := false), p, true);
    }
  }

  lemma ResumeShared(s: State, p: nat, error: bool)
    requires CanResume(s, p, error) && Inv(s, 0, 0) && s.procs[p].pc.InShared?
    ensures Keeps(s, p, Resume(s, p, error)) && Resume(s, p, error).Ok?
  {
    hide Shares, Count, TryShared, Return;
    LeaveSleep(s, p);
    var t := SetProc(s, p, s.procs[p].(pc := Out)).(wait := s.wait - 1);
    TryKeeps(t, p);
    ReturnKeeps(t, p, true);
  }

  lemma ResumeExcl1(s: State, p: nat, error: bool)
    requires CanResume(s, p, error) && Inv(s, 0, 0) && s.procs[p].pc.InExcl1?
    ensures Keeps(s, p, Resume(s, p, error)) && Resume(s, p, error).Ok?
  {
    hide Shares, Count, TryExcl1, Return;
    LeaveSleep(s, p);
    var t := SetProc(s, p, s.procs[p].(pc := Out)).(wait := s.wait - 1);
    TryExcl1Keeps(t, p);
    ReturnKeeps(t, p, true);
  }

  lemma ResumeDrain(s: State, p: nat, error: bool)
    requires CanResume(s, p, error) && Inv(s, 0, 0) && s.procs[p].pc.InDrain?
    ensures Keeps(s, p, Resume(s, p, error)) && Resume(s, p, error).Ok?
  {
    hide Shares, Count, TryDrain;
    LeaveSleep(s, p);
    TryDrainKeeps(SetProc(s, p, s.procs[p].(pc := Out)), p);
  }

  /** A sleeper that runs again panics exactly when it is in the second exclusive wait, the sleep
      did not fail, and another process holds the lock exclusively. */
  lemma ResumeKeeps(s: State, p: nat, error: bool)
    requires CanResume(s, p, error) && Inv(s, 0, 0)
    ensures Keeps(s, p, Resume(s, p, error))
    ensures Resume(s, p, error).Panic? <==>
              s.procs[p].pc.InExcl2? && !error && !s.procs[p].ext.sleepfail && s.haveExcl
    ensures Resume(s, p, error).Panic? ==> Resume(s, p, error).why == ExclusiveGrant
  {
    hide Inv, Resume, Keeps;
    match s.procs[p].pc
    case InShared => ResumeShared(s, p, error);
    case InExcl1 => ResumeExcl1(s, p, error);
    case InDrain => ResumeDrain(s, p, error);
    case _ => ResumeWant(s, p, error);
  }

  lemma {:induction false} CountOne(procs: seq<Proc>, p: nat)
    requires p < |procs|
    ensures Count(procs, procs[p].pc) > 0
  {
    if p < |procs| - 1 { CountOne(procs[..|procs| - 1], p); }
  }

  // ---------- runs ----------

  datatype Event = Call(p: nat, r: Request, ext: Ext, reenable: bool) | Run(p: nat, error: bool)

  predicate Enabled(s: State, e: Event) {
    match e
    case Call(p, r, _, _) => Legal(s, p, r)
    case Run(p, error) => CanResume(s, p, error)
  }

  function Step(s: State, e: Event): Outcome
    requires Enabled(s, e)
  {
    match e
    case Call(p, r, ext, reenable) => Enter(s, p, r, ext, reenable)
    case Run(p, error) => Resume(s, p, error)
  }

  /** es is a possible interleaving from s, up to its end or to a panic. */
  predicate Possible(s: State, es: seq<Event>)
    decreases |es|
  {
    es == [] || (Enabled(s, es[0]) && (Step(s, es[0]).Ok? ==> Possible(Step(s, es[0]).s, es[1..])))
  }

  function Exec(s: State, es: seq<Event>): Outcome
    requires Possible(s, es)
    decreases |es|
  {
    if es == [] then Ok(s) else
      match Step(s, es[0])
      case Ok(t) => Exec(t, es[1..])
      case Panic(why) => Panic(why)
  }

  /** lockinit, with n processes that hold nothing. */
  function Init(n: nat): State {
    State(false, false, false, false, false, false, 0, 0, 0, None,
          seq(n, i => Proc(Out, Ext(false, false, false), 0, 0, false)), {})
  }

  /** While a lock drains it has one exclusive holder, no share, no waiter and no pending request. */
  ghost predicate Drains(s: State) {
    s.draining ==> s.excl == 1 && s.share == 0 && s.wait == 0 && !s.wantExcl && !s.wantUpgrade
  }

  lemma {:induction false} InitInv(n: nat)
    ensures Inv(Init(n), 0, 0) && Drains(Init(n))
  {
    var procs := Init(n).procs;
    for k := 0 to n
      invariant Shares(procs[..k]) == 0 && forall pc :: pc != Out ==> Count(procs[..k], pc) == 0
    {
      assert procs[..k + 1][..k] == procs[..k];
    }
    assert procs[..n] == procs;
  }

  lemma StepKeeps(s: State, e: Event)
    requires Enabled(s, e) && Inv(s, 0, 0)
    ensures Keeps(s, e.p, Step(s, e))
    ensures Step(s, e).Panic? ==> CallerFault(Step(s, e).why) || Step(s, e).why == ExclusiveGrant
  {
    hide Inv, Enter, Resume;
    match e
    case Call(p, r, ext, reenable) => EnterKeeps(s, p, r, ext, reenable);
    case Run(p, error) => ResumeKeeps(s, p, error);
  }

  /** Return and the wakeups change no lock field but LK_WAITDRAIN. */
  lemma ReturnFields(s: State, p: nat, failed: bool)
    requires p < |s.procs|
    ensures var r := Return(s, p, failed);
            && r.Ok? && r.s.procs == s.procs[p := s.procs[p].(pc := Out, failed := failed)]
            && r.s == s.(procs := r.s.procs, waitDrain := r.s.waitDrain, woken := r.s.woken)
  {
  }

  lemma AwakenFields(s: State)
    ensures Awaken(s) == s.(woken := Awaken(s).woken)
  {
  }

  /** No upgrade is pending and nobody waits for an exclusive lock that is already held. */
  predicate Calm(s: State) { !s.wantUpgrade && !(s.wantExcl && s.haveExcl) }

  ghost predicate SameDraining(s: State, r: Outcome) { r.Ok? ==> r.s.draining == s.draining }

  ghost predicate StaysCalm(r: Outcome) { r.Ok? ==> Calm(r.s) }

  lemma GrantFlags(s: State, p: nat, why: Reason)
    requires p < |s.procs|
    ensures SameDraining(s, GrantExclusive(s, p, why)) && SameDraining(s, GrantShared(s, p))
    ensures Calm(s) ==> StaysCalm(GrantShared(s, p))
    ensures !s.wantUpgrade && !s.wantExcl ==> StaysCalm(GrantExclusive(s, p, why))
  {
    hide Return;
    ReturnFields(SetProc(s, p, s.procs[p].(excls := 1)).(haveExcl := true, holder := Some(p), excl := 1), p, false);
    ReturnFields(SetProc(s, p, s.procs[p].(shares := s.procs[p].shares + 1)).(share := s.share + 1), p, false);
  }

  lemma TryFlags(s: State, p: nat)
    requires p < |s.procs|
    ensures SameDraining(s, TryShared(s, p)) && SameDraining(s, TryUpgrade(s, p))
    ensures SameDraining(s, TryExcl1(s, p)) && SameDraining(s, TryExcl2(s, p))
    ensures Calm(s) ==> StaysCalm(TryShared(s, p)) && StaysCalm(TryExcl1(s, p))
    ensures !s.wantUpgrade && !s.haveExcl ==> StaysCalm(TryExcl2(s, p))
  {
    hide GrantShared, GrantExclusive;
    GrantFlags(s, p, UpgradeGrant);
    GrantFlags(s.(wantUpgrade := false), p, UpgradeGrant);
    GrantFlags(s.(wantExcl := false), p, ExclusiveGrant);
    GrantFlags(s.(wantExcl := true).(wantExcl := false), p, ExclusiveGrant);
  }

  lemma TryDrainFlags(s: State, p: nat)
    requires p < |s.procs|
    ensures Drains(s) && TryDrain(s, p).Ok? ==> Drains(TryDrain(s, p).s)
    ensures Calm(s) ==> StaysCalm(TryDrain(s, p))
  {
    hide Return;
    ReturnFields(SetProc(s, p, s.procs[p].(excls := 1)).(draining := true, haveExcl := true, holder := Some(p),
        excl := 1), p, false);
  }

  lemma ExclusiveFlags(s: State, p: nat)
    requires p < |s.procs|
    ensures SameDraining(s, EnterExclusive(s, p))
    ensures Calm(s) ==> StaysCalm(EnterExclusive(s, p))
  {
    hide Return, TryExcl1;
    ReturnFields(SetProc(s, p, s.procs[p].(excls := s.procs[p].excls + 1)).(excl := s.excl + 1), p, false);
    ReturnFields(s, p, true);
    TryFlags(s, p);
  }

  lemma DowngradeFlags(s: State, p: nat)
    requires p < |s.procs|
    ensures SameDraining(s, EnterDowngrade(s, p))
    ensures Calm(s) ==> StaysCalm(EnterDowngrade(s, p))
  {
    hide Return, Awaken;
    var q := s.procs[p];
    var t := SetProc(s, p, q.(shares := q.shares + q.excls, excls := 0))
             .(share := s.share + s.excl, excl := 0, haveExcl := false, holder := None);
    AwakenFields(t);
    ReturnFields(Awaken(t), p, false);
  }

  lemma UpgradeFlags(s: State, p: nat)
    requires p < |s.procs|
    ensures SameDraining(s, EnterUpgrade(s, p)) && SameDraining(s, EnterExclUpgrade(s, p))
  {
    hide Return, Wakeup, EnterExclusive, TryUpgrade;
    var t := DropShare(s, p);
    ReturnFields(t, p, true);
    TryFlags(t.(wantUpgrade := true), p);
    ExclusiveFlags(t, p);
    WakeupFields(t);
    ExclusiveFlags(Wakeup(t), p);
  }

  lemma WakeupFields(s: State)
    ensures Wakeup(s) == s.(woken := Wakeup(s).woken)
  {
  }

  lemma AwakenReturnFields(s: State, p: nat)
    requires p < |s.procs|
    ensures SameDraining(s, Return(Awaken(s), p, false))
    ensures Calm(s) ==> StaysCalm(Return(Awaken(s), p, false))
  {
    hide Return, Awaken;
    AwakenFields(s);
    ReturnFields(Awaken(s), p, false);
  }

  lemma ReleaseFlags(s: State, p: nat)
    requires p < |s.procs|
    ensures SameDraining(s, EnterRelease(s, p))
    ensures Calm(s) ==> StaysCalm(EnterRelease(s, p))
  {
    hide Return, Awaken;
    if s.excl != 0 {
      var t := SetProc(s, p, s.procs[p].(excls := s.procs[p].excls - 1)).(excl := s.excl - 1);
      AwakenReturnFields(t, p);
      AwakenReturnFields(t.(haveExcl := false, holder := None), p);
    } else {
      AwakenReturnFields(s, p);
      AwakenReturnFields(DropShare(s, p), p);
    }
  }

  predicate Upgrading(r: Request) { r.Upgrade? || r.ExclUpgrade? }

  lemma DispatchFlags(s: State, p: nat, r: Request)
    requires Legal(s, p, r)
    ensures !r.Drain? ==> SameDraining(s, Dispatch(s, p, r))
    ensures Drains(s) && Dispatch(s, p, r).Ok? && !s.draining ==> Drains(Dispatch(s, p, r).s)
    ensures Calm(s) && !Upgrading(r) ==> StaysCalm(Dispatch(s, p, r))
  {
    hide Return, EnterUpgrade, EnterExclUpgrade, EnterExclusive, EnterDowngrade, EnterRelease, TryDrain, TryShared;
    match r
    case Shared =>
      ReturnFields(s, p, true);
      TryFlags(s, p);
      DowngradeFlags(SetProc(s, p, s.procs[p].(shares := s.procs[p].shares + 1)).(share := s.share + 1), p);
    case Downgrade => DowngradeFlags(s, p);
    case ExclUpgrade => UpgradeFlags(s, p);
    case Upgrade => UpgradeFlags(s, p);
    case Exclusive => ExclusiveFlags(s, p);
    case Release => ReleaseFlags(s, p);
    case Drain =>
      ReturnFields(s, p, true);
      TryDrainFlags(s, p);
  }

  lemma EnterFlags(s: State, p: nat, r: Request, ext: Ext, reenable: bool)
    requires Legal(s, p, r) && Drains(s)
    ensures Enter(s, p, r, ext, reenable).Ok? ==> Drains(Enter(s, p, r, ext, reenable).s)
    ensures Calm(s) && !Upgrading(r) ==> StaysCalm(Enter(s, p, r, ext, reenable))
  {
    hide Dispatch;
    var t := SetProc(s, p, s.procs[p].(ext := ext));
    DispatchFlags(t, p, r);
    DispatchFlags(t.(draining := false, drained := !reenable), p, r);
  }

  lemma ResumeFlags(s: State, p: nat, error: bool)
    requires CanResume(s, p, error) && Drains(s) && Inv(s, 0, 0)
    ensures Resume(s, p, error).Ok? ==> Drains(Resume(s, p, error).s)
    ensures Calm(s) ==> StaysCalm(Resume(s, p, error))
  {
    hide Return, TryShared, TryUpgrade, TryExcl1, TryExcl2, TryDrain, Shares, Count;
    LeaveSleep(s, p);
    CountOne(s.procs, p);
    var u := SetProc(s, p, s.procs[p].(pc := Out));
    var t := u.(wait := s.wait - 1);
    TryFlags(t, p);
    TryDrainFlags(u, p);
    ReturnFields(t, p, true);
    ReturnFields(t.(wantUpgrade := false), p, true);
    ReturnFields(t.(wantExcl := false), p, true);
  }

  lemma StepFlags(s: State, e: Event)
    requires Enabled(s, e) && Inv(s, 0, 0) && Drains(s)
    ensures Step(s, e).Ok? ==> Drains(Step(s, e).s)
    ensures Calm(s) && !(e.Call? && Upgrading(e.r)) ==> StaysCalm(Step(s, e))
  {
    hide Inv, Enter, Resume;
    match e
    case Call(p, r, ext, reenable) => EnterFlags(s, p, r, ext, reenable);
    case Run(p, error) => ResumeFlags(s, p, error);
  }

  /** Every state of every run keeps the counts exact and exclusive holds exclusive; the grant of an
      upgrade, a release by a holder and an upgrade of a held share never panic. */
  lemma {:induction false} RunSafe(s: State, es: seq<Event>)
    requires Inv(s, 0, 0) && Drains(s) && Possible(s, es)
    ensures Exec(s, es).Ok? ==> Inv(Exec(s, es).s, 0, 0) && Drains(Exec(s, es).s)
    ensures Exec(s, es).Panic? ==> CallerFault(Exec(s, es).why) || Exec(s, es).why == ExclusiveGrant
    decreases |es|
  {
    hide Inv, Drains, Enabled, Step;
    if es != [] {
      StepKeeps(s, es[0]);
      StepFlags(s, es[0]);
      if Step(s, es[0]).Ok? { RunSafe(Step(s, es[0]).s, es[1..]); }
    }
  }

  // ---------- what a request leaves its caller with ----------

  /** The holds after a successful request, and while it sleeps or after it failed: a failed
      upgrade has lost its share, any other failed request has changed nothing. */
  ghost predicate Succeeds(r: Request, q: Proc, q': Proc) {
    match r
    case Shared => q'.shares == q.shares + q.excls + 1 && q'.excls == 0
    case Downgrade => q'.shares == q.shares + q.excls && q'.excls == 0
    case ExclUpgrade => q'.shares == q.shares - 1 && q'.excls == 1
    case Upgrade => q'.shares == q.shares - 1 && q'.excls == 1
    case Exclusive => q'.shares == q.shares && q'.excls == q.excls + 1
    case Release => q'.shares + q'.excls == q.shares + q.excls - 1 && q'.shares <= q.shares && q'.excls <= q.excls
    case Drain => q'.shares == q.shares && q'.excls == 1
  }

  ghost predicate NotYet(r: Request, q: Proc, q': Proc) {
    q'.shares == q.shares - Bit(Upgrading(r)) && q'.excls == q.excls
  }

  ghost predicate CallEffect(r: Request, q: Proc, p: nat, o: Outcome) {
    o.Ok? ==>
      (p < |o.s.procs| &&
       var q' := o.s.procs[p];
       if q'.pc.Out? && !q'.failed then Succeeds(r, q, q') else NotYet(r, q, q'))
  }

  /** At a wait condition: either asleep with nothing changed, or the lock is granted. */
  ghost predicate Grants(shared: bool, q: Proc, p: nat, o: Outcome) {
    o.Ok? ==>
      (p < |o.s.procs| &&
       var q' := o.s.procs[p];
       if !q'.pc.Out? then q'.shares == q.shares && q'.excls == q.excls
       else !q'.failed && q'.shares == q.shares + Bit(shared) && q'.excls == if shared then q.excls else 1)
  }

  lemma TrySharedGrants(s: State, p: nat)
    requires p < |s.procs|
    ensures Grants(true, s.procs[p], p, TryShared(s, p))
  {
    hide Return;
    ReturnFields(SetProc(s, p, s.procs[p].(shares := s.procs[p].shares + 1)).(share := s.share + 1), p, false);
  }

  lemma TryUpgradeGrants(s: State, p: nat)
    requires p < |s.procs|
    ensures Grants(false, s.procs[p], p, TryUpgrade(s, p))
  {
    hide Return;
    var t := s.(procs := s.procs[p := s.procs[p].(excls := 1)], haveExcl := true, holder := Some(p), excl := 1);
    ReturnFields(t.(wantUpgrade := false), p, false);
  }

  lemma TryExcl2Grants(s: State, p: nat)
    requires p < |s.procs|
    ensures Grants(false, s.procs[p], p, TryExcl2(s, p))
  {
    hide Return;
    var t := s.(procs := s.procs[p := s.procs[p].(excls := 1)], haveExcl := true, holder := Some(p), excl := 1);
    ReturnFields(t.(wantExcl := false), p, false);
  }

  lemma TryExcl1Grants(s: State, p: nat)
    requires p < |s.procs|
    ensures Grants(false, s.procs[p], p, TryExcl1(s, p))
  {
    hide TryExcl2;
    TryExcl2Grants(s.(wantExcl := true), p);
  }

  lemma TryDrainGrants(s: State, p: nat)
    requires p < |s.procs|
    ensures Grants(false, s.procs[p], p, TryDrain(s, p))
  {
    hide Return;
    ReturnFields(SetProc(s, p, s.procs[p].(excls := 1)).(draining := true, haveExcl := true, holder := Some(p),
        excl := 1), p, false);
  }

  lemma ExclusiveEffect(s: State, p: nat, q: Proc, r: Request)
    requires p < |s.procs| && Inv(s, 0, 0)
    requires NotYet(r, q, s.procs[p]) && (r.Exclusive? || (Upgrading(r) && s.holder != Some(p)))
    ensures CallEffect(r, q, p, EnterExclusive(s, p))
  {
    hide Shares, Count, Return, TryExcl1;
    if s.holder == Some(p) {
      ReturnFields(SetProc(s, p, s.procs[p].(excls := s.procs[p].excls + 1)).(excl := s.excl + 1), p, false);
    } else {
      ReturnFields(s, p, true);
      TryExcl1Grants(s, p);
    }
  }

  lemma UpgradeEffect(s: State, p: nat, r: Request)
    requires p < |s.procs| && s.procs[p].pc.Out? && Inv(s, 0, 0) && Upgrading(r) && s.procs[p].shares > 0
    ensures CallEffect(r, s.procs[p], p, EnterUpgrade(s, p))
  {
    hide Shares, Count, Return, EnterExclusive, Wakeup, TryUpgrade;
    DropShareKeeps(s, p);
    var t := DropShare(s, p);
    ReturnFields(t, p, true);
    TryUpgradeGrants(t.(wantUpgrade := true), p);
    ExclusiveEffect(t, p, s.procs[p], r);
    WakeupFields(t);
    ExclusiveEffect(Wakeup(t), p, s.procs[p], r);
  }

  lemma DowngradeEffect(s: State, p: nat, r: Request, q: Proc)
    requires p < |s.procs| && (r.Downgrade? || r.Shared?)
    requires s.procs[p].shares == q.shares + Bit(r.Shared?) && s.procs[p].excls == q.excls
    ensures CallEffect(r, q, p, EnterDowngrade(s, p))
  {
    hide Return, Awaken;
    var q := s.procs[p];
    var t := SetProc(s, p, q.(shares := q.shares + q.excls, excls := 0))
             .(share := s.share + s.excl, excl := 0, haveExcl := false, holder := None);
    AwakenFields(t);
    ReturnFields(Awaken(t), p, false);
  }

  lemma ReleaseEffect(s: State, p: nat)
    requires Legal(s, p, Release) && Inv(s, 0, 0)
    ensures CallEffect(Release, s.procs[p], p, EnterRelease(s, p))
  {
    hide Return, Awaken, Shares, Count;
    if s.excl != 0 {
      var t := SetProc(s, p, s.procs[p].(excls := s.procs[p].excls - 1)).(excl := s.excl - 1);
      var u := if t.excl == 0 then t.(haveExcl := false, holder := None) else t;
      AwakenFields(u);
      ReturnFields(Awaken(u), p, false);
    } else {
      DropShareKeeps(s, p);
      AwakenFields(DropShare(s, p));
      ReturnFields(Awaken(DropShare(s, p)), p, false);
    }
  }

  lemma DispatchEffect(s: State, p: nat, r: Request)
    requires Legal(s, p, r) && Inv(s, 0, 0)
    ensures CallEffect(r, s.procs[p], p, Dispatch(s, p, r))
  {
    hide Shares, Count, Return, EnterUpgrade, EnterExclusive, EnterDowngrade, EnterRelease, TryShared, TryDrain;
    match r
    case Shared =>
      ReturnFields(s, p, true);
      TrySharedGrants(s, p);
      DowngradeEffect(SetProc(s, p, s.procs[p].(shares := s.procs[p].shares + 1)).(share := s.share + 1), p, r,
          s.procs[p]);
    case Downgrade => DowngradeEffect(s, p, r, s.procs[p]);
    case ExclUpgrade =>
      ReturnFields(DropShare(s, p), p, true);
      UpgradeEffect(s, p, r);
    case Upgrade => UpgradeEffect(s, p, r);
    case Exclusive => ExclusiveEffect(s, p, s.procs[p], r);
    case Release => ReleaseEffect(s, p);
    case Drain =>
      ReturnFields(s, p, true);
      TryDrainGrants(s, p);
  }

  /** A request gives its caller exactly what it asks for, and after an error nothing is gained:
      a failed upgrade has released the share. */
  lemma EnterEffect(s: State, p: nat, r: Request, ext: Ext, reenable: bool)
    requires Legal(s, p, r) && Inv(s, 0, 0)
    ensures CallEffect(r, s.procs[p], p, Enter(s, p, r, ext, reenable))
  {
    hide Shares, Count, Dispatch;
    var t := SetProc(s, p, s.procs[p].(ext := ext));
    RetouchKeeps(s, p, t);
    DispatchEffect(t, p, r);
    DispatchEffect(t.(draining := false, drained := !reenable), p, r);
  }

  /** The rest of a request that slept: granted, asleep again, or failed with nothing changed. */
  lemma ResumeEffect(s: State, p: nat, error: bool)
    requires CanResume(s, p, error)
    ensures var q, o := s.procs[p], Resume(s, p, error);
            if error || q.ext.sleepfail then
              o.Ok? && p < |o.s.procs| && o.s.procs[p].pc.Out? && o.s.procs[p].failed &&
              o.s.procs[p].shares == q.shares && o.s.procs[p].excls == q.excls
            else Grants(q.pc.InShared?, q, p, o)
  {
    hide Return, TryShared, TryUpgrade, TryExcl1, TryExcl2, TryDrain;
    var u := SetProc(s, p, s.procs[p].(pc := Out));
    var t := u.(wait := s.wait - 1);
    ReturnFields(t, p, true);
    ReturnFields(t.(wantUpgrade := false), p, true);
    ReturnFields(t.(wantExcl := false), p, true);
    match s.procs[p].pc
    case InShared => TrySharedGrants(t, p);
    case InUpgrade => TryUpgradeGrants(t, p);
    case InExcl1 => TryExcl1Grants(t, p);
    case InExcl2 => TryExcl2Grants(t, p);
    case InDrain => TryDrainGrants(u, p);
    case Out =>
  }

  ghost predicate SleepsIff(cond: bool, p: nat, o: Outcome) {
    o.Ok? ==> p < |o.s.procs| && (!o.s.procs[p].pc.Out? <==> cond)
  }

  /** A request with LK_NOWAIT sleeps in exactly one case: an upgrade that is first and sees one
      other share, because the count it tests is already lowered by its own. */
  lemma NowaitSleeps(s: State, p: nat, r: Request)
    requires Legal(s, p, r) && Inv(s, 0, 0) && s.procs[p].ext.nowait
    ensures SleepsIff(Upgrading(r) && !s.wantUpgrade && s.share == 2, p, Dispatch(s, p, r))
  {
    hide Shares, Count, Return, EnterDowngrade, EnterRelease, EnterUpgrade, EnterExclusive, EnterShared, EnterDrain;
    match r
    case Shared => NowaitShared(s, p);
    case Downgrade => DowngradeReturns(s, p);
    case ExclUpgrade =>
      ReturnFields(DropShare(s, p), p, true);
      NowaitUpgrade(s, p);
    case Upgrade => NowaitUpgrade(s, p);
    case Exclusive => NowaitExclusive(s, p);
    case Release => ReleaseReturns(s, p);
    case Drain => NowaitDrain(s, p);
  }

  lemma NowaitShared(s: State, p: nat)
    requires Legal(s, p, Shared) && Inv(s, 0, 0) && s.procs[p].ext.nowait
    ensures SleepsIff(false, p, EnterShared(s, p))
  {
    hide Shares, Count, Return, EnterDowngrade, Inv;
    ReturnFields(s, p, true);
    var t := SetProc(s, p, s.procs[p].(shares := s.procs[p].shares + 1)).(share := s.share + 1);
    ReturnFields(t, p, false);
    DowngradeReturns(t, p);
  }

  lemma NowaitDrain(s: State, p: nat)
    requires Legal(s, p, Drain) && Inv(s, 0, 0) && s.procs[p].ext.nowait
    ensures SleepsIff(false, p, EnterDrain(s, p))
  {
    hide Shares, Count, Return, DrainBlocked, Inv;
    ReturnFields(s, p, true);
    var t := SetProc(s, p, s.procs[p].(excls := 1));
    ReturnFields(t.(draining := true, haveExcl := true, holder := Some(p), excl := 1), p, false);
  }

  lemma DowngradeReturns(s: State, p: nat)
    requires p < |s.procs|
    ensures SleepsIff(false, p, EnterDowngrade(s, p))
  {
    hide Return, Awaken;
    var q := s.procs[p];
    var t := SetProc(s, p, q.(shares := q.shares + q.excls, excls := 0))
             .(share := s.share + s.excl, excl := 0, haveExcl := false, holder := None);
    AwakenFields(t);
    ReturnFields(Awaken(t), p, false);
  }

  lemma ReleaseReturns(s: State, p: nat)
    requires p < |s.procs|
    ensures SleepsIff(false, p, EnterRelease(s, p))
  {
    hide Return, Awaken;
    if s.excl != 0 {
      var t := SetProc(s, p, s.procs[p].(excls := s.procs[p].excls - 1)).(excl := s.excl - 1);
      var u := if t.excl == 0 then t.(haveExcl := false, holder := None) else t;
      AwakenFields(u);
      ReturnFields(Awaken(u), p, false);
    } else {
      var v := if s.share != 0 then DropShare(s, p) else s;
      AwakenFields(v);
      ReturnFields(Awaken(v), p, false);
    }
  }

  lemma NowaitExclusive(s: State, p: nat)
    requires p < |s.procs| && s.procs[p].ext.nowait && s.procs[p].pc.Out?
    ensures SleepsIff(false, p, EnterExclusive(s, p))
  {
    hide Return;
    ReturnFields(s, p, true);
    ReturnFields(SetProc(s, p, s.procs[p].(excls := s.procs[p].excls + 1)).(excl := s.excl + 1), p, false);
    ReturnFields(s.(procs := s.procs[p := s.procs[p].(excls := 1)], haveExcl := true, holder := Some(p), excl := 1,
        wantExcl := false), p, false);
  }

  lemma NowaitUpgrade(s: State, p: nat)
    requires p < |s.procs| && s.procs[p].pc.Out? && Inv(s, 0, 0) && s.procs[p].ext.nowait && s.procs[p].shares > 0
    ensures SleepsIff(!s.wantUpgrade && s.share == 2, p, EnterUpgrade(s, p))
  {
    hide Shares, Count, Return, Wakeup, EnterExclusive;
    DropShareKeeps(s, p);
    var t := DropShare(s, p);
    ReturnFields(t, p, true);
    ReturnFields(SetProc(t, p, t.procs[p].(excls := 1)).(wantUpgrade := false, haveExcl := true, holder := Some(p),
        excl := 1), p, false);
    WakeupFields(t);
    NowaitExclusive(t, p);
    NowaitExclusive(Wakeup(t), p);
  }

  /** What the counts mean: an exclusive hold excludes every other hold. */
  lemma Exclusion(s: State, p: nat, q: nat)
    requires Inv(s, 0, 0) && p < |s.procs| && q < |s.procs| && s.procs[p].excls > 0
    ensures s.procs[p].shares == 0 && s.procs[q].shares == 0 && (p != q ==> s.procs[q].excls == 0)
    ensures s.excl == s.procs[p].excls && s.holder == Some(p) && s.haveExcl
  {
    hide Shares, Count;
    SharesBound(s.procs, p);
    SharesBound(s.procs, q);
  }

  /** While a lock drains, the drainer is the only holder and nobody sleeps in ACQUIRE. */
  lemma DrainExcludes(s: State, q: nat)
    requires Inv(s, 0, 0) && Drains(s) && s.draining && q < |s.procs|
    ensures s.holder.Some? && !Acquiring(s.procs[q].pc)
    ensures s.procs[q].shares == 0 && s.procs[q].excls == if s.holder == Some(q) then 1 else 0
  {
    hide Shares, Count;
    SharesBound(s.procs, q);
    CountOne(s.procs, q);
  }

  /** A run without upgrade requests never panics in the exclusive grant. */
  lemma {:induction false} WithoutUpgrades(s: State, es: seq<Event>)
    requires Inv(s, 0, 0) && Drains(s) && Calm(s) && Possible(s, es)
    requires forall k :: 0 <= k < |es| && es[k].Call? ==> !Upgrading(es[k].r)
    ensures Exec(s, es).Ok? ==> Calm(Exec(s, es).s)
    ensures Exec(s, es).Panic? ==> CallerFault(Exec(s, es).why)
    decreases |es|
  {
    hide Inv, Drains, Enabled, Step, Calm;
    if es != [] {
      StepKeeps(s, es[0]);
      StepFlags(s, es[0]);
      CalmStep(s, es[0]);
      if Step(s, es[0]).Ok? { WithoutUpgrades(Step(s, es[0]).s, es[1..]); }
    }
  }

  lemma CalmStep(s: State, e: Event)
    requires Inv(s, 0, 0) && Calm(s) && Enabled(s, e)
    ensures Step(s, e).Panic? ==> CallerFault(Step(s, e).why)
  {
    hide Shares, Count, Enter, Resume;
    match e
    case Call(p, r, ext, reenable) => EnterKeeps(s, p, r, ext, reenable);
    case Run(p, error) =>
      ResumeKeeps(s, p, error);
      LeaveSleep(s, p);
  }

  const PLAIN := Ext(false, false, false)
  const IDLE := Proc(Out, PLAIN, 0, 0, false)
  const READER := Proc(Out, PLAIN, 1, 0, false)
  const WAITER := Proc(InExcl2, PLAIN, 0, 0, false)

  /** Process 1 waits for two shares to go, the release of one wakes it, and before it runs the
      other share is upgraded. */
  function Overtaking(): seq<Event> {
    [Call(0, Shared, PLAIN, false), Call(2, Shared, PLAIN, false), Call(1, Exclusive, PLAIN, false),
     Call(2, Release, PLAIN, false), Call(0, Upgrade, PLAIN, false), Run(1, false)]
  }

  function Scene(want: bool, share: int, wait: int, procs: seq<Proc>, woken: set<nat>): State {
    State(false, want, false, false, false, false, share, 0, wait, None, procs, woken)
  }

  lemma FirstReader()
    ensures Enabled(Scene(false, 0, 0, [IDLE, IDLE, IDLE], {}), Overtaking()[0])
    ensures Step(Scene(false, 0, 0, [IDLE, IDLE, IDLE], {}), Overtaking()[0]) ==
            Ok(Scene(false, 1, 0, [READER, IDLE, IDLE], {}))
  {
  }

  lemma SecondReader()
    ensures Enabled(Scene(false, 1, 0, [READER, IDLE, IDLE], {}), Overtaking()[1])
    ensures Step(Scene(false, 1, 0, [READER, IDLE, IDLE], {}), Overtaking()[1]) ==
            Ok(Scene(false, 2, 0, [READER, IDLE, READER], {}))
  {
  }

  lemma WriterWaits()
    ensures Enabled(Scene(false, 2, 0, [READER, IDLE, READER], {}), Overtaking()[2])
    ensures Step(Scene(false, 2, 0, [READER, IDLE, READER], {}), Overtaking()[2]) ==
            Ok(Scene(true, 2, 1, [READER, WAITER, READER], {}))
  {
  }

  lemma ReaderWakesWriter()
    ensures Enabled(Scene(true, 2, 1, [READER, WAITER, READER], {}), Overtaking()[3])
    ensures Step(Scene(true, 2, 1, [READER, WAITER, READER], {}), Overtaking()[3]) ==
            Ok(Scene(true, 1, 1, [READER, WAITER, IDLE], {1}))
  {
  }

  function Overtaken(): State {
    Scene(true, 0, 1, [IDLE.(excls := 1), WAITER, IDLE], {1}).(haveExcl := true, holder := Some(0), excl := 1)
  }

  lemma ReaderUpgrades()
    ensures Enabled(Scene(true, 1, 1, [READER, WAITER, IDLE], {1}), Overtaking()[4])
    ensures Step(Scene(true, 1, 1, [READER, WAITER, IDLE], {1}), Overtaking()[4]) == Ok(Overtaken())
  {
  }

  lemma WriterPanics()
    ensures Enabled(Overtaken(), Overtaking()[5])
    ensures Step(Overtaken(), Overtaking()[5]) == Panic(ExclusiveGrant)
  {
  }

  /** With an upgrade the panic in the exclusive grant is reached by correct callers. */
  lemma UpgradeOvertakes()
    ensures Possible(Init(3), Overtaking()) && Exec(Init(3), Overtaking()) == Panic(ExclusiveGrant)
  {
    hide Step, Enabled;
    var es := Overtaking();
    var s1 := Scene(false, 1, 0, [READER, IDLE, IDLE], {});
    var s2 := Scene(false, 2, 0, [READER, IDLE, READER], {});
    var s3 := Scene(true, 2, 1, [READER, WAITER, READER], {});
    var s4 := Scene(true, 1, 1, [READER, WAITER, IDLE], {1});
    assert Init(3) == Scene(false, 0, 0, [IDLE, IDLE, IDLE], {});
    FirstReader(); SecondReader(); WriterWaits(); ReaderWakesWriter(); ReaderUpgrades(); WriterPanics();
    Unroll(s4, Overtaken(), es[4..]);
    Unroll(s3, s4, es[3..]);
    Unroll(s2, s3, es[2..]);
    Unroll(s1, s2, es[1..]);
    Unroll(Init(3), s1, es);
    assert es[4..][1..] == es[5..] && es[3..][1..] == es[4..] && es[2..][1..] == es[3..] && es[1..][1..] == es[2..];
  }

  lemma Unroll(s: State, t: State, es: seq<Event>)
    requires es != [] && Enabled(s, es[0]) && Step(s, es[0]) == Ok(t)
    ensures Possible(s, es) == Possible(t, es[1..])
    ensures Possible(t, es[1..]) ==> Exec(s, es) == Exec(t, es[1..])
  {
  }

  const NOWAIT := Ext(true, false, false)

  /** Two shares, then one of them upgraded with LK_NOWAIT. */
  function Impatient(): seq<Event> {
    [Overtaking()[0], Overtaking()[1], Call(0, Upgrade, NOWAIT, false)]
  }

  lemma ImpatientSleeps()
    ensures var s, e := Scene(false, 2, 0, [READER, IDLE, READER], {}), Call(0, Upgrade, NOWAIT, false);
            Enabled(s, e) && Step(s, e) == Ok(Waiting())
  {
  }

  function Waiting(): State {
    Scene(false, 1, 1, [Proc(InUpgrade, NOWAIT, 0, 0, false), IDLE, READER], {}).(wantUpgrade := true)
  }

  /** A run in which a request with LK_NOWAIT sleeps. */
  lemma NowaitSleepHappens()
    ensures Possible(Init(3), Impatient()) && Exec(Init(3), Impatient()) == Ok(Waiting()) &&
            Waiting().procs[0].ext.nowait && Acquiring(Waiting().procs[0].pc)
  {
    hide Step, Enabled;
    var es := Impatient();
    var s1 := Scene(false, 1, 0, [READER, IDLE, IDLE], {});
    var s2 := Scene(false, 2, 0, [READER, IDLE, READER], {});
    assert Init(3) == Scene(false, 0, 0, [IDLE, IDLE, IDLE], {});
    FirstReader(); SecondReader(); ImpatientSleeps();
    assert es[2..][1..] == [] && es[1..][1..] == es[2..];
    Unroll(s2, Waiting(), es[2..]);
    Unroll(s1, s2, es[1..]);
    Unroll(Init(3), s1, es);
  }
}
