/** Which sleepers of lockmgr are woken: whether anyone who could go on is left asleep. */
module LockWakeups {
  import opened Common
  import opened LockMgr
  import opened LockOutcome

  /** x sleeps in ACQUIRE, and what it waits for has come. */
  predicate Able(s: State, x: nat) {
    x < |s.procs| && !s.haveExcl &&
    match s.procs[x].pc
    case InShared => !s.wantExcl && !s.wantUpgrade
    case InUpgrade => s.share == 0
    case InExcl1 => !s.wantExcl
    case InExcl2 => s.share == 0 && !s.wantUpgrade
    case _ => false
  }

  /** Whoever could go on has been woken. */
  ghost predicate NoLost(s: State) { forall x: nat :: Able(s, x) ==> x in s.woken }

  /** A drainer that has not been woken will be, and the lock is not quiet. */
  ghost predicate DrainFlag(s: State) {
    forall x: nat :: x < |s.procs| && s.procs[x].pc.InDrain? && x !in s.woken ==> s.waitDrain
  }

  ghost predicate DrainOk(s: State) { DrainFlag(s) && (s.waitDrain ==> NotQuiet(s)) }

  /** From s to t nobody but p comes to be able to go on without being woken, and no wakeup is taken back. */
  ghost predicate Spares(s: State, t: State, p: nat) {
    |t.procs| == |s.procs| &&
    forall x: nat :: x < |s.procs| && x != p ==>
      t.procs[x].pc == s.procs[x].pc && (x in s.woken ==> x in t.woken) && (Able(t, x) ==> Able(s, x) || x in t.woken)
  }

  lemma SparesTransitive(s: State, t: State, u: State, p: nat)
    requires Spares(s, t, p) && Spares(t, u, p)
    ensures Spares(s, u, p)
  {
    hide Able;
  }

  /** A step of p that leaves p where it is not able to go on; if it sleeps there, it does so until the
      next wakeup, and drainers are woken only when the lock is quiet. */
  ghost predicate Spared(s: State, p: nat, o: Outcome) {
    o.Ok? ==> Spares(s, o.s, p) && !Able(o.s, p) && DrainOk(o.s) && Fair(s, o.s, p)
  }

  ghost predicate Fair(s: State, t: State, p: nat) { Waits(t, p) && DrainsDue(s, t, p) }

  ghost predicate Waits(t: State, p: nat) { p < |t.procs| && (!t.procs[p].pc.Out? ==> p !in t.woken) }

  ghost predicate DrainsDue(s: State, t: State, p: nat) {
    forall x: nat :: x < |s.procs| && x != p && s.procs[x].pc.InDrain? && x in t.woken && x !in s.woken ==> !NotQuiet(t)
  }

  lemma ReturnSpares(s: State, p: nat, failed: bool)
    requires p < |s.procs| && DrainFlag(s)
    ensures Spared(s, p, Return(s, p, failed)) && Return(s, p, failed).Ok?
    ensures forall x: nat :: x < |s.procs| && !s.procs[x].pc.InDrain? ==>
              (x in Return(s, p, failed).s.woken <==> x in s.woken)
    ensures forall x: nat :: x != p ==> (Able(Return(s, p, failed).s, x) <==> Able(s, x))
  {
  }

  lemma SleepSpares(s: State, p: nat, pc: Pc)
    requires p < |s.procs| && s.wait >= 0 && DrainFlag(s) && s.procs[p].pc.Out?
    requires match pc
             case InShared => SharedBlocked(s)
             case InUpgrade => s.share != 0
             case InExcl1 => s.haveExcl || s.wantExcl
             case InExcl2 => s.share != 0 || s.wantUpgrade
             case _ => false
    ensures Spared(s, p, Sleep(s, p, pc))
  {
  }

  /** Nobody in ACQUIRE can go on while the lock is held exclusively. */
  lemma HeldSpares(s: State, t: State, p: nat, o: Outcome)
    requires p < |s.procs| && |t.procs| == |s.procs| && t.haveExcl && t.woken == s.woken && Spared(t, p, o)
    requires forall x :: 0 <= x < |s.procs| && x != p ==> t.procs[x].pc == s.procs[x].pc
    ensures Spared(s, p, o)
  {
  }

  lemma TrySharedSpares(s: State, p: nat)
    requires p < |s.procs| && s.wait >= 0 && DrainFlag(s) && s.procs[p].pc.Out? && s.share >= 0
    ensures Spared(s, p, TryShared(s, p))
  {
    hide Return, Sleep;
    if Busy(s) {
      SleepSpares(s, p, InShared);
    } else {
      var t := SetProc(s, p, s.procs[p].(shares := s.procs[p].shares + 1)).(share := s.share + 1);
      ReturnSpares(t, p, false);
      hide Spared;
      MoreShares(s, t, p, Return(t, p, false));
    }
  }

  lemma MoreShares(s: State, t: State, p: nat, o: Outcome)
    requires p < |s.procs| && s.share >= 0 && t == s.(procs := t.procs, share := s.share + 1) && Spared(t, p, o)
    requires |t.procs| == |s.procs| && forall x :: 0 <= x < |s.procs| && x != p ==> t.procs[x].pc == s.procs[x].pc
    ensures Spared(s, p, o)
  {
  }

  lemma GrantExclusiveSpares(s: State, u: State, p: nat, why: Reason)
    requires p < |s.procs| && DrainFlag(s) && u == s.(wantExcl := u.wantExcl, wantUpgrade := u.wantUpgrade)
    ensures Spared(s, p, GrantExclusive(u, p, why))
  {
    hide Return;
    if u.excl == 0 {
      var t := SetProc(u, p, u.procs[p].(excls := 1)).(haveExcl := true, holder := Some(p), excl := 1);
      ReturnSpares(t, p, false);
      HeldSpares(s, t, p, Return(t, p, false));
    }
  }

  lemma TryUpgradeSpares(s: State, p: nat)
    requires p < |s.procs| && s.wait >= 0 && DrainFlag(s) && s.procs[p].pc.Out?
    ensures Spared(s, p, TryUpgrade(s, p))
  {
    hide GrantExclusive, Sleep;
    if s.share != 0 { SleepSpares(s, p, InUpgrade); }
    GrantExclusiveSpares(s, s.(wantUpgrade := false), p, UpgradeGrant);
  }

  lemma TryExcl2Spares(s: State, p: nat)
    requires p < |s.procs| && s.wait >= 0 && DrainFlag(s) && s.procs[p].pc.Out?
    ensures Spared(s, p, TryExcl2(s, p))
  {
    hide GrantExclusive, Sleep;
    if s.share != 0 || s.wantUpgrade { SleepSpares(s, p, InExcl2); }
    GrantExclusiveSpares(s, s.(wantExcl := false), p, ExclusiveGrant);
  }

  lemma TryExcl1Spares(s: State, p: nat)
    requires p < |s.procs| && s.wait >= 0 && DrainFlag(s) && s.procs[p].pc.Out?
    ensures Spared(s, p, TryExcl1(s, p))
  {
    hide TryExcl2, Sleep;
    if s.haveExcl || s.wantExcl { SleepSpares(s, p, InExcl1); }
    var t := s.(wantExcl := true);
    TryExcl2Spares(t, p);
    MoreWanted(s, t, p, TryExcl2(t, p));
  }

  /** Flags that are set block more. */
  lemma MoreWanted(s: State, t: State, p: nat, o: Outcome)
    requires p < |s.procs| && t == s.(wantExcl := t.wantExcl, wantUpgrade := t.wantUpgrade) && Spared(t, p, o)
    requires (s.wantExcl ==> t.wantExcl) && (s.wantUpgrade ==> t.wantUpgrade)
    ensures Spared(s, p, o)
  {
  }

  lemma TryDrainSpares(s: State, p: nat)
    requires p < |s.procs| && DrainFlag(s) && s.procs[p].pc.Out?
    ensures Spared(s, p, TryDrain(s, p))
  {
    hide Return;
    if !DrainBlocked(s) {
      var t := SetProc(s, p, s.procs[p].(excls := 1))
               .(draining := true, haveExcl := true, holder := Some(p), excl := 1);
      ReturnSpares(t, p, false);
      HeldSpares(s, t, p, Return(t, p, false));
    }
  }

  /** With the count of waiters right, Awaken wakes everyone in ACQUIRE. */
  lemma {:induction false} SleeperCounted(procs: seq<Proc>, x: nat)
    requires x < |procs| && Acquiring(procs[x].pc)
    ensures Count(procs, InShared) + Count(procs, InUpgrade) + Count(procs, InExcl1) + Count(procs, InExcl2) > 0
  {
    CountOne(procs, x);
  }

  lemma AwakenAll(s: State, t: State, p: nat)
    requires p < |s.procs| && Inv(s, 0, 0) && |t.procs| == |s.procs| && t.wait == s.wait
    requires forall x :: 0 <= x < |s.procs| && x != p ==> t.procs[x].pc == s.procs[x].pc
    requires t.procs[p].pc.Out? && s.procs[p].pc.Out?
    ensures forall x: nat :: x < |s.procs| && Acquiring(s.procs[x].pc) ==> x in Awaken(t).woken
    ensures t.woken <= Awaken(t).woken && Awaken(t) == t.(woken := Awaken(t).woken)
    ensures forall x: nat :: x < |s.procs| && s.procs[x].pc.InDrain? && x in Awaken(t).woken ==> x in t.woken
  {
    hide Shares, Count;
    forall x: nat | x < |s.procs| && Acquiring(s.procs[x].pc) ensures x in Awaken(t).woken {
      SleeperCounted(s.procs, x);
    }
  }

  lemma AwakenSpares(s: State, t: State, p: nat)
    requires p < |s.procs| && Inv(s, 0, 0) && DrainFlag(s) && |t.procs| == |s.procs|
    requires t.wait == s.wait && t.woken == s.woken && t.waitDrain == s.waitDrain
    requires forall x :: 0 <= x < |s.procs| && x != p ==> t.procs[x].pc == s.procs[x].pc
    requires t.procs[p].pc.Out? && s.procs[p].pc.Out?
    ensures Spared(s, p, Return(Awaken(t), p, false))
    ensures forall x: nat :: x < |s.procs| && Acquiring(s.procs[x].pc) ==> x in Return(Awaken(t), p, false).s.woken
  {
    hide Return, Awaken, Inv, Able;
    AwakenAll(s, t, p);
    var u := Awaken(t);
    ReturnSpares(u, p, false);
    forall x: nat | Able(u, x) ensures x < |u.procs| && Acquiring(u.procs[x].pc) { AbleAcquires(u, x); }
    SparedFrom(s, u, p, Return(u, p, false));
  }

  lemma AbleAcquires(s: State, x: nat)
    requires Able(s, x)
    ensures x < |s.procs| && Acquiring(s.procs[x].pc)
  {
  }

  lemma PanicSpared(s: State, p: nat)
    ensures forall why :: Spared(s, p, Panic(why))
  {
  }

  lemma SparedFrom(s: State, t: State, p: nat, o: Outcome)
    requires Spares(s, t, p) && Spared(t, p, o) && |t.procs| == |s.procs|
    requires forall x :: 0 <= x < |s.procs| && x != p ==> t.procs[x].pc == s.procs[x].pc
    requires forall x: nat :: x < |s.procs| && s.procs[x].pc.InDrain? && x in t.woken ==> x in s.woken
    ensures Spared(s, p, o)
  {
    hide Able, DrainOk, Waits;
    if o.Ok? { SparesTransitive(s, t, o.s, p); }
  }

  lemma ExclusiveSpares(s: State, p: nat)
    requires p < |s.procs| && s.procs[p].pc.Out? && s.wait >= 0 && DrainFlag(s)
    requires s.holder == Some(p) ==> s.haveExcl
    ensures Spared(s, p, EnterExclusive(s, p))
  {
    hide Return, TryExcl1;
    if s.holder == Some(p) {
      var t := SetProc(s, p, s.procs[p].(excls := s.procs[p].excls + 1)).(excl := s.excl + 1);
      ReturnSpares(t, p, false);
      HeldSpares(s, t, p, Return(t, p, false));
    } else {
      ReturnSpares(s, p, true);
      TryExcl1Spares(s, p);
    }
  }

  /** The first upgrade blocks everyone but those who wait to want an exclusive lock. */
  lemma UpgradeBegins(s: State, p: nat)
    requires p < |s.procs| && s.procs[p].pc.Out? && Inv(s, 0, 0) && !s.wantUpgrade
    ensures Spares(s, DropShare(s, p).(wantUpgrade := true), p)
  {
    hide Shares, Count;
    forall x: nat | x < |s.procs| ensures !s.procs[x].pc.InUpgrade? {
      if s.procs[x].pc.InUpgrade? { CountOne(s.procs, x); }
    }
  }

  /** A share dropped behind another's upgrade: the upgrader is woken with everyone else when it was the
      last. */
  lemma UpgradeJoins(s: State, p: nat)
    requires p < |s.procs| && s.procs[p].pc.Out? && Inv(s, 0, 0) && s.wantUpgrade && DrainFlag(s)
    ensures var t := DropShare(s, p);
            var u := if t.share == 0 && t.wait != 0 then Wakeup(t) else t;
            Spares(s, u, p) && DrainFlag(u)
  {
    hide Shares, Count;
    var t := DropShare(s, p);
    forall x: nat | x < |s.procs| && x != p && Acquiring(s.procs[x].pc) ensures t.wait != 0 {
      SleeperCounted(s.procs, x);
      SharesNonNegativeCounts(s);
    }
  }

  lemma SharesNonNegativeCounts(s: State)
    requires Inv(s, 0, 0)
    ensures s.share >= 0 && s.wait >= 0
  {
    SharesNonNegative(s.procs);
  }

  lemma UpgradeSpares(s: State, p: nat)
    requires p < |s.procs| && s.procs[p].pc.Out? && Inv(s, 0, 0) && DrainFlag(s) && s.procs[p].shares > 0
    ensures (s.wantUpgrade && s.procs[p].ext.nowait) || Spared(s, p, EnterUpgrade(s, p))
  {
    hide Return, TryUpgrade, EnterExclusive, Shares, Count, Spared, Spares, Able;
    DropShareKeeps(s, p);
    SharesNonNegativeCounts(s);
    var t := DropShare(s, p);
    if !s.wantUpgrade {
      UpgradeBegins(s, p);
      var v := t.(wantUpgrade := true);
      TryUpgradeSpares(v, p);
      SparedFrom(s, v, p, TryUpgrade(v, p));
      if s.procs[p].ext.nowait && t.share > 1 {
        ReturnSpares(t, p, true);
        StillShared(s, p);
        SparedFrom(s, t, p, Return(t, p, true));
      }
    } else if !s.procs[p].ext.nowait {
      UpgradeJoins(s, p);
      var u := if t.share == 0 && t.wait != 0 then Wakeup(t) else t;
      ExclusiveSpares(u, p);
      SparedFrom(s, u, p, EnterExclusive(u, p));
    }
  }

  /** A share dropped while others are left lets nobody go on. */
  lemma StillShared(s: State, p: nat)
    requires p < |s.procs| && s.share > 1
    ensures Spares(s, DropShare(s, p), p)
  {
  }

  /** A refused upgrade has dropped its share and woken nobody. */
  predicate Dropped(s: State, r: Request, ext: Ext) {
    Upgrading(r) && s.wantUpgrade && (r.ExclUpgrade? || ext.nowait)
  }

  lemma DispatchSpares(s: State, p: nat, r: Request)
    requires Legal(s, p, r) && Inv(s, 0, 0) && DrainFlag(s)
    ensures Dropped(s, r, s.procs[p].ext) || Spared(s, p, Dispatch(s, p, r))
  {
    hide Return, TryShared, TryDrain, EnterUpgrade, EnterExclusive, Shares, Count, Awaken, Spared;
    SharesNonNegativeCounts(s);
    PanicSpared(s, p);
    match r
    case Shared =>
      ReturnSpares(s, p, true);
      TrySharedSpares(s, p);
      var t := SetProc(s, p, s.procs[p].(shares := s.procs[p].shares + 1)).(share := s.share + 1);
      var q := t.procs[p];
      AwakenSpares(s, SetProc(t, p, q.(shares := q.shares + q.excls, excls := 0))
                      .(share := t.share + t.excl, excl := 0, haveExcl := false, holder := None), p);
    case Downgrade =>
      var q := s.procs[p];
      AwakenSpares(s, SetProc(s, p, q.(shares := q.shares + q.excls, excls := 0))
                      .(share := s.share + s.excl, excl := 0, haveExcl := false, holder := None), p);
    case ExclUpgrade => UpgradeSpares(s, p);
    case Upgrade => UpgradeSpares(s, p);
    case Exclusive => ExclusiveSpares(s, p);
    case Release => ReleaseSpares(s, p);
    case Drain =>
      ReturnSpares(s, p, true);
      TryDrainSpares(s, p);
  }

  lemma ReleaseSpares(s: State, p: nat)
    requires Legal(s, p, Release) && Inv(s, 0, 0) && DrainFlag(s)
    ensures Spared(s, p, EnterRelease(s, p))
    ensures EnterRelease(s, p).Ok? ==>
              forall x: nat :: x < |s.procs| && Acquiring(s.procs[x].pc) ==> x in EnterRelease(s, p).s.woken
  {
    hide Return, Shares, Count, Awaken, Spared;
    PanicSpared(s, p);
    if s.excl != 0 {
      var t := SetProc(s, p, s.procs[p].(excls := s.procs[p].excls - 1)).(excl := s.excl - 1);
      AwakenSpares(s, if t.excl == 0 then t.(haveExcl := false, holder := None) else t, p);
    } else {
      AwakenSpares(s, if s.share != 0 then DropShare(s, p) else s, p);
    }
  }

  // ---------- the law ----------

  /** The steps that leave someone behind: a refused upgrade that drops the last share and does not wake
      the upgrader who waits for it; and an upgrade or exclusive request that gives up its sleep, and
      with it its claim, without waking those whom only that claim kept asleep. */
  ghost predicate Lossy(s: State, e: Event) {
    match e
    case Call(p, r, ext, _) =>
      Dropped(s, r, ext) && s.share == 1 && exists x: nat :: Left(s, x, p) && s.procs[x].pc.InUpgrade?
    case Run(p, error) =>
      p < |s.procs| && (error || s.procs[p].ext.sleepfail) &&
      match s.procs[p].pc
      case InUpgrade =>
        exists x: nat :: Left(s, x, p) && Claimed(s, x, !s.wantExcl, false, s.share == 0)
      case InExcl2 =>
        exists x: nat :: Left(s, x, p) && Claimed(s, x, !s.wantUpgrade && !s.haveExcl, !s.haveExcl, false)
      case _ => false
  }

  /** x sleeps where the claim given up was all that kept it. */
  predicate Claimed(s: State, x: nat, shared: bool, excl1: bool, excl2: bool) {
    x < |s.procs| &&
    match s.procs[x].pc
    case InShared => shared
    case InExcl1 => excl1
    case InExcl2 => excl2
    case _ => false
  }

  ghost predicate Left(s: State, x: nat, p: nat) { x < |s.procs| && x != p && x !in s.woken }

  lemma SparedKeeps(s: State, p: nat, o: Outcome)
    requires Spared(s, p, o) && o.Ok? && p < |s.procs| && forall x: nat :: Able(s, x) && x != p ==> x in s.woken
    ensures NoLost(o.s) && DrainOk(o.s) && Fair(s, o.s, p)
  {
    forall x: nat | Able(o.s, x) ensures x in o.s.woken {
      assert x < |o.s.procs| && x != p;
    }
  }

  lemma DroppedShare(s: State, p: nat, r: Request)
    requires Legal(s, p, r) && Inv(s, 0, 0) && DrainFlag(s) && NoLost(s) && Dropped(s, r, s.procs[p].ext)
    ensures var o := Dispatch(s, p, r);
            o.Ok? && DrainOk(o.s) && Fair(s, o.s, p) &&
            (NoLost(o.s) <==> !(s.share == 1 && exists x: nat :: Left(s, x, p) && s.procs[x].pc.InUpgrade?))
  {
    hide Return, Shares, Count, EnterExclusive, TryUpgrade;
    DropShareKeeps(s, p);
    var t := DropShare(s, p);
    ReturnSpares(t, p, true);
    var u := Return(t, p, true).s;
    assert Dispatch(s, p, r) == Return(t, p, true);
    if x: nat :| s.share == 1 && Left(s, x, p) && s.procs[x].pc.InUpgrade? {
      assert Able(t, x) && Able(u, x);
    } else {
      forall x: nat | Able(u, x) ensures x in u.woken {
        assert x != p && Able(t, x) && t.procs[x].pc == s.procs[x].pc;
      }
    }
  }

  lemma CallWakes(s: State, p: nat, r: Request, ext: Ext, reenable: bool)
    requires Legal(s, p, r) && Inv(s, 0, 0) && DrainFlag(s) && NoLost(s) && Enter(s, p, r, ext, reenable).Ok?
    ensures var o := Enter(s, p, r, ext, reenable);
            DrainOk(o.s) && Fair(s, o.s, p) && (NoLost(o.s) <==> !Lossy(s, Call(p, r, ext, reenable)))
  {
    hide Shares, Count, Dispatch, Spared;
    var t := SetProc(s, p, s.procs[p].(ext := ext));
    var u := if s.draining then t.(draining := false, drained := !reenable) else t;
    RetouchKeeps(s, p, t);
    SameSleepers(s, u, p);
    assert Enter(s, p, r, ext, reenable) == Dispatch(u, p, r);
    if Dropped(s, r, ext) {
      DroppedShare(u, p, r);
      forall x: nat ensures Left(s, x, p) <==> Left(u, x, p) {}
    } else {
      DispatchSpares(u, p, r);
      SparedKeeps(u, p, Dispatch(u, p, r));
    }
  }

  lemma SameSleepers(s: State, u: State, p: nat)
    requires p < |s.procs| && s.procs[p].pc.Out? &&
             u == s.(procs := u.procs, draining := u.draining, drained := u.drained)
    requires |u.procs| == |s.procs| && forall x :: 0 <= x < |s.procs| ==> u.procs[x].pc == s.procs[x].pc
    ensures (DrainFlag(s) ==> DrainFlag(u)) && (NoLost(s) ==> NoLost(u))
  {
    assert forall x: nat :: Able(u, x) <==> Able(s, x);
  }

  /** p has left its sleep. */
  function Awake(s: State, p: nat): State
    requires p < |s.procs|
  {
    SetProc(s, p, s.procs[p].(pc := Out)).(wait := s.wait - 1)
  }

  lemma AwakeSpares(s: State, p: nat)
    requires p < |s.procs| && Inv(s, 0, 0) && DrainFlag(s)
    ensures Spares(s, Awake(s, p), p) && DrainFlag(Awake(s, p)) && Awake(s, p).procs[p].pc.Out?
    ensures Spares(s, SetProc(s, p, s.procs[p].(pc := Out)), p) && DrainFlag(SetProc(s, p, s.procs[p].(pc := Out)))
    ensures Acquiring(s.procs[p].pc) ==> Awake(s, p).wait >= 0
    ensures s.share >= 0
  {
    hide Shares, Count;
    AwakeOthers(s, p);
    hide Spares, DrainFlag;
    SharesNonNegative(s.procs);
    if Acquiring(s.procs[p].pc) { SleeperCounted(s.procs, p); }
  }

  lemma AwakeOthers(s: State, p: nat)
    requires p < |s.procs| && DrainFlag(s)
    ensures Spares(s, Awake(s, p), p) && DrainFlag(Awake(s, p))
    ensures Spares(s, SetProc(s, p, s.procs[p].(pc := Out)), p) && DrainFlag(SetProc(s, p, s.procs[p].(pc := Out)))
  {
  }

  /** A sleeper that gives up a claim. */
  lemma GivesUp(s: State, v: State, p: nat, shared: bool, excl1: bool, excl2: bool)
    requires p < |s.procs| && NoLost(s) && DrainFlag(s) &&
             v == Awake(s, p).(wantUpgrade := v.wantUpgrade, wantExcl := v.wantExcl)
    requires forall x: nat :: x < |s.procs| && x != p ==>
               (Able(v, x) <==> Able(s, x) || Claimed(s, x, shared, excl1, excl2))
    ensures var o := Return(v, p, true);
            o.Ok? && DrainOk(o.s) && Fair(s, o.s, p) &&
            (NoLost(o.s) <==> !exists x: nat :: Left(s, x, p) && Claimed(s, x, shared, excl1, excl2))
  {
    hide Return;
    assert DrainFlag(v);
    ReturnSpares(v, p, true);
    var t := Return(v, p, true).s;
    if x: nat :| Left(s, x, p) && Claimed(s, x, shared, excl1, excl2) {
      assert Able(v, x) && Able(t, x) && x !in t.woken;
    } else {
      forall x: nat | Able(t, x) ensures x in t.woken {
        assert x != p && Able(v, x);
        if !Able(s, x) { assert !Left(s, x, p); }
      }
    }
  }

  lemma UpgradeGivesUp(s: State, p: nat, x: nat)
    requires p < |s.procs| && Inv(s, 0, 0) && s.procs[p].pc.InUpgrade? && x < |s.procs| && x != p
    ensures Able(Awake(s, p).(wantUpgrade := false), x) <==>
            Able(s, x) || Claimed(s, x, !s.wantExcl, false, s.share == 0)
  {
    hide Shares, Count;
    CountOne(s.procs, p);
  }

  lemma ExclGivesUp(s: State, p: nat, x: nat)
    requires p < |s.procs| && Inv(s, 0, 0) && s.procs[p].pc.InExcl2? && x < |s.procs| && x != p
    ensures Able(Awake(s, p).(wantExcl := false), x) <==>
            Able(s, x) || Claimed(s, x, !s.wantUpgrade && !s.haveExcl, !s.haveExcl, false)
  {
    hide Shares, Count;
    CountOne(s.procs, p);
  }

  lemma UpgradeFails(s: State, p: nat)
    requires p < |s.procs| && Inv(s, 0, 0) && DrainFlag(s) && NoLost(s) && s.procs[p].pc.InUpgrade?
    ensures var o := Return(Awake(s, p).(wantUpgrade := false), p, true);
            o.Ok? && DrainOk(o.s) && Fair(s, o.s, p) &&
            (NoLost(o.s) <==> !exists x: nat :: Left(s, x, p) && Claimed(s, x, !s.wantExcl, false, s.share == 0))
  {
    hide Return, Shares, Count, Able;
    forall x: nat | x < |s.procs| && x != p
      ensures Able(Awake(s, p).(wantUpgrade := false), x) <==>
              Able(s, x) || Claimed(s, x, !s.wantExcl, false, s.share == 0)
    {
      UpgradeGivesUp(s, p, x);
    }
    GivesUp(s, Awake(s, p).(wantUpgrade := false), p, !s.wantExcl, false, s.share == 0);
  }

  lemma ExclFails(s: State, p: nat)
    requires p < |s.procs| && Inv(s, 0, 0) && DrainFlag(s) && NoLost(s) && s.procs[p].pc.InExcl2?
    ensures var o := Return(Awake(s, p).(wantExcl := false), p, true);
            o.Ok? && DrainOk(o.s) && Fair(s, o.s, p) &&
            (NoLost(o.s) <==>
             !exists x: nat :: Left(s, x, p) && Claimed(s, x, !s.wantUpgrade && !s.haveExcl, !s.haveExcl, false))
  {
    hide Return, Shares, Count, Able;
    forall x: nat | x < |s.procs| && x != p
      ensures Able(Awake(s, p).(wantExcl := false), x) <==>
              Able(s, x) || Claimed(s, x, !s.wantUpgrade && !s.haveExcl, !s.haveExcl, false)
    {
      ExclGivesUp(s, p, x);
    }
    GivesUp(s, Awake(s, p).(wantExcl := false), p, !s.wantUpgrade && !s.haveExcl, !s.haveExcl, false);
  }

  lemma RunWakes(s: State, p: nat, error: bool)
    requires CanResume(s, p, error) && Inv(s, 0, 0) && DrainOk(s) && NoLost(s) && Resume(s, p, error).Ok?
    ensures var o := Resume(s, p, error);
            DrainOk(o.s) && Fair(s, o.s, p) && (NoLost(o.s) <==> !Lossy(s, Run(p, error)))
  {
    hide Return, TryShared, TryUpgrade, TryExcl1, TryExcl2, TryDrain, Shares, Count, Spared, Able, Spares;
    AwakeSpares(s, p);
    var t := Awake(s, p);
    var u := SetProc(s, p, s.procs[p].(pc := Out));
    var failed := error || s.procs[p].ext.sleepfail;
    match s.procs[p].pc
    case InShared =>
      ReturnSpares(t, p, true);
      TrySharedSpares(t, p);
      var o := if failed then Return(t, p, true) else TryShared(t, p);
      SparedFrom(s, t, p, o);
      SparedKeeps(s, p, o);
    case InExcl1 =>
      ReturnSpares(t, p, true);
      TryExcl1Spares(t, p);
      var o := if failed then Return(t, p, true) else TryExcl1(t, p);
      SparedFrom(s, t, p, o);
      SparedKeeps(s, p, o);
    case InUpgrade =>
      TryUpgradeSpares(t, p);
      SparedFrom(s, t, p, TryUpgrade(t, p));
      if failed { UpgradeFails(s, p); } else { SparedKeeps(s, p, TryUpgrade(t, p)); }
    case InExcl2 =>
      TryExcl2Spares(t, p);
      SparedFrom(s, t, p, TryExcl2(t, p));
      if failed { ExclFails(s, p); } else { SparedKeeps(s, p, TryExcl2(t, p)); }
    case InDrain =>
      TryDrainSpares(u, p);
      SparedFrom(s, u, p, TryDrain(u, p));
      if failed { DrainFails(s, p); } else { SparedKeeps(s, p, TryDrain(u, p)); }
  }

  lemma DrainFails(s: State, p: nat)
    requires p < |s.procs| && DrainOk(s) && NoLost(s)
    ensures DrainOk(SetProc(s, p, s.procs[p].(pc := Out, failed := true)))
    ensures NoLost(SetProc(s, p, s.procs[p].(pc := Out, failed := true)))
    ensures Fair(s, SetProc(s, p, s.procs[p].(pc := Out, failed := true)), p)
  {
    var t := SetProc(s, p, s.procs[p].(pc := Out, failed := true));
    assert forall x: nat :: Able(t, x) ==> Able(s, x);
  }

  /** Exactly which steps of lockmgr leave a sleeper behind that could go on; no drainer ever is. Drainers
      are woken only when the lock is quiet, and who goes to sleep is not already woken. */
  lemma StepWakes(s: State, e: Event)
    requires Enabled(s, e) && Inv(s, 0, 0) && DrainOk(s) && NoLost(s) && Step(s, e).Ok?
    ensures DrainOk(Step(s, e).s) && Fair(s, Step(s, e).s, e.p) && (NoLost(Step(s, e).s) <==> !Lossy(s, e))
  {
    hide Inv, Enter, Resume, NoLost, Lossy;
    match e
    case Call(p, r, ext, reenable) => CallWakes(s, p, r, ext, reenable);
    case Run(p, error) => RunWakes(s, p, error);
  }

  /** The requests that free something others wait for. */
  predicate Frees(s: State, e: Event) {
    match e
    case Call(p, r, ext, _) =>
      r.Release? || r.Downgrade? || (r.Shared? && s.holder == Some(p)) ||
      (r.Upgrade? && s.wantUpgrade && s.share == 1 && !ext.nowait)
    case Run(_, _) => false
  }

  /** Nobody but p in ACQUIRE is newly woken. */
  ghost predicate LetsLie(s: State, p: nat, o: Outcome) {
    o.Ok? ==> forall x: nat :: x < |s.procs| && x != p && Acquiring(s.procs[x].pc) && x in o.s.woken ==> x in s.woken
  }

  lemma LetsLieFrom(s: State, t: State, p: nat, o: Outcome)
    requires LetsLie(t, p, o) && p < |s.procs| == |t.procs| && t.woken <= s.woken
    requires forall x :: 0 <= x < |s.procs| && x != p ==> t.procs[x].pc == s.procs[x].pc
    ensures LetsLie(s, p, o)
  {
  }

  lemma ReturnLetsLie(s: State, t: State, p: nat, failed: bool)
    requires p < |s.procs| == |t.procs| && t.woken == s.woken
    requires forall x :: 0 <= x < |s.procs| && x != p ==> t.procs[x].pc == s.procs[x].pc
    ensures LetsLie(s, p, Return(t, p, failed))
  {
  }

  lemma TryLetsLie(s: State, p: nat)
    requires p < |s.procs|
    ensures LetsLie(s, p, TryShared(s, p)) && LetsLie(s, p, TryUpgrade(s, p)) && LetsLie(s, p, TryDrain(s, p))
    ensures LetsLie(s, p, TryExcl1(s, p)) && LetsLie(s, p, TryExcl2(s, p))
  {
    hide Return, LetsLie;
    var q := s.procs[p];
    SleepLetsLie(s, p);
    ReturnLetsLie(s, SetProc(s, p, q.(shares := q.shares + 1)).(share := s.share + 1), p, false);
    var t := SetProc(s, p, q.(excls := 1)).(haveExcl := true, holder := Some(p), excl := 1);
    ReturnLetsLie(s, t.(wantUpgrade := false), p, false);
    ReturnLetsLie(s, t.(wantExcl := false), p, false);
    ReturnLetsLie(s, t.(draining := true), p, false);
    PanicLetsLie(s, p);
  }

  lemma SleepLetsLie(s: State, p: nat)
    requires p < |s.procs|
    ensures LetsLie(s, p, Sleep(s, p, InShared)) && LetsLie(s, p, Sleep(s, p, InUpgrade))
    ensures LetsLie(s, p, Sleep(s, p, InExcl1)) && LetsLie(s, p, Sleep(s, p, InExcl2))
    ensures LetsLie(s, p, Sleep(s.(wantExcl := true), p, InExcl2))
    ensures LetsLie(s, p, Ok(SetProc(s, p, s.procs[p].(pc := InDrain)).(waitDrain := true, woken := s.woken - {p})))
  {
  }

  lemma PanicLetsLie(s: State, p: nat)
    ensures forall why :: LetsLie(s, p, Panic(why))
  {
  }

  lemma ExclusiveLetsLie(s: State, p: nat)
    requires p < |s.procs|
    ensures LetsLie(s, p, EnterExclusive(s, p))
  {
    hide Return, TryExcl1, LetsLie;
    PanicLetsLie(s, p);
    ReturnLetsLie(s, s, p, true);
    ReturnLetsLie(s, SetProc(s, p, s.procs[p].(excls := s.procs[p].excls + 1)).(excl := s.excl + 1), p, false);
    TryLetsLie(s, p);
  }

  lemma UpgradeLetsLie(s: State, p: nat)
    requires p < |s.procs| && !(s.wantUpgrade && s.share == 1 && !s.procs[p].ext.nowait)
    ensures LetsLie(s, p, EnterUpgrade(s, p))
  {
    hide Return, TryUpgrade, EnterExclusive, LetsLie;
    var t := DropShare(s, p);
    PanicLetsLie(s, p);
    ReturnLetsLie(s, t, p, true);
    TryLetsLie(t.(wantUpgrade := true), p);
    LetsLieFrom(s, t.(wantUpgrade := true), p, TryUpgrade(t.(wantUpgrade := true), p));
    ExclusiveLetsLie(t, p);
    LetsLieFrom(s, t, p, EnterExclusive(t, p));
  }

  lemma DispatchLetsLie(s: State, p: nat, r: Request)
    requires Legal(s, p, r) && !Frees(s, Call(p, r, s.procs[p].ext, false))
    ensures LetsLie(s, p, Dispatch(s, p, r))
  {
    hide Return, TryShared, TryDrain, EnterUpgrade, EnterExclusive, LetsLie;
    ReturnLetsLie(s, s, p, true);
    TryLetsLie(s, p);
    PanicLetsLie(s, p);
    ExclusiveLetsLie(s, p);
    ReturnLetsLie(s, DropShare(s, p), p, true);
    if r.Upgrade? || !s.wantUpgrade { UpgradeLetsLie(s, p); }
  }

  lemma ResumeLetsLie(s: State, p: nat, error: bool)
    requires CanResume(s, p, error)
    ensures LetsLie(s, p, Resume(s, p, error))
  {
    hide Return, TryShared, TryDrain, TryUpgrade, TryExcl1, TryExcl2, LetsLie;
    var u := SetProc(s, p, s.procs[p].(pc := Out));
    var t := u.(wait := s.wait - 1);
    ReturnLetsLie(s, t, p, true);
    ReturnLetsLie(s, t.(wantUpgrade := false), p, true);
    ReturnLetsLie(s, t.(wantExcl := false), p, true);
    TryLetsLie(t, p);
    TryLetsLie(u, p);
    LetsLieFrom(s, t, p, TryShared(t, p));
    LetsLieFrom(s, t, p, TryUpgrade(t, p));
    LetsLieFrom(s, t, p, TryExcl1(t, p));
    LetsLieFrom(s, t, p, TryExcl2(t, p));
    LetsLieFrom(s, u, p, TryDrain(u, p));
    DrainGivenUp(s, p);
  }

  lemma DrainGivenUp(s: State, p: nat)
    requires p < |s.procs|
    ensures LetsLie(s, p, Ok(SetProc(s, p, s.procs[p].(pc := Out, failed := true))))
  {
  }

  /** Only a request that frees something wakes anyone in ACQUIRE. */
  lemma StepRouses(s: State, e: Event)
    requires Enabled(s, e) && !Frees(s, e)
    ensures LetsLie(s, e.p, Step(s, e))
  {
    hide Dispatch, Resume, LetsLie;
    match e
    case Call(p, r, ext, reenable) =>
      var t := SetProc(s, p, s.procs[p].(ext := ext));
      var u := if s.draining then t.(draining := false, drained := !reenable) else t;
      PanicLetsLie(s, p);
      DispatchLetsLie(u, p, r);
      LetsLieFrom(s, u, p, Dispatch(u, p, r));
    case Run(p, error) => ResumeLetsLie(s, p, error);
  }

  ghost predicate Lossless(s: State, es: seq<Event>)
    requires Possible(s, es)
    decreases |es|
  {
    es == [] || (!Lossy(s, es[0]) && (Step(s, es[0]).Ok? ==> Lossless(Step(s, es[0]).s, es[1..])))
  }

  /** In every run without such a step, whoever could go on has been woken. */
  lemma {:induction false} RunWakesAll(s: State, es: seq<Event>)
    requires Possible(s, es) && Inv(s, 0, 0) && DrainOk(s) && NoLost(s) && Lossless(s, es) && Exec(s, es).Ok?
    ensures NoLost(Exec(s, es).s) && DrainOk(Exec(s, es).s)
    decreases |es|
  {
    hide Inv, Step, Enabled, NoLost, DrainOk, Lossy;
    if es != [] {
      StepKeeps(s, es[0]);
      StepWakes(s, es[0]);
      RunWakesAll(Step(s, es[0]).s, es[1..]);
    }
  }

  lemma InitWakes(n: nat)
    ensures NoLost(Init(n)) && DrainOk(Init(n))
  {
  }

  /** Two shares, one of them upgraded; the holder of the other asks for LK_EXCLUPGRADE and is refused. */
  function Abandoning(): seq<Event> {
    [Overtaking()[0], Overtaking()[1], Call(0, Upgrade, NOWAIT, false), Call(2, ExclUpgrade, PLAIN, false)]
  }

  function Abandoned(): State {
    Waiting().(share := 0, procs := [Waiting().procs[0], IDLE, Proc(Out, PLAIN, 0, 0, true)])
  }

  lemma RefusedAtLast()
    ensures var e := Call(2, ExclUpgrade, PLAIN, false);
            Enabled(Waiting(), e) && Step(Waiting(), e) == Ok(Abandoned())
  {
  }

  /** A run after which nobody holds the lock, nobody has been woken, and the upgrader, who could go on,
      sleeps. */
  lemma UpgraderAbandoned()
    ensures Possible(Init(3), Abandoning()) && Exec(Init(3), Abandoning()) == Ok(Abandoned())
    ensures Able(Abandoned(), 0) && Abandoned().woken == {} && Abandoned().share == 0 && Abandoned().excl == 0
    ensures forall x :: 0 <= x < 3 ==> Abandoned().procs[x].shares == Abandoned().procs[x].excls == 0
  {
    hide Step, Enabled;
    var es := Abandoning();
    var s1 := Scene(false, 1, 0, [READER, IDLE, IDLE], {});
    var s2 := Scene(false, 2, 0, [READER, IDLE, READER], {});
    assert Init(3) == Scene(false, 0, 0, [IDLE, IDLE, IDLE], {});
    FirstReader(); SecondReader(); ImpatientSleeps(); RefusedAtLast();
    assert es[3..][1..] == [] && es[2..][1..] == es[3..] && es[1..][1..] == es[2..];
    Unroll(Waiting(), Abandoned(), es[3..]);
    Unroll(s2, Waiting(), es[2..]);
    Unroll(s1, s2, es[1..]);
    Unroll(Init(3), s1, es);
  }
}
