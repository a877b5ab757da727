/** When a request of lockmgr is granted, sleeps, fails or panics, and who is woken: exactly, in terms of
    the fields of the lock. */
module LockOutcome {
  import opened Common
  import opened LockMgr

  datatype Result = Granted | Asleep | Refused | Panics(why: Reason)

  /** What a step of p came to. */
  ghost function ResultOf(o: Outcome, p: nat): Result {
    if o.Panic? then Panics(o.why)
    else if p >= |o.s.procs| then Asleep
    else if !o.s.procs[p].pc.Out? then Asleep
    else if o.s.procs[p].failed then Refused
    else Granted
  }

  /** Blocked: the caller sleeps, or with LK_NOWAIT gets an error. */
  function Wait(blocked: bool, nowait: bool): Result {
    if !blocked then Granted else if nowait then Refused else Asleep
  }

  /** A shared request waits while the lock is held exclusively or wanted; an exclusive one also while
      there are shares; a drain also while anyone waits. */
  predicate SharedBlocked(s: State) { s.haveExcl || s.wantExcl || s.wantUpgrade }
  predicate ExclBlocked(s: State) { s.haveExcl || s.wantExcl || s.wantUpgrade || s.share != 0 }
  predicate NotQuiet(s: State) { s.haveExcl || s.wantExcl || s.wantUpgrade || s.share != 0 || s.wait != 0 }

  /** What a request on a lock that is neither draining nor drained comes to. An upgrade counts the
      caller's own share; only the first one is granted or sleeps as an upgrade, with LK_NOWAIT only
      if at most one other share is held. */
  ghost function Expected(s: State, p: nat, r: Request, ext: Ext): Result {
    match r
    case Shared => if s.holder == Some(p) then Granted else Wait(SharedBlocked(s), ext.nowait)
    case Downgrade => if s.holder == Some(p) then Granted else Panics(NotHoldingExclusive)
    case ExclUpgrade => if s.wantUpgrade then Refused else ExpectedUpgrade(s, ext)
    case Upgrade => ExpectedUpgrade(s, ext)
    case Exclusive =>
      if s.holder == Some(p) then (if ext.canrecurse then Granted else Panics(AgainstMyself))
      else Wait(ExclBlocked(s), ext.nowait)
    case Release => Granted
    case Drain => if s.holder == Some(p) then Panics(DrainMyself) else Wait(NotQuiet(s), ext.nowait)
  }

  ghost function ExpectedUpgrade(s: State, ext: Ext): Result {
    if ext.nowait && (s.wantUpgrade || s.share > 2) then Refused
    else if !s.wantUpgrade && s.share == 1 then Granted
    else Asleep
  }

  // ---------- the pieces ----------

  lemma ReturnResult(s: State, p: nat, failed: bool)
    requires p < |s.procs|
    ensures ResultOf(Return(s, p, failed), p) == if failed then Refused else Granted
  {
    ReturnFields(s, p, failed);
    hide Return;
  }

  lemma SleepResult(s: State, p: nat, pc: Pc)
    requires p < |s.procs| && !pc.Out?
    ensures ResultOf(Sleep(s, p, pc), p) == Asleep
  {
  }

  lemma TrySharedResult(s: State, p: nat)
    requires p < |s.procs|
    ensures ResultOf(TryShared(s, p), p) == if SharedBlocked(s) then Asleep else Granted
  {
    hide Return, Sleep;
    SleepResult(s, p, InShared);
    ReturnResult(SetProc(s, p, s.procs[p].(shares := s.procs[p].shares + 1)).(share := s.share + 1), p, false);
  }

  lemma GrantExclusiveResult(s: State, p: nat, why: Reason)
    requires p < |s.procs|
    ensures ResultOf(GrantExclusive(s, p, why), p) == if s.excl != 0 then Panics(why) else Granted
  {
    hide Return;
    if s.excl == 0 {
      ReturnResult(SetProc(s, p, s.procs[p].(excls := 1)).(haveExcl := true, holder := Some(p), excl := 1), p, false);
    }
  }

  lemma TryUpgradeResult(s: State, p: nat)
    requires p < |s.procs| && s.excl == 0
    ensures ResultOf(TryUpgrade(s, p), p) == if s.share != 0 then Asleep else Granted
  {
    hide GrantExclusive, Sleep;
    SleepResult(s, p, InUpgrade);
    GrantExclusiveResult(s.(wantUpgrade := false), p, UpgradeGrant);
  }

  lemma TryExcl2Result(s: State, p: nat)
    requires p < |s.procs|
    ensures ResultOf(TryExcl2(s, p), p) ==
            if s.share != 0 || s.wantUpgrade then Asleep else if s.excl != 0 then Panics(ExclusiveGrant) else Granted
  {
    hide GrantExclusive, Sleep;
    SleepResult(s, p, InExcl2);
    GrantExclusiveResult(s.(wantExcl := false), p, ExclusiveGrant);
  }

  lemma TryExcl1Result(s: State, p: nat)
    requires p < |s.procs| && (s.haveExcl <==> s.excl != 0)
    ensures ResultOf(TryExcl1(s, p), p) == if ExclBlocked(s) then Asleep else Granted
  {
    hide TryExcl2, Sleep;
    SleepResult(s, p, InExcl1);
    TryExcl2Result(s.(wantExcl := true), p);
  }

  lemma TryDrainResult(s: State, p: nat)
    requires p < |s.procs|
    ensures ResultOf(TryDrain(s, p), p) == if NotQuiet(s) then Asleep else Granted
  {
    hide Return;
    var t := SetProc(s, p, s.procs[p].(excls := 1));
    ReturnResult(t.(draining := true, haveExcl := true, holder := Some(p), excl := 1), p, false);
  }

  lemma DowngradeResult(s: State, p: nat)
    requires p < |s.procs|
    ensures ResultOf(EnterDowngrade(s, p), p) ==
            if s.holder != Some(p) || s.excl == 0 then Panics(NotHoldingExclusive) else Granted
  {
    hide Return, Awaken;
    var q := s.procs[p];
    var t := SetProc(s, p, q.(shares := q.shares + q.excls, excls := 0))
             .(share := s.share + s.excl, excl := 0, haveExcl := false, holder := None);
    AwakenFields(t);
    ReturnResult(Awaken(t), p, false);
  }

  lemma ExclusiveResult(s: State, p: nat)
    requires p < |s.procs| && (s.haveExcl <==> s.excl != 0)
    ensures ResultOf(EnterExclusive(s, p), p) ==
            if s.holder == Some(p) then (if s.procs[p].ext.canrecurse then Granted else Panics(AgainstMyself))
            else Wait(ExclBlocked(s), s.procs[p].ext.nowait)
  {
    hide Return, TryExcl1;
    ReturnResult(SetProc(s, p, s.procs[p].(excls := s.procs[p].excls + 1)).(excl := s.excl + 1), p, false);
    ReturnResult(s, p, true);
    TryExcl1Result(s, p);
  }

  lemma UpgradeResult(s: State, p: nat)
    requires p < |s.procs| && Inv(s, 0, 0) && s.procs[p].pc.Out? && s.procs[p].shares > 0
    ensures ResultOf(EnterUpgrade(s, p), p) == ExpectedUpgrade(s, s.procs[p].ext)
  {
    hide Return, TryUpgrade, EnterExclusive, Wakeup, Shares, Count;
    DropShareKeeps(s, p);
    var t := DropShare(s, p);
    ReturnResult(t, p, true);
    TryUpgradeResult(t.(wantUpgrade := true), p);
    WakeupFields(t);
    ExclusiveResult(t, p);
    ExclusiveResult(Wakeup(t), p);
  }

  lemma ReleaseResult(s: State, p: nat)
    requires Legal(s, p, Release) && Inv(s, 0, 0)
    ensures ResultOf(EnterRelease(s, p), p) == Granted
  {
    hide Return, Awaken, Shares, Count;
    if s.excl != 0 {
      var t := SetProc(s, p, s.procs[p].(excls := s.procs[p].excls - 1)).(excl := s.excl - 1);
      var u := if t.excl == 0 then t.(haveExcl := false, holder := None) else t;
      SharesBound(s.procs, p);
      AwakenFields(u);
      ReturnResult(Awaken(u), p, false);
    } else {
      var t := if s.share != 0 then DropShare(s, p) else s;
      AwakenFields(t);
      ReturnResult(Awaken(t), p, false);
    }
  }

  lemma DispatchResult(s: State, p: nat, r: Request)
    requires Legal(s, p, r) && Inv(s, 0, 0)
    ensures ResultOf(Dispatch(s, p, r), p) == Expected(s, p, r, s.procs[p].ext)
  {
    hide Return, Shares, Count, TryShared, TryDrain, EnterDowngrade, EnterUpgrade, EnterExclusive, EnterRelease;
    match r
    case Shared =>
      ReturnResult(s, p, true);
      TrySharedResult(s, p);
      DowngradeResult(SetProc(s, p, s.procs[p].(shares := s.procs[p].shares + 1)).(share := s.share + 1), p);
    case Downgrade => DowngradeResult(s, p);
    case ExclUpgrade =>
      ReturnResult(DropShare(s, p), p, true);
      UpgradeResult(s, p);
    case Upgrade => UpgradeResult(s, p);
    case Exclusive => ExclusiveResult(s, p);
    case Release => ReleaseResult(s, p);
    case Drain =>
      ReturnResult(s, p, true);
      TryDrainResult(s, p);
  }

  /** What a request comes to, in every state: on a drained lock it panics, on a draining one only the
      release by the holder is granted, and otherwise it is as expected. */
  lemma EnterResult(s: State, p: nat, r: Request, ext: Ext, reenable: bool)
    requires Legal(s, p, r) && Inv(s, 0, 0)
    ensures ResultOf(Enter(s, p, r, ext, reenable), p) ==
            if s.drained then Panics(Decommissioned)
            else if s.draining then
              (if r.Release? && s.holder == Some(p) then Granted else Panics(NonReleaseOnDraining))
            else Expected(s, p, r, ext)
  {
    hide Shares, Count, Dispatch;
    var t := SetProc(s, p, s.procs[p].(ext := ext));
    RetouchKeeps(s, p, t);
    DispatchResult(t, p, r);
    DispatchResult(t.(draining := false, drained := !reenable), p, r);
  }

  /** The calls that lockmgr itself can tell are wrong: an upgrade by the exclusive holder or on a lock
      without shares, and a release of an exclusive lock by another. */
  lemma WrongCalls(s: State, p: nat)
    requires p < |s.procs|
    ensures s.holder == Some(p) || s.share <= 0 ==> ResultOf(EnterUpgrade(s, p), p) == Panics(UpgradeExclusive)
    ensures s.excl != 0 && s.holder != Some(p) ==> ResultOf(EnterRelease(s, p), p) == Panics(NotHolder)
  {
  }

  /** On a lock with nothing held, wanted or awaited, a shared, exclusive or drain request is granted at
      once, with or without LK_NOWAIT; and without LK_NOWAIT only LK_EXCLUPGRADE fails on entry. */
  lemma FreeLockGrants(s: State, p: nat, r: Request, ext: Ext, reenable: bool)
    requires Legal(s, p, r) && Inv(s, 0, 0) && !s.draining && !s.drained
    ensures !s.haveExcl && !s.wantExcl && !s.wantUpgrade && s.share == 0 && s.wait == 0 &&
            (r.Shared? || r.Exclusive? || r.Drain?) ==>
              ResultOf(Enter(s, p, r, ext, reenable), p) == Granted
    ensures ResultOf(Enter(s, p, r, ext, reenable), p) == Refused ==> ext.nowait || r.ExclUpgrade?
  {
    EnterResult(s, p, r, ext, reenable);
    hide Shares, Count, Enter;
  }

  /** What a sleeper comes to when it runs again. */
  lemma ResumeResult(s: State, p: nat, error: bool)
    requires CanResume(s, p, error) && Inv(s, 0, 0)
    ensures ResultOf(Resume(s, p, error), p) ==
            if error || s.procs[p].ext.sleepfail then Refused
            else
              match s.procs[p].pc
              case InShared => if SharedBlocked(s) then Asleep else Granted
              case InUpgrade => if s.share != 0 then Asleep else Granted
              case InExcl1 => if ExclBlocked(s) then Asleep else Granted
              case InExcl2 =>
                if s.share != 0 || s.wantUpgrade then Asleep
                else if s.haveExcl then Panics(ExclusiveGrant) else Granted
              case InDrain => if NotQuiet(s) then Asleep else Granted
              case Out => Refused
  {
    hide Return, TryShared, TryUpgrade, TryExcl1, TryExcl2, TryDrain, Shares, Count;
    var u := SetProc(s, p, s.procs[p].(pc := Out));
    var t := u.(wait := s.wait - 1);
    ReturnResult(t, p, true);
    ReturnResult(t.(wantUpgrade := false), p, true);
    ReturnResult(t.(wantExcl := false), p, true);
    match s.procs[p].pc
    case InShared => TrySharedResult(t, p);
    case InUpgrade =>
      CountOne(s.procs, p);
      TryUpgradeResult(t, p);
    case InExcl1 => TryExcl1Result(t, p);
    case InExcl2 => TryExcl2Result(t, p);
    case InDrain => TryDrainResult(u, p);
  }
}
