/** Signal state of an untraced process: setsigvec, siginit, execsigs, the signal mask, psignal,
    issignal and postsig. Signal sets are sets of signal numbers. */
module Signals {
  const NSIG := 32
  const SIGKILL := 9
  const SIGURG := 16
  const SIGSTOP := 17
  const SIGTSTP := 18
  const SIGCONT := 19
  const SIGCHLD := 20
  const SIGTTIN := 21
  const SIGTTOU := 22
  const SIGIO := 23
  const SIGWINCH := 28
  const SIGINFO := 29

  /** The rows of sigprop. */
  predicate IgnoredByDefault(n: nat) {
    n == SIGURG || n == SIGCONT || n == SIGCHLD || n == SIGIO || n == SIGWINCH || n == SIGINFO
  }

  predicate TtyStop(n: nat) { n == SIGTSTP || n == SIGTTIN || n == SIGTTOU }

  predicate Stops(n: nat) { n == SIGSTOP || TtyStop(n) }

  const StopSigs: set<nat> := {SIGSTOP, SIGTSTP, SIGTTIN, SIGTTOU}
  const CantMask: set<nat> := {SIGKILL, SIGSTOP}

  datatype Action = Default | Ignore | Handler

  datatype Stat = Running | Sleeping | Stopped

  /** p_siglist, p_sigmask, p_sigignore, p_sigcatch; ps_sigact and ps_catchmask by signal number;
      p_stat; P_SINTR, p_wchan set, P_PPWAIT; pg_jobc of the group is zero; p_pid <= 1; the stop
      signal for which issignal has stopped the process and which it will clear when it goes on. */
  datatype Proc = Proc(
    pending: set<nat>, mask: set<nat>, ignore: set<nat>, catch: set<nat>,
    act: seq<Action>, catchmask: seq<set<nat>>,
    stat: Stat, sintr: bool, wchan: bool, ppwait: bool, orphan: bool, system: bool, taking: nat)

  predicate IsSignal(n: nat) { 0 < n < NSIG }

  // ---------- setting actions and masks ----------

  predicate Discards(n: nat, a: Action) { a == Ignore || (IgnoredByDefault(n) && a == Default) }

  function Setsigvec(p: Proc, n: nat, a: Action, samask: set<nat>): Proc
    requires |p.act| == |p.catchmask| == NSIG && n < NSIG
  {
    var q := p.(act := p.act[n := a], catchmask := p.catchmask[n := samask - CantMask]);
    if Discards(n, a) then
      q.(pending := p.pending - {n}, ignore := if n != SIGCONT then p.ignore + {n}
        else p.ignore, catch := p.catch - {n})
    else
      q.(ignore := p.ignore - {n}, catch := if a == Default then p.catch - {n} else p.catch + {n})
  }

  /** One signal of execsigs. */
  function ResetOne(p: Proc, n: nat): Proc
    requires |p.act| == NSIG && n < NSIG
  {
    var q := p.(catch := p.catch - {n}, act := p.act[n := Default]);
    if IgnoredByDefault(n) then
      q.(ignore := if n != SIGCONT then p.ignore + {n} else p.ignore, pending := p.pending - {n})
    else q
  }

  function Execsigs(p: Proc, n: nat): Proc
    requires |p.act| == NSIG && n <= NSIG
  {
    if n == 0 then p else
      var q := Execsigs(p, n - 1);
      if n - 1 in q.catch && |q.act| == NSIG then ResetOne(q, n - 1) else q
  }

  datatype How = Block | Unblock | Replace

  function Sigprocmask(p: Proc, how: How, m: set<nat>): Proc {
    match how
    case Block => p.(mask := p.mask + (m - CantMask))
    case Unblock => p.(mask := p.mask - m)
    case Replace => p.(mask := m - CantMask)
  }

  // ---------- psignal ----------

  datatype Disposition = Dfl | Catch | Hold

  function Dispose(p: Proc, n: nat): Disposition {
    if n in p.mask then Hold else if n in p.catch then Catch else Dfl
  }

  /** What becomes of the process once the signal is pending. */
  function Rouse(p: Proc, n: nat, d: Disposition): Proc {
    match p.stat
    case Sleeping =>
      if !p.sintr then p
      else if n == SIGCONT && d == Dfl then p.(pending := p.pending - {n})
      else if Stops(n) && d == Dfl then
        if p.ppwait then p else p.(pending := p.pending - {n}, stat := Stopped)
      else p.(stat := Running, wchan := false)
    case Stopped =>
      if n == SIGKILL then p.(stat := Running, wchan := false)
      else if n == SIGCONT then
        var q := if d == Dfl then p.(pending := p.pending - {n}) else p;
        if d == Catch || !p.wchan then q.(stat := Running, wchan := false) else q.(stat := Sleeping)
      else if Stops(n) then p.(pending := p.pending - {n})
      else if p.wchan && p.sintr then p.(wchan := false)
      else p
    case Running => p
  }

  function Psignal(p: Proc, n: nat): Proc {
    if n in p.ignore then p else
      var d := Dispose(p, n);
      if TtyStop(n) && p.orphan && d == Dfl then p
      else if d == Hold && (n != SIGCONT || p.stat != Stopped) then Post(p, n)
      else Rouse(Post(p, n), n, d)
  }

  /** The signal made pending: SIGCONT takes away stop signals, a stop signal takes away SIGCONT. */
  function Post(p: Proc, n: nat): Proc {
    var q := if n == SIGCONT then p.(pending := p.pending - StopSigs) else p;
    var r := if Stops(n) then q.(pending := q.pending - {SIGCONT}) else q;
    r.(pending := r.pending + {n})
  }

  // ---------- issignal and postsig ----------

  /** ffs: the lowest signal from i on that is in m, or 0. */
  function Lowest(m: set<nat>, i: nat): (r: nat)
    requires 0 < i <= NSIG
    ensures r == 0 || (i <= r < NSIG && r in m)
    decreases NSIG - i
  {
    if i == NSIG then 0 else if i in m then i else Lowest(m, i + 1)
  }

  function Candidates(p: Proc): set<nat> { (p.pending - p.mask) - if p.ppwait then StopSigs else {} }

  /** One round of issignal: nothing to do, a signal to return, or a signal taken (perhaps after a
      stop) before the next round. */
  datatype Round = Nothing | Return(n: nat) | Taken(p: Proc)

  function Issignal(p: Proc): Round
    requires |p.act| == NSIG
  {
    var n := Lowest(Candidates(p), 1);
    if n == 0 then Nothing
    else
      var q := p.(pending := p.pending - {n});
      if n in p.ignore then Taken(q)
      else match p.act[n]
        case Default =>
          if p.system then Taken(q)
          else if Stops(n) then (if p.orphan && TtyStop(n) then Taken(q) else Taken(p.(stat := Stopped, taking := n)))
          else if IgnoredByDefault(n) then Taken(q)
          else Return(n)
        case Ignore => Taken(q)
        case Handler => Return(n)
  }

  /** The end of a stop in issignal. */
  function GoOn(p: Proc): Proc { p.(pending := p.pending - {p.taking}, taking := 0) }

  /** postsig: the process ends by default, or the handler is entered with its mask; Panicked where
      the source panics. */
  datatype Posted = Exits | Handles(p: Proc) | Panicked

  function Postsig(p: Proc, n: nat): Posted
    requires |p.act| == |p.catchmask| == NSIG && n < NSIG
  {
    var q := p.(pending := p.pending - {n});
    if p.act[n] == Default then Exits
    else if p.act[n] == Ignore || n in p.mask then Panicked
    else Handles(q.(mask := q.mask + p.catchmask[n] + {n}))
  }

  // ---------- what always holds ----------

  /** p_sigcatch and p_sigignore say what the actions say; SIGCONT is never in p_sigignore. */
  ghost predicate Consistent(p: Proc) {
    |p.act| == |p.catchmask| == NSIG && CatchOk(p.act, p.catch) && IgnoreOk(p.act, p.ignore) && p.act[0] == Default
  }

  ghost predicate CatchOk(act: seq<Action>, catch: set<nat>) {
    forall n: nat :: n in catch <==> n < |act| && act[n] == Handler
  }

  ghost predicate IgnoreOk(act: seq<Action>, ignore: set<nat>) {
    forall n: nat :: n in ignore <==> 0 < n < |act| && n != SIGCONT && Discards(n, act[n])
  }

  /** What a new action of signal n does to the two sets. */
  lemma CatchNext(act: seq<Action>, catch: set<nat>, n: nat, a: Action)
    requires CatchOk(act, catch) && n < |act|
    ensures CatchOk(act[n := a], if a == Handler then catch + {n} else catch - {n})
  {
  }

  lemma IgnoreNext(act: seq<Action>, ignore: set<nat>, n: nat, a: Action)
    requires IgnoreOk(act, ignore) && 0 < n < |act|
    ensures IgnoreOk(act[n := a], if n == SIGCONT then ignore else if Discards(n, a) then ignore + {n}
            else ignore - {n})
  {
  }

  /** SIGKILL and SIGSTOP are neither masked, caught nor ignored. */
  ghost predicate Untouched(p: Proc) {
    |p.act| == |p.catchmask| == NSIG && p.mask !! CantMask && p.act[SIGKILL] == Default && p.act[SIGSTOP] == Default &&
    forall n :: 0 <= n < NSIG ==> p.catchmask[n] !! CantMask
  }

  /** Ignored signals are not pending, nor a stop signal together with SIGCONT. */
  ghost predicate PendingOk(p: Proc) {
    p.pending !! p.ignore && (forall n :: n in p.pending ==> IsSignal(n)) &&
      (SIGCONT in p.pending ==> p.pending !! StopSigs)
  }

  ghost predicate Inv(p: Proc) { Consistent(p) && Untouched(p) && PendingOk(p) }

  lemma NeverBlocked(p: Proc)
    requires Inv(p)
    ensures SIGKILL !in p.mask + p.catch + p.ignore && SIGSTOP !in p.mask + p.catch + p.ignore
  {
  }

  lemma SetsigvecKeeps(p: Proc, n: nat, a: Action, samask: set<nat>)
    requires Inv(p) && IsSignal(n) && n != SIGKILL && n != SIGSTOP
    ensures Inv(Setsigvec(p, n, a, samask))
  {
    hide CatchOk, IgnoreOk, Untouched, PendingOk, Setsigvec;
    SetConsistent(p, n, a, samask);
    SetUntouched(p, n, a, samask);
    SetPending(p, n, a, samask);
  }

  lemma SetConsistent(p: Proc, n: nat, a: Action, samask: set<nat>)
    requires Consistent(p) && IsSignal(n)
    ensures Consistent(Setsigvec(p, n, a, samask))
  {
    CatchNext(p.act, p.catch, n, a);
    IgnoreNext(p.act, p.ignore, n, a);
    NotContIgnored(p);
    hide CatchOk, IgnoreOk;
    assert p.ignore - {SIGCONT} == p.ignore;
  }

  lemma SetUntouched(p: Proc, n: nat, a: Action, samask: set<nat>)
    requires Untouched(p) && IsSignal(n) && n != SIGKILL && n != SIGSTOP
    ensures Untouched(Setsigvec(p, n, a, samask))
  {
  }

  lemma SetPending(p: Proc, n: nat, a: Action, samask: set<nat>)
    requires PendingOk(p) && |p.act| == |p.catchmask| == NSIG && n < NSIG
    ensures PendingOk(Setsigvec(p, n, a, samask))
  {
  }

  lemma NotContIgnored(p: Proc)
    requires Consistent(p)
    ensures SIGCONT !in p.ignore && 0 !in p.ignore && 0 !in p.catch
  {
  }

  lemma ResetKeeps(p: Proc, n: nat)
    requires Inv(p) && n in p.catch
    ensures n < NSIG && Inv(ResetOne(p, n)) && ResetOne(p, n).catch == p.catch - {n}
    ensures ResetOne(p, n).mask == p.mask && p.ignore <= ResetOne(p, n).ignore && ResetOne(p, n).pending <= p.pending
  {
    ResetConsistent(p, n);
    ResetPending(p, n);
    hide Consistent, PendingOk;
  }

  lemma ResetConsistent(p: Proc, n: nat)
    requires Consistent(p) && n in p.catch
    ensures n < NSIG && Consistent(ResetOne(p, n))
  {
    CatchNext(p.act, p.catch, n, Default);
    NotContIgnored(p);
    IgnoreNext(p.act, p.ignore, n, Default);
    CaughtNotIgnored(p, n);
    hide CatchOk, IgnoreOk;
    assert p.ignore - {n} == p.ignore;
  }

  lemma CaughtNotIgnored(p: Proc, n: nat)
    requires Consistent(p) && n in p.catch
    ensures n !in p.ignore && n < NSIG
  {
  }

  lemma ResetPending(p: Proc, n: nat)
    requires PendingOk(p) && |p.act| == NSIG && n < NSIG
    ensures PendingOk(ResetOne(p, n))
  {
  }

  /** execsigs: no handler is left, whatever was ignored is still ignored, and the mask is the same. */
  lemma {:induction false} ExecKeeps(p: Proc, n: nat)
    requires Inv(p) && n <= NSIG
    ensures var q := Execsigs(p, n);
            Inv(q) && q.mask == p.mask && p.ignore <= q.ignore && q.pending <= p.pending &&
                forall x :: x in q.catch <==> x in p.catch && x >= n
  {
    hide Untouched, PendingOk, ResetOne;
    if n > 0 {
      ExecKeeps(p, n - 1);
      var q := Execsigs(p, n - 1);
      if n - 1 in q.catch {
        ResetKeeps(q, n - 1);
      }
    }
  }

  lemma MaskKeeps(p: Proc, how: How, m: set<nat>)
    requires Inv(p)
    ensures Inv(Sigprocmask(p, how, m))
  {
  }

  /** A process like p but for pending signals that were taken away, and its running state. */
  ghost predicate Fewer(p: Proc, q: Proc) {
    q == p.(pending := q.pending, stat := q.stat, wchan := q.wchan, taking := q.taking) && q.pending <= p.pending
  }

  lemma FewerKeeps(p: Proc, q: Proc)
    requires Inv(p) && Fewer(p, q)
    ensures Inv(q)
  {
  }

  lemma PostKeeps(p: Proc, n: nat)
    requires Inv(p) && IsSignal(n) && n !in p.ignore
    ensures Inv(Post(p, n))
  {
    SameRest(p, Post(p, n));
    hide Consistent, Untouched;
  }

  lemma RouseOthers(p: Proc, m: nat, d: Disposition)
    ensures Rouse(p, m, d).pending == p.pending || Rouse(p, m, d).pending == p.pending - {m}
  {
  }

  lemma RouseFewer(p: Proc, n: nat, d: Disposition)
    ensures Fewer(p, Rouse(p, n, d))
  {
    hide Rouse;
    RouseRest(p, n, d);
    RouseOthers(p, n, d);
  }

  lemma PsignalKeeps(p: Proc, n: nat)
    requires Inv(p) && IsSignal(n)
    ensures Inv(Psignal(p, n))
  {
    hide Inv, Rouse;
    if n !in p.ignore {
      var d := Dispose(p, n);
      PostKeeps(p, n);
      RouseFewer(Post(p, n), n, d);
      FewerKeeps(Post(p, n), Rouse(Post(p, n), n, d));
    }
  }

  lemma SameRest(p: Proc, q: Proc)
    requires Consistent(p) && Untouched(p) && q == p.(pending := q.pending)
    ensures Consistent(q) && Untouched(q)
  {
  }

  /** Whether a signal that is not ignored is pending once it has been sent: always if it is masked; else
      psignal drops what its default action, or the stop the process is in, has already dealt with. */
  predicate StaysPending(p: Proc, n: nat) {
    if n in p.mask then true
    else if TtyStop(n) && p.orphan && n !in p.catch then n in p.pending
    else
      match p.stat
      case Running => true
      case Sleeping => !p.sintr || n in p.catch || !(n == SIGCONT || (Stops(n) && !p.ppwait))
      case Stopped => if n == SIGCONT then n in p.catch else !Stops(n)
  }

  /** Exactly when a signal is pending after psignal, and what becomes of the other pending signals. */
  lemma PsignalPending(p: Proc, n: nat, m: nat)
    requires Inv(p) && IsSignal(n)
    ensures n !in p.ignore ==> (n in Psignal(p, n).pending <==> StaysPending(p, n))
    ensures n in p.ignore ==> Psignal(p, n) == p
    ensures m != n ==>
              (m in Psignal(p, n).pending <==>
               m in p.pending && !(n == SIGCONT && Stops(m)) && !(m == SIGCONT && Stops(n) && Posts(p, n)))
  {
    NotContIgnored(p);
    hide Consistent, Untouched;
    if n !in p.ignore {
      RousePending(Post(p, n), n, Dispose(p, n));
      hide Rouse;
    }
  }

  lemma RousePending(p: Proc, n: nat, d: Disposition)
    requires n in p.pending
    ensures forall m: nat :: m != n ==> (m in Rouse(p, n, d).pending <==> m in p.pending)
    ensures n in Rouse(p, n, d).pending <==>
              match p.stat
              case Running => true
              case Sleeping => !p.sintr || !(d == Dfl && (n == SIGCONT || (Stops(n) && !p.ppwait)))
              case Stopped => if n == SIGCONT then d != Dfl else !Stops(n)
  {
  }

  /** SIGKILL is never lost: it is pending afterwards in every state, and the process is not stopped. */
  lemma KillArrives(p: Proc)
    requires Inv(p)
    ensures SIGKILL in Psignal(p, SIGKILL).pending && Psignal(p, SIGKILL).stat != Stopped
  {
    NeverBlocked(p);
    PsignalPending(p, SIGKILL, 0);
    PsignalMoves(p, SIGKILL);
    hide Inv, Psignal;
  }

  /** Nothing but the pending signals, the state and the sleep changes; a stopped sleeper is taken off
      its wait by a signal that is not masked and no stop signal. */
  lemma PsignalRest(p: Proc, n: nat)
    requires Inv(p) && IsSignal(n)
    ensures var q := Psignal(p, n);
            q == p.(pending := q.pending, stat := q.stat, wchan := q.wchan) &&
            (q.wchan <==>
             p.wchan && (p.stat == Running || q.stat != Running) &&
             !(p.stat == Stopped && q.stat == Stopped && p.sintr && n !in p.ignore && n !in p.mask && !Stops(n)))
  {
    hide Rouse, Post, CatchOk, IgnoreOk, Untouched, PendingOk;
    NotContIgnored(p);
    PostSame(p, n);
    var r := Post(p, n);
    RouseRest(r, n, Dispose(p, n));
    RouseMoves(r, n, Dispose(p, n));
  }

  lemma RouseRest(p: Proc, n: nat, d: Disposition)
    ensures var q := Rouse(p, n, d);
            q == p.(pending := q.pending, stat := q.stat, wchan := q.wchan) &&
            (q.wchan <==>
             p.wchan && (p.stat == Running || q.stat != Running) &&
             !(p.stat == Stopped && q.stat == Stopped && p.sintr && !Stops(n)))
  {
  }

  /** A signal the process holds back stays pending. One it catches does so too, unless it is a stop
      signal sent to a process that is stopped already. */
  lemma KeptForLater(p: Proc, n: nat)
    requires Inv(p) && IsSignal(n) && n !in p.ignore && (n in p.mask || n in p.catch)
    ensures n in Psignal(p, n).pending <==> n in p.mask || !(Stops(n) && p.stat == Stopped)
  {
    PsignalPending(p, n, 0);
    hide Inv, Psignal;
  }

  /** A stopped process is continued by SIGCONT, however it handles it, and by SIGKILL. */
  lemma ContinuesAlways(p: Proc, n: nat)
    requires Inv(p) && p.stat == Stopped && (n == SIGCONT || n == SIGKILL)
    ensures Psignal(p, n).stat != Stopped
    ensures n == SIGKILL ==> SIGKILL in Psignal(p, n).pending && Psignal(p, n).stat == Running
  {
    PsignalMoves(p, n);
    NeverBlocked(p);
    hide Inv;
  }

  /** The signal is neither held back, caught nor ignored. */
  predicate TakesDefault(p: Proc, n: nat) { n !in p.mask && n !in p.catch && n !in p.ignore }

  /** When a signal makes a process stop, wake up, go on or go back to sleep; in all other cases it
      stays as it is. A sleeping process is stopped without being woken. */
  lemma PsignalMoves(p: Proc, n: nat)
    requires Inv(p) && IsSignal(n)
    ensures var q := Psignal(p, n);
            match p.stat
            case Running => q.stat == Running
            case Sleeping =>
              (q.stat == Stopped <==>
                p.sintr && Stops(n) && TakesDefault(p, n) && !p.ppwait &&
                !(TtyStop(n) && p.orphan)) &&
              (q.stat == Running <==>
                p.sintr && n !in p.ignore && n !in p.mask &&
                (n in p.catch || !(n == SIGCONT || Stops(n)))) &&
              (q.stat != Running ==> q.wchan == p.wchan)
            case Stopped =>
              (q.stat == Running <==> n == SIGKILL || (n == SIGCONT && (!p.wchan || (n in p.catch && n !in p.mask)))) &&
              (q.stat == Sleeping <==> n == SIGCONT && p.wchan && (n !in p.catch || n in p.mask))
  {
    NeverBlocked(p);
    NotContIgnored(p);
    hide Inv, Rouse, Post;
    PostSame(p, n);
    RouseMoves(Post(p, n), n, Dispose(p, n));
    match p.stat
    case Running =>
    case Sleeping => assert n in p.ignore ==> Psignal(p, n) == p;
    case Stopped => assert n == SIGCONT || n == SIGKILL ==> n !in p.ignore;
  }

  lemma PostSame(p: Proc, n: nat)
    ensures Post(p, n) == p.(pending := Post(p, n).pending)
  {
  }

  lemma RouseMoves(p: Proc, n: nat, d: Disposition)
    ensures var q := Rouse(p, n, d);
            match p.stat
            case Running => q.stat == Running
            case Sleeping =>
              (q.stat == Stopped <==> p.sintr && Stops(n) && d == Dfl && !p.ppwait) &&
              (q.stat == Running <==> p.sintr && !(d == Dfl && (n == SIGCONT || Stops(n)))) &&
              (q.stat != Running ==> q.wchan == p.wchan)
            case Stopped =>
              (q.stat == Running <==> n == SIGKILL || (n == SIGCONT && (!p.wchan || d == Catch))) &&
              (q.stat == Sleeping <==> n == SIGCONT && p.wchan && d != Catch)
  {
  }

  /** What a process has to look at: pending, not masked, and no stop signal while its parent waits for
      it to exec or exit. */
  predicate Wanted(p: Proc, k: nat) { k in p.pending && k !in p.mask && !(p.ppwait && Stops(k)) }

  /** A round of issignal looks at the lowest such signal; it returns it if it is caught or its default
      is to end the process. */
  lemma IssignalPicks(p: Proc) returns (n: nat)
    requires Inv(p) && p.taking == 0
    ensures n == 0 || Wanted(p, n)
    ensures forall k :: Wanted(p, k) ==> 0 < n <= k
    ensures Issignal(p).Nothing? <==> n == 0
    ensures Issignal(p).Return? <==>
            n != 0 &&
            (n in p.catch || (TakesDefault(p, n) && !p.system && !Stops(n) && !IgnoredByDefault(n)))
    ensures Issignal(p).Return? ==> Issignal(p).n == n
    ensures Issignal(p).Taken? ==>
              Issignal(p).p == if Stops(n) && TakesDefault(p, n) && !p.system &&
                  !(TtyStop(n) && p.orphan) then p.(stat := Stopped, taking := n)
                               else p.(pending := p.pending - {n})
  {
    var c := Candidates(p);
    n := Lowest(c, 1);
    forall k | Wanted(p, k)
      ensures n in c && n <= k
    {
      LowestFound(c, 1, k);
    }
  }

  lemma IssignalKeeps(p: Proc)
    requires Inv(p)
    ensures Issignal(p).Taken? ==> Inv(Issignal(p).p) && Fewer(p, Issignal(p).p)
  {
    if Issignal(p).Taken? {
      FewerKeeps(p, Issignal(p).p);
    }
  }

  /** postsig, called with what issignal returned: the panic is not reached; a caught signal is taken
      off the pending ones and masked, with SIGKILL and SIGSTOP still open. */
  lemma Delivered(p: Proc)
    requires Inv(p) && Issignal(p).Return?
    ensures var n := Issignal(p).n;
            IsSignal(n) && n in p.pending && n !in p.mask &&
            !Postsig(p, n).Panicked? &&
            (Postsig(p, n).Handles? ==>
              Inv(Postsig(p, n).p) && n in Postsig(p, n).p.mask &&
              n !in Postsig(p, n).p.pending)
  {
  }

  /** sigaction: the action and its mask are set, and those of no other signal; only that signal stops
      being pending, and only if it is ignored from now on. */
  lemma ActionSet(p: Proc, n: nat, a: Action, samask: set<nat>, m: nat)
    requires |p.act| == |p.catchmask| == NSIG && IsSignal(n)
    ensures var q := Setsigvec(p, n, a, samask);
            |q.act| == |q.catchmask| == NSIG && q.act[n] == a && q.catchmask[n] == samask - CantMask &&
            (m < NSIG && m != n ==> q.act[m] == p.act[m] && q.catchmask[m] == p.catchmask[m])
    ensures var q := Setsigvec(p, n, a, samask);
            q.mask == p.mask && q.stat == p.stat && q.taking == p.taking && q.sintr == p.sintr && q.wchan == p.wchan
    ensures m in Setsigvec(p, n, a, samask).pending <==> m in p.pending && !(m == n && Discards(n, a))
  {
    hide Discards, Setsigvec;
    ActionPending(p, n, a, samask, m);
    ActionTables(p, n, a, samask, m);
  }

  lemma ActionTables(p: Proc, n: nat, a: Action, samask: set<nat>, m: nat)
    requires |p.act| == |p.catchmask| == NSIG && IsSignal(n)
    ensures var q := Setsigvec(p, n, a, samask);
            q.act == p.act[n := a] && q.catchmask == p.catchmask[n := samask - CantMask] &&
            q.mask == p.mask && q.stat == p.stat && q.taking == p.taking && q.sintr == p.sintr && q.wchan == p.wchan
  {
    hide Discards;
  }

  lemma ActionPending(p: Proc, n: nat, a: Action, samask: set<nat>, m: nat)
    requires |p.act| == |p.catchmask| == NSIG && IsSignal(n)
    ensures m in Setsigvec(p, n, a, samask).pending <==> m in p.pending && !(m == n && Discards(n, a))
  {
    hide Discards;
  }

  /** sigprocmask, with SIGKILL and SIGSTOP left out of what is added. */
  lemma MaskSet(p: Proc, how: How, m: set<nat>, n: nat)
    ensures var q := Sigprocmask(p, how, m);
            q == p.(mask := q.mask) &&
            (n in q.mask <==>
             match how
             case Block => n in p.mask || (n in m && n != SIGKILL && n != SIGSTOP)
             case Unblock => n in p.mask && n !in m
             case Replace => n in m && n != SIGKILL && n != SIGSTOP)
  {
  }

  /** exec: caught signals, and no others, get the default action; a caught signal that is ignored by
      default stops being pending. */
  lemma {:induction false} ExecActions(p: Proc, k: nat, m: nat)
    requires |p.act| == NSIG && k <= NSIG && m < NSIG
    ensures var q := Execsigs(p, k);
            |q.act| == NSIG && q.act[m] == (if m < k && m in p.catch then Default else p.act[m]) &&
            q == p.(act := q.act, pending := q.pending, ignore := q.ignore, catch := q.catch) &&
            (m in q.catch <==> m in p.catch && m >= k) &&
            (m in q.pending <==> m in p.pending && !(m in p.catch && m < k && IgnoredByDefault(m)))
  {
    hide IgnoredByDefault, ResetOne;
    if k > 0 {
      ExecActions(p, k - 1, m);
      ResetFacts(Execsigs(p, k - 1), k - 1, m);
    }
  }

  lemma ResetFacts(p: Proc, n: nat, m: nat)
    requires |p.act| == NSIG && n < NSIG && m < NSIG
    ensures var q := ResetOne(p, n);
            |q.act| == NSIG && q.act[m] == (if m == n then Default else p.act[m]) &&
            q == p.(act := q.act, pending := q.pending, ignore := q.ignore, catch := q.catch) &&
            (m in q.catch <==> m in p.catch && m != n) &&
            (m in q.pending <==> m in p.pending && !(m == n && IgnoredByDefault(n)))
  {
    hide IgnoredByDefault;
  }

  /** postsig with what issignal returned: the process ends if the action is the default, else its
      handler is entered with that signal and those of the handler's mask masked in addition. */
  lemma PostsigEffect(p: Proc, m: nat)
    requires Inv(p) && Issignal(p).Return?
    ensures var n := Issignal(p).n;
            n < NSIG && (Postsig(p, n).Exits? <==> p.act[n] == Default) &&
            (Postsig(p, n).Handles? ==>
               var q := Postsig(p, n).p;
               q == p.(pending := q.pending, mask := q.mask) && (m in q.pending <==> m in p.pending && m != n) &&
               (m in q.mask <==> m in p.mask || m == n || m in p.catchmask[n]))
  {
    Delivered(p);
  }

  // ---------- runs ----------

  datatype Event =
    | Sigaction(n: nat, a: Action, samask: set<nat>)
    | Exec
    | SetMask(how: How, m: set<nat>)
    | Signal(n: nat)
    | Look
    | Deliver
    | Continue
    | Sleep(sintr: bool)
    | Wake
    | Regroup(orphan: bool)

  /** Look, Deliver and Continue are what the process itself does when it runs: a round of issignal,
      postsig with its result, the way out of a stop. sigaction refuses SIGKILL and SIGSTOP. */
  predicate Enabled(p: Proc, e: Event)
    requires |p.act| == NSIG
  {
    match e
    case Sigaction(n, _, _) => IsSignal(n) && n != SIGKILL && n != SIGSTOP
    case Signal(n) => IsSignal(n)
    case Look => p.stat == Running && p.taking == 0 && Issignal(p).Taken?
    case Deliver => p.stat == Running && p.taking == 0 && Issignal(p).Return? && Postsig0(p).Handles?
    case Continue => p.stat == Running && p.taking != 0
    case Sleep(_) => p.stat == Running && p.taking == 0
    case Wake => p.stat == Sleeping
    case _ => true
  }

  /** When the process itself has a step: running, it goes on after a stop if it is in one, and
      otherwise looks, delivers, or sleeps as it likes; what others do to it is always possible. */
  lemma OwnSteps(p: Proc, e: Event)
    requires Inv(p)
    ensures var free := p.stat == Running && p.taking == 0;
            match e
            case Look => Enabled(p, e) <==> free && Issignal(p).Taken?
            case Deliver => Enabled(p, e) <==> free && Issignal(p).Return? && p.act[Issignal(p).n] == Handler
            case Sleep(_) => Enabled(p, e) <==> free
            case Continue => Enabled(p, e) <==> p.stat == Running && p.taking != 0
            case Wake => Enabled(p, e) <==> p.stat == Sleeping
            case Sigaction(n, _, _) => Enabled(p, e) <==> 0 < n < NSIG && n != SIGKILL && n != SIGSTOP
            case Signal(n) => Enabled(p, e) <==> 0 < n < NSIG
            case _ => Enabled(p, e)
  {
    if p.taking == 0 && Issignal(p).Return? {
      Delivered(p);
      PostsigEffect(p, 0);
    }
  }

  function Postsig0(p: Proc): Posted
    requires |p.act| == NSIG
  {
    if |p.catchmask| == NSIG && Issignal(p).Return? && Issignal(p).n < NSIG then Postsig(p, Issignal(p).n) else Exits
  }

  function Step(p: Proc, e: Event): Proc
    requires |p.act| == |p.catchmask| == NSIG && Enabled(p, e)
  {
    match e
    case Sigaction(n, a, samask) => Setsigvec(p, n, a, samask)
    case Exec => Execsigs(p, NSIG)
    case SetMask(how, m) => Sigprocmask(p, how, m)
    case Signal(n) => Psignal(p, n)
    case Look => Issignal(p).p
    case Deliver => Postsig0(p).p
    case Continue => GoOn(p)
    case Sleep(sintr) => p.(stat := Sleeping, sintr := sintr, wchan := true)
    case Wake => p.(stat := Running, wchan := false)
    case Regroup(orphan) => p.(orphan := orphan)
  }

  lemma StepKeeps(p: Proc, e: Event)
    requires Inv(p) && Enabled(p, e)
    ensures Inv(Step(p, e))
  {
    match e
    case Sigaction(n, a, samask) => hide Setsigvec; SetsigvecKeeps(p, n, a, samask);
    case Exec => hide Execsigs; ExecKeeps(p, NSIG);
    case SetMask(how, m) => hide Sigprocmask; MaskKeeps(p, how, m);
    case Signal(n) => hide Psignal; PsignalKeeps(p, n);
    case Look => hide Issignal; IssignalKeeps(p);
    case Deliver => hide Issignal, Postsig; Delivered(p);
    case Continue => FewerKeeps(p, GoOn(p));
    case _ =>
  }

  /** The steps that leave the sets alone, or take one signal. */
  lemma StepStates(p: Proc, e: Event)
    requires Inv(p) && Enabled(p, e) && !e.Look? && !e.Deliver? && !e.Signal? && !e.Exec?
    ensures var q := Step(p, e);
            match e
            case Continue =>
              q == p.(pending := q.pending, taking := 0) &&
              forall n :: n in q.pending <==> n in p.pending && n != p.taking
            case Sleep(sintr) => q == p.(stat := Sleeping, sintr := sintr, wchan := true)
            case Wake => q == p.(stat := Running, wchan := false)
            case Regroup(orphan) => q == p.(orphan := orphan)
            case _ => q.stat == p.stat && q.taking == p.taking
  {
  }

  ghost predicate Possible(p: Proc, es: seq<Event>)
    decreases |es|
  {
    es == [] ||
    (|p.act| == |p.catchmask| == NSIG && Enabled(p, es[0]) && Possible(Step(p, es[0]), es[1..]))
  }

  ghost function Run(p: Proc, es: seq<Event>): Proc
    requires Possible(p, es)
    decreases |es|
  {
    if es == [] then p else Run(Step(p, es[0]), es[1..])
  }

  lemma {:induction false} RunKeeps(p: Proc, es: seq<Event>)
    requires Inv(p) && Possible(p, es)
    ensures Inv(Run(p, es))
    decreases |es|
  {
    hide Inv, Step, Enabled;
    if es != [] {
      StepKeeps(p, es[0]);
      RunKeeps(Step(p, es[0]), es[1..]);
    }
  }

  /** Over every run: no ignored signal is pending, SIGCONT and a stop signal are not pending
      together, SIGKILL and SIGSTOP are not masked, caught or ignored, and postsig does not panic. */
  lemma RunSafe(p: Proc, es: seq<Event>)
    requires Inv(p) && Possible(p, es)
    ensures var q := Run(p, es);
            q.pending !! q.ignore && !(SIGCONT in q.pending && exists n :: n in q.pending && Stops(n)) &&
            SIGKILL !in q.mask + q.catch + q.ignore && SIGSTOP !in q.mask + q.catch + q.ignore &&
            |q.act| == NSIG && !Postsig0(q).Panicked?
  {
    hide Run, Possible, Issignal, Postsig;
    RunKeeps(p, es);
    var q := Run(p, es);
    NeverBlocked(q);
    if Issignal(q).Return? { Delivered(q); }
  }

  // ---------- signals held back, and stops ----------

  /** What takes a held signal n off the pending ones: an action that ignores it, an exec that resets
      it to that, SIGCONT against a stop signal and a stop signal against SIGCONT, or the end of the
      stop it has caused. */
  predicate Discarded(p: Proc, e: Event, n: nat) {
    match e
    case Sigaction(m, a, _) => m == n && Discards(n, a)
    case Exec => n in p.catch && IgnoredByDefault(n)
    case Signal(m) => (m == SIGCONT && Stops(n)) || (n == SIGCONT && Stops(m) && Posts(p, m))
    case Continue => p.taking == n
    case _ => false
  }

  /** A stop signal that psignal does not drop at once. */
  predicate Posts(p: Proc, m: nat) { m !in p.ignore && !(TtyStop(m) && p.orphan && Dispose(p, m) == Dfl) }

  lemma SignalHeld(p: Proc, m: nat, n: nat)
    requires Inv(p) && IsSignal(m) && n in p.pending && n in p.mask
    ensures n in Psignal(p, m).pending <==> !((m == SIGCONT && Stops(n)) || (n == SIGCONT && Stops(m) && Posts(p, m)))
  {
    PsignalPending(p, m, n);
    NotContIgnored(p);
    hide Inv, Psignal;
  }

  lemma LookHeld(p: Proc, n: nat)
    requires Inv(p) && n in p.mask && n in p.pending
    ensures Issignal(p).Taken? ==> n in Issignal(p).p.pending
    ensures Issignal(p).Return? ==> Issignal(p).n != n
  {
  }

  /** A step takes a held signal away exactly when it discards it. */
  lemma StepHeld(p: Proc, e: Event, n: nat)
    requires Inv(p) && Enabled(p, e) && n in p.pending && n in p.mask
    ensures n in Step(p, e).pending <==> !Discarded(p, e, n)
  {
    match e
    case Signal(m) => hide Inv, Psignal; SignalHeld(p, m, n);
    case Exec => hide Execsigs; ExecActions(p, NSIG, n);
    case Look => hide Issignal; LookHeld(p, n);
    case Deliver => hide Issignal; LookHeld(p, n);
    case _ =>
  }

  /** n is held back all along. */
  ghost predicate HeldThroughout(p: Proc, es: seq<Event>, n: nat)
    requires Possible(p, es)
    decreases |es|
  {
    n in p.mask && (es != [] ==> HeldThroughout(Step(p, es[0]), es[1..], n))
  }

  /** Some step of the run discards n. */
  ghost predicate DiscardedBy(p: Proc, es: seq<Event>, n: nat)
    requires Possible(p, es)
    decreases |es|
  {
    es != [] && (Discarded(p, es[0], n) || DiscardedBy(Step(p, es[0]), es[1..], n))
  }

  /** A signal sent while held back, and held back throughout a run, is pending at its end unless some
      step discarded it; and if none of the steps sends it again, only then. */
  lemma HeldSignalKept(p: Proc, n: nat, es: seq<Event>)
    requires Inv(p) && IsSignal(n) && n !in p.ignore && n in p.mask && Possible(Psignal(p, n), es)
    requires HeldThroughout(Psignal(p, n), es, n)
    ensures !DiscardedBy(Psignal(p, n), es, n) ==> n in Run(Psignal(p, n), es).pending
    ensures NotSent(es, n) ==> (n in Run(Psignal(p, n), es).pending <==> !DiscardedBy(Psignal(p, n), es, n))
  {
    hide Inv, Run, Possible, HeldThroughout, DiscardedBy, Psignal, Stops;
    KeptForLater(p, n);
    PsignalKeeps(p, n);
    PendingRun(Psignal(p, n), es, n);
  }

  predicate NotSent(es: seq<Event>, n: nat) { forall k :: 0 <= k < |es| ==> es[k] != Signal(n) }

  lemma {:induction false} PendingRun(p: Proc, es: seq<Event>, n: nat)
    requires Inv(p) && Possible(p, es) && HeldThroughout(p, es, n) && n in p.pending
    ensures !DiscardedBy(p, es, n) ==> n in Run(p, es).pending
    ensures NotSent(es, n) && DiscardedBy(p, es, n) ==> n !in Run(p, es).pending
    decreases |es|
  {
    hide Inv, Step, Enabled, Discarded;
    if es != [] {
      var q := Step(p, es[0]);
      StepKeeps(p, es[0]);
      StepHeld(p, es[0], n);
      if Discarded(p, es[0], n) {
        if NotSent(es, n) { AbsentRun(q, es[1..], n); }
      } else {
        PendingRun(q, es[1..], n);
      }
    }
  }

  lemma AbsentStep(p: Proc, e: Event, n: nat)
    requires Inv(p) && Enabled(p, e) && e != Signal(n) && n !in p.pending
    ensures n !in Step(p, e).pending
  {
    match e
    case Signal(m) => hide Inv, Psignal; PsignalPending(p, m, n);
    case Exec => hide Execsigs; ExecKeeps(p, NSIG);
    case Look => hide Issignal; IssignalKeeps(p);
    case _ =>
  }

  /** A signal is pending only if it was sent. */
  lemma {:induction false} AbsentRun(p: Proc, es: seq<Event>, n: nat)
    requires Inv(p) && Possible(p, es) && NotSent(es, n) && n !in p.pending
    ensures n !in Run(p, es).pending
    decreases |es|
  {
    hide Inv, Step, Enabled;
    if es != [] {
      StepKeeps(p, es[0]);
      AbsentStep(p, es[0], n);
      AbsentRun(Step(p, es[0]), es[1..], n);
    }
  }

  predicate Continues(e: Event) { e == Signal(SIGCONT) || e == Signal(SIGKILL) }

  lemma StoppedStep(p: Proc, e: Event)
    requires Inv(p) && Enabled(p, e) && p.stat == Stopped
    ensures Step(p, e).stat == Stopped <==> !Continues(e)
  {
    match e
    case Signal(m) =>
      hide Inv, Psignal;
      PsignalMoves(p, m);
      if Continues(e) { ContinuesAlways(p, m); }
    case Exec => ExecStat(p, NSIG);
    case _ =>
  }

  lemma {:induction false} ExecStat(p: Proc, k: nat)
    requires |p.act| == NSIG && k <= NSIG
    ensures Execsigs(p, k).stat == p.stat && |Execsigs(p, k).act| == NSIG
  {
    if k > 0 { ExecStat(p, k - 1); }
  }

  /** A stopped process stays stopped, whatever happens, up to the first SIGCONT or SIGKILL, and that
      one sets it going, however it is handled. */
  lemma {:induction false} StoppedUntil(p: Proc, es: seq<Event>, k: nat)
    requires Inv(p) && p.stat == Stopped && Possible(p, es)
    requires k <= |es| && forall i :: 0 <= i < k ==> !Continues(es[i])
    ensures Possible(p, es[..k]) && Run(p, es[..k]).stat == Stopped
    ensures k < |es| && Continues(es[k]) ==> Possible(p, es[..k + 1]) && Run(p, es[..k + 1]).stat != Stopped
    decreases |es|
  {
    hide Inv, Step, Enabled;
    if k > 0 {
      StepKeeps(p, es[0]);
      StoppedStep(p, es[0]);
      StoppedUntil(Step(p, es[0]), es[1..], k - 1);
      assert es[..k][1..] == es[1..][..k - 1];
      if k < |es| { assert es[..k + 1][1..] == es[1..][..k]; }
    } else if es != [] {
      StoppedStep(p, es[0]);
      assert es[..1][1..] == [];
    }
  }

  // ---------- the code ----------

  class SigProc {
    var p: Proc

    /** siginit, on the cleared signal state of process 0: what is ignored by default is ignored, except
        SIGCONT. */
    method Siginit()
      requires |p.act| == |p.catchmask| == NSIG &&
               (forall n :: 0 <= n < NSIG ==> p.act[n] == Default && p.catchmask[n] == {})
      requires p.pending == p.mask == p.catch == p.ignore == {}
      modifies this
      ensures Inv(p) && p == old(p).(ignore := p.ignore)
    {
      for i := 0 to NSIG
        invariant p == old(p).(ignore := p.ignore)
        invariant forall n: nat :: n in p.ignore <==> n < i && IgnoredByDefault(n) && n != SIGCONT
      {
        if IgnoredByDefault(i) && i != SIGCONT {
          p := p.(ignore := p.ignore + {i});
        }
      }
    }

    /** execsigs as written: take the lowest caught signal until none is left. */
    method Execsigs()
      requires Inv(p)
      modifies this
      ensures Inv(p) && p.catch == {} && p.mask == old(p.mask) && old(p.ignore) <= p.ignore &&
              p.pending <= old(p.pending)
      ensures forall n: nat :: n < NSIG ==> p.act[n] != Handler
    {
      hide ResetOne, Untouched, PendingOk;
      while p.catch != {}
        invariant Inv(p) && p.mask == old(p.mask) && old(p.ignore) <= p.ignore && p.pending <= old(p.pending)
        decreases p.catch
      {
        NotContIgnored(p);
        LowestCaught(p);
        var n := Lowest(p.catch, 1);
        ResetKeeps(p, n);
        p := ResetOne(p, n);
      }
    }

    /** issignal: rounds until nothing is left, a signal is to be delivered, or the process stops. */
    method Cursig() returns (n: nat)
      requires Inv(p) && p.stat == Running && p.taking == 0
      modifies this
      ensures Inv(p) && p.pending <= old(p.pending)
      ensures n != 0 ==> p.stat == Running && Issignal(p) == Return(n)
      ensures n == 0 && p.stat == Running ==> Candidates(p) == {}
    {
      hide Issignal, Inv;
      while true
        invariant Inv(p) && p.stat == Running && p.taking == 0 && p.pending <= old(p.pending)
        decreases p.pending
      {
        ActLength(p);
        RoundFacts(p);
        match Issignal(p)
        case Nothing => return 0;
        case Return(m) => return m;
        case Taken(q) =>
          IssignalKeeps(p);
          p := q;
          if p.stat == Stopped { return 0; }
      }
    }
  }

  lemma RoundFacts(p: Proc)
    requires Inv(p) && p.taking == 0 && p.stat == Running
    ensures match Issignal(p)
            case Nothing => Candidates(p) == {}
            case Return(n) => n != 0
            case Taken(q) => if q.stat == Running then q.pending < p.pending && q.taking == 0 else q.stat == Stopped
  {
    var c := Candidates(p);
    if n :| n in c {
      LowestFound(c, 1, n);
    }
  }

  lemma LowestCaught(p: Proc)
    requires Consistent(p) && p.catch != {}
    ensures Lowest(p.catch, 1) in p.catch
  {
    var n :| n in p.catch;
    NotContIgnored(p);
    LowestFound(p.catch, 1, n);
  }

  lemma {:induction false} LowestFound(m: set<nat>, i: nat, n: nat)
    requires n in m && 0 < i <= n < NSIG
    ensures i <= Lowest(m, i) <= n && Lowest(m, i) in m
    decreases NSIG - i
  {
    if i !in m { LowestFound(m, i + 1, n); }
  }

  lemma ActLength(p: Proc)
    requires Inv(p)
    ensures |p.act| == NSIG
  {
  }
}
