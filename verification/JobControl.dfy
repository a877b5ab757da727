/** Job control: fixjobc, enterpgrp, and what fork1, exit1 and wait do to process groups. The
    counter pg_jobc is to equal, for each group, the number of live members whose parent is in
    another group of the same session; a group whose count is zero is orphaned. */
module JobControl {

  datatype Stat = Free | Live | Stopped | Zombie

  /** Processes and groups are named by small numbers; a group has the number of its first leader. */
  datatype Proc = Proc(stat: Stat, parent: nat, pgrp: nat)

  /** For each group number the session and pg_jobc; the next unused session. */
  datatype State = State(procs: seq<Proc>, sess: seq<nat>, jobc: seq<int>, nextSess: nat)

  // ---------- the definition ----------

  ghost predicate Shaped(procs: seq<Proc>, sess: seq<nat>) {
    |sess| == |procs| && forall x :: 0 <= x < |procs| ==> procs[x].parent < |procs| && procs[x].pgrp < |procs|
  }

  predicate Running(p: Proc) { p.stat.Live? || p.stat.Stopped? }

  /** x keeps group h out of being orphaned. */
  predicate Qualifies(procs: seq<Proc>, sess: seq<nat>, x: nat, h: nat)
    requires Shaped(procs, sess) && x < |procs| && h < |procs|
  {
    Running(procs[x]) && procs[x].pgrp == h &&
    var g := procs[procs[x].parent].pgrp;
    g != h && sess[g] == sess[h]
  }

  function Bit(b: bool): int { if b then 1 else 0 }

  /** How many of the first n processes qualify h. */
  function Count(procs: seq<Proc>, sess: seq<nat>, h: nat, n: nat): int
    requires Shaped(procs, sess) && h < |procs| && n <= |procs|
  {
    if n == 0 then 0 else Count(procs, sess, h, n - 1) + Bit(Qualifies(procs, sess, n - 1, h))
  }

  /** How many of the first n are children of p and qualify h. */
  function Kids(procs: seq<Proc>, sess: seq<nat>, p: nat, h: nat, n: nat): int
    requires Shaped(procs, sess) && h < |procs| && n <= |procs|
  {
    if n == 0 then 0
    else Kids(procs, sess, p, h, n - 1) + Bit(procs[n - 1].parent == p && Qualifies(procs, sess, n - 1, h))
  }

  /** What p and its children contribute to h. */
  function Share(procs: seq<Proc>, sess: seq<nat>, p: nat, h: nat): int
    requires Shaped(procs, sess) && p < |procs| && h < |procs|
  {
    Bit(Qualifies(procs, sess, p, h)) + Kids(procs, sess, p, h, |procs|)
  }

  /** pg_jobc is exact. */
  ghost predicate Exact(s: State) {
    Shaped(s.procs, s.sess) && |s.jobc| == |s.procs| &&
    forall h :: 0 <= h < |s.procs| ==> s.jobc[h] == Count(s.procs, s.sess, h, |s.procs|)
  }

  /** Every process has a running parent; only process 0 is its own. Sessions are below nextSess. */
  ghost predicate Family(s: State) {
    Shaped(s.procs, s.sess) &&
    (forall x :: 0 <= x < |s.procs| && !s.procs[x].stat.Free? ==> Running(s.procs[s.procs[x].parent])) &&
    (forall x :: 0 < x < |s.procs| ==> s.procs[x].parent != x) &&
    (forall h :: 0 <= h < |s.sess| ==> s.sess[h] < s.nextSess)
  }

  // ---------- counting ----------

  /** Two tables in which only p and its children may qualify differently. */
  ghost predicate SameOthers(procs: seq<Proc>, sess: seq<nat>, procs': seq<Proc>, sess': seq<nat>, p: nat, h: nat)
    requires Shaped(procs, sess) && Shaped(procs', sess') && |procs| == |procs'| && h < |procs|
  {
    forall x :: 0 <= x < |procs| && x != p && procs[x].parent != p ==>
      (Qualifies(procs, sess, x, h) <==> Qualifies(procs', sess', x, h))
  }

  /** Counts differ by what p and its children contribute. */
  lemma {:induction false} CountDiff(procs: seq<Proc>, sess: seq<nat>, procs': seq<Proc>, sess': seq<nat>, p: nat,
      h: nat, n: nat)
    requires Shaped(procs, sess) && Shaped(procs', sess') && |procs| == |procs'| && h < |procs| && p < |procs| &&
             n <= |procs|
    requires SameOthers(procs, sess, procs', sess', p, h) && procs[p].parent != p
    requires forall x :: 0 <= x < |procs| ==> procs[x].parent == procs'[x].parent
    ensures var mine := if p < n then Bit(Qualifies(procs, sess, p, h)) else 0;
            var mine' := if p < n then Bit(Qualifies(procs', sess', p, h)) else 0;
            Count(procs', sess', h, n) - Kids(procs', sess', p, h, n) - mine' ==
                Count(procs, sess, h, n) - Kids(procs, sess, p, h, n) - mine
  {
    hide Qualifies;
    if n > 0 {
      CountDiff(procs, sess, procs', sess', p, h, n - 1);
    }
  }

  /** p's and its children's part is part of the count. */
  lemma {:induction false} ShareBound(procs: seq<Proc>, sess: seq<nat>, p: nat, h: nat, n: nat)
    requires Shaped(procs, sess) && h < |procs| && p < |procs| && n <= |procs| && procs[p].parent != p
    ensures 0 <= Kids(procs, sess, p, h, n)
    ensures Kids(procs, sess, p, h, n) +
            (if p < n then Bit(Qualifies(procs, sess, p, h)) else 0) <= Count(procs, sess, h, n)
  {
    hide Qualifies;
    if n > 0 {
      ShareBound(procs, sess, p, h, n - 1);
    }
  }

  lemma {:induction false} CountZero(procs: seq<Proc>, sess: seq<nat>, h: nat, n: nat)
    requires Shaped(procs, sess) && h < |procs| && n <= |procs| && forall x :: 0 <= x < n ==>
             !Qualifies(procs, sess, x, h)
    ensures Count(procs, sess, h, n) == 0
  {
    if n > 0 {
      CountZero(procs, sess, h, n - 1);
    }
  }

  lemma {:induction false} CountSame(procs: seq<Proc>, sess: seq<nat>, procs': seq<Proc>, sess': seq<nat>, h: nat,
      n: nat)
    requires Shaped(procs, sess) && Shaped(procs', sess') && |procs| == |procs'| && h < |procs| && n <= |procs|
    requires forall x :: 0 <= x < n ==> (Qualifies(procs, sess, x, h) <==> Qualifies(procs', sess', x, h))
    ensures Count(procs', sess', h, n) == Count(procs, sess, h, n)
  {
    hide Qualifies;
    if n > 0 {
      CountSame(procs, sess, procs', sess', h, n - 1);
    }
  }

  // ---------- the operations ----------

  function Moved(procs: seq<Proc>, p: nat, g: nat): seq<Proc>
    requires p < |procs|
  {
    procs[p := procs[p].(pgrp := g)]
  }

  /** fixjobc(p, g, entering): adjust the counts as if p were in g. */
  function Fix(s: State, p: nat, g: nat, entering: bool): seq<int>
    requires Shaped(s.procs, s.sess) && |s.jobc| == |s.procs| && p < |s.procs| && g < |s.procs|
  {
    seq(|s.jobc|, h requires 0 <= h < |s.jobc| =>
      s.jobc[h] + (if entering then 1 else -1) * Share(Moved(s.procs, p, g), s.sess, p, h))
  }

  predicate HasMembers(procs: seq<Proc>, g: nat) {
    exists x :: 0 <= x < |procs| && !procs[x].stat.Free? && procs[x].pgrp == g
  }

  /** A group is made for p, in p's session or in a new one. */
  function NewGroup(s: State, p: nat, g: nat, mksess: bool): State
    requires Shaped(s.procs, s.sess) && |s.jobc| == |s.procs| && p < |s.procs| && g < |s.procs|
  {
    s.(sess := s.sess[g := if mksess then s.nextSess else s.sess[s.procs[p].pgrp]], jobc := s.jobc[g := 0],
       nextSess := s.nextSess + if mksess then 1 else 0)
  }

  function Switch(s: State, p: nat, g: nat): State
    requires Shaped(s.procs, s.sess) && |s.jobc| == |s.procs| && p < |s.procs| && g < |s.procs|
  {
    var t := s.(jobc := Fix(s, p, g, true));
    s.(procs := Moved(s.procs, p, g), jobc := Fix(t, p, s.procs[p].pgrp, false))
  }

  function Enterpgrp(s: State, p: nat, g: nat, mksess: bool): State
    requires Shaped(s.procs, s.sess) && |s.jobc| == |s.procs| && p < |s.procs| && g < |s.procs|
  {
    if !HasMembers(s.procs, g) then Switch(NewGroup(s, p, g, mksess), p, g)
    else if g == s.procs[p].pgrp then s
    else Switch(s, p, g)
  }

  function Adopt(procs: seq<Proc>, p: nat, init: nat): (r: seq<Proc>)
    ensures |r| == |procs|
    ensures forall x :: 0 <= x < |r| ==> r[x] == if procs[x].parent == p then procs[x].(parent := init) else procs[x]
  {
    seq(|procs|, x requires 0 <= x < |procs| => if procs[x].parent == p then procs[x].(parent := init) else procs[x])
  }

  /** The job-control part of exit1. */
  function Exit(s: State, p: nat, init: nat): State
    requires Shaped(s.procs, s.sess) && |s.jobc| == |s.procs| && p < |s.procs|
  {
    s.(jobc := Fix(s, p, s.procs[p].pgrp, false), procs := Adopt(s.procs[p := s.procs[p].(stat := Zombie)], p, init))
  }

  lemma FixMeans(s: State, p: nat, g: nat, entering: bool, h: nat)
    requires Shaped(s.procs, s.sess) && |s.jobc| == |s.procs| && p < |s.procs| && g < |s.procs| && h < |s.procs|
    ensures Shaped(Moved(s.procs, p, g), s.sess) && |Fix(s, p, g, entering)| == |s.jobc|
    ensures Fix(s, p, g, entering)[h] ==
            s.jobc[h] + (if entering then 1 else -1) * Share(Moved(s.procs, p, g), s.sess, p, h)
  {
  }

  /** Making a group that has no members disturbs no count. */
  lemma NewGroupExact(s: State, p: nat, g: nat, mksess: bool)
    requires Exact(s) && Family(s) && p < |s.procs| && g < |s.procs| && !HasMembers(s.procs, g)
    ensures Exact(NewGroup(s, p, g, mksess)) && Family(NewGroup(s, p, g, mksess))
  {
    var t := NewGroup(s, p, g, mksess);
    forall h | 0 <= h < |s.procs|
      ensures t.jobc[h] == Count(t.procs, t.sess, h, |t.procs|)
    {
      if h == g {
        CountZero(t.procs, t.sess, h, |t.procs|);
      } else {
        CountSame(s.procs, s.sess, t.procs, t.sess, h, |t.procs|);
      }
    }
  }

  lemma SwitchExact(s: State, p: nat, g: nat)
    requires Exact(s) && Family(s) && 0 < p < |s.procs| && g < |s.procs|
    ensures Exact(Switch(s, p, g)) && Family(Switch(s, p, g))
  {
    hide Count, Kids, Fix;
    var t := Switch(s, p, g);
    var m := Moved(s.procs, p, g);
    assert Moved(s.procs, p, s.procs[p].pgrp) == s.procs;
    FixMeans(s, p, g, true, 0);
    FixMeans(s.(jobc := Fix(s, p, g, true)), p, s.procs[p].pgrp, false, 0);
    forall h | 0 <= h < |s.procs|
      ensures t.jobc[h] == Count(m, s.sess, h, |m|)
    {
      FixMeans(s, p, g, true, h);
      FixMeans(s.(jobc := Fix(s, p, g, true)), p, s.procs[p].pgrp, false, h);
      CountDiff(s.procs, s.sess, m, s.sess, p, h, |m|);
    }
  }

  /** Entering a group, new or not, in the same session or a new one, keeps every count exact. */
  lemma EnterExact(s: State, p: nat, g: nat, mksess: bool)
    requires Exact(s) && Family(s) && 0 < p < |s.procs| && g < |s.procs|
    ensures Exact(Enterpgrp(s, p, g, mksess)) && Family(Enterpgrp(s, p, g, mksess))
  {
    hide Count, Family, Switch, NewGroup;
    if !HasMembers(s.procs, g) {
      NewGroupExact(s, p, g, mksess);
      NewGroupShape(s, p, g, mksess);
      SwitchExact(NewGroup(s, p, g, mksess), p, g);
    } else if g != s.procs[p].pgrp {
      SwitchExact(s, p, g);
    }
  }

  lemma NewGroupShape(s: State, p: nat, g: nat, mksess: bool)
    requires Shaped(s.procs, s.sess) && |s.jobc| == |s.procs| && p < |s.procs| && g < |s.procs|
    ensures NewGroup(s, p, g, mksess).procs == s.procs
  {
  }

  // ---------- exit ----------

  /** The children init takes over that qualify h from then on. */
  function Adopted(procs: seq<Proc>, procs': seq<Proc>, sess: seq<nat>, p: nat, h: nat, n: nat): int
    requires Shaped(procs', sess) && |procs| == |procs'| && h < |procs| && n <= |procs|
  {
    if n == 0 then 0
    else Adopted(procs, procs', sess, p, h, n - 1) + Bit(procs[n - 1].parent == p && Qualifies(procs', sess, n - 1, h))
  }

  lemma {:induction false} ExitDiff(procs: seq<Proc>, procs': seq<Proc>, sess: seq<nat>, p: nat, h: nat, n: nat)
    requires Shaped(procs, sess) && Shaped(procs', sess) && |procs| == |procs'| && h < |procs| && p < |procs| &&
             n <= |procs|
    requires SameOthers(procs, sess, procs', sess, p, h) && procs[p].parent != p && !Qualifies(procs', sess, p, h)
    ensures Count(procs', sess, h, n) == Count(procs, sess, h, n) - Kids(procs, sess, p, h, n)
              - (if p < n then Bit(Qualifies(procs, sess, p, h)) else 0) + Adopted(procs, procs', sess, p, h, n)
  {
    hide Qualifies;
    if n > 0 {
      ExitDiff(procs, procs', sess, p, h, n - 1);
    }
  }

  lemma {:induction false} AdoptedNone(procs: seq<Proc>, procs': seq<Proc>, sess: seq<nat>, p: nat, h: nat, n: nat)
    requires Shaped(procs', sess) && |procs| == |procs'| && h < |procs| && n <= |procs|
    ensures 0 <= Adopted(procs, procs', sess, p, h, n)
    ensures Adopted(procs, procs', sess, p, h, n) == 0 <==>
            forall x :: 0 <= x < n ==> procs[x].parent == p ==> !Qualifies(procs', sess, x, h)
  {
    hide Qualifies;
    if n > 0 {
      AdoptedNone(procs, procs', sess, p, h, n - 1);
    }
  }

  /** No running child of p is in another group of init's session. */
  ghost predicate CleanExit(s: State, p: nat, init: nat)
    requires Shaped(s.procs, s.sess) && init < |s.procs|
  {
    forall x :: 0 <= x < |s.procs| && s.procs[x].parent == p && Running(s.procs[x]) ==>
      s.procs[x].pgrp == s.procs[init].pgrp || s.sess[s.procs[x].pgrp] != s.sess[s.procs[init].pgrp]
  }

  /** p runs, and is neither process 0 nor init, nor init's parent. */
  ghost predicate CanExit(s: State, p: nat, init: nat) {
    0 < p < |s.procs| && Running(s.procs[p]) && init < |s.procs| && init != p &&
    Running(s.procs[init]) && s.procs[init].parent != p
  }

  lemma ExitShape(s: State, p: nat, init: nat)
    requires Exact(s) && Family(s) && CanExit(s, p, init)
    ensures Family(Exit(s, p, init)) && |Exit(s, p, init).jobc| == |s.procs|
    ensures forall x :: 0 <= x < |s.procs| ==> Exit(s, p, init).procs[x].pgrp == s.procs[x].pgrp
  {
    hide Count, Share, Qualifies, Fix;
    FixMeans(s, p, s.procs[p].pgrp, false, 0);
    var t := Exit(s, p, init);
    forall x | 0 <= x < |t.procs| && !t.procs[x].stat.Free?
      ensures Running(t.procs[t.procs[x].parent])
    {
      assert t.procs[x].parent != p;
    }
  }

  /** After an exit each count is short by the adopted children that qualify the group. */
  lemma ExitCount(s: State, p: nat, init: nat, h: nat)
    requires Exact(s) && Family(s) && CanExit(s, p, init)
    requires h < |s.procs|
    ensures var t := Exit(s, p, init);
            Shaped(t.procs, t.sess) && |t.procs| == |s.procs| == |t.jobc| &&
            Count(t.procs, t.sess, h, |t.procs|) == t.jobc[h] + Adopted(s.procs, t.procs, s.sess, p, h, |s.procs|)
  {
    hide Count, Kids, Fix, Adopted;
    ExitShape(s, p, init);
    var t := Exit(s, p, init);
    var g := s.procs[p].pgrp;
    assert Moved(s.procs, p, g) == s.procs;
    FixMeans(s, p, g, false, h);
    ExitDiff(s.procs, t.procs, s.sess, p, h, |s.procs|);
  }

  /** exit1 keeps the counts exact if and only if init takes over no child in another group of its
      own session: such a child starts to qualify its group, and nothing counts it. */
  lemma ExitExact(s: State, p: nat, init: nat)
    requires Exact(s) && Family(s) && CanExit(s, p, init)
    ensures Family(Exit(s, p, init)) && (Exact(Exit(s, p, init)) <==> CleanExit(s, p, init))
  {
    hide Count, Kids, Fix, Adopted, Family;
    ExitShape(s, p, init);
    var t := Exit(s, p, init);
    forall h | 0 <= h < |s.procs|
      ensures t.jobc[h] == Count(t.procs, t.sess, h, |t.procs|) <==> NoneAdopted(s, t, p, h)
    {
      ExitCount(s, p, init, h);
      AdoptedNone(s.procs, t.procs, s.sess, p, h, |s.procs|);
    }
    CleanMeans(s, p, init);
  }

  ghost predicate NoneAdopted(s: State, t: State, p: nat, h: nat)
    requires Shaped(t.procs, t.sess) && |s.procs| == |t.procs| && h < |s.procs|
  {
    forall x :: 0 <= x < |s.procs| ==> s.procs[x].parent == p ==> !Qualifies(t.procs, t.sess, x, h)
  }

  lemma CleanMeans(s: State, p: nat, init: nat)
    requires Exact(s) && Family(s) && CanExit(s, p, init)
    requires Shaped(Exit(s, p, init).procs, s.sess)
    ensures CleanExit(s, p, init) <==> forall h :: 0 <= h < |s.procs| ==> NoneAdopted(s, Exit(s, p, init), p, h)
  {
    hide Fix, Count;
    var t := Exit(s, p, init);
    if CleanExit(s, p, init) {
    } else {
      var x :| 0 <= x < |s.procs| && s.procs[x].parent == p && Running(s.procs[x]) &&
        s.procs[x].pgrp != s.procs[init].pgrp && s.sess[s.procs[x].pgrp] == s.sess[s.procs[init].pgrp];
      assert !NoneAdopted(s, t, p, s.procs[x].pgrp);
    }
  }

  // ---------- runs ----------

  datatype Event =
    | EnterGroup(p: nat, g: nat, mksess: bool)
    | ForkChild(p: nat, x: nat)
    | ExitProc(p: nat)
    | Reap(x: nat)
    | StopOrCont(x: nat, stop: bool)

  /** What the callers check: a new group gets the number of its leader, a new session is not
      made in a group that exists. Process 1 is init. */
  ghost predicate Enabled(s: State, e: Event) {
    match e
    case EnterGroup(p, g, mksess) => 0 < p < |s.procs| && g < |s.procs| && Running(s.procs[p]) &&
        if HasMembers(s.procs, g) then !mksess else g == p
    case ForkChild(p, x) => p < |s.procs| && 0 < x < |s.procs| && x != p && Running(s.procs[p]) && s.procs[x].stat.Free?
    case ExitProc(p) => CanExit(s, p, 1)
    case Reap(x) => x < |s.procs| && s.procs[x].stat.Zombie?
    case StopOrCont(x, _) => x < |s.procs| && Running(s.procs[x])
  }

  ghost predicate Clean(s: State, e: Event)
    requires Shaped(s.procs, s.sess) && Enabled(s, e)
  {
    e.ExitProc? ==> CleanExit(s, e.p, 1)
  }

  ghost function Step(s: State, e: Event): State
    requires Shaped(s.procs, s.sess) && |s.jobc| == |s.procs| && Enabled(s, e)
  {
    match e
    case EnterGroup(p, g, mksess) => Enterpgrp(s, p, g, mksess)
    case ForkChild(p, x) => s.(procs := s.procs[x := Proc(Live, p, s.procs[p].pgrp)])
    case ExitProc(p) => Exit(s, p, 1)
    case Reap(x) => s.(procs := s.procs[x := s.procs[x].(stat := Free)])
    case StopOrCont(x, stop) => s.(procs := s.procs[x := s.procs[x].(stat := if stop then Stopped else Live)])
  }

  /** A fork, a reaped zombie or a stopped process changes nobody's standing. */
  lemma QuietStep(s: State, e: Event)
    requires Exact(s) && Family(s) && Enabled(s, e) && (e.ForkChild? || e.Reap? || e.StopOrCont?)
    ensures Exact(Step(s, e)) && Family(Step(s, e))
  {
    hide Count;
    var t := Step(s, e);
    assert Family(t);
    forall h | 0 <= h < |s.procs|
      ensures t.jobc[h] == Count(t.procs, t.sess, h, |t.procs|)
    {
      CountSame(s.procs, s.sess, t.procs, t.sess, h, |t.procs|);
    }
  }

  /** Everyone but x is as before. */
  ghost predicate OthersSame(s: State, t: State, x: nat) {
    |t.procs| == |s.procs| && forall y :: 0 <= y < |s.procs| && y != x ==> t.procs[y] == s.procs[y]
  }

  /** What a move does besides the counts: p is in the new group, with its state and parent, nobody else
      has moved; a group that is made is in p's session, or in one that no other group is in; no
      other group changes its session. */
  ghost predicate Entered(s: State, t: State, p: nat, g: nat, mksess: bool)
    requires Shaped(s.procs, s.sess) && p < |s.procs| && g < |s.procs|
  {
    OthersSame(s, t, p) && t.procs[p].pgrp == g && t.procs[p].stat == s.procs[p].stat &&
    t.procs[p].parent == s.procs[p].parent && |t.sess| == |s.sess| &&
    (forall h :: 0 <= h < |s.sess| && h != g ==> t.sess[h] == s.sess[h]) &&
    if exists x :: 0 <= x < |s.procs| && !s.procs[x].stat.Free? && s.procs[x].pgrp == g then t.sess[g] == s.sess[g]
    else if mksess then forall h :: 0 <= h < |t.sess| && h != g ==> t.sess[g] != t.sess[h]
    else t.sess[g] == s.sess[s.procs[p].pgrp]
  }

  lemma EnterMoves(s: State, p: nat, g: nat, mksess: bool)
    requires Family(s) && |s.jobc| == |s.procs| && p < |s.procs| && g < |s.procs|
    ensures Entered(s, Enterpgrp(s, p, g, mksess), p, g, mksess)
  {
    hide Fix;
  }

  /** Who is where after a step, and in what state. */
  ghost predicate Stepped(s: State, t: State, e: Event)
    requires Shaped(s.procs, s.sess) && Enabled(s, e)
  {
    match e
    case EnterGroup(p, g, mksess) => Entered(s, t, p, g, mksess)
    case ForkChild(p, x) =>
      OthersSame(s, t, x) && t.sess == s.sess &&
      t.procs[x].stat.Live? && t.procs[x].parent == p && t.procs[x].pgrp == s.procs[p].pgrp
    case ExitProc(p) =>
      |t.procs| == |s.procs| && t.sess == s.sess &&
      forall x :: 0 <= x < |s.procs| ==>
        t.procs[x].pgrp == s.procs[x].pgrp &&
        t.procs[x].stat == (if x == p then Zombie else s.procs[x].stat) &&
        t.procs[x].parent == if s.procs[x].parent == p then 1 else s.procs[x].parent
    case Reap(x) =>
      OthersSame(s, t, x) && t.sess == s.sess && t.procs[x].stat.Free?
    case StopOrCont(x, stop) =>
      OthersSame(s, t, x) && t.sess == s.sess && t.procs[x].parent == s.procs[x].parent &&
      t.procs[x].pgrp == s.procs[x].pgrp && (if stop then t.procs[x].stat.Stopped? else t.procs[x].stat.Live?)
  }

  lemma StepMoves(s: State, e: Event)
    requires Family(s) && |s.jobc| == |s.procs| && Enabled(s, e)
    ensures Stepped(s, Step(s, e), e)
  {
    hide Fix, Enterpgrp, Entered;
    match e
    case EnterGroup(p, g, mksess) => EnterMoves(s, p, g, mksess);
    case _ =>
  }

  lemma StepExact(s: State, e: Event)
    requires Exact(s) && Family(s) && Enabled(s, e)
    ensures Family(Step(s, e)) && (Exact(Step(s, e)) <==> Clean(s, e))
  {
    hide Count, Family, Enterpgrp, Exit, CleanExit;
    match e
    case EnterGroup(p, g, mksess) => EnterExact(s, p, g, mksess);
    case ExitProc(p) => ExitExact(s, p, 1);
    case _ => QuietStep(s, e);
  }

  /** A run in which every exit is clean. */
  ghost predicate CleanRun(s: State, es: seq<Event>)
    requires Shaped(s.procs, s.sess) && |s.jobc| == |s.procs|
    decreases |es|
  {
    es == [] ||
    (Enabled(s, es[0]) && Clean(s, es[0]) &&
     var t := Step(s, es[0]);
     Shaped(t.procs, t.sess) && |t.jobc| == |t.procs| && CleanRun(t, es[1..]))
  }

  ghost function Exec(s: State, es: seq<Event>): State
    requires Shaped(s.procs, s.sess) && |s.jobc| == |s.procs| && CleanRun(s, es)
    decreases |es|
  {
    if es == [] then s else Exec(Step(s, es[0]), es[1..])
  }

  /** Over every such run pg_jobc is the number of members that keep the group from being orphaned. */
  lemma {:induction false} RunExact(s: State, es: seq<Event>)
    requires Exact(s) && Family(s) && CleanRun(s, es)
    ensures Exact(Exec(s, es)) && Family(Exec(s, es))
    decreases |es|
  {
    hide Count, Family, Step, Clean, Enabled;
    if es != [] {
      StepExact(s, es[0]);
      RunExact(Step(s, es[0]), es[1..]);
    }
  }

  /** An exit that is not clean: process 2 leads a group in init's session and its child 3 another.
      When 2 exits, 3 comes to qualify its group as init's child, but the count is not raised. */
  lemma UncleanExit() returns (s: State)
    ensures Exact(s) && Family(s) && CanExit(s, 2, 1) && !Exact(Exit(s, 2, 1))
  {
    s := Scene();
    forall h | 0 <= h < 4
      ensures Count(s.procs, s.sess, h, 4) == s.jobc[h]
    {
      SceneCount(h);
    }
    hide Count;
    ExitExact(s, 2, 1);
    assert s.procs[3].parent == 2 && Running(s.procs[3]);
  }

  function Scene(): State {
    State([Proc(Live, 0, 0), Proc(Live, 0, 1), Proc(Live, 1, 2), Proc(Live, 2, 3)], [0, 1, 1, 1], [0, 0, 1, 1], 2)
  }

  lemma SceneCount(h: nat)
    requires h < 4
    ensures Count(Scene().procs, Scene().sess, h, 4) == Scene().jobc[h]
  {
    var procs, sess := Scene().procs, Scene().sess;
    assert Count(procs, sess, h, 0) == 0;
    assert Count(procs, sess, h, 1) == 0;
    assert Count(procs, sess, h, 2) == 0;
    assert Count(procs, sess, h, 3) == Bit(h == 2);
  }

  // ---------- the code ----------

  /** o lists, each once, the groups whose count went from positive to zero. */
  ghost predicate NewlyZero(before: seq<int>, after: seq<int>, o: seq<nat>)
    requires |before| == |after|
  {
    (forall i, j :: 0 <= i < j < |o| ==> o[i] != o[j]) &&
    (forall i :: 0 <= i < |o| ==> o[i] < |after|) &&
    (forall h :: 0 <= h < |after| ==> (h in o <==> before[h] > 0 && after[h] == 0))
  }

  lemma OneLess(before: seq<int>, after: seq<int>, o: seq<nat>, h: nat)
    requires |before| == |after| && h < |after| && NewlyZero(before, after, o) && 0 < after[h] <= before[h]
    ensures NewlyZero(before, after[h := after[h] - 1], if after[h] == 1 then o + [h] else o)
  {
  }

  /** The counts after p and the first x processes have been looked at, p being taken to be in the
      group it has in m; o are the groups orphaned on the way. */
  ghost predicate Progress(before: seq<int>, now: seq<int>, o: seq<nat>, m: seq<Proc>, sess: seq<nat>, p: nat,
      entering: bool, x: nat)
    requires Shaped(m, sess) && p < |m| && x <= |m| == |before|
  {
    |now| == |before| &&
    (forall h :: 0 <= h < |m| ==>
       now[h] == before[h] + Sign(entering) * (Bit(Qualifies(m, sess, p, h)) + Kids(m, sess, p, h, x))) &&
    if entering then o == [] else NewlyZero(before, now, o)
  }

  function Sign(entering: bool): int { if entering then 1 else -1 }

  /** The group of process x, if x is a child that counts. */
  predicate Counts(m: seq<Proc>, sess: seq<nat>, p: nat, g: nat, x: nat)
    requires Shaped(m, sess) && x < |m| && g < |m|
  {
    m[x].parent == p && Running(m[x]) && m[x].pgrp != g && sess[m[x].pgrp] == sess[g]
  }

  lemma KidStep(m: seq<Proc>, sess: seq<nat>, p: nat, x: nat, h: nat)
    requires Shaped(m, sess) && p < |m| && x < |m| && h < |m|
    ensures Kids(m, sess, p, h, x + 1) ==
            Kids(m, sess, p, h, x) + Bit(h == m[x].pgrp && Counts(m, sess, p, m[p].pgrp, x))
  {
  }

  lemma {:induction false} KidsGrow(m: seq<Proc>, sess: seq<nat>, p: nat, h: nat, x: nat, n: nat)
    requires Shaped(m, sess) && h < |m| && x <= n <= |m|
    ensures Kids(m, sess, p, h, x) <= Kids(m, sess, p, h, n)
    decreases n
  {
    if x < n {
      KidsGrow(m, sess, p, h, x, n - 1);
    }
  }

  lemma SkipKid(before: seq<int>, now: seq<int>, o: seq<nat>, m: seq<Proc>, sess: seq<nat>, p: nat, entering: bool,
      x: nat)
    requires Shaped(m, sess) && p < |m| && x < |m| == |before| && Progress(before, now, o, m, sess, p, entering, x)
    requires !Counts(m, sess, p, m[p].pgrp, x)
    ensures Progress(before, now, o, m, sess, p, entering, x + 1)
  {
    hide NewlyZero, Kids, Qualifies;
    forall h | 0 <= h < |m|
      ensures Kids(m, sess, p, h, x + 1) == Kids(m, sess, p, h, x)
    {
      KidStep(m, sess, p, x, h);
    }
  }

  lemma CountKid(before: seq<int>, now: seq<int>, o: seq<nat>, m: seq<Proc>, sess: seq<nat>, p: nat, entering: bool,
      x: nat)
    requires Shaped(m, sess) && p < |m| && x < |m| == |before| && Progress(before, now, o, m, sess, p, entering, x)
    requires Counts(m, sess, p, m[p].pgrp, x)
    requires !entering ==> forall h :: 0 <= h < |m| ==> before[h] >= Share(m, sess, p, h)
    ensures var k := m[x].pgrp;
            var n := now[k] + Sign(entering);
            Progress(before, now[k := n], if !entering && n == 0 then o + [k] else o, m, sess, p, entering, x + 1)
  {
    hide NewlyZero, Kids, Qualifies, Counts;
    var k := m[x].pgrp;
    forall h | 0 <= h < |m|
      ensures Kids(m, sess, p, h, x + 1) == Kids(m, sess, p, h, x) + Bit(h == k)
    {
      KidStep(m, sess, p, x, h);
    }
    if !entering {
      KidsGrow(m, sess, p, k, x + 1, |m|);
      KidsGrow(m, sess, p, k, 0, x);
      KidsStart(m, sess, p, k);
      OneLess(before, now, o, k);
    }
  }

  lemma KidsStart(m: seq<Proc>, sess: seq<nat>, p: nat, h: nat)
    requires Shaped(m, sess) && h < |m|
    ensures Kids(m, sess, p, h, 0) == 0
  {
  }

  /** The first part of fixjobc: p itself. */
  lemma CountSelf(before: seq<int>, m: seq<Proc>, sess: seq<nat>, p: nat, entering: bool)
    requires Shaped(m, sess) && p < |m| == |before| && Running(m[p])
    requires !entering ==> forall h :: 0 <= h < |m| ==> before[h] >= Share(m, sess, p, h)
    ensures var g := m[p].pgrp;
            if Qualifies(m, sess, p, g) then
              var n := before[g] + Sign(entering);
              Progress(before, before[g := n], if !entering && n == 0 then [g] else [], m, sess, p, entering, 0)
            else Progress(before, before, [], m, sess, p, entering, 0)
  {
    var g := m[p].pgrp;
    if Qualifies(m, sess, p, g) && !entering {
      KidsGrow(m, sess, p, g, 0, |m|);
      OneLess(before, before, [], g);
    }
  }

  /** The process and group tables, and the groups orphanpg was called for. */
  class JobTable {
    var procs: seq<Proc>
    var sess: seq<nat>
    var jobc: seq<int>
    var nextSess: nat
    var orphaned: seq<nat>

    ghost function Now(): State
      reads this
    {
      State(procs, sess, jobc, nextSess)
    }

    /** Count one member in or out; the last one out orphans the group. */
    method Adjust(h: nat, entering: bool)
      requires h < |jobc|
      modifies this`jobc, this`orphaned
      ensures jobc == old(jobc)[h := old(jobc[h]) + Sign(entering)]
      ensures orphaned == old(orphaned) + if !entering && jobc[h] == 0 then [h] else []
    {
      if entering {
        jobc := jobc[h := jobc[h] + 1];
      } else {
        jobc := jobc[h := jobc[h] - 1];
        if jobc[h] == 0 { orphaned := orphaned + [h]; }
      }
    }

    /** fixjobc: the counts as if p were in g, and orphanpg exactly for the counts that end at zero. */
    method Fixjobc(p: nat, g: nat, entering: bool) returns (ghost o: seq<nat>)
      requires Shaped(procs, sess) && |jobc| == |procs| && p < |procs| && g < |procs|
      requires procs[p].parent != p && Running(procs[p])
      requires !entering ==> forall h :: 0 <= h < |procs| ==> jobc[h] >= Share(Moved(procs, p, g), sess, p, h)
      modifies this`jobc, this`orphaned
      ensures jobc == Fix(old(Now()), p, g, entering)
      ensures orphaned == old(orphaned) + o && if entering then o == [] else NewlyZero(old(jobc), jobc, o)
    {
      hide NewlyZero, Kids, Share;
      ghost var m, before := Moved(procs, p, g), jobc;
      var mine := procs[procs[p].parent].pgrp;
      CountSelf(before, m, sess, p, entering);
      o := [];
      if mine != g && sess[mine] == sess[g] {
        Adjust(g, entering);
        o := if !entering && jobc[g] == 0 then [g] else [];
      }
      for x := 0 to |procs|
        invariant |jobc| == |before| && orphaned == old(orphaned) + o
        invariant Progress(before, jobc, o, m, sess, p, entering, x)
      {
        if procs[x].parent == p && Running(procs[x]) && procs[x].pgrp != g && sess[procs[x].pgrp] == sess[g] {
          CountKid(before, jobc, o, m, sess, p, entering, x);
          Adjust(procs[x].pgrp, entering);
          if !entering && jobc[procs[x].pgrp] == 0 { o := o + [procs[x].pgrp]; }
        } else {
          SkipKid(before, jobc, o, m, sess, p, entering, x);
        }
      }
      FixDone(old(Now()), p, g, entering, jobc, o);
    }

    method Populated(g: nat) returns (found: bool)
      ensures found <==> HasMembers(procs, g)
    {
      for x := 0 to |procs|
        invariant forall y :: 0 <= y < x ==> procs[y].stat.Free? || procs[y].pgrp != g
      {
        if !procs[x].stat.Free? && procs[x].pgrp == g { return true; }
      }
      return false;
    }

    /** enterpgrp. orphanpg is called once for each group that loses its last qualifying member in
        the move, and for no other, although counts go up and down on the way. */
    method EnterGroup(p: nat, g: nat, mksess: bool) returns (ghost o: seq<nat>)
      requires Exact(Now()) && Family(Now()) && 0 < p < |procs| && g < |procs| && Running(procs[p])
      modifies this
      ensures Exact(Now()) && Family(Now()) && Now() == Enterpgrp(old(Now()), p, g, mksess)
      ensures Entered(old(Now()), Now(), p, g, mksess)
      ensures orphaned == old(orphaned) + o && |jobc| == |old(jobc)| && NewlyZero(old(jobc), jobc, o)
    {
      hide Count, Fix, Share, NewlyZero, Family, Qualifies, Entered;
      ghost var s := Now();
      EnterExact(s, p, g, mksess);
      EnterMoves(s, p, g, mksess);
      MoveFacts(s, p);
      var found := Populated(g);
      if !found {
        sess := sess[g := if mksess then nextSess else sess[procs[p].pgrp]];
        if mksess { nextSess := nextSess + 1; }
        jobc := jobc[g := 0];
        NewGroupExact(s, p, g, mksess);
        assert Now() == NewGroup(s, p, g, mksess);
        Unpopulated(s, g);
      } else if g == procs[p].pgrp {
        NoneZero(jobc);
        o := [];
        return;
      }
      assert jobc == s.jobc;
      o := Move(p, g);
    }

    /** Both calls of fixjobc, and the move itself. */
    method Move(p: nat, g: nat) returns (ghost o: seq<nat>)
      requires Exact(Now()) && Family(Now()) && 0 < p < |procs| && g < |procs| && Running(procs[p])
      modifies this`procs, this`jobc, this`orphaned
      ensures Now() == Switch(old(Now()), p, g)
      ensures orphaned == old(orphaned) + o && |jobc| == |old(jobc)| && NewlyZero(old(jobc), jobc, o)
    {
      hide Count, Kids, Fix, NewlyZero, Qualifies;
      ghost var s := Now();
      o := Fixjobc(p, g, true);
      ghost var mid := jobc;
      assert Moved(procs, p, procs[p].pgrp) == procs;
      MidCounts(s, p, g);
      o := Fixjobc(p, procs[p].pgrp, false);
      FixMeans(s.(jobc := mid), p, procs[p].pgrp, false, 0);
      SameZero(s, p, g, o);
      procs := procs[p := procs[p].(pgrp := g)];
    }

    method ForkChild(p: nat, x: nat)
      requires Exact(Now()) && Family(Now()) && Enabled(Now(), Event.ForkChild(p, x))
      modifies this`procs
      ensures Exact(Now()) && Family(Now()) && Now() == Step(old(Now()), Event.ForkChild(p, x))
      ensures Stepped(old(Now()), Now(), Event.ForkChild(p, x))
    {
      hide Count;
      QuietStep(Now(), Event.ForkChild(p, x));
      procs := procs[x := Proc(Live, p, procs[p].pgrp)];
    }

    /** The job-control part of exit1: the group's count, then the children go to init. */
    method ExitProc(p: nat, init: nat) returns (ghost o: seq<nat>)
      requires Exact(Now()) && Family(Now()) && CanExit(Now(), p, init)
      modifies this`procs, this`jobc, this`orphaned
      ensures Now() == Exit(old(Now()), p, init) && Family(Now()) && (Exact(Now()) <==> CleanExit(old(Now()), p, init))
      ensures sess == old(sess) && |procs| == |old(procs)| && forall x :: 0 <= x < |procs| ==>
                procs[x].pgrp == old(procs)[x].pgrp &&
                procs[x].stat == (if x == p then Zombie else old(procs)[x].stat) &&
                procs[x].parent == if old(procs)[x].parent == p then init else old(procs)[x].parent
      ensures orphaned == old(orphaned) + o && |jobc| == |old(jobc)| && NewlyZero(old(jobc), jobc, o)
    {
      hide Count, Kids, Fix, NewlyZero, Qualifies, Family, Exact;
      ghost var s := Now();
      ExactShape(s);
      ExitExact(s, p, init);
      MoveFacts(s, p);
      assert Moved(procs, p, procs[p].pgrp) == procs;
      o := Fixjobc(p, procs[p].pgrp, false);
      FixMeans(s, p, procs[p].pgrp, false, 0);
      procs := procs[p := procs[p].(stat := Zombie)];
      AdoptChildren(p, init);
    }

    method AdoptChildren(p: nat, init: nat)
      modifies this`procs
      ensures procs == Adopt(old(procs), p, init)
    {
      ghost var z := procs;
      for x := 0 to |procs|
        invariant |procs| == |z|
        invariant forall y :: 0 <= y < |z| ==>
                  procs[y] == if y < x && z[y].parent == p then z[y].(parent := init) else z[y]
      {
        if procs[x].parent == p {
          procs := procs[x := procs[x].(parent := init)];
        }
      }
    }
  }

  lemma ExactShape(s: State)
    requires Exact(s)
    ensures Shaped(s.procs, s.sess) && |s.jobc| == |s.procs|
  {
  }

  /** What the callers of fixjobc know about p: no count is below p's and its children's part. */
  lemma MoveFacts(s: State, p: nat)
    requires Exact(s) && Family(s) && 0 < p < |s.procs|
    ensures s.procs[p].parent != p
    ensures forall h :: 0 <= h < |s.procs| ==> 0 <= Share(s.procs, s.sess, p, h) <= s.jobc[h]
  {
    hide Count, Kids, Qualifies;
    forall h | 0 <= h < |s.procs|
      ensures 0 <= Share(s.procs, s.sess, p, h) <= s.jobc[h]
    {
      ShareBound(s.procs, s.sess, p, h, |s.procs|);
    }
  }

  lemma MidCounts(s: State, p: nat, g: nat)
    requires Exact(s) && Family(s) && 0 < p < |s.procs| && g < |s.procs|
    ensures |Fix(s, p, g, true)| == |s.jobc|
    ensures forall h :: 0 <= h < |s.procs| ==> Fix(s, p, g, true)[h] >= s.jobc[h] >= Share(s.procs, s.sess, p, h)
  {
    hide Count, Kids, Fix, Qualifies;
    MoveFacts(s, p);
    FixMeans(s, p, g, true, 0);
    forall h | 0 <= h < |s.procs|
      ensures Fix(s, p, g, true)[h] >= s.jobc[h]
    {
      FixMeans(s, p, g, true, h);
      ShareBound(Moved(s.procs, p, g), s.sess, p, h, |s.procs|);
    }
  }

  /** A count that the move raises and lowers again is zero afterwards only if it lost somebody it had
      counted before. */
  lemma SameZero(s: State, p: nat, g: nat, o: seq<nat>)
    requires Exact(s) && Family(s) && 0 < p < |s.procs| && g < |s.procs|
    requires |Fix(s, p, g, true)| == |Switch(s, p, g).jobc| == |s.jobc| &&
             NewlyZero(Fix(s, p, g, true), Switch(s, p, g).jobc, o)
    ensures NewlyZero(s.jobc, Switch(s, p, g).jobc, o)
  {
    hide Count, Kids, Fix, Qualifies;
    MidCounts(s, p, g);
    MoveFacts(s, p);
    var t := s.(jobc := Fix(s, p, g, true));
    assert Moved(s.procs, p, s.procs[p].pgrp) == s.procs;
    forall h | 0 <= h < |s.jobc|
      ensures Fix(s, p, g, true)[h] > 0 && Switch(s, p, g).jobc[h] == 0 <==>
              s.jobc[h] > 0 && Switch(s, p, g).jobc[h] == 0
    {
      FixMeans(t, p, s.procs[p].pgrp, false, h);
    }
  }

  lemma Unpopulated(s: State, g: nat)
    requires Exact(s) && g < |s.procs| && !HasMembers(s.procs, g)
    ensures s.jobc[g] == 0 && s.jobc[g := 0] == s.jobc
  {
    CountZero(s.procs, s.sess, g, |s.procs|);
  }

  lemma NoneZero(a: seq<int>)
    ensures NewlyZero(a, a, [])
  {
  }

  lemma FixDone(s: State, p: nat, g: nat, entering: bool, now: seq<int>, o: seq<nat>)
    requires Shaped(s.procs, s.sess) && |s.jobc| == |s.procs| && p < |s.procs| && g < |s.procs|
    requires Shaped(Moved(s.procs, p, g), s.sess) &&
             Progress(s.jobc, now, o, Moved(s.procs, p, g), s.sess, p, entering, |s.procs|)
    ensures now == Fix(s, p, g, entering)
  {
    hide NewlyZero, Kids, Qualifies;
  }
}
