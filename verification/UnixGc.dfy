/** The Unix-domain descriptor garbage collector: unp_gc with its mark and sweep phases, and the
    closes, flushes, sends and receives around it, as methods over one file table. */
module UnixGc {
  import opened UnixRights
  import opened UnixSleep

  // ---------- the mark phase ----------

  /** u differs from t only in FMARK and FDEFER. */
  ghost predicate Flagged(t: Table, u: Table) {
    && |u| == |t|
    && (forall i :: 0 <= i < |t| ==> u[i] == t[i].(mark := u[i].mark, defer := u[i].defer))
  }

  function Deferred(t: Table): set<nat> { set i | 0 <= i < |t| && t[i].defer }

  function Unmarked(t: Table): set<nat> { set i | 0 <= i < |t| && !t[i].mark }

  lemma FlagsKeep(t: Table, u: Table)
    requires Flagged(t, u)
    ensures SameRights(t, u)
    ensures forall i :: Reachable(t, i) <==> Reachable(u, i)
  {
    QueuesKeep(t, u);
    forall i | Reachable(t, i) ensures Reachable(u, i) {
      var p :| IsPath(t, p) && p[|p| - 1] == i;
      FewerPaths(u, t, p);
    }
    forall i | Reachable(u, i) ensures Reachable(t, i) {
      var p :| IsPath(u, p) && p[|p| - 1] == i;
      FewerPaths(t, u, p);
    }
  }

  /** r holds the roots, is closed under rights, and is all live. */
  ghost predicate Covers(t: Table, r: set<nat>) {
    && (forall i :: i in r ==> i < |t| && t[i].count != 0)
    && (forall i: nat :: i < |t| && Root(t, i) ==> i in r)
    && (forall i :: i in r ==> AllIn(r, Scan(t[i].rcv)))
  }

  ghost predicate AllIn(r: set<nat>, fs: seq<nat>) { forall k :: 0 <= k < |fs| ==> fs[k] in r }

  ghost predicate AllMarked(u: Table, fs: seq<nat>) {
    forall k :: 0 <= k < |fs| ==> fs[k] < |u| && u[fs[k]].mark
  }

  /** Between two files of a mark pass over t: only files of r are marked, deferral is counted,
      and a marked file that is not deferred has had its queue scanned. */
  ghost predicate Marking(t: Table, r: set<nat>, u: Table, defer: int) {
    && Flagged(t, u)
    && defer == |Deferred(u)|
    && (forall i :: 0 <= i < |u| && u[i].mark ==> i in r)
    && (forall i :: 0 <= i < |u| && u[i].defer ==> u[i].mark)
  }

  ghost predicate Scanned(t: Table, u: Table, except: int) {
    |u| == |t| &&
    forall i :: 0 <= i < |u| && u[i].mark && !u[i].defer && i != except ==> AllMarked(u, Scan(t[i].rcv))
  }

  /** Marks only grow, and a file deferred now was either deferred or unmarked before. */
  ghost predicate Grown(u: Table, v: Table) {
    && |v| == |u|
    && (forall i :: 0 <= i < |u| && u[i].mark ==> v[i].mark)
    && (forall i :: 0 <= i < |u| && v[i].defer ==> u[i].defer || !u[i].mark)
  }

  lemma MarkOne(t: Table, r: set<nat>, u: Table, defer: int, f: nat, except: int)
    requires Marking(t, r, u, defer) && Scanned(t, u, except) && f < |u| && f in r && !u[f].mark
    ensures var v := u[f := u[f].(mark := true, defer := true)];
            Marking(t, r, v, defer + 1) && Scanned(t, v, except) && Grown(u, v)
  {
    hide Scan;
    var v := u[f := u[f].(mark := true, defer := true)];
    assert Deferred(v) == Deferred(u) + {f};
  }

  lemma ClearOne(t: Table, r: set<nat>, u: Table, defer: int, f: nat)
    requires Marking(t, r, u, defer) && Scanned(t, u, -1) && f < |u| && u[f].defer
    ensures var v := u[f := u[f].(defer := false)];
            Marking(t, r, v, defer - 1) && Scanned(t, v, f) && Grown(u, v)
  {
    var v := u[f := u[f].(defer := false)];
    assert Deferred(v) == Deferred(u) - {f};
  }

  lemma RootOne(t: Table, r: set<nat>, u: Table, defer: int, f: nat)
    requires Marking(t, r, u, defer) && Scanned(t, u, -1) && f < |u| && f in r && !u[f].mark && !u[f].defer
    ensures var v := u[f := u[f].(mark := true)];
            Marking(t, r, v, defer) && Scanned(t, v, f) && Grown(u, v)
  {
    var v := u[f := u[f].(mark := true)];
    assert Deferred(v) == Deferred(u);
  }

  // ---------- the sweep ----------

  ghost predicate IsGarbage(t: Table, g: set<nat>) { forall i: nat :: i in g <==> Garbage(t, i) }

  /** u is t with one more reference to each file of g. */
  ghost predicate Boosted(t: Table, u: Table, g: set<nat>) {
    && |u| == |t|
    && (forall i :: 0 <= i < |t| ==> u[i] == t[i].(count := t[i].count + if i in g then 1 else 0))
  }

  /** In the sweep, files outside the garbage g keep their references and queues. */
  ghost predicate Sweeping(t: Table, u: Table, g: set<nat>) {
    && |u| == |t|
    && (forall i :: 0 <= i < |t| ==> u[i].kind == t[i].kind)
    && (forall i :: i in g ==> i < |t| && (u[i].rcv == t[i].rcv || u[i].rcv == []))
    && (forall i :: 0 <= i < |t| && i !in g ==> Held(u[i]) == Held(t[i]) && u[i].rcv == t[i].rcv)
  }

  /** What a collection leaves: reachable files keep their messages and stay reachable, the
      others lose theirs, and a garbage file keeps only what a flush under way still holds. */
  ghost predicate Collected(t: Table, u: Table, limbo: seq<nat>) {
    && |u| == |t|
    && (forall i: nat :: i < |t| && Reachable(t, i) ==> u[i].rcv == t[i].rcv && Reachable(u, i))
    && (forall i: nat :: Garbage(t, i) ==> u[i].rcv == [] && u[i].count == Occ(limbo, i))
    && (forall i: nat :: i < |t| && t[i].count == 0 ==> u[i].count == 0)
  }

  ghost predicate Lists(extra: seq<nat>, g: set<nat>) {
    && (forall k :: 0 <= k < |extra| ==> extra[k] in g)
    && (forall i :: i in g ==> i in extra)
  }

  /** Everything still open is reachable, or held by a flush under way. */
  ghost predicate NoGarbage(t: Table, limbo: seq<nat>) {
    forall i: nat :: Garbage(t, i) ==> t[i].count == Occ(limbo, i)
  }

  lemma CollectedAll(t: Table, u: Table, limbo: seq<nat>)
    requires Collected(t, u, limbo)
    ensures NoGarbage(u, limbo)
  {
    hide Reachable;
    forall i: nat | Garbage(u, i) ensures u[i].count == Occ(limbo, i) {
      assert Garbage(t, i);
    }
  }

  lemma MarkDecides(t: Table, g: set<nat>, i: nat)
    requires IsGarbage(t, g) && i < |t| && (t[i].mark <==> Reachable(t, i))
    ensures i in g <==> t[i].count != 0 && t[i].count == t[i].msgcount && !t[i].mark
  {
    if i in g { GarbageUnheld(t, i); }
  }

  lemma BoostedAccounted(t: Table, u: Table, g: set<nat>, limbo: seq<nat>)
    requires Accounted(t, limbo, -1) && Boosted(t, u, g) && IsGarbage(t, g)
    ensures Accounted(u, limbo, -1) && SameRights(t, u)
    ensures Sweeping(t, u, g) && forall i :: i in g ==> Held(u[i]) == 1
  {
    hide Reachable, Refs;
    QueuesKeep(t, u);
    forall i | i in g ensures Held(u[i]) == 1 { GarbageUnheld(t, i); }
  }

  lemma FlagsAccounted(t: Table, u: Table, limbo: seq<nat>)
    requires Accounted(t, limbo, -1) && Flagged(t, u)
    ensures Accounted(u, limbo, -1) && SameRights(t, u)
    ensures forall i: nat :: Reachable(t, i) <==> Reachable(u, i)
  {
    hide Reachable, Refs;
    FlagsKeep(t, u);
  }

  lemma GarbageSet(t0: Table, t: Table) returns (g: set<nat>)
    requires Flagged(t0, t) && forall i: nat :: Reachable(t0, i) <==> Reachable(t, i)
    ensures IsGarbage(t, g) && IsGarbage(t0, g)
  {
    hide Reachable;
    g := set i: nat | i < |t| && Garbage(t, i);
  }

  /** One step of the sweep cannot hurt a reachable file, whatever it closes on the way. */
  lemma SweepStep(t: Table, g: set<nat>, u: Table, v: Table, limbo: seq<nat>)
    requires IsGarbage(t, g) && Accounted(t, limbo, -1) && Accounted(v, limbo, -1)
    requires Sweeping(t, u, g) && Settled(u, v)
    requires forall i :: 0 <= i < |t| && i !in g ==> Held(v[i]) == Held(t[i])
    ensures Sweeping(t, v, g)
    ensures forall i :: i in g ==> v[i].rcv == [] || v[i].rcv == u[i].rcv
    ensures forall i :: i in g && Held(v[i]) >= 1 ==> v[i].rcv == u[i].rcv
  {
    hide Reachable, Refs, Total, Occ, IsPath;
    assert Sane(t) && Sane(v);
    forall i | i in g ensures Held(t[i]) == 0 { GarbageUnheld(t, i); }
    forall i: nat | i < |t| && Reachable(t, i) ensures Reachable(v, i) {
      StillReachable(t, v, i, g);
    }
    forall i | i in g && Held(v[i]) >= 1 ensures v[i].rcv == u[i].rcv {
      assert Root(v, i);
      RootReachable(v, i);
    }
  }

  /** No queue left after the sweep holds a right to garbage. */
  lemma GarbageUnreferenced(t: Table, u: Table, g: set<nat>, i: nat)
    requires IsGarbage(t, g) && Sweeping(t, u, g) && i in g
    requires forall j :: 0 <= j < |t| && t[j].count == 0 ==> t[j].rcv == []
    requires forall j :: j in g ==> u[j].rcv == []
    ensures Refs(u, i) == 0
  {
    hide Reachable;
    if Refs(u, i) > 0 {
      var j := RefsSource(u, i);
      assert j !in g && Reachable(t, j) && Edge(t, j, i);
      EdgeReachable(t, j, i);
    }
  }

  lemma SweepDone(t0: Table, t: Table, g: set<nat>, u: Table, limbo: seq<nat>)
    requires Flagged(t0, t) && IsGarbage(t, g) && IsGarbage(t0, g)
    requires Accounted(t, limbo, -1) && Accounted(u, limbo, -1)
    requires Sweeping(t, u, g) && forall i :: i in g ==> Held(u[i]) == 0 && u[i].rcv == []
    requires forall i: nat :: Reachable(t0, i) <==> Reachable(t, i)
    ensures SameHeld(t0, u) && Settled(t0, u) && Collected(t0, u, limbo)
  {
    hide Reachable, IsPath, Refs, Total, Occ, Accounted;
    AccountedSane(t, limbo, -1);
    AccountedSane(u, limbo, -1);
    forall i | i in g ensures Held(t[i]) == 0 { GarbageUnheld(t, i); }
    assert SameHeld(t, u);
    forall i: nat | i < |t| && Reachable(t, i) ensures Reachable(u, i) { StillReachable(t, u, i, g); }
    forall i: nat | i < |t| && Reachable(u, i) ensures i !in g { ReachableBefore(t, u, i); }
    SweptCounts(t, g, u, limbo);
  }

  lemma SweptCounts(t: Table, g: set<nat>, u: Table, limbo: seq<nat>)
    requires IsGarbage(t, g) && Accounted(t, limbo, -1) && Accounted(u, limbo, -1)
    requires Sweeping(t, u, g) && SameHeld(t, u) && forall i :: i in g ==> Held(u[i]) == 0 && u[i].rcv == []
    ensures forall i :: i in g ==> u[i].count == Occ(limbo, i)
    ensures forall i :: 0 <= i < |t| ==> u[i].count <= t[i].count
  {
    hide Reachable, IsPath, Garbage, IsGarbage, Refs, Occ;
    forall i: nat ensures Refs(u, i) <= Refs(t, i) { RefsFewer(t, u, i); }
    forall i: nat | i in g ensures u[i].count == Occ(limbo, i) { GarbageUnreferenced(t, u, g, i); }
  }

  /** A swept file whose queue, like all the garbage's, is empty has its extra reference and the rights
      that a flush under way has not given up yet. */
  lemma LastIff(t: Table, g: set<nat>, u: Table, limbo: seq<nat>, i: nat)
    requires IsGarbage(t, g) && Accounted(t, limbo, -1) && Accounted(u, limbo, -1) && i in g
    requires Sweeping(t, u, g) && Held(u[i]) == 1 && forall j :: j in g ==> u[j].rcv == []
    ensures u[i].count == 1 + Occ(limbo, i) && (u[i].count == 1 <==> i !in limbo)
  {
    hide Reachable, IsPath, Garbage, IsGarbage, Refs, Occ;
    AccountedSane(t, limbo, -1);
    GarbageUnreferenced(t, u, g, i);
    OccZero(limbo, i);
  }

  lemma SweptOnce(t: Table, g: set<nat>, u: Table, limbo: seq<nat>)
    requires IsGarbage(t, g) && Accounted(t, limbo, -1) && Accounted(u, limbo, -1)
    requires Sweeping(t, u, g) && forall i :: i in g ==> Held(u[i]) == 1 && u[i].rcv == []
    ensures forall i :: i in g ==> u[i].count == 1 + Occ(limbo, i)
  {
    hide Accounted, Reachable, Garbage, IsGarbage, Refs, Occ;
    forall i: nat | i in g ensures u[i].count == 1 + Occ(limbo, i) { LastIff(t, g, u, limbo, i); }
  }

  lemma ReachableBefore(t: Table, u: Table, i: nat)
    requires |u| == |t| && forall i :: 0 <= i < |t| && Root(u, i) ==> Root(t, i)
    requires forall i :: 0 <= i < |t| ==> u[i].rcv == t[i].rcv || u[i].rcv == []
    requires Reachable(u, i)
    ensures Reachable(t, i)
  {
    var p :| IsPath(u, p) && p[|p| - 1] == i;
    FewerPaths(t, u, p);
  }

  lemma BadCasts(t0: Table, t: Table, g: set<nat>, u: Table, extra: seq<nat>)
    requires Flagged(t0, t) && IsGarbage(t0, g) && Sweeping(t, u, g)
    requires Lists(extra, g)
    ensures (exists k :: 0 <= k < |extra| && u[extra[k]].kind.NoSocket?) <==>
            (exists i: nat :: Garbage(t0, i) && t0[i].kind.NoSocket?)
  {
    hide Reachable;
    if k :| 0 <= k < |extra| && u[extra[k]].kind.NoSocket? {
      assert extra[k] in g;
    }
    if i: nat :| Garbage(t0, i) && t0[i].kind.NoSocket? {
      assert i in extra;
      var k :| 0 <= k < |extra| && extra[k] == i;
    }
  }

  lemma StillReachable(t: Table, u: Table, i: nat, g: set<nat>)
    requires |u| == |t| && Sane(t) && Sane(u)
    requires forall i :: 0 <= i < |t| ==> Held(u[i]) >= Held(t[i])
    requires forall i :: 0 <= i < |t| && i !in g && Reachable(u, i) ==> u[i].rcv == t[i].rcv
    requires forall i :: i in g ==> !Reachable(t, i)
    requires Reachable(t, i)
    ensures Reachable(u, i)
  {
    var p :| IsPath(t, p) && p[|p| - 1] == i;
    PathStays(t, u, p, g);
  }

  /** The sweep does meet files that are not sockets: a vnode whose only reference is in flight on
      a socket that holds a right to itself. */
  lemma BadCastHappens() returns (t: Table, i: nat)
    ensures Accounted(t, [], -1) && Garbage(t, i) && t[i].kind.NoSocket?
  {
    var s := File(1, 1, false, false, UnixSocket, [[Control(true, [0, 1])]]);
    var v := File(1, 1, false, false, NoSocket, []);
    t, i := [s, v], 1;
    ScanOne([Control(true, [0, 1])]);
    assert Scan(v.rcv) == [];
    forall f: nat ensures Refs(t, f) == if f <= 1 then 1 else 0 {
      RefsTwo(s, v, f);
      OccConcat([0], [1], f);
      assert [0, 1] == [0] + [1] && [0][1..] == [] && [1][1..] == [];
    }
    hide Refs, Scan;
  }

  lemma ReachSet(t: Table, limbo: seq<nat>) returns (r: set<nat>)
    requires Accounted(t, limbo, -1)
    ensures Covers(t, r) && forall i :: 0 <= i < |t| ==> (i in r <==> Reachable(t, i))
  {
    r := set i: nat | i < |t| && Reachable(t, i);
    forall i | i in r ensures t[i].count != 0 { ReachableAlive(t, limbo, -1, i); }
    forall i: nat | i < |t| && Root(t, i) ensures i in r { RootReachable(t, i); }
    forall i | i in r ensures AllIn(r, Scan(t[i].rcv)) {
      forall k | 0 <= k < |Scan(t[i].rcv)| ensures Scan(t[i].rcv)[k] in r {
        var j := Scan(t[i].rcv)[k];
        assert Edge(t, i, j);
        EdgeReachable(t, i, j);
        EdgeAlive(t, limbo, -1, i, j);
      }
    }
  }

  ghost predicate Cleared(t: Table) { forall i :: 0 <= i < |t| ==> !t[i].mark && !t[i].defer }

  lemma QueuesOfSockets(t: Table, limbo: seq<nat>)
    requires Accounted(t, limbo, -1)
    ensures forall i :: 0 <= i < |t| ==> t[i].kind.UnixSocket? || t[i].rcv == []
  {
    hide Refs, Occ;
    AccountedSane(t, limbo, -1);
  }

  /** Before the first pass nothing is marked or deferred. */
  lemma ClearedMarking(t: Table, r: set<nat>, u: Table)
    requires Flagged(t, u) && Cleared(u)
    ensures Marking(t, r, u, 0) && Scanned(t, u, -1)
  {
    assert Deferred(u) == {};
  }

  /** A pass that leaves something deferred has marked something. */
  lemma Shrinks(t: Table, r: set<nat>, u: Table, v: Table, defer: int)
    requires Marking(t, r, v, defer) && Grown(u, v) && forall i :: 0 <= i < |v| && v[i].defer ==> !u[i].mark
    ensures Unmarked(v) <= Unmarked(u) && (defer != 0 ==> Unmarked(v) < Unmarked(u))
  {
    if defer != 0 {
      var d :| d in Deferred(v);
      assert d in Unmarked(u) && d !in Unmarked(v);
    }
  }

  lemma MarkedIn(t: Table, r: set<nat>, u: Table)
    requires Marking(t, r, u, 0)
    ensures Flagged(t, u) && |u| == |t| && forall i :: 0 <= i < |u| && u[i].mark ==> i in r
  {
  }

  lemma Covered(t: Table, r: set<nat>, u: Table)
    requires Marking(t, r, u, 0) && Scanned(t, u, -1) && forall i :: 0 <= i < |u| && Root(t, i) ==> u[i].mark
    ensures forall i :: 0 <= i < |u| && Reachable(t, i) ==> u[i].mark
    ensures forall i :: 0 <= i < |u| ==> !u[i].defer
  {
    assert Deferred(u) == {};
    forall i | 0 <= i < |u| ensures !u[i].defer { assert i !in Deferred(u); }
    var s := set i: nat | i < |u| && u[i].mark;
    forall i, j | i in s && Edge(t, i, j) ensures j in s {
      assert AllMarked(u, Scan(t[i].rcv));
    }
    forall i | 0 <= i < |u| && Reachable(t, i) ensures u[i].mark {
      var p :| IsPath(t, p) && p[|p| - 1] == i;
      ClosedCovers(t, s, p);
    }
  }

  class FileTable {
    var files: Table
    var defer: int
    var rights: int
    var gcing: bool
    /** Set when the sweep treats a file that is no socket as one. What the kernel does then is
        not defined: every operation stops there, and nothing is claimed about the table. */
    var badCast: bool
    ghost var limbo: seq<nat>

    /** Every reference is accounted for, and unp_rights counts the rights in flight. */
    ghost predicate Valid(ex: int)
      reads this
    {
      Accounted(files, limbo, ex) && rights == Total(files) + |limbo|
    }

    method UnpMark(f: nat)
      requires f < |files|
      modifies this`files, this`defer
      ensures files == if old(files)[f].mark then old(files)
                       else old(files)[f := old(files)[f].(mark := true, defer := true)]
      ensures defer == old(defer) + if old(files)[f].mark then 0 else 1
    {
      if files[f].mark { return; }
      defer := defer + 1;
      files := files[f := files[f].(mark := true, defer := true)];
    }

    /** The files of the first rights message of a record. */
    static method ScanRecord(r: Record) returns (fs: seq<nat>)
      ensures fs == FirstRights(r) && OfFirstRights(r, fs)
    {
      FirstRightsFound(r);
      hide OfFirstRights;
      var m := r;
      while m != []
        invariant FirstRights(m) == FirstRights(r)
      {
        if m[0].Control? && m[0].scmRights { return m[0].files; }
        m := m[1..];
      }
      return [];
    }

    /** The files unp_scan applies its operation to, in order: for each record, in its place, those of
        its first rights message. */
    static method UnpScan(q: seq<Record>) returns (fs: seq<nat>)
      ensures fs == Scan(q)
      ensures VisitedBefore(q, 0) == 0 && VisitedBefore(q, |q|) == |fs| && forall i: nat :: i < |q| ==> Visits(q, fs, i)
    {
      hide OfFirstRights;
      forall i: nat | i < |q| ensures Visits(q, Scan(q), i) { ScanSlice(q, i); }
      assert q[..|q|] == q;
      hide FirstRights;
      fs := [];
      var m0 := q;
      while m0 != []
        invariant fs + Scan(m0) == Scan(q)
      {
        var rp := ScanRecord(m0[0]);
        assert fs + (rp + Scan(m0[1..])) == (fs + rp) + Scan(m0[1..]);
        fs := fs + rp;
        m0 := m0[1..];
      }
      assert fs + Scan(m0) == fs;
    }

    /** unp_scan with unp_mark over the queue of file i. */
    method MarkRights(ghost t: Table, ghost r: set<nat>, i: nat)
      requires Covers(t, r) && Marking(t, r, files, defer) && Scanned(t, files, i)
      requires i < |files| && files[i].mark && !files[i].defer
      modifies this`files, this`defer
      ensures Marking(t, r, files, defer) && Scanned(t, files, -1) && Grown(old(files), files)
      ensures files[i].mark && !files[i].defer
    {
      ghost var u := files;
      var fs := UnpScan(files[i].rcv);
      for k := 0 to |fs|
        invariant Marking(t, r, files, defer) && Scanned(t, files, i) && Grown(u, files)
        invariant files[i].mark && !files[i].defer
        invariant forall j :: 0 <= j < k ==> fs[j] < |files| && files[fs[j]].mark
      {
        assert AllIn(r, Scan(t[i].rcv));
        if !files[fs[k]].mark { MarkOne(t, r, files, defer, fs[k], i); }
        UnpMark(fs[k]);
      }
    }

    /** One file's turn in a pass: clear its deferral or mark it as a root, then mark what its
        queue holds. */
    method MarkFile(ghost t: Table, ghost r: set<nat>, i: nat)
      requires Covers(t, r) && Marking(t, r, files, defer) && Scanned(t, files, -1) && i < |files|
      requires t[i].kind.UnixSocket? || t[i].rcv == []
      modifies this`files, this`defer
      ensures Marking(t, r, files, defer) && Scanned(t, files, -1) && Grown(old(files), files)
      ensures Root(t, i) ==> files[i].mark
      ensures files[i].defer ==> !old(files)[i].mark
    {
      if files[i].count == 0 { return; }
      if files[i].defer {
        ClearOne(t, r, files, defer, i);
        files := files[i := files[i].(defer := false)];
        defer := defer - 1;
      } else {
        if files[i].mark { return; }
        if files[i].count == files[i].msgcount { return; }
        RootOne(t, r, files, defer, i);
        files := files[i := files[i].(mark := true)];
      }
      if !files[i].kind.UnixSocket? { return; }
      MarkRights(t, r, i);
    }

    method MarkPass(ghost t: Table, ghost r: set<nat>)
      requires Covers(t, r) && Marking(t, r, files, defer) && Scanned(t, files, -1)
      requires forall i :: 0 <= i < |t| ==> t[i].kind.UnixSocket? || t[i].rcv == []
      modifies this`files, this`defer
      ensures Marking(t, r, files, defer) && Scanned(t, files, -1) && Grown(old(files), files)
      ensures forall i :: 0 <= i < |files| && Root(t, i) ==> files[i].mark
      ensures forall i :: 0 <= i < |files| && files[i].defer ==> !old(files)[i].mark
    {
      ghost var u := files;
      for i := 0 to |files|
        invariant Marking(t, r, files, defer) && Scanned(t, files, -1) && Grown(u, files)
        invariant forall j :: 0 <= j < i && Root(t, j) ==> files[j].mark
        invariant forall j :: 0 <= j < i && files[j].defer ==> !u[j].mark
      {
        MarkFile(t, r, i);
      }
    }

    /** The first loop of unp_gc. */
    method ClearFlags()
      modifies this`files
      ensures Flagged(old(files), files) && Cleared(files)
    {
      ghost var t := files;
      for i := 0 to |files|
        invariant Flagged(t, files)
        invariant forall j :: 0 <= j < i ==> !files[j].mark && !files[j].defer
      {
        files := files[i := files[i].(mark := false, defer := false)];
      }
    }

    /** The mark loop ends with FMARK on exactly the reachable files and nothing deferred. */
    method MarkPhase()
      requires Accounted(files, limbo, -1)
      modifies this`files, this`defer
      ensures Flagged(old(files), files) && defer == 0
      ensures forall i :: 0 <= i < |files| ==> (files[i].mark <==> Reachable(old(files), i)) && !files[i].defer
    {
      hide Reachable, Refs, Occ, Total, Scanned, Covers, Unmarked, Accounted, Scan;
      ghost var t := files;
      ghost var r := ReachSet(t, limbo);
      QueuesOfSockets(t, limbo);
      ClearFlags();
      defer := 0;
      ClearedMarking(t, r, files);
      var again := true;
      while again
        invariant Marking(t, r, files, defer) && Scanned(t, files, -1)
        invariant !again ==> defer == 0 && forall i :: 0 <= i < |files| && Root(t, i) ==> files[i].mark
        decreases Unmarked(files), again
      {
        ghost var u := files;
        MarkPass(t, r);
        again := defer != 0;
        Shrinks(t, r, u, files, defer);
      }
      Covered(t, r, files);
      MarkedIn(t, r, files);
    }

    // ---------- closing ----------

    /** Drop one reference; on the last one a Unix socket is detached, which flushes its queue
        and, while rights are in flight anywhere, collects garbage. */
    method Closef(f: nat)
      requires !badCast && Valid(-1) && f < |files| && Held(files[f]) >= 1
      modifies this
      ensures old(gcing) ==> !badCast
      ensures old(gcing) ==> SameMarks(old(files), files)
      ensures !badCast ==> Valid(-1) && limbo == old(limbo) && gcing == old(gcing) && rights <= old(rights)
      ensures !badCast ==>
              Settled(old(files), files) && |files| == |old(files)| &&
              Held(files[f]) == old(Held(files[f])) - 1
      ensures !badCast ==> forall i :: 0 <= i < |files| && i != f ==> Held(files[i]) == old(Held(files[i]))
      ensures !badCast && !gcing && old(files[f].count == 1 && files[f].kind.UnixSocket? && rights != 0) ==>
              NoGarbage(files, limbo)
      decreases rights, !gcing, 4
    {
      hide Accounted, Reachable, Refs, Total, Occ, NoGarbage;
      AccountedSane(files, limbo, -1);
      DropRef(files, limbo, f);
      files := files[f := files[f].(count := files[f].count - 1)];
      if files[f].count > 0 { return; }
      AccountedSane(files, limbo, f);
      if files[f].kind.UnixSocket? {
        LastClose(f);
      }
    }

    /** PRU_DETACH and sofree on the socket of a file whose last reference is gone. */
    method LastClose(f: nat)
      requires !badCast && f < |files| && files[f].count == 0 && Valid(f)
      modifies this
      ensures old(gcing) ==> !badCast
      ensures old(gcing) ==> SameMarks(old(files), files)
      ensures !badCast ==> Valid(-1) && limbo == old(limbo) && gcing == old(gcing) && rights <= old(rights)
      ensures !badCast ==> Settled(old(files), files) && SameHeld(old(files), files)
      ensures !badCast && !gcing && old(rights) != 0 ==> NoGarbage(files, limbo)
      decreases rights, !gcing, 3
    {
      hide Accounted, Reachable, Refs, Total, Occ, NoGarbage;
      if rights != 0 {
        FlushDead(f);
        if badCast { return; }
        ghost var t := files;
        Gc();
        if badCast { return; }
        SettledTransitive(old(files), t, files, limbo, limbo);
        AccountedSane(files, limbo, -1);
        if !gcing { CollectedAll(t, files, limbo); }
      }
      ghost var u := files;
      ghost var detached := old(rights) != 0;
      FlushDead(f);
      if badCast { return; }
      if detached { SettledTransitive(old(files), u, files, limbo, limbo); }
    }

    method FlushDead(f: nat)
      requires !badCast && f < |files| && files[f].count == 0 && Valid(f)
      modifies this
      ensures old(gcing) || old(files)[f].rcv == [] ==> !badCast
      ensures old(gcing) ==> SameMarks(old(files), files)
      ensures !badCast ==> Valid(-1) && limbo == old(limbo) && gcing == old(gcing) && rights <= old(rights)
      ensures !badCast ==>
              Settled(old(files), files) && SameHeld(old(files), files) && files[f].count == 0 &&
              files[f].rcv == []
      ensures old(files)[f].rcv == [] ==> files == old(files)
      decreases rights, !gcing, 2
    {
      hide Accounted, Reachable, Refs, Total, Occ;
      DeadFlush(files, limbo, f);
      ghost var l := Scan(files[f].rcv) + limbo;
      Sorflush(f);
      if badCast { return; }
      AccountedSane(files, limbo, -1);
      SettledTransitive(old(files), old(files)[f := old(files)[f].(rcv := [])], files, l, limbo);
    }

    /** sorflush: the queue is taken off the socket first, then its rights are disposed of. */
    method Sorflush(i: nat)
      requires !badCast && i < |files| && Valid(i)
      modifies this
      ensures old(gcing) || old(files)[i].rcv == [] ==> !badCast
      ensures old(gcing) ==> SameMarks(old(files), files)
      ensures !badCast ==> Valid(-1) && limbo == old(limbo) && gcing == old(gcing) && rights <= old(rights)
      ensures !badCast ==> Settled(old(files)[i := old(files)[i].(rcv := [])], files) && SameHeld(old(files), files)
      ensures old(files)[i].rcv == [] ==> files == old(files)
      decreases rights, !gcing, 1
    {
      hide Accounted, Reachable, Refs, Total, Occ, Settled, SameHeld;
      TakeQueue(files, limbo, i);
      var fs := UnpScan(files[i].rcv);
      hide Scan;
      files := files[i := files[i].(rcv := [])];
      limbo := fs + limbo;
      DiscardAll(fs);
      if badCast { return; }
      FlushHeld(old(files), i, files);
    }

    /** unp_scan with unp_discard, over files already taken off a queue. */
    method DiscardAll(fs: seq<nat>)
      requires !badCast && Valid(-1) && fs <= limbo
      modifies this
      ensures old(gcing) || fs == [] ==> !badCast
      ensures old(gcing) ==> SameMarks(old(files), files)
      ensures !badCast ==> Valid(-1) && limbo == old(limbo)[|fs|..] && gcing == old(gcing) && rights <= old(rights)
      ensures !badCast ==> Settled(old(files), files) && SameHeld(old(files), files)
      ensures fs == [] ==> files == old(files)
      decreases rights, !gcing, 0, 1
    {
      hide Accounted, Reachable, Refs, Total, Occ, Settled, SameHeld;
      SettledReflexive(files);
      for k := 0 to |fs|
        invariant Valid(-1) && limbo == old(limbo)[k..]
        invariant gcing == old(gcing) && rights <= old(rights) && !badCast
        invariant Settled(old(files), files) && SameHeld(old(files), files)
        invariant k == 0 ==> files == old(files)
        invariant gcing ==> SameMarks(old(files), files)
      {
        ghost var t, l := files, limbo;
        Discard(fs[k]);
        if badCast { return; }
        SettledTransitive(old(files), t, files, l, limbo);
      }
    }

    method Discard(f: nat)
      requires !badCast && Valid(-1) && limbo != [] && f == limbo[0]
      modifies this
      ensures old(gcing) ==> !badCast
      ensures old(gcing) ==> SameMarks(old(files), files)
      ensures !badCast ==> Valid(-1) && limbo == old(limbo)[1..] && gcing == old(gcing) && rights <= old(rights)
      ensures !badCast ==> Settled(old(files), files) && SameHeld(old(files), files)
      decreases rights, !gcing, 0, 0
    {
      hide Accounted, Reachable, Refs, Total, Occ, Settled, SameHeld;
      AccountedSane(files, limbo, -1);
      DropRight(files, limbo);
      files := files[f := files[f].(msgcount := files[f].msgcount - 1)];
      rights := rights - 1;
      limbo := limbo[1..];
      Closef(f);
      if badCast { return; }
      DropRightThenRef(old(files), f, files);
    }

    /** The first sweep loop: one extra reference to each file that its test picks. */
    method CountExtra(ghost g: set<nat>) returns (extra: seq<nat>)
      requires forall i: nat :: i in g <==> Picked(files, i)
      modifies this`files
      ensures Boosted(old(files), files, g) && Lists(extra, g)
      ensures forall i, j :: 0 <= i < j < |extra| ==> extra[i] != extra[j]
    {
      ghost var t := files;
      extra := [];
      for i := 0 to |files|
        invariant |files| == |t| && Boosted(t, files, set j | j in g && j < i)
        invariant Lists(extra, set j | j in g && j < i)
        invariant forall k, j :: 0 <= k < j < |extra| ==> extra[k] != extra[j]
      {
        assert i in g <==> Picked(t, i);
        if files[i].count == 0 { continue; }
        if files[i].count == files[i].msgcount && !files[i].mark {
          extra := extra + [i];
          files := files[i := files[i].(count := files[i].count + 1)];
        }
      }
      assert g == set j | j in g && j < |files|;
    }

    /** After marking, these are the files that nothing reachable holds. */
    method TakeExtra(ghost t: Table, ghost g: set<nat>) returns (extra: seq<nat>)
      requires files == t && IsGarbage(t, g) && Valid(-1)
      requires forall i :: 0 <= i < |t| ==> (t[i].mark <==> Reachable(t, i))
      modifies this`files
      ensures Sweeping(t, files, g) && Valid(-1) && forall i :: i in g ==> Held(files[i]) == 1
      ensures Lists(extra, g)
      ensures forall i, j :: 0 <= i < j < |extra| ==> extra[i] != extra[j]
    {
      hide Accounted, Reachable, Refs, Total, Occ;
      forall i: nat ensures i in g <==> Picked(t, i) {
        if i < |t| { MarkDecides(t, g, i); }
      }
      extra := CountExtra(g);
      BoostedAccounted(t, files, g, limbo);
    }

    /** The second sweep loop: flush the queue of every such file.  The source casts its data
        pointer to a socket without looking. */
    method FlushExtra(ghost t: Table, ghost g: set<nat>, extra: seq<nat>)
      requires IsGarbage(t, g) && Accounted(t, limbo, -1) && Valid(-1) && gcing && !badCast
      requires Sweeping(t, files, g) && forall i :: i in g ==> Held(files[i]) == 1
      requires Lists(extra, g)
      modifies this
      ensures badCast <==> exists k :: 0 <= k < |extra| && old(files)[extra[k]].kind.NoSocket?
      ensures !badCast ==> Valid(-1) && limbo == old(limbo) && gcing && rights <= old(rights)
      ensures !badCast ==> Sweeping(t, files, g) && forall i :: i in g ==> Held(files[i]) == 1 && files[i].rcv == []
      ensures !badCast ==> forall i :: i in g ==> files[i].count == 1 + Occ(limbo, i)
      decreases rights, !gcing, 5
    {
      hide Accounted, Reachable, Refs, Total, Occ, Settled, IsGarbage;
      for k := 0 to |extra|
        invariant Valid(-1) && limbo == old(limbo) && gcing && rights <= old(rights) && !badCast
        invariant Sweeping(t, files, g) && Lists(extra, g)
        invariant forall i :: i in g ==> Held(files[i]) == 1
        invariant forall j :: 0 <= j < k ==> files[extra[j]].rcv == [] && !files[extra[j]].kind.NoSocket?
      {
        ghost var u := files;
        var e := extra[k];
        assert e in g;
        if files[e].kind.NoSocket? {
          badCast := true;
          return;
        }
        AccountedSane(files, limbo, -1);
        Sorflush(e);
        SweepStep(t, g, u[e := u[e].(rcv := [])], files, limbo);
      }
      SweptOnce(t, g, files, limbo);
    }

    /** The third sweep loop: the close that gives back the extra reference. It is the last close of
        the file unless a flush under way still holds a right to it. */
    method CloseExtra(ghost t: Table, ghost g: set<nat>, extra: seq<nat>) returns (ghost lasts: seq<bool>)
      requires IsGarbage(t, g) && Accounted(t, limbo, -1) && Valid(-1) && gcing && !badCast
      requires Sweeping(t, files, g) && forall i :: i in g ==> Held(files[i]) == 1 && files[i].rcv == []
      requires Lists(extra, g)
      requires forall i, j :: 0 <= i < j < |extra| ==> extra[i] != extra[j]
      modifies this
      ensures Valid(-1) && limbo == old(limbo) && gcing && rights <= old(rights) && !badCast
      ensures Sweeping(t, files, g) && forall i :: i in g ==> Held(files[i]) == 0 && files[i].rcv == []
      ensures |lasts| == |extra| && forall k :: 0 <= k < |extra| ==> (lasts[k] <==> extra[k] !in limbo)
      decreases rights, !gcing, 5
    {
      hide Accounted, Reachable, Refs, Total, Occ, Settled, IsGarbage;
      lasts := [];
      for k := 0 to |extra|
        invariant Valid(-1) && limbo == old(limbo) && gcing && rights <= old(rights) && !badCast
        invariant Sweeping(t, files, g) && Lists(extra, g)
        invariant forall i :: i in g ==> files[i].rcv == []
        invariant forall j :: 0 <= j < |extra| ==> Held(files[extra[j]]) == if j < k then 0 else 1
        invariant |lasts| == k && forall j :: 0 <= j < k ==> (lasts[j] <==> extra[j] !in limbo)
      {
        ghost var u := files;
        assert extra[k] in g;
        LastIff(t, g, files, limbo, extra[k]);
        lasts := lasts + [files[extra[k]].count == 1];
        Closef(extra[k]);
        SweepStep(t, g, u, files, limbo);
      }
    }

    method Gc()
      requires Valid(-1) && !badCast
      modifies this
      ensures old(gcing) ==> files == old(files) && !badCast
      ensures !old(gcing) ==> (badCast <==> exists i: nat :: Garbage(old(files), i) && old(files)[i].kind.NoSocket?)
      ensures !badCast ==> Valid(-1) && limbo == old(limbo) && gcing == old(gcing) && rights <= old(rights)
      ensures !badCast ==> Settled(old(files), files) && SameHeld(old(files), files)
      ensures !badCast && !gcing ==> Collected(old(files), files, limbo)
      decreases rights, !gcing, 2
    {
      hide Accounted, Reachable, Refs, Total, Occ, Settled, IsGarbage, Collected, Garbage;
      if gcing {
        SettledReflexive(files);
        return;
      }
      gcing := true;
      ghost var t0 := files;
      MarkPhase();
      ghost var t := files;
      FlagsAccounted(t0, t, limbo);
      ghost var g := GarbageSet(t0, t);
      var extra := TakeExtra(t, g);
      BadCasts(t0, t, g, files, extra);
      FlushExtra(t, g, extra);
      if badCast { return; }
      ghost var lasts := CloseExtra(t, g, extra);
      gcing := false;
      SweepDone(t0, t, g, files, limbo);
    }

    // ---------- the operations of a run ----------

    /** falloc: a new open file, held by one descriptor. */
    method Open(kind: Kind)
      requires Valid(-1)
      modifies this`files
      ensures Valid(-1) && files == old(files) + [File(1, 0, false, false, kind, [])]
    {
      hide Accounted, Refs, Total, Occ;
      NewFile(files, limbo, kind);
      files := files + [File(1, 0, false, false, kind, [])];
    }

    /** PRU_SEND with unp_internalize: look every descriptor up first (-1 is an empty slot), then
        take both references to each file and queue them as one record on the peer. */
    method Send(ofiles: seq<int>, fds: seq<int>, peer: nat) returns (ebadf: bool, fs: seq<nat>)
      requires Valid(-1) && peer < |files| && files[peer].kind.UnixSocket? && files[peer].count > 0
      requires forall k :: 0 <= k < |ofiles| ==>
               ofiles[k] == -1 || (0 <= ofiles[k] < |files| && Held(files[ofiles[k]]) >= 1)
      modifies this`files, this`rights, this`limbo
      ensures Valid(-1) && limbo == old(limbo)
      ensures ebadf <==> exists k :: 0 <= k < |fds| && !IsOpen(ofiles, fds[k])
      ensures ebadf ==> files == old(files) && rights == old(rights)
      ensures !ebadf ==> |fs| == |fds| && forall k :: 0 <= k < |fds| ==>
              IsOpen(ofiles, fds[k]) && fs[k] == ofiles[fds[k]]
      ensures !ebadf ==> Queued(old(files), files, peer, fs) && rights == old(rights) + |fds|
    {
      hide Accounted, Reachable, Refs, Total, Occ;
      ebadf, fs := false, [];
      for i := 0 to |fds|
        invariant forall k :: 0 <= k < i ==> IsOpen(ofiles, fds[k])
      {
        if !IsOpen(ofiles, fds[i]) { return true, []; }
      }
      ghost var l := limbo;
      for i := 0 to |fds|
        invariant Valid(-1) && rights == old(rights) + i && limbo == l + fs
        invariant |fs| == i && SameButCounts(old(files), files)
        invariant forall k :: 0 <= k < i ==> fs[k] == ofiles[fds[k]]
      {
        assert IsOpen(ofiles, fds[i]);
        AccountedSane(files, limbo, -1);
        var f: nat := ofiles[fds[i]];
        TakeRefs(files, limbo, f);
        files := files[f := files[f].(count := files[f].count + 1, msgcount := files[f].msgcount + 1)];
        rights := rights + 1;
        limbo := limbo + [f];
        fs := fs + [f];
      }
      Enqueue(files, l, fs, peer);
      files := files[peer := files[peer].(rcv := files[peer].rcv + [[Control(true, fs)]])];
      limbo := l;
    }

    /** soreceive with unp_externalize on the first record: the rights become descriptors, or,
        when fdavail says there is no room, they are all discarded. */
    method Receive(i: nat, avail: bool) returns (fs: seq<nat>, emsgsize: bool)
      requires !badCast && Valid(-1) && i < |files| && files[i].rcv != []
      modifies this
      ensures avail || old(gcing) ==> !badCast
      ensures old(gcing) ==> gcing && SameMarks(old(files), files)
      ensures !badCast ==> Valid(-1) && limbo == old(limbo)
      ensures fs == FirstRights(old(files)[i].rcv[0]) && emsgsize == !avail
      ensures !badCast ==>
              var t := old(files)[i := old(files)[i].(rcv := old(files)[i].rcv[1..])];
              if avail then Handed(t, files, fs) && rights == old(rights) - |fs|
              else Settled(t, files) && SameHeld(t, files)
    {
      hide Accounted, Reachable, Refs, Total, Settled, SameHeld;
      fs := UnpScan([files[i].rcv[0]]);
      ScanOne(files[i].rcv[0]);
      hide Scan, FirstRights;
      Dequeue(files, limbo, i);
      files := files[i := files[i].(rcv := files[i].rcv[1..])];
      limbo := fs + limbo;
      ghost var t := files;
      emsgsize := !avail;
      if avail {
        for k := 0 to |fs|
          invariant !badCast && gcing == old(gcing) && Valid(-1) && rights == old(rights) - k &&
                    limbo == fs[k..] + old(limbo)
          invariant Handed(t, files, fs[..k])
        {
          hide Handed, Occ;
          DropRight(files, limbo);
          HandedNext(t, files, fs, k);
          files := files[fs[k] := files[fs[k]].(msgcount := files[fs[k]].msgcount - 1)];
          rights := rights - 1;
          limbo := limbo[1..];
        }
        assert fs[..|fs|] == fs;
      } else {
        DiscardAll(fs);
      }
    }

    /** close on the last descriptor of a Unix socket while rights are in flight: afterwards every
        open file is reachable, and no reachable file has lost a message. */
    method Close(f: nat)
      requires !badCast && Valid(-1) && limbo == [] && !gcing && f < |files| && Held(files[f]) >= 1
      modifies this
      ensures !badCast ==> Valid(-1) && limbo == [] && !gcing && Settled(old(files), files)
      ensures !badCast ==> forall i :: 0 <= i < |files| ==>
              Held(files[i]) == Held(old(files)[i]) - if i == f then 1 else 0
      ensures !badCast && old(files[f].count == 1 && files[f].kind.UnixSocket? && rights != 0) ==>
                forall i: nat :: i < |files| && files[i].count != 0 ==> Reachable(files, i)
    {
      hide Accounted, Reachable, Refs, Total;
      Closef(f);
    }

    // ---------- a collection that sleeps ----------

    /** What other processes do while unp_gc sleeps; an event nobody can bring about is passed over. */
    method Perform(e: Event, ghost n: nat)
      requires !badCast && Valid(-1) && gcing && Asleep(n, files)
      modifies this
      ensures !badCast && Valid(-1) && gcing && limbo == old(limbo) && Asleep(n, files)
      ensures if Enabled(old(files), e) then Happens(old(files), files, e) else files == old(files)
      ensures MarksKept(old(files), files)
    {
      hide Accounted, Reachable, Refs, Total, Occ, Settled, Asleep, Scan, FirstRights;
      if !Enabled(files, e) { return; }
      match e {
        case Opened(kind) => Open(kind);
        case Sent(fs, peer) => SendHeld(fs, peer);
        case Received(i, avail) => var fs, emsgsize := Receive(i, avail);
        case Closed(f) => Closef(f);
      }
      HappensKeeps(n, old(files), files, e, limbo);
      HappensMarks(old(files), files, e);
    }

    /** Send files by descriptors that refer to them. */
    method SendHeld(fs: seq<nat>, peer: nat)
      requires Valid(-1) && Enabled(files, Sent(fs, peer))
      modifies this`files, this`rights, this`limbo
      ensures Valid(-1) && limbo == old(limbo) && Queued(old(files), files, peer, fs)
    {
      hide Accounted, Refs, Total, Occ;
      var ofiles := seq(|fs|, k requires 0 <= k < |fs| => fs[k] as int);
      var fds := seq(|fs|, k => k);
      var ebadf, sent := Send(ofiles, fds, peer);
      assert sent == fs;
    }

    /** unp_gc up to the extra references, with es happening while malloc sleeps. A file is picked if and
        only if it is open, all its references are in flight, and it was opened during the sleep or was
        unreachable before. So a file that is reachable by then is picked exactly if it was opened
        during the sleep and all its references are in flight. */
    method MarkThenSleep(es: seq<Event>) returns (extra: seq<nat>, ghost t: Table, ghost g: set<nat>)
      requires !badCast && Valid(-1) && !gcing
      modifies this
      ensures !badCast && |t| >= |old(files)| && Boosted(t, files, g) && Lists(extra, g)
      ensures forall i: nat :: i in g <==>
                i < |t| && t[i].count != 0 && Held(t[i]) == 0 && (i >= |old(files)| || !Reachable(old(files), i))
      ensures forall i: nat :: Reachable(t, i) ==> i < |t| && (i in g <==> i >= |old(files)| && Held(t[i]) == 0)
      ensures forall i: nat :: i < |old(files)| && i in g ==> !Reachable(t, i)
    {
      hide Accounted, Reachable, Refs, Total, Occ, Settled, Asleep;
      gcing := true;
      ghost var t0, n := files, |files|;
      MarkPhase();
      FlagsAccounted(t0, files, limbo);
      Falls(files, limbo);
      ghost var m := files;
      for k := 0 to |es|
        invariant !badCast && Valid(-1) && gcing && limbo == old(limbo) && Asleep(n, files)
        invariant MarksKept(m, files)
      {
        Perform(es[k], n);
      }
      t := files;
      g := set i: nat | i < |t| && Picked(t, i);
      SleptPicks(n, t, limbo);
      extra := CountExtra(g);
    }
  }

}
