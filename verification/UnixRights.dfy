/** Rights in flight in the Unix domain, on values: the file table, the queues that hold
    rights, the reference accounting, reachability, and what a close may change.

    The file table is a sequence; a file pointer is an index into it.  A freed entry is one
    whose count is 0.  A right is a file pointer queued in a receive buffer. */
module UnixRights {

  /** One mbuf of a record: a control mbuf with an SCM_RIGHTS header carries files; a control
      mbuf that is too short, or of another level or type, has scmRights false. */
  datatype Mbuf = Data | Control(scmRights: bool, files: seq<nat>)
  type Record = seq<Mbuf>

  /** A socket of the Unix domain whose protocol passes rights, any other socket, or a file that is no
      socket. */
  datatype Kind = UnixSocket | OtherSocket | NoSocket

  datatype File = File(count: int, msgcount: int, mark: bool, defer: bool, kind: Kind, rcv: seq<Record>)
  type Table = seq<File>

  /** The files unp_scan visits in one record: only its first rights message counts. */
  function FirstRights(r: Record): seq<nat> {
    if r == [] then [] else
      match r[0]
      case Control(true, fs) => fs
      case _ => FirstRights(r[1..])
  }

  /** A rights message. */
  predicate HasRights(m: Mbuf) { m.Control? && m.scmRights }

  ghost predicate FirstAt(r: Record, k: nat) {
    k < |r| && HasRights(r[k]) && forall j :: 0 <= j < k ==> !HasRights(r[j])
  }

  /** fs are the files of the first rights message of the record, wherever it stands; none if there is
      no such message. */
  ghost predicate OfFirstRights(r: Record, fs: seq<nat>) {
    (forall k: nat :: FirstAt(r, k) ==> fs == r[k].files) &&
    ((forall k :: 0 <= k < |r| ==> !HasRights(r[k])) ==> fs == [])
  }

  function Scan(q: seq<Record>): seq<nat> {
    if q == [] then [] else FirstRights(q[0]) + Scan(q[1..])
  }

  function Occ(s: seq<nat>, f: nat): nat {
    if s == [] then 0 else (if s[0] == f then 1 else 0) + Occ(s[1..], f)
  }

  /** How often file f is queued anywhere, and how many rights are queued in all. */
  function Refs(t: Table, f: nat): nat {
    if t == [] then 0 else Refs(t[..|t| - 1], f) + Occ(Scan(t[|t| - 1].rcv), f)
  }

  function Total(t: Table): nat {
    if t == [] then 0 else Total(t[..|t| - 1]) + |Scan(t[|t| - 1].rcv)|
  }

  /** References that are not in flight: descriptor-table slots (and the collector's own). */
  function Held(f: File): int { f.count - f.msgcount }

  predicate Entry(f: File, inflight: nat, dying: bool) {
    && 0 <= f.msgcount <= f.count
    && f.msgcount == inflight
    && (!f.kind.UnixSocket? || (f.count == 0 && !dying) ==> f.rcv == [])
  }

  /** f_msgcount is exact and covered by f_count, and freed entries queue nothing.
      limbo: rights taken off a queue by a flush that has not discarded them yet.
      ex: an entry being closed, whose queue is not flushed yet (-1: none). */
  ghost predicate Accounted(t: Table, limbo: seq<nat>, ex: int) {
    && (forall i: nat :: i < |t| ==> Entry(t[i], Refs(t, i) + Occ(limbo, i), i == ex))
    && (forall i: nat :: i >= |t| ==> Refs(t, i) == 0 && Occ(limbo, i) == 0)
  }

  predicate Root(t: Table, i: nat) { i < |t| && t[i].count != 0 && t[i].count != t[i].msgcount }

  predicate Edge(t: Table, i: nat, j: nat) { i < |t| && j in Scan(t[i].rcv) }

  ghost predicate IsPath(t: Table, p: seq<nat>) {
    && |p| > 0 && Root(t, p[0])
    && (forall k :: 0 <= k < |p| - 1 ==> Edge(t, p[k], p[k + 1]))
  }

  /** Reachable from a file held outside any queue, through rights queued on sockets. */
  ghost predicate Reachable(t: Table, i: nat) {
    exists p :: IsPath(t, p) && p[|p| - 1] == i
  }

  ghost predicate Garbage(t: Table, i: nat) {
    i < |t| && t[i].count != 0 && !Reachable(t, i)
  }

  // ---------- counting rights ----------

  lemma {:induction false} OccZero(s: seq<nat>, f: nat)
    ensures Occ(s, f) == 0 <==> f !in s
  {
    if s != [] { OccZero(s[1..], f); }
  }

  lemma {:induction false} OccConcat(a: seq<nat>, b: seq<nat>, f: nat)
    ensures Occ(a + b, f) == Occ(a, f) + Occ(b, f)
  {
    if a == [] {
      assert a + b == b;
    } else {
      assert (a + b)[1..] == a[1..] + b;
      OccConcat(a[1..], b, f);
    }
  }

  lemma {:induction false} OccIn(s: seq<nat>, f: nat)
    ensures f in s <==> Occ(s, f) > 0
  {
    if s != [] { OccIn(s[1..], f); }
  }

  ghost predicate SameRights(t: Table, u: Table) {
    (forall f :: Refs(u, f) == Refs(t, f)) && Total(u) == Total(t)
  }

  lemma RefsTwo(a: File, b: File, f: nat)
    ensures Refs([a, b], f) == Occ(Scan(a.rcv), f) + Occ(Scan(b.rcv), f)
  {
    hide Occ, Scan;
    assert [a, b][..1] == [a] && [a][..0] == [];
    assert Refs([a], f) == Refs([], f) + Occ(Scan(a.rcv), f);
  }

  lemma {:induction false} RefsUpdate(t: Table, i: nat, g: File, f: nat)
    requires i < |t|
    ensures Refs(t[i := g], f) + Occ(Scan(t[i].rcv), f) == Refs(t, f) + Occ(Scan(g.rcv), f)
    ensures Total(t[i := g]) + |Scan(t[i].rcv)| == Total(t) + |Scan(g.rcv)|
  {
    var n, u := |t| - 1, t[i := g];
    if i == n {
      assert u[..n] == t[..n];
    } else {
      assert u[..n] == t[..n][i := g];
      RefsUpdate(t[..n], i, g, f);
    }
  }

  lemma {:induction false} QueuesKeep(t: Table, u: Table)
    requires |t| == |u| && forall i :: 0 <= i < |t| ==> t[i].rcv == u[i].rcv
    ensures SameRights(t, u)
  {
    if t == [] {
      assert u == [];
    } else {
      var n := |t| - 1;
      QueuesKeep(t[..n], u[..n]);
      assert t[n].rcv == u[n].rcv && u[..|u| - 1] == u[..n];
      assert Total(t) == Total(t[..n]) + |Scan(t[n].rcv)| == Total(u[..n]) + |Scan(u[n].rcv)| == Total(u);
    }
  }

  lemma {:induction false} RefsFewer(t: Table, u: Table, f: nat)
    requires |u| == |t| && forall i :: 0 <= i < |t| ==> u[i].rcv == t[i].rcv || u[i].rcv == []
    ensures Refs(u, f) <= Refs(t, f)
  {
    if t != [] { RefsFewer(t[..|t| - 1], u[..|t| - 1], f); }
  }

  lemma {:induction false} RefsInclude(t: Table, i: nat, f: nat)
    requires i < |t|
    ensures Occ(Scan(t[i].rcv), f) <= Refs(t, f)
  {
    if i < |t| - 1 { RefsInclude(t[..|t| - 1], i, f); }
  }

  lemma {:induction false} RefsSource(t: Table, f: nat) returns (i: nat)
    requires Refs(t, f) > 0
    ensures Edge(t, i, f)
  {
    var n := |t| - 1;
    OccIn(Scan(t[n].rcv), f);
    if f in Scan(t[n].rcv) { i := n; } else { i := RefsSource(t[..n], f); }
  }

  /** Under the accounting an edge leads to a live file. */
  lemma EdgeAlive(t: Table, limbo: seq<nat>, ex: int, i: nat, j: nat)
    requires Accounted(t, limbo, ex) && Edge(t, i, j)
    ensures j < |t| && t[j].msgcount > 0 && t[j].count > 0
  {
    hide Refs, Scan;
    RefsInclude(t, i, j);
    OccIn(Scan(t[i].rcv), j);
    assert Refs(t, j) > 0;
  }

  // ---------- reachability ----------

  lemma RootReachable(t: Table, i: nat)
    requires Root(t, i)
    ensures Reachable(t, i)
  {
    assert IsPath(t, [i]) && [i][|[i]| - 1] == i;
  }

  lemma EdgeReachable(t: Table, i: nat, j: nat)
    requires Reachable(t, i) && Edge(t, i, j)
    ensures Reachable(t, j)
  {
    var p :| IsPath(t, p) && p[|p| - 1] == i;
    var q := p + [j];
    assert IsPath(t, q) && q[|q| - 1] == j;
  }

  /** A set that holds the roots and is closed under edges holds every reachable file. */
  lemma {:induction false} ClosedCovers(t: Table, s: set<nat>, p: seq<nat>)
    requires forall i :: Root(t, i) ==> i in s
    requires forall i, j :: i in s && Edge(t, i, j) ==> j in s
    requires IsPath(t, p)
    ensures p[|p| - 1] in s
  {
    if |p| > 1 {
      var q := p[..|p| - 1];
      assert IsPath(t, q);
      ClosedCovers(t, s, q);
      assert Edge(t, p[|p| - 2], p[|p| - 1]);
    }
  }

  /** Every reachable file is live. */
  lemma ReachableAlive(t: Table, limbo: seq<nat>, ex: int, i: nat)
    requires Accounted(t, limbo, ex) && Reachable(t, i)
    ensures i < |t| && t[i].count > 0
  {
    var p :| IsPath(t, p) && p[|p| - 1] == i;
    if |p| > 1 {
      assert Edge(t, p[|p| - 2], p[|p| - 1]);
      EdgeAlive(t, limbo, ex, p[|p| - 2], i);
    }
  }

  /** Files outside the reach of the roots are held only by rights in flight. */
  lemma GarbageUnheld(t: Table, i: nat)
    requires Garbage(t, i)
    ensures Held(t[i]) == 0
  {
    if Root(t, i) { RootReachable(t, i); }
  }

  // ---------- what a close may do to the rest of the table ----------

  ghost predicate Sane(t: Table) { forall i :: 0 <= i < |t| ==> 0 <= t[i].msgcount <= t[i].count }

  /** u is t after some closes: a queue is either untouched or emptied, and it is untouched
      where the file is still reachable. */
  ghost predicate Settled(t: Table, u: Table) {
    && |u| == |t|
    && (forall i :: 0 <= i < |t| ==>
          && u[i].kind == t[i].kind
          && Held(u[i]) <= Held(t[i]) && u[i].count <= t[i].count
          && (u[i].rcv == t[i].rcv || u[i].rcv == []))
    && (forall i :: 0 <= i < |t| && Reachable(u, i) ==> u[i].rcv == t[i].rcv)
  }

  ghost predicate SameHeld(t: Table, u: Table) {
    |u| == |t| && forall i :: 0 <= i < |t| ==> Held(u[i]) == Held(t[i])
  }

  lemma {:induction false} FewerPaths(t: Table, u: Table, p: seq<nat>)
    requires |u| == |t|
    requires forall i :: 0 <= i < |t| && Root(u, i) ==> Root(t, i)
    requires forall i :: 0 <= i < |t| ==> u[i].rcv == t[i].rcv || u[i].rcv == []
    requires IsPath(u, p)
    ensures IsPath(t, p)
  {
    forall k | 0 <= k < |p| - 1 ensures Edge(t, p[k], p[k + 1]) {
      assert Edge(u, p[k], p[k + 1]);
    }
  }

  /** Whatever is reachable after closes was reachable before them. */
  lemma FewerReachable(t: Table, u: Table, i: nat)
    requires Settled(t, u) && Sane(t) && Sane(u)
    requires Reachable(u, i)
    ensures Reachable(t, i)
  {
    var p :| IsPath(u, p) && p[|p| - 1] == i;
    FewerPaths(t, u, p);
    assert IsPath(t, p) && p[|p| - 1] == i;
  }

  lemma SettledReflexive(t: Table)
    ensures Settled(t, t) && SameHeld(t, t)
  {
  }

  lemma SettledTransitive(t: Table, u: Table, v: Table, limbo: seq<nat>, limbo': seq<nat>)
    requires Settled(t, u) && Settled(u, v) && Accounted(u, limbo, -1) && Accounted(v, limbo', -1)
    ensures Settled(t, v) && (SameHeld(t, u) && SameHeld(u, v) ==> SameHeld(t, v))
  {
    hide Reachable, Refs;
    assert Sane(u) && Sane(v);
    forall i | 0 <= i < |t| && Reachable(v, i) ensures v[i].rcv == t[i].rcv {
      FewerReachable(u, v, i);
    }
  }

  /** A path whose files keep their references and, while reachable, their queues, stays. */
  lemma {:induction false} PathStays(t: Table, u: Table, p: seq<nat>, g: set<nat>)
    requires |u| == |t| && Sane(t) && Sane(u)
    requires forall i :: 0 <= i < |t| ==> Held(u[i]) >= Held(t[i])
    requires forall i :: 0 <= i < |t| && i !in g && Reachable(u, i) ==> u[i].rcv == t[i].rcv
    requires forall i :: i in g ==> !Reachable(t, i)
    requires IsPath(t, p)
    ensures Reachable(u, p[|p| - 1])
  {
    if |p| == 1 {
      RootReachable(u, p[0]);
    } else {
      var q := p[..|p| - 1];
      assert IsPath(t, q) && q[|q| - 1] == p[|p| - 2];
      PathStays(t, u, q, g);
      assert Reachable(t, p[|p| - 2]);
      assert Edge(t, p[|p| - 2], p[|p| - 1]);
      EdgeReachable(u, p[|p| - 2], p[|p| - 1]);
    }
  }

  // ---------- single steps of a close ----------

  lemma AccountedSane(t: Table, limbo: seq<nat>, ex: int)
    requires Accounted(t, limbo, ex)
    ensures Sane(t) && forall f: nat :: Accounted(t, limbo, -1) ==> Accounted(t, limbo, f)
    ensures 0 <= ex < |t| && !t[ex].kind.UnixSocket? ==> Accounted(t, limbo, -1)
    ensures forall i :: 0 <= i < |t| && (!t[i].kind.UnixSocket? || (t[i].count == 0 && i != ex)) ==> t[i].rcv == []
  {
    hide Refs, Occ;
    assert forall i: nat :: i < |t| ==> Entry(t[i], Refs(t, i) + Occ(limbo, i), i == ex);
  }

  /** Taking the queue of file i off its socket moves its rights into limbo. */
  lemma TakeQueue(t: Table, limbo: seq<nat>, i: nat)
    requires i < |t| && Accounted(t, limbo, i)
    ensures var u, q := t[i := t[i].(rcv := [])], Scan(t[i].rcv);
            && Accounted(u, q + limbo, -1) && Total(u) + |q + limbo| == Total(t) + |limbo|
            && (t[i].rcv == [] ==> u == t && q == [])
  {
    var u, q := t[i := t[i].(rcv := [])], Scan(t[i].rcv);
    RefsUpdate(t, i, u[i], 0);
    forall f: nat ensures Refs(u, f) + Occ(q + limbo, f) == Refs(t, f) + Occ(limbo, f) {
      RefsUpdate(t, i, u[i], f);
      OccConcat(q, limbo, f);
    }
    hide Refs, Occ, Scan;
  }

  lemma RetouchAccounted(t: Table, limbo: seq<nat>, limbo': seq<nat>, f: nat, g: File, ex: int)
    requires Accounted(t, limbo, -1) && f < |t| && g.rcv == t[f].rcv
    requires forall x :: x != f ==> Occ(limbo', x) == Occ(limbo, x)
    requires Entry(g, Refs(t, f) + Occ(limbo', f), f == ex)
    ensures Accounted(t[f := g], limbo', ex) && SameRights(t, t[f := g])
  {
    hide Refs, Occ, Entry;
    var u := t[f := g];
    QueuesKeep(t, u);
    forall i: nat | i < |u| ensures Entry(u[i], Refs(u, i) + Occ(limbo', i), i == ex) {
      if i != f {
        assert Entry(t[i], Refs(t, i) + Occ(limbo, i), false);
        WeakenEntry(u[i], Refs(u, i) + Occ(limbo', i), i == ex);
      }
    }
    forall i: nat | i >= |u| ensures Refs(u, i) == 0 && Occ(limbo', i) == 0 {
      assert Refs(t, i) == 0 && Occ(limbo, i) == 0;
    }
  }

  lemma WeakenEntry(f: File, n: nat, dying: bool)
    requires Entry(f, n, false)
    ensures Entry(f, n, dying)
  {
  }

  lemma FirstRight(t: Table, limbo: seq<nat>)
    requires Accounted(t, limbo, -1) && limbo != []
    ensures limbo[0] < |t| && Entry(t[limbo[0]], Refs(t, limbo[0]) + Occ(limbo, limbo[0]), false)
    ensures forall i: nat :: Occ(limbo, i) == Occ(limbo[1..], i) + if i == limbo[0] then 1 else 0
  {
    hide Refs;
    assert Occ(limbo, limbo[0]) > 0;
  }

  /** Discarding the first right in limbo: the message reference goes first, then the file one. */
  lemma DropRight(t: Table, limbo: seq<nat>)
    requires Accounted(t, limbo, -1) && limbo != []
    ensures limbo[0] < |t|
    ensures var f := limbo[0];
            var u := t[f := t[f].(msgcount := t[f].msgcount - 1)];
            Accounted(u, limbo[1..], -1) && SameRights(t, u)
  {
    var f := limbo[0];
    FirstRight(t, limbo);
    hide Accounted;
    var g := t[f].(msgcount := t[f].msgcount - 1);
    RetouchAccounted(t, limbo, limbo[1..], f, g, -1);
  }

  lemma DropRightThenRef(t: Table, f: nat, v: Table)
    requires f < |t| == |v|
    requires Settled(t[f := t[f].(msgcount := t[f].msgcount - 1)], v) && Held(v[f]) == Held(t[f])
    requires forall i :: 0 <= i < |t| && i != f ==> Held(v[i]) == Held(t[i])
    ensures Settled(t, v) && SameHeld(t, v)
  {
    hide Reachable;
  }

  lemma FlushHeld(t: Table, i: nat, v: Table)
    requires i < |t| && SameHeld(t[i := t[i].(rcv := [])], v)
    ensures SameHeld(t, v)
  {
  }

  lemma DropRef(t: Table, limbo: seq<nat>, f: nat)
    requires Accounted(t, limbo, -1) && f < |t| && Held(t[f]) >= 1
    ensures var u := t[f := t[f].(count := t[f].count - 1)];
            Accounted(u, limbo, if u[f].count == 0 then f else -1) && SameRights(t, u) && Settled(t, u)
  {
    hide Reachable, Refs, Occ;
    var g := t[f].(count := t[f].count - 1);
    RetouchAccounted(t, limbo, limbo, f, g, if g.count == 0 then f else -1);
  }

  lemma DeadUnreachable(t: Table, limbo: seq<nat>, f: nat)
    requires Accounted(t, limbo, -1) && f < |t| && t[f].count == 0
    ensures !Reachable(t, f)
  {
    if Reachable(t, f) { ReachableAlive(t, limbo, -1, f); }
  }

  /** Emptying the queue of a file without references touches no reachable file. */
  lemma DeadFlush(t: Table, limbo: seq<nat>, f: nat)
    requires Accounted(t, limbo, f) && f < |t| && t[f].count == 0
    ensures var u := t[f := t[f].(rcv := [])];
            Settled(t, u) && SameHeld(t, u) && Accounted(u, Scan(t[f].rcv) + limbo, -1)
  {
    hide Reachable, Accounted, Refs, Scan;
    var u := t[f := t[f].(rcv := [])];
    var l := Scan(t[f].rcv) + limbo;
    TakeQueue(t, limbo, f);
    AccountedSane(u, l, -1);
    DeadUnreachable(u, l, f);
  }

  // ---------- sending and receiving ----------

  lemma NewFile(t: Table, limbo: seq<nat>, kind: Kind)
    requires Accounted(t, limbo, -1)
    ensures var u := t + [File(1, 0, false, false, kind, [])]; Accounted(u, limbo, -1) && Total(u) == Total(t)
  {
    var u := t + [File(1, 0, false, false, kind, [])];
    assert u[..|t|] == t;
    assert forall f :: Refs(u, f) == Refs(t, f);
    assert Entry(u[|t|], 0, false);
    hide Refs, Occ;
  }

  /** unp_internalize on one file. */
  lemma TakeRefs(t: Table, limbo: seq<nat>, f: nat)
    requires Accounted(t, limbo, -1) && f < |t| && t[f].count > 0
    ensures var u := t[f := t[f].(count := t[f].count + 1, msgcount := t[f].msgcount + 1)];
            Accounted(u, limbo + [f], -1) && SameRights(t, u)
  {
    forall x ensures Occ(limbo + [f], x) == Occ(limbo, x) + if x == f then 1 else 0 {
      OccConcat(limbo, [f], x);
      assert [f][1..] == [];
    }
    hide Refs, Occ;
    RetouchAccounted(t, limbo, limbo + [f], f, t[f].(count := t[f].count + 1, msgcount := t[f].msgcount + 1), -1);
  }

  lemma {:induction false} ScanConcat(q: seq<Record>, r: seq<Record>)
    ensures Scan(q + r) == Scan(q) + Scan(r)
  {
    if q == [] {
      assert q + r == r;
    } else {
      assert (q + r)[1..] == q[1..] + r;
      ScanConcat(q[1..], r);
    }
  }

  lemma ScanOne(r: Record)
    ensures Scan([r]) == FirstRights(r)
  {
    assert [r][1..] == [] && Scan([]) == [];
  }

  lemma {:induction false} FirstRightsFound(r: Record)
    ensures OfFirstRights(r, FirstRights(r))
  {
    if r != [] && !HasRights(r[0]) {
      FirstRightsFound(r[1..]);
      forall k: nat | FirstAt(r, k) ensures FirstRights(r) == r[k].files {
        assert FirstAt(r[1..], k - 1);
      }
    }
  }

  /** How many files are visited in the first i records of a queue. */
  function VisitedBefore(q: seq<Record>, i: nat): nat
    requires i <= |q|
  {
    |Scan(q[..i])|
  }

  /** In their place among the files visited stand those of the first rights message of record i. */
  ghost predicate Visits(q: seq<Record>, fs: seq<nat>, i: nat) {
    i < |q| && VisitedBefore(q, i) <= VisitedBefore(q, i + 1) <= |fs| &&
    OfFirstRights(q[i], fs[VisitedBefore(q, i)..VisitedBefore(q, i + 1)])
  }

  lemma ScanSlice(q: seq<Record>, i: nat)
    requires i < |q|
    ensures Visits(q, Scan(q), i)
  {
    hide Scan, FirstRights, OfFirstRights;
    var a, b := q[..i], q[i + 1..];
    assert a + [q[i]] == q[..i + 1];
    assert a + [q[i]] + b == q;
    ScanAround(a, q[i], b);
    FirstRightsFound(q[i]);
    Middle(Scan(a), FirstRights(q[i]), Scan(b));
  }

  lemma ScanAround(a: seq<Record>, r: Record, b: seq<Record>)
    ensures Scan(a + [r]) == Scan(a) + FirstRights(r)
    ensures Scan(a + [r] + b) == Scan(a) + FirstRights(r) + Scan(b)
  {
    hide Scan, FirstRights;
    ScanConcat(a, [r]);
    ScanConcat(a + [r], b);
    ScanOne(r);
  }

  lemma Middle(a: seq<nat>, b: seq<nat>, c: seq<nat>)
    ensures (a + b + c)[|a|..|a + b|] == b
  {
  }

  /** Moving rights between a queue and limbo keeps the accounting. */
  lemma MoveRights(t: Table, limbo: seq<nat>, i: nat, q: seq<Record>, limbo': seq<nat>)
    requires Accounted(t, limbo, -1) && i < |t| && t[i].kind.UnixSocket? && t[i].count > 0
    requires forall f :: Occ(Scan(t[i].rcv), f) + Occ(limbo, f) == Occ(Scan(q), f) + Occ(limbo', f)
    ensures var u := t[i := t[i].(rcv := q)];
            Accounted(u, limbo', -1) && Total(u) + |Scan(t[i].rcv)| == Total(t) + |Scan(q)|
  {
    hide Refs, Occ, Scan, Total;
    var u := t[i := t[i].(rcv := q)];
    RefsUpdate(t, i, u[i], 0);
    forall f: nat ensures Refs(u, f) + Occ(limbo', f) == Refs(t, f) + Occ(limbo, f) {
      RefsUpdate(t, i, u[i], f);
    }
  }

  /** Queueing the files at the end of limbo as one record. */
  lemma Enqueue(t: Table, l: seq<nat>, fs: seq<nat>, peer: nat)
    requires Accounted(t, l + fs, -1) && peer < |t| && t[peer].kind.UnixSocket? && t[peer].count > 0
    ensures var u := t[peer := t[peer].(rcv := t[peer].rcv + [[Control(true, fs)]])];
            Accounted(u, l, -1) && Total(u) == Total(t) + |fs|
  {
    var q := t[peer].rcv + [[Control(true, fs)]];
    ScanConcat(t[peer].rcv, [[Control(true, fs)]]);
    ScanOne([Control(true, fs)]);
    assert FirstRights([Control(true, fs)]) == fs;
    hide Scan, FirstRights;
    forall f ensures Occ(Scan(t[peer].rcv), f) + Occ(l + fs, f) == Occ(Scan(q), f) + Occ(l, f) {
      OccConcat(l, fs, f);
      OccConcat(Scan(t[peer].rcv), fs, f);
    }
    MoveRights(t, l + fs, peer, q, l);
  }

  /** Taking the first record off a queue. */
  lemma Dequeue(t: Table, limbo: seq<nat>, i: nat)
    requires Accounted(t, limbo, -1) && i < |t| && t[i].rcv != []
    ensures var u, q := t[i := t[i].(rcv := t[i].rcv[1..])], FirstRights(t[i].rcv[0]);
            Accounted(u, q + limbo, -1) && Total(u) + |q| == Total(t)
  {
    var q, r := FirstRights(t[i].rcv[0]), t[i].rcv[1..];
    assert Scan(t[i].rcv) == q + Scan(r);
    AccountedSane(t, limbo, -1);
    hide Scan, FirstRights;
    forall f ensures Occ(Scan(t[i].rcv), f) + Occ(limbo, f) == Occ(Scan(r), f) + Occ(q + limbo, f) {
      OccConcat(q, limbo, f);
      OccConcat(q, Scan(r), f);
    }
    MoveRights(t, limbo, i, r, q + limbo);
  }

  predicate IsOpen(ofiles: seq<int>, fd: int) { 0 <= fd < |ofiles| && ofiles[fd] >= 0 }

  ghost predicate SameButCounts(t: Table, u: Table) {
    && SameHeld(t, u)
    && (forall i :: 0 <= i < |t| ==>
          u[i] == t[i].(count := u[i].count, msgcount := u[i].msgcount) && u[i].count >= t[i].count)
  }

  /** u is t with one record of rights to fs added to the queue of peer; the descriptors are kept. */
  ghost predicate Queued(t: Table, u: Table, peer: nat, fs: seq<nat>) {
    && SameHeld(t, u)
    && (forall i :: 0 <= i < |t| ==>
          u[i] == t[i].(count := u[i].count, msgcount := u[i].msgcount,
                        rcv := if i == peer then t[i].rcv + [[Control(true, fs)]] else t[i].rcv))
  }

  /** u is t with the rights fs turned from message references into held ones. */
  ghost predicate Handed(t: Table, u: Table, fs: seq<nat>) {
    && |u| == |t|
    && (forall i :: 0 <= i < |t| ==> u[i] == t[i].(msgcount := t[i].msgcount - Occ(fs, i)))
  }

  lemma HandedNext(t: Table, u: Table, fs: seq<nat>, k: nat)
    requires k < |fs| && Handed(t, u, fs[..k]) && fs[k] < |u|
    ensures Handed(t, u[fs[k] := u[fs[k]].(msgcount := u[fs[k]].msgcount - 1)], fs[..k + 1])
  {
    forall i: nat ensures Occ(fs[..k + 1], i) == Occ(fs[..k], i) + if i == fs[k] then 1 else 0 {
      assert fs[..k + 1] == fs[..k] + [fs[k]] && [fs[k]][1..] == [];
      OccConcat(fs[..k], [fs[k]], i);
    }
    hide Occ;
  }
}
