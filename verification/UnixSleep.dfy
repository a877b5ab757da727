/** What may happen while unp_gc sleeps for memory, between marking and sweeping: other processes open,
    send, receive and close, and the marks are those of before. */
module UnixSleep {
  import opened UnixRights

  datatype Event =
    | Opened(kind: Kind)
    | Sent(fs: seq<nat>, peer: nat)
    | Received(socket: nat, avail: bool)
    | Closed(f: nat)

  ghost predicate SameMarks(t: Table, u: Table) {
    |u| == |t| && forall i :: 0 <= i < |t| ==> u[i].mark == t[i].mark
  }

  /** What the process that does this needs: descriptors for what it uses. */
  predicate Enabled(t: Table, e: Event) {
    match e
    case Opened(_) => true
    case Sent(fs, peer) =>
      && peer < |t| && t[peer].kind.UnixSocket? && t[peer].count > 0
      && forall k :: 0 <= k < |fs| ==> fs[k] < |t| && Held(t[fs[k]]) >= 1
    case Received(i, _) => i < |t| && Held(t[i]) >= 1 && t[i].rcv != []
    case Closed(f) => f < |t| && Held(t[f]) >= 1
  }

  /** The table without the first record of a queue. */
  function Unqueued(t: Table, i: nat): Table
    requires i < |t| && t[i].rcv != []
  {
    t[i := t[i].(rcv := t[i].rcv[1..])]
  }

  /** The table may go from t to u; no collection is started, because one is under way. */
  ghost predicate Happens(t: Table, u: Table, e: Event)
    requires Enabled(t, e)
  {
    match e
    case Opened(kind) => u == t + [File(1, 0, false, false, kind, [])]
    case Sent(fs, peer) => Queued(t, u, peer, fs)
    case Received(i, avail) =>
      if avail then Handed(Unqueued(t, i), u, FirstRights(t[i].rcv[0]))
      else Settled(Unqueued(t, i), u) && SameHeld(t, u) && SameMarks(t, u)
    case Closed(f) =>
      && Settled(t, u) && SameMarks(t, u)
      && forall i :: 0 <= i < |t| ==> Held(u[i]) == Held(t[i]) - if i == f then 1 else 0
  }

  /** The tables of a sleep, with the counts right throughout. */
  ghost predicate Sleep(ts: seq<Table>, es: seq<Event>, limbo: seq<nat>) {
    && |ts| == |es| + 1
    && (forall k :: 0 <= k < |ts| ==> Accounted(ts[k], limbo, -1))
    && (forall k :: 0 <= k < |es| ==> Enabled(ts[k], es[k]) && Happens(ts[k], ts[k + 1], es[k]))
  }

  /** The test of the sweep's first loop. */
  predicate Picked(t: Table, i: nat) {
    i < |t| && t[i].count != 0 && t[i].count == t[i].msgcount && !t[i].mark
  }

  /** Marked, or opened since there were n files. */
  predicate Known(n: nat, t: Table, i: nat) { i < |t| && (i >= n || t[i].mark) }

  /** What the sleep keeps: every root is known, rights queued on known files are to known files, and
      no new file is marked. */
  ghost predicate Asleep(n: nat, t: Table) {
    && n <= |t|
    && (forall i :: n <= i < |t| ==> !t[i].mark)
    && (forall i: nat :: Root(t, i) ==> Known(n, t, i))
    && (forall i: nat, j: nat :: Known(n, t, i) && Edge(t, i, j) ==> Known(n, t, j))
  }

  lemma Falls(t: Table, limbo: seq<nat>)
    requires Accounted(t, limbo, -1) && forall i :: 0 <= i < |t| ==> (t[i].mark <==> Reachable(t, i))
    ensures Asleep(|t|, t)
  {
    hide Accounted, Scan;
    forall i: nat | Root(t, i) ensures Known(|t|, t, i) { RootReachable(t, i); }
    forall i: nat, j: nat | Known(|t|, t, i) && Edge(t, i, j) ensures Known(|t|, t, j) {
      EdgeReachable(t, i, j);
      ReachableAlive(t, limbo, -1, j);
    }
  }

  lemma FewerKeeps(n: nat, t: Table, u: Table)
    requires Asleep(n, t) && SameMarks(t, u)
    requires forall i: nat :: Root(u, i) ==> Known(n, t, i)
    requires forall i: nat, j: nat :: Edge(u, i, j) ==> Edge(t, i, j)
    ensures Asleep(n, u)
  {
    hide Edge, Root;
    forall i: nat, j: nat | Known(n, u, i) && Edge(u, i, j) ensures Known(n, u, j) {
      assert Known(n, t, i) && Edge(t, i, j);
      assert Known(n, t, j);
    }
  }

  lemma OpenKeeps(n: nat, t: Table, kind: Kind)
    requires Asleep(n, t)
    ensures Asleep(n, t + [File(1, 0, false, false, kind, [])])
  {
    var u := t + [File(1, 0, false, false, kind, [])];
    assert Scan(u[|t|].rcv) == [];
    hide Scan;
    forall i: nat, j: nat | Known(n, u, i) && Edge(u, i, j) ensures Known(n, u, j) {
      if i < |t| {
        assert Known(n, t, i) && Edge(t, i, j);
        assert Known(n, t, j);
      }
    }
    forall i: nat | Root(u, i) ensures Known(n, u, i) {
      if i < |t| { assert Root(t, i); }
    }
  }

  lemma SendKeeps(n: nat, t: Table, u: Table, fs: seq<nat>, peer: nat)
    requires Asleep(n, t) && Sane(t) && Enabled(t, Sent(fs, peer)) && Queued(t, u, peer, fs)
    ensures Asleep(n, u)
  {
    ScanConcat(t[peer].rcv, [[Control(true, fs)]]);
    ScanOne([Control(true, fs)]);
    hide Scan;
    forall i: nat | Root(u, i) ensures Known(n, u, i) { assert Held(t[i]) == Held(u[i]) && Root(t, i); }
    forall i: nat, j: nat | Known(n, u, i) && Edge(u, i, j) ensures Known(n, u, j) {
      assert Known(n, t, i);
      if Edge(t, i, j) {
        assert Known(n, t, j);
      } else {
        assert j in fs && Root(t, j);
      }
    }
  }

  lemma UnqueuedEdges(t: Table, i: nat)
    requires i < |t| && t[i].rcv != []
    ensures forall x: nat, y: nat :: Edge(Unqueued(t, i), x, y) ==> Edge(t, x, y)
    ensures forall y :: y in FirstRights(t[i].rcv[0]) ==> Edge(t, i, y)
  {
  }

  lemma ReceiveKeeps(n: nat, t: Table, u: Table, i: nat)
    requires Asleep(n, t) && Sane(t) && Enabled(t, Received(i, true))
    requires Handed(Unqueued(t, i), u, FirstRights(t[i].rcv[0]))
    ensures Asleep(n, u)
  {
    UnqueuedEdges(t, i);
    hide Scan, FirstRights;
    var fs := FirstRights(t[i].rcv[0]);
    assert Root(t, i);
    forall x: nat | Root(u, x) ensures Known(n, t, x) {
      if Occ(fs, x) > 0 {
        OccZero(fs, x);
        assert Edge(t, i, x);
      } else {
        assert Root(t, x);
      }
    }
    forall x: nat, y: nat | Edge(u, x, y) ensures Edge(t, x, y) { assert Edge(Unqueued(t, i), x, y); }
    FewerKeeps(n, t, u);
  }

  /** Closes, and the rights given up when a receiver has no room. */
  lemma SettledKeeps(n: nat, t: Table, t': Table, u: Table)
    requires Asleep(n, t) && Sane(t) && Sane(u) && SameMarks(t, u) && |t'| == |t|
    requires forall x: nat, y: nat :: Edge(t', x, y) ==> Edge(t, x, y)
    requires Settled(t', u) && forall i :: 0 <= i < |t| ==> Held(u[i]) <= Held(t[i])
    ensures Asleep(n, u)
  {
    hide Reachable;
    assert Scan([]) == [];
    forall x: nat, y: nat | Edge(u, x, y) ensures Edge(t, x, y) { assert Edge(t', x, y); }
    forall x: nat | Root(u, x) ensures Known(n, t, x) { assert Root(t, x); }
    FewerKeeps(n, t, u);
  }

  lemma HappensKeeps(n: nat, t: Table, u: Table, e: Event, limbo: seq<nat>)
    requires Asleep(n, t) && Accounted(t, limbo, -1) && Accounted(u, limbo, -1)
    requires Enabled(t, e) && Happens(t, u, e)
    ensures Asleep(n, u)
  {
    hide Asleep, Accounted, Queued, Handed, Settled, SameHeld, Edge;
    AccountedSane(t, limbo, -1);
    AccountedSane(u, limbo, -1);
    match e
    case Opened(kind) => OpenKeeps(n, t, kind);
    case Sent(fs, peer) => SendKeeps(n, t, u, fs, peer);
    case Received(i, avail) =>
      if avail {
        ReceiveKeeps(n, t, u, i);
      } else {
        UnqueuedEdges(t, i);
        assert forall x :: 0 <= x < |t| ==> Held(u[x]) <= Held(t[x]) by { SameHeldFacts(t, u); }
        SettledKeeps(n, t, Unqueued(t, i), u);
      }
    case Closed(f) => SettledKeeps(n, t, t, u);
  }

  lemma SameHeldFacts(t: Table, u: Table)
    requires SameHeld(t, u)
    ensures |u| == |t| && forall x :: 0 <= x < |t| ==> Held(u[x]) == Held(t[x])
  {
  }

  lemma AsleepReaches(n: nat, t: Table, i: nat)
    requires Asleep(n, t) && Reachable(t, i)
    ensures Known(n, t, i)
  {
    var p :| IsPath(t, p) && p[|p| - 1] == i;
    var s := set j: nat | j < |t| && Known(n, t, j);
    ClosedCovers(t, s, p);
  }

  lemma SleptPicks(n: nat, t: Table, limbo: seq<nat>)
    requires Asleep(n, t) && Accounted(t, limbo, -1)
    ensures n <= |t| && forall i :: n <= i < |t| ==> !t[i].mark
    ensures forall i: nat :: Reachable(t, i) ==> i < |t| && (Picked(t, i) <==> i >= n && Held(t[i]) == 0)
  {
    hide Reachable, Accounted;
    forall i: nat | Reachable(t, i)
      ensures i < |t| && (Picked(t, i) <==> i >= n && Held(t[i]) == 0)
    {
      AsleepReaches(n, t, i);
      ReachableAlive(t, limbo, -1, i);
    }
  }

  /** Files that were there keep their marks. */
  ghost predicate MarksKept(t: Table, u: Table) {
    |t| <= |u| && forall i :: 0 <= i < |t| ==> u[i].mark == t[i].mark
  }

  lemma HappensMarks(t: Table, u: Table, e: Event)
    requires Enabled(t, e) && Happens(t, u, e)
    ensures MarksKept(t, u)
  {
    hide Reachable, Occ, FirstRights;
  }

  lemma {:induction false} SleepKeeps(ts: seq<Table>, es: seq<Event>, limbo: seq<nat>, k: nat)
    requires Sleep(ts, es, limbo) && Asleep(|ts[0]|, ts[0]) && k <= |es|
    ensures Asleep(|ts[0]|, ts[k])
  {
    hide Asleep, Accounted, Happens;
    if k > 0 {
      SleepKeeps(ts, es, limbo, k - 1);
      HappensKeeps(|ts[0]|, ts[k - 1], ts[k], es[k - 1], limbo);
    }
  }

  /** If unp_gc sleeps after marking, the sweep picks a file that is reachable by then if and only if it
      was opened during the sleep and all its references are in flight. */
  lemma SleepExact(ts: seq<Table>, es: seq<Event>, limbo: seq<nat>, i: nat)
    requires Sleep(ts, es, limbo) && forall j :: 0 <= j < |ts[0]| ==> (ts[0][j].mark <==> Reachable(ts[0], j))
    requires Reachable(ts[|es|], i)
    ensures Picked(ts[|es|], i) <==> |ts[0]| <= i < |ts[|es|]| && Held(ts[|es|][i]) == 0
  {
    hide Reachable, Accounted, Happens;
    Falls(ts[0], limbo);
    SleepKeeps(ts, es, limbo, |es|);
    SleptPicks(|ts[0]|, ts[|es|], limbo);
  }

  /** It does happen: a file is opened, sent on a socket that another process holds, and closed. */
  lemma SweptThoughReachable() returns (ts: seq<Table>, es: seq<Event>)
    ensures Sleep(ts, es, []) && forall j :: 0 <= j < |ts[0]| ==> (ts[0][j].mark <==> Reachable(ts[0], j))
    ensures Reachable(ts[|es|], 1) && Picked(ts[|es|], 1)
  {
    hide Refs, Scan, Happens, Accounted, Reachable, IsPath;
    var s := File(1, 0, true, false, UnixSocket, []);
    var q := s.(rcv := [[Control(true, [1])]]);
    ts := [[s], [s, New(1, 0)], [q, New(2, 1)], [q, New(1, 1)]];
    es := [Opened(NoSocket), Sent([1], 0), Closed(1)];
    WitnessCounts(s, q);
    WitnessOpen(s);
    WitnessSend(s, New(1, 0), q, New(2, 1));
    WitnessClose(q);
    RootReachable(ts[0], 0);
    RootReachable(ts[3], 0);
    assert Edge(ts[3], 0, 1);
    EdgeReachable(ts[3], 0, 1);
  }

  lemma WitnessOpen(s: File)
    ensures Happens([s], [s, New(1, 0)], Opened(NoSocket))
  {
    assert [s] + [New(1, 0)] == [s, New(1, 0)];
  }

  lemma WitnessSend(s: File, x: File, q: File, y: File)
    requires s.kind.UnixSocket? && s.count > 0 && s.rcv == [] && q == s.(rcv := [[Control(true, [1])]])
    requires Held(x) >= 1 && y == x.(count := x.count + 1, msgcount := x.msgcount + 1)
    ensures Enabled([s, x], Sent([1], 0)) && Happens([s, x], [q, y], Sent([1], 0))
  {
    hide Scan, Refs, Reachable;
    assert s.rcv + [[Control(true, [1])]] == q.rcv;
  }

  lemma WitnessClose(q: File)
    requires q == File(1, 0, true, false, UnixSocket, [[Control(true, [1])]])
    ensures Enabled([q, New(2, 1)], Closed(1)) && Happens([q, New(2, 1)], [q, New(1, 1)], Closed(1))
  {
    hide Reachable;
    var t, u := [q, New(2, 1)], [q, New(1, 1)];
    assert t[0] == u[0] == q && t[1] == New(2, 1) && u[1] == New(1, 1);
  }

  function New(count: int, msgcount: int): File { File(count, msgcount, false, false, NoSocket, []) }

  lemma WitnessCounts(s: File, q: File)
    requires s == File(1, 0, true, false, UnixSocket, []) && q == s.(rcv := [[Control(true, [1])]])
    ensures Accounted([s], [], -1) && Accounted([s, New(1, 0)], [], -1)
    ensures Accounted([q, New(2, 1)], [], -1) && Accounted([q, New(1, 1)], [], -1)
    ensures Scan(q.rcv) == [1]
  {
    ScanOne([Control(true, [1])]);
    assert FirstRights([Control(true, [1])]) == [1] && Scan([]) == [];
    hide Scan, FirstRights;
    forall f: nat, x: File | x.rcv == []
      ensures Refs([s], f) == Refs([s, x], f) == 0 && Refs([q, x], f) == if f == 1 then 1 else 0
    {
      RefsTwo(s, x, f);
      RefsTwo(q, x, f);
      assert [s][..0] == [] && [1][1..] == [];
    }
    hide Refs;
  }
}
