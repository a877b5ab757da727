/** Socket buffers as they lie in memory: mbufs linked through m_next into records, records linked
    through the m_nextpkt of their first mbufs, relinked and freed in place. */
module SockList {
  import opened Common
  import opened Mbuf
  import opened SockBuf

  /** struct mbuf: its links, and the rest as a value. */
  class Node {
    var next: Node?
    var nextpkt: Node?
    var m: Mbuf
  }

  ghost function Head(ns: seq<Node>): Node? { if ns == [] then null else ns[0] }

  ghost function Last(ns: seq<Node>): Node? { if ns == [] then null else ns[|ns| - 1] }

  ghost function After(ns: seq<Node>, i: nat): Node? { if i + 1 < |ns| then ns[i + 1] else null }

  /** ns is linked through m_next, and ends. */
  ghost predicate Chain(ns: seq<Node>)
    reads ns`next
  {
    forall i :: 0 <= i < |ns| ==> ns[i].next == After(ns, i)
  }

  ghost predicate Distinct(ns: seq<Node>) { forall i, j :: 0 <= i < j < |ns| ==> ns[i] != ns[j] }

  ghost function Values(ns: seq<Node>): (r: seq<Mbuf>)
    reads ns`m
    ensures |r| == |ns| && forall i :: 0 <= i < |ns| ==> r[i] == ns[i].m
  {
    if ns == [] then [] else Values(ns[..|ns| - 1]) + [ns[|ns| - 1].m]
  }

  /** Two chains that share no mbuf and repeat none. */
  ghost predicate Separate(a: seq<Node>, b: seq<Node>) {
    Distinct(a) && Distinct(b) && forall i, j :: 0 <= i < |a| && 0 <= j < |b| ==> a[i] != b[j]
  }

  // ---------- the steps of sbcompress ----------

  lemma Both(a: seq<Node>, b: seq<Node>)
    requires Separate(a, b)
    ensures Distinct(a) && Distinct(b)
  {
  }

  lemma MoveOver(a: seq<Node>, b: seq<Node>)
    requires Separate(a, b) && b != []
    ensures Separate(a, b[1..]) && Separate(a + [b[0]], b[1..])
    ensures b[0] !in a && forall x :: x in b <==> x == b[0] || x in b[1..]
  {
  }

  lemma Ends(r: seq<Node>, rest: seq<Node>)
    requires Separate(r, rest) && rest != []
    ensures forall i :: 0 <= i < |r| ==> r[i] != rest[0] && (i < |r| - 1 ==> r[i] != r[|r| - 1])
    ensures forall i :: 0 <= i < |rest[1..]| ==> rest[1..][i] != rest[0] && (r != [] ==> rest[1..][i] != r[|r| - 1])
  {
  }

  lemma SnocAt(a: seq<Node>, x: Node, i: nat)
    requires i <= |a|
    ensures (a + [x])[i] == (if i < |a| then a[i] else x) && |a + [x]| == |a| + 1
    ensures After(a + [x], i) == if i + 1 < |a| then a[i + 1] else if i + 1 == |a| then x else null
  {
  }

  lemma LastNext(r: seq<Node>)
    ensures Last(r) == if r == [] then null else r[|r| - 1]
  {
  }

  lemma LinkAt(r: seq<Node>, i: nat)
    ensures After(r, i) == if i + 1 < |r| then r[i + 1] else null
  {
  }

  lemma TailAt(a: seq<Node>)
    requires a != []
    ensures |a[1..]| == |a| - 1 && forall i :: 0 <= i < |a| - 1 ==>
            a[1..][i] == a[i + 1] && After(a[1..], i) == After(a, i + 1)
  {
  }

  lemma TailValues(a: seq<Node>)
    requires a != [] && Chain(a)
    ensures Chain(a[1..]) && Values(a[1..]) == Values(a)[1..] && a[0].next == Head(a[1..])
  {
    TailAt(a);
    forall i | 0 <= i < |a[1..]| ensures a[1..][i].next == After(a[1..], i) { assert a[1..][i] == a[i + 1]; }
  }

  /** Copy the data of a mbuf to the end of the one before. */
  method CopyInto(n: Node, x: Mbuf, ghost r: seq<Node>, ghost rest: seq<Node>)
    requires r != [] && n == r[|r| - 1] && Separate(r, rest) && Chain(r) && Chain(rest)
    modifies n`m
    ensures Chain(r) && Chain(rest) && Values(rest) == old(Values(rest)) && Values(r) == JoinLast(old(Values(r)), x)
  {
    ghost var v := Values(r);
    n.m := n.m.(data := n.m.data + x.data);
    assert forall i :: 0 <= i < |r| - 1 ==> r[i] != n;
    forall i | 0 <= i < |r| ensures r[i].m == JoinLast(v, x)[i] { }
  }

  /** Put the first mbuf of rest behind r. */
  method LinkBehind(n: Node?, x: Node, ghost r: seq<Node>, ghost rest: seq<Node>) returns (m: Node?)
    requires rest != [] && x == rest[0] && n == Last(r) && Separate(r, rest) && Chain(r) && Chain(rest)
    modifies n, x
    ensures x.nextpkt == old(x.nextpkt) && (n != null ==> n.nextpkt == old(n.nextpkt))
    ensures Chain(r + [x]) && Chain(rest[1..]) && m == Head(rest[1..])
    ensures Values(rest[1..]) == old(Values(rest))[1..]
    ensures Values(r + [x]) == old(Values(r)) + [old(x.m).(eor := false)]
  {
    hide Separate, Values, After;
    Ends(r, rest);
    TailValues(rest);
    LastNext(r);
    ghost var v := Values(r);
    var y := x.m.(eor := false);
    if n != null { n.next := x; }
    x.m := y;
    m := x.next;
    x.next := null;
    forall i | 0 <= i < |r + [x]|
      ensures (r + [x])[i].next == After(r + [x], i)
      ensures (r + [x])[i].m == (v + [y])[i]
    {
      SnocAt(r, x, i);
      LinkAt(r, i);
    }
  }

  /** One more mbuf of a chain taken into account. */
  lemma PackNext(v: seq<Mbuf>, w: seq<Mbuf>, eor: bool)
    requires w != []
    ensures var x, eor' := w[0], eor || w[0].eor;
            Pack(v, w, eor) == Pack(if Dropped(x, eor', w[1..], v) then v else if Joins(v, x) then JoinLast(v, x)
                else v + [x.(eor := false)], w[1..], eor')
  {
  }

  lemma PackEnd(v: seq<Mbuf>, eor: bool)
    ensures Pack(v, [], eor) == (if eor then Mark(v) else v) && Mark([]) == []
  {
  }

  lemma SpaceJoin(v: seq<Mbuf>, x: Mbuf)
    requires v != []
    ensures Space(JoinLast(v, x)) == Space(v)
  {
    hide Space;
    var q, n := v[..|v| - 1], v[|v| - 1];
    assert v == q + [n];
    Snoc(q, n);
    Snoc(q, n.(data := n.data + x.data));
  }

  lemma SpaceLink(v: seq<Mbuf>, x: Mbuf)
    ensures Space(v + [x.(eor := false)]) == Space(v) + Storage(x)
  {
    Snoc(v, x.(eor := false));
  }

  lemma SpaceMark(v: seq<Mbuf>)
    ensures Space(Mark(v)) == Space(v)
  {
    hide Space;
    if v != [] {
      var q, n := v[..|v| - 1], v[|v| - 1];
      assert v == q + [n];
      Snoc(q, n);
      Snoc(q, n.(eor := true));
    }
  }

  method SetEor(n: Node, ghost r: seq<Node>)
    requires r != [] && n == r[|r| - 1] && Distinct(r) && Chain(r)
    modifies n`m
    ensures Chain(r) && Values(r) == Mark(old(Values(r)))
  {
    ghost var v := Values(r);
    n.m := n.m.(eor := true);
    forall i | 0 <= i < |r| ensures r[i].m == Mark(v)[i] { }
  }

  // ---------- records ----------

  ghost function Nodes(rs: seq<seq<Node>>): set<Node> {
    set i, j | 0 <= i < |rs| && 0 <= j < |rs[i]| :: rs[i][j]
  }

  ghost function All(rs: seq<seq<Node>>): (r: seq<seq<Mbuf>>)
    reads Nodes(rs)`m
    ensures |r| == |rs| && forall i :: 0 <= i < |rs| ==> r[i] == Values(rs[i])
  {
    if rs == [] then [] else All(rs[..|rs| - 1]) + [Values(rs[|rs| - 1])]
  }

  /** The first mbuf of record i, or null. */
  ghost function Start(rs: seq<seq<Node>>, i: nat): Node? { if i < |rs| then Head(rs[i]) else null }

  /** Records linked through the m_nextpkt of their first mbufs, each a chain that is not empty. */
  ghost predicate Packets(rs: seq<seq<Node>>)
    reads Nodes(rs)`next, Nodes(rs)`nextpkt
  {
    forall i :: 0 <= i < |rs| ==> rs[i] != [] && Chain(rs[i]) && rs[i][0].nextpkt == Start(rs, i + 1)
  }

  /** No mbuf is in two places. */
  ghost predicate Unique(rs: seq<seq<Node>>) {
    (forall i :: 0 <= i < |rs| ==> Distinct(rs[i])) &&
    forall i, k :: 0 <= i < k < |rs| ==> Separate(rs[i], rs[k])
  }

  /** What sbdrop has left of the first record it has not dropped, and the records after that. */
  ghost function Part(rs: seq<seq<Node>>, i: nat, j: nat): (p: seq<Node>)
    ensures forall k :: 0 <= k < |p| ==> p[k] in Nodes(rs)
  {
    if i < |rs| && j <= |rs[i]| then rs[i][j..] else []
  }

  ghost function Others(rs: seq<seq<Node>>, i: nat): (o: seq<seq<Node>>)
    ensures Nodes(o) <= Nodes(rs)
  {
    LaterNodes(rs, i);
    if i < |rs| then rs[i + 1..] else []
  }

  lemma LaterNodes(rs: seq<seq<Node>>, i: nat)
    ensures i < |rs| ==> Nodes(rs[i + 1..]) <= Nodes(rs)
  {
    if i < |rs| {
      var o := rs[i + 1..];
      forall k, l | 0 <= k < |o| && 0 <= l < |o[k]| ensures o[k][l] in Nodes(rs) { assert o[k] == rs[i + 1 + k]; }
    }
  }

  /** Where sbdrop is, with n bytes to go: m is what is left of record i, next the record after it, and
      the counts are those of what is left. */
  ghost predicate Left(rs: seq<seq<Node>>, m: Node?, next: Node?, i: nat, j: nat, cc: int, mbcnt: int)
    reads Nodes(rs)`m
  {
    var first, others := Values(Part(rs, i, j)), All(Others(rs, i));
    m == Head(Part(rs, i, j)) && next == Start(rs, i + 1) && ChainOk(first) && RecordsOk(others) &&
    cc == |Content(first)| + |Content(Flat(others))| && mbcnt == Space(first) + Space(Flat(others))
  }

  /** What the rest of sbdrop has to make of what is left. */
  ghost function ToDrop(rs: seq<seq<Node>>, i: nat, j: nat, n: nat): seq<Record>
    reads Nodes(rs)`m
  {
    DropAbs([Meaning(Values(Part(rs, i, j)))] + Abs(All(Others(rs, i))), n)
  }

  lemma OpenList(rs: seq<seq<Node>>, cc: int, mbcnt: int, n: nat)
    requires Packets(rs) && RecordsOk(All(rs)) && CountsOk(All(rs), cc, mbcnt)
    ensures Left(rs, Start(rs, 0), Start(rs, 1), 0, 0, cc, mbcnt) && ToDrop(rs, 0, 0, n) == DropAbs(Abs(All(rs)), n)
    ensures Start(rs, 1) == if rs == [] || rs[0] == [] then null else rs[0][0].nextpkt
    ensures Start(rs, 0) == if rs == [] || rs[0] == [] then null else rs[0][0]
  {
    hide Content, Space, Flat, DropAbs, Values, Meaning, Chain;
    Open(All(rs), n);
    if rs != [] {
      assert rs[0][0..] == rs[0];
      assert All(rs)[1..] == All(rs[1..]);
    } else {
      assert Values([]) == [] && All([]) == [];
    }
  }

  lemma PassRecord(rs: seq<seq<Node>>, next: Node?, i: nat, j: nat, cc: int, mbcnt: int, n: nat)
    requires Packets(rs) && Left(rs, null, next, i, j, cc, mbcnt) && n > 0
    ensures next == null ==> cc == 0
    ensures next != null ==>
              i + 1 < |rs| && Left(rs, next, Start(rs, i + 2), i + 1, 0, cc, mbcnt) &&
                next.nextpkt == Start(rs, i + 2) &&
              ToDrop(rs, i, j, n) == ToDrop(rs, i + 1, 0, n)
  {
    hide Content, Space, Flat, DropAbs, Values, Meaning, Chain;
    var o := Others(rs, i);
    NextRecord(All(o), n);
    assert Values(Part(rs, i, j)) == [];
    if next == null {
      assert o == [];
    } else {
      assert rs[i + 1][0..] == rs[i + 1] && o[0] == rs[i + 1] && o[1..] == Others(rs, i + 1);
      assert All(o)[1..] == All(o[1..]);
    }
  }

  lemma InBuffer(rs: seq<seq<Node>>, m: Node?, next: Node?, i: nat, j: nat, cc: int, mbcnt: int)
    requires Left(rs, m, next, i, j, cc, mbcnt)
    ensures m != null ==> m in Nodes(rs)
  {
  }

  lemma LeftLinks(rs: seq<seq<Node>>, m: Node?, next: Node?, i: nat, j: nat, cc: int, mbcnt: int)
    requires Left(rs, m, next, i, j, cc, mbcnt)
    ensures next == Start(rs, i + 1) && (m == null <==> Part(rs, i, j) == [])
    ensures m != null ==> i < |rs| && j < |rs[i]| && m == rs[i][j] == Part(rs, i, j)[0]
    ensures m != null ==> j + |Part(rs, i, j)| == |rs[i]|
    ensures m != null ==> forall k :: 0 <= k < |Part(rs, i, j)| ==> Part(rs, i, j)[k] == rs[i][j + k]
  {
  }

  /** After a change to the first mbuf of p. */
  lemma SameRest(p: seq<Node>, v: seq<Mbuf>, m: Node)
    requires |v| == |p| > 0 && m == p[0] && forall k :: 0 < k < |p| ==> p[k].m == v[k]
    ensures Values(p) == [m.m] + v[1..]
  {
  }

  lemma LeftNatural(rs: seq<seq<Node>>, m: Node?, next: Node?, i: nat, j: nat, cc: int, mbcnt: int)
    requires Left(rs, m, next, i, j, cc, mbcnt)
    ensures cc >= 0
  {
  }

  lemma LeftCounts(rs: seq<seq<Node>>, m: Node, next: Node?, i: nat, j: nat, cc: int, mbcnt: int)
    requires Left(rs, m, next, i, j, cc, mbcnt)
    ensures cc >= |m.m.data|
  {
    hide Content, Space, Flat;
    Peel(Values(Part(rs, i, j)));
  }

  /** The first mbuf of what is left is freed. */
  lemma FreeMbuf(rs: seq<seq<Node>>, m: Node, next: Node?, i: nat, j: nat, cc: int, mbcnt: int)
    requires Packets(rs) && Left(rs, m, next, i, j, cc, mbcnt)
    ensures i < |rs| && j < |rs[i]| && m == rs[i][j]
    ensures Left(rs, m.next, next, i, j + 1, cc - |m.m.data|, mbcnt - Storage(m.m))
  {
    hide Content, Space, Flat, Values, All;
    var p := Part(rs, i, j);
    Peel(Values(p));
    assert p[1..] == Part(rs, i, j + 1);
    assert Values(p)[1..] == Values(p[1..]);
  }

  lemma PassMbuf(rs: seq<seq<Node>>, m: Node, next: Node?, i: nat, j: nat, cc: int, mbcnt: int, n: nat)
    requires Packets(rs) && Left(rs, m, next, i, j, cc, mbcnt) && |m.m.data| <= n
    ensures i < |rs| && j < |rs[i]| && m == rs[i][j]
    ensures Left(rs, m.next, next, i, j + 1, cc - |m.m.data|, mbcnt - Storage(m.m))
    ensures ToDrop(rs, i, j, n) == ToDrop(rs, i, j + 1, n - |m.m.data|)
  {
    hide Content, Space, Flat, DropAbs, Values, Meaning, All, Nodes, Packets, Abs, Others, RecordsOk, ChainOk, Start;
    FreeMbuf(rs, m, next, i, j, cc, mbcnt);
    var p := Part(rs, i, j);
    Unchain(Values(p), Abs(All(Others(rs, i))), n);
    assert p[1..] == Part(rs, i, j + 1);
    assert Values(p)[1..] == Values(p[1..]);
  }

  lemma EmptyList(rs: seq<seq<Node>>)
    requires Packets(rs) && Start(rs, 0) == null
    ensures rs == [] && Abs(All(rs)) == []
  {
  }

  /** Once the first record is freed. */
  lemma DroppedLinks(rs: seq<seq<Node>>)
    requires rs != [] && Packets(rs) && Unique(rs)
    ensures Nodes(rs[1..]) <= Nodes(rs) && Packets(rs[1..]) && Unique(rs[1..]) && Start(rs[1..], 0) == Start(rs, 1)
  {
    hide Chain, Unique, Nodes;
    assert Part(rs, 0, |rs[0]|) == [] && Others(rs, 0) == rs[1..];
    assert Rest(rs, 0, |rs[0]|) == rs[1..];
    RestUnique(rs, 0, |rs[0]|);
    LaterPackets(rs, 0);
  }

  lemma DroppedValues(rs: seq<seq<Node>>, j: nat, cc: int, mbcnt: int)
    requires rs != [] && Left(rs, null, Start(rs, 1), 0, j, cc, mbcnt)
    ensures RecordsOk(All(rs[1..])) && CountsOk(All(rs[1..]), cc, mbcnt) && Abs(All(rs[1..])) == Abs(All(rs))[1..]
  {
    hide Content, Space, Flat, RecordsOk, Meaning, Values, Part, All, Nodes;
    NoMbufs();
    assert Values(Part(rs, 0, j)) == [] && Others(rs, 0) == rs[1..];
    assert All(rs[1..]) == All(rs)[1..];
  }

  /** The mbuf at the front of what is left is nowhere else in it. */
  lemma FrontAlone(rs: seq<seq<Node>>, i: nat, j: nat)
    requires Unique(rs) && i < |rs| && j < |rs[i]|
    ensures rs[i][j] !in Nodes(Others(rs, i)) && Part(rs, i, j) == [rs[i][j]] + Part(rs, i, j + 1)
    ensures forall k :: 0 <= k < |rs[i]| && k != j ==> rs[i][k] != rs[i][j]
    ensures forall k, l :: 0 <= k < |rs| && k != i && 0 <= l < |rs[k]| ==> rs[k][l] != rs[i][j]
  {
    forall k, l | 0 <= k < |rs| && k != i && 0 <= l < |rs[k]| ensures rs[k][l] != rs[i][j] {
      if k < i { assert Separate(rs[k], rs[i]); } else { assert Separate(rs[i], rs[k]); }
    }
  }

  /** The records once the drop is done. */
  ghost function Rest(rs: seq<seq<Node>>, i: nat, j: nat): seq<seq<Node>> {
    (if Part(rs, i, j) == [] then [] else [Part(rs, i, j)]) + Others(rs, i)
  }

  lemma RestUnique(rs: seq<seq<Node>>, i: nat, j: nat)
    requires Unique(rs)
    ensures Unique(Rest(rs, i, j)) && Nodes(Rest(rs, i, j)) <= Nodes(rs)
  {
    var p, o := Part(rs, i, j), Others(rs, i);
    forall k | 0 <= k < |o| ensures Separate(p, o[k]) {
      assert o[k] == rs[i + 1 + k] && Separate(rs[i], rs[i + 1 + k]);
    }
    forall k, l | 0 <= k < l < |o| ensures Separate(o[k], o[l]) {
      assert o[k] == rs[i + 1 + k] && o[l] == rs[i + 1 + l];
    }
  }

  lemma RestPackets(rs: seq<seq<Node>>, i: nat, j: nat)
    requires forall k :: 0 <= k < |rs| ==> rs[k] != [] && Chain(rs[k])
    requires forall k :: i < k < |rs| ==> rs[k][0].nextpkt == Start(rs, k + 1)
    requires Part(rs, i, j) != [] ==> Part(rs, i, j)[0].nextpkt == Start(rs, i + 1)
    ensures Packets(Rest(rs, i, j)) && Start(Rest(rs, i, j), 0) == if Part(rs, i, j) == [] then Start(rs, i + 1)
            else Part(rs, i, j)[0]
  {
    PartChain(rs, i, j);
    LaterPackets(rs, i);
    hide Chain, Packets;
    var p, o := Part(rs, i, j), Others(rs, i);
    if p == [] {
      assert Rest(rs, i, j) == o;
    } else {
      FirstPacket(p, o);
    }
  }

  lemma LaterPackets(rs: seq<seq<Node>>, i: nat)
    requires forall k :: i < k < |rs| ==> rs[k] != [] && Chain(rs[k]) && rs[k][0].nextpkt == Start(rs, k + 1)
    ensures Packets(Others(rs, i)) && Start(Others(rs, i), 0) == Start(rs, i + 1)
  {
    hide Chain;
    var o: seq<seq<Node>> := Others(rs, i);
    forall k | 0 <= k < |o|
      ensures o[k] != [] && Chain(o[k]) && o[k][0].nextpkt == Start(o, k + 1)
    {
      assert o[k] == rs[i + 1 + k] && Start(o, k + 1) == Start(rs, i + 1 + k + 1);
    }
  }

  lemma FirstPacket(p: seq<Node>, o: seq<seq<Node>>)
    requires p != [] && Chain(p) && Packets(o) && p[0].nextpkt == Start(o, 0)
    ensures Packets([p] + o)
  {
    hide Chain;
    var r: seq<seq<Node>> := [p] + o;
    forall k | 0 <= k < |r|
      ensures r[k] != [] && Chain(r[k]) && r[k][0].nextpkt == Start(r, k + 1)
    {
      assert Start(r, k + 1) == Start(o, k);
      if k > 0 { assert r[k] == o[k - 1]; }
    }
  }

  lemma PartChain(rs: seq<seq<Node>>, i: nat, j: nat)
    requires i < |rs| ==> Chain(rs[i])
    ensures Chain(Part(rs, i, j))
  {
    var p := Part(rs, i, j);
    forall k | 0 <= k < |p| ensures p[k].next == After(p, k) {
      assert p[k] == rs[i][j + k] && After(rs[i], j + k) == After(p, k);
    }
  }

  lemma RestValues(rs: seq<seq<Node>>, i: nat, j: nat)
    ensures All(Rest(rs, i, j)) == (if Part(rs, i, j) == [] then [] else [Values(Part(rs, i, j))]) + All(Others(rs, i))
  {
  }

  lemma CloseList(rs: seq<seq<Node>>, m: Node?, next: Node?, i: nat, j: nat, cc: int, mbcnt: int)
    requires Left(rs, m, next, i, j, cc, mbcnt) && (m != null ==> m.m.data != [])
    ensures RecordsOk(All(Rest(rs, i, j))) && CountsOk(All(Rest(rs, i, j)), cc, mbcnt)
    ensures Abs(All(Rest(rs, i, j))) == ToDrop(rs, i, j, 0)
  {
    hide Content, Space, Flat, DropAbs, Values, Meaning, Abs, All, Nodes, RecordsOk;
    var p, o := Part(rs, i, j), Others(rs, i);
    Close(Values(p), All(o));
    RestValues(rs, i, j);
    if p == [] { assert [] + All(o) == All(o); }
  }

  // ---------- appending ----------

  ghost function Elems(ns: seq<Node>): set<Node> { set x | x in ns }

  lemma NoElems()
    ensures Elems([]) == {}
  {
  }

  lemma Owns(q: seq<seq<Node>>, rec: seq<Node>, r: seq<Node>, ns: seq<Node>, repr: set<Node>)
    requires Nodes(q) <= repr && Elems(rec) <= repr && forall x :: x in r ==> x in rec || x in ns
    ensures Nodes(q + [r]) <= repr + Elems(ns)
  {
    hide Nodes;
    SnocNodes(q, r);
  }

  /** A chain handed to the buffer: linked, of its own, with mbufs that fit and are no record heads. */
  ghost predicate Given(m: Node?, ns: seq<Node>)
    reads ns
  {
    m == Head(ns) && Chain(ns) && Distinct(ns) && AllFit(Values(ns)) && forall x :: x in ns ==> x.nextpkt == null
  }

  lemma FirstApart(ns: seq<Node>)
    requires ns != [] && Distinct(ns)
    ensures Separate([ns[0]], ns[1..]) && forall i :: 0 < i < |ns| ==> ns[i] != ns[0] && (i > 1 ==> ns[i] != ns[1])
  {
  }

  lemma LastIn(rs: seq<seq<Node>>)
    ensures rs != [] && rs[|rs| - 1] != [] ==> Head(rs[|rs| - 1]) in Nodes(rs)
  {
  }

  lemma NoNodes()
    ensures Nodes([]) == {} && Unique([]) && Packets([]) && All([]) == [] && Values([]) == [] && Abs([]) == []
  {
  }

  lemma Apart(a: seq<Node>, b: seq<Node>)
    requires Distinct(a) && Distinct(b) && forall x :: x in b ==> x !in a
    ensures Separate(a, b)
  {
    forall i, j | 0 <= i < |a| && 0 <= j < |b| ensures a[i] != b[j] { assert b[j] in b; }
  }

  /** The records of a buffer that had none. */
  ghost function Only(r: seq<Node>): seq<seq<Node>> { if r == [] then [] else [r] }

  lemma OnlyRecord(r: seq<Node>, ns: seq<Node>)
    requires Chain(r) && Distinct(r) && forall x :: x in r ==> x in ns && x.nextpkt == null
    ensures Packets(Only(r)) && Unique(Only(r)) && Start(Only(r), 0) == Head(r) && Nodes(Only(r)) <= Elems(ns)
    ensures All(Only(r)) == if Values(r) == [] then [] else [Values(r)]
  {
    if r == [] {
      NoNodes();
    } else {
      assert r[0] in r && [] + [r] == [r] && Nodes([]) == {};
      SnocNodes([], r);
    }
  }

  lemma NoChain(ns: seq<Node>)
    requires Distinct(ns)
    ensures Separate([], ns) && Chain([])
  {
  }

  lemma SnocUnique(q: seq<seq<Node>>, r: seq<Node>)
    requires Unique(q) && Distinct(r) && forall x :: x in r ==> x !in Nodes(q)
    ensures Unique(q + [r]) && Nodes(q + [r]) == Nodes(q) + Elems(r)
  {
    forall i | 0 <= i < |q| ensures Separate(q[i], r) {
      forall a, b | 0 <= a < |q[i]| && 0 <= b < |r| ensures q[i][a] != r[b] { assert r[b] in r && q[i][a] in Nodes(q); }
    }
    var s := q + [r];
    forall i, k | 0 <= i < k < |s| ensures Separate(s[i], s[k]) {
      if k < |q| { assert Separate(q[i], q[k]); }
    }
    SnocNodes(q, r);
  }

  lemma SnocNodes(q: seq<seq<Node>>, r: seq<Node>)
    ensures Nodes(q + [r]) == Nodes(q) + Elems(r)
  {
    var s := q + [r];
    forall x | x in Nodes(s) ensures x in Nodes(q) || x in r {
      var i, j :| 0 <= i < |s| && 0 <= j < |s[i]| && s[i][j] == x;
      if i < |q| { assert q[i][j] == x; }
    }
    forall x | x in Nodes(q) ensures x in Nodes(s) {
      var i, j :| 0 <= i < |q| && 0 <= j < |q[i]| && q[i][j] == x;
      assert s[i][j] == x;
    }
    forall x | x in r ensures x in Nodes(s) {
      var j :| 0 <= j < |r| && r[j] == x;
      assert s[|q|][j] == x;
    }
  }

  /** Records linked as Packets demands, the last one to the record that begins with x. */
  ghost predicate Awaits(q: seq<seq<Node>>, x: Node)
    reads Nodes(q)`next, Nodes(q)`nextpkt
  {
    forall i :: 0 <= i < |q| ==>
        q[i] != [] && Chain(q[i]) &&
        q[i][0].nextpkt == if i + 1 < |q| then Start(q, i + 1) else x
  }

  lemma SnocPackets(q: seq<seq<Node>>, r: seq<Node>)
    requires r != [] && Chain(r) && r[0].nextpkt == null && Awaits(q, r[0])
    ensures Packets(q + [r]) && Start(q + [r], 0) == if q == [] then r[0] else Start(q, 0)
  {
    hide Chain;
    var s: seq<seq<Node>> := q + [r];
    forall i | 0 <= i < |s|
      ensures s[i] != [] && Chain(s[i]) && s[i][0].nextpkt == Start(s, i + 1)
    {
      assert Start(s, i + 1) == if i + 1 < |q| then Start(q, i + 1) else if i + 1 == |q| then r[0] else null;
    }
  }

  lemma SnocValues(q: seq<seq<Node>>, r: seq<Node>)
    ensures All(q + [r]) == All(q) + [Values(r)]
  {
    hide Values;
  }

  /** The records before the last. */
  lemma Butlast(rs: seq<seq<Node>>)
    requires rs != [] && Packets(rs) && Unique(rs)
    ensures var k := |rs| - 1;
            rs == rs[..k] + [rs[k]] && Unique(rs[..k]) && rs[k] != [] && Chain(rs[k]) && Distinct(rs[k]) &&
              rs[k][0].nextpkt == null &&
            Nodes(rs) == Nodes(rs[..k]) + Elems(rs[k]) && (forall x :: x in rs[k] ==> x !in Nodes(rs[..k])) &&
            Awaits(rs[..k], rs[k][0])
  {
    hide Chain;
    var k := |rs| - 1;
    var q := rs[..k];
    assert rs == q + [rs[k]];
    SnocNodes(q, rs[k]);
    forall i, j | 0 <= i < |q| && 0 <= j < |q[i]| ensures q[i][j] !in rs[k] {
      assert q[i] == rs[i] && Separate(rs[i], rs[k]);
    }
    forall i, l | 0 <= i < l < |q| ensures Separate(q[i], q[l]) { assert Separate(rs[i], rs[l]); }
  }

  // ---------- appending, on values ----------

  /** The last record grown by a chain. */
  lemma AppendValues(rs: seq<seq<Mbuf>>, rec: seq<Mbuf>, m: seq<Mbuf>, cc: int, mbcnt: int)
    requires RecordsOk(rs + [rec]) && CountsOk(rs + [rec], cc, mbcnt) && m != [] && AllFit(m) && !EndsRecord(rec)
    ensures var p := Pack(rec, m, false);
            RecordsOk(rs + [p]) && CountsOk(rs + [p], cc + |Content(m)|, mbcnt + Space(p) - Space(rec)) &&
            Abs(rs + [p]) == AppendAbs(Abs(rs + [rec]), Record(Content(m), HasEor(m)))
  {
    hide Content, Space, Flat, Pack, HasEor, AllFit, EorLast;
    var p := Pack(rec, m, false);
    assert (rs + [rec])[|rs|] == rec;
    PackKeeps(rec, m, false);
    CountsSnoc(rs, rec);
    CountsSnoc(rs, p);
    assert forall i :: 0 <= i < |rs| ==> (rs + [p])[i] == (rs + [rec])[i];
    assert Abs(rs + [rec])[..|rs|] == Abs(rs + [p])[..|rs|];
  }

  /** The first record of an empty buffer; there may be nothing to keep. */
  lemma AppendFirst(m: seq<Mbuf>, cc: int, mbcnt: int)
    requires CountsOk([], cc, mbcnt) && m != [] && AllFit(m)
    ensures var p := Pack([], m, false);
            var rs := if p == [] then [] else [p];
            RecordsOk(rs) && CountsOk(rs, cc + |Content(m)|, mbcnt + Space(p) - Space([])) &&
            Abs(rs) == AppendAbs([], Record(Content(m), HasEor(m)))
  {
    hide Content, Space, Flat, Pack, HasEor, AllFit, EorLast;
    NoFit();
    PackKeeps([], m, false);
    CountsFirst(Pack([], m, false));
    assert Content([]) + Content(m) == Content(m);
  }

  lemma OwnSize(m: seq<Mbuf>)
    requires m != []
    ensures OwnFirst(m).data == m[0].data && Storage(OwnFirst(m)) == Storage(m[0])
  {
  }

  lemma AppendEnded(a: seq<Record>, c: Record)
    requires a != [] && a[|a| - 1].ended
    ensures AppendAbs(a, c) == a + [c]
  {
  }

  lemma LastOk(rs: seq<seq<Node>>)
    requires rs != [] && RecordsOk(All(rs))
    ensures EorLast(Values(rs[|rs| - 1])) && Abs(All(rs))[|rs| - 1].ended == EndsRecord(Values(rs[|rs| - 1]))
  {
  }

  lemma NoFit()
    ensures AllFit([]) && EorLast([]) && !EndsRecord([])
  {
  }

  /** A record of its own: its first mbuf as it is put on the queue, and the rest of the chain. */
  function OwnFirst(m: seq<Mbuf>): Mbuf
    requires m != []
  {
    if |m| > 1 && m[0].eor then m[0].(eor := false) else m[0]
  }

  function OwnRest(m: seq<Mbuf>): seq<Mbuf>
    requires m != []
  {
    if |m| > 1 && m[0].eor then m[1..][0 := m[1].(eor := true)] else m[1..]
  }

  lemma OwnRecord(rs: seq<seq<Mbuf>>, m: seq<Mbuf>, cc: int, mbcnt: int)
    requires RecordsOk(rs) && CountsOk(rs, cc, mbcnt) && m != [] && AllFit(m)
    ensures var m0, rest := OwnFirst(m), OwnRest(m);
            var p := Pack([m0], rest, false);
            p != [] && RecordsOk(rs + [p]) && CountsOk(rs + [p], cc + |m0.data| + |Content(rest)|,
              mbcnt + Storage(m0) + Space(p) - Space([m0])) &&
            Abs(rs + [p]) == Abs(rs) + [Record(Content(m), HasEor(m))]
  {
    hide Content, Space, Flat, Pack, HasEor, AllFit;
    var m0, rest := OwnFirst(m), OwnRest(m);
    var p := Pack([m0], rest, false);
    MovedMark(m);
    One(m0);
    PackKeeps([m0], rest, false);
    CountsSnoc(rs, p);
    assert Abs(rs + [p]) == Abs(rs) + [Meaning(p)];
  }

  /** sb_mb, sb_cc and sb_mbcnt; recs are the records, repr the mbufs the buffer has ever owned. */
  class Sockbuf {
    var mb: Node?
    var cc: int
    var mbcnt: int
    ghost var recs: seq<seq<Node>>
    ghost var repr: set<Node>

    ghost predicate Valid()
      reads this, Nodes(recs)
    {
      Nodes(recs) <= repr && Packets(recs) && Unique(recs) && mb == Start(recs, 0) &&
      RecordsOk(All(recs)) && CountsOk(All(recs), cc, mbcnt)
    }

    /** The records as values. */
    ghost function Records(): seq<Record>
      reads this, Nodes(recs)
    {
      Abs(All(recs))
    }

    /** The first loop of sbdrop, up to the mbuf that holds the end of what is dropped: n bytes are to
        be dropped from m, and next follows m's record. */
    method Skip(len: nat) returns (ok: bool, m: Node?, next: Node?, n: nat, ghost i: nat, ghost j: nat)
      requires Valid()
      modifies this`cc, this`mbcnt
      ensures ok <==> len <= old(cc)
      ensures ok ==> Left(recs, m, next, i, j, cc, mbcnt) && cc - n == old(cc) - len
      ensures ok ==> ToDrop(recs, i, j, n) == DropAbs(Records(), len) && (n > 0 ==> m != null && n < |m.m.data|)
    {
      hide Content, Space, Flat, DropAbs, Values, All, Abs, Packets, Unique, Nodes, Left, ToDrop, RecordsOk, CountsOk,
          Part, Others, Start, Head, Meaning, ChainOk;
      ok, m, n, i, j := true, mb, len, 0, 0;
      OpenList(recs, cc, mbcnt, len);
      next := if m != null then m.nextpkt else null;
      while n > 0
        invariant Left(recs, m, next, i, j, cc, mbcnt) && cc - n == old(cc) - len
        invariant ToDrop(recs, i, j, n) == DropAbs(Records(), len)
        decreases |recs| - i, if i < |recs| then |recs[i]| - j else 0
      {
        if m == null {
          PassRecord(recs, next, i, j, cc, mbcnt, n);
          if next == null { return false, m, next, n, i, j; }
          m := next;
          next := m.nextpkt;
          i, j := i + 1, 0;
          continue;
        }
        LeftCounts(recs, m, next, i, j, cc, mbcnt);
        if |m.m.data| > n { return; }
        PassMbuf(recs, m, next, i, j, cc, mbcnt, n);
        n := n - |m.m.data|;
        cc, mbcnt := cc - |m.m.data|, mbcnt - Storage(m.m);
        m := m.next;
        j := j + 1;
      }
      LeftNatural(recs, m, next, i, j, cc, mbcnt);
    }

    /** Drop n bytes of the mbuf that has more. */
    method TrimFirst(m: Node, next: Node?, n: nat, ghost i: nat, ghost j: nat)
      requires Packets(recs) && Unique(recs) && Left(recs, m, next, i, j, cc, mbcnt) && n < |m.m.data|
      modifies m`m, this`cc
      ensures Packets(recs) && Left(recs, m, next, i, j, cc, mbcnt) && cc == old(cc) - n && m.m.data != []
      ensures ToDrop(recs, i, j, 0) == old(ToDrop(recs, i, j, n))
    {
      hide Content, Space, Flat, DropAbs, Values, Meaning, Unique, ChainOk, RecordsOk, Packets, Nodes, All, Abs, Part,
          Others, Start;
      LeftLinks(recs, m, next, i, j, cc, mbcnt);
      FrontAlone(recs, i, j);
      ghost var p, o, v := Part(recs, i, j), Others(recs, i), Values(Part(recs, i, j));
      Trim(v, Abs(All(o)), n);
      m.m := m.m.(data := m.m.data[n..], start := m.m.start + n);
      cc := cc - n;
      forall k | 0 < k < |p| ensures p[k] != m { assert p[k] == recs[i][j + k]; }
      SameRest(p, v, m);
    }

    /** The second loop of sbdrop. */
    method SkipEmpty(m0: Node?, next: Node?, ghost i: nat, ghost j0: nat) returns (m: Node?, ghost j: nat)
      requires Packets(recs) && Left(recs, m0, next, i, j0, cc, mbcnt)
      modifies this`cc, this`mbcnt
      ensures Left(recs, m, next, i, j, cc, mbcnt) && cc == old(cc) && (m != null ==> m.m.data != [])
      ensures ToDrop(recs, i, j, 0) == ToDrop(recs, i, j0, 0)
    {
      hide Content, Space, Flat, DropAbs, Values, All, Abs, Packets, Nodes, Left, ToDrop, RecordsOk, Part, Others,
          Start, Head, Meaning, ChainOk;
      m, j := m0, j0;
      while m != null && m.m.data == []
        invariant Packets(recs) && Left(recs, m, next, i, j, cc, mbcnt) && cc == old(cc)
        invariant ToDrop(recs, i, j, 0) == ToDrop(recs, i, j0, 0)
        decreases if i < |recs| then |recs[i]| - j else 0
      {
        PassMbuf(recs, m, next, i, j, cc, mbcnt, 0);
        cc, mbcnt := cc - |m.m.data|, mbcnt - Storage(m.m);
        m := m.next;
        j := j + 1;
      }
    }

    /** The end of sbdrop. */
    method Relink(m: Node?, next: Node?, ghost i: nat, ghost j: nat)
      requires Nodes(recs) <= repr && Packets(recs) && Unique(recs)
      requires Left(recs, m, next, i, j, cc, mbcnt) && (m != null ==> m.m.data != [])
      modifies this`mb, this`recs, m
      ensures Valid() && Records() == old(ToDrop(recs, i, j, 0))
    {
      hide Content, Space, Flat, DropAbs, Values, Meaning, Unique, ChainOk, RecordsOk, CountsOk, Chain, Abs, All, Nodes,
          Rest, Left, ToDrop, Part, Others, Start;
      ghost var rs := recs;
      RestUnique(rs, i, j);
      LeftLinks(rs, m, next, i, j, cc, mbcnt);
      CloseList(rs, m, next, i, j, cc, mbcnt);
      ghost var v := All(Rest(rs, i, j));
      if m != null {
        FrontAlone(rs, i, j);
        mb := m;
        m.nextpkt := next;
      } else {
        mb := next;
      }
      RestPackets(rs, i, j);
      recs := Rest(rs, i, j);
      assert All(recs) == v;
    }

    /** sbdrop: take len bytes off the front; ok is false where the source panics, which is exactly when
        there are not so many. */
    method Drop(len: nat) returns (ok: bool)
      requires Valid()
      modifies this`mb, this`cc, this`mbcnt, this`recs, repr
      ensures ok <==> len <= old(cc)
      ensures ok ==> Valid() && Records() == DropAbs(old(Records()), len) && cc == old(cc) - len
    {
      hide Content, Space, Flat, DropAbs, Values, All, Abs, Packets, Unique, Left, ToDrop, RecordsOk, CountsOk, Others,
          Start, Meaning, ChainOk;
      var m, next, n;
      ghost var i, j;
      ok, m, next, n, i, j := Skip(len);
      if !ok { return; }
      InBuffer(recs, m, next, i, j, cc, mbcnt);
      if n > 0 { TrimFirst(m, next, n, i, j); }
      m, j := SkipEmpty(m, next, i, j);
      InBuffer(recs, m, next, i, j, cc, mbcnt);
      Relink(m, next, i, j);
    }

    /** sbdroprecord. */
    method DropRecord()
      requires Valid()
      modifies this`mb, this`cc, this`mbcnt, this`recs
      ensures Valid() && Records() == if old(recs) == [] then [] else old(Records())[1..]
    {
      hide Content, Space, Flat, Values, All, Abs, Packets, Unique, Nodes, Left, ToDrop, RecordsOk, CountsOk, Chain,
          DropAbs, Part, Others;
      OpenList(recs, cc, mbcnt, 0);
      ghost var rs, j := recs, 0;
      var m := mb;
      if m == null {
        EmptyList(recs);
        return;
      }
      mb := m.nextpkt;
      while m != null
        invariant recs == rs && mb == Start(rs, 1) && Left(rs, m, mb, 0, j, cc, mbcnt) && j <= |rs[0]|
        decreases |rs[0]| - j
      {
        FreeMbuf(rs, m, Start(rs, 1), 0, j, cc, mbcnt);
        cc, mbcnt := cc - |m.m.data|, mbcnt - Storage(m.m);
        m := m.next;
        j := j + 1;
      }
      DroppedLinks(rs);
      DroppedValues(rs, j, cc, mbcnt);
      recs := rs[1..];
    }

    /** The first mbuf of the last record. */
    method FindLast() returns (n: Node?)
      requires Packets(recs) && mb == Start(recs, 0)
      ensures n == (if recs == [] then null else Head(recs[|recs| - 1])) && (n == null <==> recs == [])
    {
      hide Chain;
      n := mb;
      if n == null { return; }
      ghost var k := 0;
      while n.nextpkt != null
        invariant k < |recs| && n == Head(recs[k])
        decreases |recs| - k
      {
        n := n.nextpkt;
        k := k + 1;
      }
    }

    /** The search of sbappend for a mark in the last record; n is its last mbuf if there is none. */
    static method FindEor(n0: Node, ghost rec: seq<Node>) returns (ended: bool, n: Node)
      requires Chain(rec) && n0 == Head(rec) && EorLast(Values(rec))
      ensures ended <==> EndsRecord(Values(rec))
      ensures !ended ==> n == Last(rec)
    {
      n := n0;
      ghost var k := 0;
      while true
        invariant k < |rec| && n == rec[k] && forall i :: 0 <= i < k ==> !Values(rec)[i].eor
        decreases |rec| - k
      {
        if n.m.eor { return true, n; }
        if n.next == null { return false, n; }
        n := n.next;
        k := k + 1;
      }
    }

    /** One round of sbcompress: the first mbuf of rest is freed, copied to the end of r, or linked there. */
    method Round(x: Node, n0: Node?, eor: bool, ghost r: seq<Node>, ghost rest: seq<Node>)
      returns (ghost r': seq<Node>, m: Node?, n: Node?)
      requires rest != [] && x == rest[0] && n0 == Last(r) && Separate(r, rest) && Chain(r) && Chain(rest)
      modifies this`mb, this`cc, this`mbcnt, n0, x
      ensures x.nextpkt == old(x.nextpkt) && (n0 != null ==> n0.nextpkt == old(n0.nextpkt))
      ensures (r' == r || r' == r + [x]) && Chain(r') && Chain(rest[1..]) && m == Head(rest[1..]) && n == Last(r')
      ensures Values(rest[1..]) == old(Values(rest))[1..]
      ensures Values(r') == var v, y := old(Values(r)), old(x.m);
                            if Dropped(y, eor, old(Values(rest))[1..], v) then v
                            else if Joins(v, y) then JoinLast(v, y)
                            else v + [y.(eor := false)]
      ensures mb == if r == [] && r' != [] then r'[0] else old(mb)
      ensures cc == old(cc) + |old(x.m).data| && mbcnt - Space(Values(r')) == old(mbcnt) - Space(old(Values(r)))
    {
      hide Separate, Values, Content, Space, JoinLast, Chain, Distinct;
      TailValues(rest);
      MoveOver(r, rest);
      r', m, n := r, x.next, n0;
      var o := if m != null then m else n;
      if x.m.data == [] && (!eor || (o != null && o.m.typ == x.m.typ)) {
        return;
      }
      if n != null && n.m.ext.None? && !n.m.eor && n.m.start + |n.m.data| + |x.m.data| < MLEN && n.m.typ == x.m.typ {
        SpaceJoin(Values(r), x.m);
        cc := cc + |x.m.data|;
        CopyInto(n, x.m, r, rest);
        TailValues(rest);
        return;
      }
      SpaceLink(Values(r), x.m);
      if n == null { mb := x; }
      cc, mbcnt := cc + |x.m.data|, mbcnt + Storage(x.m);
      m := LinkBehind(n, x, r, rest);
      n := x;
      r' := r + [x];
    }

    /** sbcompress: put the chain ns, beginning with m0, behind the record rec, which ends with n0, or
        into an empty buffer. */
    method Compress(m0: Node?, n0: Node?, ghost rec: seq<Node>, ghost ns: seq<Node>) returns (ghost r: seq<Node>)
      requires m0 == Head(ns) && n0 == Last(rec) && Separate(rec, ns) && Chain(rec) && Chain(ns)
      modifies this`mb, this`cc, this`mbcnt, rec, ns
      ensures forall x :: x in rec || x in ns ==> x.nextpkt == old(x.nextpkt)
      ensures rec <= r && Distinct(r) && Chain(r) && forall x :: x in r ==> x in rec || x in ns
      ensures Values(r) == Pack(old(Values(rec)), old(Values(ns)), false)
      ensures mb == if rec == [] && r != [] then r[0] else old(mb)
      ensures cc == old(cc) + |Content(old(Values(ns)))|
      ensures mbcnt == old(mbcnt) + Space(Values(r)) - Space(old(Values(rec)))
    {
      hide Separate, Values, Pack, Content, Space, Dropped, Joins, JoinLast, Mark, Chain, Distinct;
      var m, n, eor := m0, n0, false;
      r := rec;
      ghost var rest := ns;
      while m != null
        invariant m == Head(rest) && n == Last(r) && Separate(r, rest) && Chain(r) && Chain(rest)
        invariant rec <= r && forall x :: x in r || x in rest ==> x in rec || x in ns
        invariant forall x :: x in rec || x in ns ==> x.nextpkt == old(x.nextpkt)
        invariant Pack(Values(r), Values(rest), eor) == Pack(old(Values(rec)), old(Values(ns)), false)
        invariant mb == if rec == [] && r != [] then r[0] else old(mb)
        invariant cc + |Content(Values(rest))| == old(cc) + |Content(old(Values(ns)))|
        invariant mbcnt - Space(Values(r)) == old(mbcnt) - Space(old(Values(rec)))
        decreases |rest|
      {
        ghost var v, w := Values(r), Values(rest);
        PackNext(v, w, eor);
        Peel(w);
        MoveOver(r, rest);
        TailValues(rest);
        eor := eor || m.m.eor;
        assert m in rest;
        assert n != null ==> n in r;
        r, m, n := Round(m, n, eor, r, rest);
        rest := rest[1..];
      }
      assert rest == [] && Values(rest) == [];
      PackEnd(Values(r), eor);
      SpaceMark(Values(r));
      NoMbufs();
      Both(r, rest);
      if eor && n != null {
        assert n in r;
        SetEor(n, r);
      }
    }

    constructor ()
      ensures Valid() && Records() == [] && repr == {}
    {
      mb, cc, mbcnt := null, 0, 0;
      recs, repr := [], {};
    }

    /** Put the first mbuf of a new record on the queue. */
    method Queue(m0: Node, last: Node?)
      requires Packets(recs) && Unique(recs) && mb == Start(recs, 0)
      requires last == (if recs == [] then null else Head(recs[|recs| - 1]))
      modifies this`mb, last
      ensures last != null ==> last.next == old(last.next) && last.m == old(last.m)
      ensures Awaits(recs, m0) && mb == if recs == [] then m0 else old(mb)
    {
      hide Chain;
      if last != null {
        FrontAlone(recs, |recs| - 1, 0);
        last.nextpkt := m0;
      } else {
        mb := m0;
      }
    }

    /** Take the first mbuf off a chain; a mark on it moves to the next. */
    static method Detach(m0: Node, ghost ns: seq<Node>) returns (m: Node?)
      requires m0 == Head(ns) && Chain(ns) && Distinct(ns)
      modifies ns`next, ns`m
      ensures m == Head(ns[1..]) && Chain([m0]) && Chain(ns[1..]) && Separate([m0], ns[1..])
      ensures Values([m0]) == [OwnFirst(old(Values(ns)))] && Values(ns[1..]) == OwnRest(old(Values(ns)))
    {
      hide Values, Distinct, Separate;
      ghost var v := Values(ns);
      TailValues(ns);
      FirstApart(ns);
      m := m0.next;
      m0.next := null;
      if m != null && m0.m.eor {
        m0.m := m0.m.(eor := false);
        m.m := m.m.(eor := true);
      }
      ghost var t := ns[1..];
      assert forall k :: 0 <= k < |t| ==> t[k] == ns[k + 1] && t[k].m == OwnRest(v)[k];
    }

    /** Find the last record and put the first mbuf of a chain behind it. */
    method Attach(m0: Node, ghost ns: seq<Node>)
      requires Packets(recs) && Unique(recs) && mb == Start(recs, 0) && Nodes(recs) <= repr
      requires Given(m0, ns) && forall x :: x in ns ==> x !in Nodes(recs)
      modifies this`mb, repr
      ensures Given(m0, ns) && Values(ns) == old(Values(ns)) && Awaits(recs, m0) && All(recs) == old(All(recs))
      ensures mb == if recs == [] then m0 else old(mb)
    {
      hide Values, All, Unique, Nodes, Chain, Distinct, Awaits, Packets;
      var last := FindLast();
      LastIn(recs);
      Queue(m0, last);
    }

    /** Compact a chain behind its own first mbuf. */
    method Own(m0: Node, ghost ns: seq<Node>) returns (ghost r: seq<Node>)
      requires Given(m0, ns)
      modifies this`mb, this`cc, this`mbcnt, ns
      ensures r != [] && r[0] == m0 && m0.nextpkt == null && Chain(r) && Distinct(r) && forall x :: x in r ==> x in ns
      ensures var w := old(Values(ns));
              Values(r) == Pack([OwnFirst(w)], OwnRest(w), false) && cc == old(cc) + |Content(OwnRest(w))| &&
              mbcnt == old(mbcnt) + Space(Values(r)) - Space([OwnFirst(w)]) && mb == old(mb)
    {
      hide Content, Space, Values, Pack, OwnFirst, OwnRest, Chain, Distinct, Separate, AllFit;
      var m := Detach(m0, ns);
      assert forall x :: x in ns[1..] || x in [m0] ==> x in ns;
      r := Compress(m, m0, [m0], ns[1..]);
    }

    /** Link a chain in as a record of its own and compact it. */
    method NewRecord(m0: Node, ghost ns: seq<Node>) returns (ghost r: seq<Node>)
      requires Packets(recs) && Unique(recs) && mb == Start(recs, 0) && Nodes(recs) <= repr
      requires Given(m0, ns) && forall x :: x in ns ==> x !in Nodes(recs)
      modifies this`mb, this`cc, this`mbcnt, repr, ns
      ensures r != [] && r[0] == m0 && m0.nextpkt == null && Chain(r) && Distinct(r) && forall x :: x in r ==> x in ns
      ensures Awaits(recs, m0) && All(recs) == old(All(recs)) && mb == if recs == [] then m0 else old(mb)
      ensures var w := old(Values(ns));
              Values(r) == Pack([OwnFirst(w)], OwnRest(w), false) &&
              cc == old(cc) + |OwnFirst(w).data| + |Content(OwnRest(w))| &&
              mbcnt == old(mbcnt) + Storage(OwnFirst(w)) + Space(Values(r)) - Space([OwnFirst(w)])
    {
      hide Content, Space, Values, All, Unique, Nodes, Pack, OwnFirst, OwnRest, Chain, Distinct, Awaits, Separate,
          Packets, AllFit, Start, Storage;
      OwnSize(Values(ns));
      cc, mbcnt := cc + |m0.m.data|, mbcnt + Storage(m0.m);
      Attach(m0, ns);
      r := Own(m0, ns);
    }

    /** sbappendrecord: the chain becomes a record of its own. */
    method AppendRecord(m0: Node?, ghost ns: seq<Node>)
      requires Valid() && Given(m0, ns) && forall x :: x in ns ==> x !in Nodes(recs)
      modifies this, repr, ns
      ensures Valid() && repr == old(repr) + Elems(ns)
      ensures Records() == old(Records()) +
              old(if ns == [] then [] else [Record(Content(Values(ns)), HasEor(Values(ns)))])
    {
      hide Content, Space, Flat, Values, All, Abs, RecordsOk, CountsOk, Unique, Nodes, Pack, HasEor, OwnFirst, OwnRest,
          Chain, Distinct, Awaits, Packets, Elems;
      NoElems();
      if m0 == null { return; }
      OwnRecord(All(recs), Values(ns), cc, mbcnt);
      ghost var r := NewRecord(m0, ns);
      SnocUnique(recs, r);
      SnocPackets(recs, r);
      SnocValues(recs, r);
      Owns(recs, [], r, ns, repr);
      recs := recs + [r];
      repr := repr + Elems(ns);
    }

    /** sbappend: the chain continues the last record, unless that is marked as ended. */
    method Append(m: Node?, ghost ns: seq<Node>)
      requires Valid() && Given(m, ns) && forall x :: x in ns ==> x !in Nodes(recs)
      modifies this, repr, ns
      ensures Valid() && repr == old(repr) + Elems(ns)
      ensures Records() == if ns == [] then old(Records())
                           else AppendAbs(old(Records()), old(Record(Content(Values(ns)), HasEor(Values(ns)))))
    {
      hide Content, Space, Flat, Values, All, Abs, RecordsOk, CountsOk, Unique, Nodes, Pack, HasEor, Chain, Distinct,
          Packets, AppendAbs, EndsRecord;
      if m == null { return; }
      var n := FindLast();
      if n == null {
        FillEmpty(m, ns);
        return;
      }
      Butlast(recs);
      LastOk(recs);
      var ended;
      ended, n := FindEor(n, recs[|recs| - 1]);
      if ended {
        AppendEnded(Abs(All(recs)), Record(Content(Values(ns)), HasEor(Values(ns))));
        AppendRecord(m, ns);
        return;
      }
      GrowLast(m, n, ns);
    }

    method FillEmpty(m: Node, ghost ns: seq<Node>)
      requires Valid() && Given(m, ns) && recs == []
      modifies this, ns
      ensures Valid() && repr == old(repr) + Elems(ns)
      ensures Records() == AppendAbs([], old(Record(Content(Values(ns)), HasEor(Values(ns)))))
    {
      hide Content, Space, Flat, Values, All, Abs, RecordsOk, CountsOk, Unique, Nodes, Pack, HasEor, Chain, Distinct,
          Packets, AppendAbs, Separate, Awaits, AllFit, Elems, Only, Space;
      NoNodes();
      NoChain(ns);
      AppendFirst(Values(ns), cc, mbcnt);
      ghost var r := Compress(m, null, [], ns);
      OnlyRecord(r, ns);
      recs := Only(r);
      repr := repr + Elems(ns);
    }

    method GrowLast(m: Node, n: Node, ghost ns: seq<Node>)
      requires Valid() && Given(m, ns) && recs != [] && forall x :: x in ns ==> x !in Nodes(recs)
      requires n == Last(recs[|recs| - 1]) && !EndsRecord(Values(recs[|recs| - 1]))
      modifies this, repr, ns
      ensures Valid() && repr == old(repr) + Elems(ns)
      ensures Records() == AppendAbs(old(Records()), old(Record(Content(Values(ns)), HasEor(Values(ns)))))
    {
      hide Content, Space, Flat, Values, All, Abs, RecordsOk, CountsOk, Unique, Nodes, Pack, HasEor, Chain, Distinct,
          Packets, AppendAbs, EndsRecord, Separate, Awaits, AllFit;
      Butlast(recs);
      ghost var k := |recs| - 1;
      ghost var q, rec := recs[..k], recs[k];
      SnocValues(q, rec);
      AppendValues(All(q), Values(rec), Values(ns), cc, mbcnt);
      Apart(rec, ns);
      ghost var r := Compress(m, n, rec, ns);
      SnocUnique(q, r);
      SnocPackets(q, r);
      SnocValues(q, r);
      Owns(q, rec, r, ns, repr);
      recs := q + [r];
      repr := repr + Elems(ns);
    }

    /** sbflush: empties the buffer, and ends, even if records have no bytes. */
    method Flush()
      requires Valid()
      modifies this`mb, this`cc, this`mbcnt, this`recs, repr
      ensures Valid() && mb == null && recs == [] && cc == 0 && mbcnt == 0
    {
      hide Content, Space, Flat, DropAbs, Meaning, Values, All, Abs, Packets, Unique, Nodes;
      SpaceZero(All(recs));
      while mbcnt != 0
        invariant Valid() && (mbcnt == 0 <==> recs == [])
        decreases |recs|
      {
        TotalContent(All(recs));
        DropAllShrinks(Abs(All(recs)));
        var ok := Drop(cc);
        SpaceZero(All(recs));
      }
      CountsFirst([]);
    }
  }
}
