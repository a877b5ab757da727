/** Socket buffers: sbappend, sbappendrecord, sbcompress, sbdrop, sbdroprecord and sbflush. A buffer
    is a list of records, each a chain that is not empty; sb_cc and sb_mbcnt are kept beside it. */
module SockBuf {
  import opened Common
  import opened Mbuf

  function Flat(rs: seq<seq<Mbuf>>): seq<Mbuf> {
    if rs == [] then [] else rs[0] + Flat(rs[1..])
  }

  lemma {:induction false} FlatConcat(a: seq<seq<Mbuf>>, b: seq<seq<Mbuf>>)
    ensures Flat(a + b) == Flat(a) + Flat(b)
  {
    if a == [] {
      assert a + b == b;
    } else {
      FlatConcat(a[1..], b);
      assert (a + b)[1..] == a[1..] + b && (a + b)[0] == a[0];
      Assoc(a[0], Flat(a[1..]), Flat(b));
    }
  }

  lemma FlatSnoc(a: seq<seq<Mbuf>>, r: seq<Mbuf>)
    ensures Flat(a + [r]) == Flat(a) + r
  {
    FlatConcat(a, [r]);
    assert [r][1..] == [];
  }

  /** M_EOR, if set at all, is on the last mbuf. */
  ghost predicate EorLast(c: seq<Mbuf>) { forall i :: 0 <= i < |c| - 1 ==> !c[i].eor }

  /** The mark at the end of a chain. */
  predicate EndsRecord(c: seq<Mbuf>) { c != [] && c[|c| - 1].eor }

  /** Whether an empty mbuf is dropped; next is what follows in the chain, last what precedes. */
  predicate Dropped(m: Mbuf, eor: bool, next: seq<Mbuf>, last: seq<Mbuf>) {
    m.data == [] &&
    (!eor || (if next != [] then next[0].typ == m.typ else last != [] && last[|last| - 1].typ == m.typ))
  }

  /** Whether m's data can be copied into the mbuf before it. */
  predicate Joins(last: seq<Mbuf>, m: Mbuf) {
    last != [] &&
    var n := last[|last| - 1];
    n.ext.None? && !n.eor && n.start + |n.data| + |m.data| < MLEN && n.typ == m.typ
  }

  /** A chain r grown to r' by the bytes of x. */
  ghost predicate Grown(r: seq<Mbuf>, r': seq<Mbuf>, x: Mbuf) {
    AllFit(r') && EorLast(r') && !EndsRecord(r') && |r| <= |r'| && Content(r') == Content(r) + Cells(x)
  }

  lemma GrowJoin(r: seq<Mbuf>, x: Mbuf)
    requires AllFit(r) && EorLast(r) && Joins(r, x)
    ensures var n := r[|r| - 1];
            var r' := r[..|r| - 1] + [n.(data := n.data + x.data)];
            Grown(r, r', x) && Space(r') == Space(r)
  {
    hide Content, Space;
    var q, n := r[..|r| - 1], r[|r| - 1];
    var n' := n.(data := n.data + x.data);
    assert r == q + [n];
    Snoc(q, n);
    Snoc(q, n');
    Join(n, x.data);
    SameCells(x, n.(data := x.data));
  }

  lemma GrowKeep(r: seq<Mbuf>, x: Mbuf)
    requires AllFit(r) && EorLast(r) && Fits(x) && !EndsRecord(r)
    ensures var r' := r + [x.(eor := false)]; Grown(r, r', x) && Space(r') == Space(r) + Storage(x)
  {
    hide Content, Space;
    Snoc(r, x.(eor := false));
    SameCells(x, x.(eor := false));
  }

  lemma Marked(r: seq<Mbuf>)
    requires AllFit(r) && EorLast(r) && r != []
    ensures var r' := r[..|r| - 1] + [r[|r| - 1].(eor := true)];
            AllFit(r') && EorLast(r') && EndsRecord(r') && Content(r') == Content(r) && Space(r') == Space(r)
  {
    hide Content, Space;
    var q, n := r[..|r| - 1], r[|r| - 1];
    assert r == q + [n];
    Snoc(q, n);
    Snoc(q, n.(eor := true));
    SameCells(n, n.(eor := true));
  }

  /** The chain with M_EOR set on its last mbuf. */
  function Mark(r: seq<Mbuf>): seq<Mbuf> {
    if r == [] then [] else r[..|r| - 1] + [r[|r| - 1].(eor := true)]
  }

  function JoinLast(r: seq<Mbuf>, x: Mbuf): seq<Mbuf>
    requires r != []
  {
    r[..|r| - 1] + [r[|r| - 1].(data := r[|r| - 1].data + x.data)]
  }

  /** What sbcompress makes of the last record r (empty when the buffer is) and a chain m behind it; eor
      says that a mark has been seen. */
  function Pack(r: seq<Mbuf>, m: seq<Mbuf>, eor: bool): seq<Mbuf>
    decreases |m|
  {
    if m == [] then (if eor then Mark(r) else r) else
      var x, eor' := m[0], eor || m[0].eor;
      if Dropped(x, eor', m[1..], r) then Pack(r, m[1..], eor')
      else if Joins(r, x) then Pack(JoinLast(r, x), m[1..], eor')
      else Pack(r + [x.(eor := false)], m[1..], eor')
  }

  /** Empty mbufs are discarded and short ones joined, but no byte and no record mark is lost, and there
      is always a mbuf to mark. */
  lemma {:induction false} PackKeeps(r: seq<Mbuf>, m: seq<Mbuf>, eor: bool)
    requires AllFit(r) && AllFit(m) && EorLast(r) && (m != [] || eor ==> !EndsRecord(r)) && (eor && m == [] ==> r != [])
    ensures var p := Pack(r, m, eor);
            AllFit(p) && EorLast(p) && Content(p) == Content(r) + Content(m) && |r| <= |p| &&
            (EndsRecord(p) <==> EndsRecord(r) || eor || HasEor(m)) &&
            (Content(m) == [] && !eor && !HasEor(m) ==> p == r)
    decreases |m|
  {
    hide Content, Space, AllFit, EorLast, HasEor;
    if m == [] {
      NoMbufs();
      NoEor();
      if eor { Marked(r); }
    } else {
      var x, rest, eor' := m[0], m[1..], eor || m[0].eor;
      Peel(m);
      PeelOk(m);
      if Dropped(x, eor', rest, r) {
        PackKeeps(r, rest, eor');
      } else if Joins(r, x) {
        GrowJoin(r, x);
        PackKeeps(JoinLast(r, x), rest, eor');
        Assoc(Content(r), Cells(x), Content(rest));
      } else {
        GrowKeep(r, x);
        PackKeeps(r + [x.(eor := false)], rest, eor');
        Assoc(Content(r), Cells(x), Content(rest));
      }
    }
  }

  lemma NoEor()
    ensures !HasEor([])
  {
  }

  lemma PeelOk(m: seq<Mbuf>)
    requires m != [] && AllFit(m)
    ensures Fits(m[0]) && AllFit(m[1..]) && (HasEor(m) <==> m[0].eor || HasEor(m[1..]))
  {
    if i :| 0 < i < |m| && m[i].eor { assert m[1..][i - 1].eor; }
    if m[0].eor { assert HasEor(m); }
  }

  /** x could have been copied to the end of n. */
  predicate CouldJoin(n: Mbuf, x: Mbuf) {
    n.ext.None? && n.start + |n.data| + |x.data| < MLEN && n.typ == x.typ
  }

  /** From place k on no mbuf could be joined to the one before. */
  ghost predicate Tight(r: seq<Mbuf>, k: nat) {
    forall i :: 0 < i < |r| && k <= i ==> !CouldJoin(r[i - 1], r[i])
  }

  /** Compaction is complete: in what is added to a record no mbuf could still be joined to its
      neighbour, and, where no mark has to be kept, none is empty. */
  lemma {:induction false} PackTight(r: seq<Mbuf>, m: seq<Mbuf>, eor: bool, k: nat)
    requires Tight(r, k) && (m != [] ==> !EndsRecord(r)) && k <= |r|
    ensures Tight(Pack(r, m, eor), k)
    ensures !eor && !HasEor(m) && (forall i :: k <= i < |r| ==> r[i].data != []) ==>
              forall i :: k <= i < |Pack(r, m, eor)| ==> Pack(r, m, eor)[i].data != []
    decreases |m|
  {
    if m != [] {
      var x, rest, eor' := m[0], m[1..], eor || m[0].eor;
      assert !HasEor(m) ==> !m[0].eor && !HasEor(rest) by {
        if HasEor(rest) {
          var i :| 0 <= i < |rest| && rest[i].eor;
          assert m[i + 1].eor;
        }
      }
      hide HasEor;
      if Dropped(x, eor', rest, r) {
        PackTight(r, rest, eor', k);
      } else if Joins(r, x) {
        PackTight(JoinLast(r, x), rest, eor', k);
      } else {
        PackTight(r + [x.(eor := false)], rest, eor', k);
      }
    }
  }

  /** An empty mbuf from place k on is there for its type: the next one has another. */
  ghost predicate Lean(r: seq<Mbuf>, k: nat) {
    forall i :: k <= i < |r| - 1 && r[i].data == [] ==> r[i + 1].typ != r[i].typ
  }

  ghost predicate LeanSoFar(r: seq<Mbuf>, m: seq<Mbuf>, eor: bool, k: nat) {
    Lean(r, k) && k <= |r| &&
    (k < |r| && r[|r| - 1].data == [] && m != [] ==> eor && m[0].typ != r[|r| - 1].typ)
  }

  /** The record after one round of sbcompress. */
  function Round(r: seq<Mbuf>, m: seq<Mbuf>, eor: bool): seq<Mbuf>
    requires m != []
  {
    if Dropped(m[0], eor, m[1..], r) then r else if Joins(r, m[0]) then JoinLast(r, m[0]) else r + [m[0].(eor := false)]
  }

  lemma RoundLean(r: seq<Mbuf>, m: seq<Mbuf>, eor: bool, k: nat)
    requires m != [] && LeanSoFar(r, m, eor, k)
    ensures LeanSoFar(Round(r, m, eor || m[0].eor), m[1..], eor || m[0].eor, k)
  {
  }

  /** Behind a mark that has been seen, an empty mbuf is kept only where its type would be lost: none is
      followed by one of its own type. */
  lemma {:induction false} PackLean(r: seq<Mbuf>, m: seq<Mbuf>, eor: bool, k: nat)
    requires LeanSoFar(r, m, eor, k)
    ensures Lean(Pack(r, m, eor), k)
    decreases |m|
  {
    if m != [] {
      RoundLean(r, m, eor, k);
      hide LeanSoFar, Dropped, Joins, JoinLast;
      PackLean(Round(r, m, eor || m[0].eor), m[1..], eor || m[0].eor, k);
    }
  }

  /** A marked record ends with the type that came last. */
  lemma {:induction false} PackEnds(r: seq<Mbuf>, m: seq<Mbuf>, eor: bool)
    requires m != [] && (eor || HasEor(m))
    ensures var p := Pack(r, m, eor); p != [] && p[|p| - 1].typ == m[|m| - 1].typ
    decreases |m|
  {
    var rest, eor' := m[1..], eor || m[0].eor;
    if rest == [] {
      assert Pack(r, m, eor) == Pack(Round(r, m, eor'), [], eor');
    } else {
      if j :| 0 < j < |m| && m[j].eor { assert rest[j - 1].eor; }
      hide Dropped, Joins, JoinLast;
      PackEnds(Round(r, m, eor'), rest, eor');
    }
  }

  /** An mbuf filled to its very end. */
  predicate Full(m: Mbuf) { m.ext.None? && m.start + |m.data| == MLEN }

  /** Joining leaves the last byte of a mbuf unused: one that is full came full. */
  lemma {:induction false} PackRoom(r: seq<Mbuf>, m: seq<Mbuf>, eor: bool, i: nat) returns (y: Mbuf)
    requires i < |Pack(r, m, eor)| && Full(Pack(r, m, eor)[i])
    ensures y in r + m && Full(y) && y.data == Pack(r, m, eor)[i].data
    decreases |m|
  {
    if m == [] {
      y := r[i];
    } else {
      y := PackRoom(Round(r, m, eor || m[0].eor), m[1..], eor || m[0].eor, i);
      if y !in r + m { y := m[0]; }
    }
  }

  // ---------- what a buffer means ----------

  /** A record: its content, and whether its end is marked. */
  datatype Record = Record(content: seq<Cell>, ended: bool)

  function Meaning(r: seq<Mbuf>): Record { Record(Content(r), EndsRecord(r)) }

  function Abs(rs: seq<seq<Mbuf>>): (a: seq<Record>)
    ensures |a| == |rs| && forall i :: 0 <= i < |rs| ==> a[i] == Meaning(rs[i])
  {
    seq(|rs|, i requires 0 <= i < |rs| => Meaning(rs[i]))
  }

  function Total(a: seq<Record>): nat { if a == [] then 0 else |a[0].content| + Total(a[1..]) }

  /** Take n bytes off the front; a record whose bytes are all taken is gone. */
  function DropAbs(a: seq<Record>, n: nat): seq<Record> {
    if a == [] then []
    else if n < |a[0].content| then [a[0].(content := a[0].content[n..])] + a[1..]
    else if n == |a[0].content| then a[1..]
    else DropAbs(a[1..], n - |a[0].content|)
  }

  /** Add to the last record, or begin a new one if that is marked as ended. */
  function AppendAbs(a: seq<Record>, c: Record): seq<Record> {
    if a == [] then (if c == Record([], false) then [] else [c])
    else if a[|a| - 1].ended then a + [c]
    else a[..|a| - 1] + [Record(a[|a| - 1].content + c.content, c.ended)]
  }

  ghost predicate RecordsOk(rs: seq<seq<Mbuf>>) {
    forall i :: 0 <= i < |rs| ==> rs[i] != [] && AllFit(rs[i]) && EorLast(rs[i])
  }

  /** sb_cc and sb_mbcnt as sbcheck demands them, over all records. */
  ghost predicate CountsOk(rs: seq<seq<Mbuf>>, cc: int, mbcnt: int) {
    cc == |Content(Flat(rs))| && mbcnt == Space(Flat(rs))
  }

  lemma {:induction false} TotalContent(rs: seq<seq<Mbuf>>)
    ensures Total(Abs(rs)) == |Content(Flat(rs))|
  {
    if rs != [] {
      TotalContent(rs[1..]);
      assert Abs(rs)[1..] == Abs(rs[1..]);
      Concat(rs[0], Flat(rs[1..]));
    }
  }

  lemma CountsSnoc(rs: seq<seq<Mbuf>>, r: seq<Mbuf>)
    ensures |Content(Flat(rs + [r]))| == |Content(Flat(rs))| + |Content(r)|
    ensures Space(Flat(rs + [r])) == Space(Flat(rs)) + Space(r)
  {
    hide Content, Space, Flat;
    FlatSnoc(rs, r);
    Concat(Flat(rs), r);
  }

  lemma CountsCons(r: seq<Mbuf>, rs: seq<seq<Mbuf>>)
    ensures |Content(Flat([r] + rs))| == |Content(r)| + |Content(Flat(rs))|
    ensures Space(Flat([r] + rs)) == Space(r) + Space(Flat(rs))
  {
    hide Content, Space;
    assert ([r] + rs)[1..] == rs;
    Concat(r, Flat(rs));
  }

  // ---------- a buffer is a queue of bytes ----------

  /** All the bytes of a buffer, in order. */
  function Stream(a: seq<Record>): seq<Cell> { if a == [] then [] else a[0].content + Stream(a[1..]) }

  datatype Event = Add(c: Record, own: bool) | Take(n: nat) | TakeRecord

  /** What sbappendrecord (own), sbappend, sbdrop and sbdroprecord do to the records. */
  function Step(a: seq<Record>, e: Event): seq<Record> {
    match e
    case Add(c, own) => if own then a + [c] else AppendAbs(a, c)
    case Take(n) => DropAbs(a, n)
    case TakeRecord => if a == [] then [] else a[1..]
  }

  /** Where records begin and end: an own record is the last one and nothing is joined to another; data
      continue the last record exactly if that is there and not ended. No earlier record changes. */
  lemma AddRecords(a: seq<Record>, c: Record, own: bool)
    ensures var t := Step(a, Add(c, own));
            |a| <= |t| <= |a| + 1 &&
            (|t| == |a| + 1 <==>
             own || (a == [] && (c.content != [] || c.ended)) || (a != [] && a[|a| - 1].ended)) &&
            (|t| == |a| + 1 ==> t[..|a|] == a && t[|a|] == c) &&
            (|t| == |a| > 0 ==> t[..|a| - 1] == a[..|a| - 1] && t[|a| - 1].ended == c.ended)
  {
  }

  function In(e: Event): seq<Cell> { if e.Add? then e.c.content else [] }

  function Out(a: seq<Record>, e: Event): seq<Cell> {
    match e
    case Add(_, _) => []
    case Take(n) => if n <= |Stream(a)| then Stream(a)[..n] else Stream(a)
    case TakeRecord => if a == [] then [] else a[0].content
  }

  function AllIn(es: seq<Event>): seq<Cell> { if es == [] then [] else In(es[0]) + AllIn(es[1..]) }

  function AllOut(a: seq<Record>, es: seq<Event>): seq<Cell>
    decreases |es|
  {
    if es == [] then [] else Out(a, es[0]) + AllOut(Step(a, es[0]), es[1..])
  }

  function Exec(a: seq<Record>, es: seq<Event>): seq<Record>
    decreases |es|
  {
    if es == [] then a else Exec(Step(a, es[0]), es[1..])
  }

  lemma {:induction false} StreamConcat(a: seq<Record>, b: seq<Record>)
    ensures Stream(a + b) == Stream(a) + Stream(b)
  {
    if a == [] {
      assert a + b == b;
    } else {
      StreamConcat(a[1..], b);
      assert (a + b)[1..] == a[1..] + b && (a + b)[0] == a[0];
      Assoc(a[0].content, Stream(a[1..]), Stream(b));
    }
  }

  lemma StreamOne(r: Record)
    ensures Stream([r]) == r.content
  {
    assert [r][1..] == [];
  }

  lemma AppendStream(a: seq<Record>, c: Record)
    ensures Stream(AppendAbs(a, c)) == Stream(a) + c.content
  {
    hide Stream;
    StreamOne(c);
    NoRecordsStream();
    if a != [] {
      var k := |a| - 1;
      var l, joined := a[k], Record(a[k].content + c.content, c.ended);
      assert a == a[..k] + [l];
      StreamConcat(a, [c]);
      StreamConcat(a[..k], [l]);
      StreamConcat(a[..k], [joined]);
      StreamOne(l);
      StreamOne(joined);
      Assoc(Stream(a[..k]), l.content, c.content);
    }
  }

  lemma NoRecordsStream()
    ensures Stream([]) == []
  {
  }

  /** sbdrop takes exactly the first n bytes. */
  lemma {:induction false} DropStream(a: seq<Record>, n: nat)
    ensures Stream(DropAbs(a, n)) == if n <= |Stream(a)| then Stream(a)[n..] else []
    decreases |a|
  {
    if a != [] {
      var c, rest := a[0].content, a[1..];
      if n < |c| {
        var r := a[0].(content := c[n..]);
        assert ([r] + rest)[1..] == rest;
        assert (c + Stream(rest))[n..] == c[n..] + Stream(rest);
      } else if n > |c| {
        DropStream(rest, n - |c|);
        if n <= |Stream(a)| { assert (c + Stream(rest))[n..] == Stream(rest)[n - |c|..]; }
      }
    }
  }

  lemma StepStream(a: seq<Record>, e: Event)
    ensures Out(a, e) + Stream(Step(a, e)) == Stream(a) + In(e)
  {
    match e
    case Add(c, own) =>
      StreamConcat(a, [c]);
      StreamOne(c);
      AppendStream(a, c);
    case Take(n) => DropStream(a, n);
    case TakeRecord =>
  }

  /** Over any run of appends and drops, what came out followed by what is left is what was there
      followed by what went in: no byte is lost, made up, reordered or changed in type. */
  lemma {:induction false} Fifo(a: seq<Record>, es: seq<Event>)
    ensures AllOut(a, es) + Stream(Exec(a, es)) == Stream(a) + AllIn(es)
    decreases |es|
  {
    hide Step, Stream, Out, In;
    if es != [] {
      var e, b, rest := es[0], Step(a, es[0]), es[1..];
      StepStream(a, e);
      Fifo(b, rest);
      Assoc(Out(a, e), AllOut(b, rest), Stream(Exec(b, rest)));
      Assoc(Out(a, e), Stream(b), AllIn(rest));
      Assoc(Stream(a), In(e), AllIn(rest));
    }
  }

  // ---------- marks keep their place ----------

  datatype Token = Data(c: Cell) | End

  function AsData(c: seq<Cell>): (r: seq<Token>)
    ensures |r| == |c| && forall i :: 0 <= i < |c| ==> r[i] == Data(c[i])
  {
    seq(|c|, i requires 0 <= i < |c| => Data(c[i]))
  }

  /** The bytes of a buffer with the record marks between them. */
  function Tokens(a: seq<Record>): seq<Token> {
    if a == [] then [] else AsData(a[0].content) + (if a[0].ended then [End] else []) + Tokens(a[1..])
  }

  lemma {:induction false} TokensConcat(a: seq<Record>, b: seq<Record>)
    ensures Tokens(a + b) == Tokens(a) + Tokens(b)
  {
    hide AsData;
    if a == [] {
      assert a + b == b;
    } else {
      TokensConcat(a[1..], b);
      assert (a + b)[1..] == a[1..] + b && (a + b)[0] == a[0];
      Assoc(AsData(a[0].content) + (if a[0].ended then [End] else []), Tokens(a[1..]), Tokens(b));
    }
  }

  lemma TokensOne(r: Record)
    ensures Tokens([r]) == AsData(r.content) + if r.ended then [End] else []
  {
    assert [r][1..] == [];
  }

  /** Appended data come with their mark behind all bytes and marks that are there. */
  lemma AppendTokens(a: seq<Record>, c: Record)
    ensures Tokens(AppendAbs(a, c)) == Tokens(a) + Tokens([c])
  {
    hide Tokens, AsData;
    NoTokens();
    if a != [] {
      var k := |a| - 1;
      var l, joined := a[k], Record(a[k].content + c.content, c.ended);
      assert a == a[..k] + [l];
      TokensConcat(a, [c]);
      TokensConcat(a[..k], [l]);
      TokensConcat(a[..k], [joined]);
      TokensOne(l);
      TokensOne(joined);
      TokensOne(c);
      DataConcat(l.content, c.content);
      Assoc(Tokens(a[..k]), AsData(l.content), Tokens([c]));
      Assoc(AsData(l.content), AsData(c.content), if c.ended then [End] else []);
    } else {
      TokensOne(c);
      assert [] + Tokens([c]) == Tokens([c]);
    }
  }

  lemma NoTokens()
    ensures Tokens([]) == [] && AsData([]) == []
  {
  }

  lemma DataConcat(a: seq<Cell>, b: seq<Cell>)
    ensures AsData(a + b) == AsData(a) + AsData(b)
  {
  }

  function Bytes(t: seq<Token>): nat { if t == [] then 0 else (if t[0].Data? then 1 else 0) + Bytes(t[1..]) }

  lemma {:induction false} BytesOf(t: seq<Token>, u: seq<Token>)
    ensures Bytes(t + u) == Bytes(t) + Bytes(u)
  {
    if t == [] {
      assert t + u == u;
    } else {
      BytesOf(t[1..], u);
      assert (t + u)[1..] == t[1..] + u;
    }
  }

  lemma {:induction false} BytesOfData(c: seq<Cell>)
    ensures Bytes(AsData(c)) == |c|
  {
    if c != [] {
      BytesOfData(c[1..]);
      assert AsData(c)[1..] == AsData(c[1..]);
    }
  }

  /** Dropping n bytes takes a beginning of bytes and marks with exactly n bytes in it, or everything. */
  lemma {:induction false} DropTokens(a: seq<Record>, n: nat) returns (j: nat)
    ensures j <= |Tokens(a)| && Tokens(DropAbs(a, n)) == Tokens(a)[j..]
    ensures Bytes(Tokens(a)[..j]) == if n <= Total(a) then n else Total(a)
    decreases |a|
  {
    hide AsData;
    j := 0;
    if a != [] {
      var c, rest := a[0].content, a[1..];
      var own := AsData(c) + if a[0].ended then [End] else [];
      BytesOfData(c);
      BytesOf(AsData(c), if a[0].ended then [End] else []);
      if n < |c| {
        j := n;
        DropInside(a, n);
      } else if n == |c| {
        j := |own|;
        assert Tokens(a)[..j] == own && Tokens(a)[j..] == Tokens(rest);
      } else {
        var i := DropTokens(rest, n - |c|);
        j := |own| + i;
        assert Tokens(a)[..j] == own + Tokens(rest)[..i] && Tokens(a)[j..] == Tokens(rest)[i..];
        BytesOf(own, Tokens(rest)[..i]);
      }
    }
  }

  lemma DropInside(a: seq<Record>, n: nat)
    requires a != [] && n < |a[0].content|
    ensures n <= |Tokens(a)| && Tokens(DropAbs(a, n)) == Tokens(a)[n..] && Bytes(Tokens(a)[..n]) == n
  {
    var c, rest := a[0].content, a[1..];
    var r := a[0].(content := c[n..]);
    assert ([r] + rest)[1..] == rest;
    assert AsData(c)[n..] == AsData(c[n..]) && AsData(c)[..n] == AsData(c[..n]);
    assert Tokens(a)[..n] == AsData(c[..n]);
    assert Tokens(a)[n..] == AsData(c)[n..] + (if r.ended then [End] else []) + Tokens(rest);
    BytesOfData(c[..n]);
  }

  // ---------- facts for the code ----------

  lemma {:induction false} SpaceZero(rs: seq<seq<Mbuf>>)
    requires RecordsOk(rs)
    ensures Space(Flat(rs)) == 0 <==> rs == []
  {
    if rs != [] {
      Concat(rs[0], Flat(rs[1..]));
    }
  }

  lemma {:induction false} DropAllShrinks(a: seq<Record>)
    ensures a != [] ==> |DropAbs(a, Total(a))| < |a|
  {
    if a != [] {
      DropAllShrinks(a[1..]);
    }
  }

  /** A chain that may be empty. */
  ghost predicate ChainOk(c: seq<Mbuf>) { AllFit(c) && EorLast(c) }

  lemma DropCons(r: Record, a: seq<Record>, n: nat)
    ensures DropAbs([r] + a, n) ==
      if n < |r.content| then [r.(content := r.content[n..])] + a
      else if n == |r.content| then a
      else DropAbs(a, n - |r.content|)
  {
    assert ([r] + a)[1..] == a;
  }

  /** Where sbdrop starts: the first record and the others. */
  lemma Open(rs: seq<seq<Mbuf>>, n: nat)
    requires RecordsOk(rs)
    ensures var first, next := if rs == [] then [] else rs[0], if rs == [] then [] else rs[1..];
            ChainOk(first) && RecordsOk(next) && DropAbs(Abs(rs), n) == DropAbs([Meaning(first)] + Abs(next), n) &&
            |Content(Flat(rs))| == |Content(first)| + |Content(Flat(next))| &&
              Space(Flat(rs)) == Space(first) + Space(Flat(next))
  {
    hide Content, Space, Flat, DropAbs;
    NoMbufs();
    CountsFirst([]);
    if rs == [] {
      assert Meaning([]) == Record([], false);
      DropCons(Record([], false), [], n);
      NoRecords(n);
    } else {
      assert rs == [rs[0]] + rs[1..];
      CountsCons(rs[0], rs[1..]);
      AbsCons(rs[0], rs[1..]);
    }
  }

  lemma NoRecords(n: nat)
    ensures DropAbs([], n) == []
  {
  }

  lemma NextRecord(next: seq<seq<Mbuf>>, n: nat)
    requires RecordsOk(next) && n > 0
    ensures Content([]) == [] && Space([]) == 0 && (next == [] ==> Content(Flat(next)) == [])
    ensures next != [] ==>
              ChainOk(next[0]) && RecordsOk(next[1..]) &&
              DropAbs([Meaning([])] + Abs(next), n) == DropAbs([Meaning(next[0])] + Abs(next[1..]), n) &&
              |Content(Flat(next))| == |Content(next[0])| + |Content(Flat(next[1..]))| &&
              Space(Flat(next)) == Space(next[0]) + Space(Flat(next[1..]))
  {
    hide Content, Space, Flat, DropAbs;
    NoMbufs();
    CountsFirst([]);
    Open(next, n);
    DropCons(Meaning([]), Abs(next), n);
  }

  /** The mbuf that holds the end of what is dropped. */
  lemma Trim(first: seq<Mbuf>, a: seq<Record>, n: nat)
    requires first != [] && n < |first[0].data| && ChainOk(first)
    ensures var x := first[0].(data := first[0].data[n..], start := first[0].start + n);
            var first' := [x] + first[1..];
            ChainOk(first') && |Content(first')| == |Content(first)| - n && Space(first') == Space(first) &&
            DropAbs([Meaning(first)] + a, n) == DropAbs([Meaning(first')] + a, 0)
  {
    hide Content, Space, DropAbs;
    var x := first[0].(data := first[0].data[n..], start := first[0].start + n);
    var first' := [x] + first[1..];
    assert first'[1..] == first[1..];
    Peel(first);
    Peel(first');
    Cut(first[0], n);
    SameCells(x, first[0].(data := first[0].data[n..]));
    assert Content(first') == Content(first)[n..];
    DropCons(Meaning(first), a, n);
    DropCons(Meaning(first'), a, 0);
    assert EndsRecord(first) == EndsRecord(first');
  }

  lemma Unchain(first: seq<Mbuf>, a: seq<Record>, n: nat)
    requires first != [] && |first[0].data| <= n && ChainOk(first)
    ensures ChainOk(first[1..])
    ensures DropAbs([Meaning(first)] + a, n) == DropAbs([Meaning(first[1..])] + a, n - |first[0].data|)
  {
    hide Content, Space, DropAbs;
    var k := |first[0].data|;
    Peel(first);
    assert Content(first[1..]) == Content(first)[k..];
    DropCons(Meaning(first), a, n);
    DropCons(Meaning(first[1..]), a, n - k);
    if n < |Content(first)| {
      NoMbufs();
      assert EndsRecord(first) == EndsRecord(first[1..]);
      assert Content(first)[k..][n - k..] == Content(first)[n..];
    }
  }

  lemma Close(first: seq<Mbuf>, next: seq<seq<Mbuf>>)
    requires ChainOk(first) && RecordsOk(next) && (first != [] ==> first[0].data != [])
    ensures var rs := if first != [] then [first] + next else next;
            RecordsOk(rs) && Abs(rs) == DropAbs([Meaning(first)] + Abs(next), 0) &&
            |Content(Flat(rs))| == |Content(first)| + |Content(Flat(next))| &&
              Space(Flat(rs)) == Space(first) + Space(Flat(next))
  {
    hide Content, Space, Flat, DropAbs;
    NoMbufs();
    DropCons(Meaning(first), Abs(next), 0);
    if first != [] {
      Peel(first);
      CountsCons(first, next);
      var r := Meaning(first);
      assert r.content[0..] == r.content && r.(content := r.content[0..]) == r;
      AbsCons(first, next);
    }
  }

  lemma AbsCons(r: seq<Mbuf>, rs: seq<seq<Mbuf>>)
    ensures Abs([r] + rs) == [Meaning(r)] + Abs(rs)
  {
    hide Meaning;
  }

  lemma NoMbufs()
    ensures Content([]) == [] && Space([]) == 0
  {
  }

  lemma Peel(m: seq<Mbuf>)
    requires m != []
    ensures Content(m) == Cells(m[0]) + Content(m[1..]) && Space(m) == Storage(m[0]) + Space(m[1..])
  {
  }

  /** Moving the mark from the first mbuf to the second keeps the chain's content and its mark. */
  lemma MovedMark(m: seq<Mbuf>)
    requires m != [] && AllFit(m)
    ensures var move := |m| > 1 && m[0].eor;
            var m0 := if move then m[0].(eor := false) else m[0];
            var rest := if move then m[1..][0 := m[1].(eor := true)] else m[1..];
            AllFit([m0]) && AllFit(rest) && Content([m0]) + Content(rest) == Content(m) &&
                Space([m0]) == Storage(m[0]) &&
            (HasEor(m) <==> m0.eor || HasEor(rest)) && (rest != [] ==> !m0.eor)
  {
    hide Content, Space, Cells;
    var move := |m| > 1 && m[0].eor;
    var m0 := if move then m[0].(eor := false) else m[0];
    Peel(m);
    One(m0);
    SameCells(m[0], m0);
    if move {
      var x := m[1].(eor := true);
      var rest := m[1..][0 := x];
      assert rest[0] == x && rest[1..] == m[1..][1..] && rest[0].eor;
      Peel(rest);
      Peel(m[1..]);
      SameCells(m[1], x);
    }
  }

  lemma CountsFirst(r: seq<Mbuf>)
    ensures Content(Flat([])) == [] && Space(Flat([])) == 0 && Content(Flat([r])) == Content(r) &&
            Space(Flat([r])) == Space(r)
    ensures Content([]) == [] && Space([]) == 0
  {
    assert [r][1..] == [] && r + [] == r;
  }
}
