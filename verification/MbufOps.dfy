/** The mbuf routines of uipc_mbuf.c: m_copym, m_copydata, m_cat, m_adj, m_pullup and m_split. They
    rearrange chains; what matters is that the bytes stay the same and that every cluster keeps
    one reference for each mbuf that uses it. */
module MbufOps {
  import opened Common
  import opened Mbuf

  /** The bytes of a chain. */
  function Bytes(c: seq<Mbuf>): seq<Byte> {
    if c == [] then [] else c[0].data + Bytes(c[1..])
  }

  /** How many mbufs of a chain use cluster k. */
  function Uses(c: seq<Mbuf>, k: nat): nat {
    if c == [] then 0 else UsesOne(c[0], k) + Uses(c[1..], k)
  }

  function UsesOne(m: Mbuf, k: nat): nat { if m.ext.Some? && m.ext.value.id == k then 1 else 0 }

  ghost predicate Known(c: seq<Mbuf>, refs: seq<int>) {
    forall i :: 0 <= i < |c| && c[i].ext.Some? ==> c[i].ext.value.id < |refs|
  }

  lemma {:induction false} BytesConcat(a: seq<Mbuf>, b: seq<Mbuf>)
    ensures Bytes(a + b) == Bytes(a) + Bytes(b)
  {
    if a == [] {
      assert a + b == b;
    } else {
      BytesConcat(a[1..], b);
      assert (a + b)[1..] == a[1..] + b && (a + b)[0] == a[0];
      Assoc(a[0].data, Bytes(a[1..]), Bytes(b));
    }
  }

  lemma {:induction false} UsesConcat(a: seq<Mbuf>, b: seq<Mbuf>, k: nat)
    ensures Uses(a + b, k) == Uses(a, k) + Uses(b, k)
  {
    if a == [] {
      assert a + b == b;
    } else {
      UsesConcat(a[1..], b, k);
      assert (a + b)[1..] == a[1..] + b && (a + b)[0] == a[0];
    }
  }

  lemma Only(m: Mbuf)
    ensures Bytes([m]) == m.data && forall k :: Uses([m], k) == UsesOne(m, k)
  {
    assert [m][1..] == [];
  }

  lemma BytesSnoc(a: seq<Mbuf>, m: Mbuf)
    ensures Bytes(a + [m]) == Bytes(a) + m.data && forall k :: Uses(a + [m], k) == Uses(a, k) + UsesOne(m, k)
  {
    hide Bytes, Uses;
    BytesConcat(a, [m]);
    Only(m);
    forall k
      ensures Uses(a + [m], k) == Uses(a, k) + UsesOne(m, k)
    {
      UsesConcat(a, [m], k);
    }
  }

  lemma BytesCons(m: Mbuf, a: seq<Mbuf>)
    ensures Bytes([m] + a) == m.data + Bytes(a) && forall k :: Uses([m] + a, k) == UsesOne(m, k) + Uses(a, k)
  {
    assert ([m] + a)[1..] == a;
  }

  lemma Head(c: seq<Mbuf>)
    requires c != []
    ensures Bytes(c) == c[0].data + Bytes(c[1..]) && forall k :: Uses(c, k) == UsesOne(c[0], k) + Uses(c[1..], k)
  {
  }

  /** The first i mbufs and the next one. */
  lemma Upto(c: seq<Mbuf>, i: nat)
    requires i < |c|
    ensures Bytes(c[..i + 1]) == Bytes(c[..i]) + c[i].data
    ensures Bytes(c) == Bytes(c[..i]) + Bytes(c[i..]) && Bytes(c[i..]) == c[i].data + Bytes(c[i + 1..])
  {
    hide Bytes;
    Before(c, i);
    SplitAt(c, i);
    After(c, i);
  }

  lemma Before(c: seq<Mbuf>, i: nat)
    requires i < |c|
    ensures Bytes(c[..i + 1]) == Bytes(c[..i]) + c[i].data &&
            forall k :: Uses(c[..i + 1], k) == Uses(c[..i], k) + UsesOne(c[i], k)
  {
    hide Bytes, Uses;
    assert c[..i + 1] == c[..i] + [c[i]];
    BytesSnoc(c[..i], c[i]);
  }

  lemma SplitAt(c: seq<Mbuf>, i: nat)
    requires i <= |c|
    ensures Bytes(c) == Bytes(c[..i]) + Bytes(c[i..])
  {
    hide Bytes;
    assert c == c[..i] + c[i..];
    BytesConcat(c[..i], c[i..]);
  }

  lemma After(c: seq<Mbuf>, i: nat)
    requires i < |c|
    ensures Bytes(c[i..]) == c[i].data + Bytes(c[i + 1..])
  {
    assert c[i..][1..] == c[i + 1..];
  }

  // ---------- reading ----------

  /** Skip off bytes: the mbuf that holds the next one, and how far into it. ok is false where the
      source panics, which is exactly when the chain is shorter. */
  method Seek(m: seq<Mbuf>, off0: nat) returns (ok: bool, i: nat, off: nat)
    ensures ok <==> off0 <= |Bytes(m)|
    ensures ok ==> i <= |m| && |Bytes(m[..i])| + off == off0 && (off > 0 ==> i < |m| && off < |m[i].data|)
    ensures ok && off0 == 0 ==> i == 0
  {
    hide Bytes;
    i, off, ok := 0, off0, true;
    Start(m);
    while off > 0
      invariant i <= |m| && |Bytes(m[..i])| + off == off0
      invariant off0 == 0 ==> i == 0
      decreases |m| - i
    {
      if i == |m| {
        assert m[..i] == m;
        return false, i, off;
      }
      Upto(m, i);
      if off < |m[i].data| { break; }
      off := off - |m[i].data|;
      i := i + 1;
    }
    if i < |m| { Upto(m, i); }
    assert m == m[..i] + m[i..];
    BytesConcat(m[..i], m[i..]);
  }

  lemma Start(m: seq<Mbuf>)
    ensures m[..0] == [] && Bytes(m[..0]) == []
  {
  }

  function MinInt(a: int, b: int): int { if a <= b then a else b }

  /** m_copydata: the bytes from off on, as many as there are up to len. */
  method Copydata(m: seq<Mbuf>, off0: nat, len0: nat) returns (ok: bool, cp: seq<Byte>)
    ensures ok <==> off0 <= |Bytes(m)|
    ensures ok ==> cp == Bytes(m)[off0..MinInt(off0 + len0, |Bytes(m)|)]
  {
    hide Bytes;
    cp := [];
    var i: nat, off: nat;
    ok, i, off := Seek(m, off0);
    if !ok { return; }
    var len := len0;
    ghost var all := Bytes(m);
    while len > 0
      invariant 0 <= len <= len0 && i <= |m| && |cp| + len == len0
      invariant len > 0 ==> |Bytes(m[..i])| + off == off0 + |cp| && (off > 0 ==> i < |m| && off < |m[i].data|)
      invariant off0 + |cp| <= |all| && cp == all[off0..off0 + |cp|]
      decreases |m| - i
    {
      if i == |m| {
        assert m[..i] == m;
        break;
      }
      Upto(m, i);
      var count := MinInt(|m[i].data| - off, len);
      TakeFrom(m, i, off, count);
      cp := cp + m[i].data[off..off + count];
      len := len - count;
      off := 0;
      i := i + 1;
    }
  }

  /** The data taken from one mbuf are a slice of the whole. */
  lemma TakeFrom(m: seq<Mbuf>, i: nat, off: nat, count: nat)
    requires i < |m| && off + count <= |m[i].data|
    ensures var p := |Bytes(m[..i])|;
            p + off + count <= |Bytes(m)| && m[i].data[off..off + count] == Bytes(m)[p + off..p + off + count]
  {
    hide Bytes;
    Upto(m, i);
  }

  // ---------- the pool ----------

  const COPYALL := 1000000000

  datatype Copy = Panicked | NoSpace | Copied(c: seq<Mbuf>)

  /** The reference counts went up by the uses in c. */
  ghost predicate Referenced(before: seq<int>, after: seq<int>, c: seq<Mbuf>) {
    |after| == |before| && forall k :: 0 <= k < |before| ==> after[k] == before[k] + Uses(c, k)
  }

  /** Everything from off0 on is asked for: by M_COPYALL, or by a greater length that has come down to
      M_COPYALL when a mbuf has been copied. */
  ghost predicate Everything(m: seq<Mbuf>, off0: int, len0: int) {
    len0 == COPYALL || (len0 > COPYALL && exists k :: 0 <= k <= |m| && |Bytes(m[..k])| == off0 + (len0 - COPYALL))
  }

  /** What m_copym may not be asked for. */
  ghost predicate OutOfRange(m: seq<Mbuf>, off0: int, len0: int) {
    off0 < 0 || len0 < 0 || off0 > |Bytes(m)| || (!Everything(m, off0, len0) && off0 + len0 > |Bytes(m)|)
  }

  /** No boundary among the first i mbufs at which a length would come down to M_COPYALL. */
  ghost predicate NotYet(m: seq<Mbuf>, off0: int, len0: int, i: nat) {
    len0 > COPYALL ==> forall k :: 0 <= k <= i && k <= |m| ==> |Bytes(m[..k])| != off0 + (len0 - COPYALL)
  }

  lemma {:induction false} PrefixMono(m: seq<Mbuf>, k: nat, i: nat)
    requires k <= i <= |m|
    ensures |Bytes(m[..k])| <= |Bytes(m[..i])|
    decreases i
  {
    hide Bytes;
    if k < i {
      PrefixMono(m, k, i - 1);
      Before(m, i - 1);
    }
  }

  lemma NotYetStart(m: seq<Mbuf>, off0: nat, len0: int, i: nat)
    requires i <= |m| && |Bytes(m[..i])| <= off0
    ensures NotYet(m, off0, len0, i)
  {
    hide Bytes;
    forall k | 0 <= k <= i
      ensures |Bytes(m[..k])| <= off0
    {
      PrefixMono(m, k, i);
    }
  }

  /** Once the copy has passed every boundary in question, not everything was asked for. */
  lemma NotYetEnd(m: seq<Mbuf>, off0: int, len0: int, i: nat)
    requires i <= |m| && NotYet(m, off0, len0, i) && len0 != COPYALL && (i == |m| || off0 + len0 <= |Bytes(m[..i])|)
    ensures !Everything(m, off0, len0)
  {
    hide Bytes;
    forall k | i <= k <= |m|
      ensures |Bytes(m[..i])| <= |Bytes(m[..k])|
    {
      PrefixMono(m, i, k);
    }
  }

  /** Where m_copym is: what it has copied, and how the bytes still to copy relate to it. */
  ghost predicate CopyState(m: seq<Mbuf>, off0: nat, len0: nat, i: nat, off: nat, len: int, top: seq<Mbuf>) {
    i <= |m| && (len0 == COPYALL ==> len == COPYALL) &&
    (if len == COPYALL then Everything(m, off0, len0)
     else len >= 0 && len + |Bytes(top)| == len0 && NotYet(m, off0, len0, i)) &&
    off0 + |Bytes(top)| <= |Bytes(m)| && Bytes(top) == Bytes(m)[off0..off0 + |Bytes(top)|] &&
    (len > 0 ==> |Bytes(m[..i])| + off == off0 + |Bytes(top)| && (off > 0 ==> i < |m| && off < |m[i].data|)) &&
    (len == 0 ==> len0 == 0 || off0 + |Bytes(top)| <= |Bytes(m[..i])|)
  }

  lemma NegativeRange(m: seq<Mbuf>, off0: int, len0: int)
    requires off0 < 0 || len0 < 0
    ensures OutOfRange(m, off0, len0)
  {
  }

  lemma PastEnd(m: seq<Mbuf>, off0: nat, len0: int)
    requires off0 > |Bytes(m)|
    ensures OutOfRange(m, off0, len0)
  {
  }

  lemma CopyStart(m: seq<Mbuf>, off0: nat, len0: nat, i: nat, off: nat)
    requires i <= |m| && |Bytes(m[..i])| + off == off0 <= |Bytes(m)| && (off > 0 ==> i < |m| && off < |m[i].data|)
    ensures CopyState(m, off0, len0, i, off, len0, [])
  {
    NotYetStart(m, off0, len0, i);
    AskedAll(m, off0);
    assert Bytes([]) == [];
    hide Bytes, NotYet, Everything;
  }

  lemma CopyAtEnd(m: seq<Mbuf>, off0: nat, len0: nat, i: nat, off: nat, len: int, top: seq<Mbuf>)
    requires CopyState(m, off0, len0, i, off, len, top) && i == |m| && len > 0
    ensures len != COPYALL ==> OutOfRange(m, off0, len0)
  {
    assert m[..i] == m;
    hide Bytes, NotYet, Everything;
    if len != COPYALL { NotYetEnd(m, off0, len0, i); }
  }

  lemma CopyRoom(m: seq<Mbuf>, off0: nat, len0: nat, i: nat, off: nat, len: int, top: seq<Mbuf>)
    requires CopyState(m, off0, len0, i, off, len, top) && i < |m| && len > 0
    ensures off <= |m[i].data|
  {
  }

  lemma CopyAdvance(m: seq<Mbuf>, off0: nat, len0: nat, i: nat, off: nat, len: int, top: seq<Mbuf>, n: Mbuf, count: nat)
    requires CopyState(m, off0, len0, i, off, len, top) && i < |m| && len > 0 && |m[i].data| < COPYALL
    requires off <= |m[i].data| && count == MinInt(len, |m[i].data| - off)
    requires |Bytes(m[..i + 1])| == |Bytes(m[..i])| + |m[i].data|
    requires var p := |Bytes(m[..i])|;
             p + off + count <= |Bytes(m)| && Bytes(top + [n]) == Bytes(top) + Bytes(m)[p + off..p + off + count]
    ensures CopyState(m, off0, len0, i + 1, 0, if len != COPYALL then len - count else len, top + [n])
  {
    hide Bytes, NotYet, Everything;
    Consecutive(Bytes(m), off0, off0 + |Bytes(top)|, off0 + |Bytes(top)| + count);
    if len != COPYALL { CopyMode(m, off0, len0, i, len, count, |Bytes(top + [n])|); }
  }

  lemma CopyFinish(m: seq<Mbuf>, off0: nat, len0: nat, i: nat, off: nat, len: int, top: seq<Mbuf>)
    requires CopyState(m, off0, len0, i, off, len, top) && (len <= 0 || (i == |m| && len == COPYALL))
    ensures !OutOfRange(m, off0, len0)
    ensures off0 <= (if Everything(m, off0, len0) then |Bytes(m)| else off0 + len0) <= |Bytes(m)|
    ensures Bytes(top) == Bytes(m)[off0..if Everything(m, off0, len0) then |Bytes(m)| else off0 + len0]
  {
    assert m[..|m|] == m;
    AskedAll(m, off0);
    hide Bytes, NotYet, Everything;
    if len != COPYALL && len0 != 0 { NotYetEnd(m, off0, len0, i); }
  }

  /** The packet header, if the copy starts at the beginning of a packet. */
  function CopyHeader(m0: Mbuf, off0: int, len0: int): Option<int> {
    if off0 == 0 && m0.hdr.Some? then Some(if len0 == COPYALL then m0.hdr.value - off0 else len0) else None
  }

  /** A copy of count bytes of x from off on; clusters are shared, other data copied. */
  function CopyOne(x: Mbuf, off: nat, count: nat, hdr: Option<int>): Mbuf
    requires off + count <= |x.data|
  {
    Mbuf(x.data[off..off + count],
         if x.ext.Some? then x.start + off else if hdr.Some? then MLEN - MHLEN else 0,
         x.typ, hdr.Some? && x.eor, x.ext, hdr)
  }

  /** e is what d holds from off on. */
  ghost predicate Part(d: seq<Byte>, off: int, e: seq<Byte>) {
    0 <= off && off + |e| <= |d| && forall k :: 0 <= k < |e| ==> e[k] == d[off + k]
  }

  lemma PartAll(d: seq<Byte>)
    ensures Part(d, 0, d)
  {
  }

  lemma PartThrough(d: seq<Byte>, i: int, e: seq<Byte>, j: int, f: seq<Byte>)
    requires Part(d, i, e) && Part(e, j, f)
    ensures Part(d, i + j, f)
  {
    forall k | 0 <= k < |f| ensures f[k] == d[i + j + k] { assert e[j + k] == d[i + (j + k)]; }
  }

  /** If y shares a cluster, it shows the part of x's data that lies where its own pointer points. */
  ghost predicate Window(x: Mbuf, y: Mbuf) {
    y.ext.Some? ==> x.ext.Some? && x.ext.value.id == y.ext.value.id && Part(x.data, y.start - x.start, y.data)
  }

  lemma WindowThrough(x: Mbuf, y: Mbuf, z: Mbuf)
    requires Window(x, y) && Window(y, z)
    ensures Window(x, z)
  {
    hide Part;
    if z.ext.Some? { PartThrough(x.data, y.start - x.start, y.data, z.start - y.start, z.data); }
  }

  /** The mbufs of r are the last ones of c, each with the bytes its pointer shows. */
  ghost predicate Remains(c: seq<Mbuf>, r: seq<Mbuf>) {
    |r| <= |c| && forall i :: 0 <= i < |r| ==> Window(c[|c| - |r| + i], r[i])
  }

  lemma RemainsAll(c: seq<Mbuf>)
    requires c != []
    ensures Remains(c, c[1..]) && Remains(c, [c[0].(hdr := None)] + c[1..])
  {
    hide Window;
    forall i | 0 <= i < |c| ensures Window(c[i], c[i]) { WindowSelf(c[i], None); }
    WindowSelf(c[0], None);
  }

  lemma WindowSelf(x: Mbuf, h: Option<int>)
    ensures Window(x, x) && Window(x, x.(hdr := h))
  {
    hide Part;
    PartAll(x.data);
  }

  /** The first one loses n bytes, or goes. */
  lemma RemainsLess(c: seq<Mbuf>, r: seq<Mbuf>, n: nat)
    requires Remains(c, r) && r != [] && n <= |r[0].data|
    ensures Remains(c, r[1..])
    ensures Remains(c, [r[0].(data := r[0].data[n..], start := r[0].start + n)] + r[1..])
  {
    var y := r[0].(data := r[0].data[n..], start := r[0].start + n);
    assert Window(r[0], y);
    hide Window;
    WindowThrough(c[|c| - |r|], r[0], y);
  }

  lemma CopyWindow(x: Mbuf, off: nat, count: nat, hdr: Option<int>)
    requires off + count <= |x.data|
    ensures Window(x, CopyOne(x, off, count, hdr))
  {
  }

  /** Each mbuf of c has the type of its counterpart in m, from j on, and shares its cluster, with its
      pointer to the same bytes. */
  ghost predicate Mirrors(m: seq<Mbuf>, j: nat, c: seq<Mbuf>) {
    c != [] ==>
      j + |c| <= |m| &&
      forall k :: 0 <= k < |c| ==> c[k].typ == m[j + k].typ && c[k].ext == m[j + k].ext && Window(m[j + k], c[k])
  }

  /** Chain c turned into chain c': the references follow the uses. */
  ghost predicate Balanced(before: seq<int>, after: seq<int>, c: seq<Mbuf>, c': seq<Mbuf>) {
    |after| == |before| && forall k :: 0 <= k < |before| ==> after[k] - Uses(c', k) == before[k] - Uses(c, k)
  }

  /** Free mbufs, and references to clusters (mclrefcnt). */
  class Pool {
    var refs: seq<int>
    var free: nat

    method Reference(x: Mbuf)
      requires x.ext.Some? ==> x.ext.value.id < |refs|
      modifies this`refs
      ensures |refs| == |old(refs)| && forall k :: 0 <= k < |refs| ==> refs[k] == old(refs)[k] + UsesOne(x, k)
    {
      if x.ext.Some? {
        refs := refs[x.ext.value.id := refs[x.ext.value.id] + 1];
      }
    }

    /** m_free: the mbuf goes back to the pool, and its reference is given up. */
    method Free(x: Mbuf)
      requires x.ext.Some? ==> x.ext.value.id < |refs|
      modifies this
      ensures |refs| == |old(refs)| && free == old(free) + 1
      ensures forall k :: 0 <= k < |refs| ==> refs[k] == old(refs)[k] - UsesOne(x, k)
    {
      if x.ext.Some? {
        refs := refs[x.ext.value.id := refs[x.ext.value.id] - 1];
      }
      free := free + 1;
    }

    method Freem(c: seq<Mbuf>)
      requires Known(c, refs)
      modifies this
      ensures Referenced(refs, old(refs), c) && free == old(free) + |c|
    {
      hide Uses, UsesOne;
      var i := 0;
      NoUses();
      assert c[0..] == c;
      while i < |c|
        invariant i <= |c| && |refs| == |old(refs)| && free == old(free) + i
        invariant forall k :: 0 <= k < |refs| ==> refs[k] + Uses(c, k) == old(refs)[k] + Uses(c[i..], k)
      {
        UsesAfter(c, i);
        Free(c[i]);
        i := i + 1;
      }
      assert c[i..] == [];
    }

    /** One mbuf of a copy. */
    method CopyMbuf(m: seq<Mbuf>, i: nat, off: nat, count: nat, hdr: Option<int>, ghost top: seq<Mbuf>,
        ghost refs0: seq<int>, ghost h: Option<int>) returns (n: Mbuf)
      requires i < |m| && AllFit(m) && off + count <= |m[i].data| && AllFit(top)
      requires (hdr.Some? ==> i == 0 && m[0].hdr.Some?) && HeaderOk(m[0], h, hdr, top)
      requires |top| <= i && Mirrors(m, i - |top|, top)
      requires free > 0 && Known(m, refs) && Known(top, refs) && Referenced(refs0, refs, top)
      modifies this
      ensures free == old(free) - 1 && |refs| == |old(refs)| && Referenced(refs0, refs, top + [n]) &&
              Known(top + [n], refs) && Known(m, refs)
      ensures HeaderOk(m[0], h, None, top + [n]) && Mirrors(m, i - |top|, top + [n])
      ensures AllFit(top + [n]) && |Bytes(m[..i + 1])| == |Bytes(m[..i])| + |m[i].data|
      ensures var p := |Bytes(m[..i])|;
              p + off + count <= |Bytes(m)| && Bytes(top + [n]) == Bytes(top) + Bytes(m)[p + off..p + off + count]
    {
      hide Bytes, Uses, UsesOne, AllFit, CopyOne, Mirrors, HeaderOk, Window;
      n := CopyOne(m[i], off, count, hdr);
      CopyWindow(m[i], off, count, hdr);
      CopyStep(m, i, off, count, hdr, top);
      MirrorsNext(m, i - |top|, top, n);
      HeaderNext(m[0], h, hdr, top, n);
      free := free - 1;
      Reference(n);
    }

    /** m_copym: the slice asked for, with one more reference for each cluster it shares. When
        mbufs run out everything taken so far is given back. */
    method Copym(m: seq<Mbuf>, off0: int, len0: int) returns (r: Copy, ghost j: nat)
      requires m != [] && AllFit(m) && Known(m, refs) && forall i :: 0 <= i < |m| ==> |m[i].data| < COPYALL
      modifies this
      ensures (r.Panicked? ==> OutOfRange(m, off0, len0)) && (OutOfRange(m, off0, len0) ==> !r.Copied?)
      ensures r.NoSpace? ==> refs == old(refs) && free == old(free) < |m|
      ensures r.Copied? ==>
                Bytes(r.c) == Bytes(m)[off0..if Everything(m, off0, len0) then |Bytes(m)| else off0 + len0] &&
                AllFit(r.c) && Referenced(old(refs), refs, r.c) && free + |r.c| == old(free) && Mirrors(m, j, r.c)
      ensures r.Copied? && (off0 > 0 || m[0].hdr.None?) ==> forall k :: 0 <= k < |r.c| ==> r.c[k].hdr.None?
      ensures r.Copied? && off0 == 0 && r.c != [] && m[0].hdr == Some(|Bytes(m)|) ==>
                r.c[0].eor == m[0].eor && (forall k :: 0 < k < |r.c| ==> r.c[k].hdr.None?) &&
                (r.c[0].hdr == Some(|Bytes(r.c)|) <==>
                 !(len0 > COPYALL && Everything(m, off0, len0) && len0 != |Bytes(m)|))
    {
      hide Bytes, Uses, AllFit, Everything, Referenced, Mirrors, CopyHeader, Known, HeaderOk, CopyState, OutOfRange;
      j := 0;
      if off0 < 0 || len0 < 0 {
        NegativeRange(m, off0, len0);
        return Panicked, j;
      }
      var hdr := CopyHeader(m[0], off0, len0);
      HeaderNone(m[0], hdr);
      HeaderAt(m[0], off0, len0);
      var ok, i: nat, off: nat := Seek(m, off0);
      if !ok {
        PastEnd(m, off0, len0);
        return Panicked, j;
      }
      j := i;
      var top: seq<Mbuf>, len := [], len0;
      NoUses();
      MirrorsNone(m, j, refs);
      ReferencedNone(refs);
      CopyStart(m, off0, len0, i, off);
      while len > 0
        invariant i <= |m| && i == j + |top| && |refs| == |old(refs)| && free + |top| == old(free)
        invariant Referenced(old(refs), refs, top) && AllFit(top) && Known(top, refs) && Known(m, refs)
        invariant CopyState(m, off0, len0, i, off, len, top) && Mirrors(m, j, top)
        invariant (hdr.Some? ==> i == 0 && m[0].hdr.Some?) && HeaderOk(m[0], CopyHeader(m[0], off0, len0), hdr, top)
        decreases |m| - i
      {
        if i == |m| {
          CopyAtEnd(m, off0, len0, i, off, len, top);
          if len != COPYALL { return Panicked, j; }
          break;
        }
        if free == 0 {
          Freem(top);
          GivenBack(old(refs), refs, top);
          return NoSpace, j;
        }
        CopyRoom(m, off0, len0, i, off, len, top);
        var count := MinInt(len, |m[i].data| - off);
        var n := CopyMbuf(m, i, off, count, hdr, top, old(refs), CopyHeader(m[0], off0, len0));
        CopyAdvance(m, off0, len0, i, off, len, top, n, count);
        top := top + [n];
        if len != COPYALL { len := len - count; }
        hdr, off := None, 0;
        i := i + 1;
      }
      CopyFinish(m, off0, len0, i, off, len, top);
      CopyDone(m, off0, len0, hdr, top);
      r := Copied(top);
    }

    /** m_cat: the second chain behind the first, its first mbufs joined to the last one while they
        fit. */
    method Cat(m: seq<Mbuf>, n: seq<Mbuf>) returns (r: seq<Mbuf>)
      requires m != [] && AllFit(m) && AllFit(n) && Known(m, refs) && Known(n, refs)
      modifies this
      ensures Bytes(r) == Bytes(m) + Bytes(n) && AllFit(r)
      ensures Balanced(old(refs), refs, m + n, r) && free + |r| == old(free) + |m| + |n|
    {
      hide Bytes, Uses, UsesOne, AllFit;
      r := m;
      var i := 0;
      JoinStart(m, n);
      while i < |n|
        invariant i <= |n| && r != [] && AllFit(r) && Bytes(r) + Bytes(n[i..]) == Bytes(m) + Bytes(n)
        invariant Balanced(old(refs), refs, m + n, r + n[i..]) && free + |r| + |n| - i == old(free) + |m| + |n|
      {
        var x := r[|r| - 1];
        JoinFacts(r, n, i, refs);
        if x.ext.Some? || x.start + |x.data| + |n[i].data| >= MLEN {
          r := r + n[i..];
          return;
        }
        Free(n[i]);
        r := r[..|r| - 1] + [x.(data := x.data + n[i].data)];
        i := i + 1;
      }
      JoinEnd(r, n);
    }

    /** m_pullup: at least len0 bytes together in a first mbuf without cluster, or the whole chain
        freed. */
    method Pullup(c: seq<Mbuf>, len0: nat, maxProto: nat) returns (ok: bool, r: seq<Mbuf>)
      requires c != [] && AllFit(c) && Known(c, refs)
      modifies this
      ensures ok <==>
              len0 <= |Bytes(c)| &&
              ((|c| > 1 && c[0].ext.None? && c[0].start + len0 < MLEN) || (len0 <= MHLEN && old(free) > 0))
      ensures ok ==>
              r != [] && r[0].ext.None? && |r[0].data| >= len0 && r[0].hdr == c[0].hdr && AllFit(r) &&
              Bytes(r) == Bytes(c) && r[0].typ == c[0].typ && Remains(c, r[1..])
      ensures !ok ==> r == []
      ensures Balanced(old(refs), refs, c, r) && free + |r| == old(free) + |c|
    {
      hide Bytes, Uses, UsesOne, AllFit, Remains;
      Head(c);
      PullStart(c);
      RemainsAll(c);
      var m, rest;
      if InPlace(c, len0) {
        if |c[0].data| >= len0 { return true, c; }
        m, rest := c[0], c[1..];
        KnownRest(c, refs);
      } else {
        if len0 > MHLEN || free == 0 {
          Freem(c);
          NoUses();
          return false, [];
        }
        free := free - 1;
        m := Mbuf([], if c[0].hdr.Some? then MLEN - MHLEN else 0, c[0].typ, c[0].hdr.Some? && c[0].eor, None, c[0].hdr);
        rest := [c[0].(hdr := None)] + c[1..];
        NewFront(c, m, rest);
      }
      ok, r := Gather(c, m, rest, len0, maxProto, old(refs), old(free));
    }

    /** The copying loop of m_pullup. */
    method Gather(ghost c: seq<Mbuf>, m0: Mbuf, rest0: seq<Mbuf>, len0: nat, maxProto: nat, ghost refs0: seq<int>,
        ghost free0: nat)
      returns (ok: bool, r: seq<Mbuf>)
      requires rest0 != [] && AllFit([m0] + rest0) && Known([m0] + rest0, refs) && m0.ext.None? &&
               len0 <= MLEN - m0.start && Remains(c, rest0)
      requires Bytes([m0] + rest0) == Bytes(c) && Balanced(refs0, refs, c, [m0] + rest0) &&
               free + 1 + |rest0| == free0 + |c|
      modifies this
      ensures ok <==> len0 <= |Bytes(c)|
      ensures ok ==>
              r != [] && r[0].ext.None? && |r[0].data| >= len0 && r[0].hdr == m0.hdr && AllFit(r) &&
              Bytes(r) == Bytes(c) && r[0].typ == m0.typ && Remains(c, r[1..])
      ensures !ok ==> r == []
      ensures Balanced(refs0, refs, c, r) && free + |r| == free0 + |c|
    {
      hide Bytes, Uses, UsesOne, AllFit, Remains;
      var m, rest := m0, rest0;
      var len, space := len0 - |m.data|, MLEN - (m.start + |m.data|);
      FitsHead(m, rest);
      var first := true;
      while first || (len > 0 && rest != [])
        invariant (first ==> rest != []) && m.ext.None? && m.hdr == m0.hdr && m.start == m0.start && m.typ == m0.typ
        invariant len == len0 - |m.data| && space == MLEN - (m.start + |m.data|) && space >= 0
        invariant AllFit([m] + rest) && Known([m] + rest, refs) && Remains(c, rest)
        invariant Bytes([m] + rest) == Bytes(c) && Balanced(refs0, refs, c, [m] + rest) &&
                  free + 1 + |rest| == free0 + |c|
        decreases |rest|, (if first then 1 else 0) + (if len > 0 then 1 else 0)
      {
        var x := rest[0];
        assert ([m] + rest)[1] == x;
        var count := MinInt(MinInt(if len >= maxProto then len else maxProto, space), |x.data|);
        PullStep(m, rest, count);
        RemainsLess(c, rest, count);
        m := m.(data := m.data + x.data[..count]);
        len, space := len - count, space - count;
        if count < |x.data| {
          rest := [x.(data := x.data[count..], start := x.start + count)] + rest[1..];
        } else {
          Free(x);
          rest := rest[1..];
        }
        first := false;
      }
      BytesCons(m, rest);
      NoUses();
      if len > 0 {
        assert [m] + rest == [m];
        Only(m);
        Freem([m]);
        return false, [];
      }
      assert ([m] + rest)[1..] == rest;
      return true, [m] + rest;
    }

    /** m_split on a chain without packet header: tail None where the source returns no chain. */
    method SplitPlain(m0: seq<Mbuf>, len0: nat) returns (front: seq<Mbuf>, tail: Option<seq<Mbuf>>)
      requires AllFit(m0) && Known(m0, refs)
      modifies this
      ensures var i := SplitIndex(m0, len0);
              tail.None? <==> i == |m0| || (if Remain(m0, len0) == 0 then i + 1 == |m0| else old(free) == 0)
      ensures SplitOk(m0, len0, front, tail, []) && SplitPool(m0, front, tail, old(refs), refs, old(free), free)
      ensures |front| <= |m0| && (tail.None? ==> front == m0) && (m0 != [] ==> front != [] && front[0].hdr == m0[0].hdr)
    {
      hide Bytes, Uses, UsesOne, AllFit, Remain, SplitIndex;
      var i: nat, len: nat := FindSplit(m0, len0);
      NoSplit(m0, len0, refs, free);
      if i == |m0| { return m0, None; }
      var remain := |m0[i].data| - len;
      if remain == 0 {
        if i + 1 == |m0| { return m0, None; }
        Between(m0, i, len0, refs, free);
        return m0[..i + 1], Some(m0[i + 1..]);
      }
      if free == 0 { return m0, None; }
      free := free - 1;
      var n := Second(m0[i], len, MLEN, None);
      Reference(n);
      FitAt(m0, i);
      SecondFits(m0, i, len, MLEN, None);
      CutFacts(m0, i, len, n);
      front, tail := m0[..i] + [FirstPart(m0[i], len)], Some([n] + m0[i + 1..]);
      assert [] + Bytes(m0)[len0..] == Bytes(m0)[len0..];
    }

    /** m_split. In one case the source does not set the length of the mbuf it puts in front of the
        second part; junk is what that mbuf then holds. */
    method Split(m0: seq<Mbuf>, len0: nat, junk: seq<Byte>) returns (front: seq<Mbuf>, tail: Option<seq<Mbuf>>)
      requires AllFit(m0) && Known(m0, refs)
      modifies this
      ensures SplitOk(m0, len0, front, tail, if UnsetLength(m0, len0) then junk else [])
      ensures SplitPool(m0, front, tail, old(refs), refs, old(free), free)
      ensures tail.None? <==> NotSplit(m0, len0, old(free))
      ensures |front| <= |m0| && (m0 != [] ==> front != [] && front[0].hdr == HeaderAfter(m0, len0, old(free)))
      ensures tail.Some? && m0 != [] && m0[0].hdr.Some? ==>
              tail.value != [] && tail.value[0].hdr == Some(m0[0].hdr.value - len0)
    {
      hide Bytes, Uses, UsesOne, AllFit, Remain, SplitIndex;
      NoSplit(m0, len0, refs, free);
      if m0 == [] || m0[0].hdr.None? {
        front, tail := SplitPlain(m0, len0);
        return;
      }
      var i: nat, len: nat := FindSplit(m0, len0);
      if i == |m0| || free == 0 { return m0, None; }
      free := free - 1;
      var h, hdr := WithHeader(m0, len0), Some(m0[0].hdr.value - len0);
      HeaderFacts(m0, len0);
      if h[i].ext.None? && |h[i].data| - len > MHLEN {
        front, tail := SplitBehind(h, i, len, Mbuf(junk, MLEN, m0[0].typ, false, None, hdr));
        NestedIndex(m0, i, len0);
      } else {
        var n := Second(h[i], len, MHLEN, hdr).(typ := m0[0].typ);
        Reference(n);
        FitAt(h, i);
        SecondFits(h, i, len, MHLEN, hdr);
        CutFacts(h, i, len, n);
        front, tail := h[..i] + [FirstPart(h[i], len)], Some([n] + h[i + 1..]);
        assert [] + Bytes(m0)[len0..] == Bytes(m0)[len0..];
      }
    }

    /** The recursive case of m_split: n is the new header mbuf, and the rest is split at mbuf i. */
    method SplitBehind(h: seq<Mbuf>, i: nat, len: nat, n: Mbuf) returns (front: seq<Mbuf>, tail: Option<seq<Mbuf>>)
      requires i < |h| && AllFit(h) && Known(h, refs) && len < |h[i].data| && n.ext.None? &&
               MLEN - MHLEN <= n.start <= MLEN
      modifies this
      ensures SplitOk(h, |Bytes(h[..i])| + len, front, tail, n.data)
      ensures SplitPool(h, front, tail, old(refs), refs, old(free) + 1, free)
      ensures (tail.None? <==> old(free) == 0) && (tail.None? ==> front == h) &&
              (tail.Some? ==> tail.value != [] && tail.value[0] == n)
      ensures i > 0 ==> front != [] && front[0] == h[0]
      ensures |front| <= |h|
    {
      hide Bytes, Uses, UsesOne, AllFit, Remain, SplitIndex;
      NoSplit(h, |Bytes(h[..i])| + len, refs, free + 1);
      Suffix(h, i, refs);
      SuffixIndex(h, i, len);
      var front2, tail2 := SplitPlain(h[i..], len);
      if tail2.None? {
        free := free + 1;
        return h, None;
      }
      NestedFacts(h, i, len, n, front2, tail2.value);
      front, tail := h[..i] + front2, Some([n] + tail2.value);
    }
  }

  // ---------- splitting ----------

  /** The mbuf in which byte number len ends. */
  function SplitIndex(c: seq<Mbuf>, len: nat): (i: nat)
    ensures i <= |c|
  {
    if c == [] || len <= |c[0].data| then 0 else 1 + SplitIndex(c[1..], len - |c[0].data|)
  }

  /** How much of that mbuf lies behind the cut. */
  function Remain(c: seq<Mbuf>, len: nat): int {
    var i := SplitIndex(c, len);
    if i < |c| then |Bytes(c[..i])| + |c[i].data| - len else 0
  }

  function FirstPart(x: Mbuf, len: nat): Mbuf
    requires len <= |x.data|
  {
    x.(data := x.data[..len], ext := if x.ext.Some? then Some(x.ext.value.(size := 0)) else None)
  }

  /** The new mbuf behind the cut: shares the cluster, or gets the bytes at its end, in room bytes. */
  function Second(x: Mbuf, len: nat, room: nat, hdr: Option<int>): Mbuf
    requires len <= |x.data| && room <= MLEN
  {
    var free := if room >= |x.data| - len then room - (|x.data| - len) else 0;
    Mbuf(x.data[len..], if x.ext.Some? then x.start + len
        else MLEN - room + (free - free % 4), x.typ, false, x.ext, hdr)
  }

  /** Both sides of a cut show their bytes of the cluster they share; copied bytes lie at the end of
      the room, aligned to four bytes; a mark stays with the front. */
  lemma CutViews(x: Mbuf, len: nat, room: nat, hdr: Option<int>)
    requires len <= |x.data| && room <= MLEN
    ensures var a, b := FirstPart(x, len), Second(x, len, room, hdr);
            Window(x, a) && Window(x, b) && a.data + b.data == x.data && b.ext == x.ext && a.eor == x.eor && !b.eor &&
            (x.ext.None? && |b.data| <= room ==>
               MLEN - room <= b.start && (b.start - (MLEN - room)) % 4 == 0 && MLEN - 4 < b.start + |b.data| <= MLEN)
  {
  }

  /** The chain is cut after len0 bytes; junk stands before the second part. */
  ghost predicate SplitOk(m0: seq<Mbuf>, len0: nat, front: seq<Mbuf>, tail: Option<seq<Mbuf>>, junk: seq<Byte>) {
    AllFit(front) &&
    if tail.None? then Bytes(front) == Bytes(m0)
    else
      (junk == [] ==> AllFit(tail.value)) && len0 <= |Bytes(m0)| && Bytes(front) == Bytes(m0)[..len0] &&
      Bytes(tail.value) == junk + Bytes(m0)[len0..]
  }

  /** The cut falls into the first mbuf whose end is not before it; past the end there is none. */
  lemma {:induction false} SplitPlace(c: seq<Mbuf>, len: nat)
    ensures var i := SplitIndex(c, len);
            (i == |c| <==> len > |Bytes(c)| || c == []) &&
            (i < |c| ==> len <= |Bytes(c[..i + 1])|) && (0 < i < |c| ==> |Bytes(c[..i])| < len)
  {
    if c != [] {
      BytesCons(c[0], c[1..]);
      assert c == [c[0]] + c[1..];
      if len > |c[0].data| {
        SplitPlace(c[1..], len - |c[0].data|);
        var i := SplitIndex(c, len);
        assert c[..i] == [c[0]] + c[1..][..i - 1];
        BytesCons(c[0], c[1..][..i - 1]);
        if i < |c| {
          assert c[..i + 1] == [c[0]] + c[1..][..i];
          BytesCons(c[0], c[1..][..i]);
        }
      } else {
        assert c[..1] == [c[0]];
        Only(c[0]);
      }
    }
  }

  /** The lengths in the packet headers: right on both sides of the cut, but for what an unset length
      puts there; and when nothing is split, wrong exactly if the second mbuf could not be had. */
  lemma SplitLengths(m0: seq<Mbuf>, len0: nat, front: seq<Mbuf>, tail: Option<seq<Mbuf>>, junk: seq<Byte>, free: nat)
    requires m0 != [] && m0[0].hdr == Some(|Bytes(m0)|) && front != []
    requires SplitOk(m0, len0, front, tail, junk) && (tail.None? <==> NotSplit(m0, len0, free))
    requires front[0].hdr == HeaderAfter(m0, len0, free)
    requires tail.Some? ==> tail.value != [] && tail.value[0].hdr == Some(m0[0].hdr.value - len0)
    ensures tail.Some? ==>
              front[0].hdr == Some(|Bytes(front)|) && tail.value[0].hdr == Some(|Bytes(tail.value)| - |junk|)
    ensures tail.None? ==> (front[0].hdr == Some(|Bytes(front)|) <==> !(UnsetLength(m0, len0) && free == 1))
  {
    SplitPlace(m0, len0);
    var i := SplitIndex(m0, len0);
    if i < |m0| { Upto(m0, i); }
    hide Bytes, SplitIndex, AllFit;
  }

  /** Splitting and joining again gives the chain back exactly when nothing stands in between. */
  lemma SplitThenJoin(m0: seq<Mbuf>, len0: nat, front: seq<Mbuf>, tail: seq<Mbuf>, junk: seq<Byte>)
    requires SplitOk(m0, len0, front, Some(tail), if UnsetLength(m0, len0) then junk else [])
    ensures Bytes(front + tail) == Bytes(m0) <==> !UnsetLength(m0, len0) || junk == []
  {
    hide Bytes, UnsetLength, AllFit;
    BytesConcat(front, tail);
    var all, j := Bytes(m0), if UnsetLength(m0, len0) then junk else [];
    assert Bytes(front) + Bytes(tail) == all[..len0] + (j + all[len0..]);
    assert |all[..len0] + (j + all[len0..])| == |all| + |j|;
    if j == [] { assert all[..len0] + (j + all[len0..]) == all; }
  }

  ghost predicate SplitPool(m0: seq<Mbuf>, front: seq<Mbuf>, tail: Option<seq<Mbuf>>, refs: seq<int>, refs': seq<int>,
      free: nat, free': nat) {
    if tail.None? then Balanced(refs, refs', m0, front) && free' == free && |front| == |m0|
    else Balanced(refs, refs', m0, front + tail.value) && free' + |front| + |tail.value| == free + |m0|
  }

  /** A packet that is cut inside a mbuf without cluster, with more behind the cut than a header
      mbuf can hold. */
  predicate UnsetLength(m0: seq<Mbuf>, len0: nat) {
    var i := SplitIndex(m0, len0);
    m0 != [] && m0[0].hdr.Some? && i < |m0| && m0[i].ext.None? && Remain(m0, len0) > MHLEN
  }

  /** When m_split returns no chain: too few bytes, too few mbufs, or nothing behind the cut. */
  predicate NotSplit(m0: seq<Mbuf>, len0: nat, free: nat) {
    var i := SplitIndex(m0, len0);
    i == |m0| ||
    if m0[0].hdr.Some? then free == 0 || (UnsetLength(m0, len0) && free < 2)
    else if Remain(m0, len0) == 0 then i + 1 == |m0| else free == 0
  }

  /** The packet header afterwards: it is not put back when the inner split fails. */
  function HeaderAfter(m0: seq<Mbuf>, len0: nat, free: nat): Option<int>
    requires m0 != []
  {
    if m0[0].hdr.None? || SplitIndex(m0, len0) == |m0| || free == 0 then m0[0].hdr else Some(len0)
  }

  function WithHeader(c: seq<Mbuf>, len: int): seq<Mbuf>
    requires c != []
  {
    [c[0].(hdr := Some(len))] + c[1..]
  }

  lemma HeaderFacts(c: seq<Mbuf>, len: int)
    requires c != [] && AllFit(c) && c[0].hdr.Some?
    ensures var h := WithHeader(c, len);
            |h| == |c| && AllFit(h) && Bytes(h) == Bytes(c) && (forall k :: Uses(h, k) == Uses(c, k)) &&
            (forall i :: 0 <= i < |c| ==> h[i].data == c[i].data && h[i].ext == c[i].ext) && h[0].hdr == Some(len) &&
            (forall refs :: Known(c, refs) ==> Known(h, refs)) &&
              (forall i :: 0 <= i <= |c| ==> |Bytes(h[..i])| == |Bytes(c[..i])|)
  {
    hide Bytes, Uses;
    var h := WithHeader(c, len);
    Head(c);
    BytesCons(h[0], c[1..]);
    forall i | 0 <= i <= |c|
      ensures |Bytes(h[..i])| == |Bytes(c[..i])|
    {
      SameData(h[..i], c[..i]);
    }
  }

  lemma {:induction false} SameData(a: seq<Mbuf>, b: seq<Mbuf>)
    requires |a| == |b| && forall i :: 0 <= i < |a| ==> a[i].data == b[i].data
    ensures Bytes(a) == Bytes(b)
  {
    if a != [] { SameData(a[1..], b[1..]); }
  }

  /** The first mbuf of a packet cannot have that much behind the cut. */
  lemma NestedIndex(m0: seq<Mbuf>, i: nat, len0: nat)
    requires i < |m0| && AllFit(m0) && m0[0].hdr.Some? && m0[i].ext.None? && |m0[i].data| > MHLEN
    ensures i > 0
  {
  }

  lemma Suffix(h: seq<Mbuf>, i: nat, refs: seq<int>)
    requires i < |h| && AllFit(h) && Known(h, refs)
    ensures AllFit(h[i..]) && Known(h[i..], refs)
  {
  }

  lemma SuffixIndex(h: seq<Mbuf>, i: nat, len: nat)
    requires i < |h| && len < |h[i].data|
    ensures SplitIndex(h[i..], len) == 0 && Remain(h[i..], len) > 0
  {
  }

  lemma NestedFacts(h: seq<Mbuf>, i: nat, len: nat, n: Mbuf, front2: seq<Mbuf>, tail2: seq<Mbuf>)
    requires i < |h| && AllFit(h) && SplitOk(h[i..], len, front2, Some(tail2), []) && n.ext.None?
    ensures AllFit(h[..i] + front2) && (n.data == [] && n.start <= MLEN && (n.hdr.Some? ==> n.start >= MLEN - MHLEN) ==>
            AllFit([n] + tail2))
    ensures |Bytes(h[..i])| + len <= |Bytes(h)| && Bytes(h[..i] + front2) == Bytes(h)[..|Bytes(h[..i])| + len]
    ensures Bytes([n] + tail2) == n.data + Bytes(h)[|Bytes(h[..i])| + len..]
    ensures forall k ::
              Uses(h[..i] + front2 + ([n] + tail2), k) == Uses(h, k) - Uses(h[i..], k) + Uses(front2 + tail2, k)
  {
    hide Bytes, Uses;
    SplitAt(h, i);
    BytesConcat(h[..i], front2);
    BytesCons(n, tail2);
    assert [] + Bytes(h[i..])[len..] == Bytes(h[i..])[len..];
    var p, q := Bytes(h[..i]), Bytes(h[i..]);
    assert (p + q)[..|p| + len] == p + q[..len] && (p + q)[|p| + len..] == q[len..];
    forall k
      ensures Uses(h[..i] + front2 + ([n] + tail2), k) == Uses(h, k) - Uses(h[i..], k) + Uses(front2 + tail2, k)
    {
      UsesConcat(h[..i] + front2, [n] + tail2, k);
      UsesConcat(h[..i], front2, k);
      UsesConcat(front2, tail2, k);
      UsesConcat(h[..i], h[i..], k);
      assert h == h[..i] + h[i..];
    }
  }

  method FindSplit(m0: seq<Mbuf>, len0: nat) returns (i: nat, len: nat)
    ensures i == SplitIndex(m0, len0) && (i == |m0| ==> len0 > |Bytes(m0)| || m0 == [])
    ensures i < |m0| ==> |Bytes(m0[..i])| + len == len0 && len <= |m0[i].data| && Remain(m0, len0) == |m0[i].data| - len
  {
    hide Bytes;
    i, len := 0, len0;
    Start(m0);
    assert m0[0..] == m0;
    while i < |m0| && len > |m0[i].data|
      invariant i <= |m0| && |Bytes(m0[..i])| + len == len0 && (i > 0 ==> len > 0)
      invariant SplitIndex(m0, len0) == i + SplitIndex(m0[i..], len)
    {
      Before(m0, i);
      assert m0[i..][1..] == m0[i + 1..];
      len := len - |m0[i].data|;
      i := i + 1;
    }
    if i == |m0| { assert m0[..i] == m0; }
  }

  lemma NoSplit(m0: seq<Mbuf>, len0: nat, refs: seq<int>, free: nat)
    requires AllFit(m0)
    ensures SplitOk(m0, len0, m0, None, []) && SplitPool(m0, m0, None, refs, refs, free, free)
  {
  }

  /** A cut between two mbufs. */
  lemma Between(m0: seq<Mbuf>, i: nat, len0: nat, refs: seq<int>, free: nat)
    requires i < |m0| && AllFit(m0) && |Bytes(m0[..i])| + |m0[i].data| == len0
    ensures SplitOk(m0, len0, m0[..i + 1], Some(m0[i + 1..]), []) &&
            SplitPool(m0, m0[..i + 1], Some(m0[i + 1..]), refs, refs, free, free)
  {
    hide Bytes, Uses;
    Before(m0, i);
    SplitAt(m0, i + 1);
    assert m0[..i + 1] + m0[i + 1..] == m0;
  }

  lemma CutFacts(m0: seq<Mbuf>, i: nat, len: nat, n: Mbuf)
    requires i < |m0| && len <= |m0[i].data| && AllFit(m0)
    requires n.data == m0[i].data[len..] && n.ext == m0[i].ext && Fits(n)
    ensures var front, tail, cut := m0[..i] + [FirstPart(m0[i], len)], [n] + m0[i + 1..], |Bytes(m0[..i])| + len;
            AllFit(front) && AllFit(tail) && cut <= |Bytes(m0)| && Bytes(front) == Bytes(m0)[..cut] &&
                Bytes(tail) == Bytes(m0)[cut..] &&
            (forall k :: Uses(front + tail, k) == Uses(m0, k) + UsesOne(n, k))
  {
    hide Bytes, Uses, UsesOne;
    var x, y := m0[i], FirstPart(m0[i], len);
    var front, tail := m0[..i] + [y], [n] + m0[i + 1..];
    CutBytes(m0, i, len, n);
    forall k
      ensures Uses(front + tail, k) == Uses(m0, k) + UsesOne(n, k)
    {
      CutUses(m0, i, y, n, k);
      SameId(x, y, k);
    }
  }

  lemma SameId(x: Mbuf, y: Mbuf, k: nat)
    requires x.ext.Some? == y.ext.Some? && (x.ext.Some? ==> x.ext.value.id == y.ext.value.id)
    ensures UsesOne(x, k) == UsesOne(y, k)
  {
  }

  lemma CutUses(m0: seq<Mbuf>, i: nat, y: Mbuf, n: Mbuf, k: nat)
    requires i < |m0|
    ensures Uses(m0[..i] + [y] + ([n] + m0[i + 1..]), k) ==
            Uses(m0, k) - UsesOne(m0[i], k) + UsesOne(y, k) + UsesOne(n, k)
  {
    hide Uses, UsesOne;
    var front, tail := m0[..i] + [y], [n] + m0[i + 1..];
    UsesConcat(front, tail, k);
    BytesSnoc(m0[..i], y);
    BytesCons(n, m0[i + 1..]);
    assert m0 == m0[..i] + ([m0[i]] + m0[i + 1..]);
    UsesConcat(m0[..i], [m0[i]] + m0[i + 1..], k);
    BytesCons(m0[i], m0[i + 1..]);
  }

  lemma CutBytes(m0: seq<Mbuf>, i: nat, len: nat, n: Mbuf)
    requires i < |m0| && len <= |m0[i].data| && n.data == m0[i].data[len..]
    ensures var front, tail, cut := m0[..i] + [FirstPart(m0[i], len)], [n] + m0[i + 1..], |Bytes(m0[..i])| + len;
            cut <= |Bytes(m0)| && Bytes(front) == Bytes(m0)[..cut] && Bytes(tail) == Bytes(m0)[cut..]
  {
    hide Bytes, Uses;
    TailCut(m0, i, len);
    BytesSnoc(m0[..i], FirstPart(m0[i], len));
    BytesCons(n, m0[i + 1..]);
    Upto(m0, i);
    var p, x, q := Bytes(m0[..i]), m0[i].data, Bytes(m0[i + 1..]);
    assert (p + (x + q))[|p| + len..] == x[len..] + q;
  }

  lemma FitAt(c: seq<Mbuf>, i: nat)
    requires i < |c| && AllFit(c)
    ensures Fits(c[i])
  {
  }

  lemma SecondFits(m0: seq<Mbuf>, i: nat, len: nat, room: nat, hdr: Option<int>)
    requires i < |m0| && AllFit(m0) && len <= |m0[i].data| && room <= MLEN && (hdr.Some? ==> room <= MHLEN)
    requires m0[i].ext.None? ==> |m0[i].data| - len <= room
    ensures Fits(Second(m0[i], len, room, hdr))
  {
  }

  /** The first mbuf can take len bytes where it is. */
  predicate InPlace(c: seq<Mbuf>, len: nat) {
    |c| > 1 && c[0].ext.None? && c[0].start + len < MLEN
  }

  lemma PullStart(c: seq<Mbuf>)
    requires c != [] && AllFit(c)
    ensures c == [c[0]] + c[1..] && Fits(c[0])
  {
  }

  lemma KnownRest(c: seq<Mbuf>, refs: seq<int>)
    requires c != [] && Known(c, refs)
    ensures Known([c[0]] + c[1..], refs)
  {
    assert c == [c[0]] + c[1..];
  }

  /** Taking the packet header to a new mbuf in front. */
  lemma NewFront(c: seq<Mbuf>, m: Mbuf, rest: seq<Mbuf>)
    requires c != [] && AllFit(c) && m.data == [] && m.ext.None? && m.start <= MLEN &&
             (m.hdr.Some? ==> m.start >= MLEN - MHLEN)
    requires rest == [c[0].(hdr := None)] + c[1..]
    ensures AllFit([m] + rest) && Bytes([m] + rest) == Bytes(c) && forall k :: Uses([m] + rest, k) == Uses(c, k)
    ensures forall refs :: Known(c, refs) ==> Known([m] + rest, refs)
  {
    var x := c[0].(hdr := None);
    Head(c);
    BytesCons(x, c[1..]);
    BytesCons(m, rest);
    assert forall i :: 0 < i < |c| ==> c[i] == c[1..][i - 1];
  }

  lemma FitsHead(m: Mbuf, rest: seq<Mbuf>)
    requires AllFit([m] + rest)
    ensures Fits(m)
  {
    assert ([m] + rest)[0] == m;
  }

  /** One round of m_pullup: count bytes go from the first of the rest to m. */
  lemma PullStep(m: Mbuf, rest: seq<Mbuf>, count: nat)
    requires rest != [] && count <= |rest[0].data| && AllFit([m] + rest) && m.ext.None? &&
             m.start + |m.data| + count <= MLEN
    ensures var x := rest[0];
            var m' := m.(data := m.data + x.data[..count]);
            var y := x.(data := x.data[count..], start := x.start + count);
            AllFit([m'] + ([y] + rest[1..])) && Bytes([m'] + ([y] + rest[1..])) == Bytes([m] + rest) &&
            (forall k :: Uses([m'] + ([y] + rest[1..]), k) == Uses([m] + rest, k)) &&
            (forall k :: Uses([m'] + rest[1..], k) == Uses([m] + rest, k) - UsesOne(x, k)) &&
            (count == |x.data| ==> AllFit([m'] + rest[1..]) && Bytes([m'] + rest[1..]) == Bytes([m] + rest)) &&
            (forall refs :: Known([m] + rest, refs) ==>
              Known([m'] + ([y] + rest[1..]), refs) && Known([m'] + rest[1..], refs))
  {
    PullBytes(m, rest, count);
    PullShape(m, rest, count);
  }

  lemma PullBytes(m: Mbuf, rest: seq<Mbuf>, count: nat)
    requires rest != [] && count <= |rest[0].data|
    ensures var x := rest[0];
            var m' := m.(data := m.data + x.data[..count]);
            var y := x.(data := x.data[count..], start := x.start + count);
            Bytes([m'] + ([y] + rest[1..])) == Bytes([m] + rest) &&
            (forall k :: Uses([m'] + ([y] + rest[1..]), k) == Uses([m] + rest, k)) &&
            (forall k :: Uses([m'] + rest[1..], k) == Uses([m] + rest, k) - UsesOne(x, k)) &&
            (count == |x.data| ==> Bytes([m'] + rest[1..]) == Bytes([m] + rest))
  {
    hide Bytes, Uses;
    var x := rest[0];
    var m' := m.(data := m.data + x.data[..count]);
    var y := x.(data := x.data[count..], start := x.start + count);
    Head(rest);
    BytesCons(m, rest);
    BytesCons(y, rest[1..]);
    BytesCons(m', [y] + rest[1..]);
    BytesCons(m', rest[1..]);
    assert x.data == x.data[..count] + x.data[count..];
    JoinBytes(m.data, x.data[..count], x.data[count..], Bytes(rest[1..]));
    Assoc(m.data + x.data[..count], x.data[count..], Bytes(rest[1..]));
    Assoc(m.data, x.data, Bytes(rest[1..]));
  }

  lemma PullShape(m: Mbuf, rest: seq<Mbuf>, count: nat)
    requires rest != [] && count <= |rest[0].data| && AllFit([m] + rest) && m.ext.None? &&
             m.start + |m.data| + count <= MLEN
    ensures var x := rest[0];
            var m' := m.(data := m.data + x.data[..count]);
            var y := x.(data := x.data[count..], start := x.start + count);
            AllFit([m'] + ([y] + rest[1..])) && AllFit([m'] + rest[1..]) &&
            (forall refs :: Known([m] + rest, refs) ==>
              Known([m'] + ([y] + rest[1..]), refs) && Known([m'] + rest[1..], refs))
  {
    var c := [m] + rest;
    assert c[0] == m && c[1] == rest[0] && forall i :: 0 <= i < |rest| ==> c[i + 1] == rest[i];
    assert forall i :: 0 <= i < |rest| - 1 ==> rest[1..][i] == c[i + 2];
  }

  lemma JoinStart(m: seq<Mbuf>, n: seq<Mbuf>)
    ensures n[0..] == n && m + n[0..] == m + n
  {
  }

  lemma JoinEnd(r: seq<Mbuf>, n: seq<Mbuf>)
    ensures n[|n|..] == [] && r + n[|n|..] == r && Bytes(n[|n|..]) == [] && Bytes(r) + [] == Bytes(r)
  {
  }

  /** One round of m_cat: joining the chains, or copying one mbuf and freeing it. */
  lemma JoinFacts(r: seq<Mbuf>, n: seq<Mbuf>, i: nat, refs: seq<int>)
    requires r != [] && i < |n| && AllFit(r) && AllFit(n) && Known(n, refs)
    ensures AllFit(r + n[i..]) && Bytes(r + n[i..]) == Bytes(r) + Bytes(n[i..])
    ensures n[i].ext.Some? ==> n[i].ext.value.id < |refs|
    ensures var x := r[|r| - 1];
            var r' := r[..|r| - 1] + [x.(data := x.data + n[i].data)];
            Bytes(r') + Bytes(n[i + 1..]) == Bytes(r) + Bytes(n[i..]) &&
            (x.ext.None? && x.start + |x.data| + |n[i].data| < MLEN ==> AllFit(r')) &&
            forall k :: Uses(r' + n[i + 1..], k) == Uses(r + n[i..], k) - UsesOne(n[i], k)
  {
    hide Bytes, Uses, UsesOne;
    var x, q := r[|r| - 1], r[..|r| - 1];
    var y := x.(data := x.data + n[i].data);
    var r' := q + [y];
    BytesConcat(r, n[i..]);
    After(n, i);
    assert r == q + [x];
    BytesSnoc(q, x);
    BytesSnoc(q, y);
    JoinBytes(Bytes(q), x.data, n[i].data, Bytes(n[i + 1..]));
    forall k
      ensures Uses(r' + n[i + 1..], k) == Uses(r + n[i..], k) - UsesOne(n[i], k)
    {
      UsesConcat(r, n[i..], k);
      UsesConcat(r', n[i + 1..], k);
      UsesAfter(n, i);
      SameUses(x, y, k);
    }
  }

  lemma SameUses(x: Mbuf, y: Mbuf, k: nat)
    requires x.ext == y.ext
    ensures UsesOne(x, k) == UsesOne(y, k)
  {
  }

  lemma JoinBytes(a: seq<Byte>, b: seq<Byte>, c: seq<Byte>, d: seq<Byte>)
    ensures a + (b + c) + d == a + b + (c + d)
  {
  }

  // ---------- trimming ----------

  /** The same mbufs, except for their data; pointers into clusters still point to the bytes that are
      left. */
  ghost predicate SameShape(a: seq<Mbuf>, b: seq<Mbuf>) {
    |a| == |b| && (forall i :: 0 <= i < |a| ==> a[i].ext == b[i].ext && a[i].typ == b[i].typ && a[i].eor == b[i].eor) &&
    (forall i :: 0 < i < |a| ==> a[i].hdr == b[i].hdr) && forall i :: 0 <= i < |a| ==> Window(a[i], b[i])
  }

  lemma ShapeSelf(a: seq<Mbuf>)
    ensures SameShape(a, a)
  {
  }

  lemma ShapeThrough(a: seq<Mbuf>, b: seq<Mbuf>, c: seq<Mbuf>)
    requires SameShape(a, b) && SameShape(b, c)
    ensures SameShape(a, c)
  {
    hide Window;
    forall i | 0 <= i < |a|
      ensures Window(a[i], c[i])
    {
      WindowThrough(a[i], b[i], c[i]);
    }
  }

  /** One mbuf keeps n bytes from off on. */
  lemma ShapeCut(a: seq<Mbuf>, b: seq<Mbuf>, i: nat, off: nat, n: nat)
    requires SameShape(a, b) && i < |b| && off + n <= |b[i].data| && AllFit(b)
    ensures var c := b[i := b[i].(data := b[i].data[off..off + n], start := b[i].start + off)];
            SameShape(a, c) && AllFit(c) && c[0].hdr == b[0].hdr
  {
    var y := b[i].(data := b[i].data[off..off + n], start := b[i].start + off);
    assert Fits(b[i]) && Window(b[i], y);
    hide Window;
    WindowThrough(a[i], b[i], y);
  }

  /** m_adj with a length that is not negative: trim from the head. */
  method AdjHead(mp: seq<Mbuf>, req: nat) returns (r: seq<Mbuf>)
    requires mp != [] && AllFit(mp)
    ensures AllFit(r) && |r| == |mp| && SameShape(mp, r)
    ensures var cut := MinInt(req, |Bytes(mp)|);
            Bytes(r) == Bytes(mp)[cut..] &&
            r[0].hdr == if mp[0].hdr.Some? then Some(mp[0].hdr.value - cut) else None
  {
    hide Bytes, SameShape, AllFit;
    r := mp;
    ShapeSelf(mp);
    var i, len := 0, req;
    Start(mp);
    Start(r);
    while i < |r| && len > 0
      invariant i <= |r| == |mp| && 0 <= len <= req && r[i..] == mp[i..] && AllFit(r) && SameShape(mp, r)
      invariant r[0].hdr == mp[0].hdr
      invariant req - len == |Bytes(mp[..i])| && Bytes(r[..i]) == []
    {
      Before(mp, i);
      var x := r[i];
      if |x.data| <= len {
        len := len - |x.data|;
        ShapeCut(mp, r, i, 0, 0);
        r := r[i := x.(data := [])];
        Before(r, i);
        i := i + 1;
      } else {
        HeadCut(mp, r, i, len);
        ShapeCut(mp, r, i, len, |x.data| - len);
        assert x.data[len..len + (|x.data| - len)] == x.data[len..];
        r := r[i := x.(data := x.data[len..], start := x.start + len)];
        len := 0;
        r := LessHeader(mp, r, req);
        return;
      }
    }
    HeadDone(mp, r, i);
    r := LessHeader(mp, r, req - len);
  }

  /** The packet length, if there is one, is n less. */
  method LessHeader(ghost mp: seq<Mbuf>, c: seq<Mbuf>, n: nat) returns (r: seq<Mbuf>)
    requires c != [] && AllFit(c) && SameShape(mp, c)
    ensures SameShape(mp, r) && |r| == |c| && AllFit(r) && Bytes(r) == Bytes(c)
    ensures r[0].hdr == if c[0].hdr.Some? then Some(c[0].hdr.value - n) else None
  {
    hide Bytes, SameShape, AllFit;
    r := c;
    if c[0].hdr.Some? {
      r := SetHeader(c, c[0].hdr.value - n);
      ShapeThrough(mp, c, r);
    }
  }

  lemma SetShape(c: seq<Mbuf>, len: int)
    requires c != [] && AllFit(c) && c[0].hdr.Some?
    ensures var r := [c[0].(hdr := Some(len))] + c[1..];
            SameShape(c, r) && AllFit(r)
  {
    hide Window;
    forall i | 0 <= i < |c| ensures Window(c[i], c[i]) { WindowSelf(c[i], None); }
    WindowSelf(c[0], Some(len));
  }

  method SetHeader(c: seq<Mbuf>, len: int) returns (r: seq<Mbuf>)
    requires c != [] && AllFit(c) && c[0].hdr.Some?
    ensures SameShape(c, r) && |r| == |c| && AllFit(r) && Bytes(r) == Bytes(c) && r[0].hdr == Some(len)
  {
    SetShape(c, len);
    hide SameShape, AllFit;
    r := [c[0].(hdr := Some(len))] + c[1..];
    BytesCons(c[0].(hdr := Some(len)), c[1..]);
    assert c == [c[0]] + c[1..];
    BytesCons(c[0], c[1..]);
  }

  lemma HeadDone(mp: seq<Mbuf>, r: seq<Mbuf>, i: nat)
    requires i <= |r| == |mp| && r[i..] == mp[i..] && Bytes(r[..i]) == []
    ensures |Bytes(mp[..i])| <= |Bytes(mp)| && Bytes(r) == Bytes(mp)[|Bytes(mp[..i])|..]
    ensures i == |mp| ==> mp[..i] == mp
  {
    hide Bytes;
    SplitAt(mp, i);
    SplitAt(r, i);
  }

  lemma HeadCut(mp: seq<Mbuf>, r: seq<Mbuf>, i: nat, len: nat)
    requires i < |r| == |mp| && r[i..] == mp[i..] && Bytes(r[..i]) == [] && len < |mp[i].data|
    ensures var x := r[i];
            var cut := |Bytes(mp[..i])| + len;
            cut <= |Bytes(mp)| && Bytes(r[i := x.(data := x.data[len..], start := x.start + len)]) == Bytes(mp)[cut..]
  {
    hide Bytes;
    var x := r[i];
    var y := x.(data := x.data[len..], start := x.start + len);
    var r' := r[i := y];
    assert r[i] == r[i..][0] == mp[i];
    assert r'[..i] == r[..i] && r'[i + 1..] == r[i..][1..] == mp[i..][1..] == mp[i + 1..];
    Upto(mp, i);
    Upto(r', i);
  }

  lemma ReferencedNone(refs: seq<int>)
    ensures Referenced(refs, refs, [])
  {
  }

  lemma GivenBack(refs: seq<int>, refs': seq<int>, c: seq<Mbuf>)
    requires exists mid: seq<int> :: Referenced(refs, mid, c) && Referenced(refs', mid, c)
    ensures refs == refs'
  {
  }

  lemma Consecutive(s: seq<Byte>, i: nat, j: nat, k: nat)
    requires i <= j <= k <= |s|
    ensures s[i..j] + s[j..k] == s[i..k]
  {
  }

  /** The header h is for the first mbuf of the copy: hdr is what is still to be put there. */
  ghost predicate HeaderOk(m0: Mbuf, h: Option<int>, hdr: Option<int>, c: seq<Mbuf>) {
    if c == [] then hdr == h
    else hdr.None? && c[0].hdr == h && (h.Some? ==> c[0].eor == m0.eor) && forall k :: 0 < k < |c| ==> c[k].hdr.None?
  }

  lemma HeaderNext(m0: Mbuf, h: Option<int>, hdr: Option<int>, c: seq<Mbuf>, n: Mbuf)
    requires HeaderOk(m0, h, hdr, c) && n.hdr == hdr && (hdr.Some? ==> n.eor == m0.eor)
    ensures HeaderOk(m0, h, None, c + [n])
  {
  }

  lemma HeaderNone(m0: Mbuf, h: Option<int>)
    ensures HeaderOk(m0, h, h, [])
  {
  }

  lemma HeaderEnd(m0: Mbuf, h: Option<int>, hdr: Option<int>, c: seq<Mbuf>)
    requires HeaderOk(m0, h, hdr, c)
    ensures c != [] ==> c[0].hdr == h && (h.Some? ==> c[0].eor == m0.eor) && forall k :: 0 < k < |c| ==> c[k].hdr.None?
  {
  }

  lemma HeaderAt(m0: Mbuf, off0: int, len0: int)
    ensures CopyHeader(m0, off0, len0).Some? <==> off0 == 0 && m0.hdr.Some?
  {
  }

  lemma MirrorsNone(m: seq<Mbuf>, j: nat, refs: seq<int>)
    ensures Mirrors(m, j, []) && Known([], refs)
  {
  }

  lemma MirrorsNext(m: seq<Mbuf>, j: nat, c: seq<Mbuf>, n: Mbuf)
    requires Mirrors(m, j, c) && j + |c| < |m| && n.typ == m[j + |c|].typ && n.ext == m[j + |c|].ext
    requires Window(m[j + |c|], n)
    ensures Mirrors(m, j, c + [n])
  {
  }

  /** The packet length of a copy from the start of a packet. */
  lemma CopiedLength(m: seq<Mbuf>, len0: nat, c: seq<Mbuf>)
    requires m != [] && c != [] && m[0].hdr == Some(|Bytes(m)|) && c[0].hdr == CopyHeader(m[0], 0, len0)
    requires (if Everything(m, 0, len0) then |Bytes(m)| else len0) <= |Bytes(m)|
    requires Bytes(c) == Bytes(m)[0..if Everything(m, 0, len0) then |Bytes(m)| else len0]
    ensures c[0].hdr == Some(|Bytes(c)|) <==> !(len0 > COPYALL && Everything(m, 0, len0) && len0 != |Bytes(m)|)
  {
    hide Bytes;
  }

  lemma CopyDone(m: seq<Mbuf>, off0: nat, len0: nat, hdr: Option<int>, c: seq<Mbuf>)
    requires m != [] && HeaderOk(m[0], CopyHeader(m[0], off0, len0), hdr, c)
    requires off0 <= (if Everything(m, off0, len0) then |Bytes(m)| else off0 + len0) <= |Bytes(m)|
    requires Bytes(c) == Bytes(m)[off0..if Everything(m, off0, len0) then |Bytes(m)| else off0 + len0]
    ensures off0 > 0 || m[0].hdr.None? ==> forall k :: 0 <= k < |c| ==> c[k].hdr.None?
    ensures off0 == 0 && c != [] && m[0].hdr == Some(|Bytes(m)|) ==>
              c[0].eor == m[0].eor && (forall k :: 0 < k < |c| ==> c[k].hdr.None?) &&
              (c[0].hdr == Some(|Bytes(c)|) <==>
               !(len0 > COPYALL && Everything(m, off0, len0) && len0 != |Bytes(m)|))
  {
    hide Bytes, Everything;
    HeaderAt(m[0], off0, len0);
    HeaderEnd(m[0], CopyHeader(m[0], off0, len0), hdr, c);
    if off0 == 0 && c != [] && m[0].hdr == Some(|Bytes(m)|) { CopiedLength(m, len0, c); }
  }

  lemma AskedAll(m: seq<Mbuf>, off0: int)
    ensures Everything(m, off0, COPYALL) && !Everything(m, off0, 0)
  {
  }

  /** One round of m_copym: whether the length has come down to M_COPYALL; done counts the bytes
      copied with this round. */
  lemma CopyMode(m: seq<Mbuf>, off0: int, len0: int, i: nat, len: int, count: int, done: nat)
    requires i < |m| && len != COPYALL && 0 <= count <= len && NotYet(m, off0, len0, i) && len - count + done == len0
    requires |Bytes(m[..i + 1])| >= off0 + done && (count < len ==> |Bytes(m[..i + 1])| == off0 + done)
    requires len > COPYALL ==> count < len
    ensures if len - count == COPYALL then Everything(m, off0, len0) else NotYet(m, off0, len0, i + 1)
  {
    hide Bytes;
  }

  /** One round of m_copym: what the copy gains. */
  lemma CopyStep(m: seq<Mbuf>, i: nat, off: nat, count: nat, hdr: Option<int>, top: seq<Mbuf>)
    requires i < |m| && AllFit(m) && off + count <= |m[i].data| && (hdr.Some? ==> m[i].hdr.Some?) && AllFit(top)
    ensures var n, p := CopyOne(m[i], off, count, hdr), |Bytes(m[..i])|;
            n.hdr == hdr && n.ext == m[i].ext && n.typ == m[i].typ && (hdr.Some? ==> n.eor == m[i].eor) &&
            AllFit(top + [n]) && p + off + count <= |Bytes(m)| &&
              |Bytes(m[..i + 1])| == p + |m[i].data| &&
            Bytes(top + [n]) == Bytes(top) + Bytes(m)[p + off..p + off + count] &&
            (forall k :: Uses(top + [n], k) == Uses(top, k) + UsesOne(n, k))
  {
    hide Bytes, Uses, UsesOne;
    var n := CopyOne(m[i], off, count, hdr);
    Upto(m, i);
    TakeFrom(m, i, off, count);
    CopyFits(m, i, off, count, hdr);
    BytesSnoc(top, n);
    AllFitSnoc(top, n);
  }

  lemma CopyFits(m: seq<Mbuf>, i: nat, off: nat, count: nat, hdr: Option<int>)
    requires i < |m| && AllFit(m) && off + count <= |m[i].data| && (hdr.Some? ==> m[i].hdr.Some?)
    ensures Fits(CopyOne(m[i], off, count, hdr))
  {
  }

  lemma AllFitSnoc(c: seq<Mbuf>, x: Mbuf)
    requires AllFit(c) && Fits(x)
    ensures AllFit(c + [x])
  {
  }

  lemma NoUses()
    ensures Bytes([]) == [] && AllFit([]) && forall k :: Uses([], k) == 0
  {
  }

  lemma UsesAfter(c: seq<Mbuf>, i: nat)
    requires i < |c|
    ensures forall k :: Uses(c[i..], k) == UsesOne(c[i], k) + Uses(c[i + 1..], k)
  {
    assert c[i..][1..] == c[i + 1..];
  }

  /** m_adj with a negative length: trim from the tail. */
  method AdjTail(mp: seq<Mbuf>, len: nat) returns (r: seq<Mbuf>)
    requires mp != [] && AllFit(mp)
    ensures AllFit(r) && |r| == |mp| && SameShape(mp, r)
    ensures var keep := if len <= |Bytes(mp)| then |Bytes(mp)| - len else 0;
            Bytes(r) == Bytes(mp)[..keep] &&
            r[0].hdr == if mp[0].hdr.None? then None
                        else if |mp[|mp| - 1].data| >= len then Some(mp[0].hdr.value - len)
                        else Some(keep)
  {
    hide Bytes, SameShape, AllFit;
    var count := Length(mp);
    var l := |mp| - 1;
    Before(mp, l);
    assert mp[..l + 1] == mp;
    if |mp[l].data| >= len {
      TailCut(mp, l, |mp[l].data| - len);
      r := Truncate(mp, l, |mp[l].data| - len);
      r := LessHeader(mp, r, len);
      return;
    }
    count := if len <= count then count - len else 0;
    var keep := count;
    var i := 0;
    Start(mp);
    while |mp[i].data| < count
      invariant i < |mp| && count + |Bytes(mp[..i])| == keep && 0 <= count <= |Bytes(mp[i..])|
      decreases |mp| - i
    {
      Upto(mp, i);
      count := count - |mp[i].data|;
      i := i + 1;
      NotAtEnd(mp, i);
    }
    TailCut(mp, i, count);
    r := Truncate(mp, i, count);
    if r[0].hdr.Some? {
      ghost var q := r;
      r := SetHeader(r, keep);
      ShapeThrough(mp, q, r);
    }
  }

  method Length(m: seq<Mbuf>) returns (n: nat)
    ensures n == |Bytes(m)|
  {
    hide Bytes;
    n := 0;
    Start(m);
    for i := 0 to |m|
      invariant n == |Bytes(m[..i])|
    {
      Before(m, i);
      n := n + |m[i].data|;
    }
    assert m[..|m|] == m;
  }

  lemma NotAtEnd(m: seq<Mbuf>, i: nat)
    requires i <= |m|
    ensures Bytes(m[i..]) != [] ==> i < |m|
  {
  }

  /** Cut mbuf i down to n bytes and empty all that follow. */
  method Truncate(mp: seq<Mbuf>, i: nat, n: nat) returns (r: seq<Mbuf>)
    requires i < |mp| && n <= |mp[i].data| && AllFit(mp)
    ensures AllFit(r) && |r| == |mp| && SameShape(mp, r) && r[0].hdr == mp[0].hdr
    ensures Bytes(r) == Bytes(mp[..i]) + mp[i].data[..n]
  {
    hide Bytes, SameShape, AllFit;
    ShapeSelf(mp);
    ShapeCut(mp, mp, i, 0, n);
    r := mp[i := mp[i].(data := mp[i].data[..n])];
    assert r[..i] == mp[..i];
    Before(r, i);
    for j := i + 1 to |mp|
      invariant |r| == |mp| && AllFit(r) && SameShape(mp, r) && r[0].hdr == mp[0].hdr
      invariant Bytes(r[..j]) == Bytes(mp[..i]) + mp[i].data[..n]
    {
      ghost var q := r[..j];
      ShapeCut(mp, r, j, 0, 0);
      r := r[j := r[j].(data := [])];
      assert r[..j] == q;
      Before(r, j);
    }
    assert r[..|r|] == r;
  }

  lemma TailCut(mp: seq<Mbuf>, i: nat, n: nat)
    requires i < |mp| && n <= |mp[i].data|
    ensures |Bytes(mp[..i])| + n <= |Bytes(mp)| && Bytes(mp)[..|Bytes(mp[..i])| + n] == Bytes(mp[..i]) + mp[i].data[..n]
  {
    hide Bytes;
    Upto(mp, i);
  }

  // ---------- two packets that m_split does not handle ----------

  function Zeros(n: nat): (r: seq<Byte>)
    ensures |r| == n
  {
    seq(n, _ => 0)
  }

  /** A packet of a header mbuf and one full mbuf without cluster. */
  function Packet(): (m: seq<Mbuf>)
    ensures |m| == 2 && AllFit(m)
  {
    [Mbuf([1], MLEN - MHLEN, 1, false, None, Some(1 + MLEN)), Mbuf(Zeros(MLEN), 0, 1, false, None, None)]
  }

  lemma PacketCut()
    ensures SplitIndex(Packet(), 2) == 1 && Remain(Packet(), 2) == MLEN - 1 && UnsetLength(Packet(), 2)
  {
    var c := Packet();
    assert c[1..][1..] == [];
    assert SplitIndex(c[1..], 1) == 0;
    assert c[..1] == [c[0]];
    Only(c[0]);
  }

  /** Cut after two bytes, the packet comes back with a byte in between that it never had. */
  method SplitPutsJunk() returns (m0: seq<Mbuf>, len0: nat, front: seq<Mbuf>, tail: seq<Mbuf>)
    ensures m0 == Packet() && len0 == 2 && UnsetLength(m0, len0) && SplitOk(m0, len0, front, Some(tail), [7])
    ensures AllFit(m0) && Bytes(front) == Bytes(m0)[..MinInt(len0, |Bytes(m0)|)] && Bytes(front + tail) != Bytes(m0)
  {
    hide Bytes, AllFit, SplitIndex, Remain;
    var pool := new Pool;
    pool.refs, pool.free := [], 2;
    m0, len0 := Packet(), 2;
    PacketCut();
    hide UnsetLength;
    var t;
    front, t := pool.Split(m0, len0, [7]);
    tail := t.value;
    SplitThenJoin(m0, len0, front, tail, [7]);
  }

  /** With one mbuf free it is not split, but its header says two bytes. */
  method SplitLosesLength() returns (m0: seq<Mbuf>, front: seq<Mbuf>)
    ensures m0 == Packet() && NotSplit(m0, 2, 1) && SplitOk(m0, 2, front, None, [])
    ensures front != [] && front[0].hdr == HeaderAfter(m0, 2, 1) && m0[0].hdr == Some(1 + MLEN) &&
            front[0].hdr == Some(2)
    ensures Bytes(front) == Bytes(m0)
  {
    hide Bytes, AllFit, SplitIndex, Remain;
    var pool := new Pool;
    pool.refs, pool.free := [], 1;
    m0 := Packet();
    PacketCut();
    hide UnsetLength;
    var t;
    front, t := pool.Split(m0, 2, []);
  }
}
