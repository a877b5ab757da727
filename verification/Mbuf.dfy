/** Chains of mbufs and the bytes they stand for. A chain is the list of its mbufs; each mbuf has
    its data, where in its storage the data begin, its type, M_EOR, the external storage it
    shares and, in a packet's first mbuf, the length in the packet header. */
module Mbuf {
  import opened Common

  type Byte = b: int | 0 <= b < 256

  datatype Ext = Ext(id: nat, size: nat)

  datatype Mbuf = Mbuf(data: seq<Byte>, start: nat, typ: nat, eor: bool, ext: Option<Ext>, hdr: Option<int>)

  /** Internal data stay inside the mbuf, behind the packet header if there is one. */
  ghost predicate Fits(m: Mbuf) {
    m.ext.None? ==> m.start + |m.data| <= MLEN && (m.hdr.Some? ==> m.start >= MLEN - MHLEN)
  }

  ghost predicate AllFit(c: seq<Mbuf>) { forall i :: 0 <= i < |c| ==> Fits(c[i]) }

  /** A byte with the type of the mbuf it is in. */
  datatype Cell = Cell(b: Byte, typ: nat)

  function Cells(m: Mbuf): (r: seq<Cell>)
    ensures |r| == |m.data|
  {
    seq(|m.data|, i requires 0 <= i < |m.data| => Cell(m.data[i], m.typ))
  }

  /** What a chain stands for. */
  function Content(c: seq<Mbuf>): seq<Cell> {
    if c == [] then [] else Cells(c[0]) + Content(c[1..])
  }

  /** The storage a chain uses, as socket buffers count it. */
  function Storage(m: Mbuf): nat { MSIZE + if m.ext.Some? then m.ext.value.size else 0 }

  function Space(c: seq<Mbuf>): nat {
    if c == [] then 0 else Storage(c[0]) + Space(c[1..])
  }

  function HasEor(c: seq<Mbuf>): bool { exists i :: 0 <= i < |c| && c[i].eor }

  lemma Assoc<T>(a: seq<T>, b: seq<T>, c: seq<T>)
    ensures a + (b + c) == a + b + c
  {
  }

  lemma {:induction false} Concat(a: seq<Mbuf>, b: seq<Mbuf>)
    ensures Content(a + b) == Content(a) + Content(b) && Space(a + b) == Space(a) + Space(b)
  {
    hide Cells;
    if a == [] {
      assert a + b == b;
    } else {
      Concat(a[1..], b);
      assert (a + b)[1..] == a[1..] + b && (a + b)[0] == a[0];
      Assoc(Cells(a[0]), Content(a[1..]), Content(b));
    }
  }

  /** The count covers the bytes, if external data are no longer than their storage; it is whole mbufs
      where there are none. */
  lemma {:induction false} SpaceCovers(c: seq<Mbuf>)
    requires AllFit(c) && forall i :: 0 <= i < |c| && c[i].ext.Some? ==> |c[i].data| <= c[i].ext.value.size
    ensures |Content(c)| <= Space(c)
    ensures (forall i :: 0 <= i < |c| ==> c[i].ext.None?) ==> Space(c) == MSIZE * |c|
  {
    if c != [] {
      assert Fits(c[0]);
      SpaceCovers(c[1..]);
    }
  }

  lemma One(m: Mbuf)
    ensures Content([m]) == Cells(m) && Space([m]) == Storage(m)
  {
    assert [m][1..] == [];
  }

  lemma Snoc(a: seq<Mbuf>, m: Mbuf)
    ensures Content(a + [m]) == Content(a) + Cells(m) && Space(a + [m]) == Space(a) + Storage(m)
  {
    Concat(a, [m]);
    One(m);
  }

  /** Data of the same type may be joined in one mbuf. */
  lemma Join(m: Mbuf, data: seq<Byte>)
    ensures Cells(m.(data := m.data + data)) == Cells(m) + Cells(m.(data := data))
  {
  }

  /** Cutting a mbuf's data in two. */
  lemma Cut(m: Mbuf, n: nat)
    requires n <= |m.data|
    ensures Cells(m) == Cells(m.(data := m.data[..n])) + Cells(m.(data := m.data[n..]))
  {
  }

  lemma SameCells(m: Mbuf, n: Mbuf)
    requires m.data == n.data && m.typ == n.typ
    ensures Cells(m) == Cells(n)
  {
  }
}
