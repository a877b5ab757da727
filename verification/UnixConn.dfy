/** Connections between Unix-domain control blocks: unp_connect2, unp_disconnect, unp_drop and
    unp_detach. */
module UnixConn {
  import opened Common

  /** A control block: unp_conn, and the list unp_refs of datagram blocks connected to it. */
  datatype Pcb = Pcb(live: bool, stream: bool, conn: Option<nat>, refs: seq<nat>)

  /** x's own links: a stream's peer points back; a datagram block's list holds exactly the blocks
      connected to it, each once. */
  ghost predicate PcbOk(p: seq<Pcb>, x: nat)
    requires x < |p|
  {
    (!p[x].live ==> p[x].conn.None? && p[x].refs == []) &&
    (p[x].conn.Some? ==>
       p[x].conn.value < |p| && p[p[x].conn.value].live && p[p[x].conn.value].stream == p[x].stream) &&
    (p[x].stream ==>
      p[x].refs == [] &&
      (p[x].conn.Some? ==> p[x].conn.value != x && p[p[x].conn.value].conn == Some(x))) &&
    NoDup(p[x].refs) &&
    forall z: nat :: z in p[x].refs <==> z < |p| && !p[z].stream && p[z].conn == Some(x)
  }

  ghost predicate Inv(p: seq<Pcb>) { forall x :: 0 <= x < |p| ==> PcbOk(p, x) }

  /** The place of x in a list, or the length of the list. */
  method Search(c: seq<nat>, x: nat) returns (i: nat)
    ensures i <= |c| && (i < |c| ==> c[i] == x) && (i == |c| ==> x !in c)
  {
    i := 0;
    while i < |c|
      invariant i <= |c| && x !in c[..i]
    {
      if c[i] == x { return; }
      i := i + 1;
    }
  }

  ghost predicate Cut(c: seq<nat>, c': seq<nat>, x: nat) {
    NoDup(c') && |c'| + 1 == |c| && forall z: nat :: z in c' <==> z in c && z != x
  }

  lemma CutAt(c: seq<nat>, i: nat)
    requires NoDup(c) && i < |c|
    ensures Cut(c, c[..i] + c[i + 1..], c[i])
  {
    var d := c[..i] + c[i + 1..];
    forall z: nat
      ensures z in d <==> z in c && z != c[i]
    {
      if z in c && z != c[i] {
        var j :| 0 <= j < |c| && c[j] == z;
        if j < i { assert d[j] == z; } else { assert d[j - 1] == z; }
      }
      if z in d {
        var j :| 0 <= j < |d| && d[j] == z;
        assert z == if j < i then c[j] else c[j + 1];
      }
    }
  }

  /** Linking two blocks keeps all links right. */
  lemma Links(p: seq<Pcb>, x: nat, y: nat)
    requires Inv(p) && x < |p| && y < |p| && p[x].live && p[y].live && p[x].conn.None? && p[x].stream == p[y].stream
    requires p[y].stream ==> p[y].conn.None? && x != y
    ensures var q := p[x := p[x].(conn := Some(y))];
            Inv(if p[x].stream then q[y := q[y].(conn := Some(x))] else q[y := q[y].(refs := [x] + q[y].refs)])
  {
    var q := p[x := p[x].(conn := Some(y))];
    var r := if p[x].stream then q[y := q[y].(conn := Some(x))] else q[y := q[y].(refs := [x] + q[y].refs)];
    assert PcbOk(p, x) && PcbOk(p, y);
    forall z | 0 <= z < |r|
      ensures PcbOk(r, z)
    {
      assert PcbOk(p, z);
    }
  }

  /** So does unlinking. */
  lemma Unlinks(p: seq<Pcb>, x: nat)
    requires Inv(p) && x < |p| && p[x].conn.Some?
    ensures p[x].conn.value < |p|
    ensures var q := p[x := p[x].(conn := None)];
            var y := p[x].conn.value;
            if p[x].stream then Inv(q[y := q[y].(conn := None)])
            else forall c :: Cut(p[y].refs, c, x) ==> Inv(q[y := q[y].(refs := c)])
  {
    assert PcbOk(p, x);
    var y := p[x].conn.value;
    assert PcbOk(p, y);
    var q := p[x := p[x].(conn := None)];
    if p[x].stream {
      var r := q[y := q[y].(conn := None)];
      forall z | 0 <= z < |r|
        ensures PcbOk(r, z)
      {
        assert PcbOk(p, z);
      }
    } else {
      forall c | Cut(p[y].refs, c, x)
        ensures Inv(q[y := q[y].(refs := c)])
      {
        UnlinksDgram(p, x, c);
      }
    }
  }

  lemma UnlinksDgram(p: seq<Pcb>, x: nat, c: seq<nat>)
    requires Inv(p) && x < |p| && p[x].conn.Some? && !p[x].stream && p[x].conn.value < |p| &&
             Cut(p[p[x].conn.value].refs, c, x)
    ensures var q := p[x := p[x].(conn := None)];
            var y := p[x].conn.value;
            Inv(q[y := q[y].(refs := c)])
  {
    assert PcbOk(p, x);
    var y := p[x].conn.value;
    assert PcbOk(p, y);
    var q := p[x := p[x].(conn := None)];
    var r := q[y := q[y].(refs := c)];
    forall z | 0 <= z < |r|
      ensures PcbOk(r, z)
    {
      assert PcbOk(p, z);
    }
  }

  class Graph {
    var pcbs: seq<Pcb>

    /** unp_connect2 between blocks of the same type; the callers see to it that x is not connected,
        nor y if it is a stream. */
    method Connect2(x: nat, y: nat) returns (ok: bool)
      requires Inv(pcbs) && x < |pcbs| && y < |pcbs| && pcbs[x].live && pcbs[y].live && pcbs[x].conn.None?
      requires pcbs[y].stream ==> pcbs[y].conn.None? && x != y
      modifies this
      ensures Inv(pcbs) && |pcbs| == |old(pcbs)| && (ok <==> old(pcbs)[x].stream == old(pcbs)[y].stream)
      ensures ok ==> pcbs[x].conn == Some(y) && forall z :: 0 <= z < |pcbs| && z != x && z != y ==>
              pcbs[z] == old(pcbs)[z]
      ensures ok && !pcbs[x].stream ==> pcbs[y].refs == [x] + old(pcbs)[y].refs
      ensures forall z :: 0 <= z < |pcbs| ==> pcbs[z].live == old(pcbs)[z].live && pcbs[z].stream == old(pcbs)[z].stream
      ensures !ok ==> pcbs == old(pcbs)
    {
      if pcbs[y].stream != pcbs[x].stream { return false; }
      Links(pcbs, x, y);
      pcbs := pcbs[x := pcbs[x].(conn := Some(y))];
      if pcbs[x].stream {
        pcbs := pcbs[y := pcbs[y].(conn := Some(x))];
      } else {
        pcbs := pcbs[y := pcbs[y].(refs := [x] + pcbs[y].refs)];
      }
      return true;
    }

    /** unp_disconnect: x's link is gone on both sides and no other link changes; its panic is
        never reached. */
    method Disconnect(x: nat) returns (panic: bool)
      requires Inv(pcbs) && x < |pcbs|
      modifies this
      ensures !panic && Inv(pcbs) && |pcbs| == |old(pcbs)| && pcbs[x].conn.None? && pcbs[x].live == old(pcbs)[x].live
      ensures forall z :: 0 <= z < |pcbs| ==>
                pcbs[z].live == old(pcbs)[z].live && pcbs[z].stream == old(pcbs)[z].stream &&
                  |pcbs[z].refs| <= |old(pcbs)[z].refs|
      ensures forall z :: 0 <= z < |pcbs| && z != x ==>
              pcbs[z].conn == if old(pcbs)[z].stream && old(pcbs)[z].conn == Some(x) then None else old(pcbs)[z].conn
      ensures forall z :: 0 <= z < |pcbs| && !old(pcbs)[x].stream && old(pcbs)[x].conn == Some(z) ==>
              |pcbs[z].refs| < |old(pcbs)[z].refs|
    {
      panic := false;
      assert PcbOk(pcbs, x);
      Mutual(pcbs, x);
      if pcbs[x].conn.None? { return; }
      var y := pcbs[x].conn.value;
      assert PcbOk(pcbs, y);
      Unlinks(pcbs, x);
      pcbs := pcbs[x := pcbs[x].(conn := None)];
      if pcbs[x].stream {
        pcbs := pcbs[y := pcbs[y].(conn := None)];
      } else {
        var i := Search(pcbs[y].refs, x);
        if i == |pcbs[y].refs| { return true; }
        CutAt(pcbs[y].refs, i);
        pcbs := pcbs[y := pcbs[y].(refs := pcbs[y].refs[..i] + pcbs[y].refs[i + 1..])];
      }
    }
  
    /** unp_drop: a block that is still on its listener's queue is freed with its link. */
    method Drop(x: nat, queued: bool) returns (panic: bool)
      requires Inv(pcbs) && x < |pcbs| && (queued ==> pcbs[x].stream)
      modifies this
      ensures !panic && Inv(pcbs) && |pcbs| == |old(pcbs)| && pcbs[x].conn.None? &&
              pcbs[x].live == (old(pcbs)[x].live && !queued)
      ensures forall z :: 0 <= z < |pcbs| ==>
              pcbs[z].stream == old(pcbs)[z].stream && |pcbs[z].refs| <= |old(pcbs)[z].refs|
      ensures forall z :: 0 <= z < |pcbs| && z != x ==> pcbs[z].live == old(pcbs)[z].live
      ensures forall z :: 0 <= z < |pcbs| && z != x ==>
              pcbs[z].conn == if old(pcbs)[z].stream && old(pcbs)[z].conn == Some(x) then None else old(pcbs)[z].conn
      ensures forall z :: 0 <= z < |pcbs| && !old(pcbs)[x].stream && old(pcbs)[x].conn == Some(z) ==>
              |pcbs[z].refs| < |old(pcbs)[z].refs|
    {
      panic := Disconnect(x);
      if queued {
        Unlinked(pcbs, x);
        pcbs := pcbs[x := pcbs[x].(live := false)];
      }
    }

    /** unp_detach: x loses its own link and every link to it, and no other block changes its
        link; the loop over unp_refs ends. */
    method Detach(x: nat) returns (panic: bool)
      requires Inv(pcbs) && x < |pcbs| && pcbs[x].live
      modifies this
      ensures !panic && Inv(pcbs) && |pcbs| == |old(pcbs)| && !pcbs[x].live
      ensures forall z :: 0 <= z < |pcbs| && z != x ==>
                pcbs[z].live == old(pcbs)[z].live &&
                  pcbs[z].conn == if old(pcbs)[z].conn == Some(x) then None else old(pcbs)[z].conn
    {
      panic := false;
      ghost var p := pcbs;
      assert PcbOk(p, x);
      if pcbs[x].conn.Some? {
        panic := Disconnect(x);
      }
      assert PcbOk(pcbs, x);
      while pcbs[x].refs != []
        invariant |pcbs| == |p| && Inv(pcbs) && pcbs[x].live && pcbs[x].conn.None? && !panic
        invariant forall z :: 0 <= z < |p| ==> pcbs[z].live == p[z].live && pcbs[z].stream == p[z].stream
        invariant forall z :: 0 <= z < |p| && z != x ==>
                  pcbs[z].conn == p[z].conn || (pcbs[z].conn.None? && p[z].conn == Some(x))
        decreases |pcbs[x].refs|
      {
        var z := pcbs[x].refs[0];
        assert PcbOk(pcbs, x) && z in pcbs[x].refs;
        SameKind(pcbs, z);
        panic := Drop(z, false);
      }
      Unreferenced(pcbs, x);
      Unlinked(pcbs, x);
      pcbs := pcbs[x := pcbs[x].(live := false)];
    }
  }

  /** A stream connected to x is the one x is connected to. */
  lemma Mutual(p: seq<Pcb>, x: nat)
    requires Inv(p) && x < |p|
    ensures forall z :: 0 <= z < |p| && p[z].stream && p[z].conn == Some(x) ==>
            z != x && p[x].stream && p[x].conn == Some(z)
  {
    forall z | 0 <= z < |p| && p[z].stream && p[z].conn == Some(x)
      ensures z != x && p[x].stream && p[x].conn == Some(z)
    {
      assert PcbOk(p, z);
    }
  }

  lemma SameKind(p: seq<Pcb>, x: nat)
    requires Inv(p) && x < |p| && !p[x].stream
    ensures forall z :: 0 <= z < |p| && p[z].stream ==> p[z].conn != Some(x)
  {
    Mutual(p, x);
  }

  /** With an empty list, no datagram block is connected to x; a stream without link has no peer. */
  lemma Unreferenced(p: seq<Pcb>, x: nat)
    requires Inv(p) && x < |p| && p[x].refs == [] && p[x].conn.None?
    ensures forall z :: 0 <= z < |p| ==> p[z].conn != Some(x)
  {
    assert PcbOk(p, x);
    forall z | 0 <= z < |p|
      ensures p[z].conn != Some(x)
    {
      assert PcbOk(p, z);
    }
  }

  /** A block without links may be freed. */
  lemma Unlinked(p: seq<Pcb>, x: nat)
    requires Inv(p) && x < |p| && p[x].conn.None? && (p[x].stream || p[x].refs == [])
    ensures Inv(p[x := p[x].(live := false)])
  {
    assert PcbOk(p, x);
    Unreferenced(p, x);
    var q := p[x := p[x].(live := false)];
    forall z | 0 <= z < |q|
      ensures PcbOk(q, z)
    {
      assert PcbOk(p, z);
    }
  }
}
