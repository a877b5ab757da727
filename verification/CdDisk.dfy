/** The concatenated disk driver: the interleave table, the translation of a request into
    component requests, and their completions. */
module CdDisk {
  import opened CdMap

  const BLOCK := 512

  /** struct cdiinfo. */
  datatype Entry = Entry(ndisk: nat, startblk: nat, startoff: nat, index: seq<nat>)

  // ---------- the components ----------

  /** A component's usable size: whole interleave units, nothing if the driver reports an error. */
  function Usable(psize: int, ileave: nat): nat {
    if psize < 0 then 0 else if ileave > 1 then psize - psize % ileave else psize
  }

  /** It is the largest multiple of the interleave that the component has room for. */
  lemma UsableLargest(psize: int, ileave: nat)
    ensures var m, r := if ileave > 1 then ileave else 1, Usable(psize, ileave);
            (psize < 0 ==> r == 0) && (psize >= 0 ==> r % m == 0 && r <= psize < r + m)
  {
    if psize >= 0 && ileave > 1 { WholeUnits(psize, ileave); }
  }

  /** The loop of cdinit over the configured devices; it fails when a component is missing. */
  method Measure(psizes: seq<int>, ileave: nat) returns (ok: bool, sizes: seq<nat>, size: nat, minsize: nat)
    ensures ok <==> forall c :: 0 <= c < |psizes| ==> Usable(psizes[c], ileave) > 0
    ensures ok ==> |sizes| == |psizes| && size == Sum(sizes) && (psizes != [] ==> minsize in sizes)
    ensures ok ==> forall c :: 0 <= c < |psizes| ==> sizes[c] == Usable(psizes[c], ileave) >= minsize
  {
    hide Usable;
    sizes, size, minsize, ok := [], 0, 0, false;
    ghost var at := 0;
    for ix := 0 to |psizes|
      invariant |sizes| == ix && size == Sum(sizes)
      invariant forall c :: 0 <= c < ix ==> sizes[c] == Usable(psizes[c], ileave) > 0
      invariant if ix == 0 then minsize == 0 else at < ix && minsize == sizes[at]
      invariant forall c :: 0 <= c < ix ==> minsize <= sizes[c]
    {
      var s := Usable(psizes[ix], ileave);
      if s == 0 { return; }
      if minsize == 0 || s < minsize { minsize, at := s, ix; }
      assert (sizes + [s])[..ix] == sizes;
      sizes, size := sizes + [s], size + s;
    }
    ok := true;
  }

  /** The disk cdinit sets up: with CDF_UNIFORM all components count as the smallest one. */
  method Components(psizes: seq<int>, ileave: nat, uniform: bool) returns (ok: bool, d: Disk, size: nat)
    ensures ok <==> forall c :: 0 <= c < |psizes| ==> Usable(psizes[c], ileave) > 0
    ensures ok ==> d.ileave == ileave && |d.sizes| == |psizes| && Aligned(d) && size == Sum(d.sizes)
    ensures ok && !uniform ==> forall c :: 0 <= c < |psizes| ==> d.sizes[c] == Usable(psizes[c], ileave)
    ensures ok && uniform ==> forall c, k :: 0 <= c < |psizes| && 0 <= k < |psizes| ==>
            d.sizes[c] == d.sizes[k] <= Usable(psizes[k], ileave)
    ensures ok && uniform && psizes != [] ==> exists k :: 0 <= k < |psizes| && d.sizes[0] == Usable(psizes[k], ileave)
  {
    hide Usable, Sum;
    var sizes, minsize;
    ok, sizes, size, minsize := Measure(psizes, ileave);
    d := Disk(sizes, ileave);
    if !ok { return; }
    UsableAligned(psizes, d);
    if uniform {
      d := d.(sizes := seq(|sizes|, c => minsize));
      size := |sizes| * minsize;
      SumConstant(d.sizes, minsize);
    }
  }

  lemma UsableAligned(psizes: seq<int>, d: Disk)
    requires |d.sizes| == |psizes| && forall c :: 0 <= c < |psizes| ==> d.sizes[c] == Usable(psizes[c], d.ileave)
    ensures Aligned(d)
  {
    forall c | 0 <= c < |psizes| && d.ileave > 0
      ensures d.sizes[c] % d.ileave == 0
    {
      if psizes[c] >= 0 { WholeUnits(psizes[c], d.ileave); }
    }
  }

  lemma WholeUnits(a: nat, m: nat)
    requires m > 0
    ensures Usable(a, m) % m == 0
  {
    var q, r := a / m, a % m;
    DivModBack(q, m, 0);
    assert a == q * m + r;
  }

  lemma {:induction false} SumConstant(s: seq<nat>, x: nat)
    requires forall c :: 0 <= c < |s| ==> s[c] == x
    ensures Sum(s) == |s| * x
  {
    if s != [] {
      SumConstant(s[..|s| - 1], x);
      assert |s| * x == (|s| - 1) * x + x;
    }
  }

  // ---------- the interleave table ----------

  /** The entry for levels s to t, over which the same components take part. */
  ghost predicate GroupOk(u: seq<nat>, e: Entry, s: nat, t: nat) {
    s < t && e == Entry(|Above(u, s)|, Below(u, s), s, Above(u, s)) && e.ndisk > 0 &&
    forall c :: 0 <= c < |u| ==> u[c] <= s || u[c] >= t
  }

  /** The first entries of the table are the groups between consecutive levels of ls, from 0. */
  ghost predicate Groups(u: seq<nat>, table: seq<Entry>, ls: seq<nat>) {
    0 < |ls| <= |table| && ls[0] == 0 && forall j :: 0 <= j < |ls| - 1 ==> GroupOk(u, table[j], ls[j], ls[j + 1])
  }

  /** A complete table: the groups, up to the level no component reaches, then the end mark. */
  ghost predicate TableOk(u: seq<nat>, table: seq<Entry>, ls: seq<nat>) {
    Groups(u, table, ls) && Above(u, ls[|ls| - 1]) == [] && table[|ls| - 1].ndisk == 0
  }

  /** The table of a serial disk: one entry for each component. */
  ghost predicate SerialOk(sizes: seq<nat>, table: seq<Entry>) {
    |table| == |sizes| + 1 && table[|sizes|].ndisk == 0 &&
    forall c :: 0 <= c < |sizes| ==> table[c] == Entry(1, Sum(sizes[..c]), 0, [c])
  }

  lemma {:induction false} AboveNone(u: seq<nat>, l: nat)
    ensures Above(u, l) == [] <==> forall c :: 0 <= c < |u| ==> u[c] <= l
    ensures |Above(u, l)| <= |u|
  {
    if u != [] {
      AboveNone(u[..|u| - 1], l);
    }
  }

  /** Each group is left by at least one component, so there are no more groups than components. */
  lemma {:induction false} AboveShrinks(u: seq<nat>, s: nat, t: nat, c: nat)
    requires s < t && c <= |u| && (c < |u| ==> u[c] == t)
    ensures |Above(u, t)| <= |Above(u, s)| && (c < |u| ==> |Above(u, t)| < |Above(u, s)|)
  {
    if u != [] {
      AboveShrinks(u[..|u| - 1], s, t, if c < |u| - 1 then c else |u| - 1);
    }
  }

  /** Counting in blocks or in interleave units comes to the same. */
  lemma Scale(sizes: seq<nat>, m: nat, s: nat)
    requires m > 0 && forall c :: 0 <= c < |sizes| ==> sizes[c] % m == 0
    ensures Above(sizes, s * m) == Above(Units(sizes, m), s)
    ensures Below(sizes, s * m) == Below(Units(sizes, m), s) * m
  {
    hide Above, Below;
    forall c | 0 <= c < |sizes|
      ensures (sizes[c] > s * m <==> sizes[c] / m > s) && Min(sizes[c], s * m) == Min(sizes[c] / m, s) * m
    {
      ScaleOne(sizes[c], m, s);
    }
    ScaleAbove(sizes, Units(sizes, m), s * m, s);
    ScaleBelow(sizes, Units(sizes, m), s * m, s, m);
  }

  lemma {:induction false} ScaleAbove(a: seq<nat>, b: seq<nat>, x: nat, y: nat)
    requires |a| == |b| && forall c :: 0 <= c < |a| ==> (a[c] > x <==> b[c] > y)
    ensures Above(a, x) == Above(b, y)
  {
    if a != [] {
      ScaleAbove(a[..|a| - 1], b[..|b| - 1], x, y);
    }
  }

  lemma {:induction false} ScaleBelow(a: seq<nat>, b: seq<nat>, x: nat, y: nat, m: nat)
    requires |a| == |b| && forall c :: 0 <= c < |a| ==> Min(a[c], x) == Min(b[c], y) * m
    ensures Below(a, x) == Below(b, y) * m
  {
    if a != [] {
      ScaleBelow(a[..|a| - 1], b[..|b| - 1], x, y, m);
      Distribute(Below(b[..|b| - 1], y), Min(b[|b| - 1], y), m);
    }
  }

  lemma Distribute(p: nat, q: nat, m: nat)
    ensures (p + q) * m == p * m + q * m
  {
  }

  lemma ScaleOne(a: nat, m: nat, s: nat)
    requires m > 0 && a % m == 0
    ensures (a > s * m <==> a / m > s) && Min(a, s * m) == Min(a / m, s) * m
  {
    var q := a / m;
    assert a == q * m;
    if q > s { MulNext(s, q, m); } else { MulMono(q, s, m); }
  }

  /** The smallest component bigger than size; none if they are all used up. */
  method Smallest(sizes: seq<nat>, size: nat) returns (small: int)
    ensures -1 <= small < |sizes|
    ensures small == -1 ==> forall c :: 0 <= c < |sizes| ==> sizes[c] <= size
    ensures small >= 0 ==> sizes[small] > size && forall c :: 0 <= c < |sizes| ==>
            sizes[c] <= size || sizes[c] >= sizes[small]
  {
    small := -1;
    for c := 0 to |sizes|
      invariant -1 <= small < c
      invariant small == -1 ==> forall k :: 0 <= k < c ==> sizes[k] <= size
      invariant small >= 0 ==> sizes[small] > size && forall k :: 0 <= k < c ==>
                sizes[k] <= size || sizes[k] >= sizes[small]
    {
      if sizes[c] > size && (small == -1 || sizes[c] < sizes[small]) {
        small := c;
      }
    }
  }

  /** The components at least as big as the smallest one left. */
  method Members(sizes: seq<nat>, min: nat) returns (index: seq<nat>)
    requires min > 0
    ensures index == Above(sizes, min - 1)
  {
    index := [];
    for c := 0 to |sizes|
      invariant index == Above(sizes[..c], min - 1)
    {
      assert sizes[..c + 1][..c] == sizes[..c];
      if sizes[c] >= min {
        index := index + [c];
      }
    }
    assert sizes[..|sizes|] == sizes;
  }

  method SerialTable(sizes: seq<nat>, table: array<Entry>)
    requires table.Length == |sizes| + 1
    modifies table
    ensures SerialOk(sizes, table[..])
  {
    var bn := 0;
    for ix := 0 to |sizes|
      invariant bn == Sum(sizes[..ix])
      invariant forall c :: 0 <= c < ix ==> table[c] == Entry(1, Sum(sizes[..c]), 0, [c])
    {
      table[ix] := Entry(1, bn, 0, [ix]);
      assert sizes[..ix + 1][..ix] == sizes[..ix];
      bn := bn + sizes[ix];
    }
    table[|sizes|] := Entry(0, 0, 0, []);
  }

  /** Sizes that leave out a range of levels, as units. */
  lemma UnitsApart(d: Disk, s: nat, t: nat)
    requires d.ileave > 0 && Aligned(d)
    requires forall c :: 0 <= c < |d.sizes| ==> d.sizes[c] <= s * d.ileave || d.sizes[c] >= t * d.ileave
    ensures forall c :: 0 <= c < |d.sizes| ==>
              Units(d.sizes, d.ileave)[c] <= s || Units(d.sizes, d.ileave)[c] >= t
  {
    var m, u := d.ileave, Units(d.sizes, d.ileave);
    forall c | 0 <= c < |u|
      ensures u[c] <= s || u[c] >= t
    {
      ScaleOne(d.sizes[c], m, s);
      if u[c] < t { MulNext(u[c], t, m); }
    }
  }

  /** One more group: what the loop of cdinterleave appends is right. */
  lemma NextGroup(d: Disk, s: nat, t: nat, small: nat, index: seq<nat>)
    requires d.ileave > 0 && Aligned(d) && small < |d.sizes| && d.sizes[small] > s * d.ileave &&
             d.sizes[small] == t * d.ileave
    requires forall c :: 0 <= c < |d.sizes| ==> d.sizes[c] <= s * d.ileave || d.sizes[c] >= d.sizes[small]
    requires index == Above(d.sizes, d.sizes[small] - 1)
    ensures index == Above(d.sizes, s * d.ileave)
    ensures var u := Units(d.sizes, d.ileave);
            Below(d.sizes, s * d.ileave) / d.ileave == Below(u, s) &&
            GroupOk(u, Entry(|index|, Below(u, s), s, index), s, t)
    ensures Below(d.sizes, t * d.ileave) == Below(d.sizes, s * d.ileave) + |index| * (d.sizes[small] - s * d.ileave)
    ensures |Above(d.sizes, t * d.ileave)| < |index|
  {
    hide Above, Below;
    var m, u := d.ileave, Units(d.sizes, d.ileave);
    AboveSame(d.sizes, s * m, d.sizes[small] - 1);
    BelowGroup(d.sizes, s * m, t * m);
    AboveShrinks(d.sizes, s * m, t * m, small);
    Scale(d.sizes, m, s);
    DivModBack(Below(u, s), m, 0);
    if t <= s { MulMono(t, s, m); }
    UnitsApart(d, s, t);
  }

  /** cdinterleave. The table has ncdisks + 1 entries and is never overrun. */
  method Cdinterleave(d: Disk) returns (table: array<Entry>, ghost ls: seq<nat>)
    requires Aligned(d)
    ensures fresh(table) && table.Length == |d.sizes| + 1
    ensures d.ileave == 0 ==> SerialOk(d.sizes, table[..])
    ensures d.ileave > 0 ==> TableOk(Units(d.sizes, d.ileave), table[..], ls)
  {
    hide Above, Below;
    table := new Entry[|d.sizes| + 1](i => Entry(0, 0, 0, []));
    ls := [0];
    if d.ileave == 0 {
      SerialTable(d.sizes, table);
      return;
    }
    var m := d.ileave;
    ghost var u := Units(d.sizes, m);
    var size, bn, lbn, k := 0, 0, 0, 0;
    AboveNone(d.sizes, 0);
    ZeroBelow(d.sizes);
    while true
      invariant k == |ls| - 1 && size == lbn * m && lbn == ls[k] && bn == Below(d.sizes, size)
      invariant k + |Above(d.sizes, size)| <= |d.sizes| && table.Length == |d.sizes| + 1
      invariant Groups(u, table[..], ls)
      decreases |Above(d.sizes, size)|
    {
      var small := Smallest(d.sizes, size);
      AboveNone(d.sizes, size);
      Scale(d.sizes, m, lbn);
      if small == -1 {
        table[k] := Entry(0, table[k].startblk, table[k].startoff, table[k].index);
        break;
      }
      var next := d.sizes[small];
      var index := Members(d.sizes, next);
      assert next == next / m * m;
      NextGroup(d, lbn, next / m, small, index);
      table[k] := Entry(|index|, bn / m, lbn, index);
      bn := bn + |index| * (next - size);
      lbn := next / m;
      size := next;
      ls := ls + [lbn];
      k := k + 1;
    }
  }

  // ---------- translating a request ----------

  /** A component request: byte count and memory address, and the place on the component. */
  datatype Piece = Piece(comp: nat, blkno: nat, addr: nat, bcount: nat)

  function Howmany(bytes: nat): nat { (bytes + BLOCK - 1) / BLOCK }

  /** A run of n blocks that lie together on one component. */
  ghost predicate Together(d: Disk, bn: nat, n: nat, c: nat, b: nat) {
    forall i: nat :: i < n ==> HomeAfter(d, bn, c, b, i)
  }

  ghost predicate HomeAfter(d: Disk, bn: nat, c: nat, b: nat, i: nat) { Home(d, bn + i, c, b + i) }

  /** In a complete table exactly one group holds a given unit. */
  lemma {:induction false} LastGroup(u: seq<nat>, table: seq<Entry>, ls: seq<nat>)
    requires TableOk(u, table, ls)
    ensures Below(u, ls[|ls| - 1]) == Sum(u)
  {
    AboveNone(u, ls[|ls| - 1]);
    BelowAll(u, ls[|ls| - 1]);
  }

  lemma GroupAt(u: seq<nat>, table: seq<Entry>, ls: seq<nat>, j: nat)
    requires Groups(u, table, ls) && j < |ls| - 1
    ensures j + 1 < |table| && GroupOk(u, table[j], ls[j], ls[j + 1])
  {
  }

  /** The entry found, the one before the first that starts later, gives the home of the unit. */
  lemma EntryFound(u: seq<nat>, table: seq<Entry>, ls: seq<nat>, j: nat, n: nat, q: nat, k: nat)
    requires TableOk(u, table, ls) && j < |ls| - 1 && n < Sum(u)
    requires table[j].startblk <= n && (j + 1 < |ls| - 1 ==> n < table[j + 1].startblk)
    requires k < table[j].ndisk && n == table[j].startblk + (q * table[j].ndisk + k)
    ensures |table[j].index| == table[j].ndisk
    ensures var c, l := table[j].index[k], table[j].startoff + q;
            c < |u| && l < u[c] && Rank(u, c, l) == n
  {
    hide Above, Below, Rank, Sum, Groups;
    GroupAt(u, table, ls, j);
    var s, t, nd := ls[j], ls[j + 1], table[j].ndisk;
    BelowGroup(u, s, t);
    LastGroup(u, table, ls);
    if j + 1 < |ls| - 1 { GroupAt(u, table, ls, j + 1); }
    QuotientBound(q, k, nd, t - s);
    GroupLookup(u, s, t, q, k);
  }

  lemma QuotientBound(q: nat, k: nat, n: nat, r: nat)
    requires q * n + k < r * n
    ensures q < r
  {
    if q > r - 1 { MulMono(r, q, n); }
  }

  method FindEntry(table: array<Entry>, n: nat, ghost u: seq<nat>, ghost ls: seq<nat>) returns (j: nat)
    requires TableOk(u, table[..], ls) && n < Sum(u)
    ensures j < |ls| - 1 && table[j].startblk <= n && (j + 1 < |ls| - 1 ==> n < table[j + 1].startblk)
  {
    hide Above, Below, Sum;
    LastGroup(u, table[..], ls);
    ZeroBelow(u);
    var ii := 0;
    assert |ls| > 1;
    assert GroupOk(u, table[0], ls[0], ls[1]);
    while table[ii].ndisk != 0
      invariant 0 <= ii <= |ls| - 1
      invariant ii > 0 ==> table[ii - 1].startblk <= n
      decreases |ls| - ii
    {
      if table[ii].startblk > n { break; }
      ii := ii + 1;
    }
    if ii < |ls| - 1 { assert GroupOk(u, table[ii], ls[ii], ls[ii + 1]); }
    j := ii - 1;
  }

  /** The unit's place: cdbuffer's own arithmetic on the entry found. */
  method Locate(d: Disk, table: array<Entry>, n: nat, ghost ls: seq<nat>) returns (c: nat, l: nat)
    requires d.ileave > 0 && TableOk(Units(d.sizes, d.ileave), table[..], ls) && n < Sum(Units(d.sizes, d.ileave))
    ensures var u := Units(d.sizes, d.ileave); c < |u| && l < u[c] && Rank(u, c, l) == n
  {
    hide Above, Below, Rank, Sum;
    ghost var u := Units(d.sizes, d.ileave);
    var j := FindEntry(table, n, u, ls);
    var e := table[j];
    assert GroupOk(u, table[j], ls[j], ls[j + 1]);
    var off := n - e.startblk;
    DivModNat(off, e.ndisk);
    EntryFound(u, table[..], ls, j, n, off / e.ndisk, off % e.ndisk);
    if e.ndisk == 1 {
      DivModNat(off, 1);
      c := e.index[0];
      l := e.startoff + off;
    } else {
      c := e.index[off % e.ndisk];
      l := e.startoff + off / e.ndisk;
    }
  }

  lemma DivModNat(a: nat, n: nat)
    requires n > 0
    ensures 0 <= a / n && 0 <= a % n < n && a == (a / n) * n + a % n && (n == 1 ==> a / n == a && a % n == 0)
  {
  }

  /** On an interleaved disk the rest of a unit lies together. */
  lemma RestOfUnit(d: Disk, bn: nat, c: nat, l: nat)
    requires d.ileave > 0 && Aligned(d) && c < |d.sizes| && l < Units(d.sizes, d.ileave)[c]
    requires Rank(Units(d.sizes, d.ileave), c, l) == bn / d.ileave
    ensures var off := bn % d.ileave; Together(d, bn, d.ileave - off, c, l * d.ileave + off)
  {
    hide Rank;
    var m, off := d.ileave, bn % d.ileave;
    DivModNat(bn, m);
    var b := l * m + off;
    forall i: nat | i < m - off
      ensures HomeAfter(d, bn, c, b, i)
    {
      DivModBack(bn / m, m, off + i);
      DivModBack(l, m, off + i);
      MulNext(l, d.sizes[c] / m, m);
      assert d.sizes[c] == d.sizes[c] / m * m;
    }
  }

  /** The component of a serial disk that holds bn. */
  method FindComponent(sizes: seq<nat>, bn: nat) returns (c: nat, sblk: nat)
    requires bn < Sum(sizes)
    ensures c < |sizes| && sblk == Sum(sizes[..c]) && sblk <= bn < sblk + sizes[c]
  {
    c, sblk := 0, 0;
    assert sizes[..|sizes|] == sizes;
    while bn >= sblk + sizes[c]
      invariant c < |sizes| && sblk == Sum(sizes[..c]) <= bn
      decreases |sizes| - c
    {
      SumPrefix(sizes, c);
      sblk := sblk + sizes[c];
      c := c + 1;
    }
  }

  /** cdbuffer: the component request for the first part of what is left of a request. */
  method Cdbuffer(d: Disk, table: array<Entry>, bn: nat, addr: nat, bcount: nat, ghost ls: seq<nat>) returns (p: Piece)
    requires Aligned(d) && bn < Sum(d.sizes) && bcount > 0
    requires d.ileave > 0 ==> TableOk(Units(d.sizes, d.ileave), table[..], ls)
    ensures p.addr == addr && 0 < p.bcount <= bcount && (p.bcount < bcount ==> p.bcount % BLOCK == 0)
    ensures Together(d, bn, Howmany(p.bcount), p.comp, p.blkno)
  {
    hide Rank, Sum, Home, TableOk;
    var c, blkno, run;
    if d.ileave == 0 {
      var sblk;
      c, sblk := FindComponent(d.sizes, bn);
      blkno := bn - sblk;
      run := d.sizes[c] - blkno;
      SerialRun(d, bn, c, blkno);
    } else {
      var m := d.ileave;
      SumUnits(d.sizes, m);
      DivMod(bn, m, Sum(Units(d.sizes, m)));
      var l;
      c, l := Locate(d, table, bn / m, ls);
      RestOfUnit(d, bn, c, l);
      blkno := l * m + bn % m;
      run := m - bn % m;
    }
    var n := if run * BLOCK > bcount then bcount else run * BLOCK;
    p := Piece(c, blkno, addr, n);
  }

  lemma SerialRun(d: Disk, bn: nat, c: nat, b: nat)
    requires d.ileave == 0 && c < |d.sizes| && b < d.sizes[c] && bn == Sum(d.sizes[..c]) + b
    ensures Together(d, bn, d.sizes[c] - b, c, b)
  {
  }

  /** The pieces cover the request from bn on, in order and without gaps. */
  ghost predicate Pieces(d: Disk, ps: seq<Piece>, bn: nat, addr: nat, bcount: nat) {
    if bcount == 0 then ps == [] else
      ps != [] &&
      var p := ps[0];
      p.addr == addr && 0 < p.bcount <= bcount && (p.bcount < bcount ==> p.bcount % BLOCK == 0) &&
      Together(d, bn, Howmany(p.bcount), p.comp, p.blkno) &&
      Pieces(d, ps[1..], bn + p.bcount / BLOCK, addr + p.bcount, bcount - p.bcount)
  }

  ghost function Bytes(ps: seq<Piece>): nat {
    if ps == [] then 0 else ps[0].bcount + Bytes(ps[1..])
  }

  /** cdstart: split a request into component requests. */
  method Cdstart(d: Disk, table: array<Entry>, bn: nat, addr: nat, bcount: nat, ghost ls: seq<nat>)
      returns (ps: seq<Piece>)
    requires Aligned(d) && bn + Howmany(bcount) <= Sum(d.sizes)
    requires d.ileave > 0 ==> TableOk(Units(d.sizes, d.ileave), table[..], ls)
    ensures Pieces(d, ps, bn, addr, bcount)
  {
    hide Sum, Together, TableOk, Pieces, Howmany;
    ps := [];
    var b: nat, a: nat, left: nat := bn, addr, bcount;
    assert forall qs: seq<Piece> :: [] + qs == qs;
    while left > 0
      invariant b + Howmany(left) <= Sum(d.sizes)
      invariant forall qs :: Pieces(d, qs, b, a, left) ==> Pieces(d, ps + qs, bn, addr, bcount)
    {
      BlocksLeft(left, left);
      var p := Cdbuffer(d, table, b, a, left, ls);
      forall qs | Pieces(d, qs, b + p.bcount / BLOCK, a + p.bcount, left - p.bcount)
        ensures Pieces(d, ps + [p] + qs, bn, addr, bcount)
      {
        FirstPiece(d, p, qs, b, a, left);
        assert ps + [p] + qs == ps + ([p] + qs);
      }
      BlocksLeft(p.bcount, left);
      ps := ps + [p];
      b, a, left := b + p.bcount / BLOCK, a + p.bcount, left - p.bcount;
    }
    NoPieces(d, b, a);
    assert ps + [] == ps;
  }

  lemma FirstPiece(d: Disk, p: Piece, qs: seq<Piece>, bn: nat, addr: nat, bcount: nat)
    requires p.addr == addr && 0 < p.bcount <= bcount && (p.bcount < bcount ==> p.bcount % BLOCK == 0)
    requires Together(d, bn, Howmany(p.bcount), p.comp, p.blkno)
    requires Pieces(d, qs, bn + p.bcount / BLOCK, addr + p.bcount, bcount - p.bcount)
    ensures Pieces(d, [p] + qs, bn, addr, bcount)
  {
    hide Together;
    assert ([p] + qs)[1..] == qs;
  }

  lemma NoPieces(d: Disk, bn: nat, addr: nat)
    ensures Pieces(d, [], bn, addr, 0)
  {
  }

  /** Whole blocks sent leave the rest of the blocks. */
  lemma BlocksLeft(n: nat, bcount: nat)
    requires 0 < n <= bcount && (n < bcount ==> n % BLOCK == 0)
    ensures n / BLOCK + Howmany(bcount - n) <= Howmany(bcount) && Howmany(bcount) > 0
  {
  }

  /** Byte x of the request is moved by some piece, to its own place in memory and to the block
      that is its home. */
  lemma {:induction false} BytePlaced(d: Disk, ps: seq<Piece>, bn: nat, addr: nat, bcount: nat, x: nat) returns (j: nat)
    requires Pieces(d, ps, bn, addr, bcount) && x < bcount
    ensures j < |ps| && ps[j].addr <= addr + x < ps[j].addr + ps[j].bcount
    ensures Home(d, bn + x / BLOCK, ps[j].comp, ps[j].blkno + (addr + x - ps[j].addr) / BLOCK)
    decreases |ps|
  {
    hide Home;
    var p := ps[0];
    if x < p.bcount {
      j := 0;
      assert HomeAfter(d, bn, p.comp, p.blkno, x / BLOCK);
    } else {
      j := BytePlaced(d, ps[1..], bn + p.bcount / BLOCK, addr + p.bcount, bcount - p.bcount, x - p.bcount);
      j := j + 1;
      assert bn + x / BLOCK == bn + p.bcount / BLOCK + (x - p.bcount) / BLOCK;
    }
  }

  /** The pieces' counts add up to the request. */
  lemma {:induction false} PieceBytes(d: Disk, ps: seq<Piece>, bn: nat, addr: nat, bcount: nat)
    requires Pieces(d, ps, bn, addr, bcount)
    ensures Bytes(ps) == bcount && forall j :: 0 <= j < |ps| ==> ps[j].bcount > 0
    decreases |ps|
  {
    if bcount != 0 {
      PieceBytes(d, ps[1..], bn + ps[0].bcount / BLOCK, addr + ps[0].bcount, bcount - ps[0].bcount);
    }
  }

  // ---------- which requests are started ----------

  datatype Verdict = Start(bcount: nat) | AtEnd | Invalid

  /** cdstrategy's range check, as written: a negative block number is not refused. */
  function Clip(bn: int, bcount: nat, size: nat): Verdict {
    if bn < 0 || bn + Howmany(bcount) > size then
      var sz := size - bn;
      if sz == 0 then AtEnd else if sz < 0 then Invalid else Start(sz * BLOCK)
    else Start(bcount)
  }

  /** For a block number that is not negative the check is right: a request is refused beyond the end,
      ended at the end, and else started with what fits, cut to whole blocks up to the end. A negative
      one is always started, with a count that reaches from there to the end of the disk. */
  lemma ClipInRange(bn: int, bcount: nat, size: nat)
    ensures bn >= 0 ==> (Clip(bn, bcount, size) == Invalid <==> bn > size)
    ensures bn >= 0 ==> (Clip(bn, bcount, size) == AtEnd <==> bn == size && bcount > 0)
    ensures bn >= 0 && Clip(bn, bcount, size).Start? ==>
              var n := Clip(bn, bcount, size).bcount;
              bn + Howmany(n) <= size && n <= bcount && (bcount > 0 ==> n > 0) &&
              (n < bcount ==> n % BLOCK == 0 && bn + Howmany(n) == size)
    ensures bn < 0 ==> Clip(bn, bcount, size) == Start((size - bn) * BLOCK)
  {
  }

  // ---------- completion ----------

  /** A request under way: b_bcount, b_resid, B_ERROR, how often cdintr was called and whether
      the count panic was hit; the component requests outstanding and the bytes not yet issued. */
  datatype Io = Io(bcount: nat, resid: int, error: bool, intrs: nat, panic: bool, out: seq<nat>, left: nat)

  datatype IoEvent = Issue(n: nat) | Done(i: nat, failed: bool)

  function Begin(bcount: nat): Io { Io(bcount, bcount, false, 0, false, [], bcount) }

  function Iodone(io: Io, count: nat, failed: bool): Io {
    var error, resid := io.error || failed, io.resid - count;
    if resid < 0 then io.(error := error, resid := resid, panic := true)
    else if resid == 0 then io.(error := error, resid := if error then io.bcount else 0, intrs := io.intrs + 1)
    else io.(error := error, resid := resid)
  }

  predicate IoReady(io: Io, e: IoEvent) {
    match e
    case Issue(n) => 0 < n <= io.left
    case Done(i, _) => i < |io.out|
  }

  function IoStep(io: Io, e: IoEvent): Io
    requires IoReady(io, e)
  {
    match e
    case Issue(n) => io.(out := io.out + [n], left := io.left - n)
    case Done(i, failed) => Iodone(io.(out := io.out[..i] + io.out[i + 1..]), io.out[i], failed)
  }

  predicate IoPossible(io: Io, es: seq<IoEvent>)
    decreases |es|
  {
    es == [] || (IoReady(io, es[0]) && IoPossible(IoStep(io, es[0]), es[1..]))
  }

  function IoRun(io: Io, es: seq<IoEvent>): Io
    requires IoPossible(io, es)
    decreases |es|
  {
    if es == [] then io else IoRun(IoStep(io, es[0]), es[1..])
  }

  ghost predicate AllPositive(s: seq<nat>) { forall i :: 0 <= i < |s| ==> s[i] > 0 }

  ghost predicate IoInv(io: Io) {
    !io.panic && AllPositive(io.out) &&
    if io.intrs == 0 then io.resid == Sum(io.out) + io.left <= io.bcount && (io.bcount > 0 ==> io.resid > 0)
    else io.intrs == 1 && io.out == [] && io.left == 0 && io.resid == if io.error then io.bcount else 0
  }

  lemma {:induction false} SumRemove(s: seq<nat>, i: nat)
    requires i < |s|
    ensures Sum(s) == s[i] + Sum(s[..i] + s[i + 1..])
  {
    var t := s[..|s| - 1];
    if i < |t| {
      SumRemove(t, i);
      var r := s[..i] + s[i + 1..];
      assert r[..|r| - 1] == t[..i] + t[i + 1..];
    } else {
      assert s[..i] + s[i + 1..] == t;
    }
  }

  lemma {:induction false} SumZero(s: seq<nat>)
    requires AllPositive(s)
    ensures Sum(s) == 0 <==> s == []
  {
  }

  lemma IoKeeps(io: Io, e: IoEvent)
    requires IoReady(io, e) && IoInv(io)
    ensures IoInv(IoStep(io, e)) && IoStep(io, e).bcount == io.bcount
  {
    if e.Done? {
      SumRemove(io.out, e.i);
      SumZero(io.out[..e.i] + io.out[e.i + 1..]);
    } else {
      assert (io.out + [e.n])[..|io.out|] == io.out;
    }
  }

  lemma {:induction false} IoRunKeeps(io: Io, es: seq<IoEvent>)
    requires IoInv(io) && IoPossible(io, es)
    ensures IoInv(IoRun(io, es)) && IoRun(io, es).bcount == io.bcount
    decreases |es|
  {
    hide IoStep, IoInv, IoReady;
    if es != [] {
      IoKeeps(io, es[0]);
      IoRunKeeps(IoStep(io, es[0]), es[1..]);
    }
  }

  lemma BeginInv(bcount: nat)
    ensures IoInv(Begin(bcount))
  {
  }

  lemma NoBytes(es: seq<IoEvent>)
    requires IoPossible(Begin(0), es)
    ensures IoRun(Begin(0), es) == Begin(0)
  {
  }

  /** The count panic is the completion of more bytes than are left. */
  lemma CountPanics(io: Io, count: nat, failed: bool)
    ensures Iodone(io, count, failed).panic <==> io.panic || count > io.resid
    ensures Iodone(io, count, failed).error <==> io.error || failed
  {
  }

  ghost predicate Failed(es: seq<IoEvent>) { exists k :: 0 <= k < |es| && es[k].Done? && es[k].failed }

  /** B_ERROR is set by a failed piece and stays. */
  lemma {:induction false} ErrorKept(io: Io, es: seq<IoEvent>)
    requires IoPossible(io, es)
    ensures IoRun(io, es).error <==> io.error || Failed(es)
    decreases |es|
  {
    hide Iodone;
    if es != [] {
      if es[0].Done? {
        CountPanics(io.(out := io.out[..es[0].i] + io.out[es[0].i + 1..]), io.out[es[0].i], es[0].failed);
      }
      ErrorKept(IoStep(io, es[0]), es[1..]);
      if Failed(es) {
        var k :| 0 <= k < |es| && es[k].Done? && es[k].failed;
        if k > 0 { assert es[1..][k - 1] == es[k]; }
      }
      if Failed(es[1..]) {
        var k :| 0 <= k < |es[1..]| && es[1..][k].Done? && es[1..][k].failed;
        assert es[k + 1].Done? && es[k + 1].failed;
      }
    }
  }

  lemma CalledOnce(io: Io)
    requires IoInv(io) && (io.bcount == 0 ==> io == Begin(0))
    ensures !io.panic && io.intrs <= 1 && (io.intrs == 1 <==> io.bcount > 0 && io.out == [] && io.left == 0)
    ensures io.intrs == 1 ==> io.resid == if io.error then io.bcount else 0
  {
    hide Sum;
    SumZero(io.out);
  }

  /** Completions in any order, even between two issues, never hit the count panic, and cdintr is
      called exactly once, when the last one is in, with an error exactly if a piece had one, and
      then nothing is said to have been moved; but for a request of no bytes it is never called. */
  lemma InterruptsOnce(bcount: nat, es: seq<IoEvent>)
    requires IoPossible(Begin(bcount), es)
    ensures var io := IoRun(Begin(bcount), es);
            !io.panic && io.intrs <= 1 &&
            (io.intrs == 1 <==> bcount > 0 && io.out == [] && io.left == 0) &&
            (io.error <==> Failed(es)) && (io.intrs == 1 ==> io.resid == if Failed(es) then bcount else 0)
  {
    hide IoStep, IoReady, IoRun, IoPossible, Failed, IoInv;
    ErrorKept(Begin(bcount), es);
    BeginInv(bcount);
    IoRunKeeps(Begin(bcount), es);
    if bcount == 0 { NoBytes(es); }
    CalledOnce(IoRun(Begin(bcount), es));
  }

  // ---------- a request from start to end ----------

  /** The sizes handed to the drivers, in order, and how many completions there were. */
  function Issued(es: seq<IoEvent>): seq<nat> {
    if es == [] then [] else (if es[0].Issue? then [es[0].n] else []) + Issued(es[1..])
  }

  function Completions(es: seq<IoEvent>): nat {
    if es == [] then 0 else (if es[0].Done? then 1 else 0) + Completions(es[1..])
  }

  function Counts(ps: seq<Piece>): seq<nat> { if ps == [] then [] else [ps[0].bcount] + Counts(ps[1..]) }

  function Total(s: seq<nat>): nat { if s == [] then 0 else s[0] + Total(s[1..]) }

  lemma {:induction false} CountsTotal(ps: seq<Piece>)
    ensures Total(Counts(ps)) == Bytes(ps) && |Counts(ps)| == |ps|
  {
    if ps != [] { CountsTotal(ps[1..]); }
  }

  lemma TotalCons(n: nat, s: seq<nat>)
    ensures Total([n] + s) == n + Total(s)
  {
    assert ([n] + s)[1..] == s;
  }

  /** What a run has left to issue and outstanding, from its events alone. */
  lemma {:induction false} RunCounts(io: Io, es: seq<IoEvent>)
    requires IoPossible(io, es)
    ensures IoRun(io, es).left + Total(Issued(es)) == io.left
    ensures |IoRun(io, es).out| + Completions(es) == |io.out| + |Issued(es)|
    decreases |es|
  {
    if es != [] {
      RunCounts(IoStep(io, es[0]), es[1..]);
      if es[0].Issue? {
        TotalCons(es[0].n, Issued(es[1..]));
      } else {
        assert [] + Issued(es[1..]) == Issued(es[1..]);
      }
    }
  }

  /** A request cut into pieces by cdstart, its pieces issued in order and completed in any order, even
      while others are still to be issued: once as many have completed as there are pieces, and not
      before, cdintr has been called, exactly once; a request of no bytes has no pieces and never is. */
  lemma RequestDone(d: Disk, ps: seq<Piece>, bn: nat, addr: nat, bcount: nat, es: seq<IoEvent>)
    requires Pieces(d, ps, bn, addr, bcount) && IoPossible(Begin(bcount), es) && Issued(es) <= Counts(ps)
    ensures var io := IoRun(Begin(bcount), es);
            !io.panic && (io.intrs == 1 <==> bcount > 0 && Completions(es) == |ps|) &&
            (io.intrs == 0 <==> bcount == 0 || Completions(es) < |ps|)
  {
    hide IoStep, IoReady, IoRun, IoPossible;
    InterruptsOnce(bcount, es);
    RunCounts(Begin(bcount), es);
    PieceBytes(d, ps, bn, addr, bcount);
    CountsTotal(ps);
    TotalPrefix(Issued(es), Counts(ps));
    CountsPositive(ps);
  }

  lemma {:induction false} CountsPositive(ps: seq<Piece>)
    requires forall j :: 0 <= j < |ps| ==> ps[j].bcount > 0
    ensures AllPositive(Counts(ps))
  {
    if ps != [] { CountsPositive(ps[1..]); }
  }

  lemma {:induction false} TotalPrefix(a: seq<nat>, b: seq<nat>)
    requires a <= b
    ensures Total(a) <= Total(b) && (AllPositive(b) ==> (Total(a) == Total(b) <==> a == b))
  {
    if a != [] {
      TotalPrefix(a[1..], b[1..]);
      assert a == [a[0]] + a[1..] && b == [b[0]] + b[1..];
    }
  }

  /** Such a run exists: the pieces issued one after the other. */
  lemma {:induction false} CanIssue(io: Io, s: seq<nat>)
    requires AllPositive(s) && Total(s) <= io.left
    ensures IoPossible(io, Issues(s)) && Issued(Issues(s)) == s
    decreases |s|
  {
    if s != [] {
      CanIssue(IoStep(io, IoEvent.Issue(s[0])), s[1..]);
      assert s == [s[0]] + s[1..];
    }
  }

  function Issues(s: seq<nat>): seq<IoEvent> { if s == [] then [] else [IoEvent.Issue(s[0])] + Issues(s[1..]) }

  lemma PiecesIssue(d: Disk, ps: seq<Piece>, bn: nat, addr: nat, bcount: nat)
    requires Pieces(d, ps, bn, addr, bcount)
    ensures IoPossible(Begin(bcount), Issues(Counts(ps))) && Issued(Issues(Counts(ps))) == Counts(ps)
  {
    PieceBytes(d, ps, bn, addr, bcount);
    CountsTotal(ps);
    CountsPositive(ps);
    CanIssue(Begin(bcount), Counts(ps));
  }

  /** The buffer header that the completions share. */
  class Buf {
    const bcount: nat
    var resid: int
    var error: bool
    var intrs: nat
    var panic: bool
    ghost var out: seq<nat>
    ghost var left: nat

    ghost function Now(): Io
      reads this
    {
      Io(bcount, resid, error, intrs, panic, out, left)
    }

    method Cdintr()
      modifies this
      ensures Now() == old(Now()).(intrs := old(intrs) + 1, resid := if error then bcount else old(resid))
    {
      if error { resid := bcount; }
      intrs := intrs + 1;
    }

    /** A component request is handed to its driver. */
    method Issue(n: nat)
      requires IoInv(Now()) && 0 < n <= left
      modifies this`out, this`left
      ensures IoInv(Now()) && Now() == IoStep(old(Now()), IoEvent.Issue(n))
    {
      IoKeeps(Now(), IoEvent.Issue(n));
      out, left := out + [n], left - n;
    }

    /** cdiodone for the i-th component request outstanding, of count bytes: the count panic is not
        hit, and cdintr is called if and only if this was the last one and all have been issued. */
    method Cdiodone(ghost i: nat, count: nat, failed: bool)
      requires IoInv(Now()) && i < |out| && count == out[i]
      modifies this
      ensures IoInv(Now()) && !panic && Now() == IoStep(old(Now()), Done(i, failed))
      ensures intrs == old(intrs) + if out == [] && left == 0 then 1 else 0
      ensures |out| == |old(out)| - 1 && left == old(left) && (error <==> old(error) || failed)
    {
      hide Sum;
      IoKeeps(Now(), Done(i, failed));
      Remaining(Now(), i);
      out := out[..i] + out[i + 1..];
      if failed { error := true; }
      resid := resid - count;
      panic := resid < 0;
      if resid == 0 { Cdintr(); }
    }
  }

  /** What is left of b_resid after one completion. */
  lemma Remaining(io: Io, i: nat)
    requires IoInv(io) && i < |io.out|
    ensures io.intrs == 0 && 0 <= io.resid - io.out[i]
    ensures io.resid - io.out[i] == 0 <==> io.out[..i] + io.out[i + 1..] == [] && io.left == 0
  {
    SumRemove(io.out, i);
    SumZero(io.out[..i] + io.out[i + 1..]);
  }
}
