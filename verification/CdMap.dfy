/** Where the blocks of a concatenated disk live, defined without the interleave table: the
    interleave units of all components are numbered level by level and, within a level, by
    component; a serial disk numbers the components one after the other. */
module CdMap {

  // ---------- numbering the interleave units ----------

  function Min(a: nat, b: nat): nat { if a <= b then a else b }

  /** The units on levels below l. */
  function Below(u: seq<nat>, l: nat): nat {
    if u == [] then 0 else Below(u[..|u| - 1], l) + Min(u[|u| - 1], l)
  }

  /** The components that reach level l, in order. */
  function Above(u: seq<nat>, l: nat): seq<nat> {
    if u == [] then [] else Above(u[..|u| - 1], l) + if u[|u| - 1] > l then [|u| - 1] else []
  }

  /** The number of units before unit l of component c. */
  function Rank(u: seq<nat>, c: nat, l: nat): nat
    requires c <= |u|
  {
    Below(u, l) + |Above(u[..c], l)|
  }

  function Sum(s: seq<nat>): nat {
    if s == [] then 0 else Sum(s[..|s| - 1]) + s[|s| - 1]
  }

  /** Above lists exactly the components that reach l, each at the place counted by those before. */
  lemma {:induction false} AboveAt(u: seq<nat>, l: nat, k: nat)
    requires k < |Above(u, l)|
    ensures var c := Above(u, l)[k]; c < |u| && u[c] > l && |Above(u[..c], l)| == k
  {
    var v := u[..|u| - 1];
    if k < |Above(v, l)| {
      AboveAt(v, l, k);
      var c := Above(v, l)[k];
      assert u[..c] == v[..c];
    }
  }

  lemma {:induction false} AboveHas(u: seq<nat>, l: nat, c: nat)
    requires c < |u| && u[c] > l
    ensures |Above(u[..c], l)| < |Above(u, l)| && Above(u, l)[|Above(u[..c], l)|] == c
  {
    var v := u[..|u| - 1];
    if c < |v| {
      AboveHas(v, l, c);
      assert u[..c] == v[..c];
    }
  }

  lemma {:induction false} BelowStep(u: seq<nat>, l: nat)
    ensures Below(u, l + 1) == Below(u, l) + |Above(u, l)|
  {
    if u != [] {
      BelowStep(u[..|u| - 1], l);
    }
  }

  lemma {:induction false} BelowMono(u: seq<nat>, l: nat, m: nat)
    requires l <= m
    ensures Below(u, l) <= Below(u, m)
    decreases m - l
  {
    if l < m {
      BelowStep(u, l);
      BelowMono(u, l + 1, m);
    }
  }

  lemma {:induction false} BelowAll(u: seq<nat>, m: nat)
    requires forall c :: 0 <= c < |u| ==> u[c] <= m
    ensures Below(u, m) == Sum(u)
  {
    if u != [] {
      BelowAll(u[..|u| - 1], m);
    }
  }

  lemma {:induction false} SumAtLeast(u: seq<nat>, m: nat)
    ensures Below(u, m) <= Sum(u)
  {
    if u != [] {
      SumAtLeast(u[..|u| - 1], m);
    }
  }

  /** A unit's number lies within its level, hence within the disk. */
  lemma RankBound(u: seq<nat>, c: nat, l: nat)
    requires c < |u| && u[c] > l
    ensures Below(u, l) <= Rank(u, c, l) < Below(u, l + 1) <= Sum(u)
  {
    AboveHas(u, l, c);
    BelowStep(u, l);
    SumAtLeast(u, l + 1);
  }

  /** No two units have the same number. */
  lemma {:induction false} AboveGrows(u: seq<nat>, l: nat, c: nat, d: nat)
    requires c <= d <= |u|
    ensures |Above(u[..c], l)| <= |Above(u[..d], l)|
  {
    if c < d {
      AboveGrows(u, l, c, d - 1);
      assert u[..d][..d - 1] == u[..d - 1];
    }
  }

  /** The units are numbered level by level, and within a level in the order of the components. */
  lemma RankOrder(u: seq<nat>, c: nat, l: nat, d: nat, m: nat)
    requires c < |u| && u[c] > l && d < |u| && u[d] > m
    ensures Rank(u, c, l) < Rank(u, d, m) <==> l < m || (l == m && c < d)
  {
    RankBound(u, c, l);
    RankBound(u, d, m);
    if l < m {
      BelowMono(u, l + 1, m);
    } else if m < l {
      BelowMono(u, m + 1, l);
    } else if c < d {
      AboveGrows(u, l, c + 1, d);
      assert u[..c + 1][..c] == u[..c];
    } else {
      AboveGrows(u, l, d, c);
    }
  }

  lemma RankInjective(u: seq<nat>, c: nat, l: nat, d: nat, m: nat)
    requires c < |u| && u[c] > l && d < |u| && u[d] > m && Rank(u, c, l) == Rank(u, d, m)
    ensures c == d && l == m
  {
    RankBound(u, c, l);
    RankBound(u, d, m);
    if l < m {
      BelowMono(u, l + 1, m);
    } else if m < l {
      BelowMono(u, m + 1, l);
    }
    AboveHas(u, l, c);
    AboveHas(u, l, d);
  }

  // ---------- groups: levels reached by the same components ----------

  lemma {:induction false} AboveSame(u: seq<nat>, s: nat, l: nat)
    requires s <= l && forall c :: 0 <= c < |u| ==> u[c] <= s || u[c] > l
    ensures Above(u, l) == Above(u, s)
  {
    if u != [] {
      AboveSame(u[..|u| - 1], s, l);
    }
  }

  /** Within a group of levels the count grows evenly. */
  lemma {:induction false} BelowGroup(u: seq<nat>, s: nat, l: nat)
    requires s <= l && forall c :: 0 <= c < |u| ==> u[c] <= s || u[c] >= l
    ensures Below(u, l) == Below(u, s) + (l - s) * |Above(u, s)|
    decreases l - s
  {
    if s < l {
      BelowGroup(u, s, l - 1);
      AboveSame(u, s, l - 1);
      BelowStep(u, l - 1);
      var n := |Above(u, s)|;
      assert (l - s) * n == (l - 1 - s) * n + n;
    }
  }

  /** The address computed from a group's start is the unit with that number. */
  lemma GroupLookup(u: seq<nat>, s: nat, t: nat, q: nat, k: nat)
    requires s + q < t && (forall c :: 0 <= c < |u| ==> u[c] <= s || u[c] >= t)
    requires k < |Above(u, s)|
    ensures var c, l := Above(u, s)[k], s + q;
            c < |u| && u[c] > l && Rank(u, c, l) == Below(u, s) + (q * |Above(u, s)| + k)
  {
    hide Below, Above;
    AboveSame(u, s, s + q);
    BelowGroup(u, s, s + q);
    AboveAt(u, s + q, k);
  }

  lemma DivMod(a: nat, n: nat, m: nat)
    requires n > 0 && a < m * n
    ensures 0 <= a / n < m && 0 <= a % n < n && a == (a / n) * n + a % n
  {
    if a / n > m - 1 {
      MulMono(m, a / n, n);
    }
  }

  lemma MulMono(a: nat, b: nat, n: nat)
    requires a <= b
    ensures a * n <= b * n
  {
  }

  lemma MulNext(a: nat, b: nat, n: nat)
    requires a < b
    ensures a * n + n <= b * n
  {
    MulMono(a + 1, b, n);
    assert (a + 1) * n == a * n + n;
  }

  // ---------- blocks ----------

  /** The components' sizes in blocks and the interleave in blocks; 0 means serial. */
  datatype Disk = Disk(sizes: seq<nat>, ileave: nat)

  /** cdinit cuts every component down to a multiple of the interleave. */
  ghost predicate Aligned(d: Disk) {
    d.ileave > 0 ==> forall c :: 0 <= c < |d.sizes| ==> d.sizes[c] % d.ileave == 0
  }

  function Units(sizes: seq<nat>, m: nat): (u: seq<nat>)
    requires m > 0
    ensures |u| == |sizes| && forall c :: 0 <= c < |sizes| ==> u[c] == sizes[c] / m
  {
    seq(|sizes|, c requires 0 <= c < |sizes| => sizes[c] / m)
  }

  /** Block bn of the disk is block b of component c. */
  ghost predicate Home(d: Disk, bn: nat, c: nat, b: nat) {
    c < |d.sizes| && b < d.sizes[c] &&
    if d.ileave == 0 then bn == Sum(d.sizes[..c]) + b
    else bn % d.ileave == b % d.ileave && bn / d.ileave == Rank(Units(d.sizes, d.ileave), c, b / d.ileave)
  }

  lemma {:induction false} SumPrefix(s: seq<nat>, c: nat)
    requires c < |s|
    ensures Sum(s[..c + 1]) == Sum(s[..c]) + s[c] <= Sum(s)
  {
    assert s[..c + 1][..c] == s[..c];
    if c + 1 == |s| {
      assert s[..c + 1] == s;
    } else {
      var t := s[..|s| - 1];
      SumPrefix(t, c);
      assert t[..c + 1] == s[..c + 1] && t[..c] == s[..c];
    }
  }

  lemma {:induction false} SumPrefixMono(s: seq<nat>, c: nat, e: nat)
    requires c <= e <= |s|
    ensures Sum(s[..c]) <= Sum(s[..e])
    decreases e - c
  {
    if c < e {
      SumPrefix(s, c);
      SumPrefixMono(s, c + 1, e);
    }
  }

  lemma UnitOf(d: Disk, c: nat, b: nat)
    requires Aligned(d) && d.ileave > 0 && c < |d.sizes| && b < d.sizes[c]
    ensures b / d.ileave < Units(d.sizes, d.ileave)[c]
  {
    var m := d.ileave;
    DivMod(b, m, d.sizes[c] / m);
  }

  lemma {:induction false} SumUnits(sizes: seq<nat>, m: nat)
    requires m > 0 && forall c :: 0 <= c < |sizes| ==> sizes[c] % m == 0
    ensures Sum(sizes) == Sum(Units(sizes, m)) * m
  {
    if sizes != [] {
      var t := sizes[..|sizes| - 1];
      SumUnits(t, m);
      var u := Units(sizes, m);
      assert u[..|u| - 1] == Units(t, m);
      var last := sizes[|sizes| - 1];
      assert last == last / m * m;
      assert (Sum(Units(t, m)) + last / m) * m == Sum(Units(t, m)) * m + last / m * m;
    }
  }

  /** Every component block is some block of the disk ... */
  lemma BlockOf(d: Disk, c: nat, b: nat) returns (bn: nat)
    requires Aligned(d) && c < |d.sizes| && b < d.sizes[c]
    ensures Home(d, bn, c, b) && bn < Sum(d.sizes)
  {
    hide Sum, Rank;
    if d.ileave == 0 {
      bn := Sum(d.sizes[..c]) + b;
      SumPrefix(d.sizes, c);
    } else {
      var m, u := d.ileave, Units(d.sizes, d.ileave);
      bn := Rank(u, c, b / m) * m + b % m;
      DivModBack(Rank(u, c, b / m), m, b % m);
      UnitOf(d, c, b);
      UnitInside(u, c, b / m, m, b % m);
      SumUnits(d.sizes, m);
    }
  }

  lemma UnitInside(u: seq<nat>, c: nat, l: nat, m: nat, r: nat)
    requires c < |u| && u[c] > l && r < m
    ensures Rank(u, c, l) * m + r < Sum(u) * m
  {
    hide Rank;
    RankBound(u, c, l);
    MulNext(Rank(u, c, l), Sum(u), m);
  }

  lemma DivModBack(q: nat, m: nat, r: nat)
    requires r < m
    ensures (q * m + r) / m == q && (q * m + r) % m == r
  {
    var a := q * m + r;
    var k := a / m;
    assert a == k * m + a % m;
    if k < q {
      MulNext(k, q, m);
    } else if k > q {
      MulNext(q, k, m);
    }
  }

  /** ... of one only ... */
  lemma HomeInjective(d: Disk, bn: nat, bn': nat, c: nat, b: nat)
    requires Home(d, bn, c, b) && Home(d, bn', c, b)
    ensures bn == bn'
  {
    hide Sum, Rank;
    if d.ileave > 0 {
      SameDivMod(bn, bn', d.ileave);
    }
  }

  lemma SameDivMod(a: nat, b: nat, m: nat)
    requires m > 0 && a / m == b / m && a % m == b % m
    ensures a == b
  {
    assert a == m * (a / m) + a % m && b == m * (b / m) + b % m;
  }

  /** ... no two component blocks are the same block of the disk ... */
  lemma HomeUnique(d: Disk, bn: nat, c: nat, b: nat, c': nat, b': nat)
    requires Aligned(d) && Home(d, bn, c, b) && Home(d, bn, c', b')
    ensures c == c' && b == b'
  {
    hide Sum, Rank;
    if d.ileave == 0 {
      if c < c' { SumPrefix(d.sizes, c); SumPrefixMono(d.sizes, c + 1, c'); }
      if c' < c { SumPrefix(d.sizes, c'); SumPrefixMono(d.sizes, c' + 1, c); }
    } else {
      var m := d.ileave;
      UnitOf(d, c, b);
      UnitOf(d, c', b');
      RankInjective(Units(d.sizes, m), c, b / m, c', b' / m);
      SameDivMod(b, b', m);
    }
  }

  /** ... and every block of the disk is some component block. */
  lemma HomeExists(d: Disk, bn: nat) returns (c: nat, b: nat)
    requires Aligned(d) && bn < Sum(d.sizes)
    ensures Home(d, bn, c, b)
  {
    hide Sum, Rank;
    if d.ileave == 0 {
      c := Component(d.sizes, bn);
      b := bn - Sum(d.sizes[..c]);
    } else {
      var m, u := d.ileave, Units(d.sizes, d.ileave);
      SumUnits(d.sizes, m);
      DivMod(bn, m, Sum(u));
      var l;
      c, l := UnitAt(u, bn / m);
      b := l * m + bn % m;
      DivModBack(l, m, bn % m);
      MulNext(l, u[c], m);
      assert d.sizes[c] == u[c] * m;
    }
  }

  lemma {:induction false} Component(sizes: seq<nat>, bn: nat) returns (c: nat)
    requires bn < Sum(sizes)
    ensures c < |sizes| && Sum(sizes[..c]) <= bn < Sum(sizes[..c]) + sizes[c]
  {
    var t := sizes[..|sizes| - 1];
    if bn < Sum(t) {
      c := Component(t, bn);
      assert t[..c] == sizes[..c];
    } else {
      c := |t|;
    }
  }

  /** The unit with number n: the level whose range holds n, and the component at the right place. */
  lemma UnitAt(u: seq<nat>, n: nat) returns (c: nat, l: nat)
    requires n < Sum(u)
    ensures c < |u| && u[c] > l && Rank(u, c, l) == n
  {
    hide Above;
    BelowAll(u, Sum(u)) by { MembersBelowSum(u); }
    ZeroBelow(u);
    l := LevelOf(u, n, Sum(u));
    BelowStep(u, l);
    var k := n - Below(u, l);
    AboveAt(u, l, k);
    c := Above(u, l)[k];
  }

  lemma {:induction false} LevelOf(u: seq<nat>, n: nat, hi: nat) returns (l: nat)
    requires Below(u, 0) <= n < Below(u, hi)
    ensures Below(u, l) <= n < Below(u, l + 1)
    decreases hi
  {
    if Below(u, hi - 1) <= n {
      l := hi - 1;
    } else {
      l := LevelOf(u, n, hi - 1);
    }
  }

  lemma {:induction false} ZeroBelow(u: seq<nat>)
    ensures Below(u, 0) == 0
  {
    if u != [] {
      ZeroBelow(u[..|u| - 1]);
    }
  }

  lemma {:induction false} MembersBelowSum(u: seq<nat>)
    ensures forall c :: 0 <= c < |u| ==> u[c] <= Sum(u)
  {
    if u != [] {
      MembersBelowSum(u[..|u| - 1]);
    }
  }

  lemma DivModOrder(a: nat, b: nat, m: nat)
    requires m > 0
    ensures a < b <==> a / m < b / m || (a / m == b / m && a % m < b % m)
  {
    var q, r, q', r' := a / m, a % m, b / m, b % m;
    assert a == q * m + r && b == q' * m + r';
    if q < q' {
      MulNext(q, q', m);
    } else if q' < q {
      MulNext(q', q, m);
    }
  }

  /** The order in which the blocks of the disk go over the components: serially one component after the
      other; interleaved, level by level, on each level unit by unit over the components, and
      within a unit block by block. */
  lemma HomeOrder(d: Disk, bn: nat, c: nat, b: nat, bn': nat, c': nat, b': nat)
    requires Aligned(d) && Home(d, bn, c, b) && Home(d, bn', c', b')
    ensures d.ileave == 0 ==> (bn < bn' <==> c < c' || (c == c' && b < b'))
    ensures d.ileave > 0 ==>
              var m := d.ileave;
              (bn < bn' <==>
               b / m < b' / m || (b / m == b' / m && (c < c' || (c == c' && b % m < b' % m))))
  {
    hide Sum, Rank;
    if d.ileave == 0 {
      if c < c' { SumPrefix(d.sizes, c); SumPrefixMono(d.sizes, c + 1, c'); }
      if c' < c { SumPrefix(d.sizes, c'); SumPrefixMono(d.sizes, c' + 1, c); }
    } else {
      InterleavedOrder(d, bn, c, b, bn', c', b');
    }
  }

  /** The unit l and the place r within it of a component block. */
  lemma HomeParts(d: Disk, bn: nat, c: nat, b: nat) returns (l: nat, r: nat)
    requires Aligned(d) && Home(d, bn, c, b) && d.ileave > 0
    ensures l == b / d.ileave && r == b % d.ileave == bn % d.ileave
    ensures c < |d.sizes| && l < Units(d.sizes, d.ileave)[c] && bn / d.ileave == Rank(Units(d.sizes, d.ileave), c, l)
  {
    UnitOf(d, c, b);
    l, r := b / d.ileave, b % d.ileave;
  }

  lemma InterleavedOrder(d: Disk, bn: nat, c: nat, b: nat, bn': nat, c': nat, b': nat)
    requires Aligned(d) && Home(d, bn, c, b) && Home(d, bn', c', b') && d.ileave > 0
    ensures var m := d.ileave;
            (bn < bn' <==>
             b / m < b' / m || (b / m == b' / m && (c < c' || (c == c' && b % m < b' % m))))
  {
    hide Sum, Rank, Home, Aligned;
    var l, r := HomeParts(d, bn, c, b);
    var l', r' := HomeParts(d, bn', c', b');
    UnitOrder(Units(d.sizes, d.ileave), c, l, c', l');
    DivModOrder(bn, bn', d.ileave);
  }

  lemma UnitOrder(u: seq<nat>, c: nat, l: nat, d: nat, m: nat)
    requires c < |u| && u[c] > l && d < |u| && u[d] > m
    ensures Rank(u, c, l) < Rank(u, d, m) <==> l < m || (l == m && c < d)
    ensures Rank(u, c, l) == Rank(u, d, m) <==> l == m && c == d
  {
    RankOrder(u, c, l, d, m);
    RankOrder(u, d, m, c, l);
  }

  /** The documented example: components of 5, 3 and 7 blocks, interleaved by one. */
  lemma ThreeDisks()
    ensures var d := Disk([5, 3, 7], 1);
            Home(d, 0, 0, 0) && Home(d, 1, 1, 0) && Home(d, 2, 2, 0) && Home(d, 8, 2, 2) &&
            Home(d, 9, 0, 3) && Home(d, 10, 2, 3) && Home(d, 11, 0, 4) && Home(d, 12, 2, 4) &&
            Home(d, 13, 2, 5) && Home(d, 14, 2, 6)
  {
    var u := Units([5, 3, 7], 1);
    assert u == [5, 3, 7];
    forall l: nat ensures Below(u, l) == Min(5, l) + Min(3, l) + Min(7, l) {
      assert u[..2] == [5, 3] && u[..2][..1] == [5] && [5][..0] == [];
      assert Below([5], l) == Below([], l) + Min(5, l);
      assert Below([5, 3], l) == Below([5, 3][..1], l) + Min(3, l);
    }
    forall l: nat
      ensures |Above(u[..0], l)| == 0 && |Above(u[..1], l)| == (if 5 > l then 1 else 0)
      ensures |Above(u[..2], l)| == (if 5 > l then 1 else 0) + if 3 > l then 1 else 0
    {
      assert u[..0] == [] && u[..1] == [5] && u[..2] == [5, 3] && [5, 3][..1] == [5] && [5][..0] == [];
      assert Above([5], l) == Above([], l) + if 5 > l then [0] else [];
      assert Above([5, 3], l) == Above([5, 3][..1], l) + if 3 > l then [1] else [];
    }
    hide Below, Above;
  }
}
