/** A process's descriptor table: fdalloc, fdavail, dup2, finishdup, close, fdcopy, and the part of
    unp_externalize that depends on them. */
module FileDesc {
  import opened Common

  const NDFILE := 20
  const NDEXTENT := 50

  /** fd_ofiles (of fd_nfiles entries), fd_lastfile and fd_freefile. */
  datatype Table = Table(ofiles: seq<Option<nat>>, last: nat, free: nat)

  /** The sizes a table can have: NDFILE, or NDEXTENT doubled some number of times. */
  predicate Extent(n: nat) { n == NDEXTENT || (n > NDEXTENT && n % 2 == 0 && Extent(n / 2)) }

  predicate InUse(ofiles: seq<Option<nat>>, i: nat) { i < |ofiles| && ofiles[i].Some? }

  /** The hints are right: everything below free is in use, everything open is at most last. */
  ghost predicate Valid(t: Table) {
    (|t.ofiles| == NDFILE || Extent(|t.ofiles|)) && t.last < |t.ofiles| && t.free <= |t.ofiles| &&
    (forall i: nat :: i < t.free ==> InUse(t.ofiles, i)) && (forall i: nat :: InUse(t.ofiles, i) ==> i <= t.last)
  }

  /** Descriptors from lo to hi that are not in use. */
  function Unused(ofiles: seq<Option<nat>>, lo: nat, hi: nat): nat
    requires lo <= hi
    decreases hi
  {
    if lo == hi then 0 else Unused(ofiles, lo, hi - 1) + if InUse(ofiles, hi - 1) then 0 else 1
  }

  lemma {:induction false} UnusedSplit(o: seq<Option<nat>>, lo: nat, mid: nat, hi: nat)
    requires lo <= mid <= hi
    ensures Unused(o, lo, hi) == Unused(o, lo, mid) + Unused(o, mid, hi)
    decreases hi
  {
    if mid < hi { UnusedSplit(o, lo, mid, hi - 1); }
  }

  lemma {:induction false} UnusedNone(o: seq<Option<nat>>, lo: nat, hi: nat)
    requires lo <= hi && forall i: nat :: lo <= i < hi ==> InUse(o, i)
    ensures Unused(o, lo, hi) == 0
    decreases hi
  {
    if lo < hi { UnusedNone(o, lo, hi - 1); }
  }

  lemma {:induction false} UnusedSame(o: seq<Option<nat>>, p: seq<Option<nat>>, lo: nat, hi: nat)
    requires lo <= hi && forall i: nat :: lo <= i < hi ==> InUse(o, i) == InUse(p, i)
    ensures Unused(o, lo, hi) == Unused(p, lo, hi)
    decreases hi
  {
    if lo < hi { UnusedSame(o, p, lo, hi - 1); }
  }

  lemma {:induction false} UnusedBeyond(o: seq<Option<nat>>, lo: nat, hi: nat)
    requires |o| <= lo <= hi
    ensures Unused(o, lo, hi) == hi - lo
    decreases hi
  {
    if lo < hi { UnusedBeyond(o, lo, hi - 1); }
  }

  /** Taking one descriptor leaves one less. */
  lemma UnusedTake(o: seq<Option<nat>>, p: seq<Option<nat>>, i: nat, lim: nat)
    requires i < lim && !InUse(o, i) && InUse(p, i) && forall j: nat :: j != i ==> InUse(o, j) == InUse(p, j)
    ensures Unused(p, 0, lim) == Unused(o, 0, lim) - 1
  {
    UnusedSplit(o, 0, i, lim);
    UnusedSplit(p, 0, i, lim);
    UnusedSplit(o, i, i + 1, lim);
    UnusedSplit(p, i, i + 1, lim);
    UnusedSame(o, p, 0, i);
    UnusedSame(o, p, i + 1, lim);
    assert Unused(o, i, i + 1) == 1 && Unused(p, i, i + 1) == 0;
  }

  /** What fdalloc promises: the lowest descriptor from want on that is not in use, below the limit. */
  ghost predicate Lowest(o: seq<Option<nat>>, want: nat, lim: nat, r: nat) {
    want <= r < lim && !InUse(o, r) && forall i: nat :: want <= i < r ==> InUse(o, i)
  }

  ghost predicate SameUse(o: seq<Option<nat>>, p: seq<Option<nat>>) {
    |o| <= |p| && (forall i: nat :: i < |o| ==> p[i] == o[i]) && forall i: nat :: |o| <= i < |p| ==> p[i].None?
  }

  /** The next size of a full table. */
  function Grow(n: nat): nat { if n < NDEXTENT then NDEXTENT else 2 * n }

  lemma GrowSize(n: nat)
    requires n == NDFILE || Extent(n)
    ensures Extent(Grow(n)) && Grow(n) > n
  {
    if n != NDFILE { ExtentLarge(n); }
  }

  lemma ExtentLarge(n: nat)
    requires Extent(n)
    ensures n >= NDEXTENT
  {
  }

  lemma SameUseIn(o: seq<Option<nat>>, p: seq<Option<nat>>)
    requires SameUse(o, p)
    ensures forall i: nat :: InUse(o, i) <==> InUse(p, i)
  {
  }

  function Blank(n: nat): (r: seq<Option<nat>>)
    ensures |r| == n && forall i :: 0 <= i < n ==> r[i].None?
  {
    seq(n, _ => None)
  }

  lemma Enlarge(o: seq<Option<nat>>, t: Table)
    requires Valid(t) && SameUse(o, t.ofiles)
    ensures Grow(|t.ofiles|) > |t.ofiles|
    ensures var u := t.(ofiles := t.ofiles + Blank(Grow(|t.ofiles|) - |t.ofiles|)); Valid(u) && SameUse(o, u.ofiles)
  {
    GrowSize(|t.ofiles|);
    var u := t.(ofiles := t.ofiles + Blank(Grow(|t.ofiles|) - |t.ofiles|));
    SameUseIn(t.ofiles, u.ofiles);
  }

  /** The search loop of fdalloc. */
  method Scan(o: seq<Option<nat>>, from: nat, last: nat) returns (i: nat)
    requires last <= |o|
    ensures from <= i && (i < last ==> o[i].None?) && forall j: nat :: from <= j < i && j < last ==> InUse(o, j)
    ensures i < last || i == last || i == from
  {
    i := from;
    while i < last
      invariant from <= i && (i <= last || i == from) && forall j: nat :: from <= j < i && j < last ==> InUse(o, j)
    {
      if o[i].None? { return; }
      i := i + 1;
    }
  }

  class Filedesc {
    var t: Table

    /** fdalloc: the lowest free descriptor from want on, or failure exactly when there is none below
        the limit, which is the smaller of the process's and the system's. It may enlarge the table
        even when it fails. */
    method Fdalloc(want: nat, lim: nat) returns (ok: bool, r: nat)
      requires Valid(t)
      modifies this
      ensures Valid(t) && SameUse(old(t.ofiles), t.ofiles)
      ensures ok ==> Lowest(old(t.ofiles), want, lim, r) && r < |t.ofiles| && r <= t.last
      ensures !ok ==> forall i: nat :: want <= i < lim ==> InUse(old(t.ofiles), i)
    {
      hide Extent;
      ghost var o := t.ofiles;
      while true
        invariant Valid(t) && SameUse(o, t.ofiles)
        decreases lim - |t.ofiles|
      {
        SameUseIn(o, t.ofiles);
        var last := if |t.ofiles| <= lim then |t.ofiles| else lim;
        var i := Scan(t.ofiles, if want < t.free then t.free else want, last);
        if i < last {
          if i > t.last { t := t.(last := i); }
          if want <= t.free { t := t.(free := i); }
          return true, i;
        }
        if |t.ofiles| >= lim { return false, 0; }
        Enlarge(o, t);
        t := t.(ofiles := t.ofiles + Blank(Grow(|t.ofiles|) - |t.ofiles|));
      }
    }

    /** Enter a file at a descriptor that fdalloc returned, or that dup2 was given. */
    method Set(fd: nat, file: nat)
      requires Valid(t) && fd < |t.ofiles|
      modifies this
      ensures Valid(t) && t.ofiles == old(t.ofiles)[fd := Some(file)]
    {
      ghost var o := t.ofiles;
      t := t.(ofiles := t.ofiles[fd := Some(file)]);
      if fd > t.last { t := t.(last := fd); }
      assert forall i: nat :: InUse(t.ofiles, i) <==> InUse(o, i) || i == fd;
    }

    /** close: the descriptor is free, the hints move down. */
    method Close(fd: nat) returns (file: Option<nat>)
      requires Valid(t)
      modifies this
      ensures Valid(t) && file == if fd < |old(t.ofiles)| then old(t.ofiles)[fd] else None
      ensures t.ofiles == if file.Some? then old(t.ofiles)[fd := None] else old(t.ofiles)
      ensures file.Some? ==> t.last == 0 || InUse(t.ofiles, t.last)
    {
      if fd >= |t.ofiles| || t.ofiles[fd].None? { return None; }
      file := t.ofiles[fd];
      ghost var o := t.ofiles;
      t := t.(ofiles := t.ofiles[fd := None]);
      assert forall i: nat :: InUse(t.ofiles, i) <==> InUse(o, i) && i != fd;
      while t.last > 0 && t.ofiles[t.last].None?
        invariant t.ofiles == o[fd := None] && t.last < |o| && t.free == old(t.free)
        invariant forall i: nat :: InUse(t.ofiles, i) ==> i <= t.last
        decreases t.last
      {
        t := t.(last := t.last - 1);
      }
      if fd < t.free { t := t.(free := fd); }
    }
  
    /** fdavail: whether n more descriptors can be had. It counts the whole table, even the part above
        a limit that has been lowered since. */
    method Fdavail(n0: nat, lim: nat) returns (ok: bool)
      requires Valid(t)
      ensures n0 > 0 ==> (ok <==> n0 <= Unused(t.ofiles, 0, Larger(lim, |t.ofiles|)))
      ensures n0 == 0 ==> (ok <==> 0 < Unused(t.ofiles, 0, Larger(lim, |t.ofiles|)))
    {
      hide Extent, Unused;
      AvailCount(t, lim);
      var n: int := n0;
      var extra := lim - |t.ofiles|;
      if extra > 0 {
        n := n - extra;
        if n <= 0 { return true; }
      }
      var i := t.free;
      UnusedStart(t.ofiles, i);
      while i < |t.ofiles|
        invariant t.free <= i <= |t.ofiles|
        invariant n + Unused(t.ofiles, t.free, i) == n0 - (if extra > 0 then extra else 0)
        invariant i == t.free || Unused(t.ofiles, t.free, i) == 0 || n > 0
      {
        UnusedNext(t.ofiles, t.free, i);
        UnusedSplit(t.ofiles, t.free, i + 1, |t.ofiles|);
        if t.ofiles[i].None? {
          n := n - 1;
          if n <= 0 { return true; }
        }
        i := i + 1;
      }
      return false;
    }

    /** The descriptors unp_externalize hands out. It panics exactly when the limit was lowered below
        the table and too few descriptors are left under it. */
    method Externalize(files: seq<nat>, lim: nat) returns (r: Outcome)
      requires Valid(t)
      modifies this
      ensures Valid(t)
      ensures r.TooMany? ==> t == old(t)
      ensures r.TooMany? <==> Larger(1, |files|) > Unused(old(t.ofiles), 0, Larger(lim, |old(t.ofiles)|))
      ensures r.Panic? <==>
              Unused(old(t.ofiles), 0, lim) < |files| <= Unused(old(t.ofiles), 0, Larger(lim, |old(t.ofiles)|))
      ensures r.Done? ==> Placed(old(t.ofiles), t.ofiles, files, r.fds)
    {
      hide Extent, Unused, Placed, Valid;
      var avail := Fdavail(|files|, lim);
      LargerUnused(t.ofiles, lim);
      if !avail { return TooMany; }
      ghost var o := t.ofiles;
      var fds, i := [], 0;
      PlacedNone(o, files);
      while i < |files|
        invariant 0 <= i <= |files| && Valid(t) && Placed(o, t.ofiles, files[..i], fds)
        invariant Unused(t.ofiles, 0, lim) + i == Unused(o, 0, lim)
      {
        ghost var p := t.ofiles;
        var ok, f := Fdalloc(0, lim);
        if !ok {
          UnusedNone(p, 0, lim);
          return Panic;
        }
        SameUseIn(p, t.ofiles);
        ghost var q := t.ofiles;
        Set(f, files[i]);
        UnusedTake(p, t.ofiles, f, lim);
        PlacedNext(o, p, q, files, i, fds, f);
        fds := fds + [f];
        i := i + 1;
      }
      assert files[..i] == files;
      return Done(fds);
    }

    /** dup2. Its panic cannot be reached: past the table, fdalloc returns the very descriptor. */
    method Dup2(from: nat, to: nat, lim: nat) returns (ok: bool, panic: bool, closed: Option<nat>)
      requires Valid(t)
      modifies this
      ensures Valid(t) && !panic && (ok <==> InUse(old(t.ofiles), from) && to < lim)
      ensures ok ==> InUse(t.ofiles, to) && t.ofiles[to] == old(t.ofiles)[from]
      ensures ok ==> forall i: nat :: i != to ==>
              (InUse(t.ofiles, i) <==> InUse(old(t.ofiles), i)) &&
              (InUse(t.ofiles, i) ==> t.ofiles[i] == old(t.ofiles)[i])
      ensures !ok ==> t == old(t)
      ensures closed == if ok && from != to && InUse(old(t.ofiles), to) then old(t.ofiles)[to] else None
    {
      hide Extent;
      panic, closed, ok := false, None, false;
      if from >= |t.ofiles| || t.ofiles[from].None? || to >= lim { return; }
      ok := true;
      if from == to { return; }
      var file := t.ofiles[from].value;
      ghost var o := t.ofiles;
      if to >= |t.ofiles| {
        assert !InUse(o, to);
        var got, i := Fdalloc(to, lim);
        if !got || i != to {
          panic := true;
          return;
        }
        SameUseIn(o, t.ofiles);
      } else if t.ofiles[to].Some? {
        closed := t.ofiles[to];
      }
      Set(to, file);
    }
  }

  datatype Outcome = TooMany | Panic | Done(fds: seq<nat>)

  function Larger(a: nat, b: nat): nat { if a >= b then a else b }

  lemma UnusedStart(o: seq<Option<nat>>, i: nat)
    ensures Unused(o, i, i) == 0
  {
  }

  lemma UnusedNext(o: seq<Option<nat>>, lo: nat, i: nat)
    requires lo <= i
    ensures Unused(o, lo, i + 1) == Unused(o, lo, i) + if InUse(o, i) then 0 else 1
  {
  }

  lemma AvailCount(t: Table, lim: nat)
    requires Valid(t)
    ensures Unused(t.ofiles, 0, Larger(lim, |t.ofiles|)) ==
      Unused(t.ofiles, t.free, |t.ofiles|) + if lim > |t.ofiles| then lim - |t.ofiles| else 0
  {
    hide Extent, Unused;
    var n, m := |t.ofiles|, Larger(lim, |t.ofiles|);
    UnusedSplit(t.ofiles, 0, n, m);
    UnusedSplit(t.ofiles, 0, t.free, n);
    UnusedNone(t.ofiles, 0, t.free);
    UnusedBeyond(t.ofiles, n, m);
  }

  lemma LargerUnused(o: seq<Option<nat>>, lim: nat)
    ensures Unused(o, 0, lim) <= Unused(o, 0, Larger(lim, |o|))
  {
    hide Unused;
    UnusedSplit(o, 0, lim, Larger(lim, |o|));
  }

  /** The files are at descriptors that were free, one each, and nothing else has changed. */
  ghost predicate Placed(o: seq<Option<nat>>, p: seq<Option<nat>>, files: seq<nat>, fds: seq<nat>) {
    |fds| == |files| && |o| <= |p| &&
    (forall j :: 0 <= j < |fds| ==> fds[j] < |p| && !InUse(o, fds[j]) && p[fds[j]] == Some(files[j])) &&
    (forall i, j :: 0 <= i < j < |fds| ==> fds[i] != fds[j]) &&
    (forall x: nat :: InUse(o, x) ==> x < |p| && p[x] == o[x]) &&
    (forall x: nat :: InUse(p, x) ==> InUse(o, x) || x in fds)
  }

  lemma PlacedNone(o: seq<Option<nat>>, files: seq<nat>)
    ensures Placed(o, o, files[..0], [])
  {
  }

  lemma PlacedNext(o: seq<Option<nat>>, p: seq<Option<nat>>, q: seq<Option<nat>>, files: seq<nat>, i: nat,
      fds: seq<nat>, f: nat)
    requires i < |files| && Placed(o, p, files[..i], fds) && SameUse(p, q) && f < |q| && !InUse(p, f)
    ensures Placed(o, q[f := Some(files[i])], files[..i + 1], fds + [f])
  {
    var r, fds' := q[f := Some(files[i])], fds + [f];
    forall j | 0 <= j < |fds|
      ensures fds[j] != f && r[fds[j]] == Some(files[j])
    {
      assert InUse(p, fds[j]);
      assert files[..i][j] == files[j];
    }
    forall x: nat | InUse(r, x)
      ensures InUse(o, x) || x in fds'
    {
      if x != f {
        assert InUse(p, x);
        if x in fds {
          var j :| 0 <= j < |fds| && fds[j] == x;
          assert fds'[j] == x;
        }
      } else {
        assert fds'[|fds|] == f;
      }
    }
  }

  // ---------- fork ----------

  /** In how many of the first n places a file stands. */
  function Places(o: seq<Option<nat>>, f: nat, n: nat): nat
    requires n <= |o|
  {
    if n == 0 then 0 else Places(o, f, n - 1) + if o[n - 1] == Some(f) then 1 else 0
  }

  lemma {:induction false} PlacesRest(o: seq<Option<nat>>, f: nat, n: nat, m: nat)
    requires n <= m <= |o| && forall i :: n <= i < m ==> o[i].None?
    ensures Places(o, f, m) == Places(o, f, n)
  {
    if n < m { PlacesRest(o, f, n, m - 1); }
  }

  /** How large a table fdcopy makes: it may shrink, but covers every open descriptor. */
  method CopySize(n: nat, last: nat) returns (i: nat)
    requires (n == NDFILE || Extent(n)) && last < n
    ensures last < i <= n || i == NDFILE > last
    ensures i == NDFILE || Extent(i)
  {
    if last < NDFILE { return NDFILE; }
    i := n;
    while i > 2 * NDEXTENT && i > last * 2
      invariant last < i <= n && Extent(i)
    {
      i := i / 2;
    }
  }

  /** fdcopy: the child's table has the same descriptors, and every file has one more reference for
      each of them. */
  method Fdcopy(t: Table, counts: seq<int>) returns (u: Table, c: seq<int>)
    requires Valid(t) && forall i :: 0 <= i < |t.ofiles| && t.ofiles[i].Some? ==> t.ofiles[i].value < |counts|
    ensures Valid(u) && u.last == t.last && u.free == t.free
    ensures forall i: nat :: InUse(t.ofiles, i) <==> InUse(u.ofiles, i)
    ensures forall i: nat :: InUse(t.ofiles, i) ==> u.ofiles[i] == t.ofiles[i]
    ensures |c| == |counts| && forall f :: 0 <= f < |c| ==> c[f] == counts[f] + Places(t.ofiles, f, |t.ofiles|)
  {
    hide Extent, Places;
    AtLeast(t);
    var n := CopySize(|t.ofiles|, t.last);
    u := Table(t.ofiles[..n], t.last, t.free);
    assert forall i: nat :: InUse(t.ofiles, i) <==> InUse(u.ofiles, i);
    FreeBound(t);
    c := counts;
    NoPlaces(t.ofiles);
    for i := 0 to t.last + 1
      invariant |c| == |counts| && forall f :: 0 <= f < |c| ==> c[f] == counts[f] + Places(t.ofiles, f, i)
    {
      NextPlace(t.ofiles, i);
      if u.ofiles[i].Some? {
        var f := u.ofiles[i].value;
        c := c[f := c[f] + 1];
      }
    }
    forall f | 0 <= f < |c|
      ensures c[f] == counts[f] + Places(t.ofiles, f, |t.ofiles|)
    {
      forall i | t.last + 1 <= i < |t.ofiles|
        ensures t.ofiles[i].None?
      {
        assert !InUse(t.ofiles, i);
      }
      PlacesRest(t.ofiles, f, t.last + 1, |t.ofiles|);
    }
  }

  lemma AtLeast(t: Table)
    requires Valid(t)
    ensures |t.ofiles| >= NDFILE
  {
    if |t.ofiles| != NDFILE { ExtentLarge(|t.ofiles|); }
  }

  lemma FreeBound(t: Table)
    requires Valid(t)
    ensures t.free <= t.last + 1
  {
    hide Extent;
    if t.free > 0 { assert InUse(t.ofiles, t.free - 1); }
  }

  lemma NoPlaces(o: seq<Option<nat>>)
    ensures forall f: nat :: Places(o, f, 0) == 0
  {
  }

  lemma NextPlace(o: seq<Option<nat>>, i: nat)
    requires i < |o|
    ensures forall f: nat :: Places(o, f, i + 1) == Places(o, f, i) + if o[i] == Some(f) then 1 else 0
  {
  }

  // ---------- a lowered limit ----------

  /** Descriptors 0 to 9 open in a table of NDEXTENT. */
  function TenOpen(): (t: Table)
    ensures Valid(t)
  {
    Table(seq(NDEXTENT, i => if i < 10 then Some(0) else None), 9, 10)
  }

  /** With the limit lowered to 10 nothing is free under it, but fdavail sees the slots above. */
  lemma TenOpenCounts()
    ensures Unused(TenOpen().ofiles, 0, 10) == 0
    ensures Unused(TenOpen().ofiles, 0, Larger(10, |TenOpen().ofiles|)) == NDEXTENT - 10
  {
    var o := TenOpen().ofiles;
    UnusedNone(o, 0, 10);
    UnusedSplit(o, 0, 10, NDEXTENT);
    AllUnused(o, 10, NDEXTENT);
  }

  /** A message with one right arrives then, and unp_externalize panics. */
  method ExternalizePanics(f: Filedesc) returns (r: Outcome)
    requires f.t == TenOpen()
    modifies f
    ensures r == Panic
    ensures Unused(TenOpen().ofiles, 0, 10) < 1 <= Unused(TenOpen().ofiles, 0, Larger(10, |TenOpen().ofiles|))
  {
    TenOpenCounts();
    hide Unused, TenOpen;
    r := f.Externalize([0], 10);
  }

  lemma {:induction false} AllUnused(o: seq<Option<nat>>, lo: nat, hi: nat)
    requires lo <= hi && forall i: nat :: lo <= i < hi ==> !InUse(o, i)
    ensures Unused(o, lo, hi) == hi - lo
    decreases hi
  {
    if lo < hi { AllUnused(o, lo, hi - 1); }
  }
}
