/** The name cache: cache_lookup, cache_enter and cache_purge. The reference is a map from
    (directory, name) to what was entered last, from which a purged vnode takes everything that
    mentions it. */
module NameCache {
  import opened Common

  /** struct namecache; hashed says that nc_hash.le_prev is set. vpid is the capability number
      of vp, or the whiteout flag of a negative entry. */
  datatype Nc = Nc(hashed: bool, dvp: nat, dvpid: nat, vp: Option<nat>, vpid: nat, name: seq<nat>)

  /** The entries, the LRU list and hash chains of entry numbers, v_id of each vnode, nextvnodeid. */
  datatype State = State(nc: seq<Nc>, lru: seq<nat>, chains: seq<seq<nat>>, ids: seq<nat>, nextid: nat)

  datatype Key = Key(dvp: nat, name: seq<nat>)

  datatype Target = Vnode(v: nat) | Absent(flag: nat)

  // ---------- lists ----------

  function Without(c: seq<nat>, e: nat): seq<nat> {
    if c == [] then [] else if c[0] == e then Without(c[1..], e) else [c[0]] + Without(c[1..], e)
  }

  lemma {:induction false} WithoutHas(c: seq<nat>, e: nat)
    ensures forall x :: x in Without(c, e) <==> x in c && x != e
    ensures |Without(c, e)| <= |c| && (e in c ==> |Without(c, e)| < |c|)
  {
    if c != [] {
      WithoutHas(c[1..], e);
    }
  }

  lemma {:induction false} WithoutNoDup(c: seq<nat>, e: nat)
    requires NoDup(c)
    ensures NoDup(Without(c, e))
  {
    if c != [] {
      WithoutNoDup(c[1..], e);
      WithoutHas(c[1..], e);
      var r := Without(c[1..], e);
      forall j | 0 <= j < |r|
        ensures r[j] != c[0]
      {
        assert r[j] in r;
      }
    }
  }

  /** Entries that are not hashed come first. */
  predicate FreeFirst(nc: seq<Nc>, l: seq<nat>)
    requires forall i :: 0 <= i < |l| ==> l[i] < |nc|
  {
    l == [] || (if nc[l[0]].hashed then forall i :: 0 <= i < |l| ==> nc[l[i]].hashed else FreeFirst(nc, l[1..]))
  }

  lemma {:induction false} FreeFirstWithout(nc: seq<Nc>, nc': seq<Nc>, l: seq<nat>, e: nat)
    requires |nc'| >= |nc| && (forall i :: 0 <= i < |l| ==> l[i] < |nc|)
    requires forall x :: 0 <= x < |nc| && x != e ==> nc'[x].hashed == nc[x].hashed
    requires FreeFirst(nc, l)
    ensures forall i :: 0 <= i < |Without(l, e)| ==> Without(l, e)[i] < |nc|
    ensures FreeFirst(nc', Without(l, e))
  {
    WithoutIn(l, e, |nc|);
    if l != [] {
      WithoutIn(l[1..], e, |nc|);
      if nc[l[0]].hashed {
        AllHashed(nc, nc', l, e);
      } else {
        FreeFirstWithout(nc, nc', l[1..], e);
        var r := Without(l[1..], e);
        assert ([l[0]] + r)[1..] == r;
      }
    }
  }

  lemma WithoutIn(l: seq<nat>, e: nat, n: nat)
    requires forall i :: 0 <= i < |l| ==> l[i] < n
    ensures forall i :: 0 <= i < |Without(l, e)| ==> Without(l, e)[i] < n
  {
    WithoutHas(l, e);
    forall i | 0 <= i < |Without(l, e)|
      ensures Without(l, e)[i] < n
    {
      assert Without(l, e)[i] in Without(l, e);
    }
  }

  lemma AllHashed(nc: seq<Nc>, nc': seq<Nc>, l: seq<nat>, e: nat)
    requires |nc'| >= |nc| && (forall i :: 0 <= i < |l| ==> l[i] < |nc| && nc[l[i]].hashed)
    requires forall x :: 0 <= x < |nc| && x != e ==> nc'[x].hashed == nc[x].hashed
    requires forall i :: 0 <= i < |Without(l, e)| ==> Without(l, e)[i] < |nc|
    ensures FreeFirst(nc', Without(l, e))
  {
    WithoutHas(l, e);
    forall i | 0 <= i < |Without(l, e)|
      ensures nc'[Without(l, e)[i]].hashed
    {
      var x := Without(l, e)[i];
      assert x in Without(l, e);
    }
  }

  lemma {:induction false} FreeFirstSnoc(nc: seq<Nc>, l: seq<nat>, e: nat)
    requires (forall i :: 0 <= i < |l| ==> l[i] < |nc|) && e < |nc| && nc[e].hashed && FreeFirst(nc, l)
    ensures FreeFirst(nc, l + [e])
  {
    if l != [] && !nc[l[0]].hashed {
      FreeFirstSnoc(nc, l[1..], e);
      assert (l + [e])[1..] == l[1..] + [e];
    }
  }

  // ---------- what the cache holds ----------

  const NCHNAMLEN := 31

  /** cn_hash. */
  function NameSum(name: seq<nat>): nat { if name == [] then 0 else name[0] + NameSum(name[1..]) }

  function Bucket(vid: nat, name: seq<nat>, n: nat): nat
    requires n > 0
  {
    (vid + NameSum(name)) % n
  }

  function KeyOf(x: Nc): Key { Key(x.dvp, x.name) }

  function TargetOf(x: Nc): Target { if x.vp.Some? then Vnode(x.vp.value) else Absent(x.vpid) }

  /** Neither vnode has been purged since the entry was made. */
  predicate Fresh(ids: seq<nat>, x: Nc) {
    x.dvp < |ids| && x.dvpid == ids[x.dvp] && (x.vp.Some? ==> x.vp.value < |ids| && x.vpid == ids[x.vp.value])
  }

  predicate Live(s: State, e: nat) { e < |s.nc| && s.nc[e].hashed && Fresh(s.ids, s.nc[e]) }

  ghost predicate Listed(s: State) {
    NoDup(s.lru) && (forall i :: 0 <= i < |s.lru| ==> s.lru[i] < |s.nc|) &&
        (forall e :: 0 <= e < |s.nc| ==> e in s.lru) &&
    FreeFirst(s.nc, s.lru)
  }

  /** Every hashed entry is in the chain of the directory's v_id at the time it was entered, and
      nowhere else. */
  ghost predicate InChain(s: State, b: nat, x: nat)
    requires b < |s.chains|
  {
    x in s.chains[b] <==> x < |s.nc| && s.nc[x].hashed && Bucket(s.nc[x].dvpid, s.nc[x].name, |s.chains|) == b
  }

  ghost predicate Chained(s: State) {
    |s.chains| > 0 && (forall b :: 0 <= b < |s.chains| ==> NoDup(s.chains[b])) &&
    forall b, x: nat :: 0 <= b < |s.chains| ==> InChain(s, b, x)
  }

  ghost predicate Numbered(s: State) {
    (forall v :: 0 <= v < |s.ids| ==> s.ids[v] <= s.nextid) &&
    forall e :: 0 <= e < |s.nc| ==> s.nc[e].dvpid <= s.nextid && (s.nc[e].vp.Some? ==> s.nc[e].vpid <= s.nextid)
  }

  ghost predicate Unique(s: State) {
    forall x: nat, y: nat :: Live(s, x) && Live(s, y) && KeyOf(s.nc[x]) == KeyOf(s.nc[y]) ==> x == y
  }

  ghost predicate Agrees(s: State, know: map<Key, Target>) {
    forall e: nat :: Live(s, e) ==> KeyOf(s.nc[e]) in know && know[KeyOf(s.nc[e])] == TargetOf(s.nc[e])
  }

  ghost predicate Inv(s: State) { Listed(s) && Chained(s) && Numbered(s) && Unique(s) }

  // ---------- PURGE and TOUCH ----------

  function Unhash(s: State, e: nat): State
    requires e < |s.nc| && |s.chains| > 0
  {
    var b := Bucket(s.nc[e].dvpid, s.nc[e].name, |s.chains|);
    s.(nc := s.nc[e := s.nc[e].(hashed := false)], chains := s.chains[b := Without(s.chains[b], e)])
  }

  function Purge(s: State, e: nat): State
    requires e < |s.nc| && |s.chains| > 0
  {
    Unhash(s, e).(lru := [e] + Without(s.lru, e))
  }

  function Touch(s: State, e: nat): State {
    if s.lru != [] && s.lru[|s.lru| - 1] == e then s else s.(lru := Without(s.lru, e) + [e])
  }

  lemma UnhashChained(s: State, e: nat)
    requires Chained(s) && e < |s.nc|
    ensures Chained(Unhash(s, e))
  {
    var b := Bucket(s.nc[e].dvpid, s.nc[e].name, |s.chains|);
    var t := Unhash(s, e);
    WithoutHas(s.chains[b], e);
    WithoutNoDup(s.chains[b], e);
    forall d, x: nat | 0 <= d < |s.chains|
      ensures InChain(t, d, x)
    {
      assert InChain(s, d, x);
    }
  }

  lemma UnhashLive(s: State, e: nat)
    requires e < |s.nc| && |s.chains| > 0
    ensures forall x: nat :: Live(Unhash(s, e), x) <==> Live(s, x) && x != e
  {
  }

  lemma PurgeKeeps(s: State, e: nat)
    requires Inv(s) && e < |s.nc|
    ensures Inv(Purge(s, e)) && forall x: nat :: Live(Purge(s, e), x) <==> Live(s, x) && x != e
  {
    hide FreeFirst, InChain, Bucket;
    UnhashChained(s, e);
    UnhashLive(s, e);
    var t := Purge(s, e);
    ChainedSame(Unhash(s, e), t);
    PurgeListed(s, e);
  }

  /** Chains do not depend on the LRU list. */
  lemma ChainedSame(s: State, t: State)
    requires Chained(s) && t.nc == s.nc && t.chains == s.chains
    ensures Chained(t)
  {
    forall b, x: nat | 0 <= b < |t.chains|
      ensures InChain(t, b, x)
    {
      assert InChain(s, b, x);
    }
  }

  lemma PurgeListed(s: State, e: nat)
    requires Listed(s) && e < |s.nc| && |s.chains| > 0
    ensures Listed(Purge(s, e))
  {
    hide Bucket;
    var t, w := Purge(s, e), Without(s.lru, e);
    WithoutHas(s.lru, e);
    WithoutNoDup(s.lru, e);
    WithoutIn(s.lru, e, |s.nc|);
    FreeFirstWithout(s.nc, t.nc, s.lru, e);
    assert t.lru[1..] == w;
    forall j | 0 <= j < |w|
      ensures w[j] != e
    {
      assert w[j] in w;
    }
    forall x | 0 <= x < |t.nc|
      ensures x in t.lru
    {
      assert x in s.lru;
    }
  }

  lemma TouchKeeps(s: State, e: nat)
    requires Inv(s) && e < |s.nc| && s.nc[e].hashed
    ensures Inv(Touch(s, e)) && Touch(s, e).nc == s.nc && Touch(s, e).ids == s.ids
  {
    hide FreeFirst;
    var t := Touch(s, e);
    ChainedSame(s, t);
    if t != s {
      TailListed(s, e);
    }
  }

  lemma TailListed(s: State, e: nat)
    requires Listed(s) && e < |s.nc| && s.nc[e].hashed
    ensures Listed(s.(lru := Without(s.lru, e) + [e]))
  {
    var w := Without(s.lru, e);
    WithoutHas(s.lru, e);
    WithoutNoDup(s.lru, e);
    WithoutIn(s.lru, e, |s.nc|);
    FreeFirstWithout(s.nc, s.nc, s.lru, e);
    FreeFirstSnoc(s.nc, w, e);
    forall j | 0 <= j < |w|
      ensures w[j] != e
    {
      assert w[j] in w;
    }
    forall x | 0 <= x < |s.nc|
      ensures x in w + [e]
    {
      assert x in s.lru;
    }
  }

  // ---------- lookup ----------

  /** A live entry for this name. */
  ghost predicate Named(s: State, e: nat, k: Key) { Live(s, e) && KeyOf(s.nc[e]) == k }

  /** The same entries, in t perhaps fewer of them hashed. */
  ghost predicate SameEntries(s: State, t: State) {
    |s.nc| == |t.nc| && s.ids == t.ids && s.nextid == t.nextid && |s.chains| == |t.chains| &&
    forall x :: 0 <= x < |s.nc| ==> t.nc[x] == s.nc[x].(hashed := t.nc[x].hashed)
  }

  ghost predicate SameLive(s: State, t: State) { forall x: nat :: Live(t, x) <==> Live(s, x) }

  lemma {:induction false} WithoutAt(c: seq<nat>, i: nat)
    requires NoDup(c) && i < |c|
    ensures Without(c, c[i]) == c[..i] + c[i + 1..]
  {
    if i == 0 {
      WithoutNone(c[1..], c[0]);
    } else {
      WithoutAt(c[1..], i - 1);
      assert c[1..][i - 1] == c[i] && c[..i] == [c[0]] + c[1..][..i - 1] && c[1..][i..] == c[i + 1..];
    }
  }

  lemma {:induction false} WithoutNone(c: seq<nat>, e: nat)
    requires e !in c
    ensures Without(c, e) == c
  {
    if c != [] {
      WithoutNone(c[1..], e);
    }
  }

  /** A live entry lies in the chain that is searched for its name. */
  lemma FoundInBucket(s: State, e: nat, k: Key)
    requires Chained(s) && Named(s, e, k) && k.dvp < |s.ids|
    ensures e in s.chains[Bucket(s.ids[k.dvp], k.name, |s.chains|)]
  {
    var b := Bucket(s.ids[k.dvp], k.name, |s.chains|);
    assert InChain(s, b, e);
  }

  /** Purging a stale entry from position i of chain b loses nothing. */
  lemma PurgeStale(s: State, b: nat, i: nat)
    requires Inv(s) && b < |s.chains| && i < |s.chains[b]|
    ensures s.chains[b][i] < |s.nc| && s.nc[s.chains[b][i]].hashed
    ensures var e := s.chains[b][i];
            var t := Purge(s, e);
            !Fresh(s.ids, s.nc[e]) ==>
              Inv(t) && SameEntries(s, t) && SameLive(s, t) &&
              t.chains[b] == s.chains[b][..i] + s.chains[b][i + 1..]
  {
    hide FreeFirst, Bucket;
    var e := s.chains[b][i];
    assert InChain(s, b, e);
    if !Fresh(s.ids, s.nc[e]) {
      PurgeKeeps(s, e);
      WithoutAt(s.chains[b], i);
    }
  }

  lemma SameLiveAgrees(s: State, t: State, know: map<Key, Target>)
    requires SameEntries(s, t) && SameLive(s, t) && Agrees(s, know)
    ensures Agrees(t, know)
  {
  }

  datatype Answer = Miss | Hit(v: nat) | Negative(flag: nat)

  /** Everything that mentions v is forgotten. */
  ghost function Forget(know: map<Key, Target>, v: nat): map<Key, Target> {
    map k | k in know && k.dvp != v && know[k] != Vnode(v) :: know[k]
  }

  // ---------- filling an entry ----------

  /** Put x in entry e, at the tail of the LRU list and the head of its chain. */
  function Fill(s: State, e: nat, x: Nc): State
    requires e < |s.nc| && |s.chains| > 0
  {
    var b := Bucket(x.dvpid, x.name, |s.chains|);
    s.(nc := s.nc[e := x], lru := Without(s.lru, e) + [e], chains := s.chains[b := [e] + s.chains[b]])
  }

  ghost predicate Fillable(s: State, e: nat, x: Nc) {
    Inv(s) && e < |s.nc| && !s.nc[e].hashed && x.hashed && Fresh(s.ids, x) && x.dvpid <= s.nextid &&
        (x.vp.Some? ==> x.vpid <= s.nextid)
  }

  lemma FillLive(s: State, e: nat, x: Nc)
    requires Fillable(s, e, x)
    ensures forall y: nat :: Live(Fill(s, e, x), y) <==> Live(s, y) || y == e
  {
  }

  lemma FillChained(s: State, e: nat, x: Nc)
    requires Fillable(s, e, x)
    ensures Chained(Fill(s, e, x))
  {
    hide FreeFirst, Bucket;
    var b, t := Bucket(x.dvpid, x.name, |s.chains|), Fill(s, e, x);
    BucketIn(x.dvpid, x.name, |s.chains|);
    assert InChain(s, b, e);
    forall d, y: nat | 0 <= d < |t.chains|
      ensures InChain(t, d, y)
    {
      assert InChain(s, d, y);
    }
  }

  lemma FillListed(s: State, e: nat, x: Nc)
    requires Fillable(s, e, x)
    ensures Listed(Fill(s, e, x))
  {
    hide Bucket, InChain, Unique;
    var t, w := Fill(s, e, x), Without(s.lru, e);
    WithoutHas(s.lru, e);
    WithoutNoDup(s.lru, e);
    WithoutIn(s.lru, e, |s.nc|);
    FreeFirstWithout(s.nc, t.nc, s.lru, e);
    FreeFirstSnoc(t.nc, w, e);
    forall j | 0 <= j < |w|
      ensures w[j] != e
    {
      assert w[j] in w;
    }
    forall y | 0 <= y < |t.nc|
      ensures y in t.lru
    {
      assert y in s.lru;
    }
  }

  /** Names stay unique if and only if there was no live entry for this one: cache_enter has to
      follow a miss. */
  lemma FillUnique(s: State, e: nat, x: Nc)
    requires Fillable(s, e, x)
    ensures Inv(Fill(s, e, x)) <==> forall y: nat :: !Named(s, y, KeyOf(x))
  {
    hide FreeFirst, Bucket, InChain;
    FillLive(s, e, x);
    FillChained(s, e, x);
    FillListed(s, e, x);
    var t := Fill(s, e, x);
    if y: nat :| Named(s, y, KeyOf(x)) {
      assert Live(t, y) && Live(t, e) && y != e;
    } else {
      forall a: nat, b: nat | Live(t, a) && Live(t, b) && KeyOf(t.nc[a]) == KeyOf(t.nc[b])
        ensures a == b
      {
        assert !Named(s, a, KeyOf(x)) && !Named(s, b, KeyOf(x));
      }
    }
  }

  lemma FillAgrees(s: State, e: nat, x: Nc, know: map<Key, Target>)
    requires Fillable(s, e, x) && Agrees(s, know) && forall y: nat :: !Named(s, y, KeyOf(x))
    ensures Agrees(Fill(s, e, x), know[KeyOf(x) := TargetOf(x)])
  {
    hide FreeFirst, Bucket, InChain;
    FillLive(s, e, x);
    var t := Fill(s, e, x);
    forall y: nat | Live(t, y)
      ensures KeyOf(t.nc[y]) in know[KeyOf(x) := TargetOf(x)] &&
              know[KeyOf(x) := TargetOf(x)][KeyOf(t.nc[y])] == TargetOf(t.nc[y])
    {
      if y != e { assert !Named(s, y, KeyOf(x)); }
    }
  }

  function Blank(): Nc { Nc(false, 0, 0, None, 0, []) }

  /** One more entry, not hashed. */
  function Extend(s: State): State { s.(nc := s.nc + [Blank()], lru := [|s.nc|] + s.lru) }

  lemma ExtendKeeps(s: State)
    requires Inv(s)
    ensures Inv(Extend(s)) && forall y: nat :: Live(Extend(s), y) <==> Live(s, y)
  {
    hide Bucket;
    var t := Extend(s);
    assert t.lru[1..] == s.lru;
    FreeFirstSame(s.nc, t.nc, s.lru);
    forall b, x: nat | 0 <= b < |t.chains|
      ensures InChain(t, b, x)
    {
      assert InChain(s, b, x);
    }
    forall x | 0 <= x < |t.nc|
      ensures x in t.lru
    {
      if x < |s.nc| { assert x in s.lru; }
    }
  }

  lemma {:induction false} FreeFirstSame(nc: seq<Nc>, nc': seq<Nc>, l: seq<nat>)
    requires |nc| <= |nc'| && (forall i :: 0 <= i < |l| ==> l[i] < |nc|) &&
             (forall x :: 0 <= x < |nc| ==> nc'[x].hashed == nc[x].hashed)
    requires FreeFirst(nc, l)
    ensures FreeFirst(nc', l)
  {
    if l != [] && !nc[l[0]].hashed {
      FreeFirstSame(nc, nc', l[1..]);
    }
  }

  /** Taking a hashed entry out of its chain, wherever it is in the LRU list, if all are hashed. */
  lemma RecycleKeeps(s: State)
    requires Inv(s) && s.lru != []
    ensures s.lru[0] < |s.nc| && Inv(Unhash(s, s.lru[0])) && forall x: nat :: Live(Unhash(s, s.lru[0]), x) <==>
            Live(s, x) && x != s.lru[0]
  {
    hide Bucket;
    var e := s.lru[0];
    var t := Unhash(s, e);
    UnhashChained(s, e);
    UnhashLive(s, e);
    RecycleFree(s.nc, t.nc, s.lru);
  }

  lemma RecycleFree(nc: seq<Nc>, nc': seq<Nc>, l: seq<nat>)
    requires l != [] && NoDup(l) && (forall i :: 0 <= i < |l| ==> l[i] < |nc|) && FreeFirst(nc, l)
    requires |nc'| == |nc| && !nc'[l[0]].hashed && forall x :: 0 <= x < |nc| && x != l[0] ==> nc'[x] == nc[x]
    ensures FreeFirst(nc', l)
  {
    var r := l[1..];
    if nc[l[0]].hashed {
      assert forall i :: 0 <= i < |r| ==> r[i] == l[i + 1] && nc'[r[i]].hashed;
      assert FreeFirst(nc', r);
    } else {
      FreeFirstSame(nc, nc', r);
    }
  }

  // ---------- the order of use ----------

  /** The live entries of a list, in its order. */
  function Alive(s: State, l: seq<nat>): seq<nat> {
    if l == [] then [] else (if Live(s, l[0]) then [l[0]] else []) + Alive(s, l[1..])
  }

  lemma {:induction false} AliveSnoc(s: State, l: seq<nat>, e: nat)
    ensures Alive(s, l + [e]) == Alive(s, l) + if Live(s, e) then [e] else []
  {
    hide Live;
    if l == [] {
      assert [e][1..] == [] && [] + [e] == [e];
    } else {
      AliveSnoc(s, l[1..], e);
      assert (l + [e])[1..] == l[1..] + [e];
    }
  }

  lemma {:induction false} AliveHas(s: State, l: seq<nat>, x: nat)
    ensures x in Alive(s, l) <==> x in l && Live(s, x)
  {
    hide Live;
    if l != [] { AliveHas(s, l[1..], x); }
  }

  /** One entry taken out of a list, or no longer live. */
  lemma {:induction false} AliveWithout(s: State, t: State, l: seq<nat>, e: nat)
    requires forall x: nat :: x != e ==> (Live(t, x) <==> Live(s, x))
    ensures Alive(t, Without(l, e)) == Without(Alive(s, l), e)
    ensures !Live(t, e) ==> Alive(t, l) == Without(Alive(s, l), e)
  {
    hide Live;
    if l != [] {
      AliveWithout(s, t, l[1..], e);
      var a := Alive(s, l[1..]);
      assert ([l[0]] + a)[1..] == a && [] + a == a;
      var w, b := Without(l[1..], e), Alive(t, Without(l[1..], e));
      assert ([l[0]] + w)[1..] == w && [] + b == b;
    }
  }

  lemma {:induction false} AliveSame(s: State, t: State, l: seq<nat>)
    requires forall x: nat :: x in l ==> (Live(t, x) <==> Live(s, x))
    ensures Alive(t, l) == Alive(s, l)
  {
    hide Live;
    if l != [] { AliveSame(s, t, l[1..]); }
  }

  lemma ExtendOrder(s: State)
    requires Inv(s)
    ensures Alive(Extend(s), Extend(s).lru) == Without(Alive(s, s.lru), |s.nc|)
  {
    hide FreeFirst, Bucket;
    ExtendKeeps(s);
    var t := Extend(s);
    assert t.lru[1..] == s.lru && !Live(t, |s.nc|);
    AliveSame(s, t, s.lru);
    AliveHas(s, s.lru, |s.nc|);
    WithoutNone(Alive(s, s.lru), |s.nc|);
  }

  /** PURGE: the entry leaves the order of use, the others keep theirs. */
  lemma PurgeOrder(s: State, e: nat)
    requires e < |s.nc| && |s.chains| > 0
    ensures Alive(Purge(s, e), Purge(s, e).lru) == Without(Alive(s, s.lru), e)
  {
    hide Bucket;
    UnhashLive(s, e);
    var t := Purge(s, e);
    AliveWithout(s, t, s.lru, e);
    assert t.lru[1..] == Without(s.lru, e);
  }

  lemma StaleOrder(s: State, e: nat)
    requires e < |s.nc| && |s.chains| > 0 && !Live(s, e)
    ensures Alive(Purge(s, e), Purge(s, e).lru) == Alive(s, s.lru)
  {
    PurgeOrder(s, e);
    AliveHas(s, s.lru, e);
    WithoutNone(Alive(s, s.lru), e);
  }

  /** TOUCH and a new entry: it comes last, the others keep their order. */
  lemma TouchOrder(s: State, t: State, e: nat)
    requires NoDup(s.lru) && t.lru == Without(s.lru, e) + [e] && Live(t, e)
    requires forall x: nat :: x != e ==> (Live(t, x) <==> Live(s, x))
    ensures Alive(t, t.lru) == Without(Alive(s, s.lru), e) + [e]
  {
    hide Live;
    AliveWithout(s, t, s.lru, e);
    AliveSnoc(t, Without(s.lru, e), e);
  }

  lemma {:induction false} WithoutTwice(c: seq<nat>, e: nat)
    ensures Without(Without(c, e), e) == Without(c, e)
  {
    if c != [] { WithoutTwice(c[1..], e); }
  }

  lemma AlreadyLast(s: State, e: nat)
    requires NoDup(s.lru) && s.lru != [] && s.lru[|s.lru| - 1] == e
    ensures s.lru == Without(s.lru, e) + [e]
  {
    WithoutAt(s.lru, |s.lru| - 1);
  }

  class Cache {
    var nc: seq<Nc>
    var lru: seq<nat>
    var chains: seq<seq<nat>>
    var ids: seq<nat>
    var nextid: nat
    ghost var know: map<Key, Target>

    ghost function Now(): State
      reads this
    {
      State(nc, lru, chains, ids, nextid)
    }

    ghost predicate Valid()
      reads this
    {
      Inv(Now()) && Agrees(Now(), know)
    }

    /** The live entries, least recently used first. */
    ghost function Order(): seq<nat>
      reads this
    {
      Alive(Now(), lru)
    }

    method PurgeEntry(e: nat)
      requires e < |nc| && |chains| > 0
      modifies this`nc, this`lru, this`chains
      ensures Now() == Purge(old(Now()), e)
    {
      var b := Bucket(nc[e].dvpid, nc[e].name, |chains|);
      chains := chains[b := Without(chains[b], e)];
      nc := nc[e := nc[e].(hashed := false)];
      lru := [e] + Without(lru, e);
    }

    /** The loop of cache_lookup: it finds the live entry for the name if and only if there is one. */
    method Find(k: Key) returns (r: Option<nat>)
      requires Valid() && k.dvp < |ids|
      modifies this`nc, this`lru, this`chains
      ensures Valid() && SameEntries(old(Now()), Now()) && SameLive(old(Now()), Now())
      ensures if r.Some? then Named(Now(), r.value, k) && Named(old(Now()), r.value, k)
              else forall x: nat :: !Named(Now(), x, k) && !Named(old(Now()), x, k)
      ensures Order() == old(Order())
    {
      hide FreeFirst, Bucket, Inv, Agrees, Alive;
      ghost var s := Now();
      ChainsThere(Now());
      var b, i := Bucket(ids[k.dvp], k.name, |chains|), 0;
      BucketIn(ids[k.dvp], k.name, |chains|);
      while i < |chains[b]|
        invariant b < |chains| && i <= |chains[b]| && Inv(Now()) && SameEntries(s, Now()) && SameLive(s, Now())
        invariant forall j :: 0 <= j < i ==> !Named(Now(), chains[b][j], k)
        invariant Order() == old(Order())
        decreases |chains[b]| - i
      {
        var e := chains[b][i];
        PurgeStale(Now(), b, i);
        if !Fresh(ids, nc[e]) {
          StaleOrder(Now(), e);
          PurgeEntry(e);
          continue;
        }
        if nc[e].dvp == k.dvp && nc[e].name == k.name {
          SameLiveAgrees(s, Now(), know);
          return Some(e);
        }
        i := i + 1;
      }
      SameLiveAgrees(s, Now(), know);
      NoneNamed(Now(), k);
      assert forall x: nat :: Named(s, x, k) ==> Named(Now(), x, k);
      return None;
    }

    /** cache_lookup. A hit is what was entered last for the name, with neither vnode purged since;
        a live entry is always found. The entry is dropped when the caller does not want it. */
    method Lookup(k: Key, make: bool, create: bool, doingcache: bool) returns (a: Answer)
      requires Valid() && k.dvp < |ids|
      modifies this`nc, this`lru, this`chains, this`know
      ensures Valid()
      ensures a.Hit? ==> k in know && know[k] == Vnode(a.v)
      ensures a.Negative? ==> k in know && know[k] == Absent(a.flag)
      ensures if !doingcache || |k.name| > NCHNAMLEN then a == Miss && Now() == old(Now()) && know == old(know)
              else a == Miss <==>
                (forall x: nat :: !Named(old(Now()), x, k)) || !make ||
                (create && old(know)[k].Absent?)
      ensures know == old(know) || (a == Miss && know == old(know) - {k})
      ensures a != Miss ==> lru != [] && Named(Now(), lru[|lru| - 1], k)
      ensures a == Miss && doingcache && |k.name| <= NCHNAMLEN ==> forall x: nat :: !Named(Now(), x, k)
      ensures forall x: nat :: Live(Now(), x) <==>
              Live(old(Now()), x) && !(a == Miss && doingcache && |k.name| <= NCHNAMLEN && Named(old(Now()), x, k))
      ensures a != Miss ==> lru != [] && Order() == Without(old(Order()), lru[|lru| - 1]) + [lru[|lru| - 1]]
      ensures a == Miss && (forall x: nat :: !Named(old(Now()), x, k)) ==> Order() == old(Order())
      ensures a == Miss && doingcache && |k.name| <= NCHNAMLEN ==>
                forall x: nat :: Named(old(Now()), x, k) ==> Order() == Without(old(Order()), x)
    {
      hide FreeFirst, Bucket, InChain, Numbered, Alive;
      if !doingcache || |k.name| > NCHNAMLEN { return Miss; }
      var r := Find(k);
      if r.None? { return Miss; }
      var e := r.value;
      if !make || (create && nc[e].vp.None?) {
        PurgeKeeps(Now(), e);
        PurgeOrder(Now(), e);
        PurgeEntry(e);
        know := know - {k};
        return Miss;
      }
      ghost var s := Now();
      a := if nc[e].vp.Some? then Hit(nc[e].vp.value) else Negative(nc[e].vpid);
      TouchKeeps(Now(), e);
      if lru == [] || lru[|lru| - 1] != e { lru := Without(lru, e) + [e]; } else { AlreadyLast(s, e); }
      TouchOrder(s, Now(), e);
    }

    /** Find an entry to fill: a new one if there are fewer than limit and none is free, else the first
        of the LRU list. At most that one's name is forgotten. */
    method Take(limit: nat) returns (got: bool, e: nat)
      requires Valid()
      modifies this`nc, this`lru, this`chains
      ensures Valid() && ids == old(ids) && nextid == old(nextid)
      ensures got <==> |old(nc)| < limit || old(lru) != []
      ensures !got ==> Now() == old(Now())
      ensures got ==> e < |nc| && !nc[e].hashed
      ensures got ==> if |old(nc)| < limit &&
              (old(lru) == [] || FrontHashed(old(Now()))) then e == |old(nc)| == |nc| - 1
                      else |nc| == |old(nc)| && old(lru) != [] && e == old(lru)[0]
      ensures forall x :: 0 <= x < |old(nc)| && !(got && x == e) ==> nc[x] == old(nc)[x]
      ensures forall x: nat :: Live(Now(), x) <==> Live(old(Now()), x) && !(got && x == e)
      ensures got ==> Order() == Without(old(Order()), e)
    {
      hide FreeFirst, Bucket, InChain, Listed, Numbered, Alive;
      FrontKnown(Now());
      ghost var s := Now();
      got, e := true, 0;
      if |nc| < limit && (lru == [] || nc[lru[0]].hashed) {
        ExtendKeeps(Now());
        e := |nc|;
        nc, lru := nc + [Blank()], [e] + lru;
        ExtendOrder(s);
      } else if lru != [] {
        e := lru[0];
        if nc[e].hashed {
          RecycleKeeps(Now());
          var b := Bucket(nc[e].dvpid, nc[e].name, |chains|);
          BucketIn(nc[e].dvpid, nc[e].name, |chains|);
          nc, chains := nc[e := nc[e].(hashed := false)], chains[b := Without(chains[b], e)];
        }
        AliveWithout(s, Now(), lru, e);
      } else {
        got := false;
      }
    }

    /** cache_enter after a miss: the name is then known and most recently used, in a new entry, a free
        one, or the least recently used, whose name is the only one that may be forgotten. */
    method Enter(k: Key, vp: Option<nat>, flag: nat, limit: nat, doingcache: bool) returns (done: bool, ghost e: nat)
      requires Valid() && k.dvp < |ids| && (vp.Some? ==> vp.value < |ids|) && |k.name| <= NCHNAMLEN
      requires forall x: nat :: !Named(Now(), x, k)
      modifies this`nc, this`lru, this`chains, this`know
      ensures Valid() && (done <==> doingcache && (|old(nc)| < limit || old(lru) != []))
      ensures if done then know == old(know)[k := if vp.Some? then Vnode(vp.value) else Absent(flag)] && lru != [] &&
              lru[|lru| - 1] == e && Named(Now(), e, k)
              else know == old(know) && Now() == old(Now())
      ensures done ==> if |old(nc)| < limit &&
              (old(lru) == [] || FrontHashed(old(Now()))) then e == |old(nc)| == |nc| - 1
                       else |nc| == |old(nc)| && old(lru) != [] && e == old(lru)[0]
      ensures done ==> forall x: nat :: Live(Now(), x) <==> Live(old(Now()), x) || x == e
      ensures done ==> forall x :: 0 <= x < |old(nc)| && x != e ==> nc[x] == old(nc)[x]
      ensures done ==> Order() == Without(old(Order()), e) + [e]
    {
      hide FreeFirst, Bucket, InChain, Alive;
      e := 0;
      if !doingcache { return false, 0; }
      var got, f := Take(limit);
      e := f;
      if !got { return false, 0; }
      forall y: nat
        ensures !Named(Now(), y, k)
      {
        assert Live(Now(), y) ==> Live(old(Now()), y) && !Named(old(Now()), y, k);
      }
      var x := Nc(true, k.dvp, ids[k.dvp], vp, if vp.Some? then ids[vp.value] else flag, k.name);
      FillStep(Now(), f, x, know);
      FillLive(Now(), f, x);
      ghost var s := Now();
      var b := Bucket(x.dvpid, x.name, |chains|);
      BucketIn(x.dvpid, x.name, |chains|);
      nc, lru, chains := nc[f := x], Without(lru, f) + [f], chains[b := [f] + chains[b]];
      know := know[k := TargetOf(x)];
      TouchOrder(s, Now(), f);
      WithoutTwice(old(Order()), f);
      return true, e;
    }

    /** cache_purge, while nextvnodeid does not wrap: a new v_id makes every entry stale that
        mentions the vnode, and no other. */
    method PurgeVnode(v: nat)
      requires Valid() && v < |ids|
      modifies this`ids, this`nextid, this`know
      ensures Valid() && know == Forget(old(know), v)
      ensures forall k :: k in know <==> k in old(know) && k.dvp != v && old(know)[k] != Vnode(v)
      ensures forall k :: k in know ==> know[k] == old(know)[k]
      ensures forall x: nat :: Live(Now(), x) <==> Live(old(Now()), x) && nc[x].dvp != v && nc[x].vp != Some(v)
    {
      hide FreeFirst, Bucket, InChain, Listed;
      ghost var s := Now();
      nextid := nextid + 1;
      ids := ids[v := nextid];
      know := Forget(know, v);
      PurgeVnodeKeeps(s, v, old(know));
    }
  }

  /** The first entry of the LRU list is in use. */
  predicate FrontHashed(s: State) { s.lru != [] && s.lru[0] < |s.nc| && s.nc[s.lru[0]].hashed }

  lemma FrontKnown(s: State)
    requires Inv(s)
    ensures |s.chains| > 0 && (s.lru != [] ==> s.lru[0] < |s.nc|)
  {
  }

  lemma FillStep(s: State, e: nat, x: Nc, know: map<Key, Target>)
    requires Fillable(s, e, x) && Agrees(s, know) && forall y: nat :: !Named(s, y, KeyOf(x))
    ensures Inv(Fill(s, e, x)) && Agrees(Fill(s, e, x), know[KeyOf(x) := TargetOf(x)])
  {
    FillUnique(s, e, x);
    FillAgrees(s, e, x, know);
  }

  lemma PurgeVnodeKeeps(s: State, v: nat, know: map<Key, Target>)
    requires Inv(s) && Agrees(s, know) && v < |s.ids|
    ensures var t := s.(nextid := s.nextid + 1, ids := s.ids[v := s.nextid + 1]);
            Inv(t) && Agrees(t, Forget(know, v)) &&
            forall x: nat :: Live(t, x) <==> Live(s, x) && s.nc[x].dvp != v && s.nc[x].vp != Some(v)
  {
    hide FreeFirst, Bucket;
    var t := s.(nextid := s.nextid + 1, ids := s.ids[v := s.nextid + 1]);
    ChainedSame(s, t);
  }

  lemma ChainsThere(s: State)
    requires Inv(s)
    ensures |s.chains| > 0
  {
  }

  lemma BucketIn(vid: nat, name: seq<nat>, n: nat)
    requires n > 0
    ensures Bucket(vid, name, n) < n
  {
  }

  lemma NoneNamed(s: State, k: Key)
    requires Inv(s) && k.dvp < |s.ids|
    requires var b := Bucket(s.ids[k.dvp], k.name, |s.chains|);
             forall j :: 0 <= j < |s.chains[b]| ==> !Named(s, s.chains[b][j], k)
    ensures forall x: nat :: !Named(s, x, k)
  {
    hide FreeFirst, Bucket;
    forall x: nat
      ensures !Named(s, x, k)
    {
      if Named(s, x, k) {
        FoundInBucket(s, x, k);
      }
    }
  }
}
