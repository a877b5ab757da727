/** Flow control between two connected Unix stream sockets: the chunking loop of sosend on one side,
    PRU_SEND and PRU_RCVD moving the sender's limits by what the receiver holds. */
module UnixStream {
  import opened Common

  /** The limits of the sender's buffer (sb_hiwat, sb_mbmax), what is in the receiver's buffer
      (sb_cc, sb_mbcnt), and what the receiver's control block last recorded of it (unp_cc,
      unp_mbcnt). The sender's own buffer stays empty. */
  datatype Flow = Flow(hiwat: int, mbmax: int, cc: int, mbcnt: int, ucc: int, umbcnt: int)

  /** Where sosend is: bytes and control data still to go, the space it reckons with, and whether it
      has just computed that. */
  datatype Sender = Idle | Sending(resid: nat, clen: nat, space: int, first: bool)

  /** total: all bytes ever put in the receiver's buffer; taken: all bytes ever removed. */
  datatype State = State(f: Flow, snd: Sender, total: int, taken: int)

  datatype Event =
    | Begin(resid: nat, clen: nat, lowat: int)
    | Again(lowat: int)
    | Chunk(pages: bool, joins: bool)
    | Take(n: nat, storage: nat)
    | Received

  function Min(a: int, b: int): int { if a <= b then a else b }

  /** sbspace of the sender's buffer. */
  function Space(f: Flow): int { Min(f.hiwat, f.mbmax) }

  /** sosend waits for space, or refuses control data that can never fit. */
  predicate Held(f: Flow, resid: nat, clen: nat, lowat: int) {
    clen > f.hiwat || (Space(f) < resid + clen && (Space(f) < lowat || Space(f) < clen))
  }

  /** The head of sosend's outer loop. */
  function Reckon(s: State, resid: nat, clen: nat, lowat: int): State {
    if Held(s.f, resid, clen, lowat) then s else s.(snd := Sending(resid, clen, Space(s.f) - clen, true))
  }

  function PruSend(f: Flow, bytes: int, storage: nat): Flow {
    var cc, mbcnt := f.cc + bytes, f.mbcnt + storage;
    Flow(f.hiwat - (cc - f.ucc), f.mbmax - (mbcnt - f.umbcnt), cc, mbcnt, cc, mbcnt)
  }

  function PruRcvd(f: Flow): Flow {
    Flow(f.hiwat + (f.ucc - f.cc), f.mbmax + (f.umbcnt - f.mbcnt), f.cc, f.mbcnt, f.cc, f.mbcnt)
  }

  predicate UsesCluster(resid: nat, space: int, pages: bool) { resid >= MINCLSIZE && space >= MCLBYTES && pages }

  /** The bytes of one chunk: a cluster if it pays, else what fits in one mbuf with header. */
  function ChunkLen(resid: nat, space: int, pages: bool): int {
    if UsesCluster(resid, space, pages) then Min(MCLBYTES, resid) else Min(Min(MHLEN, resid), space)
  }

  function ChunkSpace(resid: nat, space: int, pages: bool): int {
    if UsesCluster(resid, space, pages) then space - MCLBYTES else space - ChunkLen(resid, space, pages)
  }

  /** What a chunk adds to the receiver's sb_mbcnt: a mbuf, a cluster if it has one, and a mbuf for
      control data; nothing if sbcompress joins it to the last mbuf, or drops it as empty. */
  function ChunkStorage(snd: Sender, pages: bool, joins: bool): nat
    requires snd.Sending?
  {
    if joins then 0
    else MSIZE + (if UsesCluster(snd.resid, snd.space, pages) then MCLBYTES else 0) + if snd.clen > 0 then MSIZE else 0
  }

  /** A cluster's data are too long to be joined, and data after control data begin a record; a chunk
      of no bytes and no control data is dropped. */
  predicate MayJoin(snd: Sender, pages: bool, joins: bool)
    requires snd.Sending?
  {
    (joins ==> snd.clen == 0 && !UsesCluster(snd.resid, snd.space, pages)) &&
    (snd.clen == 0 && ChunkLen(snd.resid, snd.space, pages) == 0 ==> joins)
  }

  predicate Enabled(s: State, e: Event) {
    match e
    case Begin(_, _, _) => s.snd.Idle?
    case Again(_) => s.snd.Sending? && !s.snd.first && s.snd.space <= 0
    case Chunk(pages, joins) => s.snd.Sending? && (s.snd.first || s.snd.space > 0) && MayJoin(s.snd, pages, joins)
    case Take(n, storage) => n <= s.f.cc && storage <= s.f.mbcnt
    case Received => true
  }

  /** Begin and Again: the outer loop computes the space, or waits. Chunk: the inner loop fills one
      mbuf and hands it to the protocol. Take: the receiver removes bytes. Received: it tells the
      protocol. */
  function Step(s: State, e: Event): State
    requires Enabled(s, e)
  {
    match e
    case Begin(resid, clen, lowat) => Reckon(s, resid, clen, lowat)
    case Again(lowat) => Reckon(s, s.snd.resid, 0, lowat)
    case Chunk(pages, joins) =>
      var len := ChunkLen(s.snd.resid, s.snd.space, pages);
      var left := s.snd.resid - len;
      State(PruSend(s.f, len + s.snd.clen, ChunkStorage(s.snd, pages, joins)),
            if left <= 0 then Idle else Sending(left, 0, ChunkSpace(s.snd.resid, s.snd.space, pages), false),
            s.total + len + s.snd.clen, s.taken)
    case Take(n, storage) => s.(f := s.f.(cc := s.f.cc - n, mbcnt := s.f.mbcnt - storage), taken := s.taken + n)
    case Received => s.(f := PruRcvd(s.f))
  }

  // ---------- the invariant ----------

  /** h and m are the limits the sender started with. */
  ghost predicate Inv(s: State, h: int, m: int) {
    s.f.hiwat + s.f.ucc == h && s.f.mbmax + s.f.umbcnt == m &&
    0 <= s.f.hiwat && 0 <= s.f.cc <= s.f.ucc && s.f.cc == s.total - s.taken &&
    (s.snd.Sending? ==> 0 <= s.snd.space && s.snd.space + s.snd.clen <= s.f.hiwat && (!s.snd.first ==> s.snd.clen == 0))
  }

  /** sosend never sends more than it found room for. */
  lemma ChunkFits(resid: nat, space: int, pages: bool)
    requires space >= 0
    ensures 0 <= ChunkLen(resid, space, pages) <= space && ChunkLen(resid, space, pages) <= resid
    ensures 0 <= ChunkSpace(resid, space, pages) <= space - ChunkLen(resid, space, pages)
    ensures resid > 0 && space > 0 ==> ChunkLen(resid, space, pages) > 0
  {
  }

  /** A chunk is as large as it can be: it is all that is left, or fills its mbuf or cluster, or uses up
      the space; a cluster is taken exactly when one can be had, there is room for all of it, and
      the rest is worth it. */
  lemma ChunkFull(resid: nat, space: int, pages: bool)
    requires space >= 0
    ensures var n := ChunkLen(resid, space, pages);
            var room := if pages && resid >= MINCLSIZE && space >= MCLBYTES then MCLBYTES else MHLEN;
            n <= room && (n == resid || n == space || n == room)
  {
  }

  /** What a chunk uses up: of the space, its bytes or the whole cluster; of the storage, a mbuf for the
      data and one for control data, and the cluster, or nothing if it joins what is there. */
  lemma ChunkUses(snd: Sender, pages: bool, joins: bool)
    requires snd.Sending?
    ensures var cluster := pages && snd.resid >= MINCLSIZE && snd.space >= MCLBYTES;
            snd.space - ChunkSpace(snd.resid, snd.space, pages) ==
              (if cluster then MCLBYTES else ChunkLen(snd.resid, snd.space, pages)) &&
            (joins ==> ChunkStorage(snd, pages, joins) == 0) &&
            (!joins ==>
               ChunkStorage(snd, pages, joins) ==
               MSIZE * (if snd.clen == 0 then 1 else 2) + MCLBYTES * (if cluster then 1 else 0))
  {
  }

  /** sosend starts if the control data can ever fit, and either everything fits now, or there is at least
      the low-water mark and room for the control data. */
  lemma BeginOutcome(s: State, resid: nat, clen: nat, lowat: int)
    requires s.snd.Idle?
    ensures var t, space := Step(s, Begin(resid, clen, lowat)), if s.f.hiwat <= s.f.mbmax then s.f.hiwat else s.f.mbmax;
            if clen <= s.f.hiwat && (resid + clen <= space || (lowat <= space && clen <= space))
            then t == s.(snd := Sending(resid, clen, space - clen, true))
            else t == s
  {
  }

  /** What sosend has still to send. */
  function Unsent(s: State): nat { if s.snd.Sending? then s.snd.resid + s.snd.clen else 0 }

  /** A step moves bytes from what is unsent to what has been put in the receiver's buffer, or starts a
      message; sosend is done exactly when nothing is unsent. */
  lemma StepSends(s: State, e: Event, h: int, m: int)
    requires Inv(s, h, m) && Enabled(s, e)
    ensures var t := Step(s, e);
            t.total + Unsent(t) ==
              s.total + Unsent(s) + (if e.Begin? && t.snd.Sending? then e.resid + e.clen else 0) &&
            (e.Chunk? ==> (t.snd.Idle? <==> Unsent(t) == 0)) && t.total >= s.total &&
            t.taken == s.taken + (if e.Take? then e.n else 0) &&
            (e.Take? ==> t == s.(f := s.f.(cc := s.f.cc - e.n, mbcnt := s.f.mbcnt - e.storage), taken := t.taken))
  {
    if e.Chunk? { ChunkFits(s.snd.resid, s.snd.space, e.pages); }
  }

  /** All bytes of the messages that were accepted. */
  function Accepted(s: State, es: seq<Event>): nat
    requires Possible(s, es)
    decreases |es|
  {
    if es == [] then 0
    else
      var t := Step(s, es[0]);
      (if es[0].Begin? && t.snd.Sending? then es[0].resid + es[0].clen else 0) + Accepted(t, es[1..])
  }

  /** A sender under way goes on in one way only: with a chunk as long as there is space, and else back
      at the head of the loop. The chunk begins a mbuf at the receiver unless sbcompress can join
      it, and always if there are control data. */
  lemma SenderGoesOn(s: State, pages: bool, lowat: int, h: int, m: int)
    requires Inv(s, h, m) && s.snd.Sending?
    ensures Enabled(s, Again(lowat)) <==> !s.snd.first && s.snd.space == 0
    ensures Enabled(s, Again(lowat)) <==> !Enabled(s, Chunk(pages, false)) && !Enabled(s, Chunk(pages, true))
    ensures !Enabled(s, Again(lowat)) ==>
              var n := ChunkLen(s.snd.resid, s.snd.space, pages);
              (Enabled(s, Chunk(pages, false)) <==> s.snd.clen > 0 || n > 0) &&
              (Enabled(s, Chunk(pages, true)) <==>
               s.snd.clen == 0 && !(pages && s.snd.resid >= MINCLSIZE && s.snd.space >= MCLBYTES))
    ensures Enabled(s, Received) && (s.f.mbcnt >= 0 ==> Enabled(s, Take(s.f.cc, s.f.mbcnt)))
  {
  }

  /** Over any run, every byte accepted is unsent, queued or taken. */
  lemma {:induction false} RunSends(s: State, es: seq<Event>, h: int, m: int)
    requires Inv(s, h, m) && Possible(s, es)
    ensures var t := Exec(s, es);
            Accepted(s, es) + Unsent(s) + s.f.cc + s.taken == Unsent(t) + t.f.cc + t.taken
    decreases |es|
  {
    if es != [] {
      StepKeeps(s, es[0], h, m);
      StepSends(s, es[0], h, m);
      hide Inv, Step, Enabled, Unsent;
      TotalIs(s, h, m);
      TotalIs(Step(s, es[0]), h, m);
      RunSends(Step(s, es[0]), es[1..], h, m);
    }
  }

  lemma TotalIs(s: State, h: int, m: int)
    requires Inv(s, h, m)
    ensures s.f.cc == s.total - s.taken
  {
  }

  lemma StepKeeps(s: State, e: Event, h: int, m: int)
    requires Inv(s, h, m) && Enabled(s, e)
    ensures Inv(Step(s, e), h, m)
    ensures e.Chunk? || e.Received? ==>
            Step(s, e).f.hiwat + Step(s, e).f.cc == h && Step(s, e).f.mbmax + Step(s, e).f.mbcnt == m
  {
    if e.Chunk? {
      ChunkFits(s.snd.resid, s.snd.space, e.pages);
    }
  }

  predicate Possible(s: State, es: seq<Event>)
    decreases |es|
  {
    es == [] || (Enabled(s, es[0]) && Possible(Step(s, es[0]), es[1..]))
  }

  function Exec(s: State, es: seq<Event>): State
    requires Possible(s, es)
    decreases |es|
  {
    if es == [] then s else Exec(Step(s, es[0]), es[1..])
  }

  lemma {:induction false} RunKeeps(s: State, es: seq<Event>, h: int, m: int)
    requires Inv(s, h, m) && Possible(s, es)
    ensures Inv(Exec(s, es), h, m)
    decreases |es|
  {
    hide Inv, Step, Enabled;
    if es != [] {
      StepKeeps(s, es[0], h, m);
      RunKeeps(Step(s, es[0]), es[1..], h, m);
    }
  }

  /** Over any run of sends and receives on a pair that starts empty, what is queued never exceeds the
      sender's first high-water mark, and right after a chunk or a notice limit and queue add up to
      it again, in bytes and in storage. */
  lemma Bounded(h: nat, m: int, es: seq<Event>, e: Event)
    requires Possible(State(Flow(h, m, 0, 0, 0, 0), Idle, 0, 0), es)
    ensures var s := Exec(State(Flow(h, m, 0, 0, 0, 0), Idle, 0, 0), es);
            0 <= s.f.cc <= h && s.f.cc == s.total - s.taken &&
            (Enabled(s, e) && (e.Chunk? || e.Received?) ==>
               Step(s, e).f.hiwat + Step(s, e).f.cc == h && Step(s, e).f.mbmax + Step(s, e).f.mbcnt == m)
  {
    hide Exec, Possible;
    RunKeeps(State(Flow(h, m, 0, 0, 0, 0), Idle, 0, 0), es, h, m);
    var s := Exec(State(Flow(h, m, 0, 0, 0, 0), Idle, 0, 0), es);
    if Enabled(s, e) {
      StepKeeps(s, e, h, m);
    }
  }

  // ---------- storage ----------

  /** A chunk takes the storage limit below zero if and only if what the receiver holds and what the
      chunk adds exceed the first limit. */
  lemma StorageOvercommits(s: State, pages: bool, joins: bool, h: int, m: int)
    requires Inv(s, h, m) && Enabled(s, Chunk(pages, joins))
    ensures Step(s, Chunk(pages, joins)).f.mbmax < 0 <==> s.f.mbcnt + ChunkStorage(s.snd, pages, joins) > m
  {
  }

  /** While sosend goes on, the limit is behind its reckoning by no more than 28 bytes for each 100 it
      has used up, and a mbuf for control data; when it stops, by one mbuf more. */
  ghost predicate StorageOk(s: State, h: int) {
    match s.snd
    case Idle => 100 * s.f.mbmax >= -(28 * h + 25500)
    case Sending(_, clen, space, first) =>
      if first then s.f.mbmax >= space + clen
      else if space > 0 then 100 * (s.f.mbmax - space) + 28 * (h - space) >= -12800
      else 100 * s.f.mbmax >= -(28 * h + 25500)
  }

  lemma StorageKeeps(s: State, e: Event, h: int, m: int)
    requires Inv(s, h, m) && StorageOk(s, h) && Enabled(s, e) && s.f.mbcnt <= s.f.umbcnt
    ensures StorageOk(Step(s, e), h) && Step(s, e).f.mbcnt <= Step(s, e).f.umbcnt
  {
    if e.Chunk? {
      ChunkFits(s.snd.resid, s.snd.space, e.pages);
    }
  }

  lemma {:induction false} RunStorage(s: State, es: seq<Event>, h: int, m: int)
    requires Inv(s, h, m) && StorageOk(s, h) && s.f.mbcnt <= s.f.umbcnt && Possible(s, es)
    ensures StorageOk(Exec(s, es), h)
    decreases |es|
  {
    hide Inv, Step, Enabled, StorageOk;
    if es != [] {
      StepKeeps(s, es[0], h, m);
      StorageKeeps(s, es[0], h, m);
      RunStorage(Step(s, es[0]), es[1..], h, m);
    }
  }

  /** Over any run the storage limit stays above minus a bit more than a quarter of the high-water
      mark. */
  lemma StorageBounded(h: nat, m: nat, es: seq<Event>)
    requires Possible(State(Flow(h, m, 0, 0, 0, 0), Idle, 0, 0), es)
    ensures 100 * Exec(State(Flow(h, m, 0, 0, 0, 0), Idle, 0, 0), es).f.mbmax >= -(28 * h + 25500)
  {
    var s := State(Flow(h, m, 0, 0, 0, 0), Idle, 0, 0);
    hide Exec, Possible;
    RunKeeps(s, es, h, m);
    RunStorage(s, es, h, m);
  }

  /** It does go below zero: with the limits of a new pair, three short messages that take a cluster
      each and then one long one that fits by its bytes. */
  lemma GoesBelowZero() returns (es: seq<Event>)
    ensures Possible(State(Flow(4096, 8192, 0, 0, 0, 0), Idle, 0, 0), es)
    ensures Exec(State(Flow(4096, 8192, 0, 0, 0, 0), Idle, 0, 0), es).f.mbmax == -512
  {
    var s0 := State(Flow(4096, 8192, 0, 0, 0, 0), Idle, 0, 0);
    var s1 := State(Flow(3796, 6016, 300, 2176, 300, 2176), Idle, 300, 0);
    var s2 := State(Flow(3496, 3840, 600, 4352, 600, 4352), Idle, 600, 0);
    var s3 := State(Flow(3196, 1664, 900, 6528, 900, 6528), Idle, 900, 0);
    hide Possible, Exec, Plain;
    LongMessage(s3);
    es := [Begin(1664, 0, MCLBYTES)] + Plain(17);
    ClusterMessage(s2, s3, es);
    es := [Begin(300, 0, MCLBYTES), Chunk(true, false)] + es;
    ClusterMessage(s1, s2, es);
    es := [Begin(300, 0, MCLBYTES), Chunk(true, false)] + es;
    ClusterMessage(s0, s1, es);
    es := [Begin(300, 0, MCLBYTES), Chunk(true, false)] + es;
  }

  lemma LongMessage(s: State)
    requires s.snd == Idle && Space(s.f) == 1664 && s.f.mbcnt == s.f.umbcnt
    ensures var es := [Begin(1664, 0, MCLBYTES)] + Plain(17);
            Possible(s, es) && Exec(s, es).f.mbmax == s.f.mbmax - 17 * MSIZE
  {
    var t := Step(s, Begin(1664, 0, MCLBYTES));
    assert t.snd == Sending(1664, 0, 1664, true);
    hide Possible, Exec, Plain;
    PlainChunks(t, 17);
    Unroll(s, Begin(1664, 0, MCLBYTES), Plain(17));
  }

  lemma Unroll(s: State, e: Event, es: seq<Event>)
    requires Enabled(s, e) && Possible(Step(s, e), es)
    ensures Possible(s, [e] + es) && Exec(s, [e] + es) == Exec(Step(s, e), es)
  {
    assert ([e] + es)[1..] == es;
  }

  lemma ClusterMessage(s: State, t: State, es: seq<Event>)
    requires s.snd == Idle && Space(s.f) >= MCLBYTES && s.f.cc == s.f.ucc && s.f.mbcnt == s.f.umbcnt && Possible(t, es)
    requires t == State(PruSend(s.f, 300, MSIZE + MCLBYTES), Idle, s.total + 300, s.taken)
    ensures var e := [Begin(300, 0, MCLBYTES), Chunk(true, false)] + es; Possible(s, e) && Exec(s, e) == Exec(t, es)
  {
    var u := Step(s, Begin(300, 0, MCLBYTES));
    assert Step(u, Chunk(true, false)) == t;
    hide Possible, Exec;
    Unroll(u, Chunk(true, false), es);
    Unroll(s, Begin(300, 0, MCLBYTES), [Chunk(true, false)] + es);
    assert [Begin(300, 0, MCLBYTES)] + ([Chunk(true, false)] + es) ==
        [Begin(300, 0, MCLBYTES), Chunk(true, false)] + es;
  }

  function Plain(n: nat): seq<Event> { if n == 0 then [] else [Chunk(true, false)] + Plain(n - 1) }

  /** A message sent in n mbufs, because there is no room for a cluster. */
  lemma {:induction false} PlainChunks(s: State, n: nat)
    requires s.snd.Sending? && s.snd.clen == 0 && s.snd.resid == s.snd.space < MCLBYTES &&
             100 * (n - 1) < s.snd.resid <= 100 * n
    requires n > 0 && s.f.mbcnt == s.f.umbcnt
    ensures Possible(s, Plain(n)) && Exec(s, Plain(n)).f.mbmax == s.f.mbmax - MSIZE * n
    decreases n
  {
    var t := Step(s, Chunk(true, false));
    if n == 1 {
      assert Plain(n) == [Chunk(true, false)] + [];
      assert Possible(t, []) && Exec(t, []) == t;
      Unroll(s, Chunk(true, false), []);
    } else {
      PlainChunks(t, n - 1);
      Unroll(s, Chunk(true, false), Plain(n - 1));
    }
  }

  // ---------- the code ----------

  /** Both ends of a connection, one direction. */
  class Pair {
    var f: Flow

    method Send(bytes: int, storage: nat)
      modifies this
      ensures f == PruSend(old(f), bytes, storage)
    {
      f := f.(cc := f.cc + bytes, mbcnt := f.mbcnt + storage);
      f := f.(mbmax := f.mbmax - (f.mbcnt - f.umbcnt));
      f := f.(umbcnt := f.mbcnt);
      f := f.(hiwat := f.hiwat - (f.cc - f.ucc));
      f := f.(ucc := f.cc);
    }

    /** PRU_RCVD: what the receiver has removed since the last time is given back to the sender, and
        limit and queue add up to what limit and record did. */
    method Rcvd()
      modifies this
      ensures f.hiwat + f.cc == old(f.hiwat + f.ucc) && f.mbmax + f.mbcnt == old(f.mbmax + f.umbcnt)
      ensures f.cc == f.ucc == old(f.cc) && f.mbcnt == f.umbcnt == old(f.mbcnt)
    {
      f := f.(mbmax := f.mbmax + (f.umbcnt - f.mbcnt));
      f := f.(umbcnt := f.mbcnt);
      f := f.(hiwat := f.hiwat + (f.ucc - f.cc));
      f := f.(ucc := f.cc);
    }

    /** A receive: n bytes in so much storage are taken, and the sender may send as many more. */
    method Receive(n: nat, storage: nat)
      requires f.cc == f.ucc && f.mbcnt == f.umbcnt && n <= f.cc && storage <= f.mbcnt
      modifies this
      ensures f.cc == f.ucc == old(f.cc) - n && f.hiwat == old(f.hiwat) + n
      ensures f.mbcnt == f.umbcnt == old(f.mbcnt) - storage && f.mbmax == old(f.mbmax) + storage
    {
      f := f.(cc := f.cc - n, mbcnt := f.mbcnt - storage);
      Rcvd();
    }

    /** The inner loop of sosend with nobody receiving meanwhile: it stops when everything is sent or
        the space is used up, and has then sent exactly what it took off resid. */
    method SendChunks(resid0: nat, clen0: nat, space0: int, pages: bool) returns (resid: nat)
      requires 0 <= space0 && space0 + clen0 <= f.hiwat && f.cc <= f.ucc
      modifies this
      ensures f.cc == old(f.cc) + (resid0 - resid) + clen0 && f.hiwat + f.ucc == old(f.hiwat + f.ucc) && f.hiwat >= 0 &&
              f.cc == f.ucc
      ensures resid <= resid0 && (resid0 <= space0 && resid0 < MINCLSIZE ==> resid == 0)
    {
      resid := resid0;
      var clen, space, first := clen0, space0, true;
      while first || (resid > 0 && space > 0)
        invariant 0 <= space && space + clen <= f.hiwat && f.cc <= f.ucc && resid <= resid0
        invariant f.cc + clen == old(f.cc) + (resid0 - resid) + clen0 && f.hiwat + f.ucc == old(f.hiwat + f.ucc)
        invariant !first ==> f.cc == f.ucc && clen == 0
        invariant resid0 <= space0 && resid0 < MINCLSIZE ==> resid <= space
        decreases first, resid
      {
        ChunkFits(resid, space, pages);
        var len := ChunkLen(resid, space, pages);
        var storage := MSIZE + if UsesCluster(resid, space, pages) then MCLBYTES else 0;
        space := ChunkSpace(resid, space, pages);
        Send(len + clen, storage);
        resid := resid - len;
        clen, first := 0, false;
      }
    }
  }
}
