/** The callout queue of kern_clock.c: timeout, untimeout, softclock and the callout part of
    hardclock. The queue stores each time as a difference from the entry before it; the
    reference is a list of absolute deadlines. */
module Callout {

  datatype Entry = Entry(func: int, arg: int, time: int)

  function MaxZero(a: int): nat { if a > 0 then a else 0 }

  // ---------- what the queue means ----------

  /** The ticks left to each entry, where base are the ticks to the entry before; negative is overdue. */
  function Abs(q: seq<Entry>, base: nat): seq<Entry> {
    if q == [] then [] else
      var d := base + q[0].time;
      [q[0].(time := d)] + Abs(q[1..], MaxZero(d))
  }

  /** Ordered by deadline, from lo on. */
  predicate Ordered(q: seq<Entry>, base: nat, lo: int) {
    q != [] ==> lo <= base + q[0].time && Ordered(q[1..], MaxZero(base + q[0].time), base + q[0].time)
  }

  /** Overdue entries first, in order; after the first entry to come, differences are not negative. */
  predicate QueueOk(q: seq<Entry>) { q != [] ==> Ordered(q, 0, q[0].time) }

  // ---------- the operations on the differences ----------

  /** hardclock: lower entries up to the first one that is not overdue. */
  function Tick(q: seq<Entry>): seq<Entry> {
    if q == [] then []
    else if q[0].time > 0 then [q[0].(time := q[0].time - 1)] + q[1..]
    else [q[0].(time := q[0].time - 1)] + Tick(q[1..])
  }

  function Insert(q: seq<Entry>, e: Entry): seq<Entry> {
    if q == [] then [e]
    else if e.time > q[0].time then
      [q[0]] + Insert(q[1..], if q[0].time > 0 then e.(time := e.time - q[0].time) else e)
    else [e, q[0].(time := q[0].time - e.time)] + q[1..]
  }

  function Timeout(q: seq<Entry>, func: int, arg: int, ticks: int): seq<Entry> {
    Insert(q, Entry(func, arg, if ticks <= 0 then 1 else ticks))
  }

  function Untimeout(q: seq<Entry>, func: int, arg: int): seq<Entry> {
    if q == [] then []
    else if q[0].func == func && q[0].arg == arg then
      if |q| > 1 && q[0].time > 0 then [q[1].(time := q[1].time + q[0].time)] + q[2..] else q[1..]
    else [q[0]] + Untimeout(q[1..], func, arg)
  }

  // ---------- the same on deadlines ----------

  function Lower(a: seq<Entry>): (r: seq<Entry>)
    ensures |r| == |a| && forall i :: 0 <= i < |a| ==> r[i] == a[i].(time := a[i].time - 1)
  {
    seq(|a|, i requires 0 <= i < |a| => a[i].(time := a[i].time - 1))
  }

  /** Put e before the first entry whose deadline is not earlier. */
  function InsertAbs(a: seq<Entry>, e: Entry): seq<Entry> {
    if a == [] || e.time <= a[0].time then [e] + a else [a[0]] + InsertAbs(a[1..], e)
  }

  /** Take out the first entry with this function and argument. */
  function RemoveAbs(a: seq<Entry>, func: int, arg: int): seq<Entry> {
    if a == [] then []
    else if a[0].func == func && a[0].arg == arg then a[1..]
    else [a[0]] + RemoveAbs(a[1..], func, arg)
  }

  // ---------- refinement ----------

  lemma Cons(x: Entry, r: seq<Entry>, base: nat, lo: int)
    ensures var d := base + x.time;
            Abs([x] + r, base) == [x.(time := d)] + Abs(r, MaxZero(d)) &&
            (Ordered([x] + r, base, lo) <==> lo <= d && Ordered(r, MaxZero(d), d))
  {
    assert ([x] + r)[1..] == r;
  }

  lemma ConsAbs(x: Entry, a: seq<Entry>, e: Entry)
    ensures Lower([x] + a) == [x.(time := x.time - 1)] + Lower(a)
    ensures InsertAbs([x] + a, e) == if e.time <= x.time then [e] + ([x] + a) else [x] + InsertAbs(a, e)
    ensures RemoveAbs([x] + a, e.func, e.arg) ==
            if x.func == e.func && x.arg == e.arg then a else [x] + RemoveAbs(a, e.func, e.arg)
  {
    assert ([x] + a)[1..] == a;
  }

  lemma {:induction false} ShiftBase(q: seq<Entry>, base: nat, lo: int)
    requires base > 0 && lo >= base && Ordered(q, base, lo)
    ensures Abs(q, base - 1) == Lower(Abs(q, base)) && Ordered(q, base - 1, lo - 1)
    decreases |q|
  {
    if q != [] {
      var x, r := q[0], q[1..];
      assert q == [x] + r;
      hide Abs, Ordered, Lower;
      var d := base + x.time;
      Cons(x, r, base, lo);
      Cons(x, r, base - 1, lo - 1);
      ConsAbs(x.(time := d), Abs(r, d), x);
      ShiftBase(r, d, d);
    }
  }

  /** A tick lowers every deadline by one, although it touches only a few entries. */
  lemma {:induction false} TickRefines(q: seq<Entry>, lo: int)
    requires Ordered(q, 0, lo)
    ensures Abs(Tick(q), 0) == Lower(Abs(q, 0)) && Ordered(Tick(q), 0, lo - 1)
    decreases |q|
  {
    if q != [] {
      var x, r := q[0], q[1..];
      assert q == [x] + r;
      hide Abs, Ordered, Lower;
      var y := x.(time := x.time - 1);
      Cons(x, r, 0, lo);
      ConsAbs(x, Abs(r, MaxZero(x.time)), x);
      if x.time > 0 {
        ShiftBase(r, x.time, x.time);
        Cons(y, r, 0, lo - 1);
      } else {
        TickRefines(r, x.time);
        Cons(y, Tick(r), 0, lo - 1);
      }
    }
  }

  /** Inserting by differences puts the entry at its deadline and moves no other deadline. */
  lemma {:induction false} InsertRefines(q: seq<Entry>, e: Entry, base: nat, lo: int)
    requires e.time > 0 && Ordered(q, base, lo) && lo <= base + e.time && (base > 0 ==> lo >= base)
    ensures Abs(Insert(q, e), base) == InsertAbs(Abs(q, base), e.(time := base + e.time))
    ensures Ordered(Insert(q, e), base, lo)
    decreases |q|
  {
    hide Abs, Ordered, Insert, InsertAbs;
    if q == [] {
      InsertNone(e, base, lo);
    } else {
      var x, r := q[0], q[1..];
      assert q == [x] + r;
      var d := base + x.time;
      Cons(x, r, base, lo);
      ConsAbs(x.(time := d), Abs(r, MaxZero(d)), e.(time := base + e.time));
      if e.time > x.time {
        InsertLater(x, r, e);
        var e' := if x.time > 0 then e.(time := e.time - x.time) else e;
        InsertRefines(r, e', MaxZero(d), d);
        Cons(x, Insert(r, e'), base, lo);
      } else {
        InsertHere(x, r, e, base, lo);
      }
    }
  }

  lemma InsertNone(e: Entry, base: nat, lo: int)
    requires e.time > 0 && lo <= base + e.time
    ensures Abs(Insert([], e), base) == InsertAbs(Abs([], base), e.(time := base + e.time)) &&
            Ordered(Insert([], e), base, lo)
  {
    assert [e] + [] == [e];
  }

  lemma InsertLater(x: Entry, r: seq<Entry>, e: Entry)
    requires e.time > x.time
    ensures Insert([x] + r, e) == [x] + Insert(r, if x.time > 0 then e.(time := e.time - x.time) else e)
  {
    assert ([x] + r)[1..] == r;
  }

  lemma InsertHere(x: Entry, r: seq<Entry>, e: Entry, base: nat, lo: int)
    requires 0 < e.time <= x.time && Ordered([x] + r, base, lo) && lo <= base + e.time
    ensures Abs(Insert([x] + r, e), base) == [e.(time := base + e.time)] + Abs([x] + r, base)
    ensures Ordered(Insert([x] + r, e), base, lo)
  {
    hide Abs, Ordered, Insert;
    var t := x.(time := x.time - e.time);
    InsertBefore(x, r, e);
    Cons(x, r, base, lo);
    Cons(e, [t] + r, base, lo);
    Cons(t, r, base + e.time, base + e.time);
    assert t.(time := base + e.time + t.time) == x.(time := base + x.time);
  }

  lemma InsertBefore(x: Entry, r: seq<Entry>, e: Entry)
    requires e.time <= x.time
    ensures Insert([x] + r, e) == [e] + ([x.(time := x.time - e.time)] + r)
  {
    var t := x.(time := x.time - e.time);
    assert ([x] + r)[1..] == r;
    assert [e, t] + r == [e] + ([t] + r);
  }

  /** Removing an entry moves no other deadline. */
  lemma {:induction false} UntimeoutRefines(q: seq<Entry>, func: int, arg: int, base: nat, lo: int)
    requires Ordered(q, base, lo) && (base > 0 ==> lo >= base)
    ensures Abs(Untimeout(q, func, arg), base) == RemoveAbs(Abs(q, base), func, arg)
    ensures Ordered(Untimeout(q, func, arg), base, lo)
    decreases |q|
  {
    if q != [] {
      var x, r := q[0], q[1..];
      assert q == [x] + r;
      hide Abs, Ordered, RemoveAbs;
      var d := base + x.time;
      Cons(x, r, base, lo);
      ConsAbs(x.(time := d), Abs(r, MaxZero(d)), Entry(func, arg, 0));
      if x.func == func && x.arg == arg {
        RemoveHere(q, base, lo);
      } else {
        UntimeoutRefines(r, func, arg, MaxZero(d), d);
        Cons(x, Untimeout(r, func, arg), base, lo);
      }
    }
  }

  lemma RemoveHere(q: seq<Entry>, base: nat, lo: int)
    requires q != [] && Ordered(q, base, lo) && (base > 0 ==> lo >= base)
    ensures var r := Untimeout(q, q[0].func, q[0].arg);
            Ordered(r, base, lo) && Abs(r, base) == Abs(q[1..], MaxZero(base + q[0].time))
  {
    var x := q[0];
    if |q| > 1 {
      var y, r := q[1], q[2..];
      assert q == [x] + ([y] + r) && q[1..] == [y] + r;
      var u := Untimeout(q, x.func, x.arg);
      assert u == if x.time > 0 then [y.(time := y.time + x.time)] + r else [y] + r;
      hide Abs, Ordered, Untimeout;
      Cons(x, [y] + r, base, lo);
      Cons(y, r, MaxZero(base + x.time), base + x.time);
      Cons(y.(time := y.time + x.time), r, base, lo);
      Cons(y, r, base, lo);
    }
  }

  // ---------- runs ----------

  /** A call made by softclock: when it was due and when it was made. */
  datatype Call = Call(func: int, arg: int, due: int, at: int)

  /** The clock, the queue, the number of free slots and the calls made so far. In the model the
      times are differences; in the reference they are absolute deadlines. */
  datatype State = State(now: int, q: seq<Entry>, free: nat, log: seq<Call>)

  datatype Event = Hardclock | SetTimeout(func: int, arg: int, ticks: int) | Cancel(func: int, arg: int) | Softclock

  /** timeout panics when the table is full; softclock calls the first entry if it is due. */
  predicate Enabled(s: State, e: Event) {
    match e
    case SetTimeout(_, _, _) => s.free > 0
    case Softclock => s.q != [] && s.q[0].time <= 0
    case _ => true
  }

  function Step(s: State, e: Event): State
    requires Enabled(s, e)
  {
    match e
    case Hardclock => s.(now := s.now + 1, q := Tick(s.q))
    case SetTimeout(func, arg, ticks) => s.(q := Timeout(s.q, func, arg, ticks), free := s.free - 1)
    case Cancel(func, arg) =>
      var q := Untimeout(s.q, func, arg);
      s.(q := q, free := s.free + if |q| < |s.q| then 1 else 0)
    case Softclock =>
      s.(q := s.q[1..], free := s.free + 1, log := s.log + [Call(s.q[0].func, s.q[0].arg, s.now + s.q[0].time, s.now)])
  }

  predicate IdealEnabled(s: State, e: Event) {
    match e
    case SetTimeout(_, _, _) => s.free > 0
    case Softclock => s.q != [] && s.q[0].time <= s.now
    case _ => true
  }

  /** The reference: a tick only moves the clock, an entry is put at its deadline, which is at
      least one tick away, and softclock calls an entry whose deadline has come. */
  function IdealStep(s: State, e: Event): State
    requires IdealEnabled(s, e)
  {
    match e
    case Hardclock => s.(now := s.now + 1)
    case SetTimeout(func, arg, ticks) =>
      s.(q := InsertAbs(s.q, Entry(func, arg, s.now + if ticks <= 1 then 1 else ticks)), free := s.free - 1)
    case Cancel(func, arg) =>
      var q := RemoveAbs(s.q, func, arg);
      s.(q := q, free := s.free + if |q| < |s.q| then 1 else 0)
    case Softclock =>
      s.(q := s.q[1..], free := s.free + 1, log := s.log + [Call(s.q[0].func, s.q[0].arg, s.q[0].time, s.now)])
  }

  predicate Possible(s: State, es: seq<Event>)
    decreases |es|
  {
    es == [] || (Enabled(s, es[0]) && Possible(Step(s, es[0]), es[1..]))
  }

  function Exec(s: State, es: seq<Event>): State
    requires Possible(s, es)
    decreases |es|
  {
    if es == [] then s else Exec(Step(s, es[0]), es[1..])
  }

  predicate IdealPossible(s: State, es: seq<Event>)
    decreases |es|
  {
    es == [] || (IdealEnabled(s, es[0]) && IdealPossible(IdealStep(s, es[0]), es[1..]))
  }

  function IdealExec(s: State, es: seq<Event>): State
    requires IdealPossible(s, es)
    decreases |es|
  {
    if es == [] then s else IdealExec(IdealStep(s, es[0]), es[1..])
  }

  function At(a: seq<Entry>, now: int): (r: seq<Entry>)
    ensures |r| == |a| && forall i :: 0 <= i < |a| ==> r[i] == a[i].(time := a[i].time + now)
  {
    seq(|a|, i requires 0 <= i < |a| => a[i].(time := a[i].time + now))
  }

  function Meaning(s: State): State { s.(q := At(Abs(s.q, 0), s.now)) }

  lemma {:induction false} AtInsert(a: seq<Entry>, e: Entry, now: int)
    ensures At(InsertAbs(a, e), now) == InsertAbs(At(a, now), e.(time := e.time + now))
  {
    if a != [] && e.time > a[0].time {
      AtInsert(a[1..], e, now);
      assert At(a, now)[1..] == At(a[1..], now);
    }
  }

  lemma {:induction false} AtRemove(a: seq<Entry>, func: int, arg: int, now: int)
    ensures At(RemoveAbs(a, func, arg), now) == RemoveAbs(At(a, now), func, arg)
  {
    if a != [] {
      AtRemove(a[1..], func, arg, now);
      assert At(a, now)[1..] == At(a[1..], now);
    }
  }

  lemma {:induction false} AbsLength(q: seq<Entry>, base: nat)
    ensures |Abs(q, base)| == |q|
  {
    if q != [] { AbsLength(q[1..], MaxZero(base + q[0].time)); }
  }

  lemma {:induction false} Anchor(q: seq<Entry>, base: nat, lo: int)
    requires Ordered(q, base, lo)
    ensures q != [] ==> Ordered(q, base, base + q[0].time)
  {
  }

  lemma PopRefines(s: State)
    requires Enabled(s, Softclock) && QueueOk(s.q)
    ensures QueueOk(Step(s, Softclock).q) && IdealEnabled(Meaning(s), Softclock)
    ensures Meaning(Step(s, Softclock)) == IdealStep(Meaning(s), Softclock)
  {
    var x, r := s.q[0], s.q[1..];
    assert s.q == [x] + r;
    hide Abs, Ordered;
    Cons(x, r, 0, x.time);
    Anchor(r, 0, x.time);
    assert Abs(s.q, 0)[1..] == Abs(r, 0);
    assert At(Abs(s.q, 0), s.now)[1..] == At(Abs(r, 0), s.now);
  }

  lemma HardclockRefines(s: State)
    requires QueueOk(s.q)
    ensures QueueOk(Step(s, Hardclock).q) && Meaning(Step(s, Hardclock)) == IdealStep(Meaning(s), Hardclock)
  {
    if s.q != [] { TickRefines(s.q, s.q[0].time); }
    Anchor(Tick(s.q), 0, if s.q == [] then 0 else s.q[0].time - 1);
  }

  lemma TimeoutRefines(s: State, func: int, arg: int, ticks: int)
    requires QueueOk(s.q) && s.free > 0
    ensures var e := SetTimeout(func, arg, ticks);
            QueueOk(Step(s, e).q) && Meaning(Step(s, e)) == IdealStep(Meaning(s), e)
  {
    var n := Entry(func, arg, if ticks <= 0 then 1 else ticks);
    var lo := if s.q == [] || n.time <= s.q[0].time then n.time else s.q[0].time;
    Weaken(s.q, lo);
    InsertRefines(s.q, n, 0, lo);
    Anchor(Insert(s.q, n), 0, lo);
    AtInsert(Abs(s.q, 0), n, s.now);
  }

  lemma Weaken(q: seq<Entry>, lo: int)
    requires QueueOk(q) && (q != [] ==> lo <= q[0].time)
    ensures Ordered(q, 0, lo)
  {
  }

  lemma CancelRefines(s: State, func: int, arg: int)
    requires QueueOk(s.q)
    ensures var e := Cancel(func, arg);
            QueueOk(Step(s, e).q) && Meaning(Step(s, e)) == IdealStep(Meaning(s), e)
  {
    var lo := if s.q == [] then 0 else s.q[0].time;
    UntimeoutRefines(s.q, func, arg, 0, lo);
    Anchor(Untimeout(s.q, func, arg), 0, lo);
    AtRemove(Abs(s.q, 0), func, arg, s.now);
    AbsLength(s.q, 0);
    AbsLength(Untimeout(s.q, func, arg), 0);
  }

  lemma StepRefines(s: State, e: Event)
    requires QueueOk(s.q) && Enabled(s, e)
    ensures QueueOk(Step(s, e).q) && IdealEnabled(Meaning(s), e) && Meaning(Step(s, e)) == IdealStep(Meaning(s), e)
  {
    hide Step, IdealStep, QueueOk, Meaning;
    match e
    case Hardclock => HardclockRefines(s);
    case SetTimeout(func, arg, ticks) =>
      TimeoutRefines(s, func, arg, ticks);
      assert Meaning(s).free == s.free by { MeaningFields(s); }
    case Cancel(func, arg) => CancelRefines(s, func, arg);
    case Softclock => PopRefines(s);
  }

  lemma MeaningFields(s: State)
    ensures Meaning(s).free == s.free && Meaning(s).now == s.now && Meaning(s).log == s.log
  {
  }

  /** The whole queue refines the deadlines: over every run the model and the reference keep
      step, make the same calls, and have the same slots free. */
  lemma {:induction false} RunRefines(s: State, es: seq<Event>)
    requires QueueOk(s.q) && Possible(s, es)
    ensures QueueOk(Exec(s, es).q) && IdealPossible(Meaning(s), es) && Meaning(Exec(s, es)) == IdealExec(Meaning(s), es)
    decreases |es|
  {
    hide Step, IdealStep, QueueOk, Meaning, Enabled, IdealEnabled;
    if es != [] {
      StepRefines(s, es[0]);
      RunRefines(Step(s, es[0]), es[1..]);
    }
  }

  /** Nothing due is held back: softclock goes on exactly as long as a deadline has come. */
  lemma SoftclockDue(s: State)
    ensures IdealEnabled(Meaning(s), Softclock) <==> Enabled(s, Softclock)
  {
    AbsLength(s.q, 0);
  }

  // ---------- what the reference guarantees ----------

  ghost predicate Sorted(a: seq<Entry>) { forall i, j :: 0 <= i < j < |a| ==> a[i].time <= a[j].time }

  ghost predicate CallsOk(s: State) {
    (forall i :: 0 <= i < |s.log| ==> s.log[i].due <= s.log[i].at <= s.now) &&
    (forall i, j :: 0 <= i < j < |s.log| ==> s.log[i].due <= s.log[j].due) &&
    (forall i, k :: 0 <= i < |s.log| && 0 <= k < |s.q| ==> s.log[i].due <= s.q[k].time)
  }

  ghost predicate IdealOk(s: State, slots: nat) { Sorted(s.q) && CallsOk(s) && |s.q| + s.free == slots }

  lemma SortedCons(x: Entry, r: seq<Entry>)
    requires Sorted(r) && forall k :: 0 <= k < |r| ==> x.time <= r[k].time
    ensures Sorted([x] + r)
  {
  }

  lemma {:induction false} InsertSorted(a: seq<Entry>, e: Entry)
    requires Sorted(a)
    ensures var r := InsertAbs(a, e);
            Sorted(r) && |r| == |a| + 1 && forall k :: 0 <= k < |r| ==> r[k] == e || r[k] in a
  {
    if a != [] && e.time > a[0].time {
      InsertSorted(a[1..], e);
      SortedCons(a[0], InsertAbs(a[1..], e));
    }
  }

  lemma {:induction false} RemoveSorted(a: seq<Entry>, func: int, arg: int)
    requires Sorted(a)
    ensures var r := RemoveAbs(a, func, arg);
            Sorted(r) && (|r| == |a| || |r| == |a| - 1) && forall k :: 0 <= k < |r| ==> r[k] in a
  {
    if a != [] && !(a[0].func == func && a[0].arg == arg) {
      var r := RemoveAbs(a[1..], func, arg);
      RemoveSorted(a[1..], func, arg);
      assert forall k :: 0 <= k < |r| ==> r[k] in a[1..] && a[0].time <= r[k].time;
      SortedCons(a[0], r);
      assert forall k :: 0 < k < |[a[0]] + r| ==> ([a[0]] + r)[k] == r[k - 1];
    }
  }

  lemma IdealKeeps(s: State, e: Event, slots: nat)
    requires IdealEnabled(s, e) && IdealOk(s, slots)
    ensures IdealOk(IdealStep(s, e), slots)
  {
    hide InsertAbs, RemoveAbs;
    match e
    case Hardclock =>
    case SetTimeout(func, arg, ticks) => InsertSorted(s.q, Entry(func, arg, s.now + if ticks <= 1 then 1 else ticks));
    case Cancel(func, arg) => RemoveSorted(s.q, func, arg);
    case Softclock =>
  }

  lemma {:induction false} IdealRunKeeps(s: State, es: seq<Event>, slots: nat)
    requires IdealPossible(s, es) && IdealOk(s, slots)
    ensures IdealOk(IdealExec(s, es), slots)
    decreases |es|
  {
    hide IdealOk, IdealStep, IdealEnabled;
    if es != [] {
      IdealKeeps(s, es[0], slots);
      IdealRunKeeps(IdealStep(s, es[0]), es[1..], slots);
    }
  }

  /** Over every run of the queue from empty: no call is made before it is due, calls are made in
      the order of their deadlines, and slots are neither lost nor made up. */
  lemma CallsInOrder(slots: nat, now: int, es: seq<Event>)
    requires Possible(State(now, [], slots, []), es)
    ensures var t := Exec(State(now, [], slots, []), es);
            |t.q| + t.free == slots &&
            (forall i :: 0 <= i < |t.log| ==> t.log[i].due <= t.log[i].at) &&
            (forall i, j :: 0 <= i < j < |t.log| ==> t.log[i].due <= t.log[j].due)
  {
    hide Exec, Possible, IdealExec, IdealPossible;
    var s := State(now, [], slots, []);
    assert Meaning(s) == s;
    RunRefines(s, es);
    IdealRunKeeps(s, es, slots);
    AbsLength(Exec(s, es).q, 0);
  }

  // ---------- where the calls come from ----------

  function AtLeastOne(n: int): int { if n <= 1 then 1 else n }

  /** The ticks in a run. */
  function Ticks(es: seq<Event>): nat {
    if es == [] then 0 else Ticks(es[1..]) + if es[0].Hardclock? then 1 else 0
  }

  /** How many timeout calls of a run that begins at tick now ask for this call at this tick. */
  function Sets(now: int, es: seq<Event>, c: Entry): nat
    decreases |es|
  {
    if es == [] then 0
    else if es[0].Hardclock? then Sets(now + 1, es[1..], c)
    else
      var asked := es[0].SetTimeout? && Entry(es[0].func, es[0].arg, now + AtLeastOne(es[0].ticks)) == c;
      Sets(now, es[1..], c) + if asked then 1 else 0
  }

  function Pend(q: seq<Entry>, c: Entry): nat {
    if q == [] then 0 else Pend(q[1..], c) + if q[0] == c then 1 else 0
  }

  function Made(log: seq<Call>, c: Entry): nat {
    if log == [] then 0
    else
      var l := log[|log| - 1];
      Made(log[..|log| - 1], c) + if Entry(l.func, l.arg, l.due) == c then 1 else 0
  }

  ghost predicate NoCancel(es: seq<Event>) { forall i :: 0 <= i < |es| ==> !es[i].Cancel? }

  lemma {:induction false} PendInsert(a: seq<Entry>, e: Entry, c: Entry)
    ensures Pend(InsertAbs(a, e), c) == Pend(a, c) + if e == c then 1 else 0
  {
    if a == [] || e.time <= a[0].time {
      assert ([e] + a)[1..] == a;
    } else {
      PendInsert(a[1..], e, c);
      assert ([a[0]] + InsertAbs(a[1..], e))[1..] == InsertAbs(a[1..], e);
    }
  }

  lemma {:induction false} PendRemove(a: seq<Entry>, func: int, arg: int, c: Entry)
    ensures Pend(RemoveAbs(a, func, arg), c) <= Pend(a, c)
  {
    if a != [] && !(a[0].func == func && a[0].arg == arg) {
      PendRemove(a[1..], func, arg, c);
      assert ([a[0]] + RemoveAbs(a[1..], func, arg))[1..] == RemoveAbs(a[1..], func, arg);
    }
  }

  lemma MadeNext(log: seq<Call>, x: Call, c: Entry)
    ensures Made(log + [x], c) == Made(log, c) + if Entry(x.func, x.arg, x.due) == c then 1 else 0
  {
    assert (log + [x])[..|log|] == log;
  }

  lemma IdealStepSets(s: State, e: Event, c: Entry)
    requires IdealEnabled(s, e)
    ensures var t := IdealStep(s, e);
            var set1 := if e.SetTimeout? && Entry(e.func, e.arg, s.now + AtLeastOne(e.ticks)) == c then 1 else 0;
            Pend(t.q, c) + Made(t.log, c) <= Pend(s.q, c) + Made(s.log, c) + set1 &&
            (!e.Cancel? ==> Pend(t.q, c) + Made(t.log, c) == Pend(s.q, c) + Made(s.log, c) + set1)
  {
    hide Made, InsertAbs, RemoveAbs;
    match e
    case Hardclock =>
    case SetTimeout(func, arg, ticks) => PendInsert(s.q, Entry(func, arg, s.now + if ticks <= 1 then 1 else ticks), c);
    case Cancel(func, arg) => PendRemove(s.q, func, arg, c);
    case Softclock => MadeNext(s.log, Call(s.q[0].func, s.q[0].arg, s.q[0].time, s.now), c);
  }

  lemma {:induction false} IdealRunSets(s: State, es: seq<Event>, c: Entry)
    requires IdealPossible(s, es)
    ensures var t := IdealExec(s, es);
            Pend(t.q, c) + Made(t.log, c) <= Pend(s.q, c) + Made(s.log, c) + Sets(s.now, es, c) &&
            (NoCancel(es) ==> Pend(t.q, c) + Made(t.log, c) == Pend(s.q, c) + Made(s.log, c) + Sets(s.now, es, c))
    decreases |es|
  {
    hide Pend, Made;
    if es != [] {
      var t := IdealStep(s, es[0]);
      assert t.now == s.now + if es[0].Hardclock? then 1 else 0;
      IdealStepSets(s, es[0], c);
      hide IdealStep;
      IdealRunSets(t, es[1..], c);
    }
  }

  /** Over every run from an empty queue a call is made no more often than timeout asked for it, at
      that very tick; and if nothing was cancelled, every request was met or is still pending. */
  lemma CallsAsSet(slots: nat, now: int, es: seq<Event>, c: Entry)
    requires Possible(State(now, [], slots, []), es)
    ensures var t := Meaning(Exec(State(now, [], slots, []), es));
            Made(t.log, c) + Pend(t.q, c) <= Sets(now, es, c) &&
            (NoCancel(es) ==> Made(t.log, c) + Pend(t.q, c) == Sets(now, es, c))
  {
    hide Exec, Possible, IdealExec, IdealPossible;
    var s := State(now, [], slots, []);
    assert Meaning(s) == s;
    RunRefines(s, es);
    IdealRunSets(s, es, c);
  }

  lemma {:induction false} SetFound(now: int, es: seq<Event>, c: Entry) returns (j: nat)
    requires Sets(now, es, c) > 0
    ensures j < |es| && es[j].SetTimeout? && es[j].func == c.func && es[j].arg == c.arg
    ensures c.time == now + Ticks(es[..j]) + AtLeastOne(es[j].ticks)
    decreases |es|
  {
    if es[0].SetTimeout? && Entry(es[0].func, es[0].arg, now + AtLeastOne(es[0].ticks)) == c {
      j := 0;
    } else {
      j := SetFound(now + if es[0].Hardclock? then 1 else 0, es[1..], c);
      j := j + 1;
      assert es[..j][1..] == es[1..][..j - 1] && es[..j][0] == es[0];
    }
  }

  lemma {:induction false} MadeOne(log: seq<Call>, i: nat)
    requires i < |log|
    ensures Made(log, Entry(log[i].func, log[i].arg, log[i].due)) > 0
  {
    if i < |log| - 1 { MadeOne(log[..|log| - 1], i); }
  }

  /** Each call made goes back to a timeout with its function and argument, and is due as many ticks
      after that as were asked for, but at least one. */
  lemma CallWasSet(slots: nat, now: int, es: seq<Event>, i: nat) returns (j: nat)
    requires Possible(State(now, [], slots, []), es) && i < |Exec(State(now, [], slots, []), es).log|
    ensures var c := Exec(State(now, [], slots, []), es).log[i];
            j < |es| && es[j].SetTimeout? && es[j].func == c.func && es[j].arg == c.arg &&
            c.due == now + Ticks(es[..j]) + AtLeastOne(es[j].ticks) && c.due <= c.at
  {
    hide Exec, Possible, Made, Pend, Sets;
    var t := Exec(State(now, [], slots, []), es);
    var c := Entry(t.log[i].func, t.log[i].arg, t.log[i].due);
    MeaningFields(t);
    MadeOne(t.log, i);
    CallsAsSet(slots, now, es, c);
    CallsInOrder(slots, now, es);
    j := SetFound(now, es, c);
  }

  // ---------- what each event does, by place ----------

  /** An entry goes behind those with earlier deadlines and before all others. */
  ghost predicate PlacedAt(a: seq<Entry>, r: seq<Entry>, e: Entry, k: nat) {
    k <= |a| && r == a[..k] + [e] + a[k..] &&
    (forall i :: 0 <= i < k ==> a[i].time < e.time) && (k < |a| ==> e.time <= a[k].time)
  }

  lemma {:induction false} InsertPlace(a: seq<Entry>, e: Entry) returns (k: nat)
    ensures PlacedAt(a, InsertAbs(a, e), e, k)
  {
    if a == [] || e.time <= a[0].time {
      k := 0;
      assert [e] + a == a[..0] + [e] + a[0..];
    } else {
      var j := InsertPlace(a[1..], e);
      k := j + 1;
      assert [a[0]] + (a[1..][..j] + [e] + a[1..][j..]) == a[..k] + [e] + a[k..];
    }
  }

  predicate Matches(e: Entry, func: int, arg: int) { e.func == func && e.arg == arg }

  /** The first entry with this function and argument is gone, and no other; nothing if there is none. */
  ghost predicate TakenAt(a: seq<Entry>, r: seq<Entry>, func: int, arg: int, k: nat) {
    k <= |a| && (forall i :: 0 <= i < k ==> !Matches(a[i], func, arg)) &&
    if k == |a| then r == a else Matches(a[k], func, arg) && r == a[..k] + a[k + 1..]
  }

  lemma {:induction false} RemovePlace(a: seq<Entry>, func: int, arg: int) returns (k: nat)
    ensures TakenAt(a, RemoveAbs(a, func, arg), func, arg, k)
  {
    if a == [] || Matches(a[0], func, arg) {
      k := 0;
    } else {
      var j := RemovePlace(a[1..], func, arg);
      k := j + 1;
      var r := RemoveAbs(a[1..], func, arg);
      if j < |a[1..]| {
        assert [a[0]] + (a[1..][..j] + a[1..][j + 1..]) == a[..k] + a[k + 1..];
      } else {
        assert [a[0]] + a[1..] == a;
      }
    }
  }

  /** What an event does to deadlines, free slots, clock and calls: k is the place it happens at. */
  ghost predicate Effect(s: State, t: State, e: Event, k: nat) {
    match e
    case Hardclock => t == s.(now := s.now + 1)
    case SetTimeout(func, arg, ticks) =>
      t == s.(q := t.q, free := t.free) && t.free + 1 == s.free &&
      PlacedAt(s.q, t.q, Entry(func, arg, s.now + if ticks >= 1 then ticks else 1), k)
    case Cancel(func, arg) =>
      t == s.(q := t.q, free := t.free) && TakenAt(s.q, t.q, func, arg, k) &&
      t.free == s.free + if k < |s.q| then 1 else 0
    case Softclock =>
      s.q != [] && t == s.(q := s.q[1..], free := s.free + 1, log := t.log) &&
      t.log == s.log + [Call(s.q[0].func, s.q[0].arg, s.q[0].time, s.now)]
  }

  /** Every event of the queue of differences, seen in deadlines. */
  lemma StepEffect(s: State, e: Event) returns (k: nat)
    requires QueueOk(s.q) && Enabled(s, e)
    ensures Effect(Meaning(s), Meaning(Step(s, e)), e, k)
  {
    StepRefines(s, e);
    hide Step, Meaning, QueueOk, InsertAbs, RemoveAbs;
    k := 0;
    match e
    case SetTimeout(func, arg, ticks) =>
      k := InsertPlace(Meaning(s).q, Entry(func, arg, Meaning(s).now + if ticks <= 1 then 1 else ticks));
    case Cancel(func, arg) => k := RemovePlace(Meaning(s).q, func, arg);
    case _ =>
  }

  function Softclocks(es: seq<Event>): nat {
    if es == [] then 0 else (if es[0].Softclock? then 1 else 0) + Softclocks(es[1..])
  }

  /** The i-th call is made by the i-th softclock event, and is noted for that tick. */
  lemma {:induction false} CallMade(s: State, es: seq<Event>, i: nat) returns (k: nat)
    requires Possible(s, es) && |s.log| <= i < |Exec(s, es).log|
    ensures k < |es| && es[k].Softclock? && Softclocks(es[..k]) == i - |s.log|
    ensures Exec(s, es).log[i].at == s.now + Ticks(es[..k])
    decreases |es|
  {
    hide Tick, Timeout, Untimeout;
    var t, rest := Step(s, es[0]), es[1..];
    if es[0].Softclock? && i == |s.log| {
      k := 0;
      LogGrows(t, rest);
    } else {
      var j := CallMade(t, rest, i);
      k := j + 1;
      assert es[..k] == [es[0]] + rest[..j];
    }
  }

  lemma {:induction false} LogGrows(s: State, es: seq<Event>)
    requires Possible(s, es)
    ensures s.log <= Exec(s, es).log
    decreases |es|
  {
    hide Tick, Timeout, Untimeout;
    if es != [] { LogGrows(Step(s, es[0]), es[1..]); }
  }

  // ---------- facts for the code ----------

  function Later(e: Entry): Entry { e.(time := e.time - 1) }

  /** Tick by position: the entries before i, all due, are lowered, and so is entry i, the first
      to come. */
  lemma {:induction false} TickIs(q: seq<Entry>, r: seq<Entry>, i: nat)
    requires |r| == |q| && i <= |q| && (i < |q| ==> q[i].time > 0 && r[i] == Later(q[i]))
    requires forall j :: 0 <= j < i ==> q[j].time <= 0 && r[j] == Later(q[j])
    requires forall j :: i < j < |q| ==> r[j] == q[j]
    ensures r == Tick(q)
  {
    if i > 0 {
      TickIs(q[1..], r[1..], i - 1);
      assert r == [r[0]] + r[1..];
    } else if q != [] {
      assert r == [r[0]] + q[1..];
    }
  }

  lemma InsertAt(q: seq<Entry>, i: nat, e: Entry)
    requires i <= |q|
    ensures Insert(q[i..], e) ==
      if i == |q| then [e]
      else if e.time > q[i].time then
        [q[i]] + Insert(q[i + 1..], if q[i].time > 0 then e.(time := e.time - q[i].time) else e)
      else [e] + ([q[i].(time := q[i].time - e.time)] + q[i + 1..])
  {
    if i < |q| {
      hide Insert;
      assert q[i..] == [q[i]] + q[i + 1..];
      if e.time > q[i].time {
        InsertLater(q[i], q[i + 1..], e);
      } else {
        InsertBefore(q[i], q[i + 1..], e);
      }
    }
  }

  lemma UntimeoutAt(q: seq<Entry>, i: nat, func: int, arg: int)
    requires i <= |q|
    ensures Untimeout(q[i..], func, arg) ==
      if i == |q| then []
      else if q[i].func == func && q[i].arg == arg then
        if i + 1 < |q| && q[i].time > 0 then q[i + 1 := q[i + 1].(time := q[i + 1].time + q[i].time)][i + 1..]
        else q[i + 1..]
      else [q[i]] + Untimeout(q[i + 1..], func, arg)
  {
    if i < |q| {
      assert q[i..][1..] == q[i + 1..];
      if i + 1 < |q| {
        assert q[i..][2..] == q[i + 2..];
        var t := q[i + 1].(time := q[i + 1].time + q[i].time);
        assert q[i + 1 := t][i + 1..] == [t] + q[i + 2..];
      }
    }
  }

  /** The first n calls of softclock, each followed by what happens during it. */
  function Woven(acts: seq<seq<Event>>, n: nat): seq<Event> {
    if n == 0 then [] else Woven(acts, n - 1) + [Event.Softclock] + if n - 1 < |acts| then acts[n - 1] else []
  }

  lemma WovenNone(acts: seq<seq<Event>>)
    ensures Woven(acts, 0) == []
  {
  }

  lemma WovenNext(acts: seq<seq<Event>>, n: nat)
    ensures Woven(acts, n + 1) == Woven(acts, n) + [Event.Softclock] + if n < |acts| then acts[n] else []
    ensures n >= |acts| ==> Woven(acts, n + 1) == Woven(acts, n) + [Event.Softclock]
  {
    if n >= |acts| { assert Woven(acts, n) + [Event.Softclock] + [] == Woven(acts, n) + [Event.Softclock]; }
  }

  lemma RunNone(s: State)
    ensures Possible(s, []) && Exec(s, []) == s
  {
  }

  lemma PopFacts(s: State)
    requires s.q != [] && s.q[0].time <= 0 && QueueOk(s.q)
    ensures Enabled(s, Event.Softclock) && QueueOk(s.q[1..])
    ensures Step(s, Event.Softclock) ==
            State(s.now, s.q[1..], s.free + 1, s.log + [Call(s.q[0].func, s.q[0].arg, s.now + s.q[0].time, s.now)])
  {
    PopRefines(s);
  }

  lemma {:induction false} RunSnoc(s: State, es: seq<Event>, e: Event)
    requires Possible(s, es) && Enabled(Exec(s, es), e)
    ensures Possible(s, es + [e]) && Exec(s, es + [e]) == Step(Exec(s, es), e)
    decreases |es|
  {
    if es == [] {
      assert (es + [e])[1..] == [];
    } else {
      RunSnoc(Step(s, es[0]), es[1..], e);
      assert (es + [e])[1..] == es[1..] + [e];
    }
  }
}
