/** The callout structures themselves: slots linked through c_next into the queue calltodo and the free
    list callfree, relinked in place by timeout, untimeout, softclock and hardclock. */
module CalloutList {
  import opened Callout

  /** struct callout. */
  class Slot {
    var next: Slot?
    var func: int
    var arg: int
    var time: int
  }

  /** The slot after position i of a list, or null. */
  ghost function After(ns: seq<Slot>, i: nat): Slot? { if i + 1 < |ns| then ns[i + 1] else null }

  /** ns is linked through next, and ends. */
  ghost predicate Linked(ns: seq<Slot>)
    reads ns
  {
    forall i :: 0 <= i < |ns| ==> ns[i].next == After(ns, i)
  }

  ghost predicate Distinct(ns: seq<Slot>) { forall i, j :: 0 <= i < j < |ns| ==> ns[i] != ns[j] }

  ghost predicate Apart(a: seq<Slot>, b: seq<Slot>) { forall i, j :: 0 <= i < |a| && 0 <= j < |b| ==> a[i] != b[j] }

  ghost predicate Within(ns: seq<Slot>, slots: set<Slot>) { forall i :: 0 <= i < |ns| ==> ns[i] in slots }

  ghost function Value(s: Slot): Entry
    reads s
  {
    Entry(s.func, s.arg, s.time)
  }

  ghost function Values(ns: seq<Slot>): (r: seq<Entry>)
    reads ns
    ensures |r| == |ns| && forall i :: 0 <= i < |ns| ==> r[i] == Value(ns[i])
  {
    if ns == [] then [] else Values(ns[..|ns| - 1]) + [Value(ns[|ns| - 1])]
  }

  ghost function Inserted(q: seq<Slot>, k: nat, x: Slot): seq<Slot>
    requires k < |q|
  {
    q[..k + 1] + [x] + q[k + 1..]
  }

  ghost function Removed(q: seq<Slot>, k: nat): seq<Slot>
    requires k + 1 < |q|
  {
    q[..k + 1] + q[k + 2..]
  }

  lemma InsertedApart(q: seq<Slot>, s: seq<Slot>, slots: set<Slot>, k: nat, x: Slot)
    requires k < |q| && Distinct(q) && Apart(q, s) && x !in q && x !in s && Within(q, slots) && x in slots
    ensures Distinct(Inserted(q, k, x)) && Apart(Inserted(q, k, x), s) && Within(Inserted(q, k, x), slots)
  {
  }

  lemma Fresh(q: seq<Slot>, s: seq<Slot>, slots: set<Slot>, x: Slot)
    requires Distinct(s) && Apart(q, s) && Within(q, slots) && Within(s, slots) && x !in slots
    ensures Distinct([x] + s) && Apart(q, [x] + s) && Within(q, slots + {x}) && Within([x] + s, slots + {x})
  {
  }

  lemma FirstLinked(s: seq<Slot>, x: Slot)
    requires Linked(s) && x.next == if s == [] then null else s[0]
    ensures Linked([x] + s)
  {
    assert forall i :: 0 < i <= |s| ==> ([x] + s)[i] == s[i - 1] && After([x] + s, i) == After(s, i - 1);
  }

  lemma InsertedAt(q: seq<Slot>, k: nat, x: Slot, i: nat)
    requires k < |q| && i <= |q|
    ensures var r := Inserted(q, k, x);
            |r| == |q| + 1 && r[i] == (if i <= k then q[i] else if i == k + 1 then x else q[i - 1]) &&
            After(r, i) == if i < k then After(q, i) else if i == k then x else After(q, i - 1)
  {
  }

  lemma RemovedApart(q: seq<Slot>, s: seq<Slot>, slots: set<Slot>, k: nat)
    requires k + 1 < |q| && Distinct(q) && Distinct(s) && Apart(q, s) && Within(q, slots) && Within(s, slots)
    ensures Within(Removed(q, k), slots) && Within([q[k + 1]] + s, slots)
    ensures Distinct(Removed(q, k)) && Distinct([q[k + 1]] + s) && Apart(Removed(q, k), [q[k + 1]] + s)
  {
  }

  lemma RemovedAt(q: seq<Slot>, k: nat, i: nat)
    requires k + 1 < |q| && i < |q| - 1
    ensures var r := Removed(q, k);
            |r| == |q| - 1 && r[i] == (if i <= k then q[i] else q[i + 1]) &&
            After(r, i) == if i < k then After(q, i) else After(q, i + 1)
  {
  }

  /** The clock and the two lists. queue is calltodo's header and the slots it leads to, spare the free
      slots; slots are those of both. */
  class CalloutTable {
    const calltodo: Slot
    var callfree: Slot?
    var now: int
    ghost var queue: seq<Slot>
    ghost var spare: seq<Slot>
    ghost var slots: set<Slot>
    ghost var log: seq<Call>

    ghost predicate Valid()
      reads this, queue, spare
    {
      Within(queue, slots) && Within(spare, slots) &&
      queue != [] && queue[0] == calltodo && Linked(queue) && Linked(spare) &&
      callfree == (if spare == [] then null else spare[0]) &&
      Distinct(queue) && Distinct(spare) && Apart(queue, spare)
    }

    constructor ()
      ensures Valid() && Now() == State(0, [], 0, []) && fresh(slots)
    {
      calltodo := new Slot;
      callfree, now, log := null, 0, [];
      new;
      calltodo.next := null;
      queue, spare, slots := [calltodo], [], {calltodo};
    }

    /** The entries pending. */
    ghost function Pending(): seq<Entry>
      requires queue != []
      reads this, queue
    {
      Values(queue[1..])
    }

    ghost function Now(): State
      requires queue != []
      reads this, queue
    {
      State(now, Pending(), |spare|, log)
    }

    /** One more slot for the free list. */
    method AddSlot()
      requires Valid()
      modifies this`callfree, this`spare, this`slots
      ensures Valid() && fresh(slots - old(slots)) && Now() == old(Now()).(free := old(Now()).free + 1)
    {
      hide Values, Distinct, Apart, Within, Linked;
      var x := new Slot;
      Fresh(queue, spare, slots, x);
      x.next := callfree;
      FirstLinked(spare, x);
      callfree := x;
      spare := [x] + spare;
      slots := slots + {x};
    }

    lemma First()
      requires Valid()
      ensures queue != [] && queue[0] == calltodo && calltodo.next == After(queue, 0)
    {
    }

    lemma At(k: nat)
      requires Valid() && k < |queue|
      ensures queue[k] in slots && queue[k].next == After(queue, k) && (k > 0 ==> Pending()[k - 1] == Value(queue[k]))
    {
    }

    /** Unlink the first free slot. */
    method TakeFree() returns (x: Slot)
      requires Valid() && spare != []
      modifies this`callfree, this`spare
      ensures Valid() && spare == old(spare)[1..] && x == old(spare)[0]
      ensures x !in queue && x !in spare && x in slots
    {
      x := callfree;
      callfree := x.next;
      spare := spare[1..];
    }

    /** Link a slot in behind p, the slot at position k. */
    method LinkIn(p: Slot, ghost k: nat, x: Slot)
      requires Valid() && k < |queue| && p == queue[k] && x !in queue && x !in spare && x in slots
      modifies this`queue, p`next, x`next
      ensures Valid() && queue == Inserted(old(queue), k, x)
    {
      hide Distinct, Apart, Within;
      ghost var q := queue;
      InsertedApart(q, spare, slots, k, x);
      Ahead(q, spare, k);
      x.next := p.next;
      p.next := x;
      hide Inserted, After;
      queue := Inserted(queue, k, x);
      InsertedAt(q, k, x, 0);
      forall i | 0 <= i < |queue|
        ensures queue[i].next == After(queue, i)
      {
        InsertedAt(q, k, x, i);
      }
    }

    /** Unlink slot x behind p, the slot at position k, and put it on the free list. */
    method LinkOut(p: Slot, x: Slot, ghost k: nat)
      requires Valid() && k + 1 < |queue| && p == queue[k] && x == queue[k + 1]
      modifies this`queue, this`callfree, this`spare, p`next, x`next
      ensures Valid() && queue == Removed(old(queue), k) && spare == [x] + old(spare)
    {
      hide Distinct, Apart, Within;
      ghost var q := queue;
      RemovedApart(q, spare, slots, k);
      Ahead(q, spare, k);
      Ahead(q, spare, k + 1);
      p.next := x.next;
      x.next := callfree;
      FirstLinked(spare, x);
      callfree := x;
      spare := [x] + spare;
      hide Removed, After;
      queue := Removed(queue, k);
      RemovedAt(q, k, 0);
      forall i | 0 <= i < |queue|
        ensures queue[i].next == After(queue, i)
      {
        RemovedAt(q, k, i);
      }
    }

    /** The walk of timeout: the slot to insert behind, the slot that follows it, and the ticks left. */
    method Walk(func: int, arg: int, ticks: int) returns (p: Slot, t: Slot?, n: int, ghost k: nat)
      requires Valid()
      ensures k < |queue| && p == queue[k] && t == After(queue, k) && (t != null ==> n <= t.time)
      ensures Insert(Pending(), Entry(func, arg, ticks)) == Pending()[..k] + Insert(Pending()[k..], Entry(func, arg, n))
    {
      hide Valid, Insert, Distinct, Apart, Within, Linked, Values;
      First();
      ghost var q := Pending();
      p, t, n, k := calltodo, calltodo.next, ticks, 0;
      assert q[0..] == q;
      while t != null && n > t.time
        invariant k < |queue| && p == queue[k] && t == After(queue, k)
        invariant Insert(q, Entry(func, arg, ticks)) == q[..k] + Insert(q[k..], Entry(func, arg, n))
        decreases |queue| - k
      {
        At(k + 1);
        PassInsert(q, k, Entry(func, arg, n));
        if t.time > 0 { n := n - t.time; }
        p, t := t, t.next;
        k := k + 1;
      }
    }

    /** The end of timeout: correct the slot that follows, and link the new one in. */
    method PutIn(p: Slot, t: Slot?, ghost k: nat, x: Slot)
      requires Valid() && k < |queue| && p == queue[k] && t == After(queue, k)
      requires x !in queue && x !in spare && x in slots
      modifies this`queue, queue, x`next
      ensures Valid() && queue == Inserted(old(queue), k, x)
      ensures Pending() == old(Pending())[..k] + ([old(Value(x))] + Less(old(Pending())[k..], old(x.time)))
    {
      hide Distinct, Apart, Linked, Values, Less, Valid;
      ghost var q, v := queue, Pending();
      var n := x.time;
      Lowered(t, k, n);
      LinkIn(p, k, x);
      assert Values(q[1..]) == v[..k] + Less(v[k..], n);
      InsertedValues(q, k, x, v[..k], Less(v[k..], n));
    }

    /** Take the ticks of the slot to come from the one that will follow it. */
    method Lowered(t: Slot?, ghost k: nat, n: int)
      requires Valid() && k < |queue| && t == After(queue, k)
      modifies t
      ensures Valid() && Pending() == old(Pending())[..k] + Less(old(Pending())[k..], n)
    {
      hide Values;
      ghost var v := Pending();
      if t == null {
        assert v[..k] == v && v[k..] == [];
      } else {
        Ahead(queue, spare, k + 1);
        hide Distinct, Apart, Linked;
        t.time := t.time - n;
        ghost var w := v[..k] + Less(v[k..], n);
        LessAt(v, k, n);
        forall i | 0 <= i < |v|
          ensures Value(queue[1..][i]) == w[i]
        {
          assert v[i] == old(Value(queue[i + 1]));
        }
      }
    }

    /** Give a free slot its values and its place. */
    method Enqueue(func: int, arg: int, ticks: int)
      requires Valid() && spare != []
      modifies this`queue, this`spare, this`callfree, slots
      ensures Valid() && spare == old(spare)[1..] && Pending() == Insert(old(Pending()), Entry(func, arg, ticks))
    {
      hide Insert, Distinct, Apart, Linked, Values, Less, Inserted;
      ghost var v := Pending();
      var x := TakeFree();
      x.func, x.arg := func, arg;
      assert Pending() == v;
      var p, t, n;
      ghost var k;
      p, t, n, k := Walk(func, arg, ticks);
      x.time := n;
      assert Pending() == v;
      PutIn(p, t, k, x);
      InsertLess(v, k, Entry(func, arg, n));
    }

    /** timeout; ok is false where the source panics because the table is full. */
    method SetTimeout(func: int, arg: int, ticks: int) returns (ok: bool)
      requires Valid()
      modifies this`queue, this`spare, this`callfree, slots
      ensures ok <==> old(Now()).free > 0
      ensures Valid() && Now() == if ok then Step(old(Now()), Event.SetTimeout(func, arg, ticks)) else old(Now())
    {
      hide Insert, Distinct, Apart, Within, Linked, Values;
      if callfree == null { return false; }
      Enqueue(func, arg, if ticks <= 0 then 1 else ticks);
      return true;
    }

    /** The walk of untimeout: the first slot t with this function and argument, and the one before. */
    method Find(func: int, arg: int) returns (p: Slot, t: Slot?, ghost k: nat)
      requires Valid()
      ensures k < |queue| && p == queue[k] && t == After(queue, k) && (t != null ==> t.func == func && t.arg == arg)
      ensures Untimeout(Pending(), func, arg) == Pending()[..k] + Untimeout(Pending()[k..], func, arg)
    {
      hide Valid, Untimeout, Distinct, Apart, Within, Linked, Values;
      First();
      ghost var q := Pending();
      p, t, k := calltodo, calltodo.next, 0;
      assert q[0..] == q;
      while t != null && !(t.func == func && t.arg == arg)
        invariant k < |queue| && p == queue[k] && t == After(queue, k)
        invariant Untimeout(q, func, arg) == q[..k] + Untimeout(q[k..], func, arg)
        decreases |queue| - k
      {
        At(k + 1);
        PassUntimeout(q, k, func, arg);
        p, t := t, t.next;
        k := k + 1;
      }
    }

    /** Give the time of slot t to the next. */
    method GiveTime(t: Slot, ghost k: nat)
      requires Valid() && k + 1 < |queue| && t == queue[k + 1]
      modifies After(queue, k + 1)
      ensures Valid() && Pending() == old(Pending())[..k] + ([old(Pending())[k]] + Rest(old(Pending()), k))
    {
      hide Valid, Distinct, Apart, Within, Linked, Values, Less;
      At(k + 1);
      ghost var v := Pending();
      assert v[..k + 1] == v[..k] + [v[k]] && v == v[..k + 1] + v[k + 1..];
      if t.next != null && t.time > 0 { Lowered(t.next, k + 1, -t.time); }
    }

    /** Take slot t out of the queue, giving its time to the next. */
    method TakeOut(p: Slot, t: Slot, ghost k: nat)
      requires Valid() && k + 1 < |queue| && p == queue[k] && t == queue[k + 1]
      modifies this`queue, this`spare, this`callfree, slots
      ensures Valid() && spare == [t] + old(spare)
      ensures Pending() == old(Pending())[..k] + Untimeout(old(Pending())[k..], old(t.func), old(t.arg))
    {
      hide Valid, Untimeout, Distinct, Apart, Within, Linked, Values, Less, Removed, Rest;
      At(k);
      At(k + 1);
      if k + 2 < |queue| { At(k + 2); }
      ghost var q, v := queue, Pending();
      GiveTime(t, k);
      LinkOut(p, t, k);
      RemovedValues(q, k, v[..k], v[k], Rest(v, k));
      UntimeoutRest(v, k);
    }

    /** untimeout. */
    method Cancel(func: int, arg: int)
      requires Valid()
      modifies this`queue, this`spare, this`callfree, slots
      ensures Valid() && Now() == Step(old(Now()), Event.Cancel(func, arg))
    {
      hide Untimeout, Distinct, Apart, Within, Linked, Values;
      ghost var v := Pending();
      var p, t;
      ghost var k;
      p, t, k := Find(func, arg);
      UntimeoutAt(v, k, func, arg);
      if t != null { TakeOut(p, t, k); }
    }

    /** The clock interrupt's walk over the queue; needsoft tells that something is due. */
    method TickQueue() returns (needsoft: bool)
      requires Valid()
      modifies slots
      ensures Valid() && Pending() == Tick(old(Pending()))
      ensures needsoft <==> Pending() != [] && Pending()[0].time <= 0
    {
      hide Valid, Tick, Values, Distinct, Apart, Within, Linked, Less;
      First();
      ghost var q := Pending();
      needsoft := false;
      var p := calltodo.next;
      ghost var i := 0;
      while p != null
        invariant Valid() && i < |queue| && p == After(queue, i)
        invariant forall j :: 0 <= j < i ==> q[j].time <= 0 && Pending()[j] == Later(q[j])
        invariant forall j :: i <= j < |q| ==> Pending()[j] == q[j]
        invariant needsoft <==> i > 0
        decreases |queue| - i
      {
        At(i + 1);
        LessAt(Pending(), i, 1);
        Lowered(p, i, 1);
        At(i + 1);
        if p.time > 0 { break; }
        needsoft := true;
        if p.time == 0 { break; }
        p := p.next;
        i := i + 1;
      }
      TickIs(q, Pending(), i);
    }

    /** hardclock. */
    method Hardclock() returns (needsoft: bool)
      requires Valid()
      modifies this`now, slots
      ensures Valid() && Now() == Step(old(Now()), Event.Hardclock)
      ensures needsoft <==> Pending() != [] && Pending()[0].time <= 0
    {
      hide Tick, Distinct, Apart, Within, Linked, Values;
      needsoft := TickQueue();
      now := now + 1;
    }

    /** One turn of softclock's loop: unlink the first slot, free it, and call its function. */
    method CallFirst(c: Slot)
      requires Valid() && c == calltodo.next && c.time <= 0
      modifies this`queue, this`spare, this`callfree, this`log, slots
      ensures old(Pending()) != [] && old(Pending())[0].time <= 0
      ensures Valid() && Now() == Step(old(Now()), Event.Softclock)
    {
      hide Distinct, Apart, Within, Linked, Values, Removed;
      First();
      At(0);
      At(1);
      ghost var q, v := queue, Pending();
      log := log + [Call(c.func, c.arg, now + c.time, now)];
      LinkOut(calltodo, c, 0);
      RemovedValues(q, 0, [], v[0], v[1..]);
    }

    /** What a called function, or a clock interrupt during it, may do; ok is false on a panic. */
    method Perform(e: Event) returns (ok: bool)
      requires Valid() && QueueOk(Pending()) && !e.Softclock?
      modifies this`queue, this`spare, this`callfree, this`now, slots
      ensures Valid() && (ok <==> Enabled(old(Now()), e))
      ensures ok ==> QueueOk(Pending()) && Now() == Step(old(Now()), e)
    {
      if Enabled(Now(), e) { StepRefines(Now(), e); }
      hide Step, Valid, Values;
      ok := true;
      match e
      case Hardclock => var soft := Hardclock();
      case SetTimeout(func, arg, ticks) => ok := SetTimeout(func, arg, ticks);
      case Cancel(func, arg) => Cancel(func, arg);
    }

    method PerformAll(acts: seq<Event>, ghost s: State, ghost es0: seq<Event>) returns (ok: bool, ghost es: seq<Event>)
      requires Valid() && QueueOk(Pending()) && Possible(s, es0) && Now() == Exec(s, es0)
      requires forall i :: 0 <= i < |acts| ==> !acts[i].Softclock?
      modifies this`queue, this`spare, this`callfree, this`now, slots
      ensures Valid()
      ensures ok ==> QueueOk(Pending()) && es == es0 + acts && Possible(s, es) && Now() == Exec(s, es)
    {
      hide Step, Possible, Exec, QueueOk, Enabled, Values, Distinct, Apart, Within, Linked;
      es, ok := es0, true;
      for i := 0 to |acts|
        invariant Valid() && QueueOk(Pending()) && es == es0 + acts[..i] && Possible(s, es) && Now() == Exec(s, es)
      {
        ok := Perform(acts[i]);
        if !ok { return; }
        RunSnoc(s, es, acts[i]);
        es := es + [acts[i]];
      }
      assert acts[..|acts|] == acts;
    }

    /** softclock: while the k-th call runs, the events acts[k] happen. It calls what is due, in order,
        including what comes due meanwhile, and ends with nothing due; ok is false if a function
        called finds the table full. */
    method Softclock(acts: seq<seq<Event>>) returns (ok: bool, ghost es: seq<Event>)
      requires Valid() && QueueOk(Pending())
      requires forall k, i :: 0 <= k < |acts| && 0 <= i < |acts[k]| ==> !acts[k][i].Softclock?
      modifies this`queue, this`spare, this`callfree, this`now, this`log, slots
      ensures Valid()
      ensures ok ==> QueueOk(Pending()) && (Pending() != [] ==> Pending()[0].time > 0)
      ensures ok ==> Possible(old(Now()), es) && Now() == Exec(old(Now()), es)
      ensures ok ==> exists n: nat :: es == Woven(acts, n)
    {
      hide Step, Possible, Exec, QueueOk, Woven, Values, Distinct, Apart, Within, Linked;
      es, ok := [], true;
      RunNone(Now());
      WovenNone(acts);
      ghost var n: nat := 0;
      var k, c := 0, calltodo.next;
      First();
      while c != null && c.time <= 0
        invariant Valid() && c == After(queue, 0)
        invariant QueueOk(Pending()) && k <= |acts| && (n == k || k == |acts| <= n)
        invariant Possible(old(Now()), es) && Now() == Exec(old(Now()), es) && es == Woven(acts, n)
        decreases |acts| - k, |queue|
      {
        First();
        At(1);
        PopFacts(Now());
        RunSnoc(old(Now()), es, Event.Softclock);
        CallFirst(c);
        es := es + [Event.Softclock];
        WovenNext(acts, n);
        if k < |acts| {
          ok, es := PerformAll(acts[k], old(Now()), es);
          if !ok { return; }
          k := k + 1;
        }
        n := n + 1;
        c := calltodo.next;
        First();
      }
      if |queue| > 1 { At(1); }
    }
  }

  /** The first entry's time lowered by n. */
  ghost function Less(v: seq<Entry>, n: int): seq<Entry> {
    if v == [] then [] else [v[0].(time := v[0].time - n)] + v[1..]
  }

  /** What follows entry k once it has given up its time. */
  ghost function Rest(v: seq<Entry>, k: nat): seq<Entry>
    requires k < |v|
  {
    if k + 1 < |v| && v[k].time > 0 then Less(v[k + 1..], -v[k].time) else v[k + 1..]
  }

  lemma UntimeoutRest(v: seq<Entry>, k: nat)
    requires k < |v|
    ensures Untimeout(v[k..], v[k].func, v[k].arg) == Rest(v, k)
  {
    UntimeoutAt(v, k, v[k].func, v[k].arg);
  }

  lemma LessAt(v: seq<Entry>, k: nat, n: int)
    requires k < |v|
    ensures var w := v[..k] + Less(v[k..], n);
            |w| == |v| && w[k] == v[k].(time := v[k].time - n) && forall i :: 0 <= i < |v| && i != k ==> w[i] == v[i]
  {
  }

  lemma RemovedValues(q: seq<Slot>, k: nat, a: seq<Entry>, e: Entry, b: seq<Entry>)
    requires k + 1 < |q| && k == |a| && Values(q[1..]) == a + ([e] + b)
    ensures Values(Removed(q, k)[1..]) == a + b
  {
    var r, w := Removed(q, k), a + b;
    forall i | 0 <= i < |w|
      ensures Value(r[1..][i]) == w[i]
    {
      assert w[i] == (a + ([e] + b))[if i < k then i else i + 1];
    }
  }

  lemma PassInsert(v: seq<Entry>, k: nat, e: Entry)
    requires k < |v| && e.time > v[k].time
    ensures v[..k] + Insert(v[k..], e) ==
            v[..k + 1] + Insert(v[k + 1..], if v[k].time > 0 then e.(time := e.time - v[k].time) else e)
  {
    hide Insert;
    InsertAt(v, k, e);
    assert v[..k + 1] == v[..k] + [v[k]];
  }

  lemma PassUntimeout(v: seq<Entry>, k: nat, func: int, arg: int)
    requires k < |v| && !(v[k].func == func && v[k].arg == arg)
    ensures v[..k] + Untimeout(v[k..], func, arg) == v[..k + 1] + Untimeout(v[k + 1..], func, arg)
  {
    hide Untimeout;
    UntimeoutAt(v, k, func, arg);
    assert v[..k + 1] == v[..k] + [v[k]];
  }

  lemma InsertLess(v: seq<Entry>, k: nat, e: Entry)
    requires k <= |v| && (k < |v| ==> e.time <= v[k].time)
    ensures Insert(v[k..], e) == [e] + Less(v[k..], e.time)
  {
    InsertAt(v, k, e);
  }

  lemma InsertedValues(q: seq<Slot>, k: nat, x: Slot, a: seq<Entry>, b: seq<Entry>)
    requires k < |q| && k == |a| && Values(q[1..]) == a + b
    ensures Values(Inserted(q, k, x)[1..]) == a + ([Value(x)] + b)
  {
    var r, w := Inserted(q, k, x), a + ([Value(x)] + b);
    forall i | 0 <= i < |w|
      ensures Value(r[1..][i]) == w[i]
    {
      if i < k {
        assert w[i] == (a + b)[i];
      } else if i > k {
        assert w[i] == (a + b)[i - 1];
      }
    }
  }

  /** The slot at position k stands nowhere else. */
  lemma Ahead(q: seq<Slot>, s: seq<Slot>, k: nat)
    requires k < |q| && Distinct(q) && Apart(q, s)
    ensures forall i :: 0 <= i < |q| && i != k ==> q[i] != q[k]
    ensures forall i :: 0 <= i < |s| ==> s[i] != q[k]
  {
  }
}
