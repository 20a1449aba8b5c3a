/**
 Many threads, each with its own store buffer (PSOCallbacks.cpp keeps it thread_local), over one
 shared memory.  A run interleaves single steps of the callbacks; every write to memory, also
 inside flush and flushAll, is a step of its own.

 The model carries two histories that the program does not have: per thread the callbacks it has
 issued, with the values of its loads, and globally the writes in the order in which memory saw them.
 */
module StoreBufferThreads {
  import opened Common
  import opened StoreBuffer

  datatype Event = Issue(addr: nat, val: Word) | Barrier | Loaded(addr: nat, val: Word)

  /** A pending store, with its position among the events of its thread. */
  datatype Entry = Entry(val: Word, id: nat)

  datatype Write = Write(tid: nat, addr: nat, entry: Entry)

  /** What a thread does next. */
  datatype PC =
    | Ready
    | AfterInsn(addr: nat)
    | Flushing(addr: nat, left: int)
    | FlushingAll(rest: map<nat, seq<Entry>>)

  datatype Thread = Thread(pc: PC, buffer: map<nat, seq<Entry>>, bufferSize: int, events: seq<Event>)

  /** `initial` is the memory that the run started with. */
  datatype State = State(threads: seq<Thread>, writes: seq<Write>, initial: nat -> Word)

  function At(lists: map<nat, seq<Entry>>, addr: nat): seq<Entry> {
    if addr in lists then lists[addr] else []
  }

  function Push(th: Thread, addr: nat, val: Word): Thread {
    th.(buffer := th.buffer[addr := At(th.buffer, addr) + [Entry(val, |th.events|)]],
        bufferSize := th.bufferSize + 1,
        events := th.events + [Issue(addr, val)],
        pc := AfterInsn(addr))
  }

  /** The last value written to `addr`, or the one memory had at first */
  function Memory(initial: nat -> Word, writes: seq<Write>, addr: nat): Word {
    if writes == [] then initial(addr)
    else
      var n := |writes| - 1;
      if writes[n].addr == addr then writes[n].entry.val else Memory(initial, writes[..n], addr)
  }

  /** What a load of the thread yields: its youngest pending store, else memory */
  function LoadValue(s: State, th: Thread, addr: nat): Word {
    var p := At(th.buffer, addr);
    if p == [] then Memory(s.initial, s.writes, addr) else p[|p| - 1].val
  }

  /** A callback begins. */
  ghost predicate CallStep(s: State, th: Thread, th': Thread) {
    && th.pc == Ready
    && (|| (exists addr ::
              th' == th.(pc := AfterInsn(addr), events := th.events + [Loaded(addr, LoadValue(s, th, addr))]))
        || (exists addr, val :: th' == Push(th, addr, val))
        || th' == th.(pc := FlushingAll(th.buffer), events := th.events + [Barrier]))
  }

  /** A step inside a callback that does not write: `th` becomes `th'`. */
  ghost predicate SilentStep(th: Thread, th': Thread) {
    match th.pc
    case Ready => false
    case AfterInsn(addr) =>
      if th.bufferSize >= MAX_BUFFER_SIZE then th' == th.(pc := FlushingAll(th.buffer))
      else th' == th.(pc := Ready) || exists n :: th' == th.(pc := Flushing(addr, n))
    case Flushing(addr, left) =>
      (left <= 0 || At(th.buffer, addr) == []) && th' == th.(pc := Ready)
    case FlushingAll(rest) =>
      (forall addr :: At(rest, addr) == []) && th' == th.(pc := Ready, buffer := map[], bufferSize := 0)
  }

  /** A step of `th` that writes `e` to memory at `addr`. */
  ghost predicate WriteStep(th: Thread, th': Thread, addr: nat, e: Entry) {
    match th.pc
    case Flushing(a, left) =>
      && a == addr && left > 0 && At(th.buffer, addr) != [] && e == At(th.buffer, addr)[0]
      && th' == th.(pc := Flushing(a, left - 1), buffer := th.buffer[addr := At(th.buffer, addr)[1..]])
    case FlushingAll(rest) =>
      && At(rest, addr) != [] && e == At(rest, addr)[0]
      && th' == th.(pc := FlushingAll(rest[addr := At(rest, addr)[1..]]))
    case _ => false
  }

  ghost predicate StepOf(s: State, s': State, t: nat) {
    && t < |s.threads| == |s'.threads| && s'.threads == s.threads[t := s'.threads[t]] && s'.initial == s.initial
    && var th, th' := s.threads[t], s'.threads[t];
       || ((CallStep(s, th, th') || SilentStep(th, th')) && s'.writes == s.writes)
       || (exists addr, e :: WriteStep(th, th', addr, e) && s'.writes == s.writes + [Write(t, addr, e)])
  }

  ghost predicate Next(s: State, s': State) {
    exists t :: StepOf(s, s', t)
  }

  ghost predicate Init(s: State) {
    s.writes == [] && forall t :: 0 <= t < |s.threads| ==> s.threads[t] == Thread(Ready, map[], 0, [])
  }

  ghost predicate IsRun(run: seq<State>) {
    && |run| > 0 && Init(run[0])
    && forall k :: 0 <= k < |run| - 1 ==> Next(run[k], run[k + 1])
  }

  // ---- Histories

  /** The stores of one thread to one address, in program order. */
  function Stores(events: seq<Event>, addr: nat): seq<Entry> {
    if events == [] then []
    else
      var n := |events| - 1;
      Stores(events[..n], addr)
      + if events[n].Issue? && events[n].addr == addr then [Entry(events[n].val, n)] else []
  }

  /** The stores of one thread to one address, in the order in which memory saw them. */
  function Reached(writes: seq<Write>, t: nat, addr: nat): seq<Entry> {
    if writes == [] then []
    else
      var n := |writes| - 1;
      Reached(writes[..n], t, addr)
      + if writes[n].tid == t && writes[n].addr == addr then [writes[n].entry] else []
  }

  /** The stores of a thread to `addr` that have not reached memory. */
  function Unwritten(th: Thread, addr: nat): seq<Entry> {
    if th.pc.FlushingAll? then At(th.pc.rest, addr) else At(th.buffer, addr)
  }

  lemma StoresAppend(events: seq<Event>, ev: Event, addr: nat)
    ensures Stores(events + [ev], addr) ==
            Stores(events, addr) + if ev.Issue? && ev.addr == addr then [Entry(ev.val, |events|)] else []
  {
    assert (events + [ev])[..|events|] == events;
  }

  lemma ReachedAppend(writes: seq<Write>, w: Write, t: nat, addr: nat)
    ensures Reached(writes + [w], t, addr) ==
            Reached(writes, t, addr) + if w.tid == t && w.addr == addr then [w.entry] else []
  {
    assert (writes + [w])[..|writes|] == writes;
  }

  // ---- The invariant

  /** Thread `t` and memory agree at `addr`: nothing lost, nothing invented, nothing reordered. */
  ghost predicate Agree(s: State, t: nat, addr: nat)
    requires t < |s.threads|
  {
    Reached(s.writes, t, addr) + Unwritten(s.threads[t], addr) == Stores(s.threads[t].events, addr)
  }

  /** A pending store is younger than every barrier, except one that is flushing it right now. */
  ghost predicate Fenced(th: Thread) {
    forall f, addr, i | 0 <= f < |th.events| && th.events[f].Barrier? && 0 <= i < |Unwritten(th, addr)| ::
      Unwritten(th, addr)[i].id < f ==> th.pc.FlushingAll? && f == |th.events| - 1
  }

  /** If `later` and `earlier` are writes of one thread, no barrier lies between `earlier` and a younger `later`. */
  ghost predicate NoBarrierBetween(s: State, later: Write, earlier: Write) {
    later.tid == earlier.tid < |s.threads| ==>
      var events := s.threads[later.tid].events;
      forall f | 0 <= f < |events| && earlier.entry.id < f < later.entry.id :: !events[f].Barrier?
  }

  /** No write follows a write of the same thread from behind a later barrier. */
  ghost predicate Ordered(s: State) {
    forall x, y | 0 <= x < y < |s.writes| :: NoBarrierBetween(s, s.writes[x], s.writes[y])
  }

  /** Every write was issued by its thread. */
  ghost predicate Issued(s: State) {
    forall x :: 0 <= x < |s.writes| ==>
      s.writes[x].tid < |s.threads| && s.writes[x].entry.id < |s.threads[s.writes[x].tid].events|
  }

  ghost predicate Inv(s: State) {
    && (forall t, addr: nat :: 0 <= t < |s.threads| ==> Agree(s, t, addr))
    && (forall t :: 0 <= t < |s.threads| ==> Fenced(s.threads[t]))
    && Ordered(s) && Issued(s)
  }

  lemma {:induction false} StoresAreIssued(events: seq<Event>, addr: nat, i: nat)
    requires i < |Stores(events, addr)|
    ensures var e := Stores(events, addr)[i]; e.id < |events| && events[e.id] == Issue(addr, e.val)
  {
    var n := |events| - 1;
    if i < |Stores(events[..n], addr)| { StoresAreIssued(events[..n], addr, i); }
  }

  lemma {:induction false} IssuedIsStored(events: seq<Event>, id: nat)
    requires id < |events| && events[id].Issue?
    ensures Entry(events[id].val, id) in Stores(events, events[id].addr)
  {
    var n := |events| - 1;
    if id < n { IssuedIsStored(events[..n], id); }
  }

  lemma {:induction false} ReachedIsWritten(writes: seq<Write>, t: nat, addr: nat, e: Entry) returns (x: nat)
    requires e in Reached(writes, t, addr)
    ensures x < |writes| && writes[x] == Write(t, addr, e)
  {
    var n := |writes| - 1;
    if writes[n] == Write(t, addr, e) { x := n; }
    else { x := ReachedIsWritten(writes[..n], t, addr, e); }
  }

  // ---- Every step keeps it

  /** The store that a step issues at `addr`, if it issues one */
  function NewStore(th: Thread, th': Thread, addr: nat): seq<Entry> {
    var n := |th.events|;
    if n < |th'.events| && th'.events[n].Issue? && th'.events[n].addr == addr then [Entry(th'.events[n].val, n)] else []
  }

  lemma CallIssues(s: State, th: Thread, th': Thread, addr: nat)
    requires CallStep(s, th, th')
    ensures |th'.events| == |th.events| + 1 && th'.events[..|th.events|] == th.events
    ensures Unwritten(th', addr) == Unwritten(th, addr) + NewStore(th, th', addr)
  {
  }

  lemma SilentIssuesNothing(th: Thread, th': Thread, addr: nat)
    requires SilentStep(th, th')
    ensures th'.events == th.events && Unwritten(th', addr) == Unwritten(th, addr)
  {
  }

  lemma CallKeepsAgree(s: State, s': State, t: nat, addr: nat)
    requires StepOf(s, s', t) && CallStep(s, s.threads[t], s'.threads[t]) && s'.writes == s.writes && Agree(s, t, addr)
    ensures Agree(s', t, addr)
  {
    var th, th' := s.threads[t], s'.threads[t];
    CallIssues(s, th, th', addr);
    StoresAppend(th.events, th'.events[|th.events|], addr);
    assert th'.events == th.events + [th'.events[|th.events|]];
  }

  lemma WriteKeepsAgree(s: State, s': State, t: nat, w: Write, u: nat, addr: nat)
    requires StepOf(s, s', t) && WriteStep(s.threads[t], s'.threads[t], w.addr, w.entry) && w.tid == t
    requires s'.writes == s.writes + [w] && u < |s.threads| && Agree(s, u, addr)
    ensures Agree(s', u, addr)
  {
    ReachedAppend(s.writes, w, u, addr);
  }

  /** The next entry that `th` writes is the oldest unwritten one at its address. */
  lemma WriteIsOldest(th: Thread, th': Thread, addr: nat, e: Entry)
    requires WriteStep(th, th', addr, e)
    ensures Unwritten(th, addr) == [e] + Unwritten(th', addr)
    ensures forall a :: a != addr ==> Unwritten(th, a) == Unwritten(th', a)
    ensures th'.events == th.events && th'.pc.FlushingAll? == th.pc.FlushingAll?
  {
  }

  lemma CallKeepsFenced(s: State, th: Thread, th': Thread)
    requires CallStep(s, th, th') && Fenced(th)
    ensures Fenced(th')
  {
    forall f, addr, i | 0 <= f < |th'.events| && th'.events[f].Barrier? && 0 <= i < |Unwritten(th', addr)|
      ensures Unwritten(th', addr)[i].id < f ==> th'.pc.FlushingAll? && f == |th'.events| - 1
    {
      CallIssues(s, th, th', addr);
      if f < |th.events| && i < |Unwritten(th, addr)| {
        assert th.events[f].Barrier?;
        assert Unwritten(th, addr)[i].id < f ==> th.pc.FlushingAll? && f == |th.events| - 1;
      }
    }
  }

  lemma SilentKeepsFenced(th: Thread, th': Thread)
    requires SilentStep(th, th') && Fenced(th)
    ensures Fenced(th')
  {
    forall f, addr, i | 0 <= f < |th'.events| && th'.events[f].Barrier? && 0 <= i < |Unwritten(th', addr)|
      ensures Unwritten(th', addr)[i].id < f ==> th'.pc.FlushingAll? && f == |th'.events| - 1
    {
      SilentIssuesNothing(th, th', addr);
      assert Unwritten(th, addr)[i].id < f ==> th.pc.FlushingAll? && f == |th.events| - 1;
    }
  }

  lemma WriteKeepsFenced(th: Thread, th': Thread, addr: nat, e: Entry)
    requires WriteStep(th, th', addr, e) && Fenced(th)
    ensures Fenced(th')
  {
    WriteIsOldest(th, th', addr, e);
    forall f, a, i | 0 <= f < |th'.events| && th'.events[f].Barrier? && 0 <= i < |Unwritten(th', a)|
      ensures Unwritten(th', a)[i].id < f ==> th'.pc.FlushingAll? && f == |th'.events| - 1
    {
      var k := if a == addr then i + 1 else i;
      assert Unwritten(th', a)[i] == Unwritten(th, a)[k];
    }
  }

  lemma QuietKeepsOrder(s: State, s': State, t: nat)
    requires Ordered(s) && Issued(s) && StepOf(s, s', t) && s'.writes == s.writes
    requires |s.threads[t].events| <= |s'.threads[t].events|
    requires s'.threads[t].events[..|s.threads[t].events|] == s.threads[t].events
    ensures Ordered(s') && Issued(s')
  {
    forall x, y | 0 <= x < y < |s'.writes| ensures NoBarrierBetween(s', s'.writes[x], s'.writes[y]) {
      assert NoBarrierBetween(s, s.writes[x], s.writes[y]);
    }
  }

  lemma QuietKeepsInv(s: State, s': State, t: nat)
    requires Inv(s) && StepOf(s, s', t) && s'.writes == s.writes
    requires CallStep(s, s.threads[t], s'.threads[t]) || SilentStep(s.threads[t], s'.threads[t])
    ensures Inv(s')
  {
    var th, th' := s.threads[t], s'.threads[t];
    var calls := CallStep(s, th, th');
    forall u, addr: nat | 0 <= u < |s'.threads| ensures Agree(s', u, addr) {
      assert Agree(s, u, addr);
      if u == t {
        if calls { CallKeepsAgree(s, s', t, addr); } else { SilentIssuesNothing(th, th', addr); }
      }
    }
    if calls {
      CallKeepsFenced(s, th, th');
      CallIssues(s, th, th', 0);
    } else {
      SilentKeepsFenced(th, th');
      SilentIssuesNothing(th, th', 0);
    }
    QuietKeepsOrder(s, s', t);
  }

  lemma WriteKeepsInv(s: State, s': State, t: nat, w: Write)
    requires Inv(s) && StepOf(s, s', t) && WriteStep(s.threads[t], s'.threads[t], w.addr, w.entry) && w.tid == t
    requires s'.writes == s.writes + [w]
    ensures Inv(s')
  {
    var th, th' := s.threads[t], s'.threads[t];
    WriteIsOldest(th, th', w.addr, w.entry);
    assert Unwritten(th, w.addr)[0] == w.entry;
    assert Agree(s, t, w.addr);
    assert w.entry.id < |th.events| by {
      var i := |Reached(s.writes, t, w.addr)|;
      assert Stores(th.events, w.addr)[i] == w.entry;
      StoresAreIssued(th.events, w.addr, i);
    }
    forall u, addr: nat | 0 <= u < |s'.threads| ensures Agree(s', u, addr) {
      assert Agree(s, u, addr);
      WriteKeepsAgree(s, s', t, w, u, addr);
    }
    WriteKeepsFenced(th, th', w.addr, w.entry);
    forall x, y | 0 <= x < y < |s'.writes| ensures NoBarrierBetween(s', s'.writes[x], s'.writes[y]) {
      if y < |s.writes| { assert NoBarrierBetween(s, s.writes[x], s.writes[y]); }
    }
  }

  lemma NextKeepsInv(s: State, s': State)
    requires Inv(s) && Next(s, s')
    ensures Inv(s')
  {
    var t: nat :| StepOf(s, s', t);
    if (CallStep(s, s.threads[t], s'.threads[t]) || SilentStep(s.threads[t], s'.threads[t])) && s'.writes == s.writes {
      QuietKeepsInv(s, s', t);
    } else {
      var addr: nat, e :|
        WriteStep(s.threads[t], s'.threads[t], addr, e) && s'.writes == s.writes + [Write(t, addr, e)];
      WriteKeepsInv(s, s', t, Write(t, addr, e));
    }
  }

  lemma InitInv(s: State)
    requires Init(s)
    ensures Inv(s)
  {
    forall t, addr: nat | 0 <= t < |s.threads| ensures Agree(s, t, addr) {}
  }

  lemma {:induction false} RunInv(run: seq<State>, k: nat)
    requires IsRun(run) && k < |run|
    ensures Inv(run[k])
  {
    if k == 0 {
      InitInv(run[0]);
    } else {
      RunInv(run, k - 1);
      assert Next(run[k - 1], run[k - 1 + 1]);
      NextKeepsInv(run[k - 1], run[k]);
    }
  }

  /** Once a thread has gone on past a barrier, every store from before the barrier has reached memory. */
  lemma StoredBeforeBarrierIsWritten(s: State, t: nat, before: nat, flush: nat)
    requires Inv(s) && t < |s.threads| && before < flush < |s.threads[t].events| - 1
    requires s.threads[t].events[before].Issue? && s.threads[t].events[flush].Barrier?
    ensures var e := s.threads[t].events[before]; Entry(e.val, before) in Reached(s.writes, t, e.addr)
  {
    var th := s.threads[t];
    var addr, e := th.events[before].addr, Entry(th.events[before].val, before);
    IssuedIsStored(th.events, before);
    assert Agree(s, t, addr) && Fenced(th);
    assert e !in Unwritten(th, addr);
  }

  // ---- Main results

  /**
   At every moment of every run, what memory has seen of a thread's stores to one address, followed
   by what the thread still holds back, is exactly what the thread stored there, in program order.
   */
  lemma StoresReachMemoryInOrder(run: seq<State>, k: nat, t: nat, addr: nat)
    requires IsRun(run) && k < |run| && t < |run[k].threads|
    ensures Reached(run[k].writes, t, addr) + Unwritten(run[k].threads[t], addr) ==
            Stores(run[k].threads[t].events, addr)
  {
    RunInv(run, k);
    assert Agree(run[k], t, addr);
  }

  /**
   A flush callback is a barrier: when a store issued after it has reached memory, every store the
   thread issued before it has reached memory earlier.
   */
  lemma FlushIsABarrier(run: seq<State>, k: nat, t: nat, before: nat, flush: nat, x: nat)
    requires IsRun(run) && k < |run| && t < |run[k].threads|
    requires before < flush < |run[k].threads[t].events|
    requires run[k].threads[t].events[before].Issue? && run[k].threads[t].events[flush].Barrier?
    requires x < |run[k].writes| && run[k].writes[x].tid == t && run[k].writes[x].entry.id > flush
    ensures exists y :: 0 <= y < x && var e := run[k].threads[t].events[before];
              run[k].writes[y] == Write(t, e.addr, Entry(e.val, before))
  {
    RunInv(run, k);
    var s, th := run[k], run[k].threads[t];
    StoredBeforeBarrierIsWritten(s, t, before, flush);
    var y := ReachedIsWritten(s.writes, t, th.events[before].addr, Entry(th.events[before].val, before));
    assert x < y ==> NoBarrierBetween(s, s.writes[x], s.writes[y]);
    assert y < x;
  }

  /** The last write to an address that a thread has written to; if it is the thread's own, it is its youngest. */
  lemma {:induction false} LastWrite(initial: nat -> Word, writes: seq<Write>, t: nat, addr: nat) returns (x: nat)
    requires Reached(writes, t, addr) != []
    ensures x < |writes| && writes[x].addr == addr && writes[x].entry.val == Memory(initial, writes, addr)
    ensures forall y :: x < y < |writes| ==> writes[y].addr != addr
    ensures var own := Reached(writes, t, addr); writes[x].tid == t ==> writes[x].entry == own[|own| - 1]
  {
    x := |writes| - 1;
    if writes[x].addr != addr { x := LastWrite(initial, writes[..x], t, addr); }
  }

  /**
   A load never yields less than the thread's own last store to the address: it yields that store, or what another
   thread has written last, after the store had reached memory.
   */
  lemma LoadsSeeOwnStores(run: seq<State>, k: nat, t: nat, addr: nat)
    requires IsRun(run) && k < |run| && t < |run[k].threads| && run[k].threads[t].pc == Ready
    requires Stores(run[k].threads[t].events, addr) != []
    ensures var s, th, v := run[k], run[k].threads[t], LoadValue(run[k], run[k].threads[t], addr);
            var own := Stores(th.events, addr);
            || v == own[|own| - 1].val
            || (Reached(s.writes, t, addr) == own
                && exists x :: 0 <= x < |s.writes| && s.writes[x].addr == addr
                               && s.writes[x].tid != t && s.writes[x].entry.val == v
                               && forall y :: x < y < |s.writes| ==> s.writes[y].addr != addr)
  {
    RunInv(run, k);
    var s, th := run[k], run[k].threads[t];
    assert Agree(s, t, addr);
    if At(th.buffer, addr) == [] {
      var x := LastWrite(s.initial, s.writes, t, addr);
    }
  }
}
