/**
 The coroutines of qemu-img convert with ordered writes (convert_co_do_copy in tools/qemu/qemu-img.c): each
 claims a chunk of sectors, reads it, waits until all lower sectors have been written, writes it, and wakes the
 coroutine that waits for the next chunk.  A step runs one coroutine from one point where it can yield to the
 next; the steps come in any order.
 */
module ConvertOrder {
  import opened Common

  datatype Ret = InProgress | Success | Failed

  datatype Pc =
    | NotStarted
    | Idle                           // about to take the lock
    | Holding                        // has the lock and looks for the next chunk
    | Busy(sec: nat, n: nat)         // reads the chunk
    | Waiting(sec: nat, n: nat)      // has yielded until the lower sectors are written
    | Writing(sec: nat, n: nat)
    | Finishing(sec: nat, n: nat)    // does not write because of an error
    | Exited

  /** `wait` is wait_sector_num; `written` says which sectors of the target have been written. */
  datatype State = State(total: nat, sectorNum: nat, wrOffs: nat, ret: Ret, lock: Option<nat>,
                         pc: seq<Pc>, wait: seq<int>, written: seq<bool>)

  /** The coroutine has a chunk. */
  predicate Active(pc: Pc) {
    pc.Busy? || pc.Waiting? || pc.Writing? || pc.Finishing?
  }

  predicate Running(pc: Pc) {
    !pc.NotStarted? && !pc.Exited?
  }

  // ---- Steps

  /** What block status and I/O make of a step */
  datatype Event = Go | Claim(n: nat) | Fail

  predicate Enabled(s: State, i: nat, e: Event)
    requires |s.wait| == |s.pc|
  {
    i < |s.pc| &&
    match s.pc[i]
    case NotStarted => e == Go
    case Idle => e == Go && s.lock == None
    case Holding => e == Fail || (e.Claim? && 0 < e.n && s.sectorNum + e.n <= s.total)
    case Busy(_, _) => e == Go || e == Fail
    case Writing(_, _) => e == Go || e == Fail
    case Finishing(_, _) => e == Go
    case Waiting(_, _) => false
    case Exited => false
  }

  /** The first coroutine that waits for `offs`, as the loop at the end of convert_co_do_copy finds it */
  function Waiter(s: State, offs: nat, from: nat): (r: Option<nat>)
    requires |s.wait| == |s.pc| && from <= |s.pc|
    ensures r.Some? ==> r.value < |s.pc| && !s.pc[r.value].Exited? && s.wait[r.value] == offs
    ensures r.None? ==> forall i :: from <= i < |s.pc| ==> s.pc[i].Exited? || s.wait[i] != offs
    decreases |s.pc| - from
  {
    if from == |s.pc| then None
    else if !s.pc[from].Exited? && s.wait[from] == offs then Some(from)
    else Waiter(s, offs, from + 1)
  }

  /** A coroutine that has been entered leaves its wait loop. */
  function Entered(s: State, i: nat): State
    requires |s.wait| == |s.pc| && i < |s.pc| && Active(s.pc[i])
  {
    var pc := s.pc[i];
    s.(wait := s.wait[i := -1],
       pc := s.pc[i := if s.ret == InProgress then Writing(pc.sec, pc.n) else Finishing(pc.sec, pc.n)])
  }

  /** The state in which `i` has given up its chunk, before it looks for a coroutine to enter */
  function Dropped(s: State, i: nat): State
    requires i < |s.pc| && Active(s.pc[i])
  {
    s.(wrOffs := s.pc[i].sec + s.pc[i].n, pc := s.pc[i := Idle])
  }

  /** The tail of the loop: the coroutine is done with its chunk and enters the one that waits for the next. */
  function Finish(s: State, i: nat): State
    requires |s.wait| == |s.pc| && i < |s.pc| && Active(s.pc[i])
  {
    var offs := s.pc[i].sec + s.pc[i].n;
    var w := Waiter(Dropped(s, i), offs, 0);
    if w.Some? && Dropped(s, i).pc[w.value].Waiting? then Entered(Dropped(s, i), w.value) else Dropped(s, i)
  }

  /** The coroutine leaves convert_co_do_copy. */
  function Exit(s: State, i: nat): State
    requires i < |s.pc|
  {
    var pc := s.pc[i := Exited];
    var last := forall k | 0 <= k < |pc| :: !Running(pc[k]);
    s.(pc := pc, ret := if last && s.ret == InProgress then Success else s.ret)
  }

  function Mark(written: seq<bool>, sec: nat, n: nat): (r: seq<bool>)
    ensures |r| == |written| && forall k :: 0 <= k < |written| ==> r[k] == (written[k] || sec <= k < sec + n)
  {
    seq(|written|, k requires 0 <= k < |written| => written[k] || sec <= k < sec + n)
  }

  function Advance(s: State, i: nat, e: Event): State
    requires |s.wait| == |s.pc| && |s.written| == s.total && Enabled(s, i, e)
  {
    match s.pc[i]
    case NotStarted => s.(pc := s.pc[i := Idle])
    case Idle =>
      if s.ret != InProgress || s.sectorNum >= s.total then Exit(s, i)
      else s.(lock := Some(i), pc := s.pc[i := Holding])
    case Holding =>
      if e == Fail then Exit(s.(ret := Failed, lock := None), i)
      else s.(lock := None, sectorNum := s.sectorNum + e.n, pc := s.pc[i := Busy(s.sectorNum, e.n)])
    case Busy(sec, n) =>
      var s := if e == Fail then s.(ret := Failed) else s;
      if s.wrOffs != sec && s.ret == InProgress then s.(wait := s.wait[i := sec], pc := s.pc[i := Waiting(sec, n)])
      else Entered(s, i)
    case Writing(sec, n) =>
      if e == Fail then Finish(s.(ret := Failed), i)
      else Finish(s.(written := Mark(s.written, sec, n)), i)
    case Finishing(_, _) => Finish(s, i)
  }

  predicate Init(s: State) {
    && s.sectorNum == s.wrOffs == 0 && s.ret == InProgress && s.lock == None && |s.wait| == |s.pc|
    && (forall i :: 0 <= i < |s.pc| ==> s.pc[i] == NotStarted && s.wait[i] == -1)
    && |s.written| == s.total && forall k :: 0 <= k < s.total ==> !s.written[k]
  }

  ghost predicate Next(s: State, s': State) {
    |s.wait| == |s.pc| && |s.written| == s.total && exists i, e :: Enabled(s, i, e) && s' == Advance(s, i, e)
  }

  ghost predicate IsRun(run: seq<State>) {
    |run| > 0 && Init(run[0]) && forall k :: 0 <= k < |run| - 1 ==> Next(run[k], run[k + 1])
  }

  // ---- What always holds

  ghost predicate Shape(s: State) {
    && |s.wait| == |s.pc| && |s.written| == s.total && s.sectorNum <= s.total
    && (forall i {:trigger s.pc[i]} :: 0 <= i < |s.pc| ==> (s.pc[i] == Holding <==> s.lock == Some(i)))
    && (s.lock.Some? ==> s.lock.value < |s.pc| && s.sectorNum < s.total)
    && (forall i {:trigger s.wait[i]} {:trigger s.pc[i]} :: 0 <= i < |s.pc| ==>
         s.wait[i] == if s.pc[i].Waiting? then s.pc[i].sec else -1)
  }

  predicate Apart(a: Pc, b: Pc)
    requires Active(a) && Active(b)
  {
    a.sec + a.n <= b.sec || b.sec + b.n <= a.sec
  }

  ghost predicate NoOverlap(s: State, a: Pc, i: nat)
    requires Active(a)
  {
    forall k {:trigger s.pc[k]} :: 0 <= k < |s.pc| && k != i && Active(s.pc[k]) ==> Apart(a, s.pc[k])
  }

  /** The chunks that have been claimed and not finished are apart from one another. */
  ghost predicate Chunks(s: State) {
    forall i {:trigger s.pc[i]} :: 0 <= i < |s.pc| && Active(s.pc[i]) ==>
      0 < s.pc[i].n && s.pc[i].sec + s.pc[i].n <= s.sectorNum && NoOverlap(s, s.pc[i], i)
  }

  /** Somebody has the chunk that ends at `offs`. */
  ghost predicate Owned(s: State, offs: nat) {
    exists p {:trigger s.pc[p]} :: 0 <= p < |s.pc| && Active(s.pc[p]) && s.pc[p].sec + s.pc[p].n == offs
  }

  /** Whoever waits is waited for: the coroutine with the chunk before it will enter it. */
  ghost predicate Followed(s: State) {
    forall i {:trigger s.pc[i]} :: 0 <= i < |s.pc| && s.pc[i].Waiting? ==> Owned(s, s.pc[i].sec)
  }

  ghost predicate Covers(s: State, k: nat) {
    exists p {:trigger s.pc[p]} :: 0 <= p < |s.pc| && Active(s.pc[p]) && s.pc[p].sec <= k < s.pc[p].sec + s.pc[p].n
  }

  /** The part of InOrder that concerns the coroutines */
  ghost predicate Placed(s: State) {
    && s.wrOffs <= s.sectorNum && |s.written| == s.total
    && (forall i {:trigger s.pc[i]} :: 0 <= i < |s.pc| && Active(s.pc[i]) ==>
          && !s.pc[i].Finishing? && s.wrOffs <= s.pc[i].sec
          && (s.pc[i].Waiting? ==> s.pc[i].sec != s.wrOffs) && (s.pc[i].Writing? ==> s.pc[i].sec == s.wrOffs))
    && (forall k {:trigger Covers(s, k)} :: s.wrOffs <= k < s.sectorNum ==> Covers(s, k))
  }

  /**
   As long as there is no error: exactly the sectors below wr_offs have been written, the ones up to sector_num are
   in the hands of coroutines, and only the chunk at wr_offs is being written.
   */
  ghost predicate InOrder(s: State) {
    Placed(s) && forall k {:trigger s.written[k]} :: 0 <= k < s.total ==> (s.written[k] <==> k < s.wrOffs)
  }

  ghost predicate Inv(s: State) {
    && Shape(s) && Chunks(s) && Followed(s)
    && (s.ret == InProgress ==> InOrder(s))
    && (s.ret == Success ==> forall k :: 0 <= k < s.total ==> s.written[k])
  }

  lemma InitInv(s: State)
    requires Init(s)
    ensures Inv(s)
  {
  }

  /** A coroutine without a chunk does something that leaves it without one. */
  lemma SamePcs(s: State, s': State, i: nat)
    requires i < |s.pc| && !Active(s.pc[i]) && |s'.pc| == |s.pc| && !Active(s'.pc[i]) && s'.pc == s.pc[i := s'.pc[i]]
    requires Chunks(s) && Followed(s) && s'.sectorNum == s.sectorNum && s'.wrOffs == s.wrOffs && s'.total == s.total
    requires s'.written == s.written
    ensures Chunks(s') && Followed(s') && (InOrder(s) ==> InOrder(s'))
  {
    forall k | 0 <= k < |s'.pc| && s'.pc[k].Waiting? ensures Owned(s', s'.pc[k].sec) {
      assert s.pc[k].Waiting?;
      var p :| 0 <= p < |s.pc| && Active(s.pc[p]) && s.pc[p].sec + s.pc[p].n == s.pc[k].sec;
      assert s'.pc[p] == s.pc[p];
    }
    forall k: nat | Covers(s, k) ensures Covers(s', k) {
      var p :| 0 <= p < |s.pc| && Active(s.pc[p]) && s.pc[p].sec <= k < s.pc[p].sec + s.pc[p].n;
      assert s'.pc[p] == s.pc[p];
    }
  }

  lemma LockInv(s: State, i: nat)
    requires Inv(s) && i < |s.pc| && s.pc[i] == Idle && s.lock == None && s.ret == InProgress && s.sectorNum < s.total
    ensures Inv(s.(lock := Some(i), pc := s.pc[i := Holding]))
  {
    SamePcs(s, s.(lock := Some(i), pc := s.pc[i := Holding]), i);
  }

  lemma StartInv(s: State, i: nat)
    requires Inv(s) && i < |s.pc| && s.pc[i] == NotStarted
    ensures Inv(s.(pc := s.pc[i := Idle]))
  {
    SamePcs(s, s.(pc := s.pc[i := Idle]), i);
  }

  /** When the last coroutine leaves and there was no error, everything has been written. */
  lemma ExitInv(s: State, i: nat)
    requires Shape(s) && Chunks(s) && Followed(s) && i < |s.pc| && s.pc[i] == Idle
    requires (s.ret == InProgress ==> InOrder(s) && s.sectorNum == s.total)
    requires s.ret == Success ==> forall k :: 0 <= k < s.total ==> s.written[k]
    ensures Inv(Exit(s, i))
  {
    var s' := Exit(s, i);
    SamePcs(s, s', i);
    if s'.ret == Success && s.ret == InProgress {
      forall p | 0 <= p < |s.pc| ensures !Active(s.pc[p]) { assert p == i || !Running(s'.pc[p]); }
      assert !Covers(s, s.wrOffs);
    }
  }

  lemma LookupFails(s: State, i: nat)
    requires Inv(s) && i < |s.pc| && s.pc[i] == Holding
    ensures Inv(Exit(s.(ret := Failed, lock := None), i))
  {
    SamePcs(s, Exit(s.(ret := Failed, lock := None), i), i);
  }

  lemma ClaimChunks(s: State, s': State, i: nat, n: nat)
    requires Chunks(s) && i < |s.pc| && !Active(s.pc[i]) && 0 < n && s'.pc == s.pc[i := Busy(s.sectorNum, n)]
    requires s'.sectorNum == s.sectorNum + n
    ensures Chunks(s')
    ensures forall offs :: Owned(s, offs) ==> Owned(s', offs)
    ensures forall k: nat :: Covers(s, k) || s.sectorNum <= k < s'.sectorNum ==> Covers(s', k)
  {
    forall offs: nat | Owned(s, offs) ensures Owned(s', offs) {
      var p :| 0 <= p < |s.pc| && Active(s.pc[p]) && s.pc[p].sec + s.pc[p].n == offs;
      assert s'.pc[p] == s.pc[p];
    }
    forall k: nat | Covers(s, k) ensures Covers(s', k) {
      var p :| 0 <= p < |s.pc| && Active(s.pc[p]) && s.pc[p].sec <= k < s.pc[p].sec + s.pc[p].n;
      assert s'.pc[p] == s.pc[p];
    }
    assert s'.pc[i].Busy?;
  }

  /** A coroutine claims the next chunk. */
  lemma ClaimInv(s: State, i: nat, n: nat)
    requires Inv(s) && i < |s.pc| && s.pc[i] == Holding && 0 < n && s.sectorNum + n <= s.total
    ensures Inv(s.(lock := None, sectorNum := s.sectorNum + n, pc := s.pc[i := Busy(s.sectorNum, n)]))
  {
    ClaimChunks(s, s.(lock := None, sectorNum := s.sectorNum + n, pc := s.pc[i := Busy(s.sectorNum, n)]), i, n);
  }

  /** A coroutine keeps its chunk while it changes its state. */
  lemma KeepsChunk(s: State, s': State, i: nat)
    requires i < |s.pc| && Active(s.pc[i]) && |s'.pc| == |s.pc| && Active(s'.pc[i]) && s'.pc == s.pc[i := s'.pc[i]]
    requires s'.pc[i].sec == s.pc[i].sec && s'.pc[i].n == s.pc[i].n && s'.sectorNum == s.sectorNum && Chunks(s)
    ensures Chunks(s')
    ensures forall offs :: Owned(s, offs) ==> Owned(s', offs)
    ensures forall k :: Covers(s, k) ==> Covers(s', k)
  {
    forall offs: nat | Owned(s, offs) ensures Owned(s', offs) {
      var p :| 0 <= p < |s.pc| && Active(s.pc[p]) && s.pc[p].sec + s.pc[p].n == offs;
      assert Active(s'.pc[p]);
    }
    forall k: nat | Covers(s, k) ensures Covers(s', k) {
      var p :| 0 <= p < |s.pc| && Active(s.pc[p]) && s.pc[p].sec <= k < s.pc[p].sec + s.pc[p].n;
      assert Active(s'.pc[p]);
    }
  }

  /** In order, somebody has the chunk before any chunk that is not next. */
  lemma ChunkBefore(s: State, i: nat)
    requires Chunks(s) && InOrder(s) && i < |s.pc| && Active(s.pc[i]) && s.wrOffs != s.pc[i].sec
    ensures Owned(s, s.pc[i].sec)
  {
    var sec := s.pc[i].sec;
    assert Covers(s, sec - 1);
    var p :| 0 <= p < |s.pc| && Active(s.pc[p]) && s.pc[p].sec <= sec - 1 < s.pc[p].sec + s.pc[p].n;
    assert Apart(s.pc[i], s.pc[p]);
  }

  lemma WaitInv(s: State, i: nat)
    requires Inv(s) && i < |s.pc| && s.pc[i].Busy? && s.wrOffs != s.pc[i].sec && s.ret == InProgress
    ensures Inv(s.(wait := s.wait[i := s.pc[i].sec], pc := s.pc[i := Waiting(s.pc[i].sec, s.pc[i].n)]))
  {
    ChunkBefore(s, i);
    KeepsChunk(s, s.(wait := s.wait[i := s.pc[i].sec], pc := s.pc[i := Waiting(s.pc[i].sec, s.pc[i].n)]), i);
  }

  ghost predicate FollowedBut(s: State, i: nat) {
    forall k {:trigger s.pc[k]} :: 0 <= k < |s.pc| && s.pc[k].Waiting? && k != i ==> Owned(s, s.pc[k].sec)
  }

  /** InOrder, but that `i` has not noticed yet that it is its turn */
  ghost predicate Ordered(s: State, i: nat) {
    && s.wrOffs <= s.sectorNum && |s.written| == s.total
    && (forall k {:trigger s.pc[k]} :: 0 <= k < |s.pc| && Active(s.pc[k]) ==>
          && !s.pc[k].Finishing? && s.wrOffs <= s.pc[k].sec
          && (s.pc[k].Waiting? && k != i ==> s.pc[k].sec != s.wrOffs) && (s.pc[k].Writing? ==> s.pc[k].sec == s.wrOffs))
    && (forall k {:trigger Covers(s, k)} :: s.wrOffs <= k < s.sectorNum ==> Covers(s, k))
    && (forall k {:trigger s.written[k]} :: 0 <= k < s.total ==> (s.written[k] <==> k < s.wrOffs))
  }

  /** The chunk whose turn it is is written, or every chunk is dropped after an error. */
  lemma EnteredInv(s: State, i: nat)
    requires Shape(s) && Chunks(s) && FollowedBut(s, i) && i < |s.pc| && (s.pc[i].Busy? || s.pc[i].Waiting?)
    requires s.ret == InProgress ==> Ordered(s, i) && s.wrOffs == s.pc[i].sec
    requires s.ret == Success ==> forall k :: 0 <= k < s.total ==> s.written[k]
    ensures Inv(Entered(s, i))
  {
    KeepsChunk(s, Entered(s, i), i);
  }

  lemma DropChunk(s: State, i: nat)
    requires Chunks(s) && i < |s.pc| && Active(s.pc[i])
    ensures Chunks(Dropped(s, i))
    ensures forall offs :: Owned(s, offs) && offs != s.pc[i].sec + s.pc[i].n ==> Owned(Dropped(s, i), offs)
    ensures forall k: nat :: Covers(s, k) && !(s.pc[i].sec <= k < s.pc[i].sec + s.pc[i].n) ==> Covers(Dropped(s, i), k)
  {
    var s' := Dropped(s, i);
    forall offs: nat | Owned(s, offs) && offs != s.pc[i].sec + s.pc[i].n ensures Owned(s', offs) {
      var p :| 0 <= p < |s.pc| && Active(s.pc[p]) && s.pc[p].sec + s.pc[p].n == offs;
      assert s'.pc[p] == s.pc[p];
    }
    forall k: nat | Covers(s, k) && !(s.pc[i].sec <= k < s.pc[i].sec + s.pc[i].n) ensures Covers(s', k) {
      var p :| 0 <= p < |s.pc| && Active(s.pc[p]) && s.pc[p].sec <= k < s.pc[p].sec + s.pc[p].n;
      assert s'.pc[p] == s.pc[p];
    }
  }

  /** Whoever waits for the end of the chunk of `i` is `w`. */
  lemma DropFollowed(s: State, i: nat, w: nat)
    requires Chunks(s) && Followed(s) && i < |s.pc| && Active(s.pc[i])
    requires forall k :: 0 <= k < |s.pc| && s.pc[k].Waiting? && s.pc[k].sec == s.pc[i].sec + s.pc[i].n ==> k == w
    ensures FollowedBut(Dropped(s, i), w)
  {
    DropChunk(s, i);
    forall k | 0 <= k < |s.pc| && Dropped(s, i).pc[k].Waiting? && k != w ensures Owned(Dropped(s, i), s.pc[k].sec) {
      assert s.pc[k].Waiting?;
    }
  }

  /** No error so far, and the chunk of `i` has just been written. */
  ghost predicate JustWritten(s: State, i: nat)
    requires i < |s.pc|
  {
    && Placed(s) && s.pc[i].Writing?
    && forall k {:trigger s.written[k]} :: 0 <= k < s.total ==> (s.written[k] <==> k < s.pc[i].sec + s.pc[i].n)
  }

  lemma DropInOrder(s: State, i: nat, w: nat)
    requires Chunks(s) && i < |s.pc| && JustWritten(s, i)
    requires forall k :: 0 <= k < |s.pc| && s.pc[k].Waiting? && s.pc[k].sec == s.pc[i].sec + s.pc[i].n ==> k == w
    ensures Ordered(Dropped(s, i), w)
  {
    DropChunk(s, i);
    var s' := Dropped(s, i);
    forall k | s'.wrOffs <= k < s'.sectorNum ensures Covers(s', k) { assert Covers(s, k); }
    forall k | 0 <= k < |s'.pc| && Active(s'.pc[k]) ensures s'.wrOffs <= s'.pc[k].sec && !s'.pc[k].Writing? {
      assert Active(s.pc[k]) && Apart(s.pc[i], s.pc[k]);
    }
  }

  /** At most one coroutine waits for an offset, and the search finds it. */
  lemma WaiterIsFound(s: State, i: nat, offs: nat)
    requires Shape(s) && Chunks(s) && i < |s.pc| && Active(s.pc[i]) && !s.pc[i].Waiting?
    ensures var w := Waiter(Dropped(s, i), offs, 0);
            && (w.Some? ==> s.pc[w.value].Waiting? && s.pc[w.value].sec == offs && w.value != i)
            && forall k :: 0 <= k < |s.pc| && s.pc[k].Waiting? && s.pc[k].sec == offs ==> w == Some(k)
  {
    var s' := Dropped(s, i);
    var w := Waiter(s', offs, 0);
    if w.Some? { assert s.wait[w.value] == offs && s'.wait == s.wait; }
    forall k | 0 <= k < |s.pc| && s.pc[k].Waiting? && s.pc[k].sec == offs ensures w == Some(k) {
      assert s'.pc[k] == s.pc[k] && s.wait[k] == offs;
      assert NoOverlap(s, s.pc[k], k) && w.Some?;
    }
  }

  /** What holds when `i` has given up its chunk; `w` is the coroutine to enter, if there is one, or else `i`. */
  ghost predicate ChunkGone(s: State, w: nat) {
    && Shape(s) && Chunks(s) && FollowedBut(s, w) && (s.ret == InProgress ==> Ordered(s, w))
    && (s.ret == Success ==> forall k :: 0 <= k < s.total ==> s.written[k])
  }

  lemma DroppedShape(s: State, i: nat)
    requires Shape(s) && i < |s.pc| && Active(s.pc[i]) && !s.pc[i].Waiting?
    ensures Shape(Dropped(s, i))
  {
  }

  lemma DropInv(s: State, i: nat, w: nat)
    requires Shape(s) && Chunks(s) && Followed(s) && i < |s.pc| && (s.pc[i].Writing? || s.pc[i].Finishing?)
    requires s.ret == InProgress ==> JustWritten(s, i)
    requires s.ret == Success ==> forall k :: 0 <= k < s.total ==> s.written[k]
    requires forall k :: 0 <= k < |s.pc| && s.pc[k].Waiting? && s.pc[k].sec == s.pc[i].sec + s.pc[i].n ==> k == w
    ensures ChunkGone(Dropped(s, i), w)
  {
    DropChunk(s, i);
    DropFollowed(s, i, w);
    if s.ret == InProgress { DropInOrder(s, i, w); }
    DroppedShape(s, i);
  }

  lemma SameChunks(s: State, s': State)
    requires s'.pc == s.pc && s'.sectorNum == s.sectorNum && Chunks(s) && Followed(s)
    ensures Chunks(s') && Followed(s') && forall k: nat :: Covers(s, k) ==> Covers(s', k)
  {
    forall k: nat | Covers(s, k) ensures Covers(s', k) {
      var p :| 0 <= p < |s.pc| && Active(s.pc[p]) && s.pc[p].sec <= k < s.pc[p].sec + s.pc[p].n;
      assert Active(s'.pc[p]);
    }
    forall offs: nat | Owned(s, offs) ensures Owned(s', offs) {
      var p :| 0 <= p < |s.pc| && Active(s.pc[p]) && s.pc[p].sec + s.pc[p].n == offs;
      assert Active(s'.pc[p]);
    }
  }

  lemma NobodyToEnter(s: State, i: nat)
    requires ChunkGone(s, i) && i < |s.pc| && s.pc[i] == Idle
    ensures Inv(s)
  {
  }

  /** The tail of Finish: the coroutine that waits, if there is one, is entered. */
  lemma EnterInv(s: State, i: nat, offs: nat)
    requires i < |s.pc| && s.pc[i] == Idle && |s.wait| == |s.pc| && s.wrOffs == offs
    requires var w := Waiter(s, offs, 0);
             && (w.Some? ==> s.pc[w.value].Waiting? && s.pc[w.value].sec == offs)
             && ChunkGone(s, if w.Some? then w.value else i)
    ensures var w := Waiter(s, offs, 0); Inv(if w.Some? then Entered(s, w.value) else s)
  {
    var w := Waiter(s, offs, 0);
    if w.Some? {
      EnteredInv(s, w.value);
    } else {
      NobodyToEnter(s, i);
    }
  }

  lemma FinishEnters(s: State, i: nat, offs: nat)
    requires |s.wait| == |s.pc| && i < |s.pc| && Active(s.pc[i]) && offs == s.pc[i].sec + s.pc[i].n
    requires var w := Waiter(Dropped(s, i), offs, 0);
             && (w.Some? ==> s.pc[w.value].Waiting? && w.value != i)
             && Inv(if w.Some? then Entered(Dropped(s, i), w.value) else Dropped(s, i))
    ensures Inv(Finish(s, i))
  {
  }

  /** Finishing a chunk, after it has been written or dropped */
  lemma FinishInv(s: State, i: nat)
    requires Shape(s) && Chunks(s) && Followed(s) && i < |s.pc| && (s.pc[i].Writing? || s.pc[i].Finishing?)
    requires s.ret == InProgress ==> JustWritten(s, i)
    requires s.ret == Success ==> forall k :: 0 <= k < s.total ==> s.written[k]
    ensures Inv(Finish(s, i))
  {
    var offs := s.pc[i].sec + s.pc[i].n;
    WaiterIsFound(s, i, offs);
    var w := Waiter(Dropped(s, i), offs, 0);
    DropInv(s, i, if w.Some? then w.value else i);
    EnterInv(Dropped(s, i), i, offs);
    FinishEnters(s, i, offs);
  }

  lemma ReadInv(s: State, i: nat, e: Event)
    requires Inv(s) && Enabled(s, i, e) && s.pc[i].Busy?
    ensures Inv(Advance(s, i, e))
  {
    var s1 := if e == Fail then s.(ret := Failed) else s;
    if s1.wrOffs != s1.pc[i].sec && s1.ret == InProgress {
      WaitInv(s, i);
    } else {
      EnteredInv(s1, i);
    }
  }

  /** The chunk of `i` is on the target. */
  lemma MarkWritten(s: State, i: nat)
    requires Inv(s) && i < |s.pc| && s.pc[i].Writing?
    ensures var s' := s.(written := Mark(s.written, s.pc[i].sec, s.pc[i].n));
            Shape(s') && Chunks(s') && Followed(s') && (s.ret == InProgress ==> JustWritten(s', i))
  {
    var s' := s.(written := Mark(s.written, s.pc[i].sec, s.pc[i].n));
    SameChunks(s, s');
  }

  lemma WriteInv(s: State, i: nat, e: Event)
    requires Inv(s) && Enabled(s, i, e) && s.pc[i].Writing?
    ensures Inv(Advance(s, i, e))
  {
    if e == Fail {
      SameChunks(s, s.(ret := Failed));
      FinishInv(s.(ret := Failed), i);
    } else {
      MarkWritten(s, i);
      FinishInv(s.(written := Mark(s.written, s.pc[i].sec, s.pc[i].n)), i);
    }
  }

  lemma StepInv(s: State, i: nat, e: Event)
    requires Inv(s) && Enabled(s, i, e)
    ensures Inv(Advance(s, i, e))
  {
    match s.pc[i]
    case NotStarted => StartInv(s, i);
    case Idle =>
      if s.ret != InProgress || s.sectorNum >= s.total { ExitInv(s, i); } else { LockInv(s, i); }
    case Holding =>
      if e == Fail { LookupFails(s, i); } else { ClaimInv(s, i, e.n); }
    case Busy(_, _) => ReadInv(s, i, e);
    case Writing(_, _) => WriteInv(s, i, e);
    case Finishing(_, _) =>
      FinishInv(s, i);
  }

  lemma NextInv(s: State, s': State)
    requires Inv(s) && Next(s, s')
    ensures Inv(s')
  {
    var i, e :| Enabled(s, i, e) && s' == Advance(s, i, e);
    StepInv(s, i, e);
  }

  lemma NextInRun(run: seq<State>, k: nat)
    requires IsRun(run) && k + 1 < |run| && Inv(run[k])
    ensures Inv(run[k + 1])
  {
    assert Next(run[k], run[k + 1]);
    NextInv(run[k], run[k + 1]);
  }

  lemma {:induction false} RunInv(run: seq<State>, k: nat)
    requires IsRun(run) && k < |run|
    ensures Inv(run[k])
  {
    if k == 0 {
      InitInv(run[0]);
    } else {
      RunInv(run, k - 1);
      NextInRun(run, k - 1);
    }
  }

  // ---- What it means

  /** Without an error, a chunk is written when exactly the sectors below it have been, and only one at a time. */
  lemma WritesInOrder(run: seq<State>, k: nat, i: nat)
    requires IsRun(run) && k < |run| && i < |run[k].pc| && run[k].pc[i].Writing? && run[k].ret == InProgress
    ensures |run[k].written| == run[k].total
    ensures forall x :: 0 <= x < run[k].total ==> (run[k].written[x] <==> x < run[k].pc[i].sec)
    ensures forall j :: 0 <= j < |run[k].pc| && run[k].pc[j].Writing? ==> j == i
  {
    RunInv(run, k);
    var s := run[k];
    assert NoOverlap(s, s.pc[i], i);
  }

  /**
   The chunks claimed so far split up [0, sector_num): the finished ones are below wr_offs, every other sector is in
   one chunk.
   */
  lemma ChunksPartition(run: seq<State>, k: nat, x: nat)
    requires IsRun(run) && k < |run| && run[k].ret == InProgress && x < run[k].sectorNum
    ensures x >= run[k].wrOffs <==> Covers(run[k], x)
    ensures forall i, j :: 0 <= i < j < |run[k].pc| && Active(run[k].pc[i]) && Active(run[k].pc[j]) ==>
      Apart(run[k].pc[i], run[k].pc[j])
  {
    RunInv(run, k);
  }

  lemma StepRaises(s: State, i: nat, e: Event)
    requires Inv(s) && Enabled(s, i, e) && Advance(s, i, e).ret == InProgress
    ensures s.wrOffs <= Advance(s, i, e).wrOffs
  {
    if s.pc[i].Writing? && e == Go {
      assert Finish(s.(written := Mark(s.written, s.pc[i].sec, s.pc[i].n)), i).wrOffs == s.pc[i].sec + s.pc[i].n;
    }
  }

  lemma NextRaises(s: State, s': State)
    requires Inv(s) && Next(s, s') && s'.ret == InProgress
    ensures s.wrOffs <= s'.wrOffs
  {
    var i, e :| Enabled(s, i, e) && s' == Advance(s, i, e);
    StepRaises(s, i, e);
  }

  /** wr_offs never falls while there is no error. */
  lemma WrOffsRises(run: seq<State>, k: nat)
    requires IsRun(run) && k + 1 < |run| && run[k + 1].ret == InProgress
    ensures run[k].wrOffs <= run[k + 1].wrOffs
  {
    RunInv(run, k);
    assert Next(run[k], run[k + 1]);
    NextRaises(run[k], run[k + 1]);
  }

  /** Once the last chunk is written nobody waits. */
  lemma NobodyWaitsAtTheEnd(run: seq<State>, k: nat, i: nat)
    requires IsRun(run) && k < |run| && run[k].ret == InProgress && run[k].wrOffs == run[k].total && i < |run[k].pc|
    ensures !Active(run[k].pc[i])
  {
    RunInv(run, k);
  }

  /** The conversion reports success only when every sector has been written. */
  lemma SuccessMeansWritten(run: seq<State>, k: nat)
    requires IsRun(run) && k < |run| && run[k].ret == Success
    ensures |run[k].written| == run[k].total && forall x :: 0 <= x < run[k].total ==> run[k].written[x]
  {
    RunInv(run, k);
  }

  /** The coroutine that is entered at the end of a chunk has yielded in the wait loop for that very sector. */
  lemma EntersOnlyWaiters(run: seq<State>, k: nat, i: nat)
    requires IsRun(run) && k < |run| && i < |run[k].pc| && (run[k].pc[i].Writing? || run[k].pc[i].Finishing?)
    ensures |run[k].wait| == |run[k].pc|
    ensures var offs := run[k].pc[i].sec + run[k].pc[i].n; var w := Waiter(Dropped(run[k], i), offs, 0);
            w.Some? ==> run[k].pc[w.value].Waiting? && run[k].pc[w.value].sec == offs
  {
    RunInv(run, k);
    WaiterIsFound(run[k], i, run[k].pc[i].sec + run[k].pc[i].n);
  }

  /** Following the chunks downwards from a coroutine that waits leads to one that does not. */
  lemma {:induction false} SomebodyMoves(s: State, i: nat) returns (j: nat)
    requires Inv(s) && i < |s.pc| && Active(s.pc[i])
    ensures j < |s.pc| && Active(s.pc[j]) && !s.pc[j].Waiting?
    decreases s.pc[i].sec
  {
    if !s.pc[i].Waiting? { return i; }
    assert Owned(s, s.pc[i].sec);
    var p :| 0 <= p < |s.pc| && Active(s.pc[p]) && s.pc[p].sec + s.pc[p].n == s.pc[i].sec;
    j := SomebodyMoves(s, p);
  }

  /**
   Errors or not, as long as a coroutine has not left, some coroutine can go on, and no request has to fail for it.
   */
  lemma NeverStuck(run: seq<State>, k: nat, i: nat)
    requires IsRun(run) && k < |run| && i < |run[k].pc| && !run[k].pc[i].Exited?
    ensures |run[k].wait| == |run[k].pc| && exists j, e :: Enabled(run[k], j, e) && e != Fail
  {
    RunInv(run, k);
    var s := run[k];
    if s.lock.Some? {
      assert Enabled(s, s.lock.value, Claim(1));
    } else if s.pc[i].Waiting? {
      var j := SomebodyMoves(s, i);
      assert Enabled(s, j, Go);
    } else {
      assert Enabled(s, i, Go);
    }
  }
}
