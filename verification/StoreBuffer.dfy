/**
 The partial-store-order store buffer of tools/SoftStoreBufferPass/runtime/PSOCallbacks.cpp, as one
 thread sees it: a map from addresses to FIFO lists of pending stores over raw memory.

 Memory is an array of 64-bit words and an address is an index into it.  What the input vector
 yields is a parameter: `None` when no input has been fed, otherwise any integer.
 */
module StoreBuffer {
  import opened Common

  const MAX_BUFFER_SIZE := 16

  type Word = x: int | 0 <= x < 0x1_0000_0000_0000_0000

  /** The list that std::map's operator[] yields: a missing entry is an empty list. */
  function Pending(buffer: map<nat, seq<Word>>, addr: nat): seq<Word> {
    if addr in buffer then buffer[addr] else []
  }

  /** What the thread sees at `addr`: its own youngest pending store, else memory. */
  function Seen(buffer: map<nat, seq<Word>>, memory: seq<Word>, addr: nat): Word
    requires addr < |memory|
  {
    var p := Pending(buffer, addr);
    if p == [] then memory[addr] else p[|p| - 1]
  }

  /** The plain memory that the buffer and the raw memory together stand for. */
  function Plain(buffer: map<nat, seq<Word>>, memory: seq<Word>): (plain: seq<Word>)
    ensures |plain| == |memory|
  {
    seq(|memory|, addr requires 0 <= addr < |memory| => Seen(buffer, memory, addr))
  }

  /** The number of pending stores at addresses below `n`. */
  function Count(buffer: map<nat, seq<Word>>, n: nat): nat {
    if n == 0 then 0 else Count(buffer, n - 1) + |Pending(buffer, n - 1)|
  }

  /** flush(addr, n) has written up to `n` of the oldest stores pending at `addr`, oldest first. */
  ghost predicate Flushed(buffer: map<nat, seq<Word>>, memory: seq<Word>, buffer': map<nat, seq<Word>>,
                          memory': seq<Word>,
                          addr: nat, n: int)
    requires addr < |memory|
  {
    var p := Pending(buffer, addr);
    var k := if n < 0 then 0 else if n < |p| then n else |p|;
    && Pending(buffer', addr) == p[k..]
    && (forall a :: a != addr ==> Pending(buffer', a) == Pending(buffer, a))
    && memory' == if k == 0 then memory else memory[addr := p[k - 1]]
  }

  /** What flushAfterInsn(addr) does to a buffer of size `size`. */
  ghost predicate FlushedAfterInsn(size: int, buffer: map<nat, seq<Word>>, memory: seq<Word>,
                                   buffer': map<nat, seq<Word>>, memory': seq<Word>, addr: nat, input: Option<int>)
    requires addr < |memory|
  {
    if size >= MAX_BUFFER_SIZE then buffer' == map[] && memory' == Plain(buffer, memory)
    else if input.Some? then Flushed(buffer, memory, buffer', memory', addr, input.value)
    else buffer' == buffer && memory' == memory
  }

  /** Writing the oldest `k` stores pending at `addr` is a flush, which the thread cannot see. */
  lemma PoppingFlushes(buffer: map<nat, seq<Word>>, memory: seq<Word>, addr: nat, n: int, k: nat)
    requires addr < |memory| && addr in buffer && k <= |buffer[addr]|
    requires if n < 0 then k == 0 else k == n || (k == |buffer[addr]| <= n)
    ensures var p := buffer[addr];
            var buffer', memory' := buffer[addr := p[k..]], if k == 0 then memory else memory[addr := p[k - 1]];
            && Flushed(buffer, memory, buffer', memory', addr, n)
            && Plain(buffer', memory') == Plain(buffer, memory)
  {
    var p := buffer[addr];
    var buffer', memory' := buffer[addr := p[k..]], if k == 0 then memory else memory[addr := p[k - 1]];
    assert Pending(buffer', addr) == p[k..];
    forall a: nat | a < |memory| ensures Seen(buffer', memory', a) == Seen(buffer, memory, a) {
      assert a != addr ==> Pending(buffer', a) == Pending(buffer, a);
    }
  }

  lemma {:induction false} CountOfUpdate(buffer: map<nat, seq<Word>>, addr: nat, vals: seq<Word>, n: nat)
    ensures Count(buffer[addr := vals], n) ==
            Count(buffer, n) + if addr < n then |vals| - |Pending(buffer, addr)| else 0
  {
    if n > 0 { CountOfUpdate(buffer, addr, vals, n - 1); }
  }

  lemma {:induction false} CountOfEmpty(n: nat)
    ensures Count(map[], n) == 0
  {
    if n > 0 { CountOfEmpty(n - 1); }
  }

  class Buffer {
    const memory: array<Word>
    var buffer: map<nat, seq<Word>>
    var bufferSize: int

    /** What holds between callbacks. */
    ghost predicate Valid()
      reads this
    {
      && (forall addr :: addr in buffer ==> addr < memory.Length)
      && Count(buffer, memory.Length) <= bufferSize < MAX_BUFFER_SIZE
    }

    /** The plain memory this thread cannot tell its buffered view from. */
    ghost function Contents(): seq<Word>
      reads this, memory
    {
      Plain(buffer, memory[..])
    }

    constructor (memory: array<Word>)
      ensures this.memory == memory && Valid() && buffer == map[] && Contents() == memory[..]
    {
      this.memory := memory;
      buffer := map[];
      bufferSize := 0;
      new;
      CountOfEmpty(memory.Length);
    }

    /** storebuffer::flush: writes up to `n` of the oldest pending stores at `addr`, in order. */
    method Flush(addr: nat, n: int)
      requires addr < memory.Length && Valid()
      modifies this`buffer, memory
      ensures Valid() && Contents() == old(Contents())
      ensures Flushed(old(buffer), old(memory[..]), buffer, memory[..], addr, n)
    {
      if Pending(buffer, addr) == [] { return; }
      ghost var p, was := buffer[addr], memory[..];
      var i := 0;
      while i < n && buffer[addr] != []
        invariant 0 <= i <= |p| && (i <= n || i == 0)
        invariant buffer == old(buffer)[addr := p[i..]]
        invariant memory[..] == if i == 0 then was else was[addr := p[i - 1]]
        decreases |p| - i
      {
        memory[addr] := buffer[addr][0];
        buffer := buffer[addr := buffer[addr][1..]];
        i := i + 1;
      }
      CountOfUpdate(old(buffer), addr, p[i..], memory.Length);
      PoppingFlushes(old(buffer), was, addr, n, i);
    }

    /** storebuffer::flushAll: writes every pending store, list by list, and empties the buffer. */
    method FlushAll()
      requires forall addr :: addr in buffer ==> addr < memory.Length
      modifies this, memory
      ensures Valid() && buffer == map[] && bufferSize == 0
      ensures memory[..] == old(Contents())
    {
      ghost var was := memory[..];
      var rest := buffer.Keys;
      while rest != {}
        invariant rest <= buffer.Keys && buffer == old(buffer)
        invariant forall a :: 0 <= a < memory.Length ==> memory[a] == if a in rest then was[a] else Seen(buffer, was, a)
        decreases |rest|
      {
        var addr :| addr in rest;
        WriteList(addr, buffer[addr]);
        rest := rest - {addr};
      }
      assert memory[..] == old(Contents());
      buffer := map[];
      bufferSize := 0;
      CountOfEmpty(memory.Length);
    }

    /** The inner loop of storebuffer::flushAll. */
    method WriteList(addr: nat, vals: seq<Word>)
      requires addr < memory.Length
      modifies memory
      ensures memory[..] == if vals == [] then old(memory[..]) else old(memory[..])[addr := vals[|vals| - 1]]
    {
      for i := 0 to |vals|
        invariant memory[..] == if i == 0 then old(memory[..]) else old(memory[..])[addr := vals[i - 1]]
      {
        memory[addr] := vals[i];
      }
    }

    /** storebuffer::flushAfterInsn */
    method FlushAfterInsn(addr: nat, input: Option<int>)
      requires addr < memory.Length && Count(buffer, memory.Length) <= bufferSize <= MAX_BUFFER_SIZE
      requires forall a :: a in buffer ==> a < memory.Length
      modifies this, memory
      ensures Valid() && Contents() == old(Contents())
      ensures FlushedAfterInsn(old(bufferSize), old(buffer), old(memory[..]), buffer, memory[..], addr, input)
      ensures bufferSize == if old(bufferSize) >= MAX_BUFFER_SIZE then 0 else old(bufferSize)
    {
      if bufferSize >= MAX_BUFFER_SIZE {
        FlushAll();
      } else if input.Some? {
        Flush(addr, input.value);
      }
    }

    /** storebuffer::retrieve, the load callback: the thread reads what plain memory would hold. */
    method Retrieve(addr: nat, input: Option<int>) returns (val: Word)
      requires Valid() && addr < memory.Length
      modifies this, memory
      ensures Valid() && Contents() == old(Contents()) && val == old(Contents())[addr]
      ensures bufferSize == old(bufferSize)
      ensures FlushedAfterInsn(bufferSize, old(buffer), old(memory[..]), buffer, memory[..], addr, input)
    {
      if Pending(buffer, addr) == [] {
        val := memory[addr];
      } else {
        val := Pending(buffer, addr)[|Pending(buffer, addr)| - 1];
      }
      FlushAfterInsn(addr, input);
    }

    /** storebuffer::store, the store callback: the thread's plain memory changes at `addr` only. */
    method Store(addr: nat, val: Word, input: Option<int>)
      requires Valid() && addr < memory.Length
      modifies this, memory
      ensures Valid() && Contents() == old(Contents())[addr := val]
      ensures bufferSize == if old(bufferSize) + 1 >= MAX_BUFFER_SIZE then 0 else old(bufferSize) + 1
      ensures FlushedAfterInsn(old(bufferSize) + 1, old(buffer)[addr := old(Pending(buffer, addr)) + [val]],
                               old(memory[..]), buffer, memory[..], addr, input)
    {
      CountOfUpdate(buffer, addr, Pending(buffer, addr) + [val], memory.Length);
      buffer := buffer[addr := Pending(buffer, addr) + [val]];
      bufferSize := bufferSize + 1;
      assert Contents() == old(Contents())[addr := val];
      FlushAfterInsn(addr, input);
    }
  }

  // ---- Whole single-thread programs

  datatype Op = Load(addr: nat, input: Option<int>) | StoreOp(addr: nat, val: Word, input: Option<int>) | FlushOp

  predicate InBounds(op: Op, size: nat) {
    op.FlushOp? || op.addr < size
  }

  /** What an operation does to a memory without a store buffer. */
  function PlainStep(op: Op, memory: seq<Word>): (memory': seq<Word>)
    requires InBounds(op, |memory|)
    ensures |memory'| == |memory|
  {
    if op.StoreOp? then memory[op.addr := op.val] else memory
  }

  /** What an operation reads from a memory without a store buffer. */
  function PlainLoad(op: Op, memory: seq<Word>): seq<Word>
    requires InBounds(op, |memory|)
  {
    if op.Load? then [memory[op.addr]] else []
  }

  /** The final memory and the loads of `ops` without a store buffer. */
  function PlainRun(ops: seq<Op>, memory: seq<Word>): (r: (seq<Word>, seq<Word>))
    requires forall i :: 0 <= i < |ops| ==> InBounds(ops[i], |memory|)
    ensures |r.0| == |memory|
  {
    if ops == [] then (memory, [])
    else
      var before := PlainRun(ops[..|ops| - 1], memory);
      var op := ops[|ops| - 1];
      (PlainStep(op, before.0), before.1 + PlainLoad(op, before.0))
  }

  /** One callback, seen from the thread's plain memory. */
  method Perform(b: Buffer, op: Op) returns (loaded: seq<Word>)
    requires b.Valid() && InBounds(op, b.memory.Length)
    modifies b, b.memory
    ensures b.Valid() && b.Contents() == PlainStep(op, old(b.Contents())) && loaded == PlainLoad(op, old(b.Contents()))
  {
    loaded := [];
    match op
    case Load(addr, input) =>
      var val := b.Retrieve(addr, input);
      loaded := [val];
    case StoreOp(addr, val, input) => b.Store(addr, val, input);
    case FlushOp =>
      b.FlushAll();
      assert b.Contents() == b.memory[..];
  }

  /**
   One thread alone cannot see the buffer: for every sequence of callbacks and every input, the loads
   are those of a plain memory, and the closing flushAll leaves that plain memory behind.
   */
  method RunThread(memory: array<Word>, ops: seq<Op>) returns (loads: seq<Word>)
    requires forall i :: 0 <= i < |ops| ==> InBounds(ops[i], memory.Length)
    modifies memory
    ensures (memory[..], loads) == PlainRun(ops, old(memory[..]))
  {
    var b := new Buffer(memory);
    loads := [];
    for i := 0 to |ops|
      invariant b.memory == memory && fresh(b) && b.Valid()
      invariant (b.Contents(), loads) == PlainRun(ops[..i], old(memory[..]))
    {
      assert ops[..i + 1][..i] == ops[..i] && ops[..i + 1][i] == ops[i];
      var loaded := Perform(b, ops[i]);
      loads := loads + loaded;
    }
    assert ops[..|ops|] == ops;
    b.FlushAll();
  }
}
