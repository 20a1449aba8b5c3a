/**
 The safe rebase of tools/qemu/qemu-img.c: before the backing link of an overlay is changed, everything
 that the overlay shows through its old backing file and would not show through the new one is copied
 into the overlay.  The content of the overlay stays the same all the time.
 */
module Rebase {
  import opened Common

  const IO_BUF_SIZE := 2 * 1024 * 1024

  /** The bytes of an image that has a backing file; a byte that is not allocated is looked up there. */
  datatype Overlay = Overlay(alloc: seq<bool>, data: seq<Byte>)
  {
    ghost predicate Sized(size: nat) {
      |alloc| == |data| == size
    }
  }

  /** A backing file shows zeros behind its end; a missing one is empty. */
  function Behind(backing: seq<Byte>, i: nat): Byte {
    if i < |backing| then backing[i] else 0
  }

  /** What the overlay shows at offset `i` */
  function Visible(o: Overlay, backing: seq<Byte>, i: nat): Byte
    requires i < |o.alloc| == |o.data|
  {
    if o.alloc[i] then o.data[i] else Behind(backing, i)
  }

  /** Through `backing`, the overlay shows `content` up to offset `k`. */
  ghost predicate Shows(o: Overlay, backing: seq<Byte>, content: seq<Byte>, k: nat) {
    o.Sized(|content|) && forall i {:trigger content[i]} :: 0 <= i < k && i < |content| ==>
      Visible(o, backing, i) == content[i]
  }

  // ---- Comparing buffers

  function Min(a: nat, b: nat): nat { if a < b then a else b }

  /** The sectors at offset `k` differ. */
  predicate SectorDiffers(a: seq<Byte>, b: seq<Byte>, k: nat)
    requires k <= |a| == |b|
  {
    a[k..Min(k + SECTOR_SIZE, |a|)] != b[k..Min(k + SECTOR_SIZE, |a|)]
  }

  /** compare_buffers: the longest prefix whose sectors all differ or all agree */
  method CompareBuffers(a: seq<Byte>, b: seq<Byte>) returns (differ: bool, pnum: nat)
    requires |a| == |b| > 0
    ensures 0 < pnum <= |a| && (pnum < |a| ==> pnum % SECTOR_SIZE == 0 && SectorDiffers(a, b, pnum) != differ)
    ensures forall k :: 0 <= k < pnum && k % SECTOR_SIZE == 0 ==> SectorDiffers(a, b, k) == differ
    ensures differ <==> a[..pnum] != b[..pnum]
  {
    pnum := Min(|a|, SECTOR_SIZE);
    differ := a[..pnum] != b[..pnum];
    assert a[0..pnum] == a[..pnum] && b[0..pnum] == b[..pnum];
    while pnum < |a|
      invariant 0 < pnum <= |a| && (pnum < |a| ==> pnum % SECTOR_SIZE == 0)
      invariant forall k :: 0 <= k < pnum && k % SECTOR_SIZE == 0 ==> SectorDiffers(a, b, k) == differ
      invariant differ <==> a[..pnum] != b[..pnum]
    {
      var len := Min(|a| - pnum, SECTOR_SIZE);
      assert pnum + len == Min(pnum + SECTOR_SIZE, |a|);
      if (a[pnum..pnum + len] != b[pnum..pnum + len]) != differ { break; }
      forall k | pnum <= k < pnum + len && k % SECTOR_SIZE == 0 ensures k == pnum {}
      assert a[..pnum + len] == a[..pnum] + a[pnum..pnum + len] && b[..pnum + len] == b[..pnum] + b[pnum..pnum + len];
      pnum := pnum + len;
    }
  }

  // ---- Writing to the overlay

  /**
   What one byte can become when `data` is written at `offset`.  To fill a cluster a driver may also allocate
   bytes beside the request, with what they showed through the backing file.  A write that fails may have
   reached any of its bytes.
   */
  ghost predicate ByteFollows(o: Overlay, o': Overlay, backing: seq<Byte>, offset: nat, data: seq<Byte>, done: bool,
                              i: nat)
    requires i < |o.alloc| == |o.data| == |o'.alloc| == |o'.data|
  {
    var inside := offset <= i < offset + |data|;
    || (!(done && inside) && o'.alloc[i] == o.alloc[i] && o'.data[i] == o.data[i])
    || (o'.alloc[i] && o'.data[i] == if inside then data[i - offset] else Visible(o, backing, i))
  }

  ghost predicate Follows(o: Overlay, o': Overlay, backing: seq<Byte>, offset: nat, data: seq<Byte>, done: bool) {
    && o.Sized(|o.data|) && o'.Sized(|o.data|)
    && forall i {:trigger o'.alloc[i]} :: 0 <= i < |o.data| ==> ByteFollows(o, o', backing, offset, data, done, i)
  }

  function NewByte(o: Overlay, backing: seq<Byte>, offset: nat, data: seq<Byte>, writes: bool, fills: bool,
                   i: nat): Byte
    requires i < |o.alloc| == |o.data|
  {
    if offset <= i < offset + |data| then (if writes then data[i - offset] else o.data[i])
    else if fills then Visible(o, backing, i)
    else o.data[i]
  }

  /** The overlay after a write that reaches the bytes for which `reaches` holds, and all of its own if it is `done` */
  function Written(o: Overlay, backing: seq<Byte>, offset: nat, data: seq<Byte>, done: bool,
                   reaches: nat -> bool): (r: Overlay)
    requires |o.alloc| == |o.data|
    ensures r.Sized(|o.data|)
  {
    Overlay(seq(|o.data|, i requires 0 <= i < |o.data| =>
                  o.alloc[i] || reaches(i) || (done && offset <= i < offset + |data|)),
            seq<Byte>(|o.data|, i requires 0 <= i < |o.data| =>
                        NewByte(o, backing, offset, data, done || reaches(i), reaches(i), i)))
  }

  lemma WrittenFollows(o: Overlay, backing: seq<Byte>, offset: nat, data: seq<Byte>, done: bool, reaches: nat -> bool)
    requires |o.alloc| == |o.data|
    ensures Follows(o, Written(o, backing, offset, data, done, reaches), backing, offset, data, done)
  {
    var r := Written(o, backing, offset, data, done, reaches);
    forall i | 0 <= i < |o.data| ensures ByteFollows(o, r, backing, offset, data, done, i) {
      assert r.data[i] == NewByte(o, backing, offset, data, done || reaches(i), reaches(i), i);
    }
  }

  /** Writing what is visible anyway changes nothing that can be seen, however far the write gets. */
  lemma WriteKeepsContent(o: Overlay, o': Overlay, backing: seq<Byte>, content: seq<Byte>, offset: nat,
                          data: seq<Byte>, done: bool)
    requires Follows(o, o', backing, offset, data, done) && Shows(o, backing, content, |content|)
    requires offset + |data| <= |content| && data == content[offset..offset + |data|]
    ensures Shows(o', backing, content, |content|)
  {
    forall i | 0 <= i < |content| ensures Visible(o', backing, i) == content[i] {
      assert o'.alloc[i] || !o'.alloc[i];
      assert offset <= i < offset + |data| ==> data[i - offset] == content[i];
    }
  }

  /** It does not take back what the overlay shows through another backing file either. */
  lemma WriteKeepsPassed(o: Overlay, o': Overlay, backing: seq<Byte>, other: seq<Byte>, content: seq<Byte>,
                         offset: nat, data: seq<Byte>, done: bool, k: nat)
    requires Follows(o, o', backing, offset, data, done) && Shows(o, backing, content, |content|)
    requires Shows(o, other, content, k)
    requires offset + |data| <= |content| && data == content[offset..offset + |data|]
    ensures Shows(o', other, content, k) && (done && k == offset ==> Shows(o', other, content, k + |data|))
  {
    forall i | 0 <= i < |content| && (i < k || (done && offset <= i < offset + |data|))
      ensures Visible(o', other, i) == content[i]
    {
      assert o'.alloc[i] || !o'.alloc[i];
      assert offset <= i < offset + |data| ==> data[i - offset] == content[i];
      assert Visible(o, backing, i) == content[i];
    }
  }

  // ---- The loop

  /**
   What drivers may do, by the number of the request: whether it fails, how long a run of bytes
   bdrv_is_allocated looks at, and which bytes a write reaches.
   */
  datatype Driver = Driver(fails: nat -> bool, run: nat -> nat, reaches: nat -> nat -> bool)

  lemma AllocatedIsShown(o: Overlay, oldBacking: seq<Byte>, newBacking: seq<Byte>, content: seq<Byte>, offset: nat,
                         n: nat)
    requires Shows(o, oldBacking, content, |content|) && Shows(o, newBacking, content, offset)
    requires offset + n <= |content|
    requires forall i :: offset <= i < offset + n ==> o.alloc[i]
    ensures Shows(o, newBacking, content, offset + n)
  {
    forall i | offset <= i < offset + n ensures Visible(o, newBacking, i) == content[i] {
      assert Visible(o, oldBacking, i) == content[i];
    }
  }

  lemma UnallocatedIsOld(o: Overlay, oldBacking: seq<Byte>, content: seq<Byte>, offset: nat, buf: seq<Byte>)
    requires Shows(o, oldBacking, content, |content|) && offset + |buf| <= |content|
    requires forall i :: offset <= i < offset + |buf| ==> !o.alloc[i]
    requires forall i :: 0 <= i < |buf| ==> buf[i] == Behind(oldBacking, offset + i)
    ensures buf == content[offset..offset + |buf|]
  {
    forall i | 0 <= i < |buf| ensures buf[i] == content[offset..offset + |buf|][i] {
      assert Visible(o, oldBacking, offset + i) == content[offset + i];
    }
  }

  lemma AlikeIsShown(o: Overlay, oldBacking: seq<Byte>, newBacking: seq<Byte>, content: seq<Byte>, offset: nat,
                     bufOld: seq<Byte>, bufNew: seq<Byte>, written: nat, pnum: nat)
    requires Shows(o, oldBacking, content, |content|) && Shows(o, newBacking, content, offset + written)
    requires |bufOld| == |bufNew| && offset + |bufOld| <= |content| && bufOld == content[offset..offset + |bufOld|]
    requires forall i :: 0 <= i < |bufNew| ==> bufNew[i] == Behind(newBacking, offset + i)
    requires written + pnum <= |bufOld| && bufOld[written..][..pnum] == bufNew[written..][..pnum]
    ensures Shows(o, newBacking, content, offset + written + pnum)
  {
    forall i | offset + written <= i < offset + written + pnum ensures Visible(o, newBacking, i) == content[i] {
      var k := i - offset;
      assert bufOld[k] == bufOld[written..][..pnum][k - written] == bufNew[written..][..pnum][k - written] == bufNew[k];
      assert Visible(o, oldBacking, i) == content[i] && bufOld[k] == content[i];
      assert bufNew[k] == Behind(newBacking, offset + k);
    }
  }

  lemma SliceOfSlice(content: seq<Byte>, offset: nat, buf: seq<Byte>, lo: nat, hi: nat)
    requires offset + |buf| <= |content| && buf == content[offset..offset + |buf|] && lo <= hi <= |buf|
    ensures |buf[lo..hi]| == hi - lo && buf[lo..hi] == content[offset + lo..offset + lo + |buf[lo..hi]|]
  {
    forall i | 0 <= i < hi - lo ensures buf[lo..hi][i] == content[offset + lo..offset + hi][i] {
      assert buf[lo + i] == content[offset..offset + |buf|][lo + i];
    }
  }

  /** None of the requests from number `from` up to number `to` fails. */
  ghost predicate AllWell(driver: Driver, from: nat, to: nat) {
    forall t {:trigger driver.fails(t)} :: from <= t < to ==> !driver.fails(t)
  }

  // ---- The states an image has been in

  /** The new backing file would show something else somewhere in the range. */
  ghost predicate Needed(other: seq<Byte>, offset: nat, data: seq<Byte>) {
    exists i :: 0 <= i < |data| && data[i] != Behind(other, offset + i)
  }

  /** A write of what is visible anyway, complete or not, that is needed, leads from one state to the other. */
  ghost predicate FollowsByWrite(o: Overlay, o': Overlay, backing: seq<Byte>, other: seq<Byte>, content: seq<Byte>) {
    exists offset: nat, data: seq<Byte>, done: bool :: Follows(o, o', backing, offset, data, done)
      && offset + |data| <= |content| && data == content[offset..offset + |data|] && Needed(other, offset, data)
  }

  /** `o` is the last of the states, every other state follows its predecessor by a write, and all show the content. */
  ghost predicate Recorded(history: seq<Overlay>, o: Overlay, backing: seq<Byte>, other: seq<Byte>, content: seq<Byte>)
  {
    && |history| > 0 && history[|history| - 1] == o
    && (forall k :: 0 <= k < |history| - 1 ==> FollowsByWrite(history[k], history[k + 1], backing, other, content))
    && (forall s :: s in history ==> Shows(s, backing, content, |content|))
  }

  lemma RecordNext(history: seq<Overlay>, o: Overlay, o': Overlay, backing: seq<Byte>, other: seq<Byte>,
                   content: seq<Byte>)
    requires Recorded(history, o, backing, other, content) && FollowsByWrite(o, o', backing, other, content)
    requires Shows(o', backing, content, |content|)
    ensures Recorded(history + [o'], o', backing, other, content)
  {
    var longer := history + [o'];
    forall k | 0 <= k < |longer| - 1 ensures FollowsByWrite(longer[k], longer[k + 1], backing, other, content) {
      if k < |history| - 1 { assert FollowsByWrite(history[k], history[k + 1], backing, other, content); }
    }
  }

  /** A range of the content, and what the new backing file has there */
  ghost predicate Buffers(content: seq<Byte>, other: seq<Byte>, offset: nat, bufOld: seq<Byte>, bufNew: seq<Byte>) {
    && |bufOld| == |bufNew| && offset + |bufOld| <= |content| && bufOld == content[offset..offset + |bufOld|]
    && forall i :: 0 <= i < |bufNew| ==> bufNew[i] == Behind(other, offset + i)
  }

  /** What the comparison of the buffers calls different is different. */
  lemma DifferentIsNeeded(other: seq<Byte>, offset: nat, bufOld: seq<Byte>, bufNew: seq<Byte>, written: nat, pnum: nat)
    requires |bufOld| == |bufNew| && written + pnum <= |bufOld|
    requires forall i :: 0 <= i < |bufNew| ==> bufNew[i] == Behind(other, offset + i)
    requires bufOld[written..][..pnum] != bufNew[written..][..pnum]
    ensures Needed(other, offset + written, bufOld[written..written + pnum])
  {
    var i :| 0 <= i < pnum && bufOld[written..][..pnum][i] != bufNew[written..][..pnum][i];
    assert bufOld[written..written + pnum][i] == bufOld[written + i];
    assert bufNew[written + i] == Behind(other, offset + written + i);
  }

  class Image {
    const size: nat
    const oldBacking: seq<Byte>
    const newBacking: seq<Byte>
    const driver: Driver
    /** What the image shows; the rebase never changes it. */
    ghost const content: seq<Byte>
    var o: Overlay
    var clock: nat
    /** Every state the overlay has been in: a crash leaves one of them behind. */
    ghost var history: seq<Overlay>

    ghost predicate Valid()
      reads this
    {
      |content| == size && Shows(o, oldBacking, content, size) && Recorded(history, o, oldBacking, newBacking, content)
    }

    constructor (o: Overlay, oldBacking: seq<Byte>, newBacking: seq<Byte>, driver: Driver)
      requires o.Sized(|o.data|)
      ensures Valid() && this.o == o && this.oldBacking == oldBacking && this.newBacking == newBacking && history == [o]
      ensures content == seq(|o.data|, i requires 0 <= i < |o.data| => Visible(o, oldBacking, i))
    {
      this.size, this.o, this.oldBacking, this.newBacking := |o.data|, o, oldBacking, newBacking;
      this.driver, this.clock := driver, 0;
      this.content := seq(|o.data|, i requires 0 <= i < |o.data| => Visible(o, oldBacking, i));
      this.history := [o];
    }

    /** The next request: does it succeed? */
    method Request() returns (ok: bool)
      modifies `clock
      ensures clock == old(clock) + 1 && (ok <==> AllWell(driver, old(clock), clock))
    {
      ok := !driver.fails(clock);
      clock := clock + 1;
    }

    /** bdrv_is_allocated: tells the truth about at least one byte, unless it fails */
    method IsAllocated(offset: nat, n: nat) returns (ok: bool, isAllocated: bool, pnum: nat)
      requires Valid() && n > 0 && offset + n <= size
      modifies `clock
      ensures 0 < pnum <= n && forall i :: offset <= i < offset + pnum ==> o.alloc[i] == isAllocated
      ensures old(clock) <= clock && (ok <==> AllWell(driver, old(clock), clock))
    {
      var limit := Min(n, driver.run(clock));
      ok := Request();
      isAllocated, pnum := o.alloc[offset], 1;
      while pnum < limit && o.alloc[offset + pnum] == isAllocated
        invariant 0 < pnum <= n && forall i :: offset <= i < offset + pnum ==> o.alloc[i] == isAllocated
      {
        pnum := pnum + 1;
      }
    }

    /** blk_pwrite and blk_pwrite_zeroes on the overlay */
    method Write(offset: nat, data: seq<Byte>) returns (ok: bool)
      requires Valid() && offset + |data| <= size && data == content[offset..offset + |data|]
      requires Needed(newBacking, offset, data)
      modifies `o, `clock, `history
      ensures Valid() && Follows(old(o), o, oldBacking, offset, data, ok) && history == old(history) + [o]
      ensures old(clock) <= clock && (ok <==> AllWell(driver, old(clock), clock))
    {
      var reaches := driver.reaches(clock);
      ok := Request();
      WrittenFollows(o, oldBacking, offset, data, ok, reaches);
      WriteKeepsContent(o, Written(o, oldBacking, offset, data, ok, reaches), oldBacking, content, offset, data, ok);
      RecordNext(history, o, Written(o, oldBacking, offset, data, ok, reaches), oldBacking, newBacking, content);
      o := Written(o, oldBacking, offset, data, ok, reaches);
      history := history + [o];
    }

    /** One round of the inner loop of img_rebase */
    method CopyNext(offset: nat, bufOld: seq<Byte>, bufNew: seq<Byte>, written: nat) returns (ok: bool, pnum: nat)
      requires Valid() && Buffers(content, newBacking, offset, bufOld, bufNew) && written < |bufOld|
      requires Shows(o, newBacking, content, offset + written)
      modifies `o, `clock, `history
      ensures Valid() && old(history) <= history && 0 < pnum && written + pnum <= |bufOld|
      ensures ok ==> Shows(o, newBacking, content, offset + written + pnum)
      ensures old(clock) <= clock && (ok <==> AllWell(driver, old(clock), clock))
    {
      var differ;
      differ, pnum := CompareBuffers(bufOld[written..], bufNew[written..]);
      ok := true;
      if differ {
        SliceOfSlice(content, offset, bufOld, written, written + pnum);
        DifferentIsNeeded(newBacking, offset, bufOld, bufNew, written, pnum);
        ok := Write(offset + written, bufOld[written..written + pnum]);
        WriteKeepsPassed(old(o), o, oldBacking, newBacking, content, offset + written,
                         bufOld[written..written + pnum], ok, offset + written);
      } else {
        AlikeIsShown(o, oldBacking, newBacking, content, offset, bufOld, bufNew, written, pnum);
      }
    }

    /** The inner loop of img_rebase: copies what differs in a range that is not allocated. */
    method CopyDifferences(offset: nat, bufOld: seq<Byte>, bufNew: seq<Byte>) returns (ok: bool)
      requires Valid() && Buffers(content, newBacking, offset, bufOld, bufNew) && Shows(o, newBacking, content, offset)
      modifies `o, `clock, `history
      ensures Valid() && old(history) <= history
      ensures ok ==> Shows(o, newBacking, content, offset + |bufOld|)
      ensures old(clock) <= clock && (ok <==> AllWell(driver, old(clock), clock))
    {
      var written := 0;
      while written < |bufOld|
        invariant 0 <= written <= |bufOld| && Valid() && old(history) <= history
        invariant Shows(o, newBacking, content, offset + written)
        invariant old(clock) <= clock && AllWell(driver, old(clock), clock)
      {
        var pnum;
        ok, pnum := CopyNext(offset, bufOld, bufNew, written);
        if !ok { return; }
        written := written + pnum;
      }
      ok := true;
    }

    /** blk_pread on a backing file, or zeros behind its end; fewer bytes are read if the file ends. */
    method ReadBacking(backing: seq<Byte>, offset: nat, n: nat) returns (ok: bool, buf: seq<Byte>)
      requires n > 0
      modifies `clock
      ensures 0 < |buf| <= n && forall i :: 0 <= i < |buf| ==> buf[i] == Behind(backing, offset + i)
      ensures old(clock) <= clock && (ok <==> AllWell(driver, old(clock), clock))
    {
      if offset >= |backing| {
        ok, buf := true, seq(n, i => 0);
      } else {
        buf := backing[offset..Min(offset + n, |backing|)];
        ok := Request();
      }
    }

    /** The body of the loop of img_rebase */
    method RebaseRange(offset: nat) returns (ok: bool, n: nat)
      requires Valid() && offset < size && Shows(o, newBacking, content, offset)
      modifies `o, `clock, `history
      ensures Valid() && old(history) <= history
      ensures ok ==> 0 < n && offset + n <= size && Shows(o, newBacking, content, offset + n)
      ensures old(clock) <= clock && (ok <==> AllWell(driver, old(clock), clock))
    {
      var isAllocated;
      ok, isAllocated, n := IsAllocated(offset, Min(IO_BUF_SIZE, size - offset));
      if !ok { return; }
      if isAllocated {
        AllocatedIsShown(o, oldBacking, newBacking, content, offset, n);
        return;
      }
      var bufOld, bufNew;
      ok, bufOld := ReadBacking(oldBacking, offset, n);
      if !ok { return; }
      n := |bufOld|;
      ok, bufNew := ReadBacking(newBacking, offset, n);
      if !ok { return; }
      n := |bufNew|;
      UnallocatedIsOld(o, oldBacking, content, offset, bufOld[..n]);
      ok := CopyDifferences(offset, bufOld[..n], bufNew);
    }

    /**
     The safe rebase.  It succeeds exactly if none of its requests fails.  Whether it succeeds or fails, the image
     shows what it showed before, through the link it then has; and so did every state in between, through the old
     link.
     */
    method Run() returns (ok: bool, backing: seq<Byte>)
      requires Valid()
      modifies `o, `clock, `history
      ensures backing == (if ok then newBacking else oldBacking) && Shows(o, backing, content, size)
      ensures old(clock) <= clock && (ok <==> AllWell(driver, old(clock), clock))
      ensures old(history) <= history && Recorded(history, o, oldBacking, newBacking, content)
    {
      var offset := 0;
      while offset < size
        invariant offset <= size && Valid() && old(history) <= history && Shows(o, newBacking, content, offset)
        invariant old(clock) <= clock && AllWell(driver, old(clock), clock)
      {
        var n;
        ok, n := RebaseRange(offset);
        if !ok { return false, oldBacking; }
        offset := offset + n;
      }
      // bdrv_change_backing_file
      ok := Request();
      backing := if ok then newBacking else oldBacking;
    }
  }
}
