/**
 The sparse writer of qemu-img convert (tools/qemu/qemu-img.c): runs of zero sectors are left out of the
 write requests, without ever changing what the target contains in the end.
 */
module ConvertWrite {
  import opened Common

  function Zeros(n: nat): (s: seq<Byte>)
    ensures |s| == n && forall i :: 0 <= i < n ==> s[i] == 0
  {
    seq<Byte>(n, i => 0)
  }

  type Sector = s: seq<Byte> | |s| == SECTOR_SIZE ghost witness Zeros(SECTOR_SIZE)

  /** buffer_is_zero on one sector */
  predicate IsZero(s: Sector) {
    s == Zeros(SECTOR_SIZE)
  }

  // ---- Alignment: x & (alignment - 1) for a power of two

  function And(x: nat, y: nat): nat
  {
    if x == 0 || y == 0 then 0 else 2 * And(x / 2, y / 2) + (x % 2) * (y % 2)
  }

  function Pow2(k: nat): (r: nat)
    ensures r > 0
  {
    if k == 0 then 1 else 2 * Pow2(k - 1)
  }

  lemma AtLeastOnce(e: int, d: nat)
    ensures (e >= 1 ==> e * d >= d) && (e <= -1 ==> e * d + d <= 0)
  {
  }

  lemma RemainderIs(x: nat, d: nat, q: nat, r: nat)
    requires r < d && x == q * d + r
    ensures x % d == r
  {
    AtLeastOnce(q - x / d, d);
    assert (q - x / d) * d == x % d - r;
  }

  lemma HalfRemainder(x: nat, p: nat)
    requires p > 0
    ensures x % (2 * p) == 2 * ((x / 2) % p) + x % 2
  {
    var q, r := (x / 2) / p, (x / 2) % p;
    assert x / 2 == q * p + r;
    assert x == q * (2 * p) + (2 * r + x % 2);
    RemainderIs(x, 2 * p, q, 2 * r + x % 2);
  }

  lemma OddMask(x: nat, p: nat)
    requires p > 0 && x > 0
    ensures And(x, 2 * p - 1) == 2 * And(x / 2, p - 1) + x % 2
  {
    assert (2 * p - 1) / 2 == p - 1 && (2 * p - 1) % 2 == 1;
    assert (x % 2) * 1 == x % 2;
  }

  lemma MaskStep(x: nat, p: nat, q: nat)
    requires p > 0 && x > 0 && q == 2 * p && And(x / 2, p - 1) == (x / 2) % p
    ensures And(x, q - 1) == x % q
  {
    OddMask(x, p);
    HalfRemainder(x, p);
  }

  lemma {:induction false} AndMask(x: nat, k: nat)
    ensures And(x, Pow2(k) - 1) == x % Pow2(k)
  {
    if k == 0 {
      assert Pow2(0) == 1;
    } else if x == 0 {
      RemainderIs(0, Pow2(k), 0, 0);
    } else {
      AndMask(x / 2, k - 1);
      MaskStep(x, Pow2(k - 1), Pow2(k));
    }
  }

  /** How far an offset lies beyond the last aligned one */
  function Tail(x: nat, alignment: nat): (r: nat)
    requires alignment > 0
    ensures r < alignment
  {
    if x < alignment then x else Tail(x - alignment, alignment)
  }

  lemma {:induction false} TailIsRemainder(x: nat, alignment: nat)
    requires alignment > 0
    ensures Tail(x, alignment) == x % alignment
  {
    var r := Tail(x, alignment);
    if x < alignment {
      RemainderIs(x, alignment, 0, r);
    } else {
      TailIsRemainder(x - alignment, alignment);
      var q := (x - alignment) / alignment;
      assert x == (q + 1) * alignment + r;
      RemainderIs(x, alignment, q + 1, r);
    }
  }

  ghost predicate IsPowerOfTwo(a: nat) {
    exists k: nat :: a == Pow2(k)
  }

  // ---- Looking for zeros

  /** The number of sectors at the start of the buffer that are all zero or all not zero */
  ghost function Run(buf: seq<Sector>): (n: nat)
    requires |buf| > 0
    ensures 0 < n <= |buf| && forall i :: 0 <= i < n ==> IsZero(buf[i]) == IsZero(buf[0])
    ensures n < |buf| ==> IsZero(buf[n]) != IsZero(buf[0])
  {
    if |buf| == 1 || IsZero(buf[1]) != IsZero(buf[0]) then 1
    else
      assert forall i :: 1 <= i < |buf| ==> buf[i] == buf[1..][i - 1];
      1 + Run(buf[1..])
  }

  lemma RunIs(buf: seq<Sector>, n: nat)
    requires 0 < n <= |buf| && (forall i :: 0 <= i < n ==> IsZero(buf[i]) == IsZero(buf[0]))
    requires n < |buf| ==> IsZero(buf[n]) != IsZero(buf[0])
    ensures Run(buf) == n
  {
  }

  /** A run of zeros that does not reach beyond the first aligned sector is not worth a request of its own. */
  ghost predicate Spare(buf: seq<Sector>, sectorNum: nat, alignment: nat)
    requires |buf| > 0 && alignment > 0
  {
    var tail := Tail(sectorNum + Run(buf), alignment);
    IsZero(buf[0]) && !(0 < tail && Run(buf) <= tail)
  }

  /** One zero sector before a sector of data, both at the start of an aligned block of eight, is taken for data. */
  lemma ShortZerosAreNotSpared(data: Sector)
    requires !IsZero(data)
    ensures var buf: seq<Sector> := [Zeros(SECTOR_SIZE), data]; IsZero(buf[0]) && Run(buf) == 1 && !Spare(buf, 0, 8)
  {
    RunIs([Zeros(SECTOR_SIZE), data], 1);
  }

  lemma MaskIsTail(x: nat, alignment: nat)
    requires IsPowerOfTwo(alignment)
    ensures alignment > 0 && And(x, alignment - 1) == Tail(x, alignment)
  {
    var k: nat :| alignment == Pow2(k);
    AndMask(x, k);
    TailIsRemainder(x, alignment);
  }

  /** Cutting off the tail of an offset, or filling it up, makes it aligned. */
  lemma Realigned(x: nat, alignment: nat)
    requires alignment > 0
    ensures Tail(x, alignment) <= x && Tail(x - Tail(x, alignment), alignment) == 0
    ensures Tail(x + alignment - Tail(x, alignment), alignment) == 0
  {
    TailIsRemainder(x, alignment);
    var down := x - x % alignment;
    assert down == x / alignment * alignment;
    RemainderIs(down, alignment, x / alignment, 0);
    TailIsRemainder(down, alignment);
  }

  ghost predicate ZeroRange(buf: seq<Sector>, a: nat, b: nat) {
    a <= b <= |buf| && forall i :: a <= i < b ==> IsZero(buf[i])
  }

  /** The start of the buffer has no more than `most` zero sectors in a row. */
  ghost predicate Dense(buf: seq<Sector>, to: nat, most: nat) {
    forall a: nat, b: nat :: ZeroRange(buf, a, b) && b <= to ==> b - a <= most
  }

  /** No more than `most` zero sectors come right before sector `at`. */
  ghost predicate DenseBefore(buf: seq<Sector>, at: nat, most: nat) {
    forall a: nat :: ZeroRange(buf, a, at) ==> at - a <= most
  }

  /** A request for data ends less than a block after the data, or makes up one block with the zeros before them. */
  lemma RequestIsDense(buf: seq<Sector>, n: nat, alignment: nat)
    requires 0 < n <= |buf| && (if IsZero(buf[0]) then n <= alignment else n < Run(buf) + alignment)
    ensures Dense(buf, n, alignment)
  {
    forall a: nat, b: nat | ZeroRange(buf, a, b) && b <= n ensures b - a <= alignment {
      if a < b && !IsZero(buf[0]) { assert IsZero(buf[a]) && a >= Run(buf); }
    }
  }

  /**
   What is_allocated_sectors finds: zeros to be left out, which are as many as there are but for those that share a
   block with data, or the start of a request, which ends with the data but for what fills up the block.
   */
  ghost predicate Found(buf: seq<Sector>, sectorNum: nat, alignment: nat, used: bool, pnum: nat)
    requires |buf| > 0 && alignment > 0
  {
    && 0 < pnum <= |buf| && (pnum < |buf| ==> Tail(sectorNum + pnum, alignment) == 0)
    && (used <==> !Spare(buf, sectorNum, alignment))
    && (!used ==> pnum <= Run(buf) < pnum + alignment && ZeroRange(buf, 0, pnum))
    && (used ==> Run(buf) <= pnum < Run(buf) + alignment && Dense(buf, pnum, alignment))
    && (used && IsZero(buf[0]) && pnum < |buf| ==> Run(buf) < pnum)
  }

  lemma FoundUsed(buf: seq<Sector>, sectorNum: nat, alignment: nat, tail: nat, pnum: nat)
    requires |buf| > 0 && alignment > 0 && tail == Tail(sectorNum + Run(buf), alignment)
    requires IsZero(buf[0]) ==> 0 < tail && Run(buf) <= tail
    requires var up := if tail == 0 then Run(buf) else Run(buf) + alignment - tail;
             pnum == if up > |buf| then |buf| else up
    ensures Found(buf, sectorNum, alignment, true, pnum)
  {
    Realigned(sectorNum + Run(buf), alignment);
    RequestIsDense(buf, pnum, alignment);
  }

  lemma FoundSpare(buf: seq<Sector>, sectorNum: nat, alignment: nat, tail: nat, pnum: nat)
    requires |buf| > 0 && alignment > 0 && tail == Tail(sectorNum + Run(buf), alignment)
    requires IsZero(buf[0]) && !(0 < tail && Run(buf) <= tail) && pnum == Run(buf) - tail
    ensures Found(buf, sectorNum, alignment, false, pnum)
  {
    Realigned(sectorNum + Run(buf), alignment);
  }

  /** is_allocated_sectors */
  method IsAllocatedSectors(buf: seq<Sector>, sectorNum: nat, alignment: nat) returns (used: bool, pnum: nat)
    requires IsPowerOfTwo(alignment)
    ensures buf == [] ==> !used && pnum == 0
    ensures buf != [] ==> Found(buf, sectorNum, alignment, used, pnum)
  {
    if buf == [] { return false, 0; }
    var zero := IsZero(buf[0]);
    var i := 1;
    while i < |buf|
      invariant 1 <= i <= |buf| && forall k :: 0 <= k < i ==> IsZero(buf[k]) == zero
    {
      if zero != IsZero(buf[i]) { break; }
      i := i + 1;
    }
    RunIs(buf, i);
    var tail := And(sectorNum + i, alignment - 1);
    MaskIsTail(sectorNum + i, alignment);
    if tail != 0 {
      if zero && i <= tail { zero := false; }
      if !zero {
        i := i + alignment - tail;
        if i > |buf| { i := |buf|; }
      } else {
        i := i - tail;
      }
    }
    used, pnum := !zero, i;
    if used {
      FoundUsed(buf, sectorNum, alignment, tail, pnum);
    } else {
      FoundSpare(buf, sectorNum, alignment, tail, pnum);
    }
  }

  /** `pnum` sectors are for the request, the zeros up to `checked` are put off; they go on up to `end`. */
  ghost predicate Gathered(buf: seq<Sector>, pnum: nat, checked: nat, end: nat, min: nat, alignment: nat) {
    && 0 < pnum <= checked <= end <= |buf| && Dense(buf, pnum, min + 2 * alignment)
    && (pnum < |buf| ==> DenseBefore(buf, pnum, alignment))
    && ZeroRange(buf, pnum, end) && end - pnum <= min + alignment
    && (pnum < checked && end < |buf| ==> !IsZero(buf[end]))
  }

  lemma ZerosInRest(buf: seq<Sector>, from: nat, a: nat, b: nat)
    requires from <= a && ZeroRange(buf, a, b)
    ensures ZeroRange(buf[from..], a - from, b - from)
  {
  }

  lemma ZerosStopInside(rest: seq<Sector>, n: nat)
    requires 0 < n < |rest| && (IsZero(rest[0]) ==> Run(rest) < n)
    ensures !ZeroRange(rest, 0, n)
  {
    var stop := if IsZero(rest[0]) then Run(rest) else 0;
    assert !IsZero(rest[stop]);
  }

  /** Zeros that reach the next request end inside it, or the buffer does. */
  lemma GatherUsed(buf: seq<Sector>, pnum: nat, checked: nat, end: nat, min: nat, alignment: nat, n: nat)
    requires Gathered(buf, pnum, checked, end, min, alignment) && 0 < n <= |buf| - checked
    requires var rest := buf[checked..];
             Dense(rest, n, alignment) && (IsZero(rest[0]) && n < |rest| ==> Run(rest) < n)
    ensures Gathered(buf, checked + n, checked + n, checked + n, min, alignment)
  {
    var to := checked + n;
    if to < |buf| { ZerosStopInside(buf[checked..], n); }
    forall a: nat, b: nat | ZeroRange(buf, a, b) && b <= to
      ensures b - a <= min + 2 * alignment && (b == to < |buf| ==> b - a <= alignment)
    {
      if a >= checked {
        ZerosInRest(buf, checked, a, b);
      } else if b > checked {
        ZerosInRest(buf, checked, checked, b);
        if a < pnum { assert ZeroRange(buf, a, pnum); }
      }
    }
  }

  lemma ZerosGoOn(buf: seq<Sector>, from: nat, at: nat, n: nat)
    requires ZeroRange(buf, from, at) && ZeroRange(buf[at..], 0, n)
    ensures ZeroRange(buf, from, at + n)
  {
    forall i | at <= i < at + n ensures IsZero(buf[i]) { assert buf[i] == buf[at..][i - at]; }
  }

  /** Zeros that are too few to end the request are put off. */
  lemma GatherSpare(buf: seq<Sector>, pnum: nat, checked: nat, end: nat, min: nat, alignment: nat, n: nat)
    returns (end': nat)
    requires Gathered(buf, pnum, checked, end, min, alignment) && 0 < n <= |buf| - checked && n < min
    requires var rest := buf[checked..]; n <= Run(rest) < n + alignment && IsZero(rest[0])
    ensures Gathered(buf, pnum, checked + n, end', min, alignment)
  {
    var rest := buf[checked..];
    end' := checked + Run(rest);
    ZerosGoOn(buf, pnum, checked, Run(rest));
    if pnum < checked { assert end' == end; }
  }

  /**
   is_allocated_sectors_min.  The request ends where only zeros follow: up to the end of the buffer, or at least
   `min` of them (`zerosEnd`).  It has no more than `min` zeros in a row, but for those that fill up blocks.
   */
  method IsAllocatedSectorsMin(buf: seq<Sector>, min: nat, sectorNum: nat, alignment: nat) returns (used: bool,
                              pnum: nat, ghost zerosEnd: nat)
    requires IsPowerOfTwo(alignment)
    ensures buf == [] ==> !used && pnum == 0
    ensures buf != [] ==> 0 < pnum <= |buf| && (used <==> !Spare(buf, sectorNum, alignment))
    ensures !used ==> ZeroRange(buf, 0, pnum)
    ensures used ==> ZeroRange(buf, pnum, zerosEnd) && (zerosEnd == |buf| || zerosEnd - pnum >= min)
    ensures used ==> Dense(buf, pnum, min + 2 * alignment)
  {
    used, pnum := IsAllocatedSectors(buf, sectorNum, alignment);
    zerosEnd := pnum;
    if !used { return; }
    var checked: nat := pnum;
    ghost var end: nat := pnum;
    while checked < |buf|
      invariant Gathered(buf, pnum, checked, end, min, alignment)
    {
      var more, n := IsAllocatedSectors(buf[checked..], sectorNum + checked, alignment);
      if more {
        GatherUsed(buf, pnum, checked, end, min, alignment, n);
        end := checked + n;
      } else {
        if n < min { end := GatherSpare(buf, pnum, checked, end, min, alignment, n); }
        ZerosGoOn(buf, pnum, checked, n);
      }
      checked := checked + n;
      if more {
        pnum := checked;
      } else if n >= (if |buf| < min then |buf| else min) {
        break;
      }
    }
    zerosEnd := checked;
  }

  // ---- Writing

  datatype BlockStatus = Data | Zero | BackingFile

  /** What the target range is to contain */
  ghost predicate Meant(status: BlockStatus, buf: seq<Sector>, before: seq<Sector>, after: seq<Sector>, from: nat,
                        to: nat)
    requires from <= to && to - from <= |buf| && to <= |before| == |after|
  {
    forall i {:trigger after[i]} :: from <= i < to ==>
      && (status == Data ==> after[i] == buf[i - from])
      && (status == Zero ==> IsZero(after[i]))
      && (status == BackingFile ==> after[i] == before[i])
  }

  /** Sectors outside the range are as they were. */
  ghost predicate Outside(before: seq<Sector>, after: seq<Sector>, from: nat, to: nat) {
    |after| == |before| && forall i :: 0 <= i < |before| && !(from <= i < to) ==> after[i] == before[i]
  }

  /** None of the requests from number `from` up to number `to` fails. */
  ghost predicate AllWell(fails: nat -> bool, from: nat, to: nat) {
    forall t {:trigger fails(t)} :: from <= t < to ==> !fails(t)
  }

  class Target {
    var sectors: seq<Sector>
    var clock: nat
    const minSparse: nat
    const alignment: nat
    const hasZeroInit: bool
    const hasBacking: bool
    /** Which requests fail, and which of its sectors a failing request reaches */
    const fails: nat -> bool
    const reaches: nat -> nat -> bool

    constructor (sectors: seq<Sector>, minSparse: nat, alignment: nat, hasZeroInit: bool, hasBacking: bool,
                 fails: nat -> bool, reaches: nat -> nat -> bool)
      ensures this.sectors == sectors && this.minSparse == minSparse && this.alignment == alignment
      ensures this.hasZeroInit == hasZeroInit && this.hasBacking == hasBacking
    {
      this.sectors, this.minSparse, this.alignment := sectors, minSparse, alignment;
      this.hasZeroInit, this.hasBacking := hasZeroInit, hasBacking;
      this.fails, this.reaches, this.clock := fails, reaches, 0;
    }

    /** The backing file shows the range, or it is zero, or taken for zeros, and the target has zeros there already. */
    ghost predicate NeedsNoRequest(buf: seq<Sector>, sectorNum: nat, status: BlockStatus)
      requires buf != [] && alignment > 0
    {
      match status
      case BackingFile => true
      case Zero => hasZeroInit
      case Data => hasZeroInit && minSparse > 0 && Spare(buf, sectorNum, alignment)
    }

    /** blk_co_pwrite, and blk_co_pwrite_zeroes with zeros */
    method Put(sectorNum: nat, data: seq<Sector>) returns (ok: bool)
      requires sectorNum + |data| <= |sectors|
      modifies `sectors, `clock
      ensures Outside(old(sectors), sectors, sectorNum, sectorNum + |data|)
      ensures ok ==> Meant(Data, data, old(sectors), sectors, sectorNum, sectorNum + |data|)
      ensures clock == old(clock) + 1 && (ok <==> AllWell(fails, old(clock), clock))
    {
      ok := !fails(clock);
      var i := 0;
      while i < |data|
        invariant 0 <= i <= |data| && Outside(old(sectors), sectors, sectorNum, sectorNum + i)
        invariant ok ==> forall k :: 0 <= k < i ==> sectors[sectorNum + k] == data[k]
        invariant clock == old(clock)
      {
        if ok || reaches(clock)(i) {
          sectors := sectors[sectorNum + i := data[i]];
        }
        i := i + 1;
      }
      clock := clock + 1;
    }

    method PutZeroes(sectorNum: nat, n: nat) returns (ok: bool)
      requires sectorNum + n <= |sectors|
      modifies `sectors, `clock
      ensures Outside(old(sectors), sectors, sectorNum, sectorNum + n)
      ensures ok ==> forall i :: sectorNum <= i < sectorNum + n ==> IsZero(sectors[i])
      ensures clock == old(clock) + 1 && (ok <==> AllWell(fails, old(clock), clock))
    {
      ok := Put(sectorNum, seq<Sector>(n, i => Zeros(SECTOR_SIZE)));
    }

    /** One round of the loop of convert_co_write */
    method WriteNext(sectorNum: nat, buf: seq<Sector>, status: BlockStatus) returns (ok: bool, n: nat)
      requires buf != [] && sectorNum + |buf| <= |sectors| && IsPowerOfTwo(alignment)
      requires status == BackingFile ==> hasBacking
      requires hasZeroInit ==> !hasBacking && forall i :: sectorNum <= i < sectorNum + |buf| ==> IsZero(sectors[i])
      modifies `sectors, `clock
      ensures 0 < n <= |buf| && Outside(old(sectors), sectors, sectorNum, sectorNum + n)
      ensures ok ==> Meant(status, buf, old(sectors), sectors, sectorNum, sectorNum + n)
      ensures ok <==> AllWell(fails, old(clock), clock)
      ensures clock == old(clock) + if NeedsNoRequest(buf, sectorNum, status) then 0 else 1
    {
      n := |buf|;
      var zeros := status == Zero;
      if status == Data {
        var used := true;
        if minSparse > 0 {
          ghost var zerosEnd;
          used, n, zerosEnd := IsAllocatedSectorsMin(buf, minSparse, sectorNum, alignment);
        }
        if used {
          ok := Put(sectorNum, buf[..n]);
          return;
        }
        zeros := true;
      }
      if zeros && !hasZeroInit {
        ok := PutZeroes(sectorNum, n);
        return;
      }
      ok := true;
    }

    /**
     convert_co_write without compression: the range ends up as `buf` (or as zeros, or untouched, by status) and
     nothing else changes, whether zeros are written or the target is known to have them already.  It fails
     exactly if one of its requests does.
     */
    method Write(sectorNum: nat, buf: seq<Sector>, status: BlockStatus) returns (ok: bool)
      requires sectorNum + |buf| <= |sectors| && IsPowerOfTwo(alignment)
      requires status == BackingFile ==> hasBacking
      requires hasZeroInit ==> !hasBacking && forall i :: sectorNum <= i < sectorNum + |buf| ==> IsZero(sectors[i])
      modifies `sectors, `clock
      ensures Outside(old(sectors), sectors, sectorNum, sectorNum + |buf|)
      ensures ok ==> Meant(status, buf, old(sectors), sectors, sectorNum, sectorNum + |buf|)
      ensures old(clock) <= clock <= old(clock) + |buf| && (ok <==> AllWell(fails, old(clock), clock))
      ensures status == BackingFile || (status == Zero && hasZeroInit) || buf == [] ==> clock == old(clock)
      ensures status != BackingFile && !hasZeroInit && buf != [] ==> clock > old(clock)
    {
      var done := 0;
      while done < |buf|
        invariant 0 <= done <= |buf| && Outside(old(sectors), sectors, sectorNum, sectorNum + done)
        invariant Meant(status, buf, old(sectors), sectors, sectorNum, sectorNum + done)
        invariant old(clock) <= clock <= old(clock) + done && AllWell(fails, old(clock), clock)
        invariant status == BackingFile || (status == Zero && hasZeroInit) ==> clock == old(clock)
        invariant status != BackingFile && !hasZeroInit && done > 0 ==> clock > old(clock)
      {
        var n;
        ok, n := WriteNext(sectorNum + done, buf[done..], status);
        if !ok { return; }
        done := done + n;
      }
      ok := true;
    }
  }
}
