/**
 The packet layer of the GDB stub (tools/qemu/gdbstub.c): the parser that gdb_read_byte runs byte by byte, and the
 encoder of outgoing packets.  The packet format is that of the GDB Remote Serial Protocol, section "Overview".
 */
module GdbPacket {
  import opened Common

  const MAX_PACKET_LENGTH := 4096
  const DOLLAR: Byte := 0x24
  const HASH: Byte := 0x23
  const STAR: Byte := 0x2a
  const BRACE: Byte := 0x7d
  const PLUS: Byte := 0x2b
  const MINUS: Byte := 0x2d
  const SPACE: Byte := 0x20

  // ---- Hexadecimal digits

  predicate IsHex(c: Byte) {
    0x30 <= c <= 0x39 || 0x41 <= c <= 0x46 || 0x61 <= c <= 0x66
  }

  function FromHex(c: Byte): (v: nat)
    ensures v < 16
  {
    if 0x30 <= c <= 0x39 then c - 0x30
    else if 0x41 <= c <= 0x46 then c - 0x41 + 10
    else if 0x61 <= c <= 0x66 then c - 0x61 + 10
    else 0
  }

  function ToHex(v: nat): (c: Byte)
    requires v < 16
    ensures IsHex(c) && FromHex(c) == v
  {
    if v < 10 then v + 0x30 else v - 10 + 0x61
  }

  /** c ^ 0x20 */
  function Flip(c: Byte): Byte {
    if c / 32 % 2 == 0 then c + 32 else c - 32
  }

  lemma FlipTwice(c: Byte)
    ensures Flip(Flip(c)) == c
  {
    assert (c + 32) / 32 == c / 32 + 1 && (c - 32) / 32 == c / 32 - 1;
  }

  // ---- The parser as a function

  datatype Phase = Idle | GetLine | GetLineEsc | GetLineRle | Chksum1 | Chksum2

  /** What the command handler leaves behind: a packet that waits for an acknowledgement, and a running machine */
  datatype Handler = Handler(reply: seq<Byte> -> seq<Byte>, resumes: seq<Byte> -> bool)

  /**
   `line` is line_buf up to line_buf_index, `out` what has been sent, and `packets` what has been given to the
   command handler.
   */
  datatype Gdb = Gdb(phase: Phase, line: seq<Byte>, sum: nat, csum: nat, lastPacket: seq<Byte>, running: bool,
                     out: seq<Byte>, packets: seq<seq<Byte>>)

  const LIMIT := MAX_PACKET_LENGTH - 1

  function Repeat(b: Byte, n: nat): (s: seq<Byte>)
    ensures |s| == n && forall i :: 0 <= i < n ==> s[i] == b
  {
    seq<Byte>(n, i => b)
  }

  /** The switch of gdb_read_byte */
  function Parse(s: Gdb, h: Handler, ch: Byte): (r: Gdb)
  {
    match s.phase
    case Idle =>
      if ch == DOLLAR then s.(phase := GetLine, line := [], sum := 0) else s
    case GetLine =>
      if ch == BRACE then s.(phase := GetLineEsc, sum := s.sum + ch)
      else if ch == STAR then s.(phase := GetLineRle, sum := s.sum + ch)
      else if ch == HASH then s.(phase := Chksum1)
      else if |s.line| >= LIMIT then s.(phase := Idle)
      else s.(line := s.line + [ch], sum := s.sum + ch)
    case GetLineEsc =>
      if ch == HASH then s.(phase := Chksum1)
      else if |s.line| >= LIMIT then s.(phase := Idle)
      else s.(line := s.line + [Flip(ch)], sum := s.sum + ch, phase := GetLine)
    case GetLineRle =>
      if ch < SPACE || ch == HASH || ch == DOLLAR || ch > 126 then s.(phase := GetLine)
      else
        var repeat := ch - SPACE + 3;
        if |s.line| + repeat >= LIMIT then s.(phase := Idle)
        else if |s.line| < 1 then s.(phase := GetLine)
        else s.(line := s.line + Repeat(s.line[|s.line| - 1], repeat), sum := s.sum + ch, phase := GetLine)
    case Chksum1 =>
      if !IsHex(ch) then s.(phase := GetLine) else s.(csum := 16 * FromHex(ch), phase := Chksum2)
    case Chksum2 =>
      if !IsHex(ch) then s.(phase := GetLine)
      else
        var csum := s.csum + FromHex(ch);
        if csum != s.sum % 256 then s.(csum := csum, out := s.out + [MINUS], phase := Idle)
        else s.(csum := csum, out := s.out + [PLUS] + h.reply(s.line), packets := s.packets + [s.line],
                lastPacket := h.reply(s.line), running := h.resumes(s.line), phase := Idle)
  }

  /** gdb_read_byte */
  function Read(s: Gdb, h: Handler, ch: Byte): (r: Gdb)
  {
    var s1 := if s.lastPacket == [] then s
              else s.(out := if ch == MINUS then s.out + s.lastPacket else s.out,
                      lastPacket := if ch == PLUS || ch == DOLLAR then [] else s.lastPacket);
    if s.lastPacket != [] && ch != DOLLAR then s1
    else if s1.running then s1.(running := false)
    else Parse(s1, h, ch)
  }

  function Feed(s: Gdb, h: Handler, bytes: seq<Byte>): Gdb
    decreases |bytes|
  {
    if bytes == [] then s else Feed(Read(s, h, bytes[0]), h, bytes[1..])
  }

  lemma {:induction false} FeedConcat(s: Gdb, h: Handler, a: seq<Byte>, b: seq<Byte>)
    ensures Feed(s, h, a + b) == Feed(Feed(s, h, a), h, b)
    decreases |a|
  {
    if a == [] {
      assert a + b == b;
    } else {
      assert (a + b)[0] == a[0] && (a + b)[1..] == a[1..] + b;
      FeedConcat(Read(s, h, a[0]), h, a[1..], b);
    }
  }

  lemma FeedOne(s: Gdb, h: Handler, c: Byte)
    ensures Feed(s, h, [c]) == Read(s, h, c)
  {
    assert [c][1..] == [];
  }

  lemma FeedTwo(s: Gdb, h: Handler, c: Byte, d: Byte)
    ensures Feed(s, h, [c, d]) == Read(Read(s, h, c), h, d)
  {
    assert [c, d] == [c] + [d];
    FeedConcat(s, h, [c], [d]);
    FeedOne(s, h, c);
    FeedOne(Read(s, h, c), h, d);
  }

  // ---- Every stream

  predicate Ready(s: Gdb) {
    s.lastPacket == [] && !s.running
  }

  /** Nothing is pending while a packet is being read. */
  predicate Good(s: Gdb) {
    |s.line| <= LIMIT && (s.phase != Idle ==> Ready(s))
  }

  lemma FeedNext(s: Gdb, h: Handler, bytes: seq<Byte>, k: nat)
    requires k < |bytes|
    ensures Feed(s, h, bytes[..k + 1]) == Read(Feed(s, h, bytes[..k]), h, bytes[k])
  {
    assert bytes[..k + 1] == bytes[..k] + [bytes[k]];
    FeedConcat(s, h, bytes[..k], [bytes[k]]);
    FeedOne(Feed(s, h, bytes[..k]), h, bytes[k]);
  }

  /** Wherever a stream is cut, the line fits the buffer, and the first digit of a checksum has just been read. */
  lemma {:induction false} EveryPrefix(s: Gdb, h: Handler, bytes: seq<Byte>, k: nat)
    requires Good(s) && s.phase == Idle && k <= |bytes|
    ensures var a := Feed(s, h, bytes[..k]);
            Good(a) && (a.phase == Chksum2 ==> k > 0 && IsHex(bytes[k - 1]) && a.csum == 16 * FromHex(bytes[k - 1]))
  {
    if k > 0 {
      EveryPrefix(s, h, bytes, k - 1);
      FeedNext(s, h, bytes, k - 1);
    }
  }

  /** A line is handed over only after two digits that are its checksum. */
  lemma DispatchNeedsChecksum(s: Gdb, h: Handler, bytes: seq<Byte>, k: nat)
    requires Good(s) && s.phase == Idle && k < |bytes|
    requires Feed(s, h, bytes[..k + 1]).packets != Feed(s, h, bytes[..k]).packets
    ensures var a, b := Feed(s, h, bytes[..k]), Feed(s, h, bytes[..k + 1]);
            && k > 0 && IsHex(bytes[k - 1]) && IsHex(bytes[k])
            && 16 * FromHex(bytes[k - 1]) + FromHex(bytes[k]) == a.sum % 256
            && b.packets == a.packets + [a.line] && |a.line| <= LIMIT && b.out == a.out + [PLUS] + h.reply(a.line)
  {
    EveryPrefix(s, h, bytes, k);
    FeedNext(s, h, bytes, k);
  }

  // ---- Packet bodies

  /** A character that stands for itself, one that is escaped, or a count of repetitions, as they are on the wire */
  datatype Item = Plain(b: Byte) | Escaped(b: Byte) | Times(b: Byte)

  predicate Proper(i: Item) {
    match i
    case Plain(b) => b != BRACE && b != STAR && b != HASH
    case Escaped(b) => b != HASH
    case Times(b) => SPACE <= b <= 126 && b != HASH && b != DOLLAR
  }

  function Wire1(i: Item): seq<Byte> {
    match i
    case Plain(b) => [b]
    case Escaped(b) => [BRACE, b]
    case Times(b) => [STAR, b]
  }

  function Wire(items: seq<Item>): seq<Byte> {
    if items == [] then [] else Wire(items[..|items| - 1]) + Wire1(items[|items| - 1])
  }

  /** What a line becomes when an item follows */
  function Extend(line: seq<Byte>, i: Item): seq<Byte> {
    match i
    case Plain(b) => line + [b]
    case Escaped(b) => line + [Flip(b)]
    case Times(b) => if line == [] || b < SPACE then line else line + Repeat(line[|line| - 1], b - SPACE + 3)
  }

  /** What a body stands for */
  function Expand(items: seq<Item>): seq<Byte> {
    if items == [] then [] else Extend(Expand(items[..|items| - 1]), items[|items| - 1])
  }

  /** A repetition follows something, and the line buffer is large enough. */
  predicate FitsNext(line: seq<Byte>, i: Item) {
    && Proper(i)
    && match i
       case Plain(_) => |line| < LIMIT
       case Escaped(_) => |line| < LIMIT
       case Times(b) => line != [] && |line| + (b - SPACE + 3) < LIMIT
  }

  predicate Fits(items: seq<Item>) {
    items == [] || (Fits(items[..|items| - 1]) && FitsNext(Expand(items[..|items| - 1]), items[|items| - 1]))
  }

  function Sum(bytes: seq<Byte>): nat {
    if bytes == [] then 0 else Sum(bytes[..|bytes| - 1]) + bytes[|bytes| - 1]
  }

  lemma {:induction false} SumConcat(a: seq<Byte>, b: seq<Byte>)
    ensures Sum(a + b) == Sum(a) + Sum(b)
    decreases |b|
  {
    if b == [] {
      assert a + b == a;
    } else {
      var k := |b| - 1;
      assert (a + b)[..|a + b| - 1] == a + b[..k];
      SumConcat(a, b[..k]);
    }
  }

  lemma SumTwo(c: Byte, d: Byte)
    ensures Sum([c, d]) == c + d && Sum([c]) == c
  {
    assert [c][..0] == [];
    assert Sum([c]) == c;
    assert [c, d][..1] == [c];
  }

  /** The state in the middle of a packet whose body so far is `items` */
  function Midway(s: Gdb, items: seq<Item>): Gdb {
    s.(phase := GetLine, line := Expand(items), sum := Sum(Wire(items)))
  }

  lemma ParsesPlain(s: Gdb, h: Handler, b: Byte)
    requires Ready(s) && s.phase == GetLine && Proper(Plain(b)) && |s.line| < LIMIT
    ensures Feed(s, h, [b]) == s.(line := s.line + [b], sum := s.sum + Sum([b]))
  {
    SumTwo(b, 0);
    FeedOne(s, h, b);
  }

  lemma ParsesEscaped(s: Gdb, h: Handler, b: Byte)
    requires Ready(s) && s.phase == GetLine && Proper(Escaped(b)) && |s.line| < LIMIT
    ensures Feed(s, h, [BRACE, b]) == s.(line := s.line + [Flip(b)], sum := s.sum + Sum([BRACE, b]))
  {
    SumTwo(BRACE, b);
    FeedTwo(s, h, BRACE, b);
  }

  lemma ParsesTimes(s: Gdb, h: Handler, b: Byte)
    requires Ready(s) && s.phase == GetLine && Proper(Times(b)) && s.line != [] && |s.line| + (b - SPACE + 3) < LIMIT
    ensures Feed(s, h, [STAR, b]) ==
            s.(line := s.line + Repeat(s.line[|s.line| - 1], b - SPACE + 3), sum := s.sum + Sum([STAR, b]))
  {
    SumTwo(STAR, b);
    FeedTwo(s, h, STAR, b);
  }

  lemma ParsesItem(s: Gdb, h: Handler, items: seq<Item>, i: Item)
    requires Ready(s) && Fits(items + [i])
    ensures Feed(Midway(s, items), h, Wire1(i)) == Midway(s, items + [i])
  {
    assert (items + [i])[..|items|] == items;
    SumConcat(Wire(items), Wire1(i));
    match i
    case Plain(b) => ParsesPlain(Midway(s, items), h, b);
    case Escaped(b) => ParsesEscaped(Midway(s, items), h, b);
    case Times(b) => ParsesTimes(Midway(s, items), h, b);
  }

  /** The parser agrees with the meaning of a body, item by item. */
  lemma {:induction false} ParsesItems(s: Gdb, h: Handler, items: seq<Item>)
    requires Ready(s) && s.phase == GetLine && s.line == [] && s.sum == 0 && Fits(items)
    ensures Feed(s, h, Wire(items)) == Midway(s, items)
  {
    if items != [] {
      var k := |items| - 1;
      ParsesItems(s, h, items[..k]);
      FeedConcat(s, h, Wire(items[..k]), Wire1(items[k]));
      ParsesItem(s, h, items[..k], items[k]);
      assert items == items[..k] + [items[k]];
    }
  }

  // ---- Frames

  /** A body between its start and its checksum, as put_packet_binary sends it */
  function Frame(body: seq<Byte>): seq<Byte> {
    [DOLLAR] + body + [HASH, ToHex(Sum(body) / 16 % 16), ToHex(Sum(body) % 16)]
  }

  /** The state after the line has been handed over */
  function Handled(s: Gdb, h: Handler, line: seq<Byte>, sum: nat): Gdb {
    s.(phase := Idle, line := line, sum := sum, csum := sum % 256, out := s.out + [PLUS] + h.reply(line),
       packets := s.packets + [line], lastPacket := h.reply(line), running := h.resumes(line))
  }

  lemma TwoDigits(sum: nat)
    ensures 16 * (sum / 16 % 16) + sum % 16 == sum % 256
  {
  }

  lemma ParsesChecksum(s: Gdb, h: Handler, items: seq<Item>)
    requires Ready(s)
    ensures var sum := Sum(Wire(items));
            Feed(Midway(s, items), h, [HASH, ToHex(sum / 16 % 16), ToHex(sum % 16)]) ==
            Handled(s, h, Expand(items), sum)
  {
    var sum := Sum(Wire(items));
    var m := Midway(s, items);
    var hi, lo := ToHex(sum / 16 % 16), ToHex(sum % 16);
    assert [HASH, hi, lo] == [HASH] + [hi, lo];
    FeedConcat(m, h, [HASH], [hi, lo]);
    FeedOne(m, h, HASH);
    FeedTwo(m.(phase := Chksum1), h, hi, lo);
    TwoDigits(sum);
  }

  /** A well-formed packet is acknowledged once and handed over as what its body stands for. */
  lemma ParsesFrame(s: Gdb, h: Handler, items: seq<Item>)
    requires Ready(s) && s.phase == Idle && Fits(items)
    ensures Feed(s, h, Frame(Wire(items))) == Handled(s, h, Expand(items), Sum(Wire(items)))
  {
    var body := Wire(items);
    var tail := [HASH, ToHex(Sum(body) / 16 % 16), ToHex(Sum(body) % 16)];
    var started := s.(phase := GetLine, line := [], sum := 0);
    FeedConcat(s, h, [DOLLAR] + body, tail);
    FeedConcat(s, h, [DOLLAR], body);
    FeedOne(s, h, DOLLAR);
    ParsesItems(started, h, items);
    assert Midway(started, items) == Midway(s, items);
    ParsesChecksum(s, h, items);
  }

  /** The state after a packet has been refused */
  function Rejected(s: Gdb, items: seq<Item>, hi: Byte, lo: Byte): Gdb {
    Midway(s, items).(phase := Idle, csum := 16 * FromHex(hi) + FromHex(lo), out := s.out + [MINUS])
  }

  lemma ParsesWrongChecksum(s: Gdb, h: Handler, items: seq<Item>, hi: Byte, lo: Byte)
    requires Ready(s) && IsHex(hi) && IsHex(lo) && 16 * FromHex(hi) + FromHex(lo) != Sum(Wire(items)) % 256
    ensures Feed(Midway(s, items), h, [HASH, hi, lo]) == Rejected(s, items, hi, lo)
  {
    var m := Midway(s, items);
    assert [HASH, hi, lo] == [HASH] + [hi, lo];
    FeedConcat(m, h, [HASH], [hi, lo]);
    FeedOne(m, h, HASH);
    FeedTwo(m.(phase := Chksum1), h, hi, lo);
  }

  /** A packet with any other two digits than those of its checksum is refused once, and nothing is handed over. */
  lemma RejectsWrongChecksum(s: Gdb, h: Handler, items: seq<Item>, hi: Byte, lo: Byte)
    requires Ready(s) && s.phase == Idle && Fits(items)
    requires IsHex(hi) && IsHex(lo) && 16 * FromHex(hi) + FromHex(lo) != Sum(Wire(items)) % 256
    ensures var r := Feed(s, h, [DOLLAR] + Wire(items) + [HASH, hi, lo]);
            r.packets == s.packets && r.out == s.out + [MINUS] && r.phase == Idle && r.lastPacket == s.lastPacket
            && r.running == s.running
  {
    var started := s.(phase := GetLine, line := [], sum := 0);
    FeedConcat(s, h, [DOLLAR] + Wire(items), [HASH, hi, lo]);
    FeedConcat(s, h, [DOLLAR], Wire(items));
    FeedOne(s, h, DOLLAR);
    ParsesItems(started, h, items);
    assert Midway(started, items) == Midway(s, items);
    ParsesWrongChecksum(s, h, items, hi, lo);
  }

  // ---- Sending binary data

  predicate Special(b: Byte) {
    b == HASH || b == DOLLAR || b == STAR || b == BRACE
  }

  function Item1(b: Byte): Item {
    if Special(b) then Escaped(Flip(b)) else Plain(b)
  }

  /** The items that memtox makes of binary data */
  function Items(mem: seq<Byte>): (items: seq<Item>)
    ensures |items| == |mem|
  {
    if mem == [] then [] else Items(mem[..|mem| - 1]) + [Item1(mem[|mem| - 1])]
  }

  lemma WireNext(mem: seq<Byte>, k: nat)
    requires k < |mem|
    ensures Wire(Items(mem[..k + 1])) == Wire(Items(mem[..k])) + Wire1(Item1(mem[k]))
  {
    assert mem[..k + 1][..k] == mem[..k];
    var items := Items(mem[..k]);
    assert (items + [Item1(mem[k])])[..|items|] == items;
  }

  /** memtox */
  method MemToX(mem: seq<Byte>) returns (buf: seq<Byte>)
    ensures buf == Wire(Items(mem))
  {
    buf := [];
    var k := 0;
    while k < |mem|
      invariant 0 <= k <= |mem| && buf == Wire(Items(mem[..k]))
    {
      WireNext(mem, k);
      if Special(mem[k]) {
        buf := buf + [BRACE, Flip(mem[k])];
      } else {
        buf := buf + [mem[k]];
      }
      k := k + 1;
    }
    assert mem[..|mem|] == mem;
  }

  /** The value of a byte in the source's char, which is signed */
  function Signed(b: Byte): int {
    if b < 128 then b else b - 256
  }

  lemma SameLowByte(x: int, y: int, b: Byte)
    requires x % 256 == y % 256
    ensures (x + Signed(b)) % 256 == (y + b) % 256
  {
  }

  lemma LowDigits(x: int)
    ensures x / 16 % 16 == x % 256 / 16 && x % 16 == x % 256 % 16
  {
    assert x == 256 * (x / 256) + x % 256;
    assert x / 16 == 16 * (x / 256) + x % 256 / 16;
  }

  lemma SameDigits(x: int, y: int)
    requires x % 256 == y % 256
    ensures x / 16 % 16 == y / 16 % 16 && x % 16 == y % 16
  {
    LowDigits(x);
    LowDigits(y);
  }

  /** put_packet_binary: the sum of signed characters gives the same two digits as that of bytes. */
  method PutPacketBinary(buf: seq<Byte>) returns (packet: seq<Byte>)
    ensures packet == Frame(buf)
  {
    var csum := 0;
    for i := 0 to |buf|
      invariant csum % 256 == Sum(buf[..i]) % 256
    {
      assert buf[..i + 1][..i] == buf[..i];
      SameLowByte(csum, Sum(buf[..i]), buf[i]);
      csum := csum + Signed(buf[i]);
    }
    assert buf[..|buf|] == buf;
    SameDigits(csum, Sum(buf));
    packet := [DOLLAR] + buf + [HASH, ToHex(csum / 16 % 16), ToHex(csum % 16)];
  }

  lemma ItemStandsForByte(items: seq<Item>, b: Byte)
    requires Fits(items) && |Expand(items)| < LIMIT
    ensures Expand(items + [Item1(b)]) == Expand(items) + [b] && Fits(items + [Item1(b)])
  {
    assert (items + [Item1(b)])[..|items|] == items;
    FlipTwice(b);
  }

  lemma {:induction false} ItemsExpand(mem: seq<Byte>)
    requires |mem| <= LIMIT
    ensures Expand(Items(mem)) == mem && Fits(Items(mem))
  {
    if mem != [] {
      ItemsExpand(mem[..|mem| - 1]);
      ItemStandsForByte(Items(mem[..|mem| - 1]), mem[|mem| - 1]);
      assert mem == mem[..|mem| - 1] + [mem[|mem| - 1]];
    }
  }

  /** Binary data of up to 4095 bytes comes through: it is handed over as it was sent, and acknowledged once. */
  lemma RoundTrip(s: Gdb, h: Handler, mem: seq<Byte>)
    requires Ready(s) && s.phase == Idle && |mem| <= LIMIT
    ensures var r := Feed(s, h, Frame(Wire(Items(mem))));
            r.line == mem && r.packets == s.packets + [mem] && r.out == s.out + [PLUS] + h.reply(mem) && r.phase == Idle
  {
    ItemsExpand(mem);
    ParsesFrame(s, h, Items(mem));
  }

  // ---- The parser as it runs

  class Stub {
    var phase: Phase
    const lineBuf: array<Byte>
    var index: nat
    var sum: nat
    var csum: nat
    var lastPacket: seq<Byte>
    var running: bool
    var out: seq<Byte>
    var packets: seq<seq<Byte>>
    const h: Handler

    ghost predicate Valid()
      reads this, lineBuf
    {
      && lineBuf.Length == MAX_PACKET_LENGTH && index <= LIMIT
      && (phase == Chksum2 ==> lineBuf[index] == 0)
    }

    ghost function State(): Gdb
      requires Valid()
      reads this, lineBuf
    {
      Gdb(phase, lineBuf[..index], sum, csum, lastPacket, running, out, packets)
    }

    constructor (h: Handler)
      ensures Valid() && fresh(lineBuf) && this.h == h && State() == Gdb(Idle, [], 0, 0, [], false, [], [])
    {
      this.h, lineBuf := h, new Byte[MAX_PACKET_LENGTH];
      phase, index, sum, csum, lastPacket, running, out, packets := Idle, 0, 0, 0, [], false, [], [];
    }

    /** line_buf[line_buf_index++] = c */
    method Append(c: Byte)
      requires Valid() && index < LIMIT && phase != Chksum2
      modifies `index, lineBuf
      ensures Valid() && State() == old(State()).(line := old(State()).line + [c])
    {
      lineBuf[index] := c;
      index := index + 1;
    }

    /** The memset of a run-length sequence */
    method AppendRepeated(n: nat)
      requires Valid() && 0 < index && index + n < LIMIT && phase != Chksum2
      modifies `index, lineBuf
      ensures Valid()
      ensures State() == old(State()).(line := old(State()).line + Repeat(old(State()).line[old(index) - 1], n))
    {
      var c := lineBuf[index - 1];
      var i := 0;
      while i < n
        invariant 0 <= i <= n && index == old(index) && lineBuf[..index] == old(lineBuf[..index])
        invariant forall k :: index <= k < index + i ==> lineBuf[k] == c
      {
        lineBuf[index + i] := c;
        i := i + 1;
      }
      index := index + n;
      assert lineBuf[..index] == old(lineBuf[..index]) + Repeat(c, n);
    }

    /** The case RS_GETLINE_RLE */
    method ParseCount(ch: Byte)
      requires Valid() && phase == GetLineRle
      modifies `phase, `index, `sum, lineBuf
      ensures Valid() && State() == Parse(old(State()), h, ch)
    {
      if ch < SPACE || ch == HASH || ch == DOLLAR || ch > 126 {
        phase := GetLine;
      } else if index + (ch - SPACE + 3) >= LIMIT {
        phase := Idle;
      } else if index < 1 {
        phase := GetLine;
      } else {
        AppendRepeated(ch - SPACE + 3);
        sum := sum + ch;
        phase := GetLine;
      }
    }

    /** The cases RS_GETLINE and RS_GETLINE_ESC */
    method ParseLine(ch: Byte)
      requires Valid() && (phase == GetLine || phase == GetLineEsc)
      modifies `phase, `index, `sum, lineBuf
      ensures Valid() && State() == Parse(old(State()), h, ch)
    {
      if phase == GetLine && (ch == BRACE || ch == STAR) {
        phase := if ch == BRACE then GetLineEsc else GetLineRle;
        sum := sum + ch;
      } else if ch == HASH {
        phase := Chksum1;
      } else if index >= LIMIT {
        phase := Idle;
      } else {
        Append(if phase == GetLine then ch else Flip(ch));
        sum := sum + ch;
        phase := GetLine;
      }
    }

    /** The cases RS_CHKSUM1 and RS_CHKSUM2 */
    method ParseChecksum(ch: Byte)
      requires Valid() && (phase == Chksum1 || phase == Chksum2)
      modifies this, lineBuf
      ensures Valid() && State() == Parse(old(State()), h, ch)
      ensures packets != old(packets) ==> lineBuf[index] == 0
    {
      if !IsHex(ch) {
        phase := GetLine;
      } else if phase == Chksum1 {
        lineBuf[index] := 0;
        csum := 16 * FromHex(ch);
        phase := Chksum2;
      } else {
        csum := csum + FromHex(ch);
        phase := Idle;
        if csum != sum % 256 {
          out := out + [MINUS];
        } else {
          var line := lineBuf[..index];
          out := out + [PLUS] + h.reply(line);
          packets := packets + [line];
          lastPacket, running := h.reply(line), h.resumes(line);
        }
      }
    }

    /** The switch of gdb_read_byte */
    method ParseByte(ch: Byte)
      requires Valid()
      modifies this, lineBuf
      ensures Valid() && State() == Parse(old(State()), h, ch)
      ensures packets != old(packets) ==> lineBuf[index] == 0
    {
      match phase
      case Idle =>
        if ch == DOLLAR { index, sum, phase := 0, 0, GetLine; }
      case GetLine => ParseLine(ch);
      case GetLineEsc => ParseLine(ch);
      case GetLineRle => ParseCount(ch);
      case Chksum1 => ParseChecksum(ch);
      case Chksum2 => ParseChecksum(ch);
    }

    /** gdb_read_byte: every write stays inside the buffer, and a line that is handed over ends with a zero. */
    method ReadByte(ch: Byte)
      requires Valid()
      modifies this, lineBuf
      ensures Valid() && State() == Read(old(State()), h, ch)
      ensures packets != old(packets) ==> lineBuf[index] == 0
    {
      if lastPacket != [] {
        if ch == MINUS { out := out + lastPacket; }
        if ch == PLUS || ch == DOLLAR { lastPacket := []; }
        if ch != DOLLAR { return; }
      }
      if running {
        running := false;
      } else {
        ParseByte(ch);
      }
    }
  }
}
