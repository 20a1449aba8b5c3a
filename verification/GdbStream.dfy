/**
 What the packet parser of the GDB stub (tools/qemu/gdbstub.c) makes of an arbitrary stream of bytes: every line that
 it hands over comes from a frame, of which it has counted exactly the bytes it says it does.
 */
module GdbStream {
  import opened Common
  import opened GdbPacket

  /**
   What can stand between the start of a packet and its checksum: an item, a count of repetitions that is not one or
   has nothing to repeat, an escape character with nothing behind it, and the start of a checksum that breaks off at
   its first or its second digit.
   */
  datatype Piece = Whole(i: Item) | BadCount(c: Byte) | CutEscape | BadDigit(c: Byte) | BadDigits(hi: Byte, c: Byte)

  function Sent1(p: Piece): seq<Byte> {
    match p
    case Whole(i) => Wire1(i)
    case BadCount(c) => [STAR, c]
    case CutEscape => [BRACE]
    case BadDigit(c) => [HASH, c]
    case BadDigits(hi, c) => [HASH, hi, c]
  }

  /** The bytes of a piece that the checksum is about */
  function Counted1(p: Piece): seq<Byte> {
    match p
    case Whole(i) => Wire1(i)
    case BadCount(_) => [STAR]
    case CutEscape => [BRACE]
    case BadDigit(_) | BadDigits(_, _) => []
  }

  function Meant1(line: seq<Byte>, p: Piece): seq<Byte> {
    if p.Whole? then Extend(line, p.i) else line
  }

  function Sent(pieces: seq<Piece>): seq<Byte> {
    if pieces == [] then [] else Sent(pieces[..|pieces| - 1]) + Sent1(pieces[|pieces| - 1])
  }

  function Counted(pieces: seq<Piece>): seq<Byte> {
    if pieces == [] then [] else Counted(pieces[..|pieces| - 1]) + Counted1(pieces[|pieces| - 1])
  }

  function Meant(pieces: seq<Piece>): seq<Byte> {
    if pieces == [] then [] else Meant1(Meant(pieces[..|pieces| - 1]), pieces[|pieces| - 1])
  }

  predicate Possible(line: seq<Byte>, p: Piece) {
    match p
    case Whole(i) => FitsNext(line, i)
    case BadCount(c) => line == [] || !Proper(Times(c))
    case CutEscape => true
    case BadDigit(c) => !IsHex(c)
    case BadDigits(hi, c) => IsHex(hi) && !IsHex(c)
  }

  predicate EndsCut(pieces: seq<Piece>) {
    pieces != [] && pieces[|pieces| - 1] == CutEscape
  }

  /** Only the start of a checksum cuts an escape sequence off. */
  predicate Sound(pieces: seq<Piece>) {
    pieces == [] ||
    var init, p := pieces[..|pieces| - 1], pieces[|pieces| - 1];
    Sound(init) && Possible(Meant(init), p) && (EndsCut(init) ==> p.BadDigit? || p.BadDigits?)
  }

  lemma {:induction false} Append(pieces: seq<Piece>, p: Piece)
    ensures Sent(pieces + [p]) == Sent(pieces) + Sent1(p) && Meant(pieces + [p]) == Meant1(Meant(pieces), p)
    ensures Sum(Counted(pieces + [p])) == Sum(Counted(pieces)) + Sum(Counted1(p))
    ensures Sound(pieces) && Possible(Meant(pieces), p) && (EndsCut(pieces) ==> p.BadDigit? || p.BadDigits?) ==>
      Sound(pieces + [p])
    ensures EndsCut(pieces + [p]) <==> p == CutEscape
  {
    assert (pieces + [p])[..|pieces|] == pieces;
    SumConcat(Counted(pieces), Counted1(p));
  }

  /** In a body without broken pieces every byte counts. */
  lemma {:induction false} WholeCounts(pieces: seq<Piece>)
    requires forall p :: p in pieces ==> p.Whole?
    ensures Counted(pieces) == Sent(pieces)
  {
    if pieces != [] {
      assert pieces[|pieces| - 1] in pieces;
      WholeCounts(pieces[..|pieces| - 1]);
    }
  }

  /** What the parser has read of the piece it is in the middle of */
  predicate PartIs(a: Gdb, part: seq<Byte>) {
    match a.phase
    case Idle => false
    case GetLine => part == []
    case GetLineEsc => part == [BRACE]
    case GetLineRle => part == [STAR]
    case Chksum1 => part == [HASH]
    case Chksum2 => |part| == 2 && part[0] == HASH && IsHex(part[1]) && a.csum == 16 * FromHex(part[1])
  }

  function PartCounts(a: Gdb): nat {
    match a.phase
    case GetLineEsc => BRACE
    case GetLineRle => STAR
    case Idle | GetLine | Chksum1 | Chksum2 => 0
  }

  /** `tail` are the bytes since the start of the packet. */
  ghost predicate Explains(a: Gdb, tail: seq<Byte>, pieces: seq<Piece>, part: seq<Byte>) {
    && Sound(pieces) && PartIs(a, part) && tail == Sent(pieces) + part
    && a.line == Meant(pieces) && a.sum == Sum(Counted(pieces)) + PartCounts(a)
    && (EndsCut(pieces) ==> a.phase.Chksum1? || a.phase.Chksum2?)
  }

  /** The piece that the parser has read is complete. */
  lemma Regroup(sent: seq<Byte>, part: seq<Byte>, ch: Byte)
    ensures sent + part + [ch] == sent + (part + [ch])
  {
  }

  lemma {:induction false} Completes(a: Gdb, b: Gdb, tail: seq<Byte>, pieces: seq<Piece>, part: seq<Byte>, ch: Byte,
                                     p: Piece)
    requires Explains(a, tail, pieces, part) && Possible(Meant(pieces), p) && Sent1(p) == part + [ch]
    requires EndsCut(pieces) ==> p.BadDigit? || p.BadDigits?
    requires b.phase == GetLine && p != CutEscape && b.line == Meant1(a.line, p)
    requires b.sum + PartCounts(a) == a.sum + Sum(Counted1(p))
    ensures Explains(b, tail + [ch], pieces + [p], [])
  {
    Append(pieces, p);
    Regroup(Sent(pieces), part, ch);
  }

  lemma {:induction false} StepInLine(a: Gdb, h: Handler, tail: seq<Byte>, pieces: seq<Piece>, part: seq<Byte>,
                                      ch: Byte)
    returns (pieces': seq<Piece>, part': seq<Byte>)
    requires Explains(a, tail, pieces, part) && a.phase == GetLine && Parse(a, h, ch).phase != Idle
    ensures Explains(Parse(a, h, ch), tail + [ch], pieces', part')
  {
    pieces', part' := pieces, [ch];
    if ch != BRACE && ch != STAR && ch != HASH {
      SumTwo(ch, 0);
      Completes(a, Parse(a, h, ch), tail, pieces, part, ch, Whole(Plain(ch)));
      pieces', part' := pieces + [Whole(Plain(ch))], [];
    }
  }

  lemma {:induction false} StepInEscape(a: Gdb, h: Handler, tail: seq<Byte>, pieces: seq<Piece>, part: seq<Byte>,
                                        ch: Byte)
    returns (pieces': seq<Piece>, part': seq<Byte>)
    requires Explains(a, tail, pieces, part) && a.phase == GetLineEsc && Parse(a, h, ch).phase != Idle
    ensures Explains(Parse(a, h, ch), tail + [ch], pieces', part')
  {
    SumTwo(BRACE, ch);
    if ch == HASH {
      Append(pieces, CutEscape);
      pieces', part' := pieces + [CutEscape], [HASH];
    } else {
      Completes(a, Parse(a, h, ch), tail, pieces, part, ch, Whole(Escaped(ch)));
      pieces', part' := pieces + [Whole(Escaped(ch))], [];
    }
  }

  lemma {:induction false} StepToBadCount(a: Gdb, h: Handler, tail: seq<Byte>, pieces: seq<Piece>, part: seq<Byte>,
                                          ch: Byte)
    requires Explains(a, tail, pieces, part) && a.phase == GetLineRle && Parse(a, h, ch).phase != Idle
    requires a.line == [] || !Proper(Times(ch))
    ensures Explains(Parse(a, h, ch), tail + [ch], pieces + [BadCount(ch)], [])
  {
    SumTwo(STAR, ch);
    Completes(a, Parse(a, h, ch), tail, pieces, part, ch, BadCount(ch));
  }

  lemma ParsesCount(a: Gdb, h: Handler, ch: Byte)
    requires a.phase == GetLineRle && Parse(a, h, ch).phase != Idle && a.line != [] && Proper(Times(ch))
    ensures FitsNext(a.line, Times(ch))
    ensures Parse(a, h, ch) == a.(line := Extend(a.line, Times(ch)), sum := a.sum + ch, phase := GetLine)
  {
  }

  lemma {:induction false} StepToCount(a: Gdb, h: Handler, tail: seq<Byte>, pieces: seq<Piece>, part: seq<Byte>,
                                       ch: Byte)
    requires Explains(a, tail, pieces, part) && a.phase == GetLineRle && Parse(a, h, ch).phase != Idle
    requires a.line != [] && Proper(Times(ch))
    ensures Explains(Parse(a, h, ch), tail + [ch], pieces + [Whole(Times(ch))], [])
  {
    SumTwo(STAR, ch);
    ParsesCount(a, h, ch);
    var b := a.(line := Extend(a.line, Times(ch)), sum := a.sum + ch, phase := GetLine);
    Completes(a, b, tail, pieces, part, ch, Whole(Times(ch)));
  }

  lemma {:induction false} StepInCount(a: Gdb, h: Handler, tail: seq<Byte>, pieces: seq<Piece>, part: seq<Byte>,
                                       ch: Byte)
    returns (pieces': seq<Piece>, part': seq<Byte>)
    requires Explains(a, tail, pieces, part) && a.phase == GetLineRle && Parse(a, h, ch).phase != Idle
    ensures Explains(Parse(a, h, ch), tail + [ch], pieces', part')
  {
    if a.line == [] || !Proper(Times(ch)) {
      StepToBadCount(a, h, tail, pieces, part, ch);
      pieces', part' := pieces + [BadCount(ch)], [];
    } else {
      StepToCount(a, h, tail, pieces, part, ch);
      pieces', part' := pieces + [Whole(Times(ch))], [];
    }
  }

  lemma {:induction false} StepInChecksum(a: Gdb, h: Handler, tail: seq<Byte>, pieces: seq<Piece>, part: seq<Byte>,
                                          ch: Byte)
    returns (pieces': seq<Piece>, part': seq<Byte>)
    requires Explains(a, tail, pieces, part) && (a.phase == Chksum1 || a.phase == Chksum2)
    requires Parse(a, h, ch).phase != Idle
    ensures Explains(Parse(a, h, ch), tail + [ch], pieces', part')
  {
    if IsHex(ch) {
      pieces', part' := pieces, part + [ch];
    } else {
      var p := if a.phase == Chksum1 then BadDigit(ch) else BadDigits(part[1], ch);
      Completes(a, Parse(a, h, ch), tail, pieces, part, ch, p);
      pieces', part' := pieces + [p], [];
    }
  }

  lemma {:induction false} Step(a: Gdb, h: Handler, tail: seq<Byte>, pieces: seq<Piece>, part: seq<Byte>, ch: Byte)
    returns (pieces': seq<Piece>, part': seq<Byte>)
    requires Explains(a, tail, pieces, part) && Parse(a, h, ch).phase != Idle
    ensures Explains(Parse(a, h, ch), tail + [ch], pieces', part')
  {
    match a.phase
    case GetLine => pieces', part' := StepInLine(a, h, tail, pieces, part, ch);
    case GetLineEsc => pieces', part' := StepInEscape(a, h, tail, pieces, part, ch);
    case GetLineRle => pieces', part' := StepInCount(a, h, tail, pieces, part, ch);
    case Chksum1 | Chksum2 => pieces', part' := StepInChecksum(a, h, tail, pieces, part, ch);
  }

  lemma {:induction false} Starts(a: Gdb, h: Handler, ch: Byte)
    requires a.phase == Idle && Read(a, h, ch).phase != Idle
    ensures ch == DOLLAR && Explains(Read(a, h, ch), [], [], [])
  {
  }

  lemma ReadParses(a: Gdb, h: Handler, ch: Byte)
    requires Good(a) && a.phase != Idle
    ensures Read(a, h, ch) == Parse(a, h, ch)
  {
  }

  lemma OneMore(bytes: seq<Byte>, start: nat, k: nat)
    requires start < k <= |bytes|
    ensures start + 1 == k ==> bytes[start + 1..k] == []
    ensures start + 1 < k ==> bytes[start + 1..k] == bytes[start + 1..k - 1] + [bytes[k - 1]]
  {
  }

  /** Wherever a stream is cut inside a packet, the parser is in the middle of what came since its start. */
  lemma {:induction false} EveryCut(s: Gdb, h: Handler, bytes: seq<Byte>, k: nat)
    returns (start: nat, pieces: seq<Piece>, part: seq<Byte>)
    requires Good(s) && s.phase == Idle && k <= |bytes| && Feed(s, h, bytes[..k]).phase != Idle
    ensures start < k && bytes[start] == DOLLAR && Feed(s, h, bytes[..start]).phase == Idle
    ensures Explains(Feed(s, h, bytes[..k]), bytes[start + 1..k], pieces, part)
  {
    assert k > 0;
    var a, ch := Feed(s, h, bytes[..k - 1]), bytes[k - 1];
    EveryPrefix(s, h, bytes, k - 1);
    FeedNext(s, h, bytes, k - 1);
    if a.phase == Idle {
      Starts(a, h, ch);
      start, pieces, part := k - 1, [], [];
    } else {
      ReadParses(a, h, ch);
      start, pieces, part := EveryCut(s, h, bytes, k - 1);
      pieces, part := Step(a, h, bytes[start + 1..k - 1], pieces, part, ch);
    }
    OneMore(bytes, start, k);
  }

  lemma {:induction false} HandsOver(s: Gdb, h: Handler, bytes: seq<Byte>, k: nat)
    requires Good(s) && s.phase == Idle && k < |bytes|
    requires Feed(s, h, bytes[..k + 1]).packets != Feed(s, h, bytes[..k]).packets
    ensures Feed(s, h, bytes[..k]).phase == Chksum2
  {
    EveryPrefix(s, h, bytes, k);
    FeedNext(s, h, bytes, k);
  }

  lemma EndOfFrame(bytes: seq<Byte>, start: nat, k: nat, sent: seq<Byte>, part: seq<Byte>)
    requires start < k < |bytes| && bytes[start + 1..k] == sent + part && |part| == 2 && part[0] == HASH
    ensures start + 2 < k && part[1] == bytes[k - 1] && bytes[start + 1..k + 1] == sent + [HASH, bytes[k - 1], bytes[k]]
  {
    assert |sent + part| == k - start - 1;
    assert bytes[k - 1] == bytes[start + 1..k][k - start - 2] == (sent + part)[|sent| + 1];
    assert bytes[start + 1..k + 1] == bytes[start + 1..k] + [bytes[k]];
  }

  /**
   For every stream: a line is handed over only at the end of a frame, it is what the pieces of the frame mean, and the
   two digits at the end are the sum of the bytes that count.
   */
  lemma {:induction false} DispatchEndsFrame(s: Gdb, h: Handler, bytes: seq<Byte>, k: nat) returns (start: nat,
                                                                                                    pieces: seq<Piece>)
    requires Good(s) && s.phase == Idle && k < |bytes|
    requires Feed(s, h, bytes[..k + 1]).packets != Feed(s, h, bytes[..k]).packets
    ensures start + 2 < k && bytes[start] == DOLLAR && Sound(pieces)
    ensures bytes[start + 1..k + 1] == Sent(pieces) + [HASH, bytes[k - 1], bytes[k]] && IsHex(bytes[k - 1])
    ensures IsHex(bytes[k])
    ensures 16 * FromHex(bytes[k - 1]) + FromHex(bytes[k]) == Sum(Counted(pieces)) % 256
    ensures Feed(s, h, bytes[..k + 1]).packets == Feed(s, h, bytes[..k]).packets + [Meant(pieces)]
  {
    DispatchNeedsChecksum(s, h, bytes, k);
    HandsOver(s, h, bytes, k);
    var part;
    start, pieces, part := EveryCut(s, h, bytes, k);
    EndOfFrame(bytes, start, k, Sent(pieces), part);
  }

  // ---- Acknowledgements

  /** What is sent when `packet` is sent `k` times */
  function Copies(packet: seq<Byte>, k: nat): seq<Byte> {
    if k == 0 then [] else Copies(packet, k - 1) + packet
  }

  function Refusals(bytes: seq<Byte>): nat {
    if bytes == [] then 0 else Refusals(bytes[..|bytes| - 1]) + if bytes[|bytes| - 1] == MINUS then 1 else 0
  }

  lemma FeedLast(s: Gdb, h: Handler, bytes: seq<Byte>)
    requires bytes != []
    ensures Feed(s, h, bytes) == Read(Feed(s, h, bytes[..|bytes| - 1]), h, bytes[|bytes| - 1])
  {
    FeedNext(s, h, bytes, |bytes| - 1);
    assert bytes[..|bytes|] == bytes;
  }

  /**
   Until a packet is acknowledged or a new one begins, it is sent again for every '-' that arrives, and nothing else
   happens.
   */
  lemma {:induction false} SentAgain(s: Gdb, h: Handler, bytes: seq<Byte>)
    requires s.lastPacket != [] && PLUS !in bytes && DOLLAR !in bytes
    ensures Feed(s, h, bytes) == s.(out := s.out + Copies(s.lastPacket, Refusals(bytes)))
    decreases |bytes|
  {
    if bytes != [] {
      SentAgain(s, h, bytes[..|bytes| - 1]);
      FeedLast(s, h, bytes);
      assert bytes[|bytes| - 1] in bytes;
    }
  }

  /** A '+' ends the wait, after as many copies of the packet as there were refusals. */
  lemma Acknowledged(s: Gdb, h: Handler, bytes: seq<Byte>)
    requires s.lastPacket != [] && PLUS !in bytes && DOLLAR !in bytes
    ensures Feed(s, h, bytes + [PLUS]) ==
            s.(out := s.out + Copies(s.lastPacket, Refusals(bytes)), lastPacket := [])
  {
    SentAgain(s, h, bytes);
    FeedConcat(s, h, bytes, [PLUS]);
    FeedOne(Feed(s, h, bytes), h, PLUS);
  }

  /** A '$' abandons the packet; it begins a new one if the machine is stopped, and stops it otherwise. */
  lemma Abandoned(s: Gdb, h: Handler, bytes: seq<Byte>)
    requires Good(s) && s.lastPacket != [] && PLUS !in bytes && DOLLAR !in bytes
    ensures var sent := s.(out := s.out + Copies(s.lastPacket, Refusals(bytes)), lastPacket := []);
            Feed(s, h, bytes + [DOLLAR]) ==
            if s.running then sent.(running := false) else sent.(phase := GetLine, line := [], sum := 0)
  {
    SentAgain(s, h, bytes);
    FeedConcat(s, h, bytes, [DOLLAR]);
    FeedOne(Feed(s, h, bytes), h, DOLLAR);
  }

  /** With nothing to acknowledge, a byte that arrives while the machine runs stops it, and is lost. */
  lemma StopsTheMachine(s: Gdb, h: Handler, ch: Byte)
    requires s.lastPacket == [] && s.running
    ensures Feed(s, h, [ch]) == s.(running := false)
  {
    FeedOne(s, h, ch);
  }

  /** With nothing to acknowledge and the machine stopped, everything but a '$' is garbage between packets. */
  lemma {:induction false} GarbageIsIgnored(s: Gdb, h: Handler, bytes: seq<Byte>)
    requires Ready(s) && s.phase == Idle && DOLLAR !in bytes
    ensures Feed(s, h, bytes) == s
    decreases |bytes|
  {
    if bytes != [] {
      GarbageIsIgnored(s, h, bytes[..|bytes| - 1]);
      FeedLast(s, h, bytes);
      assert bytes[|bytes| - 1] in bytes;
    }
  }
}
