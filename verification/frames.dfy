/**
 The serial frame codec of the microphone's control port and the loop that drains
 received bytes into messages (apps/listengo-mic/listengo_daemon.py).

 A frame is  A5 01 type len(2, little endian) id(2, little endian) payload checksum.
 */
module Frames {
  import opened Common

  type Byte = b: int | 0 <= b < 256

  const SYNC: Byte := 0xA5
  const USER_ID: Byte := 0x01
  const HEADER_SIZE := 7
  const MAX_PAYLOAD := 10232

  datatype Message = Message(kind: Byte, id: int, payload: seq<Byte>)

  // ----- printing frames

  function Sum(data: seq<Byte>): nat {
    if data == [] then 0 else data[0] + Sum(data[1..])
  }

  /** `(-sum(data)) & 0xFF`; Dafny's `%` is never negative, like the mask. */
  function Checksum(data: seq<Byte>): Byte {
    var total: int := Sum(data);
    (-total) % 256
  }

  /** `struct.pack` accepts exactly these. */
  predicate Encodable(m: Message) {
    |m.payload| < 0x1_0000 && 0 <= m.id < 0x1_0000
  }

  function Header(m: Message): seq<Byte>
    requires Encodable(m)
  {
    [SYNC, USER_ID, m.kind, |m.payload| % 256, |m.payload| / 256, m.id % 256, m.id / 256]
  }

  function Body(m: Message): seq<Byte>
    requires Encodable(m)
  {
    Header(m) + m.payload
  }

  function Frame(m: Message): seq<Byte>
    requires Encodable(m)
  {
    Body(m) + [Checksum(Body(m))]
  }

  /** Where the parts of a frame lie. */
  predicate LaidOut(s: seq<Byte>, kind: Byte, payload: seq<Byte>, id: int) {
    && |s| == 8 + |payload| && s[0] == 0xA5 && s[1] == 0x01 && s[2] == kind
    && s[3] as int + 256 * s[4] as int == |payload| && s[5] as int + 256 * s[6] as int == id && s[7..7 + |payload|] == payload
  }

  /** `encode_message`: `struct.pack` raises when the length or the id needs more than 16 bits. */
  function EncodeMessage(kind: Byte, payload: seq<Byte>, id: int): (r: Option<seq<Byte>>)
    ensures r.Some? <==> |payload| < 0x1_0000 && 0 <= id < 0x1_0000
    ensures r.Some? ==> |r.value| == 8 + |payload| && Sum(r.value) % 256 == 0
    ensures r.Some? ==> LaidOut(r.value, kind, payload, id)
  {
    var m := Message(kind, id, payload);
    if Encodable(m) then
      SumAppend(Body(m), [Checksum(Body(m))]);
      Some(Frame(m))
    else None
  }

  lemma {:induction false} SumAppend(a: seq<Byte>, b: seq<Byte>)
    ensures Sum(a + b) == Sum(a) + Sum(b)
  {
    if a == [] {
      assert a + b == b;
    } else {
      SumAppend(a[1..], b);
      assert (a + b)[1..] == a[1..] + b;
    }
  }

  /** The messages the daemon's parser can deliver: it refuses longer payloads. */
  predicate Deliverable(m: Message) {
    |m.payload| <= MAX_PAYLOAD && 0 <= m.id < 0x1_0000
  }

  ghost predicate AllDeliverable(ms: seq<Message>) {
    forall i | 0 <= i < |ms| :: Deliverable(ms[i])
  }

  function Wire(ms: seq<Message>): seq<Byte>
    requires AllDeliverable(ms)
  {
    if ms == [] then [] else Frame(ms[0]) + Wire(ms[1..])
  }

  // ----- one turn of the draining loop

  predicate SyncAt(s: seq<Byte>, i: int) {
    0 <= i && i + 1 < |s| && s[i] == SYNC && s[i + 1] == USER_ID
  }

  /** `buffer.find(bytes((SYNC, USER_ID)))` */
  function FindSync(s: seq<Byte>, from: nat := 0): (p: int)
    requires from <= |s|
    ensures p == -1 || from <= p
    ensures p >= 0 ==> SyncAt(s, p) && forall i | from <= i < p :: !SyncAt(s, i)
    ensures p < 0 ==> forall i | from <= i :: !SyncAt(s, i)
    decreases |s| - from
  {
    if from + 1 >= |s| then -1
    else if SyncAt(s, from) then from
    else FindSync(s, from + 1)
  }

  /** One little-endian 16-bit field, as `struct.unpack("<H", ...)` reads it. */
  function Word(low: int, high: int): int {
    low + 256 * high
  }

  function PayloadLength(s: seq<Byte>): int
    requires |s| >= HEADER_SIZE
  {
    Word(s[3], s[4])
  }

  function TotalLength(s: seq<Byte>): nat
    requires |s| >= HEADER_SIZE
  {
    HEADER_SIZE + PayloadLength(s) + 1
  }

  /** The message read from a complete frame at the front of the buffer. */
  function ReadMessage(s: seq<Byte>): Message
    requires |s| >= HEADER_SIZE && |s| >= TotalLength(s)
  {
    Message(s[2], Word(s[5], s[6]), s[HEADER_SIZE..TotalLength(s) - 1])
  }

  predicate ChecksumMatches(s: seq<Byte>)
    requires |s| >= HEADER_SIZE && |s| >= TotalLength(s)
  {
    Checksum(s[..TotalLength(s) - 1]) == s[TotalLength(s) - 1]
  }

  /** What becomes of a stretch of received bytes: thrown away, or handed on as a message. */
  datatype Piece = Dropped(bytes: seq<Byte>) | Delivered(message: Message)

  /** One turn of the loop: wait for more bytes, or consume a piece and go on (or stop). */
  datatype Turn =
    | Wait(skipped: seq<Byte>, kept: seq<Byte>)
    | Clear
    | Consume(skipped: seq<Byte>, piece: Piece, rest: seq<Byte>)

  /** What the bytes from a sync pair on hold: not enough yet, or a piece of some size. */
  datatype Look = Incomplete | Found(piece: Piece, size: nat)

  function Examine(b: seq<Byte>): (l: Look)
    ensures l.Found? ==> 0 < l.size <= |b|
  {
    if |b| < HEADER_SIZE then Incomplete
    else if PayloadLength(b) > MAX_PAYLOAD then Found(Dropped(b[..1]), 1)
    else if |b| < TotalLength(b) then Incomplete
    else Found(if ChecksumMatches(b) then Delivered(ReadMessage(b)) else Dropped(b[..TotalLength(b)]), TotalLength(b))
  }

  function Take(buffer: seq<Byte>): (t: Turn)
    requires |buffer| >= HEADER_SIZE
    ensures t.Consume? ==> |t.rest| < |buffer|
  {
    var at := FindSync(buffer);
    if at < 0 then Clear
    else
      match Examine(buffer[at..])
      case Incomplete => Wait(buffer[..at], buffer[at..])
      case Found(piece, size) => Consume(buffer[..at], piece, buffer[at + size..])
  }

  // ----- the whole loop, with a record of what became of every byte

  datatype Outcome = Outcome(pieces: seq<Piece>, residue: seq<Byte>)

  function Drain(buffer: seq<Byte>): Outcome
    decreases |buffer|
  {
    if |buffer| < HEADER_SIZE then Outcome([], buffer)
    else
      match Take(buffer)
      case Clear => Outcome([Dropped(buffer)], [])
      case Wait(skipped, kept) => Outcome([Dropped(skipped)], kept)
      case Consume(skipped, piece, rest) =>
        var o := Drain(rest);
        Outcome([Dropped(skipped), piece] + o.pieces, o.residue)
  }

  /** The messages handed to `handle_message`, in order. */
  function Messages(pieces: seq<Piece>): seq<Message> {
    if pieces == [] then []
    else Shown(pieces[0]) + Messages(pieces[1..])
  }

  function Shown(p: Piece): seq<Message> {
    if p.Delivered? then [p.message] else []
  }

  /** Reading chunk after chunk: extend the buffer, then drain it. */
  function Receive(buffer: seq<Byte>, chunks: seq<seq<Byte>>): Outcome
    decreases |chunks|
  {
    if chunks == [] then Outcome([], buffer)
    else
      var first := Drain(buffer + chunks[0]);
      var later := Receive(first.residue, chunks[1..]);
      Outcome(first.pieces + later.pieces, later.residue)
  }

  function Concat(chunks: seq<seq<Byte>>): seq<Byte> {
    if chunks == [] then [] else chunks[0] + Concat(chunks[1..])
  }

  lemma {:induction false} MessagesAppend(a: seq<Piece>, b: seq<Piece>)
    ensures Messages(a + b) == Messages(a) + Messages(b)
  {
    if a == [] {
      assert a + b == b;
    } else {
      assert a + b == [a[0]] + (a[1..] + b);
      MessagesAppend(a[1..], b);
      var x, y, z := Shown(a[0]), Messages(a[1..]), Messages(b);
      assert x + (y + z) == (x + y) + z;
    }
  }

  /** The buffer the daemon keeps between reads, updated in place by the loop. */
  class FrameReader {
    var buffer: seq<Byte>

    constructor ()
      ensures buffer == []
    {
      buffer := [];
    }

    /** One `port.read`: extend the buffer, then run the draining loop. */
    method Read(chunk: seq<Byte>) returns (delivered: seq<Message>)
      modifies this
      ensures delivered == Messages(Drain(old(buffer) + chunk).pieces)
      ensures buffer == Drain(old(buffer) + chunk).residue
    {
      hide Drain, FindSync, Checksum, Yields, Messages;
      buffer := buffer + chunk;
      ghost var whole := Drain(buffer);
      delivered := [];
      YieldsFirst(buffer);
      while |buffer| >= HEADER_SIZE
        invariant Yields(buffer, whole, delivered)
        decreases |buffer|
      {
        ReadStep(buffer, whole, delivered);
        var syncPosition := FindSync(buffer);
        if syncPosition < 0 {
          buffer := [];
          break;
        }
        buffer := buffer[syncPosition..];
        if |buffer| < HEADER_SIZE {
          break;
        }
        var kind := buffer[2];
        var payloadLength, messageId := Word(buffer[3], buffer[4]), Word(buffer[5], buffer[6]);
        if payloadLength > MAX_PAYLOAD {
          buffer := buffer[1..];
          continue;
        }
        var totalLength := HEADER_SIZE + payloadLength + 1;
        if |buffer| < totalLength {
          break;
        }
        var message := buffer[..totalLength];
        assert message[..|message| - 1] == buffer[..totalLength - 1];
        assert message[HEADER_SIZE..|message| - 1] == buffer[HEADER_SIZE..totalLength - 1];
        buffer := buffer[totalLength..];
        if Checksum(message[..|message| - 1]) != message[|message| - 1] {
          continue;
        }
        delivered := delivered + [Message(kind, messageId, message[HEADER_SIZE..|message| - 1])];
      }
      if |buffer| < HEADER_SIZE {
        YieldsEnd(buffer, whole, delivered);
      }
    }
  }

  /** Draining `buffer` after `delivered` gives what draining the `whole` gave. */
  ghost predicate Yields(buffer: seq<Byte>, whole: Outcome, delivered: seq<Message>) {
    && Messages(whole.pieces) == delivered + Messages(Drain(buffer).pieces)
    && whole.residue == Drain(buffer).residue
  }

  lemma YieldsFirst(buffer: seq<Byte>)
    ensures Yields(buffer, Drain(buffer), [])
  {
    assert [] + Messages(Drain(buffer).pieces) == Messages(Drain(buffer).pieces);
  }

  lemma YieldsEnd(buffer: seq<Byte>, whole: Outcome, delivered: seq<Message>)
    requires |buffer| < HEADER_SIZE && Yields(buffer, whole, delivered)
    ensures whole.residue == buffer && Messages(whole.pieces) == delivered
  {}

  lemma YieldsStep(buffer: seq<Byte>, whole: Outcome, delivered: seq<Message>)
    requires |buffer| >= HEADER_SIZE && Yields(buffer, whole, delivered)
    ensures match Take(buffer)
            case Clear => Yields([], whole, delivered)
            case Wait(_, kept) => Yields(kept, whole, delivered) && whole.residue == kept && Messages(whole.pieces) == delivered
            case Consume(_, Dropped(_), rest) => Yields(rest, whole, delivered)
            case Consume(_, Delivered(m), rest) => Yields(rest, whole, delivered + [m])
  {
    hide Drain;
    DrainOneTurn(buffer);
    DrainShort([]);
    if Take(buffer).Consume? && Take(buffer).piece.Delivered? {
      var m, rest := Take(buffer).piece.message, Take(buffer).rest;
      assert delivered + ([m] + Messages(Drain(rest).pieces)) == delivered + [m] + Messages(Drain(rest).pieces);
    }
  }

  /** The drain is over: this is what it keeps and what it delivered. */
  ghost predicate Settled(buffer: seq<Byte>, whole: Outcome, delivered: seq<Message>) {
    whole.residue == buffer && Messages(whole.pieces) == delivered && Yields(buffer, whole, delivered)
  }

  /** One turn, case by case as the loop goes. */
  lemma ReadStep(buffer: seq<Byte>, whole: Outcome, delivered: seq<Message>)
    requires |buffer| >= HEADER_SIZE && Yields(buffer, whole, delivered)
    ensures FindSync(buffer) < 0 ==> Settled([], whole, delivered)
    ensures FindSync(buffer) >= 0 ==>
              var b := buffer[FindSync(buffer)..];
              if |b| < HEADER_SIZE then Settled(b, whole, delivered)
              else if PayloadLength(b) > MAX_PAYLOAD then Yields(b[1..], whole, delivered)
              else if |b| < TotalLength(b) then Settled(b, whole, delivered)
              else if !ChecksumMatches(b) then Yields(b[TotalLength(b)..], whole, delivered)
              else Yields(b[TotalLength(b)..], whole, delivered + [ReadMessage(b)])
  {
    hide Drain, Yields, Messages, ChecksumMatches, ReadMessage;
    YieldsStep(buffer, whole, delivered);
    if FindSync(buffer) < 0 {
      YieldsEnd([], whole, delivered);
    } else {
      var at := FindSync(buffer);
      var b := buffer[at..];
      if Examine(b).Found? {
        assert b[Examine(b).size..] == buffer[at + Examine(b).size..];
      }
    }
  }

  lemma DrainUnfold(buffer: seq<Byte>)
    requires |buffer| >= HEADER_SIZE
    ensures Drain(buffer) ==
            match Take(buffer)
            case Clear => Outcome([Dropped(buffer)], [])
            case Wait(skipped, kept) => Outcome([Dropped(skipped)], kept)
            case Consume(skipped, piece, rest) =>
              Outcome([Dropped(skipped), piece] + Drain(rest).pieces, Drain(rest).residue)
  {}

  lemma DrainShort(buffer: seq<Byte>)
    requires |buffer| < HEADER_SIZE
    ensures Drain(buffer) == Outcome([], buffer)
  {}

  /** How one turn of the loop contributes to the whole drain. */
  lemma DrainOneTurn(buffer: seq<Byte>)
    requires |buffer| >= HEADER_SIZE
    ensures match Take(buffer)
            case Clear => Messages(Drain(buffer).pieces) == [] && Drain(buffer).residue == []
            case Wait(_, kept) =>
              && Messages(Drain(buffer).pieces) == [] && Drain(buffer).residue == kept
              && Messages(Drain(kept).pieces) == [] && Drain(kept).residue == kept
            case Consume(_, piece, rest) =>
              && Messages(Drain(buffer).pieces)
                 == Shown(piece) + Messages(Drain(rest).pieces)
              && Drain(buffer).residue == Drain(rest).residue
  {
    match Take(buffer)
    case Clear =>
    case Wait(skipped, kept) =>
      WaitIsStable(buffer);
    case Consume(skipped, piece, rest) =>
      MessagesAppend([Dropped(skipped), piece], Drain(rest).pieces);
      assert Messages([Dropped(skipped), piece]) == Messages([piece]) by {
        assert [Dropped(skipped), piece][1..] == [piece];
      }
  }

  /** What the loop keeps when it waits, it keeps again when it is run once more. */
  lemma WaitIsStable(buffer: seq<Byte>)
    requires |buffer| >= HEADER_SIZE && Take(buffer).Wait?
    ensures var kept := Take(buffer).kept;
            |kept| < HEADER_SIZE || Take(kept) == Wait([], kept)
    ensures var kept := Take(buffer).kept;
            Drain(kept).residue == kept && Messages(Drain(kept).pieces) == []
  {
    var kept := Take(buffer).kept;
    if |kept| >= HEADER_SIZE {
      assert SyncAt(kept, 0);
      assert kept[0..] == kept;
      assert kept[..0] == [];
    }
  }

  // ----- soundness on arbitrary bytes: nothing is invented, reordered or counted twice

  ghost predicate Genuine(pieces: seq<Piece>) {
    forall i | 0 <= i < |pieces| && pieces[i].Delivered? :: Deliverable(pieces[i].message)
  }

  function Bytes(pieces: seq<Piece>): seq<Byte>
    requires Genuine(pieces)
  {
    if pieces == [] then []
    else PieceBytes(pieces[0]) + Bytes(pieces[1..])
  }

  function PieceBytes(p: Piece): seq<Byte>
    requires p.Delivered? ==> Deliverable(p.message)
  {
    match p case Dropped(bytes) => bytes case Delivered(m) => Frame(m)
  }

  lemma {:induction false} BytesAppend(a: seq<Piece>, b: seq<Piece>)
    requires Genuine(a) && Genuine(b)
    ensures Genuine(a + b) && Bytes(a + b) == Bytes(a) + Bytes(b)
  {
    if a == [] {
      assert a + b == b;
    } else {
      hide PieceBytes;
      assert a + b == [a[0]] + (a[1..] + b);
      BytesAppend(a[1..], b);
      var x, y, z := PieceBytes(a[0]), Bytes(a[1..]), Bytes(b);
      assert x + (y + z) == (x + y) + z;
    }
  }

  /** Encoding a message that passed the checksum gives back the bytes it was read from. */
  lemma ReadThenFrame(s: seq<Byte>)
    requires |s| >= HEADER_SIZE && PayloadLength(s) <= MAX_PAYLOAD && |s| >= TotalLength(s)
    requires s[0] == SYNC && s[1] == USER_ID && ChecksumMatches(s)
    ensures Deliverable(ReadMessage(s)) && Frame(ReadMessage(s)) == s[..TotalLength(s)]
  {
    hide Sum, Checksum;
    var m, n := ReadMessage(s), TotalLength(s);
    assert Header(m) == s[..HEADER_SIZE];
    assert Body(m) == s[..n - 1];
    assert s[..n] == s[..n - 1] + [s[n - 1]];
  }

  lemma ExamineConserves(b: seq<Byte>)
    requires SyncAt(b, 0) && Examine(b).Found?
    ensures Genuine([Examine(b).piece]) && Bytes([Examine(b).piece]) == b[..Examine(b).size]
  {
    var piece := Examine(b).piece;
    assert Bytes([piece][1..]) == [];
    if piece.Delivered? {
      ReadThenFrame(b);
    }
  }

  /** One turn cuts the buffer into what it skipped, the piece it consumed and the rest. */
  lemma TurnConserves(buffer: seq<Byte>)
    requires |buffer| >= HEADER_SIZE
    ensures match Take(buffer)
            case Clear => true
            case Wait(skipped, kept) => buffer == skipped + kept
            case Consume(skipped, piece, rest) =>
              Genuine([piece]) && buffer == skipped + Bytes([piece]) + rest
  {
    hide Examine, Bytes;
    var at := FindSync(buffer);
    if at >= 0 && Examine(buffer[at..]).Found? {
      var b, n := buffer[at..], Examine(buffer[at..]).size;
      ExamineConserves(b);
      assert buffer == buffer[..at] + b[..n] + buffer[at + n..];
    }
  }

  lemma {:induction false} DrainConserves(buffer: seq<Byte>)
    ensures var o := Drain(buffer); Genuine(o.pieces) && Bytes(o.pieces) + o.residue == buffer
    decreases |buffer|
  {
    hide Drain, Take, Frame;
    if |buffer| < HEADER_SIZE {
      DrainShort(buffer);
    } else {
      TurnConserves(buffer);
      DrainUnfold(buffer);
      match Take(buffer)
      case Clear =>
        assert Bytes([Dropped(buffer)]) == buffer;
      case Wait(skipped, kept) =>
        assert Bytes([Dropped(skipped)]) == skipped;
      case Consume(skipped, piece, rest) =>
        TakeShrinks(buffer);
        DrainConserves(rest);
        ConsumeConserves(skipped, piece, Drain(rest).pieces);
    }
  }

  lemma TakeShrinks(buffer: seq<Byte>)
    requires |buffer| >= HEADER_SIZE
    ensures Take(buffer).Consume? ==> |Take(buffer).rest| < |buffer|
  {}

  lemma ConsumeConserves(skipped: seq<Byte>, piece: Piece, more: seq<Piece>)
    requires Genuine([piece]) && Genuine(more)
    ensures Genuine([Dropped(skipped), piece] + more)
    ensures Bytes([Dropped(skipped), piece] + more) == skipped + Bytes([piece]) + Bytes(more)
  {
    hide Frame;
    BytesAppend([piece], more);
    var all := [Dropped(skipped), piece] + more;
    assert all == [Dropped(skipped)] + ([piece] + more);
    BytesAppend([Dropped(skipped)], [piece] + more);
    assert Bytes([Dropped(skipped)]) == skipped;
  }

  /**
   Whatever arrives and however the port splits it, the received bytes are exactly the
   thrown-away stretches and the encodings of the delivered messages, in order, followed
   by the residue: the messages are disjoint, in-order slices of the stream.
   */
  lemma {:induction false} ReceiveConserves(buffer: seq<Byte>, chunks: seq<seq<Byte>>)
    ensures var o := Receive(buffer, chunks);
            Genuine(o.pieces) && Bytes(o.pieces) + o.residue == buffer + Concat(chunks)
    decreases |chunks|
  {
    if chunks == [] {
    } else {
      hide Drain, Frame, Bytes;
      var first := Drain(buffer + chunks[0]);
      DrainConserves(buffer + chunks[0]);
      ReceiveConserves(first.residue, chunks[1..]);
      Glue(buffer, chunks[0], Concat(chunks[1..]), first, Receive(first.residue, chunks[1..]));
    }
  }

  lemma Glue(buffer: seq<Byte>, chunk: seq<Byte>, rest: seq<Byte>, first: Outcome, later: Outcome)
    requires Genuine(first.pieces) && Bytes(first.pieces) + first.residue == buffer + chunk
    requires Genuine(later.pieces) && Bytes(later.pieces) + later.residue == first.residue + rest
    ensures Genuine(first.pieces + later.pieces)
    ensures Bytes(first.pieces + later.pieces) + later.residue == buffer + (chunk + rest)
  {
    hide Bytes, Frame;
    BytesAppend(first.pieces, later.pieces);
    var x, y, z := Bytes(first.pieces), Bytes(later.pieces), later.residue;
    assert (x + y) + z == x + (y + z) == (x + first.residue) + rest;
  }

  /** The residue is shorter than the longest frame, and draining it again changes nothing. */
  lemma {:induction false} DrainSettles(buffer: seq<Byte>)
    ensures var r := Drain(buffer).residue;
            |r| < 10240 && Drain(r).residue == r && Messages(Drain(r).pieces) == []
    decreases |buffer|
  {
    if |buffer| >= HEADER_SIZE {
      hide Drain;
      DrainOneTurn(buffer);
      match Take(buffer)
      case Clear => DrainShort([]);
      case Wait(_, kept) =>
      case Consume(_, _, rest) => DrainSettles(rest);
    }
  }

  // ----- delivery of a clean stream, however it is chunked

  /** A frame at the front is delivered; a part of one is waited for. */
  lemma FrameAtFront(m: Message, tail: seq<Byte>)
    requires Deliverable(m)
    ensures Take(Frame(m) + tail) == Consume([], Delivered(m), tail)
  {
    var s := Frame(m) + tail;
    assert SyncAt(s, 0) && s[0..] == s && s[..0] == [];
    assert PayloadLength(s) == |m.payload|;
    assert s[..TotalLength(s) - 1] == Body(m);
    assert s[HEADER_SIZE..TotalLength(s) - 1] == m.payload;
    assert s[TotalLength(s)..] == tail;
  }

  lemma PartOfFrameAtFront(m: Message, s: seq<Byte>)
    requires Deliverable(m) && HEADER_SIZE <= |s| < |Frame(m)| && s <= Frame(m)
    ensures Take(s) == Wait([], s)
  {
    var f := Frame(m);
    assert forall i | 0 <= i < |s| :: s[i] == f[i];
    assert SyncAt(s, 0) && s[0..] == s && s[..0] == [];
    assert PayloadLength(s) == |m.payload|;
  }

  /** A buffer that holds the beginning of a clean stream: whole frames come out, part of one stays. */
  ghost predicate StartOf(buffer: seq<Byte>, ms: seq<Message>)
    requires AllDeliverable(ms)
  {
    if ms == [] then buffer == [] else |buffer| < |Frame(ms[0])|
  }

  lemma {:induction false} DrainClean(buffer: seq<Byte>, unread: seq<Byte>, ms: seq<Message>) returns (k: nat)
    requires AllDeliverable(ms) && buffer + unread == Wire(ms)
    ensures k <= |ms| && Messages(Drain(buffer).pieces) == ms[..k]
    ensures Drain(buffer).residue + unread == Wire(ms[k..]) && StartOf(Drain(buffer).residue, ms[k..])
    decreases |ms|
  {
    hide Drain, Frame, Take;
    if ms == [] {
      k := 0;
      DrainShort(buffer);
    } else if |buffer| < |Frame(ms[0])| {
      k := 0;
      assert buffer == Wire(ms)[..|buffer|] == Frame(ms[0])[..|buffer|];
      PartOfFrameDrained(ms[0], buffer);
      assert ms[0..] == ms;
    } else {
      var f, rest := Frame(ms[0]), buffer[|Frame(ms[0])|..];
      assert f == Wire(ms)[..|f|] == buffer[..|f|];
      assert buffer == f + rest;
      assert rest + unread == Wire(ms)[|f|..] == Wire(ms[1..]);
      FrameDrained(ms[0], rest);
      var j := DrainClean(rest, unread, ms[1..]);
      k := j + 1;
      assert ms[..k] == [ms[0]] + ms[1..][..j];
      assert ms[k..] == ms[1..][j..];
    }
  }

  lemma FrameDrained(m: Message, rest: seq<Byte>)
    requires Deliverable(m)
    ensures Messages(Drain(Frame(m) + rest).pieces) == [m] + Messages(Drain(rest).pieces)
    ensures Drain(Frame(m) + rest).residue == Drain(rest).residue
    ensures |Frame(m) + rest| > |rest|
  {
    hide Drain;
    FrameAtFront(m, rest);
    DrainOneTurn(Frame(m) + rest);
  }

  lemma PartOfFrameDrained(m: Message, s: seq<Byte>)
    requires Deliverable(m) && |s| < |Frame(m)| && s <= Frame(m)
    ensures Drain(s).residue == s && Messages(Drain(s).pieces) == []
  {
    hide Drain;
    if |s| < HEADER_SIZE {
      DrainShort(s);
    } else {
      PartOfFrameAtFront(m, s);
      DrainOneTurn(s);
    }
  }

  /**
   Every list of frames built by the encoder, cut into reads in any way, is delivered
   in full and in order, and the buffer ends empty.
   */
  lemma {:induction false} CleanStreamDelivered(buffer: seq<Byte>, chunks: seq<seq<Byte>>, ms: seq<Message>)
    requires AllDeliverable(ms) && buffer + Concat(chunks) == Wire(ms) && StartOf(buffer, ms)
    ensures Messages(Receive(buffer, chunks).pieces) == ms && Receive(buffer, chunks).residue == []
    decreases |chunks|
  {
    if chunks == [] {
      assert buffer == Wire(ms);
    } else {
      var unread := Concat(chunks[1..]);
      assert (buffer + chunks[0]) + unread == Wire(ms);
      var k := DrainClean(buffer + chunks[0], unread, ms);
      var first := Drain(buffer + chunks[0]);
      CleanStreamDelivered(first.residue, chunks[1..], ms[k..]);
      MessagesAppend(first.pieces, Receive(first.residue, chunks[1..]).pieces);
      assert ms == ms[..k] + ms[k..];
    }
  }

  // ----- arbitrary streams: exactly when a split between two reads can be noticed

  lemma FindSyncAppend(a: seq<Byte>, b: seq<Byte>)
    ensures FindSync(a) >= 0 ==> FindSync(a + b) == FindSync(a)
    ensures FindSync(a) < 0 && !(a != [] && b != [] && a[|a| - 1] == SYNC && b[0] == USER_ID) ==>
              FindSync(a + b) == if FindSync(b) < 0 then -1 else |a| + FindSync(b)
  {
    hide FindSync;
    assert forall i | 0 <= i < |a| - 1 :: SyncAt(a + b, i) == SyncAt(a, i);
    if FindSync(a) < 0 && !(a != [] && b != [] && a[|a| - 1] == SYNC && b[0] == USER_ID) {
      assert forall i | 0 <= i < |a| :: !SyncAt(a + b, i);
      var q, r := FindSync(b), FindSync(a + b);
      if q >= 0 {
        assert SyncAt(a + b, |a| + q);
        forall i | |a| <= i < |a| + q ensures !SyncAt(a + b, i) {
          assert !SyncAt(b, i - |a|);
        }
      }
      if r >= 0 {
        assert SyncAt(b, r - |a|);
      }
    }
  }

  /** Bytes before the first sync pair never matter. */
  lemma SkipToSync(s: seq<Byte>)
    requires FindSync(s) >= 0
    ensures Messages(Drain(s).pieces) == Messages(Drain(s[FindSync(s)..]).pieces)
    ensures |s| >= HEADER_SIZE ==> Drain(s).residue == Drain(s[FindSync(s)..]).residue
  {
    var b := s[FindSync(s)..];
    if |s| < HEADER_SIZE {
      DrainShort(s);
      DrainShort(b);
    } else {
      SameTurn(s);
      hide Drain, Take, FindSync;
      DrainOneTurn(s);
      if |b| < HEADER_SIZE {
        DrainShort(b);
      } else {
        DrainOneTurn(b);
      }
    }
  }

  lemma SameTurn(s: seq<Byte>)
    requires |s| >= HEADER_SIZE && FindSync(s) >= 0
    ensures var b := s[FindSync(s)..];
            match Take(s)
            case Clear => false
            case Wait(_, kept) => kept == b
            case Consume(_, piece, rest) => |b| >= HEADER_SIZE && Take(b) == Consume([], piece, rest)
  {
    hide Examine;
    var b := s[FindSync(s)..];
    assert SyncAt(b, 0) && FindSync(b) == 0;
    assert b[0..] == b && b[..0] == [];
    if |b| < HEADER_SIZE {
      ShortIsIncomplete(b);
    } else if Examine(b).Found? {
      assert b[Examine(b).size..] == s[FindSync(s) + Examine(b).size..];
    }
  }

  lemma ShortIsIncomplete(b: seq<Byte>)
    requires |b| < HEADER_SIZE
    ensures Examine(b).Incomplete?
  {}

  lemma NoSyncNoMessages(s: seq<Byte>)
    requires FindSync(s) < 0
    ensures Messages(Drain(s).pieces) == []
  {
  }

  /** The drain of this buffer ends by throwing away a tail whose last byte could begin a frame. */
  predicate LosesSync(buffer: seq<Byte>)
    decreases |buffer|
  {
    |buffer| >= HEADER_SIZE &&
    match Take(buffer)
    case Clear => buffer[|buffer| - 1] == SYNC
    case Wait(_, _) => false
    case Consume(_, _, rest) => LosesSync(rest)
  }

  predicate SplitSeen(buffer: seq<Byte>, next: seq<Byte>) {
    LosesSync(buffer) && next != [] && next[0] == USER_ID
  }

  /** Whether draining between two reads delivers what draining once after both delivers. */
  ghost predicate SplitUnseen(buffer: seq<Byte>, next: seq<Byte>) {
    Messages(Drain(buffer + next).pieces)
    == Messages(Drain(buffer).pieces) + Messages(Drain(Drain(buffer).residue + next).pieces)
  }

  lemma ExamineAppend(b: seq<Byte>, more: seq<Byte>)
    requires Examine(b).Found?
    ensures Examine(b + more) == Examine(b)
  {
    var s := b + more;
    assert s[..1] == b[..1];
    if PayloadLength(b) <= MAX_PAYLOAD {
      var n := TotalLength(b);
      assert s[..n] == b[..n] && s[..n - 1] == b[..n - 1] && s[HEADER_SIZE..n - 1] == b[HEADER_SIZE..n - 1];
    }
  }

  /** The same turn is taken when more bytes follow. */
  lemma TakeAppend(a: seq<Byte>, b: seq<Byte>)
    requires |a| >= HEADER_SIZE && Take(a).Consume?
    ensures Take(a + b) == Take(a).(rest := Take(a).rest + b)
  {
    hide Examine, FindSync;
    FindSyncAppend(a, b);
    var at := FindSync(a);
    FindSyncFound(a);
    ExamineAppend(a[at..], b);
    assert (a + b)[at..] == a[at..] + b;
    assert (a + b)[..at] == a[..at];
    var n := at + Examine(a[at..]).size;
    assert (a + b)[n..] == a[n..] + b;
  }

  lemma FindSyncFound(a: seq<Byte>)
    ensures FindSync(a) < |a|
  {}

  lemma {:induction false} SplitHarmless(a: seq<Byte>, b: seq<Byte>)
    requires !SplitSeen(a, b)
    ensures SplitUnseen(a, b)
    decreases |a|
  {
    if |a| < HEADER_SIZE {
      DrainShort(a);
    } else {
      match Take(a)
      case Clear =>
        SplitAfterClear(a, b);
      case Wait(_, _) =>
        SplitAfterWait(a, b);
      case Consume(_, _, rest) =>
        SplitHarmless(rest, b);
        SplitAfterConsume(a, b);
    }
  }

  lemma SplitAfterConsume(a: seq<Byte>, b: seq<Byte>)
    requires |a| >= HEADER_SIZE && Take(a).Consume? && SplitUnseen(Take(a).rest, b)
    ensures SplitUnseen(a, b)
  {
    hide Drain, Take;
    DrainOneTurn(a);
    TakeAppend(a, b);
    DrainOneTurn(a + b);
    var rest := Take(a).rest;
    var head := Shown(Take(a).piece);
    assert head + (Messages(Drain(rest).pieces) + Messages(Drain(Drain(rest).residue + b).pieces))
        == head + Messages(Drain(rest).pieces) + Messages(Drain(Drain(rest).residue + b).pieces);
  }

  lemma SplitAfterClear(a: seq<Byte>, b: seq<Byte>)
    requires |a| >= HEADER_SIZE && Take(a).Clear? && !SplitSeen(a, b)
    ensures SplitUnseen(a, b)
  {
    hide Drain;
    DrainOneTurn(a);
    hide Take;
    FindSyncAppend(a, b);
    assert [] + b == b;
    if FindSync(b) >= 0 {
      SkipToSync(a + b);
      SkipToSync(b);
      assert (a + b)[|a| + FindSync(b)..] == b[FindSync(b)..];
    } else {
      NoSyncNoMessages(a + b);
      NoSyncNoMessages(b);
    }
  }

  lemma SplitAfterWait(a: seq<Byte>, b: seq<Byte>)
    requires |a| >= HEADER_SIZE && Take(a).Wait?
    ensures SplitUnseen(a, b)
  {
    hide Drain;
    DrainOneTurn(a);
    FindSyncAppend(a, b);
    SkipToSync(a + b);
    assert (a + b)[FindSync(a)..] == Take(a).kept + b;
  }

  /** The rest of an empty frame of type 0 and id 0, once its first byte is taken away. */
  const HEADLESS: seq<Byte> := [0x01, 0x00, 0x00, 0x00, 0x00, 0x00, 0x5A]

  lemma HeadlessSilent()
    ensures Messages(Drain(HEADLESS).pieces) == []
  {
    assert FindSync(HEADLESS) < 0;
    NoSyncNoMessages(HEADLESS);
  }

  /** If sync is lost, a frame that starts at the lost byte is delivered by one read and not by two. */
  lemma {:induction false} SplitHarmful(a: seq<Byte>)
    requires LosesSync(a)
    ensures Drain(a).residue == []
    ensures Messages(Drain(a + HEADLESS).pieces) == Messages(Drain(a).pieces) + [Message(0, 0, [])]
    decreases |a|
  {
    match Take(a)
    case Clear =>
      hide Drain, FindSync;
      DrainOneTurn(a);
      ClearMeansNoSync(a);
      LostFrame(a);
    case Consume(_, _, rest) =>
      SplitHarmful(rest);
      HarmfulAfterConsume(a);
  }

  lemma HarmfulAfterConsume(a: seq<Byte>)
    requires |a| >= HEADER_SIZE && Take(a).Consume?
    ensures var rest := Take(a).rest;
            Drain(a).residue == Drain(rest).residue &&
            (Messages(Drain(rest + HEADLESS).pieces) == Messages(Drain(rest).pieces) + [Message(0, 0, [])] ==>
               Messages(Drain(a + HEADLESS).pieces) == Messages(Drain(a).pieces) + [Message(0, 0, [])])
  {
    hide Drain, Take;
    DrainOneTurn(a);
    TakeAppend(a, HEADLESS);
    DrainOneTurn(a + HEADLESS);
    var rest := Take(a).rest;
    var head := Shown(Take(a).piece);
    assert head + (Messages(Drain(rest).pieces) + [Message(0, 0, [])])
        == head + Messages(Drain(rest).pieces) + [Message(0, 0, [])];
  }

  lemma ClearMeansNoSync(a: seq<Byte>)
    requires |a| >= HEADER_SIZE && Take(a).Clear?
    ensures FindSync(a) < 0
  {}

  lemma EmptyFrame()
    ensures Frame(Message(0, 0, [])) == [SYNC] + HEADLESS
  {
    var m := Message(0, 0, []);
    assert Body(m) == [0xA5, 0x01, 0, 0, 0, 0, 0];
    Zeros(5);
    assert Body(m)[1..][1..] == seq<Byte>(5, _ => 0);
    assert Sum(Body(m)) == 0xA6;
  }

  lemma LostFrame(a: seq<Byte>)
    requires FindSync(a) < 0 && a != [] && a[|a| - 1] == SYNC
    ensures Messages(Drain(a + HEADLESS).pieces) == [Message(0, 0, [])]
  {
    hide Drain, Frame, FindSync;
    var s, front, m := a + HEADLESS, a[..|a| - 1], Message(0, 0, []);
    EmptyFrame();
    assert s == front + Frame(m);
    assert s[|front|] == SYNC && s[|front| + 1] == USER_ID;
    assert SyncAt(s, |front|);
    forall i | 0 <= i < |front| ensures !SyncAt(s, i) {
      assert s[i] == a[i] && s[i + 1] == a[i + 1];
      assert !SyncAt(a, i);
    }
    assert FindSync(s) == |front|;
    SkipToSync(s);
    assert s[|front|..] == Frame(m) + [];
    FrameDrained(m, []);
    DrainShort([]);
  }

  lemma {:induction false} Zeros(n: nat)
    ensures Sum(seq(n, _ => 0)) == 0
  {
    if n > 0 {
      Zeros(n - 1);
      assert seq(n, _ => 0)[1..] == seq<Byte>(n - 1, _ => 0);
    }
  }

  /** Splitting the stream after `a` goes unnoticed for every continuation iff draining `a` loses no sync byte. */
  lemma SplitUnseenIff(a: seq<Byte>)
    ensures (forall b :: SplitUnseen(a, b)) <==> !LosesSync(a)
  {
    if LosesSync(a) {
      SplitHarmful(a);
      HeadlessSilent();
      assert [] + HEADLESS == HEADLESS;
      assert !SplitUnseen(a, HEADLESS);
    } else {
      forall b ensures SplitUnseen(a, b) {
        SplitHarmless(a, b);
      }
    }
  }

  /** Seven bytes of junk that end in A5: a frame whose first byte they hold is lost if the read ends there. */
  lemma SplitCanBeSeen()
    ensures var a: seq<Byte> := [0, 0, 0, 0, 0, 0, SYNC];
            LosesSync(a) && a + HEADLESS == a[..6] + Frame(Message(0, 0, []))
            && Messages(Drain(a).pieces + Drain(HEADLESS).pieces) == [] && Messages(Drain(a + HEADLESS).pieces) == [Message(0, 0, [])]
  {
    var a: seq<Byte> := [0, 0, 0, 0, 0, 0, SYNC];
    assert FindSync(a) < 0;
    assert LosesSync(a);
    hide Drain, FindSync, LosesSync, Frame;
    SplitHarmful(a);
    NoSyncNoMessages(a);
    HeadlessSilent();
    MessagesAppend(Drain(a).pieces, Drain(HEADLESS).pieces);
    EmptyFrame();
  }

  /** No read ends by losing the byte A5 while the next byte to come is 01. */
  predicate NoSyncLost(buffer: seq<Byte>, chunks: seq<seq<Byte>>)
    decreases |chunks|
  {
    chunks == [] ||
    (!SplitSeen(buffer + chunks[0], Concat(chunks[1..])) && NoSyncLost(Drain(buffer + chunks[0]).residue, chunks[1..]))
  }

  /** On any bytes at all, such a chunking delivers what a single read of the whole stream delivers. */
  lemma {:induction false} ChunkingUnseen(buffer: seq<Byte>, chunks: seq<seq<Byte>>)
    requires NoSyncLost(buffer, chunks) && Drain(buffer).residue == buffer && Messages(Drain(buffer).pieces) == []
    ensures Messages(Receive(buffer, chunks).pieces) == Messages(Drain(buffer + Concat(chunks)).pieces)
    decreases |chunks|
  {
    hide Drain, LosesSync, Messages;
    if chunks == [] {
      assert buffer + [] == buffer;
      MessagesNone();
    } else {
      var a, b := buffer + chunks[0], Concat(chunks[1..]);
      SplitHarmless(a, b);
      DrainSettles(a);
      ChunkingUnseen(Drain(a).residue, chunks[1..]);
      MessagesAppend(Drain(a).pieces, Receive(Drain(a).residue, chunks[1..]).pieces);
      assert buffer + Concat(chunks) == a + b;
    }
  }

  lemma MessagesNone()
    ensures Messages([]) == []
  {}

  /** After any junk without a sync pair, one read still delivers every frame that follows. */
  lemma ResyncAfterJunk(junk: seq<Byte>, ms: seq<Message>)
    requires FindSync(junk) < 0 && AllDeliverable(ms)
    ensures Messages(Drain(junk + Wire(ms)).pieces) == ms
  {
    hide Drain;
    var s := Wire(ms);
    if ms == [] {
      NoSyncNoMessages(junk + s) by { FindSyncAppend(junk, s); }
    } else {
      FindSyncAppend(junk, s);
      assert SyncAt(s, 0) && FindSync(s) == 0;
      SkipToSync(junk + s);
      assert (junk + s)[|junk|..] == s;
      assert s + [] == s;
      var k := DrainClean(s, [], ms);
      assert ms[..|ms|] == ms;
    }
  }

  // ----- the loop as a scan over the received bytes

  /** The 16-bit number at a position, low byte first. */
  function Number(s: seq<Byte>, i: nat): nat
    requires i + 1 < |s|
  {
    s[i] as int + 256 * s[i + 1] as int
  }

  /** What the bytes begin with: a message or none, and how many of them are passed; or nothing yet. */
  datatype Sight = More | Seen(messages: seq<Message>, passed: nat)

  function Sighted(s: seq<Byte>): (r: Sight)
    ensures r.Seen? ==> 0 < r.passed <= |s|
  {
    if |s| < 7 then More
    else if s[0] != 0xA5 || s[1] != 0x01 then Seen([], 1)
    else
      var n := Number(s, 3);
      if n > 10232 then Seen([], 1)
      else if |s| < 8 + n then More
      else Seen(if Sum(s[..8 + n]) % 256 == 0 then [Message(s[2], Number(s, 5), s[7..7 + n])] else [], 8 + n)
  }

  /** The messages of a stream: what is not a sync pair, or heads an oversized frame, is passed byte by byte. */
  function Scan(s: seq<Byte>): seq<Message>
    decreases |s|
  {
    match Sighted(s)
    case More => []
    case Seen(messages, passed) => messages + Scan(s[passed..])
  }

  /** The scan passes everything before the next sync pair. */
  lemma {:induction false} ScanToSync(s: seq<Byte>, i: nat)
    requires i <= |s|
    ensures Scan(s[i..]) == if FindSync(s, i) < 0 then [] else Scan(s[FindSync(s, i)..])
    decreases |s| - i
  {
    if i + 1 < |s| && !SyncAt(s, i) {
      ScanToSync(s, i + 1);
      var t := s[i..];
      assert t[0] == s[i] && t[1] == s[i + 1] && t[1..] == s[i + 1..];
      ScanOne(t);
      if |t| < 7 {
        NoSyncShort(s, i + 1);
      }
    }
  }

  lemma ScanOne(t: seq<Byte>)
    requires |t| >= 2 && !SyncAt(t, 0)
    ensures Scan(t) == if |t| < 7 then [] else Scan(t[1..])
  {
    hide Sum;
    if |t| >= 7 {
      assert [] + Scan(t[1..]) == Scan(t[1..]);
    }
  }

  lemma NoSyncShort(s: seq<Byte>, i: nat)
    requires i <= |s| && |s| - i < 7
    ensures Scan(s[i..]) == []
  {}

  lemma SumMatches(b: seq<Byte>)
    requires |b| >= HEADER_SIZE && |b| >= TotalLength(b)
    ensures ChecksumMatches(b) <==> Sum(b[..TotalLength(b)]) % 256 == 0
  {
    var n := TotalLength(b);
    assert b[..n] == b[..n - 1] + [b[n - 1]];
    SumAppend(b[..n - 1], [b[n - 1]]);
    assert Sum([b[n - 1]]) == b[n - 1];
    hide Sum;
  }

  /** Both ways of looking at bytes that begin with a sync pair agree. */
  lemma SameLook(b: seq<Byte>)
    requires SyncAt(b, 0)
    ensures Examine(b).Incomplete? <==> Sighted(b).More?
    ensures Examine(b).Found? ==> Sighted(b) == Seen(Shown(Examine(b).piece), Examine(b).size)
  {
    hide Sum, Checksum, ChecksumMatches;
    if |b| >= HEADER_SIZE && PayloadLength(b) <= MAX_PAYLOAD && |b| >= TotalLength(b) {
      SumMatches(b);
    }
  }

  lemma ScanUnfold(s: seq<Byte>)
    ensures Sighted(s).More? ==> Scan(s) == []
    ensures Sighted(s).Seen? ==> Scan(s) == Sighted(s).messages + Scan(s[Sighted(s).passed..])
  {
    hide Sighted;
  }

  /** Draining a buffer delivers exactly the messages the scan finds in it. */
  lemma {:induction false} DrainIsScan(buffer: seq<Byte>)
    ensures Messages(Drain(buffer).pieces) == Scan(buffer)
    decreases |buffer|
  {
    hide Drain, Scan, Examine, Sighted;
    if |buffer| < HEADER_SIZE {
      DrainShort(buffer);
      ScanShort(buffer);
    } else {
      DrainOneTurn(buffer);
      assert buffer[0..] == buffer;
      ScanToSync(buffer, 0);
      var at := FindSync(buffer);
      if at >= 0 {
        var b := buffer[at..];
        SameLook(b);
        ScanUnfold(b);
        if Examine(b).Found? {
          var size := Examine(b).size;
          ExamineSize(b);
          assert buffer[at + size..] == b[size..];
          DrainIsScan(buffer[at + size..]);
        }
      }
    }
  }

  lemma ExamineSize(b: seq<Byte>)
    ensures Examine(b).Found? ==> 0 < Examine(b).size <= |b|
  {}

  lemma ScanShort(s: seq<Byte>)
    requires |s| < 7
    ensures Scan(s) == [] && Messages([]) == []
  {}
}
