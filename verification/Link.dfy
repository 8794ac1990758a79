/** The framed link: a transmit queue that survives partial writes, and a receiver that drops
    frames stalled for more than fifty milliseconds. The UART is one end of a pair of crossed
    ring buffers. */
module Link {
  import opened Gf2
  import opened C1Link
  import opened Wrappers
  import opened Clock
  import opened FrameParser
  import opened StreamTheorems
  import RB = RingBuffer
  import FW = FrameWriter

  const FRAME_TIMEOUT_MS: nat := 50
  const TX_CAPACITY: nat := MAX_FRAME_SIZE * 4

  /** The longest silence between polls, while a frame is in progress, that the signed
      comparison of 32-bit times can bridge. */
  const MAX_FRAME_POLL_GAP: nat := WRAP / 2 - FRAME_TIMEOUT_MS

  // ---- Receiving in time ----

  /** The parser's state, and the true time at which it last ceased to hunt. */
  datatype Receiver = Receiver(parser: Parser, since: nat)

  function Hear(r: Receiver, b: Byte, now: nat): Receiver {
    var next := Next(r.parser, b).next;
    Receiver(next, if r.parser == Hunting && next != Hunting then now else r.since)
  }

  function HearAll(r: Receiver, bytes: seq<Byte>, now: nat): Receiver {
    if bytes == [] then r else Hear(HearAll(r, bytes[..|bytes| - 1], now), bytes[|bytes| - 1], now)
  }

  /** Once nothing more can be read, what has been in progress for too long is given up. */
  function DropLate(r: Receiver, now: nat): Receiver {
    if r.parser != Hunting && now > r.since + FRAME_TIMEOUT_MS then Receiver(Hunting, r.since) else r
  }

  lemma HearNothing(r: Receiver, now: nat)
    ensures HearAll(r, [], now) == r
  {
  }

  lemma HearAppend(r: Receiver, a: seq<Byte>, b: Byte, now: nat)
    ensures HearAll(r, a + [b], now) == Hear(HearAll(r, a, now), b, now)
  {
    hide Hear;
    assert (a + [b])[..|a|] == a;
  }

  /** Time apart, a receiver is the parser; and what it has begun, it began now or before. */
  lemma {:induction false} HearIsParsing(r: Receiver, bytes: seq<Byte>, now: nat)
    ensures var s := HearAll(r, bytes, now);
            && s.parser == After(r.parser, bytes)
            && (s.since == now || s.since == r.since)
            && (r.parser == Hunting && s.parser != Hunting ==> s.since == now)
  {
    hide Next;
    if bytes != [] {
      HearIsParsing(r, bytes[..|bytes| - 1], now);
    }
  }

  class Endpoint {
    const tx: RB.RingBuffer
    const rx: RB.RingBuffer

    ghost predicate Valid()
      reads tx, rx, tx.buf, rx.buf
    {
      tx != rx && tx.buf != rx.buf && tx.Valid() && rx.Valid()
    }

    constructor (tx: RB.RingBuffer, rx: RB.RingBuffer)
      requires tx != rx && tx.buf != rx.buf && tx.Valid() && rx.Valid()
      ensures Valid() && this.tx == tx && this.rx == rx
    {
      this.tx, this.rx := tx, rx;
    }

    /** Accepts as many bytes as fit. */
    method Write(data: array<Byte>, from: nat, len: nat) returns (written: nat)
      requires Valid() && from + len <= data.Length && data != tx.buf
      modifies tx, tx.buf
      ensures Valid() && written <= len
      ensures tx.contents == old(tx.contents) + data[from..from + written]
      ensures written < len ==> |tx.contents| == tx.capacity
    {
      written := 0;
      while written < len
        invariant Valid() && written <= len
        invariant tx.contents == old(tx.contents) + data[from..from + written]
      {
        var ok := tx.Push(data[from + written]);
        if !ok {
          break;
        }
        written := written + 1;
        assert data[from..from + written] == data[from..from + written - 1] + [data[from + written - 1]];
      }
    }

    method Read() returns (b: Option<Byte>)
      requires Valid()
      modifies rx
      ensures Valid()
      ensures b == if old(rx.contents) == [] then None else Some(old(rx.contents)[0])
      ensures rx.contents == if old(rx.contents) == [] then [] else old(rx.contents)[1..]
    {
      b := rx.Pop();
    }
  }

  class Link {
    const uart: Endpoint
    const parser: FrameParser
    const txBuffer: array<Byte>
    var txSize: nat
    var txOffset: nat
    var frameDeadline: nat
    ghost var startedAt: nat
    ghost var polledAt: nat

    ghost predicate Valid()
      reads this, parser, parser.payload
      ensures Valid() ==> txOffset <= txSize <= txBuffer.Length
      ensures Valid() ==> txBuffer != parser.payload && txBuffer != uart.tx.buf && txBuffer != uart.rx.buf
      ensures Valid() ==> parser.payload != uart.tx.buf && parser.payload != uart.rx.buf
      ensures Valid() && parser.InProgress() ==> startedAt <= polledAt
    {
      && parser.Valid()
      && txBuffer.Length == TX_CAPACITY
      && txOffset <= txSize <= TX_CAPACITY
      && txBuffer != parser.payload && txBuffer != uart.tx.buf && txBuffer != uart.rx.buf
      && parser.payload != uart.tx.buf && parser.payload != uart.rx.buf
      && (parser.InProgress() ==>
            && startedAt <= polledAt <= startedAt + FRAME_TIMEOUT_MS
            && frameDeadline == Ms(startedAt + FRAME_TIMEOUT_MS))
    }

    ghost function Receiving(): (r: Receiver)
      reads this, parser
      ensures r.parser == parser.Abs() && r.since == startedAt
    {
      Receiver(parser.Abs(), startedAt)
    }

    /** Bytes of accepted frames that the UART has not taken yet. */
    ghost function Pending(): seq<Byte>
      reads this, txBuffer
      requires txOffset <= txSize <= txBuffer.Length
    {
      txBuffer[txOffset..txSize]
    }

    /** Everything on its way to the other side. */
    ghost function Outgoing(): seq<Byte>
      reads this, txBuffer, uart, uart.tx
      requires txOffset <= txSize <= txBuffer.Length
    {
      uart.tx.contents + Pending()
    }

    constructor (uart: Endpoint)
      requires uart.Valid()
      ensures Valid() && uart.Valid() && this.uart == uart && Pending() == [] && parser.Abs() == Hunting
      ensures fresh(parser) && fresh(parser.payload) && fresh(txBuffer)
    {
      this.uart := uart;
      parser := new FrameParser();
      txBuffer := new Byte[TX_CAPACITY];
      txSize, txOffset, frameDeadline, startedAt, polledAt := 0, 0, 0, 0, 0;
    }

    static lemma SplitSlice(sent: seq<Byte>, queue: seq<Byte>, i: nat, j: nat, k: nat)
      requires i <= j <= k <= |queue|
      ensures sent + queue[i..k] == (sent + queue[i..j]) + queue[j..k]
    {
    }

    static lemma AppendAssociates(a: seq<Byte>, b: seq<Byte>, c: seq<Byte>)
      ensures a + (b + c) == (a + b) + c
    {
    }

    method FlushTx()
      requires Valid() && uart.Valid()
      modifies this`txOffset, this`txSize, uart.tx, uart.tx.buf
      ensures Valid() && uart.Valid() && Outgoing() == old(Outgoing()) && old(uart.tx.contents) <= uart.tx.contents
    {
      hide FrameParser.Valid, RB.RingBuffer.Valid;
      if txOffset >= txSize {
        return;
      }
      ghost var queue, sent := txBuffer[..], uart.tx.contents;
      var remaining := txSize - txOffset;
      var written := uart.Write(txBuffer, txOffset, remaining);
      assert txBuffer[..] == queue;
      SplitSlice(sent, queue, txOffset, txOffset + written, txSize);
      assert txBuffer[txOffset..txOffset + written] == queue[txOffset..txOffset + written];
      txOffset := txOffset + written;
      assert Pending() == queue[txOffset..txSize];
      if txOffset == txSize {
        assert Pending() == [];
        txOffset, txSize := 0, 0;
      }
    }

    /** Moves the unsent bytes to the front of the buffer. */
    method Compact()
      requires Valid()
      modifies this`txOffset, this`txSize, txBuffer
      ensures Valid() && txOffset == 0 && Pending() == old(Pending())
    {
      hide FrameParser.Valid;
      if txOffset > 0 {
        var queued := txSize - txOffset;
        forall i | 0 <= i < queued {
          txBuffer[i] := txBuffer[txOffset + i];
        }
        txSize, txOffset := queued, 0;
      }
    }

    /** A frame is accepted exactly when its payload is legal and it fits behind what is still
        queued; an accepted frame extends the outgoing bytes by its encoding, a refused one
        leaves them as they were. */
    method Send(kind: FrameType, seqNo: Byte, msgId: Byte, payload: seq<Byte>) returns (status: Status)
      requires Valid() && uart.Valid()
      modifies this`txOffset, this`txSize, txBuffer, uart.tx, uart.tx.buf
      ensures Valid() && uart.Valid()
      ensures status == if |payload| > MAX_PAYLOAD then InvalidArgument
                        else if HEADER_SIZE + |payload| + CRC_SIZE > TX_CAPACITY - |old(Pending())| then NotReady
                        else Ok
      ensures Outgoing() == old(Outgoing()) +
                            if status == Ok then Encode(Frame(kind, seqNo, msgId, payload)) else []
      ensures status != Ok ==> Pending() == old(Pending()) && uart.tx.contents == old(uart.tx.contents)
    {
      hide Encode, FrameParser.Valid, RB.RingBuffer.Valid;
      if |payload| > MAX_PAYLOAD {
        return InvalidArgument;
      }
      Compact();
      var frameSize := HEADER_SIZE + |payload| + CRC_SIZE;
      if frameSize > TX_CAPACITY - txSize {
        return NotReady;
      }
      ghost var sent, pending := uart.tx.contents, Pending();
      Enqueue(kind, seqNo, msgId, payload);
      AppendAssociates(sent, pending, Encode(Frame(kind, seqNo, msgId, payload)));
      FlushTx();
      return Ok;
    }

    /** Appends the encoding of a frame that fits to the queued bytes. */
    method Enqueue(kind: FrameType, seqNo: Byte, msgId: Byte, payload: seq<Byte>)
      requires Valid() && txOffset == 0 && |payload| <= MAX_PAYLOAD
      requires HEADER_SIZE + |payload| + CRC_SIZE <= TX_CAPACITY - txSize
      modifies this`txSize, txBuffer
      ensures Valid() && txOffset == 0
      ensures Pending() == old(Pending()) + Encode(Frame(kind, seqNo, msgId, payload))
    {
      hide Encode, FrameParser.Valid;
      ghost var pending := Pending();
      var written := FW.WriteFrame(txBuffer, txSize, TX_CAPACITY - txSize, kind, seqNo, msgId, payload);
      assert txBuffer[..txSize] == pending;
      txSize := txSize + written;
      assert Pending() == pending + txBuffer[txSize - written..txSize];
    }

    method CancelPendingTx()
      requires Valid()
      modifies this`txOffset, this`txSize
      ensures Valid() && Pending() == []
    {
      txOffset, txSize := 0, 0;
    }

    /** Reads up to one frame. What was read is a prefix of what was waiting; the state and the
        delivered frame are those of the specification. When nothing is delivered everything has
        been read, and a frame in progress is dropped exactly when the parser has not hunted for
        more than fifty true milliseconds, however the 32-bit clock has wrapped. */
    method Poll(now: nat) returns (out: Option<Frame>)
      requires Valid() && uart.Valid()
      requires parser.InProgress() ==> polledAt <= now < polledAt + MAX_FRAME_POLL_GAP
      modifies this, parser, parser.payload, uart.tx, uart.tx.buf, uart.rx
      ensures Valid() && uart.Valid() && parser.payload == old(parser.payload) && polledAt == now
      ensures Outgoing() == old(Outgoing()) && old(uart.tx.contents) <= uart.tx.contents
      ensures |uart.rx.contents| <= |old(uart.rx.contents)|
      ensures var inbox := old(uart.rx.contents);
              var k := |inbox| - |uart.rx.contents|;
              var heard := HearAll(old(Receiving()), inbox[..k], now);
              && uart.rx.contents == inbox[k..]
              && Received(old(parser.Abs()), inbox[..k]) == Delivered(Step(heard.parser, out))
              && (out.Some? ==> heard.parser == Hunting)
              && (out.None? ==> k == |inbox|)
              && Receiving() == if out.None? then DropLate(heard, now) else heard
    {
      hide Next, Encode, HearAll, Received, FrameParser.Valid, RB.RingBuffer.Valid;
      FlushTx();
      out := Receive(now);
      if out == None {
        DropStalled(now);
      }
      polledAt := now;
    }

    method DropStalled(now: nat)
      requires parser.Valid() && Timed(now)
      modifies parser
      ensures parser.Valid() && parser.payload == old(parser.payload)
      ensures Receiving() == DropLate(old(Receiving()), now)
    {
      hide FrameParser.Valid, SignedPositive, Elapsed, Ms;
      if parser.InProgress() {
        SignedExact(now, startedAt + FRAME_TIMEOUT_MS);
        if SignedPositive(Elapsed(Ms(now), frameDeadline)) {
          parser.Reset();
        }
      }
    }

    /** The deadline belongs to the frame in progress. */
    ghost predicate Timed(now: nat)
      reads this, parser
    {
      parser.InProgress() ==>
        && startedAt <= now < startedAt + FRAME_TIMEOUT_MS + MAX_FRAME_POLL_GAP
        && frameDeadline == Ms(startedAt + FRAME_TIMEOUT_MS)
    }

    method Receive(now: nat) returns (out: Option<Frame>)
      requires uart.Valid() && parser.Valid() && Timed(now)
      requires parser.payload != uart.tx.buf && parser.payload != uart.rx.buf
      modifies this`frameDeadline, this`startedAt, parser, parser.payload, uart.rx
      ensures uart.Valid() && parser.Valid() && Timed(now) && parser.payload == old(parser.payload)
      ensures |uart.rx.contents| <= |old(uart.rx.contents)|
      ensures var inbox := old(uart.rx.contents);
              var k := |inbox| - |uart.rx.contents|;
              && uart.rx.contents == inbox[k..]
              && Receiving() == HearAll(old(Receiving()), inbox[..k], now)
              && Received(old(parser.Abs()), inbox[..k]) == Delivered(Step(parser.Abs(), out))
              && (out.Some? ==> parser.Abs() == Hunting)
              && (out.None? ==> k == |inbox|)
    {
      hide Next, Hear, HearAll, After, Received, FrameParser.Valid, RB.RingBuffer.Valid;
      ghost var inbox, r0 := uart.rx.contents, Receiving();
      ghost var k: nat := 0;
      FeedNothing(r0.parser);
      HearNothing(r0, now);
      while true
        invariant uart.Valid() && parser.Valid() && Timed(now) && parser.payload == old(parser.payload)
        invariant k <= |inbox| && uart.rx.contents == inbox[k..]
        invariant Receiving() == HearAll(r0, inbox[..k], now) && Received(r0.parser, inbox[..k]) == []
        decreases |inbox| - k
      {
        var b := uart.Read();
        if b == None {
          return None;
        }
        assert inbox[..k + 1] == inbox[..k] + [inbox[k]];
        AfterAppend(r0.parser, inbox[..k], inbox[k]);
        HearAppend(r0, inbox[..k], inbox[k], now);
        HearIsParsing(r0, inbox[..k], now);
        out := ReceiveByte(b.value, now);
        k := k + 1;
        if out.Some? {
          return;
        }
      }
    }

    /** A byte that ends the hunt sets the deadline. */
    method ReceiveByte(b: Byte, now: nat) returns (out: Option<Frame>)
      requires parser.Valid() && Timed(now)
      modifies this`frameDeadline, this`startedAt, parser, parser.payload
      ensures parser.Valid() && Timed(now) && parser.payload == old(parser.payload)
      ensures Step(parser.Abs(), out) == Next(old(parser.Abs()), b)
      ensures Receiving() == Hear(old(Receiving()), b, now)
      ensures out.Some? ==> parser.Abs() == Hunting
    {
      hide FrameParser.Valid, Plus, Ms, CrcMatches, Plausible, Complete, FrameOf;
      var wasIdle := !parser.InProgress();
      out := parser.Feed(b);
      if out == None && wasIdle && parser.InProgress() {
        frameDeadline := Plus(Ms(now), FRAME_TIMEOUT_MS);
        startedAt := now;
        PlusExact(now, FRAME_TIMEOUT_MS);
      }
    }
  }
}
