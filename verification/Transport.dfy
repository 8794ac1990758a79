/** Two links joined back to back by a pair of ring buffers. Whatever the interleaving of sends,
    polls and partial writes, no byte is lost or reordered, and the receiver's frames are a
    prefix of the sender's. */
module Transport {
  import opened Gf2
  import opened C1Link
  import opened Wrappers
  import opened FrameParser
  import opened StreamTheorems
  import L = Link
  import RB = RingBuffer

  const QUEUE_CAPACITY: nat := 4096

  /** The traffic in one direction, with the history the specification needs. */
  class Duplex {
    const near: L.Link
    const far: L.Link
    ghost var sent: seq<Frame>
    ghost var consumed: seq<Byte>
    var received: seq<Frame>

    ghost predicate Valid()
      reads this, near, far, near.txBuffer
      reads near.parser, far.parser, near.parser.payload, far.parser.payload
      reads near.uart.tx, near.uart.rx, near.uart.tx.buf, near.uart.rx.buf
    {
      && near != far && near.Valid() && far.Valid() && near.uart.Valid()
      && near.uart.tx == far.uart.rx && near.uart.rx == far.uart.tx
      && near.txBuffer != far.txBuffer
      && near.parser != far.parser && near.parser.payload != far.parser.payload
      && near.txBuffer != far.parser.payload && far.txBuffer != near.parser.payload
      && Sendable(sent)
      && consumed + near.uart.tx.contents + near.Pending() == EncodeAll(sent)
      && far.parser.Abs() == After(Hunting, consumed)
      && received == Received(Hunting, consumed)
    }

    constructor ()
      ensures Valid() && sent == [] && received == []
    {
      hide FrameParser.Valid, RB.RingBuffer.Valid, L.Link.Valid, L.Link.Pending, EncodeAll, After, Received, Encode;
      var up := new RB.RingBuffer(QUEUE_CAPACITY);
      var down := new RB.RingBuffer(QUEUE_CAPACITY);
      var nearEnd := new L.Endpoint(up, down);
      var farEnd := new L.Endpoint(down, up);
      near := new L.Link(nearEnd);
      far := new L.Link(farEnd);
      sent, consumed, received := [], [], [];
      FeedNothing(Hunting);
      EncodeNothing();
    }

    method Send(kind: FrameType, seqNo: Byte, msgId: Byte, payload: seq<Byte>) returns (status: Status)
      requires Valid()
      modifies this`sent, near`txOffset, near`txSize, near.txBuffer, near.uart.tx, near.uart.tx.buf
      ensures Valid() && received == old(received)
      ensures sent == old(sent) + if status == Ok then [Frame(kind, seqNo, msgId, payload)] else []
    {
      hide FrameParser.Valid, RB.RingBuffer.Valid, L.Link.Valid, L.Link.Pending, EncodeAll, After, Received, Encode;
      status := near.Send(kind, seqNo, msgId, payload);
      if status == Ok {
        EncodeAllAppend(sent, Frame(kind, seqNo, msgId, payload));
        sent := sent + [Frame(kind, seqNo, msgId, payload)];
      }
      assert consumed + near.uart.tx.contents + near.Pending() == consumed + near.Outgoing();
      assert old(consumed + near.uart.tx.contents + near.Pending()) == consumed + old(near.Outgoing());
    }

    /** The sender polls: queued bytes move on, traffic of the other direction arrives. */
    method PollNear(now: nat) returns (reply: Option<Frame>)
      requires Valid()
      requires near.parser.InProgress() ==> near.polledAt <= now < near.polledAt + L.MAX_FRAME_POLL_GAP
      modifies near, near.parser, near.parser.payload, near.uart.tx, near.uart.tx.buf, near.uart.rx
      ensures Valid() && received == old(received) && sent == old(sent)
    {
      hide FrameParser.Valid, RB.RingBuffer.Valid, L.Link.Valid, L.Link.Pending, EncodeAll, After, Received, Encode;
      reply := near.Poll(now);
      assert consumed + near.uart.tx.contents + near.Pending() == consumed + near.Outgoing();
      assert old(consumed + near.uart.tx.contents + near.Pending()) == consumed + old(near.Outgoing());
    }

    /** The receiver polls in time: no frame in progress has reached its timeout. */
    method PollFar(now: nat) returns (frame: Option<Frame>)
      requires Valid()
      requires far.parser.InProgress() ==> far.polledAt <= now <= far.startedAt + L.FRAME_TIMEOUT_MS
      modifies this`consumed, this`received
      modifies far, far.parser, far.parser.payload, far.uart.tx, far.uart.tx.buf, far.uart.rx
      ensures Valid() && sent == old(sent)
      ensures received == old(received) + if frame.Some? then [frame.value] else []
      ensures frame.None? ==> near.uart.tx.contents == []
    {
      hide L.HearAll, FrameParser.Valid, RB.RingBuffer.Valid, L.Link.Valid, L.Link.Pending, EncodeAll, After, Received, Encode;
      ghost var inbox, before := far.uart.rx.contents, far.Receiving();
      frame := far.Poll(now);
      ghost var k := |inbox| - |far.uart.rx.contents|;
      L.HearIsParsing(before, inbox[..k], now);
      FeedConcat(Hunting, consumed, inbox[..k]);
      if frame.Some? {
        received := received + [frame.value];
      }
      SplitInbox(consumed, inbox, k);
      consumed := consumed + inbox[..k];
    }

    static lemma SplitInbox(consumed: seq<Byte>, inbox: seq<Byte>, k: nat)
      requires k <= |inbox|
      ensures consumed + inbox == (consumed + inbox[..k]) + inbox[k..]
    {
    }

    /** Reverse traffic leaves this direction alone. */
    method SendFar(kind: FrameType, seqNo: Byte, msgId: Byte, payload: seq<Byte>) returns (status: Status)
      requires Valid()
      modifies far`txOffset, far`txSize, far.txBuffer, far.uart.tx, far.uart.tx.buf
      ensures Valid() && received == old(received) && sent == old(sent)
    {
      hide FrameParser.Valid, RB.RingBuffer.Valid, L.Link.Valid, L.Link.Pending, EncodeAll, After, Received, Encode;
      status := far.Send(kind, seqNo, msgId, payload);
    }

    /** In every state reached by these calls the receiver has a prefix of what was sent, and
        once nothing is queued or in flight it has everything. */
    lemma FifoDelivery()
      requires Valid()
      ensures received <= sent
      ensures near.Pending() == [] && near.uart.tx.contents == [] ==> received == sent
    {
      hide FrameParser.Valid, RB.RingBuffer.Valid, L.Link.Valid, L.Link.Pending, EncodeAll, After, Received, Encode;
      var onTheWay := near.uart.tx.contents + near.Pending();
      assert consumed + onTheWay == EncodeAll(sent);
      PrefixOfStream(sent, consumed);
      EncodeAllRoundTrip(sent);
      if onTheWay == [] {
        assert consumed + onTheWay == consumed;
      }
    }
  }
}
