/** Serialising one frame into the caller's buffer. */
module FrameWriter {
  import opened Gf2
  import opened Crc16
  import opened C1Link

  /** Writes Encode of the frame at base, or nothing when the payload is oversized or the
      capacity too small; no byte outside the frame changes. */
  method WriteFrame(out: array<Byte>, base: nat, capacity: nat,
                    kind: FrameType, seqNo: Byte, msgId: Byte, payload: seq<Byte>)
    returns (written: nat)
    requires base + capacity <= out.Length
    modifies out
    ensures written == if |payload| > MAX_PAYLOAD || capacity < HEADER_SIZE + |payload| + CRC_SIZE then 0
                       else HEADER_SIZE + |payload| + CRC_SIZE
    ensures written == 0 ==> out[..] == old(out[..])
    ensures written > 0 ==>
              out[base..base + written] == Encode(Frame(kind, seqNo, msgId, payload))
    ensures forall i :: 0 <= i < out.Length && !(base <= i < base + written) ==> out[i] == old(out[i])
  {
    hide Crc, Lo, Hi, TypeByte, LowByte, HighByte;
    var total := HEADER_SIZE + |payload| + CRC_SIZE;
    if |payload| > MAX_PAYLOAD || capacity < total {
      return 0;
    }
    ghost var f := Frame(kind, seqNo, msgId, payload);
    WriteCovered(out, base, kind, seqNo, msgId, payload);
    assert out[base + 2..base + HEADER_SIZE + |payload|] == out[base..base + HEADER_SIZE + |payload|][2..] == Covered(f);
    var crc := Ccitt(out, base + 2, HEADER_SIZE - 2 + |payload|, INITIAL);
    ghost var done := out[base..base + total - CRC_SIZE];
    out[base + HEADER_SIZE + |payload|], out[base + HEADER_SIZE + |payload| + 1] := Lo(crc), Hi(crc);
    assert out[base..base + total] == done + [Lo(crc), Hi(crc)];
    return total;
  }

  /** Sync bytes, header and payload. */
  method WriteCovered(out: array<Byte>, base: nat, kind: FrameType, seqNo: Byte, msgId: Byte, payload: seq<Byte>)
    requires |payload| <= MAX_PAYLOAD && base + HEADER_SIZE + |payload| <= out.Length
    modifies out
    ensures out[base..base + HEADER_SIZE + |payload|]
         == [SYNC0, SYNC1] + Covered(Frame(kind, seqNo, msgId, payload))
    ensures forall i :: 0 <= i < out.Length && !(base <= i < base + HEADER_SIZE + |payload|) ==> out[i] == old(out[i])
  {
    var header := Header(kind, seqNo, msgId, payload);
    HeaderAndPayload(kind, seqNo, msgId, payload);
    hide Header;
    forall i | 0 <= i < HEADER_SIZE {
      out[base + i] := header[i];
    }
    forall i | 0 <= i < |payload| {
      out[base + HEADER_SIZE + i] := payload[i];
    }
    assert out[base..base + HEADER_SIZE + |payload|] == header + payload;
  }

  function Header(kind: FrameType, seqNo: Byte, msgId: Byte, payload: seq<Byte>): (h: seq<Byte>)
    requires |payload| <= MAX_PAYLOAD
    ensures |h| == HEADER_SIZE
  {
    [SYNC0, SYNC1, VERSION, TypeByte(kind), seqNo, msgId, LowByte(|payload|), HighByte(|payload|)]
  }

  lemma HeaderAndPayload(kind: FrameType, seqNo: Byte, msgId: Byte, payload: seq<Byte>)
    requires |payload| <= MAX_PAYLOAD
    ensures Header(kind, seqNo, msgId, payload) + payload == [SYNC0, SYNC1] + Covered(Frame(kind, seqNo, msgId, payload))
  {
    hide TypeByte, LowByte, HighByte;
  }
}
