/** The C1-Link wire format: frames, their encoding, and the little-endian field helpers. */
module C1Link {
  import opened Bytes
  import opened Gf2
  import opened Crc16

  const SYNC0: Byte := 0xA5
  const SYNC1: Byte := 0x5A
  const VERSION: Byte := 0x10
  const MAX_PAYLOAD: nat := 250
  const HEADER_SIZE: nat := 8
  const CRC_SIZE: nat := 2
  const MAX_FRAME_SIZE: nat := HEADER_SIZE + MAX_PAYLOAD + CRC_SIZE

  datatype FrameType = Request | Response | Telemetry | Nack

  // Any byte may arrive as a message identifier; these are the catalogued ones.
  const PING: Byte := 0x01
  const GET_VERSION: Byte := 0x02
  const MOTOR_SET_TARGET: Byte := 0x10
  const MOTOR_STOP: Byte := 0x11
  const HEATER_SET_TARGET: Byte := 0x20
  const HEATER_OFF: Byte := 0x21
  const SCALE_TARE: Byte := 0x30
  const SCALE_READ: Byte := 0x31
  const LID_LOCK: Byte := 0x40
  const LID_UNLOCK: Byte := 0x41
  const TELEMETRY_MSG: Byte := 0x80
  const FAULT_MSG: Byte := 0x81

  const RAMP_GENTLE: Byte := 0
  const RAMP_NORMAL: Byte := 1
  const RAMP_FAST: Byte := 2
  const RAMP_BURST: Byte := 3

  datatype FaultCode = NoFault | Overtemp | MotorStall | SensorFailure | LinkLost

  datatype Frame = Frame(kind: FrameType, seqNo: Byte, msgId: Byte, payload: seq<Byte>)

  /** A frame with something noted beside it: a number, a time, what came before it. */
  datatype Marked<T> = Marked(frame: Frame, mark: T)

  function Frames<T>(ms: seq<Marked<T>>): (fs: seq<Frame>)
    ensures |fs| == |ms| && forall i :: 0 <= i < |ms| ==> fs[i] == ms[i].frame
  {
    seq(|ms|, i requires 0 <= i < |ms| => ms[i].frame)
  }

  lemma FramesMore<T>(ms: seq<Marked<T>>)
    ensures ms == [] ==> Frames(ms) == []
    ensures ms != [] ==> Frames(ms) == Frames(ms[..|ms| - 1]) + [ms[|ms| - 1].frame]
  {
  }

  function TypeByte(t: FrameType): (b: Byte)
    ensures 1 <= b <= 4
  {
    match t
    case Request => 0x01
    case Response => 0x02
    case Telemetry => 0x03
    case Nack => 0x04
  }

  function TypeOf(b: Byte): FrameType
    requires 1 <= b <= 4
  {
    if b == 0x01 then Request else if b == 0x02 then Response else if b == 0x03 then Telemetry else Nack
  }

  /** Codes as they travel in a fault report. */
  function FaultByte(c: FaultCode): (b: Byte)
    ensures b == 0 <==> c == NoFault
  {
    match c
    case NoFault => 0
    case Overtemp => 1
    case MotorStall => 2
    case SensorFailure => 3
    case LinkLost => 4
  }

  // ---- Little-endian fields ----

  function LowByte(v: nat): Byte {
    (v % 256) as Byte
  }

  /** Sequence numbers wrap at 256. */
  function Succ(seqNo: Byte): Byte {
    LowByte(seqNo as int + 1)
  }

  function HighByte(v: nat): Byte
    requires v < 0x1_0000
  {
    (v / 256) as Byte
  }

  function PutU16(v: nat): (s: seq<Byte>)
    requires v < 0x1_0000
    ensures |s| == 2
  {
    [LowByte(v), HighByte(v)]
  }

  function GetU16(lo: Byte, hi: Byte): (v: nat)
    ensures v < 0x1_0000
  {
    (lo as int) + 256 * (hi as int)
  }

  /** A signed field travels as its two's complement. */
  function PutI16(v: int): (s: seq<Byte>)
    requires -0x8000 <= v < 0x8000
    ensures |s| == 2
  {
    PutU16(if v < 0 then v + 0x1_0000 else v)
  }

  function GetI16(lo: Byte, hi: Byte): (v: int)
    ensures -0x8000 <= v < 0x8000
  {
    var u := GetU16(lo, hi);
    if u >= 0x8000 then u - 0x1_0000 else u
  }

  function PutU32(v: nat): (s: seq<Byte>)
    requires v < 0x1_0000_0000
    ensures |s| == 4
  {
    PutU16(v % 0x1_0000) + PutU16(v / 0x1_0000)
  }

  function GetU32(b0: Byte, b1: Byte, b2: Byte, b3: Byte): (v: nat)
    ensures v < 0x1_0000_0000
  {
    GetU16(b0, b1) + 0x1_0000 * GetU16(b2, b3)
  }

  /** Out-of-range values are truncated to 32 bits, as a C cast would. */
  function PutI32(v: int): (s: seq<Byte>)
    ensures |s| == 4
  {
    PutU32(v % 0x1_0000_0000)
  }

  function GetI32(b0: Byte, b1: Byte, b2: Byte, b3: Byte): int {
    var u := GetU32(b0, b1, b2, b3);
    if u >= 0x8000_0000 then u - 0x1_0000_0000 else u
  }

  lemma LowByteValue(v: nat)
    ensures LowByte(v) as int == v % 256
  {
    ByteOfNat(v % 256);
  }

  lemma LowByteDependsOnResidue(v: nat, w: nat)
    requires v % 256 == w % 256
    ensures LowByte(v) == LowByte(w)
  {
  }

  lemma U16RoundTrip(v: nat)
    requires v < 0x1_0000
    ensures GetU16(PutU16(v)[0], PutU16(v)[1]) == v
  {
    ByteOfNat(v % 256);
    ByteOfNat(v / 256);
  }

  lemma I16RoundTrip(v: int)
    requires -0x8000 <= v < 0x8000
    ensures GetI16(PutI16(v)[0], PutI16(v)[1]) == v
  {
    U16RoundTrip(if v < 0 then v + 0x1_0000 else v);
  }

  lemma U32RoundTrip(v: nat)
    requires v < 0x1_0000_0000
    ensures var s := PutU32(v); GetU32(s[0], s[1], s[2], s[3]) == v
  {
    hide PutU16, GetU16;
    U16RoundTrip(v % 0x1_0000);
    U16RoundTrip(v / 0x1_0000);
  }

  lemma I32RoundTrip(v: int)
    requires -0x8000_0000 <= v < 0x8000_0000
    ensures var s := PutI32(v); GetI32(s[0], s[1], s[2], s[3]) == v
  {
    hide PutU32, GetU32;
    U32RoundTrip(v % 0x1_0000_0000);
  }

  // ---- Telemetry payloads ----

  const TELEMETRY_PAYLOAD_SIZE: nat := 13

  datatype TelemetryData = TelemetryData(tick: nat, temp: int, rpm: nat, grams: int, flags: Byte) {
    /** Ticks, temperature and speed have the widths of their sources; grams are cut to theirs. */
    predicate Measured() {
      tick < 0x1_0000_0000 && -0x8000 <= temp < 0x8000 && rpm < 0x1_0000
    }

    predicate Fits() {
      Measured() && -0x8000_0000 <= grams < 0x8000_0000
    }
  }

  function EncodeTelemetry(d: TelemetryData): (s: seq<Byte>)
    requires d.Measured()
    ensures |s| == TELEMETRY_PAYLOAD_SIZE
  {
    PutU32(d.tick) + PutI16(d.temp) + PutU16(d.rpm) + PutI32(d.grams) + [d.flags]
  }

  function DecodeTelemetry(s: seq<Byte>): (d: TelemetryData)
    requires |s| == TELEMETRY_PAYLOAD_SIZE
  {
    TelemetryData(GetU32(s[0], s[1], s[2], s[3]), GetI16(s[4], s[5]), GetU16(s[6], s[7]),
                  GetI32(s[8], s[9], s[10], s[11]), s[12])
  }

  /** The application reads every field where the controller wrote it. */
  lemma TelemetryRoundTrip(d: TelemetryData)
    requires d.Fits()
    ensures DecodeTelemetry(EncodeTelemetry(d)) == d
  {
    hide PutU16, PutI16, PutU32, PutI32, GetU16, GetI16, GetU32, GetI32;
    U32RoundTrip(d.tick);
    I16RoundTrip(d.temp);
    U16RoundTrip(d.rpm);
    I32RoundTrip(d.grams);
  }

  /** Bit 0 lid closed, bit 1 lid locked, bit 2 heater on, bit 3 motor stalled. */
  function Flags(closed: bool, locked: bool, heating: bool, stalled: bool): Byte {
    (if closed then 0x01 else 0) | (if locked then 0x02 else 0) | (if heating then 0x04 else 0) | (if stalled then 0x08 else 0)
  }

  lemma FlagsReadBack(closed: bool, locked: bool, heating: bool, stalled: bool)
    ensures var f := Flags(closed, locked, heating, stalled);
            && (f & 0x01 != 0 <==> closed) && (f & 0x02 != 0 <==> locked)
            && (f & 0x04 != 0 <==> heating) && (f & 0x08 != 0 <==> stalled)
  {
  }

  // ---- Writing fields in place ----

  /** A buffer with the bytes from at on overwritten. */
  function Splice(buffer: seq<Byte>, at: nat, bytes: seq<Byte>): (s: seq<Byte>)
    requires at + |bytes| <= |buffer|
    ensures |s| == |buffer|
  {
    buffer[..at] + bytes + buffer[at + |bytes|..]
  }

  lemma SpliceTwice(buffer: seq<Byte>, at: nat, a: seq<Byte>, b: seq<Byte>)
    requires at + |a| + |b| <= |buffer|
    ensures Splice(Splice(buffer, at, a), at + |a|, b) == Splice(buffer, at, a + b)
  {
  }

  lemma SpliceAll(buffer: seq<Byte>, bytes: seq<Byte>)
    requires |bytes| == |buffer|
    ensures Splice(buffer, 0, bytes) == bytes
  {
  }

  method StoreU16(p: array<Byte>, at: nat, v: nat)
    requires at + 2 <= p.Length && v < 0x1_0000
    modifies p
    ensures p[..] == Splice(old(p[..]), at, PutU16(v))
  {
    hide LowByte, HighByte;
    p[at] := LowByte(v);
    p[at + 1] := HighByte(v);
  }

  method StoreU32(p: array<Byte>, at: nat, v: nat)
    requires at + 4 <= p.Length && v < 0x1_0000_0000
    modifies p
    ensures p[..] == Splice(old(p[..]), at, PutU32(v))
  {
    hide PutU16, Splice;
    StoreU16(p, at, v % 0x1_0000);
    StoreU16(p, at + 2, v / 0x1_0000);
    SpliceTwice(old(p[..]), at, PutU16(v % 0x1_0000), PutU16(v / 0x1_0000));
  }

  /** Signed fields are stored as the unsigned number of the same bits. */
  method StoreTelemetry(d: TelemetryData, out: array<Byte>, at: nat)
    requires d.Measured() && at + TELEMETRY_PAYLOAD_SIZE <= out.Length
    modifies out
    ensures out[..] == Splice(old(out[..]), at, EncodeTelemetry(d))
  {
    hide PutU16, PutU32, Splice;
    ghost var was := out[..];
    StoreU32(out, at, d.tick);
    StoreU16(out, at + 4, if d.temp < 0 then d.temp + 0x1_0000 else d.temp);
    SpliceTwice(was, at, PutU32(d.tick), PutI16(d.temp));
    StoreU16(out, at + 6, d.rpm);
    SpliceTwice(was, at, PutU32(d.tick) + PutI16(d.temp), PutU16(d.rpm));
    StoreU32(out, at + 8, d.grams % 0x1_0000_0000);
    SpliceTwice(was, at, PutU32(d.tick) + PutI16(d.temp) + PutU16(d.rpm), PutI32(d.grams));
    ghost var before := out[..];
    out[at + 12] := d.flags;
    StoredByte(before, at + 12, d.flags, out);
    SpliceTwice(was, at, PutU32(d.tick) + PutI16(d.temp) + PutU16(d.rpm) + PutI32(d.grams), [d.flags]);
  }

  lemma StoredByte(before: seq<Byte>, at: nat, b: Byte, out: array<Byte>)
    requires at < out.Length == |before| && out[..] == before[at := b]
    ensures out[..] == Splice(before, at, [b])
  {
  }

  // ---- Frames on the wire ----

  /** The checksummed part of a frame: version through payload. */
  function Covered(f: Frame): (body: seq<Byte>)
    requires |f.payload| <= MAX_PAYLOAD
    ensures |body| == HEADER_SIZE - 2 + |f.payload|
  {
    [VERSION, TypeByte(f.kind), f.seqNo, f.msgId, LowByte(|f.payload|), HighByte(|f.payload|)] + f.payload
  }

  function CrcBytes(covered: seq<Byte>): (s: seq<Byte>)
    ensures |s| == CRC_SIZE
  {
    var crc := Crc(INITIAL, covered);
    [Lo(crc), Hi(crc)]
  }

  function Encode(f: Frame): (wire: seq<Byte>)
    requires |f.payload| <= MAX_PAYLOAD
    ensures |wire| == HEADER_SIZE + |f.payload| + CRC_SIZE
  {
    [SYNC0, SYNC1] + Covered(f) + CrcBytes(Covered(f))
  }

  predicate Sendable(fs: seq<Frame>) {
    forall i :: 0 <= i < |fs| ==> |fs[i].payload| <= MAX_PAYLOAD
  }

  /** The bytes of a list of frames, back to back. */
  function EncodeAll(fs: seq<Frame>): seq<Byte>
    requires Sendable(fs)
  {
    if fs == [] then [] else EncodeAll(fs[..|fs| - 1]) + Encode(fs[|fs| - 1])
  }

  lemma EncodeNothing()
    ensures EncodeAll([]) == []
  {
  }

  lemma EncodeAllAppend(fs: seq<Frame>, f: Frame)
    requires Sendable(fs) && |f.payload| <= MAX_PAYLOAD
    ensures Sendable(fs + [f]) && EncodeAll(fs + [f]) == EncodeAll(fs) + Encode(f)
  {
    hide Encode;
    assert (fs + [f])[..|fs|] == fs;
  }
}
