/** What the bytes on the line mean, by the protocol document: little-endian fields at fixed offsets. */
module WireFormat {
  import opened Gf2
  import opened Crc16
  import opened C1Link

  /** The number that little-endian bytes stand for. */
  function Value(s: seq<Byte>): nat {
    if s == [] then 0 else s[0] as int + 256 * Value(s[1..])
  }

  lemma TwoBytes(s: seq<Byte>)
    requires |s| == 2
    ensures Value(s) == s[0] as int + 256 * (s[1] as int)
  {
    assert Value(s[1..]) == s[1] as int;
  }

  lemma FourBytes(s: seq<Byte>)
    requires |s| == 4
    ensures Value(s) == Value(s[..2]) + 0x1_0000 * Value(s[2..])
  {
    TwoBytes(s[..2]);
    assert Value(s) == s[0] as int + 256 * Value(s[1..]) == s[0] as int + 256 * (s[1] as int + 256 * Value(s[1..][1..]));
    assert s[1..][1..] == s[2..];
  }

  /** Fields are little-endian, and signed ones travel as their two's complement. */
  lemma FieldsAreLittleEndian(v: int)
    ensures 0 <= v < 0x1_0000 ==> Value(PutU16(v)) == v
    ensures 0 <= v < 0x1_0000_0000 ==> Value(PutU32(v)) == v
    ensures -0x8000 <= v < 0x8000 ==> Value(PutI16(v)) == v % 0x1_0000
    ensures Value(PutI32(v)) == v % 0x1_0000_0000
  {
    hide PutU16, PutU32, Value;
    if 0 <= v < 0x1_0000 {
      U16IsLittleEndian(v);
    }
    if 0 <= v < 0x1_0000_0000 {
      U32IsLittleEndian(v);
    }
    if -0x8000 <= v < 0x8000 {
      U16IsLittleEndian(if v < 0 then v + 0x1_0000 else v);
      TwosComplement(v);
    }
    U32IsLittleEndian(v % 0x1_0000_0000);
  }

  lemma TwosComplement(v: int)
    requires -0x8000 <= v < 0x8000
    ensures v % 0x1_0000 == if v < 0 then v + 0x1_0000 else v
  {
  }

  lemma U16IsLittleEndian(v: nat)
    requires v < 0x1_0000
    ensures Value(PutU16(v)) == v
  {
    U16RoundTrip(v);
    TwoBytes(PutU16(v));
  }

  lemma U32IsLittleEndian(v: nat)
    requires v < 0x1_0000_0000
    ensures Value(PutU32(v)) == v
  {
    hide PutU16, Value;
    U16IsLittleEndian(v % 0x1_0000);
    U16IsLittleEndian(v / 0x1_0000);
    var s := PutU32(v);
    FourBytes(s);
    assert s[..2] == PutU16(v % 0x1_0000) && s[2..] == PutU16(v / 0x1_0000);
  }

  /** The telemetry payload: tick, temperature, speed, grams and flags, at 0, 4, 6, 8 and 12. */
  lemma TelemetryLayout(d: TelemetryData)
    requires d.Measured()
    ensures var p := EncodeTelemetry(d);
            && Value(p[0..4]) == d.tick
            && Value(p[4..6]) == d.temp % 0x1_0000
            && Value(p[6..8]) == d.rpm
            && Value(p[8..12]) == d.grams % 0x1_0000_0000
            && p[12] == d.flags
  {
    hide PutU16, PutI16, PutU32, PutI32, Value;
    FieldsAreLittleEndian(d.tick);
    FieldsAreLittleEndian(d.temp);
    FieldsAreLittleEndian(d.rpm);
    FieldsAreLittleEndian(d.grams);
    var p := EncodeTelemetry(d);
    assert p[0..4] == PutU32(d.tick) && p[4..6] == PutI16(d.temp) && p[6..8] == PutU16(d.rpm) && p[8..12] == PutI32(d.grams);
  }

  /** A frame: sync bytes, version 1, type, number, message, length, payload, and two bytes of checksum
      over all but the sync bytes. */
  lemma FrameLayout(f: Frame)
    requires |f.payload| <= MAX_PAYLOAD
    ensures var w, n := Encode(f), |f.payload|;
            && |w| == n + 10
            && w[0..6] == [0xA5, 0x5A, 0x10,
                           match f.kind case Request => 1 case Response => 2 case Telemetry => 3 case Nack => 4,
                           f.seqNo, f.msgId]
            && Value(w[6..8]) == n && w[8..8 + n] == f.payload
            && Word(w[8 + n], w[9 + n]) == Crc(INITIAL, w[2..8 + n])
  {
    hide Crc;
    var w, n := Encode(f), |f.payload|;
    U16IsLittleEndian(n);
    assert w[6..8] == PutU16(n);
    assert w[2..8 + n] == Covered(f);
    WordOfHalves(Crc(INITIAL, Covered(f)));
  }

  const PING_BODY: seq<Byte> := [0x10, 0x01, 0x00, 0x01, 0x00, 0x00]

  /** The first ping on the line, with its checksum's low byte first. */
  lemma FirstPing()
    ensures Encode(Frame(Request, 0, PING, [])) == [0xA5, 0x5A, 0x10, 0x01, 0x00, 0x01, 0x00, 0x00, 0xF5, 0x89]
  {
    hide Crc, CrcByte;
    assert PING_BODY[..0] == [];
    StartOfCrc();
    NextByte(0, Reg(0xFFFF), Reg(0xF3C1));
    NextByte(1, Reg(0xF3C1), Reg(0x0E5D));
    NextByte(2, Reg(0x0E5D), Reg(0xBCCE));
    NextByte(3, Reg(0xBCCE), Reg(0xB876));
    NextByte(4, Reg(0xB876), Reg(0x50D3));
    NextByte(5, Reg(0x50D3), Reg(0x89F5));
    assert PING_BODY[..6] == PING_BODY;
    assert Covered(Frame(Request, 0, PING, [])) == PING_BODY;
  }

  lemma StartOfCrc()
    ensures Crc(INITIAL, []) == Reg(0xFFFF)
  {
  }

  lemma NextByte(k: nat, before: Reg, after: Reg)
    requires k < |PING_BODY| && Crc(INITIAL, PING_BODY[..k]) == before
    requires Shift(Shift(Shift(Shift(Shift(Shift(Shift(Shift(Xor(before, Top(PING_BODY[k])))))))))) == after
    ensures Crc(INITIAL, PING_BODY[..k + 1]) == after
  {
    hide CrcByte, Shift, Xor, Top;
    ByteSteps(before, PING_BODY[k]);
    assert PING_BODY[..k + 1] == PING_BODY[..k] + [PING_BODY[k]];
    CrcAppend(INITIAL, PING_BODY[..k], PING_BODY[k]);
  }

  /** Reports of different faults are different. */
  lemma FaultCodesDiffer(a: FaultCode, b: FaultCode)
    requires FaultByte(a) == FaultByte(b)
    ensures a == b
  {
  }
}
