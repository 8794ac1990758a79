/** Receiving frames. The specification hunts for a sync pair, collects the bytes that follow
    while they can still be a frame, and judges the frame once it is complete. The firmware's
    eleven-state incremental parser refines it. */
module FrameParser {
  import opened Gf2
  import opened Crc16
  import opened C1Link
  import opened Wrappers

  // ---- Specification ----

  datatype Parser = Hunting | HalfSync | Collecting(body: seq<Byte>)

  /** The payload length announced by the two length bytes. */
  function Announced(body: seq<Byte>): (n: nat)
    requires |body| >= 6
  {
    GetU16(body[4], body[5])
  }

  /** The high nibble is the protocol's major version; the low nibble holds flags. */
  predicate SameMajor(b: Byte) {
    b & 0xF0 == VERSION & 0xF0
  }

  predicate KnownType(b: Byte)
    ensures KnownType(b) <==> 1 <= b <= 4
  {
    !(b < 0x01 || b > 0x04)
  }

  /** The bytes after the sync pair may still become a frame. */
  predicate Plausible(body: seq<Byte>) {
    && (|body| >= 1 ==> SameMajor(body[0]))
    && (|body| >= 2 ==> KnownType(body[1]))
    && (|body| >= 6 ==> Announced(body) <= MAX_PAYLOAD)
  }

  predicate Complete(body: seq<Byte>) {
    |body| >= 6 && |body| == 6 + Announced(body) + CRC_SIZE
  }

  predicate Overlong(body: seq<Byte>) {
    |body| >= 6 && |body| > 6 + Announced(body) + CRC_SIZE
  }

  predicate CrcMatches(body: seq<Byte>)
    requires |body| >= 2
  {
    Crc(INITIAL, body[..|body| - 2]) == Word(body[|body| - 2], body[|body| - 1])
  }

  function FrameOf(body: seq<Byte>): Frame
    requires Plausible(body) && Complete(body)
  {
    Frame(TypeOf(body[1]), body[2], body[3], body[6..|body| - 2])
  }

  function Resync(b: Byte): Parser {
    if b == SYNC0 then HalfSync else Hunting
  }

  datatype Step = Step(next: Parser, out: Option<Frame>)

  function Next(p: Parser, b: Byte): Step {
    match p
    case Hunting => Step(Resync(b), None)
    case HalfSync => Step(if b == SYNC1 then Collecting([]) else Resync(b), None)
    case Collecting(body) =>
      var seen := body + [b];
      if !Plausible(seen) then Step(Resync(b), None)
      else if !Complete(seen) then Step(Collecting(seen), None)
      else if CrcMatches(seen) then Step(Hunting, Some(FrameOf(seen)))
      else Step(Resync(b), None)
  }

  function After(p: Parser, bytes: seq<Byte>): Parser {
    if bytes == [] then p
    else Next(After(p, bytes[..|bytes| - 1]), bytes[|bytes| - 1]).next
  }

  /** The frames delivered while the bytes arrive, in order. */
  function Received(p: Parser, bytes: seq<Byte>): seq<Frame> {
    if bytes == [] then []
    else
      var n := |bytes| - 1;
      Received(p, bytes[..n]) +
      match Next(After(p, bytes[..n]), bytes[n]).out
      case None => []
      case Some(f) => [f]
  }

  /** A parser between frames, or inside one that has neither failed nor ended. */
  predicate Sane(p: Parser) {
    p.Collecting? ==> Plausible(p.body) && !Complete(p.body) && !Overlong(p.body)
  }

  // ---- The incremental parser of the firmware ----

  datatype State = Sync0 | Sync1 | Version | Type | Seq | MsgId | LenLo | LenHi | Payload | CrcLo | CrcHi

  class FrameParser {
    var state: State
    var kind: FrameType
    var seqNo: Byte
    var msgId: Byte
    var payload: array<Byte>
    var expectedLen: nat
    var received: nat
    var crcLo: Byte
    var runningCrc: Reg
    ghost var body: seq<Byte>

    /** How many bytes the parser has collected since the sync pair. */
    ghost function Collected(): int
      reads this
    {
      match state
      case Sync0 => 0 case Sync1 => 0 case Version => 0
      case Type => 1 case Seq => 2 case MsgId => 3 case LenLo => 4 case LenHi => 5
      case Payload => 6 + received
      case CrcLo => 6 + expectedLen
      case CrcHi => 7 + expectedLen
    }

    ghost predicate Valid()
      reads this, payload
      ensures Valid() ==> payload.Length == MAX_PAYLOAD
    {
      && payload.Length == MAX_PAYLOAD
      && |body| == Collected()
      && Plausible(body)
      && (|body| >= 2 ==> kind == TypeOf(body[1]))
      && (|body| >= 3 ==> seqNo == body[2])
      && (|body| >= 4 ==> msgId == body[3])
      && (|body| == 5 ==> expectedLen == body[4] as int)
      && (|body| >= 6 ==> expectedLen == Announced(body))
      && (state == Payload ==> received < expectedLen && payload[..received] == body[6..])
      && (state == CrcLo ==> payload[..expectedLen] == body[6..])
      && (state == CrcHi ==> payload[..expectedLen] == body[6..|body| - 1] && crcLo == body[|body| - 1])
      && runningCrc == Crc(INITIAL, if state == CrcHi then body[..|body| - 1] else body)
    }

    ghost function Abs(): Parser
      reads this
    {
      if state == Sync0 then Hunting else if state == Sync1 then HalfSync else Collecting(body)
    }

    constructor ()
      ensures Valid() && Abs() == Hunting && fresh(payload)
    {
      CrcEmpty(INITIAL);
      state, expectedLen, received, crcLo, runningCrc, body := Sync0, 0, 0, 0, INITIAL, [];
      kind, seqNo, msgId := Request, 0, PING;
      payload := new Byte[MAX_PAYLOAD];
    }

    method Reset()
      requires payload.Length == MAX_PAYLOAD
      modifies this
      ensures Valid() && Abs() == Hunting && payload == old(payload)
    {
      CrcEmpty(INITIAL);
      state, expectedLen, received, runningCrc := Sync0, 0, 0, INITIAL;
      body := [];
    }

    method ResyncOn(b: Byte)
      requires payload.Length == MAX_PAYLOAD
      modifies this
      ensures Valid() && Abs() == Resync(b) && payload == old(payload)
    {
      Reset();
      if b == SYNC0 {
        state := Sync1;
      }
    }

    /** True when a frame has begun, even if only with half a sync pair. */
    function InProgress(): (r: bool)
      reads this
      ensures r <==> Abs() != Hunting
    {
      state != Sync0
    }

    method Feed(b: Byte) returns (out: Option<Frame>)
      requires Valid()
      modifies this, payload
      ensures Valid() && payload == old(payload)
      ensures Step(Abs(), out) == Next(old(Abs()), b)
    {
      hide Crc, CrcByte, Word, SameMajor, KnownType, TypeOf, GetU16, Complete, CrcMatches, FrameOf;
      out := None;
      match state
      case Sync0 =>
        if b == SYNC0 { state := Sync1; }
      case Sync1 =>
        state := if b == SYNC1 then Version else if b == SYNC0 then Sync1 else Sync0;
      case Version => FeedHeader(b);
      case Type => FeedHeader(b);
      case Seq => FeedHeader(b);
      case MsgId => FeedHeader(b);
      case LenLo => FeedLengthLo(b);
      case LenHi => FeedLengthHi(b);
      case Payload => FeedPayload(b);
      case CrcLo => FeedCrcLo(b);
      case CrcHi => out := FeedLast(b);
    }

    method FeedHeader(b: Byte)
      requires Valid()
      requires state == Version || state == Type || state == Seq || state == MsgId
      modifies this
      ensures Valid() && payload == old(payload)
      ensures Step(Abs(), None) == Next(old(Abs()), b)
    {
      hide Crc, CrcByte, Word, SameMajor, TypeOf;
      ghost var seen := body + [b];
      CrcAppend(INITIAL, body, b);
      assert seen[..|body|] == body;
      runningCrc := CrcByte(runningCrc, b);
      match state
      case Version =>
        if !SameMajor(b) { ResyncOn(b); return; }
        state, body := Type, seen;
      case Type =>
        if !KnownType(b) { ResyncOn(b); return; }
        kind := TypeOf(b);
        state, body := Seq, seen;
      case Seq =>
        seqNo := b;
        state, body := MsgId, seen;
      case MsgId =>
        msgId := b;
        state, body := LenLo, seen;
    }

    method FeedLengthLo(b: Byte)
      requires Valid() && state == LenLo
      modifies this
      ensures Valid() && payload == old(payload)
      ensures Step(Abs(), None) == Next(old(Abs()), b)
    {
      hide Crc, CrcByte, Word, SameMajor, TypeOf, KnownType;
      ghost var seen := body + [b];
      CrcAppend(INITIAL, body, b);
      runningCrc := CrcByte(runningCrc, b);
      expectedLen := b as int;
      state, body := LenHi, seen;
    }

    method FeedLengthHi(b: Byte)
      requires Valid() && state == LenHi
      modifies this
      ensures Valid() && payload == old(payload)
      ensures Step(Abs(), None) == Next(old(Abs()), b)
    {
      hide Crc, CrcByte, Word, SameMajor, TypeOf, KnownType;
      ghost var seen := body + [b];
      CrcAppend(INITIAL, body, b);
      runningCrc := CrcByte(runningCrc, b);
      expectedLen := expectedLen + 256 * (b as int);
      if expectedLen > MAX_PAYLOAD { ResyncOn(b); return; }
      received := 0;
      state, body := if expectedLen == 0 then CrcLo else Payload, seen;
    }

    method FeedPayload(b: Byte)
      requires Valid() && state == Payload
      modifies this, payload
      ensures Valid() && payload == old(payload)
      ensures Step(Abs(), None) == Next(old(Abs()), b)
    {
      hide Crc, CrcByte, Word, SameMajor, KnownType, TypeOf, GetU16;
      ghost var seen := body + [b];
      CrcAppend(INITIAL, body, b);
      assert seen[6..] == body[6..] + [b];
      runningCrc := CrcByte(runningCrc, b);
      payload[received] := b;
      received := received + 1;
      body := seen;
      if received == expectedLen { state := CrcLo; }
    }

    method FeedCrcLo(b: Byte)
      requires Valid() && state == CrcLo
      modifies this
      ensures Valid() && payload == old(payload)
      ensures Step(Abs(), None) == Next(old(Abs()), b)
    {
      hide Crc, CrcByte, Word, SameMajor, KnownType, TypeOf, GetU16;
      ghost var seen := body + [b];
      assert seen[..|body|] == body;
      crcLo := b;
      state, body := CrcHi, seen;
    }

    method FeedLast(b: Byte) returns (out: Option<Frame>)
      requires Valid() && state == CrcHi
      modifies this
      ensures Valid() && payload == old(payload)
      ensures Step(Abs(), out) == Next(old(Abs()), b)
    {
      hide Crc, CrcByte, Word, SameMajor, KnownType, TypeOf, GetU16;
      out := None;
      ghost var seen := body + [b];
      assert seen[..|seen| - 2] == body[..|body| - 1];
      assert seen[6..|seen| - 2] == body[6..|body| - 1];
      if runningCrc != Word(crcLo, b) { ResyncOn(b); return; }
      out := Some(Frame(kind, seqNo, msgId, payload[..expectedLen]));
      Reset();
    }
  }
}
