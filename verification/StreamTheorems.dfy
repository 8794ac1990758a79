/** What the frame parser does to unbounded byte streams: chaining, soundness on arbitrary
    bytes, delivery of every well-formed frame, bounded recovery, and error detection. */
module StreamTheorems {
  import opened Gf2
  import opened Crc16
  import opened C1Link
  import opened Wrappers
  import opened FrameParser

  // ---- Chaining ----

  lemma FeedNothing(p: Parser)
    ensures After(p, []) == p && Received(p, []) == []
  {
  }

  lemma AfterAppend(p: Parser, a: seq<Byte>, b: Byte)
    ensures After(p, a + [b]) == Next(After(p, a), b).next
    ensures Received(p, a + [b]) == Received(p, a) + Delivered(Next(After(p, a), b))
  {
    hide Next;
    assert (a + [b])[..|a|] == a;
  }

  function Delivered(s: Step): seq<Frame> {
    match s.out
    case None => []
    case Some(f) => [f]
  }

  lemma {:induction false} AfterConcat(p: Parser, a: seq<Byte>, b: seq<Byte>)
    ensures After(p, a + b) == After(After(p, a), b)
  {
    hide Next;
    if b == [] {
      assert a + b == a;
    } else {
      var n := |b| - 1;
      assert (a + b)[..|a + b| - 1] == a + b[..n];
      AfterConcat(p, a, b[..n]);
    }
  }

  /** Feeding two pieces one after the other is feeding their concatenation. */
  lemma {:induction false} FeedConcat(p: Parser, a: seq<Byte>, b: seq<Byte>)
    ensures After(p, a + b) == After(After(p, a), b)
    ensures Received(p, a + b) == Received(p, a) + Received(After(p, a), b)
  {
    hide Next, After, Received, Delivered;
    AfterConcat(p, a, b);
    if b == [] {
      FeedNothing(After(p, a));
      assert a + b == a;
    } else {
      var n := |b| - 1;
      FeedConcat(p, a, b[..n]);
      AfterAppend(p, a + b[..n], b[n]);
      AfterAppend(After(p, a), b[..n], b[n]);
      assert a + b == (a + b[..n]) + [b[n]] && b == b[..n] + [b[n]];
    }
  }

  // ---- Soundness ----

  predicate EndsWith(s: seq<Byte>, suffix: seq<Byte>) {
    |suffix| <= |s| && s[|s| - |suffix|..] == suffix
  }

  /** A byte string that is a frame of this protocol, carrying f. */
  predicate WellFormed(wire: seq<Byte>, f: Frame) {
    && |f.payload| <= MAX_PAYLOAD
    && |wire| == HEADER_SIZE + |f.payload| + CRC_SIZE
    && wire[0] == SYNC0 && wire[1] == SYNC1
    && wire[2] & 0xF0 == 0x10
    && wire[3] == TypeByte(f.kind) && wire[4] == f.seqNo && wire[5] == f.msgId
    && GetU16(wire[6], wire[7]) == |f.payload|
    && wire[8..8 + |f.payload|] == f.payload
    && Crc(INITIAL, wire[2..8 + |f.payload|]) == Word(wire[|wire| - 2], wire[|wire| - 1])
  }

  /** The parser's state says what the latest bytes were. */
  predicate Explains(p: Parser, bytes: seq<Byte>) {
    match p
    case Hunting => true
    case HalfSync => EndsWith(bytes, [SYNC0])
    case Collecting(body) => EndsWith(bytes, [SYNC0, SYNC1] + body)
  }

  lemma SaneNext(p: Parser, b: Byte)
    requires Sane(p)
    ensures Sane(Next(p, b).next)
  {
    hide CrcMatches, SameMajor, KnownType, FrameOf, GetU16;
  }

  lemma ExplainsNext(p: Parser, bytes: seq<Byte>, b: Byte)
    requires Explains(p, bytes) && Sane(p)
    ensures Explains(Next(p, b).next, bytes + [b]) && Sane(Next(p, b).next)
  {
    hide CrcMatches, Complete, Plausible, FrameOf;
    SaneNext(p, b);
    if p == HalfSync && b == SYNC1 {
      assert (bytes + [b])[|bytes| - 1..] == [SYNC0, SYNC1] + [];
    }
    if p.Collecting? {
      var wire := [SYNC0, SYNC1] + p.body;
      assert (bytes + [b])[|bytes| - |wire|..] == wire + [b];
      assert wire + [b] == [SYNC0, SYNC1] + (p.body + [b]);
    }
  }

  lemma {:induction false} HistoryExplains(bytes: seq<Byte>)
    ensures Explains(After(Hunting, bytes), bytes) && Sane(After(Hunting, bytes))
  {
    hide Next;
    if bytes != [] {
      var n := |bytes| - 1;
      HistoryExplains(bytes[..n]);
      ExplainsNext(After(Hunting, bytes[..n]), bytes[..n], bytes[n]);
      assert bytes[..n] + [bytes[n]] == bytes;
    }
  }

  lemma TypeOfByte(b: Byte)
    requires KnownType(b)
    ensures TypeByte(TypeOf(b)) == b
  {
  }

  lemma TypeByteOf(t: FrameType)
    ensures KnownType(TypeByte(t)) && TypeOf(TypeByte(t)) == t
  {
  }

  lemma CompleteBodyIsWellFormed(body: seq<Byte>)
    requires Plausible(body) && Complete(body) && CrcMatches(body)
    ensures WellFormed([SYNC0, SYNC1] + body, FrameOf(body))
  {
    hide Crc, Word, KnownType, TypeOf, TypeByte, GetU16;
    TypeOfByte(body[1]);
    var wire, n := [SYNC0, SYNC1] + body, |body| - 8;
    assert wire[8..8 + n] == body[6..|body| - 2];
    assert wire[2..8 + n] == body[..|body| - 2];
  }

  /** On arbitrary input a delivered frame is exactly the bytes that have just arrived. */
  lemma {:induction false} ParserIsSound(bytes: seq<Byte>, b: Byte)
    requires Next(After(Hunting, bytes), b).out.Some?
    ensures var f := Next(After(Hunting, bytes), b).out.value;
            exists wire :: EndsWith(bytes + [b], wire) && WellFormed(wire, f)
  {
    hide Crc, CrcMatches, SameMajor, KnownType, WellFormed, FrameOf, GetU16;
    var p := After(Hunting, bytes);
    HistoryExplains(bytes);
    var wire := [SYNC0, SYNC1] + p.body;
    CompleteBodyIsWellFormed(p.body + [b]);
    assert (bytes + [b])[|bytes| - |wire|..] == wire + [b];
    assert wire + [b] == [SYNC0, SYNC1] + (p.body + [b]);
    assert EndsWith(bytes + [b], wire + [b]);
  }

  // ---- Delivery ----

  lemma PrefixIsPlausible(body: seq<Byte>, k: nat)
    requires Plausible(body) && Complete(body) && k < |body|
    ensures Plausible(body[..k]) && !Complete(body[..k])
  {
    hide SameMajor, KnownType, GetU16;
  }

  /** One byte inside a frame. */
  lemma CollectsOne(body: seq<Byte>, b: Byte)
    ensures Plausible(body + [b]) && !Complete(body + [b]) ==>
              Next(Collecting(body), b) == Step(Collecting(body + [b]), None)
    ensures Plausible(body + [b]) && Complete(body + [b]) ==>
              Next(Collecting(body), b) ==
                if CrcMatches(body + [b]) then Step(Hunting, Some(FrameOf(body + [b]))) else Step(Resync(b), None)
    ensures !Plausible(body + [b]) ==> Next(Collecting(body), b) == Step(Resync(b), None)
  {
    hide CrcMatches, FrameOf, Plausible, Complete, Resync;
  }

  /** Inside a frame the parser only collects. */
  lemma {:induction false} Collects(body: seq<Byte>, k: nat)
    requires Plausible(body) && Complete(body) && k < |body|
    ensures After(Collecting([]), body[..k]) == Collecting(body[..k])
    ensures Received(Collecting([]), body[..k]) == []
  {
    hide Plausible, Complete, Next;
    if k > 0 {
      Collects(body, k - 1);
      assert body[..k] == body[..k - 1] + [body[k - 1]];
      PrefixIsPlausible(body, k);
      CollectsOne(body[..k - 1], body[k - 1]);
      AfterAppend(Collecting([]), body[..k - 1], body[k - 1]);
    }
  }

  lemma CompleteIsNotEmpty(body: seq<Byte>)
    ensures Complete(body) ==> |body| >= 6 + CRC_SIZE
  {
  }

  /** What becomes of a frame is decided by its checksum, at its last byte. */
  lemma Judged(body: seq<Byte>)
    requires Plausible(body) && Complete(body)
    ensures Received(Collecting([]), body) == if CrcMatches(body) then [FrameOf(body)] else []
    ensures After(Collecting([]), body) == if CrcMatches(body) then Hunting else Resync(body[|body| - 1])
  {
    hide CrcMatches, Plausible, Complete, FrameOf, Next, Resync, After, Received;
    assert |body| > 0 by {
      CompleteIsNotEmpty(body);
    }
    var n := |body| - 1;
    Collects(body, n);
    assert body == body[..n] + [body[n]];
    CollectsOne(body[..n], body[n]);
    AfterAppend(Collecting([]), body[..n], body[n]);
  }

  predicate Idle(p: Parser) {
    p == Hunting || p == HalfSync
  }

  lemma SyncPair(p: Parser)
    requires Idle(p)
    ensures After(p, [SYNC0, SYNC1]) == Collecting([]) && Received(p, [SYNC0, SYNC1]) == []
  {
    assert [SYNC0, SYNC1] == [] + [SYNC0] + [SYNC1];
    AfterAppend(p, [], SYNC0);
    AfterAppend(p, [] + [SYNC0], SYNC1);
  }

  lemma WellFormedBody(wire: seq<Byte>, f: Frame)
    requires WellFormed(wire, f)
    ensures Plausible(wire[2..]) && Complete(wire[2..]) && CrcMatches(wire[2..]) && FrameOf(wire[2..]) == f
  {
    hide Crc, Word, KnownType, TypeOf, TypeByte, GetU16;
    var body := wire[2..];
    TypeByteOf(f.kind);
    assert body[..|body| - 2] == wire[2..8 + |f.payload|];
    assert body[6..|body| - 2] == f.payload;
  }

  /** Between frames, every well-formed frame is delivered, and on its last byte only. */
  lemma ParserIsComplete(p: Parser, wire: seq<Byte>, f: Frame)
    requires Idle(p) && WellFormed(wire, f)
    ensures Received(p, wire) == [f] && After(p, wire) == Hunting
    ensures forall k :: 0 <= k < |wire| ==> Received(p, wire[..k]) == []
  {
    hide Next, After, Received, WellFormed, Plausible, Complete, CrcMatches, FrameOf;
    WellFormedBody(wire, f);
    LengthOfWellFormed(wire, f);
    var body := wire[2..];
    assert wire == [SYNC0, SYNC1] + body;
    SyncPair(p);
    Judged(body);
    FeedConcat(p, [SYNC0, SYNC1], body);
    forall k | 0 <= k < |wire|
      ensures Received(p, wire[..k]) == []
    {
      if k < 2 {
        FeedConcat(p, wire[..k], wire[k..2]);
        assert wire[..k] + wire[k..2] == [SYNC0, SYNC1];
      } else {
        assert wire[..k] == [SYNC0, SYNC1] + body[..k - 2];
        FeedConcat(p, [SYNC0, SYNC1], body[..k - 2]);
        Collects(body, k - 2);
      }
    }
  }

  /** The byte goes on a frame that is still being collected, or ends one that is good. */
  predicate TakenIn(p: Parser, b: Byte) {
    p.Collecting? && Plausible(p.body + [b]) && (Complete(p.body + [b]) ==> CrcMatches(p.body + [b]))
  }

  /** After any bytes at all, a well-formed frame is delivered unless its first byte goes on another one: a
      byte that spoils a frame may begin the next. */
  lemma DeliveredUnlessTakenIn(before: seq<Byte>, wire: seq<Byte>, f: Frame)
    requires WellFormed(wire, f) && !TakenIn(After(Hunting, before), SYNC0)
    ensures Received(Hunting, before + wire) == Received(Hunting, before) + [f]
    ensures After(Hunting, before + wire) == Hunting
  {
    hide After, Received, WellFormed, Plausible, Complete, CrcMatches, FrameOf;
    var p := After(Hunting, before);
    LengthOfWellFormed(wire, f);
    assert wire == [SYNC0] + wire[1..];
    FeedOne(p, SYNC0);
    FeedOne(HalfSync, SYNC0);
    FeedConcat(p, [SYNC0], wire[1..]);
    FeedConcat(HalfSync, [SYNC0], wire[1..]);
    ParserIsComplete(HalfSync, wire, f);
    FeedConcat(Hunting, before, wire);
  }

  lemma FeedOne(p: Parser, b: Byte)
    ensures After(p, [b]) == Next(p, b).next && Received(p, [b]) == Delivered(Next(p, b))
  {
    hide Next;
    FeedNothing(p);
    AfterAppend(p, [], b);
    assert [] + [b] == [b];
  }

  lemma LengthOfWellFormed(wire: seq<Byte>, f: Frame)
    requires WellFormed(wire, f)
    ensures |wire| >= HEADER_SIZE + CRC_SIZE && wire[0] == SYNC0 && wire[1] == SYNC1
  {
  }

  lemma VersionIsCurrent()
    ensures SameMajor(VERSION) && VERSION & 0xF0 == 0x10
  {
  }

  /** The writer produces well-formed frames. */
  lemma EncodeIsWellFormed(f: Frame)
    requires |f.payload| <= MAX_PAYLOAD
    ensures WellFormed(Encode(f), f)
  {
    hide Crc, Word, Lo, Hi, SameMajor, TypeByte, LowByte, HighByte, GetU16;
    VersionIsCurrent();
    var n := |f.payload|;
    U16RoundTrip(n);
    var wire, covered := Encode(f), Covered(f);
    assert wire[2] == VERSION;
    assert wire[2..8 + n] == covered;
    assert wire[8..8 + n] == f.payload;
    WordOfHalves(Crc(INITIAL, covered));
  }

  // ---- Noise ----

  predicate Noise(s: seq<Byte>) {
    forall i :: 0 <= i < |s| - 1 ==> !(s[i] == SYNC0 && s[i + 1] == SYNC1)
  }

  /** Bytes without a sync pair never start a frame. */
  lemma {:induction false} NoiseIsIgnored(s: seq<Byte>)
    requires Noise(s)
    ensures Received(Hunting, s) == []
    ensures After(Hunting, s) == if s == [] then Hunting else Resync(s[|s| - 1])
  {
    if s != [] {
      var n := |s| - 1;
      NoiseIsIgnored(s[..n]);
      assert s == s[..n] + [s[n]];
      AfterAppend(Hunting, s[..n], s[n]);
    }
  }

  /** A frame marked with the noise that comes before it. */
  type Burst = Marked<seq<Byte>>

  predicate Clean(bursts: seq<Burst>) {
    forall i :: 0 <= i < |bursts| ==> Noise(bursts[i].mark) && |bursts[i].frame.payload| <= MAX_PAYLOAD
  }

  function Stream(bursts: seq<Burst>): seq<Byte>
    requires Clean(bursts)
  {
    if bursts == [] then []
    else
      var last := bursts[|bursts| - 1];
      Stream(bursts[..|bursts| - 1]) + (last.mark + Encode(last.frame))
  }

  lemma BurstDelivered(b: Burst, k: nat)
    requires Noise(b.mark) && |b.frame.payload| <= MAX_PAYLOAD && k <= |Encode(b.frame)|
    ensures Received(Hunting, b.mark + Encode(b.frame)[..k]) == if k < |Encode(b.frame)| then [] else [b.frame]
    ensures After(Hunting, b.mark + Encode(b.frame)) == Hunting
  {
    hide Next, WellFormed, Noise, Encode;
    NoiseIsIgnored(b.mark);
    EncodeIsWellFormed(b.frame);
    var p, wire := After(Hunting, b.mark), Encode(b.frame);
    ParserIsComplete(p, wire, b.frame);
    FeedConcat(Hunting, b.mark, wire[..k]);
    FeedConcat(Hunting, b.mark, wire);
    assert wire[..|wire|] == wire;
  }

  /** Frames separated by noise arrive exactly, in order, whatever bytes they carry; while one
      is on its way, nothing but its predecessors has been delivered. */
  lemma {:induction false} StreamRoundTrip(bursts: seq<Burst>)
    requires Clean(bursts)
    ensures Received(Hunting, Stream(bursts)) == Frames(bursts)
    ensures After(Hunting, Stream(bursts)) == Hunting
  {
    hide Next, Encode, Noise, Frames;
    if bursts == [] {
      FramesMore(bursts);
    } else {
      hide Received, After;
      var n := |bursts| - 1;
      var last := bursts[n];
      StreamRoundTrip(bursts[..n]);
      BurstDelivered(last, |Encode(last.frame)|);
      assert Encode(last.frame)[..|Encode(last.frame)|] == Encode(last.frame);
      FeedConcat(Hunting, Stream(bursts[..n]), last.mark + Encode(last.frame));
      FramesMore(bursts);
    }
  }

  lemma StreamTiming(bursts: seq<Burst>, next: Burst, k: nat)
    requires Clean(bursts) && Noise(next.mark) && |next.frame.payload| <= MAX_PAYLOAD
    requires k <= |Encode(next.frame)|
    ensures Received(Hunting, Stream(bursts) + (next.mark + Encode(next.frame)[..k]))
         == Frames(bursts) + if k < |Encode(next.frame)| then [] else [next.frame]
  {
    hide Next, Encode, Noise, Frames;
    StreamRoundTrip(bursts);
    BurstDelivered(next, k);
    FeedConcat(Hunting, Stream(bursts), next.mark + Encode(next.frame)[..k]);
  }

  lemma FrameDelivered(before: seq<Byte>, f: Frame)
    requires After(Hunting, before) == Hunting && |f.payload| <= MAX_PAYLOAD
    ensures Received(Hunting, before + Encode(f)) == Received(Hunting, before) + [f]
    ensures After(Hunting, before + Encode(f)) == Hunting
  {
    hide Next, After, Received, Encode, WellFormed;
    EncodeIsWellFormed(f);
    ParserIsComplete(Hunting, Encode(f), f);
    FeedConcat(Hunting, before, Encode(f));
  }

  /** Back-to-back frames, as the transmit queue sends them: any prefix of their bytes yields a
      prefix of the frames, and all of the bytes yield all of them. */
  lemma {:induction false} EncodeAllRoundTrip(fs: seq<Frame>)
    requires Sendable(fs)
    ensures Received(Hunting, EncodeAll(fs)) == fs && After(Hunting, EncodeAll(fs)) == Hunting
  {
    hide Next, Encode, After, Received;
    if fs == [] {
      FeedNothing(Hunting);
    } else {
      var n := |fs| - 1;
      EncodeAllRoundTrip(fs[..n]);
      FrameDelivered(EncodeAll(fs[..n]), fs[n]);
    }
  }

  lemma PrefixOfStream(fs: seq<Frame>, bytes: seq<Byte>)
    requires Sendable(fs) && bytes <= EncodeAll(fs)
    ensures Received(Hunting, bytes) <= fs
  {
    hide Next, EncodeAll;
    var rest := EncodeAll(fs)[|bytes|..];
    assert bytes + rest == EncodeAll(fs);
    FeedConcat(Hunting, bytes, rest);
    EncodeAllRoundTrip(fs);
  }

  // ---- Bounded recovery ----

  /** A frame that never completes cannot hold the parser: among any 258 bytes after a sync
      pair there is one that sends it back to hunting. */
  lemma Recovers(bytes: seq<Byte>)
    requires |bytes| == MAX_FRAME_SIZE - 2
    ensures exists k :: 0 < k <= |bytes| && Idle(After(Collecting([]), bytes[..k]))
  {
    hide Next, After;
    if forall k :: 0 < k <= |bytes| ==> !Idle(After(Collecting([]), bytes[..k])) {
      KeepsCollecting(bytes, |bytes|);
    }
  }

  lemma {:induction false} KeepsCollecting(bytes: seq<Byte>, n: nat)
    requires n <= |bytes|
    requires forall k :: 0 < k <= n ==> !Idle(After(Collecting([]), bytes[..k]))
    ensures After(Collecting([]), bytes[..n]) == Collecting(bytes[..n])
    ensures Sane(Collecting(bytes[..n])) && n < MAX_FRAME_SIZE - 2
  {
    hide CrcMatches, Plausible, Complete, FrameOf, Next, Sane, After;
    if n == 0 {
      assert bytes[..0] == [];
      FeedNothing(Collecting([]));
      NothingIsSane();
    } else {
      KeepsCollecting(bytes, n - 1);
      assert bytes[..n] == bytes[..n - 1] + [bytes[n - 1]];
      AfterAppend(Collecting([]), bytes[..n - 1], bytes[n - 1]);
      SaneNext(Collecting(bytes[..n - 1]), bytes[n - 1]);
      CollectsOne(bytes[..n - 1], bytes[n - 1]);
      SaneIsShort(bytes[..n]);
    }
  }

  lemma NothingIsSane()
    ensures Sane(Collecting([]))
  {
  }

  lemma SaneIsShort(body: seq<Byte>)
    requires Sane(Collecting(body))
    ensures |body| < MAX_FRAME_SIZE - 2
  {
    hide SameMajor, KnownType, GetU16;
  }

  // ---- Error detection ----

  /** Only the bytes at p and p + 1 may differ. */
  predicate DifferWithin(a: seq<Byte>, b: seq<Byte>, p: nat) {
    |a| == |b| && forall i :: 0 <= i < |a| && i != p && i != p + 1 ==> a[i] == b[i]
  }

  /** The checksum tells apart messages that differ within two neighbouring bytes. */
  lemma CrcSeparates(a: seq<Byte>, b: seq<Byte>, p: nat)
    requires DifferWithin(a, b, p) && a != b && p < |a|
    ensures Crc(INITIAL, a) != Crc(INITIAL, b)
  {
    hide Crc, CrcByte;
    if Crc(INITIAL, a) == Crc(INITIAL, b) {
      if p + 1 < |a| {
        assert a == a[..p] + [a[p], a[p + 1]] + a[p + 2..];
        assert b == a[..p] + [b[p], b[p + 1]] + a[p + 2..];
        CrcDetectsPair(INITIAL, a[..p], a[p], a[p + 1], b[p], b[p + 1], a[p + 2..]);
      } else {
        assert a == a[..p] + [a[p]] + [] && b == a[..p] + [b[p]] + [];
        CrcDetectsByte(INITIAL, a[..p], a[p], b[p], []);
      }
    }
  }

  lemma BodyJudged(body: seq<Byte>)
    requires Plausible(body) && Complete(body)
    ensures Received(Hunting, [SYNC0, SYNC1] + body) == if CrcMatches(body) then [FrameOf(body)] else []
    ensures !CrcMatches(body) ==> Idle(After(Hunting, [SYNC0, SYNC1] + body))
  {
    hide Next, After, Received, Plausible, Complete, CrcMatches, FrameOf;
    SyncPair(Hunting);
    Judged(body);
    FeedConcat(Hunting, [SYNC0, SYNC1], body);
  }

  /** The one change that straddles message and checksum and goes unnoticed: of the last payload byte
      and of the checksum's first byte together. */
  predicate Unnoticed(was: seq<Byte>, altered: seq<Byte>) {
    |was| == |altered| >= 3 &&
    var n := |was| - CRC_SIZE;
    altered[n - 1] == Change(was[n - 1], 0x89) && altered[n] == Change(was[n], 0xA1)
  }

  /** A good body altered within two neighbouring bytes. */
  lemma AlteredBody(was: seq<Byte>, body: seq<Byte>, q: nat)
    requires Plausible(was) && Complete(was) && CrcMatches(was)
    requires DifferWithin(body, was, q) && body != was
    requires body[4] == was[4] && body[5] == was[5] && SameMajor(body[0]) && KnownType(body[1])
    ensures Plausible(body) && Complete(body) && (CrcMatches(body) <==> Unnoticed(was, body))
  {
    hide Crc, Word, SameMajor, KnownType, GetU16, Change;
    var n := |was| - 2;
    ChangeMeans(was[n - 1], body[n - 1], 0x89);
    ChangeMeans(was[n], body[n], 0xA1);
    if body[..n] == was[..n] {
      assert body[n - 1] == body[..n][n - 1] == was[..n][n - 1] == was[n - 1];
      HalvesOfWord(body[n], body[n + 1]);
      HalvesOfWord(was[n], was[n + 1]);
      assert body == body[..n] + [body[n], body[n + 1]] && was == was[..n] + [was[n], was[n + 1]];
      NoChange(was[n - 1]);
    } else if q == n - 1 {
      StraddledBody(was, body);
    } else {
      CrcSeparates(body[..n], was[..n], q);
      NoChange(was[n]);
    }
  }

  lemma NoChange(a: Byte)
    ensures Change(a, 0x89) != a && Change(a, 0xA1) != a
  {
    hide Change;
    ChangeMeans(a, a, 0x89);
    ChangeMeans(a, a, 0xA1);
  }

  lemma StraddledBody(was: seq<Byte>, body: seq<Byte>)
    requires |was| >= 3 && DifferWithin(body, was, |was| - 3) && body[|was| - 3] != was[|was| - 3]
    requires CrcMatches(was)
    ensures CrcMatches(body) <==> Unnoticed(was, body)
  {
    hide Crc, Word, Change, Cancel;
    var n := |was| - 2;
    var head := was[..n - 1];
    assert was[..n] == head + [was[n - 1]] && body[..n] == head + [body[n - 1]];
    StraddlingChange(INITIAL, head, was[n - 1], body[n - 1], was[n], body[n], was[n + 1]);
    CancelMeans(Change(was[n - 1], body[n - 1]), Change(was[n], body[n]));
    ChangeMeans(was[n - 1], body[n - 1], 0x89);
    ChangeMeans(was[n], body[n], 0xA1);
  }

  lemma CancelMeans(e: Byte, d: Byte)
    ensures e != 0 ==> (Cancel(e, d) <==> e == 0x89 && d == 0xA1)
  {
  }

  /** Altering one byte or two neighbouring bytes of a written frame - flags, type (to another known
      type), sequence number, message id, payload, checksum, or the last payload byte together with the
      checksum's first - makes the parser reject it and return to hunting, but for one change. */
  lemma {:induction false} CorruptionDetected(f: Frame, wire: seq<Byte>, p: nat)
    requires |f.payload| <= MAX_PAYLOAD
    requires DifferWithin(wire, Encode(f), p) && wire != Encode(f)
    requires wire[0] == Encode(f)[0] && wire[1] == Encode(f)[1]
    requires wire[6] == Encode(f)[6] && wire[7] == Encode(f)[7]
    requires SameMajor(wire[2]) && KnownType(wire[3])
    ensures !Unnoticed(Encode(f), wire) ==> Received(Hunting, wire) == [] && Idle(After(Hunting, wire))
    ensures Unnoticed(Encode(f), wire) ==>
              && f.payload != []
              && Received(Hunting, wire) ==
                 [f.(payload := f.payload[|f.payload| - 1 := Change(f.payload[|f.payload| - 1], 0x89)])]
  {
    hide Next, After, Received, WellFormed, Encode, Plausible, Complete, CrcMatches, SameMajor, KnownType, FrameOf, Change;
    var good := Encode(f);
    var body, was := wire[2..], good[2..];
    EncodeIsWellFormed(f);
    WellFormedBody(good, f);
    LengthOfWellFormed(good, f);
    WireOfBody(good);
    assert wire == [SYNC0, SYNC1] + body && good == [SYNC0, SYNC1] + was;
    AlteredBody(was, body, if p < 2 then 0 else p - 2);
    assert Unnoticed(good, wire) <==> Unnoticed(was, body);
    BodyJudged(body);
    if Unnoticed(was, body) {
      UnnoticedFrame(was, body, if p < 2 then 0 else p - 2);
    }
  }

  lemma WireOfBody(wire: seq<Byte>)
    requires |wire| >= 2 && Plausible(wire[2..]) && Complete(wire[2..])
    ensures |wire| >= HEADER_SIZE + CRC_SIZE
  {
    hide SameMajor, KnownType;
  }

  /** The frame that an unnoticed change delivers instead. */
  lemma UnnoticedFrame(was: seq<Byte>, body: seq<Byte>, q: nat)
    requires Plausible(was) && Complete(was) && Plausible(body) && Complete(body)
    requires DifferWithin(body, was, q) && Unnoticed(was, body) && body[4] == was[4] && body[5] == was[5]
    ensures var f := FrameOf(was);
            && f.payload != []
            && FrameOf(body) == f.(payload := f.payload[|f.payload| - 1 := Change(f.payload[|f.payload| - 1], 0x89)])
  {
    hide SameMajor, KnownType, GetU16, Change, TypeOf;
    var n := |was| - 2;
    NoChange(was[n - 1]);
    NoChange(was[n]);
    assert q == n - 1;
    assert n > 6;
    assert body[6..n] == was[6..n][n - 7 := body[n - 1]];
  }

  /** That change, made to a written frame. */
  function PassingChange(wire: seq<Byte>): (altered: seq<Byte>)
    requires |wire| >= 3
    ensures |altered| == |wire| && Unnoticed(wire, altered)
  {
    var n := |wire| - CRC_SIZE;
    wire[n - 1 := Change(wire[n - 1], 0x89)][n := Change(wire[n], 0xA1)]
  }

  /** Every frame with a payload has one: the protocol cannot promise more. */
  lemma OneChangePasses(f: Frame)
    requires 0 < |f.payload| <= MAX_PAYLOAD
    ensures var wire := PassingChange(Encode(f));
            && wire != Encode(f) && DifferWithin(wire, Encode(f), |wire| - 3)
            && |Received(Hunting, wire)| == 1 && Received(Hunting, wire)[0] != f
  {
    hide Received, After, WellFormed, Encode, SameMajor, KnownType, Change, Crc, Word;
    var good := Encode(f);
    var wire, last := PassingChange(good), f.payload[|f.payload| - 1];
    NoChange(good[|good| - 3]);
    NoChange(last);
    EncodeIsWellFormed(f);
    HeaderIsGood(good, f);
    CorruptionDetected(f, wire, |wire| - 3);
  }

  lemma HeaderIsGood(wire: seq<Byte>, f: Frame)
    requires WellFormed(wire, f)
    ensures |wire| == HEADER_SIZE + |f.payload| + CRC_SIZE && SameMajor(wire[2]) && KnownType(wire[3])
  {
    TypeByteOf(f.kind);
  }
}
