/** Whose deadline it is: the link times the stretch in which its parser does not hunt, and a frame
    that begins inside such a stretch has only what is left of it. */
module LinkTiming {
  import opened Gf2
  import opened C1Link
  import opened Wrappers
  import opened FrameParser
  import opened Link

  /** A byte read, or a poll that finds nothing more to read. */
  datatype Moment =
    | ByteAt(b: Byte, now: nat)
    | ReadDryAt(now: nat)

  /** The receiver with the true times of the latest moment, of the latest moment that found the parser
      hunting, and of the first sync byte of the frame in progress; and whether that byte found the
      parser hunting, or came in a millisecond in which an earlier moment had. */
  datatype Ear = Ear(receiver: Receiver, clock: nat, huntedAt: nat, ownStart: nat, full: bool)

  const BOOT := Ear(Receiver(Hunting, 0), 0, 0, 0, true)

  function Listen(e: Ear, m: Moment): Ear {
    var huntedAt := if e.receiver.parser == Hunting then m.now else e.huntedAt;
    match m
    case ReadDryAt(now) => e.(receiver := DropLate(e.receiver, now), clock := now, huntedAt := huntedAt)
    case ByteAt(b, now) =>
      var r := Hear(e.receiver, b, now);
      if r.parser == HalfSync then Ear(r, now, huntedAt, now, huntedAt == now)
      else e.(receiver := r, clock := now, huntedAt := huntedAt)
  }

  /** The receiver after a run of moments, if their times never go back. */
  function Heard(ms: seq<Moment>): Option<Ear> {
    if ms == [] then Some(BOOT)
    else
      var before := Heard(ms[..|ms| - 1]);
      var m := ms[|ms| - 1];
      if before.Some? && before.value.clock <= m.now then Some(Listen(before.value, m)) else None
  }

  predicate Inv(e: Ear) {
    e.receiver.parser != Hunting ==>
      && e.receiver.since == e.huntedAt <= e.ownStart <= e.clock
      && (e.full <==> e.receiver.since == e.ownStart)
  }

  lemma ListenKeepsInv(e: Ear, m: Moment)
    requires Inv(e) && e.clock <= m.now
    ensures Inv(Listen(e, m))
  {
    hide Plausible, Complete, CrcMatches, FrameOf;
  }

  lemma {:induction false} RunKeepsInv(ms: seq<Moment>)
    requires Heard(ms).Some?
    ensures Inv(Heard(ms).value)
  {
    hide Listen, Inv;
    if ms == [] {
      BootInv();
    } else {
      var n := |ms| - 1;
      RunKeepsInv(ms[..n]);
      ListenKeepsInv(Heard(ms[..n]).value, ms[n]);
    }
  }

  lemma BootInv()
    ensures Inv(BOOT)
  {
  }

  /** On every run: the frame in progress has its full fifty milliseconds, counted from its own first
      sync byte, if and only if the parser was hunting when that byte came, or had been earlier in
      the same millisecond. Otherwise it inherits an earlier deadline. */
  lemma FullTimeExactly(ms: seq<Moment>)
    requires Heard(ms).Some? && Heard(ms).value.receiver.parser != Hunting
    ensures var e := Heard(ms).value;
            && e.receiver.since <= e.ownStart
            && ((forall now: nat :: e.ownStart <= now <= e.ownStart + FRAME_TIMEOUT_MS ==> DropLate(e.receiver, now) == e.receiver)
                <==> e.full)
            && (forall now: nat :: now > e.receiver.since + FRAME_TIMEOUT_MS <==> DropLate(e.receiver, now).parser == Hunting)
  {
    hide Heard;
    RunKeepsInv(ms);
    var e := Heard(ms).value;
    if !e.full {
      var late := e.ownStart + FRAME_TIMEOUT_MS;
      assert DropLate(e.receiver, late) != e.receiver;
    }
  }

  /** A frame whose version byte is replaced by a sync byte at 40 ms, and the frame that this sync byte
      begins. */
  const INHERITING: seq<Moment> :=
    [ByteAt(SYNC0, 0), ByteAt(SYNC1, 0), ReadDryAt(0), ByteAt(SYNC0, 40), ReadDryAt(40),
     ByteAt(SYNC1, 51), ByteAt(VERSION, 51), ByteAt(0x01, 51)]

  /** The second frame is dropped eleven milliseconds after it began. */
  lemma DeadlineIsInherited()
    ensures var e := Heard(INHERITING);
            && e.Some? && e.value.receiver == Receiver(Collecting([VERSION, 0x01]), 0)
            && e.value.ownStart == 40 && !e.value.full
            && DropLate(e.value.receiver, 51).parser == Hunting
  {
    hide Heard, Listen;
    FirstFrameRejected();
    SecondFrameBegins();
    assert INHERITING[..8] == INHERITING;
  }

  lemma NextMoment(k: nat, before: Ear, after: Ear)
    requires k < |INHERITING| && Heard(INHERITING[..k]) == Some(before) && before.clock <= INHERITING[k].now
    requires Listen(before, INHERITING[k]) == after
    ensures Heard(INHERITING[..k + 1]) == Some(after)
  {
    hide Listen;
    assert INHERITING[..k + 1][..k] == INHERITING[..k];
  }

  const FIRST := Ear(Receiver(Collecting([]), 0), 0, 0, 0, true)

  const REJECTED := Ear(Receiver(HalfSync, 0), 40, 0, 40, false)

  lemma FirstFrameRejected()
    ensures Heard(INHERITING[..5]) == Some(REJECTED)
  {
    hide Heard;
    HeardNothing();
    NextMoment(0, BOOT, Ear(Receiver(HalfSync, 0), 0, 0, 0, true));
    NextMoment(1, Ear(Receiver(HalfSync, 0), 0, 0, 0, true), FIRST);
    NextMoment(2, FIRST, FIRST);
    NotAVersion();
    hide Plausible;
    NextMoment(3, FIRST, REJECTED);
    NextMoment(4, REJECTED, REJECTED);
  }

  lemma HeardNothing()
    ensures Heard(INHERITING[..0]) == Some(BOOT)
  {
  }

  lemma NotAVersion()
    ensures !Plausible([] + [SYNC0])
  {
  }

  lemma HeaderSoFar()
    ensures Plausible([] + [VERSION]) && !Complete([] + [VERSION])
    ensures Plausible([VERSION] + [0x01]) && !Complete([VERSION] + [0x01])
  {
  }

  lemma SecondFrameBegins()
    requires Heard(INHERITING[..5]) == Some(REJECTED)
    ensures Heard(INHERITING[..8]) == Some(Ear(Receiver(Collecting([VERSION, 0x01]), 0), 51, 0, 40, false))
  {
    hide Heard;
    HeaderSoFar();
    hide Plausible, Complete;
    NextMoment(5, REJECTED, Ear(Receiver(Collecting([]), 0), 51, 0, 40, false));
    assert [] + [VERSION] == [VERSION] && [VERSION] + [0x01] == [VERSION, 0x01];
    NextMoment(6, Ear(Receiver(Collecting([]), 0), 51, 0, 40, false), Ear(Receiver(Collecting([VERSION]), 0), 51, 0, 40, false));
    NextMoment(7, Ear(Receiver(Collecting([VERSION]), 0), 51, 0, 40, false),
               Ear(Receiver(Collecting([VERSION, 0x01]), 0), 51, 0, 40, false));
  }
}
