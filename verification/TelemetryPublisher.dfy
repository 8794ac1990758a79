/** What the safety controller reports without being asked: a fault as soon as the link takes it, and
    its measurements every ten milliseconds. */
module TelemetryPublisher {
  import opened Gf2
  import opened C1Link
  import opened Clock

  const PERIOD_MS: nat := 10

  // ---- Specification ----

  /** The report still to be sent, the next sequence number and the time of the last measurements. */
  datatype Publisher = Publisher(pending: FaultCode, seqNo: Byte, lastPublish: nat)

  const SILENT := Publisher(NoFault, 0, 0)

  datatype Published = Published(publisher: Publisher, frames: seq<Frame>)

  function Report(p: Publisher, code: FaultCode): Publisher {
    p.(pending := code)
  }

  function FaultFrame(seqNo: Byte, code: FaultCode): Frame {
    Frame(Telemetry, seqNo, FAULT_MSG, [FaultByte(code)])
  }

  function DataFrame(seqNo: Byte, d: TelemetryData): Frame
    requires d.Measured()
  {
    Frame(Telemetry, seqNo, TELEMETRY_MSG, EncodeTelemetry(d))
  }

  function SendFault(p: Publisher, room: bool): Published {
    if p.pending == NoFault || !room then Published(p, [])
    else Published(p.(pending := NoFault, seqNo := Succ(p.seqNo)), [FaultFrame(p.seqNo, p.pending)])
  }

  function SendData(p: Publisher, d: TelemetryData, now: nat, room: bool): Published
    requires d.Measured()
  {
    if Elapsed(Ms(now), p.lastPublish) < PERIOD_MS || !room then Published(p, [])
    else Published(p.(seqNo := Succ(p.seqNo), lastPublish := Ms(now)), [DataFrame(p.seqNo, d)])
  }

  /** A report that cannot be sent holds the measurements back. */
  function Publish(p: Publisher, d: TelemetryData, now: nat, faultRoom: bool, dataRoom: bool): Published
    requires d.Measured()
  {
    var first := SendFault(p, faultRoom);
    if first.publisher.pending != NoFault then first
    else
      var second := SendData(first.publisher, d, now, dataRoom);
      Published(second.publisher, first.frames + second.frames)
  }

  // ---- Runs ----

  datatype Event =
    | Reported(code: FaultCode)
    | PublishedAt(data: TelemetryData, now: nat, faultRoom: bool, dataRoom: bool)

  /** A publisher with everything it has sent, and the true times of its measurements. */
  datatype Trace = Trace(publisher: Publisher, sent: seq<Frame>, stamps: seq<nat>, clock: nat)

  predicate Possible(t: Trace, e: Event) {
    e.PublishedAt? ==> t.clock <= e.now && e.data.Measured()
  }

  function Advance(t: Trace, e: Event): Trace
    requires Possible(t, e)
  {
    match e
    case Reported(code) => t.(publisher := Report(t.publisher, code))
    case PublishedAt(d, now, faultRoom, dataRoom) =>
      var p := Publish(t.publisher, d, now, faultRoom, dataRoom);
      Trace(p.publisher, t.sent + p.frames,
            if HasData(p.frames) then t.stamps + [now] else t.stamps, now)
  }

  predicate HasData(fs: seq<Frame>) {
    exists i :: 0 <= i < |fs| && fs[i].msgId == TELEMETRY_MSG
  }

  predicate AllPossible(es: seq<Event>)
    decreases |es|, 0
  {
    es == [] || (AllPossible(es[..|es| - 1]) && Possible(After(es[..|es| - 1]), es[|es| - 1]))
  }

  function After(es: seq<Event>): Trace
    requires AllPossible(es)
    decreases |es|, 1
  {
    if es == [] then Trace(SILENT, [], [], 0) else Advance(After(es[..|es| - 1]), es[|es| - 1])
  }

  predicate Numbered(sent: seq<Frame>) {
    forall i :: 0 <= i < |sent| ==> Genuine(sent[i]) && sent[i].seqNo == LowByte(i)
  }

  /** Telemetry; and a fault report names a fault. */
  predicate Genuine(f: Frame) {
    f.kind == Telemetry && (f.msgId == FAULT_MSG ==> |f.payload| == 1 && f.payload[0] != 0)
  }

  predicate Paced(stamps: seq<nat>) {
    forall i :: 0 < i < |stamps| ==> stamps[i - 1] + PERIOD_MS <= stamps[i]
  }

  predicate Inv(t: Trace) {
    && Numbered(t.sent) && t.publisher.seqNo == LowByte(|t.sent|)
    && Paced(t.stamps)
    && (t.stamps != [] ==>
          t.publisher.lastPublish == Ms(t.stamps[|t.stamps| - 1]) && t.stamps[|t.stamps| - 1] <= t.clock)
  }

  lemma NextNumber(n: nat)
    ensures Succ(LowByte(n)) == LowByte(n + 1)
  {
    hide LowByte;
    LowByteValue(n);
    LowByteDependsOnResidue(LowByte(n) as int + 1, n + 1);
  }

  lemma PublishShape(p: Publisher, d: TelemetryData, now: nat, faultRoom: bool, dataRoom: bool)
    requires d.Measured()
    ensures var q := Publish(p, d, now, faultRoom, dataRoom);
            && |q.frames| <= 2
            && (forall i :: 0 <= i < |q.frames| ==> Genuine(q.frames[i]))
            && (|q.frames| > 0 ==> q.frames[0].seqNo == p.seqNo)
            && (|q.frames| > 1 ==> q.frames[1].seqNo == Succ(p.seqNo))
            && q.publisher.seqNo == (if |q.frames| == 0 then p.seqNo
                                     else if |q.frames| == 1 then Succ(p.seqNo) else Succ(Succ(p.seqNo)))
            && (HasData(q.frames) ==> Elapsed(Ms(now), p.lastPublish) >= PERIOD_MS && q.publisher.lastPublish == Ms(now))
            && (!HasData(q.frames) ==> q.publisher.lastPublish == p.lastPublish)
  {
    hide Elapsed, Ms, EncodeTelemetry, FaultByte, Succ;
    var q := Publish(p, d, now, faultRoom, dataRoom);
    var first := SendFault(p, faultRoom);
    if first.publisher.pending == NoFault {
      var second := SendData(first.publisher, d, now, dataRoom);
      if second.frames != [] {
        assert q.frames[|first.frames|].msgId == TELEMETRY_MSG;
      }
    }
  }

  lemma AdvanceKeepsInv(t: Trace, e: Event)
    requires Inv(t) && Possible(t, e)
    ensures Inv(Advance(t, e))
  {
    hide Publish, Elapsed, Ms, Succ, LowByte, HasData, Genuine;
    if e.PublishedAt? {
      PublishShape(t.publisher, e.data, e.now, e.faultRoom, e.dataRoom);
      NextNumber(|t.sent|);
      NextNumber(|t.sent| + 1);
      if t.stamps != [] {
        ElapsedNeverOverstates(e.now, t.stamps[|t.stamps| - 1]);
      }
    }
  }

  /** On every run, whatever the link refuses: what is sent is numbered without gaps, no fault report has
      code zero, and measurements are at least ten true milliseconds apart. */
  lemma {:induction false} NumberedAndPaced(es: seq<Event>)
    requires AllPossible(es)
    ensures Inv(After(es))
  {
    hide Advance, Possible, Inv;
    if es == [] {
      SilentInv();
    } else {
      NumberedAndPaced(es[..|es| - 1]);
      AdvanceKeepsInv(After(es[..|es| - 1]), es[|es| - 1]);
    }
  }

  lemma SilentInv()
    ensures Inv(Trace(SILENT, [], [], 0))
  {
  }

  /** Attempts at publishing for which the link has no room for a report. */
  function Refused(p: Publisher, tries: seq<(TelemetryData, nat, bool)>): Publisher
    requires forall i :: 0 <= i < |tries| ==> tries[i].0.Measured()
  {
    if tries == [] then p
    else
      var (d, now, dataRoom) := tries[|tries| - 1];
      Publish(Refused(p, tries[..|tries| - 1]), d, now, false, dataRoom).publisher
  }

  /** A report is never lost: however often the link refuses it, it is the first frame to go out, with
      its own code, unless a later report replaces it. */
  lemma {:induction false} ReportIsSent(p: Publisher, code: FaultCode, tries: seq<(TelemetryData, nat, bool)>,
                                        d: TelemetryData, now: nat, dataRoom: bool)
    requires code != NoFault && d.Measured()
    requires forall i :: 0 <= i < |tries| ==> tries[i].0.Measured()
    ensures var waiting := Refused(Report(p, code), tries);
            var q := Publish(waiting, d, now, true, dataRoom);
            && waiting == Report(p, code)
            && q.frames != [] && q.frames[0] == FaultFrame(p.seqNo, code) && q.publisher.pending == NoFault
  {
    hide Elapsed, Ms, EncodeTelemetry, FaultByte, Succ;
    if tries != [] {
      ReportIsSent(p, code, tries[..|tries| - 1], d, now, dataRoom);
    }
  }

  // ---- The publisher object ----

  class TelemetryPublisher {
    var pending: FaultCode
    var seqNo: Byte
    var lastPublish: nat

    ghost function Abs(): Publisher
      reads this
    {
      Publisher(pending, seqNo, lastPublish)
    }

    constructor ()
      ensures Abs() == SILENT
    {
      pending, seqNo, lastPublish := NoFault, 0, 0;
    }

    method PublishFault(code: FaultCode)
      modifies this`pending
      ensures Abs() == Report(old(Abs()), code)
    {
      pending := code;
    }

    /** The frames handed to the link, which has room for a report and for measurements or not. */
    method MaybePublish(d: TelemetryData, now: nat, faultRoom: bool, dataRoom: bool) returns (frames: seq<Frame>)
      requires d.Measured()
      modifies this
      ensures var p := Publish(old(Abs()), d, now, faultRoom, dataRoom);
              Abs() == p.publisher && frames == p.frames
    {
      hide Elapsed, Ms, Succ, EncodeTelemetry, FaultByte;
      frames := [];
      if pending != NoFault {
        if !faultRoom {
          return;
        }
        frames := [FaultFrame(seqNo, pending)];
        seqNo := Succ(seqNo);
        pending := NoFault;
      }
      if Elapsed(Ms(now), lastPublish) < PERIOD_MS {
        return;
      }
      if dataRoom {
        var payload := new Byte[TELEMETRY_PAYLOAD_SIZE];
        ghost var blank := payload[..];
        StoreTelemetry(d, payload, 0);
        SpliceAll(blank, EncodeTelemetry(d));
        frames := frames + [Frame(Telemetry, seqNo, TELEMETRY_MSG, payload[..])];
        seqNo := Succ(seqNo);
        lastPublish := Ms(now);
      }
    }
  }
}
