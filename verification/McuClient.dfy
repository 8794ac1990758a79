/** The application's view of the safety controller: one request at a time, correlated by message
    id and sequence number, retried once, with a hard deadline, and heartbeats in between. */
module McuClient {
  import opened Gf2
  import opened C1Link
  import opened Wrappers
  import opened Clock
  import TS = TelemetryStore

  const RESPONSE_TIMEOUT_MS: nat := 50
  const REQUEST_DEADLINE_MS: nat := 150
  const HEARTBEAT_INTERVAL_MS: nat := 1000

  // ---- Specification ----

  /** Times are readings of the 32-bit clock; response is the reply not yet taken. */
  datatype Client = Client(nextSeq: Byte, pendingSeq: Byte, waiting: bool, pendingId: Byte, pendingPayload: seq<Byte>,
                           response: Option<Frame>, lastFault: Byte, sentAt: nat, startedAt: nat, retried: bool,
                           status: Status, lastTx: nat)

  const FRESH := Client(0, 0, false, PING, [], None, 0, 0, 0, false, Ok, 0)

  /** A client together with the frames it has just handed to the link. */
  datatype Sent = Sent(client: Client, queued: seq<Frame>)

  function GiveUp(c: Client): Client {
    c.(waiting := false, status := Timeout)
  }

  predicate Overdue(c: Client, now: nat) {
    c.waiting && Elapsed(Ms(now), c.startedAt) >= REQUEST_DEADLINE_MS
  }

  predicate Late(c: Client, now: nat) {
    c.waiting && SignedPositive(Elapsed(Elapsed(Ms(now), c.sentAt), RESPONSE_TIMEOUT_MS))
  }

  /** The request has timed out, or its retry has. */
  predicate GivesUp(c: Client, now: nat) {
    Overdue(c, now) || (Late(c, now) && c.retried)
  }

  function PendingFrame(c: Client, seqNo: Byte): Frame {
    Frame(Request, seqNo, c.pendingId, c.pendingPayload)
  }

  function Retried(c: Client, now: nat): Client {
    c.(nextSeq := Succ(c.nextSeq), pendingSeq := c.nextSeq, retried := true, sentAt := Ms(now), lastTx := Ms(now))
  }

  /** First stage of a poll: the deadline, then the retry. The link accepts a frame or not. */
  function Expire(c: Client, now: nat, accepted: bool): Sent {
    if GivesUp(c, now) then Sent(GiveUp(c), [])
    else if !Late(c, now) then Sent(c, [])
    else if !accepted then Sent(c, [])
    else Sent(Retried(c, now), [PendingFrame(c, c.nextSeq)])
  }

  predicate Completes(c: Client, f: Frame) {
    (f.kind == Response || f.kind == Nack) && c.waiting && f.msgId == c.pendingId && f.seqNo == c.pendingSeq
  }

  predicate ReportsFault(f: Frame) {
    f.kind == Telemetry && f.msgId == FAULT_MSG && |f.payload| == 1
  }

  /** Second stage: one received frame. */
  function Absorb(c: Client, f: Frame): Client {
    if ReportsFault(f) then c.(lastFault := f.payload[0])
    else if Completes(c, f) then
      c.(response := Some(f), waiting := false, status := if f.kind == Response then Ok else ProtocolError)
    else c
  }

  function AbsorbAll(c: Client, fs: seq<Frame>): Client {
    if fs == [] then c else Absorb(AbsorbAll(c, fs[..|fs| - 1]), fs[|fs| - 1])
  }

  predicate BeatDue(c: Client, now: nat) {
    !c.waiting && Elapsed(Ms(now), c.lastTx) >= HEARTBEAT_INTERVAL_MS
  }

  /** Last stage: an untracked ping when nothing else has been sent for a second. */
  function Heartbeat(c: Client, now: nat, accepted: bool): Sent {
    if !BeatDue(c, now) then Sent(c, [])
    else
      var d := c.(nextSeq := Succ(c.nextSeq));
      if accepted then Sent(d.(lastTx := Ms(now)), [Frame(Request, c.nextSeq, PING, [])]) else Sent(d, [])
  }

  function Poll(c: Client, now: nat, fs: seq<Frame>, retryAccepted: bool, beatAccepted: bool): Sent {
    var first := Expire(c, now, retryAccepted);
    var last := Heartbeat(AbsorbAll(first.client, fs), now, beatAccepted);
    Sent(last.client, first.queued + last.queued)
  }

  function RequestStatus(c: Client, payload: seq<Byte>, accepted: bool): Status {
    if c.waiting || c.response.Some? then NotReady
    else if |payload| > MAX_PAYLOAD then InvalidArgument
    else if !accepted then NotReady
    else Ok
  }

  /** A request takes the next sequence number, whether or not the link then has room for it. */
  function Numbered(c: Client): Client {
    c.(nextSeq := Succ(c.nextSeq), pendingSeq := c.nextSeq)
  }

  function Tracked(c: Client, id: Byte, payload: seq<Byte>, now: nat): Client {
    c.(waiting := true, pendingId := id, pendingPayload := payload, response := None,
       sentAt := Ms(now), startedAt := Ms(now), lastTx := Ms(now), retried := false, status := Ok)
  }

  function Ask(c: Client, id: Byte, payload: seq<Byte>, now: nat, accepted: bool): Sent {
    if c.waiting || c.response.Some? || |payload| > MAX_PAYLOAD then Sent(c, [])
    else if !accepted then Sent(Numbered(c), [])
    else Sent(Tracked(Numbered(c), id, payload, now), [Frame(Request, c.nextSeq, id, payload)])
  }

  function Take(c: Client): Client {
    c.(response := None)
  }

  function ClearStatus(c: Client): Client {
    c.(status := Ok)
  }

  function ClearFault(c: Client): Client {
    c.(lastFault := 0)
  }

  // ---- Telemetry ----

  predicate CarriesTelemetry(f: Frame) {
    f.kind == Telemetry && f.msgId == TELEMETRY_MSG && |f.payload| == TELEMETRY_PAYLOAD_SIZE
  }

  /** The sample in a telemetry frame, stamped with the time of its arrival. */
  function SampleOf(f: Frame, now: nat): TS.Sample
    requires CarriesTelemetry(f)
  {
    var d := DecodeTelemetry(f.payload);
    TS.Sample(Ms(now), d.temp, d.rpm, d.grams, d.flags as int)
  }

  function Store(samples: seq<TS.Sample>, f: Frame, now: nat): seq<TS.Sample> {
    if CarriesTelemetry(f) then TS.Keep(samples, SampleOf(f, now)) else samples
  }

  /** What the frames of a poll leave in the store. */
  function StoreAll(samples: seq<TS.Sample>, fs: seq<Frame>, now: nat): seq<TS.Sample> {
    if fs == [] then samples else Store(StoreAll(samples, fs[..|fs| - 1], now), fs[|fs| - 1], now)
  }

  /** What the controller has measured is what the store gets. */
  lemma MeasurementsArrive(samples: seq<TS.Sample>, d: TelemetryData, seqNo: Byte, now: nat)
    requires d.Fits()
    ensures Store(samples, Frame(Telemetry, seqNo, TELEMETRY_MSG, EncodeTelemetry(d)), now) ==
            TS.Keep(samples, TS.Sample(Ms(now), d.temp, d.rpm, d.grams, d.flags as int))
  {
    hide EncodeTelemetry, DecodeTelemetry, TS.Keep, Ms;
    TelemetryRoundTrip(d);
  }

  /** A fault that the controller reports is remembered as a fault. */
  lemma ReportIsRemembered(c: Client, code: FaultCode, seqNo: Byte)
    ensures Absorb(c, Frame(Telemetry, seqNo, FAULT_MSG, [FaultByte(code)])) == c.(lastFault := FaultByte(code))
    ensures Absorb(c, Frame(Telemetry, seqNo, FAULT_MSG, [FaultByte(code)])).lastFault == 0 <==> code == NoFault
  {
  }

  // ---- The client object ----

  /** The application's link: what has arrived, what has been queued, and whether the queue will
      have room for the next frames. */
  class AppPort {
    var inbox: seq<Frame>
    var outbox: seq<Frame>
    var room: seq<bool>
    var cancels: nat

    constructor ()
      ensures inbox == [] && outbox == [] && cancels == 0
    {
      inbox, outbox, room, cancels := [], [], [], 0;
    }

    predicate HasRoom()
      reads this
    {
      room != [] && room[0]
    }

    method Send(f: Frame) returns (status: Status)
      requires |f.payload| <= MAX_PAYLOAD
      modifies this`outbox, this`room
      ensures status == if old(HasRoom()) then Ok else NotReady
      ensures outbox == old(outbox) + if old(HasRoom()) then [f] else []
      ensures room == if old(room) == [] then [] else old(room)[1..]
    {
      status := if HasRoom() then Ok else NotReady;
      if status == Ok {
        outbox := outbox + [f];
      }
      room := if room == [] then [] else room[1..];
    }

    method CancelPendingTx()
      modifies this`cancels
      ensures cancels == old(cancels) + 1
    {
      cancels := cancels + 1;
    }

    method Receive() returns (f: Option<Frame>)
      modifies this`inbox
      ensures f == if old(inbox) == [] then None else Some(old(inbox)[0])
      ensures inbox == if old(inbox) == [] then [] else old(inbox)[1..]
    {
      if inbox == [] {
        return None;
      }
      f := Some(inbox[0]);
      inbox := inbox[1..];
    }
  }

  class McuClient {
    const port: AppPort
    const store: TS.TelemetryStore
    var nextSeq: Byte
    var pendingSeq: Byte
    var waiting: bool
    var pendingId: Byte
    var responseReady: bool
    var response: Frame
    var lastFault: Byte
    var sentAt: nat
    var startedAt: nat
    var retried: bool
    var pendingPayload: seq<Byte>
    var lastCommandStatus: Status
    var lastTx: nat

    ghost predicate Valid()
      reads this
    {
      |pendingPayload| <= MAX_PAYLOAD
    }

    ghost function Abs(): Client
      reads this
    {
      Client(nextSeq, pendingSeq, waiting, pendingId, pendingPayload, if responseReady then Some(response) else None,
             lastFault, sentAt, startedAt, retried, lastCommandStatus, lastTx)
    }

    constructor (port: AppPort, store: TS.TelemetryStore)
      ensures Valid() && this.port == port && this.store == store && Abs() == FRESH
    {
      this.port, this.store := port, store;
      nextSeq, pendingSeq, waiting, pendingId := 0, 0, false, PING;
      responseReady, response, lastFault := false, Frame(Request, 0, PING, []), 0;
      sentAt, startedAt, retried, pendingPayload := 0, 0, false, [];
      lastCommandStatus, lastTx := Ok, 0;
    }

    method PollLink(now: nat)
      requires Valid()
      modifies this, port, store
      ensures Valid() && port.inbox == []
      ensures store.samples == StoreAll(old(store.samples), old(port.inbox), now)
      ensures exists retryRoom, beatRoom ::
                var p := Poll(old(Abs()), now, old(port.inbox), retryRoom, beatRoom);
                Abs() == p.client && port.outbox == old(port.outbox) + p.queued
      ensures port.cancels == old(port.cancels) + if GivesUp(old(Abs()), now) then 1 else 0
    {
      hide Expire, Absorb, Heartbeat, StoreAll, GivesUp;
      ghost var c0, fs, sent := Abs(), port.inbox, port.outbox;
      ghost var retryRoom := port.HasRoom();
      ExpireOrRetry(now);
      ghost var first := Expire(c0, now, retryRoom);
      ReceiveAll(now);
      ghost var c1, beatRoom := Abs(), port.HasRoom();
      SendHeartbeat(now);
      ghost var p := Poll(c0, now, fs, retryRoom, beatRoom);
      assert sent + first.queued + Heartbeat(c1, now, beatRoom).queued == sent + p.queued;
    }

    method ExpireOrRetry(now: nat)
      requires Valid()
      modifies this, port`outbox, port`room, port`cancels
      ensures Valid()
      ensures var s := Expire(old(Abs()), now, old(port.HasRoom()));
              Abs() == s.client && port.outbox == old(port.outbox) + s.queued
      ensures port.cancels == old(port.cancels) + if GivesUp(old(Abs()), now) then 1 else 0
    {
      hide Elapsed, Ms, SignedPositive, Retried, PendingFrame;
      if waiting && Elapsed(Ms(now), startedAt) >= REQUEST_DEADLINE_MS {
        AbandonRequest();
      } else if waiting && SignedPositive(Elapsed(Elapsed(Ms(now), sentAt), RESPONSE_TIMEOUT_MS)) {
        if !retried {
          Retry(now);
        } else {
          AbandonRequest();
        }
      }
    }

    method Retry(now: nat)
      requires Valid()
      modifies this`nextSeq, this`pendingSeq, this`retried, this`sentAt, this`lastTx, port`outbox, port`room
      ensures Abs() == if old(port.HasRoom()) then Retried(old(Abs()), now) else old(Abs())
      ensures port.outbox == old(port.outbox) +
                             if old(port.HasRoom()) then [PendingFrame(old(Abs()), old(nextSeq))] else []
    {
      hide Succ, Ms;
      var retrySeq := nextSeq;
      var retryStatus := port.Send(Frame(Request, retrySeq, pendingId, pendingPayload));
      if retryStatus == Ok {
        nextSeq := Succ(nextSeq);
        pendingSeq := retrySeq;
        retried := true;
        sentAt := Ms(now);
        lastTx := sentAt;
      }
    }

    method AbandonRequest()
      modifies this`waiting, this`lastCommandStatus, port`cancels
      ensures Abs() == GiveUp(old(Abs())) && port.cancels == old(port.cancels) + 1
    {
      port.CancelPendingTx();
      waiting := false;
      lastCommandStatus := Timeout;
    }

    method ReceiveAll(now: nat)
      requires Valid()
      modifies this, port`inbox, store
      ensures Valid() && port.inbox == []
      ensures store.samples == StoreAll(old(store.samples), old(port.inbox), now)
      ensures Abs() == AbsorbAll(old(Abs()), old(port.inbox))
    {
      hide Elapsed, Ms, SignedPositive, Absorb, Store;
      ghost var c0, fs := Abs(), port.inbox;
      ghost var k: nat := 0;
      var next := port.Receive();
      while next.Some?
        invariant Valid() && k <= |fs|
        invariant next == if k < |fs| then Some(fs[k]) else None
        invariant port.inbox == if k < |fs| then fs[k + 1..] else []
        invariant Abs() == AbsorbAll(c0, fs[..k])
        invariant store.samples == StoreAll(old(store.samples), fs[..k], now)
        decreases |fs| - k
      {
        AbsorbFrame(next.value, now);
        assert fs[..k + 1][..k] == fs[..k];
        k := k + 1;
        next := port.Receive();
      }
      assert fs[..k] == fs;
    }

    method AbsorbFrame(frame: Frame, now: nat)
      requires Valid()
      modifies this, store
      ensures Valid() && Abs() == Absorb(old(Abs()), frame)
      ensures store.samples == Store(old(store.samples), frame, now)
    {
      hide TS.Keep, Ms, GetU16, GetI16, GetI32, GetU32;
      if frame.kind == Telemetry && frame.msgId == TELEMETRY_MSG && |frame.payload| == TELEMETRY_PAYLOAD_SIZE {
        var p := frame.payload;
        store.Append(TS.Sample(Ms(now), GetI16(p[4], p[5]), GetU16(p[6], p[7]), GetI32(p[8], p[9], p[10], p[11]), p[12] as int));
      } else if frame.kind == Telemetry && frame.msgId == FAULT_MSG && |frame.payload| == 1 {
        lastFault := frame.payload[0];
      } else if frame.kind == Response || frame.kind == Nack {
        if waiting && frame.msgId == pendingId && frame.seqNo == pendingSeq {
          response, responseReady := frame, true;
          waiting := false;
          lastCommandStatus := if frame.kind == Response then Ok else ProtocolError;
        }
      }
    }

    method SendHeartbeat(now: nat)
      requires Valid()
      modifies this, port`outbox, port`room
      ensures Valid()
      ensures var s := Heartbeat(old(Abs()), now, old(port.HasRoom()));
              Abs() == s.client && port.outbox == old(port.outbox) + s.queued
    {
      hide Succ, Elapsed, Ms, SignedPositive;
      if !waiting && Elapsed(Ms(now), lastTx) >= HEARTBEAT_INTERVAL_MS {
        var seqNo := nextSeq;
        nextSeq := Succ(nextSeq);
        var status := port.Send(Frame(Request, seqNo, PING, []));
        if status == Ok {
          lastTx := Ms(now);
        }
      }
    }

    method SendRequest(id: Byte, payload: seq<Byte>, now: nat) returns (status: Status)
      requires Valid()
      modifies this, port`outbox, port`room
      ensures Valid()
      ensures status == RequestStatus(old(Abs()), payload, old(port.HasRoom()))
      ensures var s := Ask(old(Abs()), id, payload, now, old(port.HasRoom()));
              Abs() == s.client && port.outbox == old(port.outbox) + s.queued
    {
      hide Numbered, Tracked;
      if waiting || responseReady {
        return NotReady;
      }
      if |payload| > MAX_PAYLOAD {
        return InvalidArgument;
      }
      var seqNo := TakeNumber();
      status := port.Send(Frame(Request, seqNo, id, payload));
      if status == Ok {
        Track(id, payload, now);
      }
    }

    method TakeNumber() returns (seqNo: Byte)
      modifies this`nextSeq, this`pendingSeq
      ensures Abs() == Numbered(old(Abs())) && seqNo == old(nextSeq)
    {
      hide Succ;
      seqNo := nextSeq;
      pendingSeq := seqNo;
      nextSeq := Succ(nextSeq);
    }

    method Track(id: Byte, payload: seq<Byte>, now: nat)
      requires |payload| <= MAX_PAYLOAD
      modifies this
      ensures Valid() && Abs() == Tracked(old(Abs()), id, payload, now)
    {
      hide Ms;
      waiting, pendingId, responseReady := true, id, false;
      sentAt := Ms(now);
      startedAt, lastTx := sentAt, sentAt;
      retried := false;
      lastCommandStatus := Ok;
      pendingPayload := payload;
    }

    method TakeResponse() returns (r: Option<Frame>)
      modifies this`responseReady
      ensures r == old(Abs()).response && Abs() == Take(old(Abs())) && (old(Valid()) ==> Valid())
    {
      if !responseReady {
        return None;
      }
      responseReady := false;
      return Some(response);
    }

    predicate AwaitingResponse()
      reads this
      ensures AwaitingResponse() == Abs().waiting
    {
      waiting
    }

    function LastCommandStatus(): (s: Status)
      reads this
      ensures s == Abs().status
    {
      lastCommandStatus
    }

    function LastFault(): (f: Byte)
      reads this
      ensures f == Abs().lastFault
    {
      lastFault
    }

    method ForgetCommandStatus()
      modifies this`lastCommandStatus
      ensures Abs() == ClearStatus(old(Abs())) && (old(Valid()) ==> Valid())
    {
      lastCommandStatus := Ok;
    }

    method ForgetFault()
      modifies this`lastFault
      ensures Abs() == ClearFault(old(Abs())) && (old(Valid()) ==> Valid())
    {
      lastFault := 0;
    }
  }
}
