/** The one-millisecond control loop of the safety controller, with its latched fault. */
module SafetyMcu {
  import opened C1Link
  import opened Wrappers
  import opened Clock
  import opened Interlocks
  import opened CommandHandler
  import MC = MotorController
  import HP = HeaterPid
  import LM = LidModel
  import TP = TelemetryPublisher

  // ---- Specification ----

  datatype Mcu = Mcu(plant: Plant, input: Inputs, fault: FaultCode, tempOk: bool, lastValid: nat, ticks: nat)

  /** What the world contributes to one tick. The clock is the true time; the firmware sees it
      modulo 2^32. Between ticks the user may have moved the lid. */
  datatype World = World(now: nat, moves: seq<LM.LidMove>, reading: Option<int>, rpm: nat, stalled: bool,
                         scale: Option<int>, frames: seq<Frame>)

  datatype Ticked = Ticked(mcu: Mcu, replies: seq<Frame>, watts: real)

  function PowerOn(now: nat): Mcu {
    Mcu(Plant(MC.STANDSTILL, HP.OFF, LM.SHUT, 0), POWER_ON, NoFault, true, Ms(now), 0)
  }

  function EnterFault(m: Mcu, code: FaultCode): Mcu {
    m.(fault := code, plant := m.plant.(drive := m.plant.drive.Stop(), pid := m.plant.pid.Disable()))
  }

  /** Sensor readings are refreshed together, or not at all when the temperature is unreadable. */
  function Sample(m: Mcu, w: World): Mcu {
    match w.reading
    case None => m.(tempOk := false)
    case Some(t) =>
      m.(tempOk := true, input := Inputs(t, w.rpm, m.plant.lid.closed, m.plant.lid.locked, w.stalled))
  }

  function Sense(m: Mcu, w: World): Mcu {
    var s := Sample(m, w);
    if !s.tempOk && s.fault != SensorFailure then EnterFault(s, SensorFailure) else s
  }

  predicate CanClearFault(m: Mcu) {
    match m.fault
    case NoFault => true
    case LinkLost => true
    case MotorStall => true
    case SensorFailure => m.tempOk
    case Overtemp => m.input.temp < OVERTEMP_CUTOFF
  }

  predicate Acknowledges(f: Frame) {
    f.kind == Request && f.msgId == MOTOR_STOP && f.payload == []
  }

  function Receive(m: Mcu, f: Frame, now: nat, scale: Option<int>): Mcu {
    var heard := if f.kind == Request then m.(lastValid := Ms(now)) else m;
    var obeyed := heard.(plant := Handle(m.plant, f, m.input, m.fault != NoFault, scale).plant);
    if Acknowledges(f) && CanClearFault(m) then obeyed.(fault := NoFault) else obeyed
  }

  function ReplyTo(m: Mcu, f: Frame, scale: Option<int>): seq<Frame> {
    Attempt(Handle(m.plant, f, m.input, m.fault != NoFault, scale).reply)
  }

  /** Frames are handled in the order they arrive. */
  function Drain(m: Mcu, fs: seq<Frame>, now: nat, scale: Option<int>): Mcu {
    if fs == [] then m else Receive(Drain(m, fs[..|fs| - 1], now, scale), fs[|fs| - 1], now, scale)
  }

  function Replies(m: Mcu, fs: seq<Frame>, now: nat, scale: Option<int>): seq<Frame> {
    if fs == [] then []
    else Replies(m, fs[..|fs| - 1], now, scale) + ReplyTo(Drain(m, fs[..|fs| - 1], now, scale), fs[|fs| - 1], scale)
  }

  function Trip(m: Mcu): Mcu {
    if m.fault == NoFault && Evaluate(m.input) != NoFault then EnterFault(m, Evaluate(m.input)) else m
  }

  lemma DrainNothing(m: Mcu, now: nat, scale: Option<int>)
    ensures Drain(m, [], now, scale) == m && Replies(m, [], now, scale) == []
  {
  }

  lemma DrainMore(m: Mcu, fs: seq<Frame>, k: nat, now: nat, scale: Option<int>)
    requires k < |fs|
    ensures var before := Drain(m, fs[..k], now, scale);
            && Drain(m, fs[..k + 1], now, scale) == Receive(before, fs[k], now, scale)
            && Replies(m, fs[..k + 1], now, scale) == Replies(m, fs[..k], now, scale) + ReplyTo(before, fs[k], scale)
  {
    hide Receive, ReplyTo;
    assert fs[..k + 1][..k] == fs[..k];
  }

  predicate Active(m: Mcu) {
    m.plant.drive.Active() || m.plant.pid.enabled
  }

  function Supervise(m: Mcu, now: nat): Mcu {
    if m.fault == NoFault && Active(m) && Elapsed(Ms(now), m.lastValid) >= LINK_TIMEOUT_MS
    then EnterFault(m, LinkLost) else m
  }

  predicate Heating(m: Mcu) {
    m.fault == NoFault && m.plant.pid.enabled && m.input.lidClosed
  }

  /** The last part of a tick: cap the drive, run the heater, ramp. */
  function Actuate(m: Mcu): Mcu {
    var drive := m.plant.drive.EnforceCap(ContinuousCap(m.input)).Tick();
    var pid := if Heating(m) then m.plant.pid.Integrate(m.input.temp) else m.plant.pid;
    m.(plant := m.plant.(drive := drive, pid := pid))
  }

  function Moved(m: Mcu, w: World): Mcu {
    m.(plant := m.plant.(lid := LM.Moves(m.plant.lid, w.moves)), ticks := m.ticks + 1)
  }

  /** The state once the frames of a tick have been handled. */
  function Heard(m: Mcu, w: World): Mcu {
    Drain(Sense(Moved(m, w), w), w.frames, w.now, w.scale)
  }

  /** ... and once faults have been detected. */
  function Judged(m: Mcu, w: World): Mcu {
    Supervise(Trip(Heard(m, w)), w.now)
  }

  function Tick(m: Mcu, w: World): Ticked {
    var judged := Judged(m, w);
    Ticked(Actuate(judged),
           Replies(Sense(Moved(m, w), w), w.frames, w.now, w.scale),
           if Heating(judged) then judged.plant.pid.Watts(judged.input.temp) else 0.0)
  }

  // ---- Reports and measurements ----

  /** The fault a tick enters on sampling, if any; and the one it enters afterwards. */
  function SenseReport(m: Mcu, w: World): FaultCode {
    if w.reading == None && m.fault != SensorFailure then SensorFailure else NoFault
  }

  function ProtectReport(m: Mcu, now: nat): FaultCode {
    if m.fault == NoFault && Evaluate(m.input) != NoFault then Evaluate(m.input)
    else if Supervise(m, now) != m then LinkLost
    else NoFault
  }

  function Noted(p: TP.Publisher, code: FaultCode): TP.Publisher {
    if code == NoFault then p else TP.Report(p, code)
  }

  /** What a tick measures: the sampled inputs, the scale, and whether the heater is on. */
  function Measurements(m: Mcu, scale: Option<int>, watts: real): TelemetryData {
    TelemetryData(m.ticks % WRAP, m.input.temp, m.input.rpm, Grams(scale, m.plant.tare),
                  Flags(m.input.lidClosed, m.input.lidLocked, watts > 0.0, m.input.stalled))
  }

  /** Readings have the widths of the sensors' interfaces. */
  predicate Readable(input: Inputs) {
    -0x8000 <= input.temp < 0x8000 && input.rpm < 0x1_0000
  }

  /** What a tick hands to the publisher, and the publisher to the link. */
  function Publishes(m: Mcu, p: TP.Publisher, w: World, faultRoom: bool, dataRoom: bool): TP.Published
    requires Readable(Tick(m, w).mcu.input)
  {
    var noted := Noted(Noted(p, SenseReport(m, w)), ProtectReport(Heard(m, w), w.now));
    TP.Publish(noted, Measurements(Tick(m, w).mcu, w.scale, Tick(m, w).watts), w.now, faultRoom, dataRoom)
  }

  lemma TickReads(m: Mcu, w: World)
    requires Readable(m.input)
    requires -0x8000 <= (if w.reading.Some? then w.reading.value else 0) < 0x8000 && w.rpm < 0x1_0000
    ensures Readable(Tick(m, w).mcu.input)
  {
    hide Handle, Replies, ContinuousCap;
    DrainKeepsInput(Sense(Moved(m, w), w), w.frames, w.now, w.scale);
  }

  lemma {:induction false} DrainKeepsInput(m: Mcu, fs: seq<Frame>, now: nat, scale: Option<int>)
    ensures Drain(m, fs, now, scale).input == m.input && Drain(m, fs, now, scale).ticks == m.ticks
  {
    hide Handle;
    if fs != [] {
      DrainKeepsInput(m, fs[..|fs| - 1], now, scale);
    }
  }

  /** Every fault that a tick enters is handed to the publisher, and nothing else is. */
  lemma EnteredFaultIsReported(m: Mcu, w: World, p: TP.Publisher)
    ensures var noted := Noted(Noted(p, SenseReport(m, w)), ProtectReport(Heard(m, w), w.now));
            var sensed, judged := Sense(Moved(m, w), w), Judged(m, w);
            && (sensed.fault != m.fault ==> Noted(p, SenseReport(m, w)).pending == sensed.fault)
            && (judged.fault != Heard(m, w).fault ==> noted.pending == judged.fault)
            && (sensed.fault == m.fault && judged.fault == Heard(m, w).fault ==> noted == p)
  {
    hide Drain, ContinuousCap, Heard;
    EnterChangesFault(Heard(m, w), w.now);
  }

  lemma EnterChangesFault(m: Mcu, now: nat)
    ensures Supervise(Trip(m), now).fault == if ProtectReport(m, now) == NoFault then m.fault else ProtectReport(m, now)
    ensures ProtectReport(m, now) != NoFault ==> m.fault == NoFault
  {
  }

  // ---- The controller object ----

  class SafetyMcu {
    const motor: MC.MotorController
    const pid: HP.HeaterPid
    const lid: LM.LidModel
    const port: FramePort
    const handler: CommandHandler
    const publisher: TP.TelemetryPublisher
    var input: Inputs
    var fault: FaultCode
    var tempOk: bool
    var lastValid: nat
    var ticks: nat
    var heaterWatts: real

    ghost predicate Valid()
      reads this`input
    {
      && handler.port == port && handler.motor == motor && handler.pid == pid && handler.lid == lid
      && Readable(input)
    }

    ghost function Abs(): Mcu
      reads this, handler, motor, pid, lid
    {
      Mcu(Plant(motor.Abs(), pid.Abs(), lid.Abs(), handler.tare), input, fault, tempOk, lastValid, ticks)
    }

    constructor (now: nat)
      ensures Valid() && Abs() == PowerOn(now) && port.inbox == [] && port.outbox == [] && heaterWatts == 0.0
      ensures publisher.Abs() == TP.SILENT
      ensures fresh(motor) && fresh(pid) && fresh(lid) && fresh(port) && fresh(handler) && fresh(publisher)
    {
      var m := new MC.MotorController();
      var p := new HP.HeaterPid();
      var l := new LM.LidModel();
      var link := new FramePort();
      handler := new CommandHandler(link, m, p, l);
      publisher := new TP.TelemetryPublisher();
      motor, pid, lid, port := m, p, l, link;
      input, fault, tempOk, lastValid, ticks, heaterWatts := POWER_ON, NoFault, true, Ms(now), 0, 0.0;
    }

    method SampleInputs(reading: Option<int>, rpm: nat, stalled: bool) returns (ok: bool)
      modifies this`tempOk, this`input
      ensures ok == reading.Some? == tempOk
      ensures forall w: World :: w.reading == reading && w.rpm == rpm && w.stalled == stalled ==>
                Abs() == Sample(old(Abs()), w)
    {
      tempOk := reading.Some?;
      if !tempOk {
        return false;
      }
      input := Inputs(reading.value, rpm, lid.closed, lid.locked, stalled);
      return true;
    }

    method EnterFaultState(code: FaultCode)
      modifies this`fault, this`heaterWatts, motor, pid, publisher
      ensures Abs() == EnterFault(old(Abs()), code) && motor.duty == 0 && heaterWatts == 0.0
      ensures publisher.Abs() == TP.Report(old(publisher.Abs()), code)
    {
      fault := code;
      motor.Stop();
      pid.Disable();
      heaterWatts := 0.0;
      publisher.PublishFault(code);
    }

    /** The link's answers for the telemetry of this tick are parameters. */
    method Tick1ms(now: nat, reading: Option<int>, rpm: nat, stalled: bool, scale: Option<int>,
                   faultRoom: bool, dataRoom: bool)
      requires Valid()
      requires reading.Some? ==> -0x8000 <= reading.value < 0x8000
      requires rpm < 0x1_0000
      modifies this, handler, motor, pid, lid, port, publisher
      ensures Valid() && port.inbox == []
      ensures var w := World(now, [], reading, rpm, stalled, scale, old(port.inbox));
              var t := Tick(old(Abs()), w);
              && Abs() == t.mcu && heaterWatts == t.watts && motor.duty == motor.commanded
              && Readable(t.mcu.input)
              && var p := Publishes(old(Abs()), old(publisher.Abs()), w, faultRoom, dataRoom);
                 publisher.Abs() == p.publisher && port.outbox == old(port.outbox) + t.replies + p.frames
    {
      hide Sense, Drain, Replies, Trip, Supervise, Actuate, Heating, SenseReport, ProtectReport, Noted, Measurements, TP.Publish;
      ghost var w := World(now, [], reading, rpm, stalled, scale, port.inbox);
      ghost var m0 := Abs();
      TickReads(m0, w);
      ticks := ticks + 1;
      SenseInputs(w, reading, rpm, stalled);
      SameReport(m0, w);
      DrainPort(now, scale);
      assert Abs() == Heard(m0, w);
      Protect(now);
      Drive();
      PublishTelemetry(now, scale, faultRoom, dataRoom);
    }

    lemma SameReport(m: Mcu, w: World)
      ensures SenseReport(m, w) == SenseReport(Moved(m, w), w)
    {
    }

    method PublishTelemetry(now: nat, scale: Option<int>, faultRoom: bool, dataRoom: bool)
      requires Valid()
      modifies port`outbox, publisher
      ensures Readable(Abs().input)
      ensures var p := TP.Publish(old(publisher.Abs()), Measurements(old(Abs()), scale, old(heaterWatts)), now, faultRoom, dataRoom);
              publisher.Abs() == p.publisher && port.outbox == old(port.outbox) + p.frames
    {
      hide Grams, Flags, TP.Publish;
      var data := TelemetryData(ticks % WRAP, input.temp, input.rpm, Grams(scale, handler.tare),
                                Flags(input.lidClosed, input.lidLocked, heaterWatts > 0.0, input.stalled));
      var frames := publisher.MaybePublish(data, now, faultRoom, dataRoom);
      port.outbox := port.outbox + frames;
    }

    method SenseInputs(ghost w: World, reading: Option<int>, rpm: nat, stalled: bool)
      requires Valid() && w.reading == reading && w.rpm == rpm && w.stalled == stalled
      requires (reading.Some? ==> -0x8000 <= reading.value < 0x8000) && rpm < 0x1_0000
      modifies this`tempOk, this`input, this`fault, this`heaterWatts, motor, pid, publisher
      ensures Valid() && Abs() == Sense(old(Abs()), w)
      ensures publisher.Abs() == Noted(old(publisher.Abs()), SenseReport(old(Abs()), w))
    {
      var ok := SampleInputs(reading, rpm, stalled);
      if !ok && fault != SensorFailure {
        EnterFaultState(SensorFailure);
      }
    }

    method Protect(now: nat)
      requires Valid()
      modifies this`fault, this`heaterWatts, motor, pid, publisher
      ensures Valid() && Abs() == Supervise(Trip(old(Abs())), now)
      ensures publisher.Abs() == Noted(old(publisher.Abs()), ProtectReport(old(Abs()), now))
    {
      if fault == NoFault {
        var tripped := Evaluate(input);
        if tripped != NoFault {
          EnterFaultState(tripped);
        }
      }
      assert Abs() == Trip(old(Abs()));
      if fault == NoFault && (motor.Active() || pid.enabled) && Elapsed(Ms(now), lastValid) >= LINK_TIMEOUT_MS {
        EnterFaultState(LinkLost);
      }
    }

    method Drive()
      requires Valid()
      modifies this`heaterWatts, motor, pid
      ensures Valid() && Abs() == Actuate(old(Abs())) && motor.duty == motor.commanded
      ensures heaterWatts == if Heating(old(Abs())) then old(Abs()).plant.pid.Watts(old(Abs()).input.temp) else 0.0
    {
      motor.EnforceCap(ContinuousCap(input));
      var watts := 0.0;
      if fault == NoFault && pid.enabled && input.lidClosed {
        watts := pid.Update(input.temp);
      }
      heaterWatts := watts;
      motor.Tick1ms();
    }

    method DrainPort(now: nat, scale: Option<int>)
      requires Valid()
      modifies this`fault, this`lastValid, handler, motor, pid, lid, port
      ensures Valid() && port.inbox == []
      ensures Abs() == Drain(old(Abs()), old(port.inbox), now, scale)
      ensures port.outbox == old(port.outbox) + Replies(old(Abs()), old(port.inbox), now, scale)
    {
      hide Receive, ReplyTo, Drain, Replies, SafetyMcu.Abs;
      ghost var m0, fs, sent := Abs(), port.inbox, port.outbox;
      ghost var k: nat := 0;
      DrainNothing(m0, now, scale);
      var frame := port.Poll();
      while frame.Some?
        invariant Valid() && k <= |fs|
        invariant frame == if k < |fs| then Some(fs[k]) else None
        invariant port.inbox == if k < |fs| then fs[k + 1..] else []
        invariant Abs() == Drain(m0, fs[..k], now, scale)
        invariant port.outbox == sent + Replies(m0, fs[..k], now, scale)
        decreases |fs| - k
      {
        HandleFrame(frame.value, now, scale);
        DrainMore(m0, fs, k, now, scale);
        k := k + 1;
        frame := port.Poll();
      }
      assert fs[..k] == fs;
    }

    method HandleFrame(f: Frame, now: nat, scale: Option<int>)
      requires Valid()
      modifies this`fault, this`lastValid, handler, motor, pid, lid, port`outbox
      ensures Valid()
      ensures Abs() == Receive(old(Abs()), f, now, scale)
      ensures port.outbox == old(port.outbox) + ReplyTo(old(Abs()), f, scale)
    {
      hide Handle;
      if f.kind == Request {
        lastValid := Ms(now);
      }
      handler.HandleRequest(f, input, fault != NoFault, scale);
      var clearable := CanClear();
      if f.kind == Request && f.msgId == MOTOR_STOP && f.payload == [] && clearable {
        fault := NoFault;
      }
    }

    method CanClear() returns (ok: bool)
      ensures ok == CanClearFault(Abs())
    {
      ok := match fault
        case NoFault => true
        case LinkLost => true
        case MotorStall => true
        case SensorFailure => tempOk
        case Overtemp => input.temp < OVERTEMP_CUTOFF;
    }
  }
}
