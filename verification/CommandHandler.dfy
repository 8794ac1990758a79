/** Dispatch of the application's requests on the safety controller. Every request is answered by
    exactly one frame that echoes it, and while a fault is latched nothing but stopping, switching
    off and identification is obeyed. */
module CommandHandler {
  import opened Gf2
  import opened C1Link
  import opened Wrappers
  import opened Interlocks
  import opened MC = MotorController
  import HP = HeaterPid
  import LM = LidModel

  // ---- Specification ----

  /** What commands act on. */
  datatype Plant = Plant(drive: Drive, pid: HP.Pid, lid: LM.Lid, tare: int)

  datatype Handled = Handled(plant: Plant, reply: Option<Frame>)

  function Reply(f: Frame, payload: seq<Byte>): Option<Frame> {
    Some(Frame(Response, f.seqNo, f.msgId, payload))
  }

  function Refusal(f: Frame): Option<Frame> {
    Some(Frame(Nack, f.seqNo, f.msgId, []))
  }

  predicate AllowedWhileFaulted(msgId: Byte) {
    msgId == MOTOR_STOP || msgId == HEATER_OFF || msgId == PING || msgId == GET_VERSION
  }

  /** Grams on the scale, ten counts to the gram, truncated towards zero. */
  function Grams(raw: Option<int>, tare: int): int {
    match raw
    case None => 0
    case Some(r) => if r >= tare then (r - tare) / 10 else -((tare - r) / 10)
  }

  function SetMotor(p: Plant, f: Frame, input: Inputs): Handled {
    if |f.payload| != 3 then Handled(p, Refusal(f))
    else
      var bounded := Min(GetU16(f.payload[0], f.payload[1]), MAX_RPM);
      var ramp := f.payload[2];
      if ramp > RAMP_BURST then Handled(p, Refusal(f))
      else if ramp == RAMP_BURST then
        if !input.lidLocked || input.temp > SPILL_GUARD_TEMP then Handled(p, Refusal(f))
        else Handled(p.(drive := p.drive.Burst(bounded)), Reply(f, PutU16(bounded)))
      else
        var allowed := ClampSpeedRequest(bounded, input);
        Handled(p.(drive := p.drive.SetTarget(allowed, ramp)), Reply(f, PutU16(allowed)))
  }

  function SetHeater(p: Plant, f: Frame): Handled {
    if |f.payload| != 2 then Handled(p, Refusal(f))
    else
      var target := GetI16(f.payload[0], f.payload[1]);
      if target < HEATER_MIN_TARGET || target > HEATER_MAX_TARGET then Handled(p, Refusal(f))
      else Handled(p.(pid := p.pid.SetTarget(target)), Reply(f, []))
  }

  function Obey(p: Plant, f: Frame, input: Inputs, scale: Option<int>): Handled {
    var empty := f.payload == [];
    if f.msgId == MOTOR_SET_TARGET then SetMotor(p, f, input)
    else if f.msgId == HEATER_SET_TARGET then SetHeater(p, f)
    else if !empty then Handled(p, Refusal(f))
    else if f.msgId == PING then Handled(p, Reply(f, []))
    else if f.msgId == GET_VERSION then Handled(p, Reply(f, [0, 9, 0]))
    else if f.msgId == MOTOR_STOP then Handled(p.(drive := p.drive.Stop()), Reply(f, []))
    else if f.msgId == HEATER_OFF then Handled(p.(pid := p.pid.Disable()), Reply(f, []))
    else if f.msgId == SCALE_TARE then
      if input.rpm > TARE_MAX_RPM || scale == None then Handled(p, Refusal(f))
      else Handled(p.(tare := scale.value), Reply(f, []))
    else if f.msgId == SCALE_READ then Handled(p, Reply(f, PutI32(Grams(scale, p.tare))))
    else if f.msgId == LID_LOCK then
      var lid := p.lid.SetLock(true);
      Handled(p.(lid := lid), Reply(f, [if lid.locked then 1 else 0]))
    else if f.msgId == LID_UNLOCK then
      if input.rpm >= UNLOCK_MAX_RPM then Handled(p, Refusal(f))
      else Handled(p.(lid := p.lid.SetLock(false)), Reply(f, []))
    else Handled(p, Refusal(f))
  }

  /** The requests that have a handler. */
  const HANDLED: seq<Byte> :=
    [PING, GET_VERSION, MOTOR_SET_TARGET, MOTOR_STOP, HEATER_SET_TARGET, HEATER_OFF, SCALE_TARE, SCALE_READ,
     LID_LOCK, LID_UNLOCK]

  lemma UnknownIsRefused(p: Plant, f: Frame, input: Inputs, scale: Option<int>)
    requires forall j :: 0 <= j < |HANDLED| ==> HANDLED[j] != f.msgId
    ensures Obey(p, f, input, scale) == Handled(p, Refusal(f))
  {
    hide SetMotor, SetHeater, Grams;
    assert HANDLED[0] == PING && HANDLED[1] == GET_VERSION && HANDLED[2] == MOTOR_SET_TARGET;
    assert HANDLED[3] == MOTOR_STOP && HANDLED[4] == HEATER_SET_TARGET && HANDLED[5] == HEATER_OFF;
    assert HANDLED[6] == SCALE_TARE && HANDLED[7] == SCALE_READ && HANDLED[8] == LID_LOCK && HANDLED[9] == LID_UNLOCK;
  }

  function Handle(p: Plant, f: Frame, input: Inputs, faulted: bool, scale: Option<int>): Handled {
    if f.kind != Request then Handled(p, None)
    else if faulted && !AllowedWhileFaulted(f.msgId) then Handled(p, Refusal(f))
    else Obey(p, f, input, scale)
  }

  // ---- What the specification promises ----

  predicate Echoes(reply: Frame, request: Frame) {
    && (reply.kind == Response || reply.kind == Nack)
    && reply.seqNo == request.seqNo && reply.msgId == request.msgId
    && |reply.payload| <= 4
  }

  /** One echoing reply per request, none to anything else, and a refusal changes nothing. */
  lemma OneReplyPerRequest(p: Plant, f: Frame, input: Inputs, faulted: bool, scale: Option<int>)
    ensures var h := Handle(p, f, input, faulted, scale);
            && (h.reply.Some? <==> f.kind == Request)
            && (h.reply.Some? ==> Echoes(h.reply.value, f))
            && (h.reply.None? || h.reply.value.kind == Nack ==> h.plant == p)
  {
    hide GetU16, GetI16, ClampSpeedRequest, Grams;
  }

  /** While a fault is latched no request sets an output, moves the lock or changes the tare. */
  lemma FaultGate(p: Plant, f: Frame, input: Inputs, scale: Option<int>)
    ensures var q := Handle(p, f, input, true, scale).plant;
            && (q.drive == p.drive || q.drive == p.drive.Stop())
            && (q.pid == p.pid || q.pid == HP.OFF)
            && q.lid == p.lid && q.tare == p.tare
  {
  }

  /** A request that makes the drive or the heater active is a well-formed set-target request
      (or the drive was active already), and the heater's target is a legal one. */
  lemma OnlySetTargetActivates(p: Plant, f: Frame, input: Inputs, faulted: bool, scale: Option<int>)
    ensures var q := Handle(p, f, input, faulted, scale).plant;
            && (q.drive.Active() && !p.drive.Active() ==> !faulted && f.kind == Request && f.msgId == MOTOR_SET_TARGET)
            && (q.pid.enabled && !p.pid.enabled ==> !faulted && f.kind == Request && f.msgId == HEATER_SET_TARGET)
            && (q.pid.enabled && q.pid != p.pid ==> HEATER_MIN_TARGET <= q.pid.target <= HEATER_MAX_TARGET)
  {
    hide GetU16, ClampSpeedRequest, Grams;
  }

  /** A granted heater request switches the loop on with the requested temperature as its target. */
  lemma HeaterTargetIsRequested(p: Plant, f: Frame, input: Inputs, scale: Option<int>)
    requires f.kind == Request && f.msgId == HEATER_SET_TARGET
    ensures var h := Handle(p, f, input, false, scale);
            h.reply.Some? && h.reply.value.kind == Response ==>
              && |f.payload| == 2 && h.plant.pid.enabled && h.plant.pid.target == GetI16(f.payload[0], f.payload[1])
              && h.plant == p.(pid := h.plant.pid) && h.reply.value.payload == []
  {
    hide GetI16;
  }

  /** Identification: both are answered, faulted or not, and change nothing. */
  lemma Identifies(p: Plant, f: Frame, input: Inputs, faulted: bool, scale: Option<int>)
    requires f.kind == Request && f.payload == [] && (f.msgId == PING || f.msgId == GET_VERSION)
    ensures Handle(p, f, input, faulted, scale) ==
            Handled(p, Some(Frame(Response, f.seqNo, f.msgId, if f.msgId == PING then [] else [0, 9, 0])))
  {
  }

  /** When a request is granted, command by command, as the message catalogue has it. */
  predicate Grantable(f: Frame, input: Inputs, scale: Option<int>) {
    if f.msgId == MOTOR_SET_TARGET then
      |f.payload| == 3 && f.payload[2] <= RAMP_BURST &&
      (f.payload[2] == RAMP_BURST ==> input.lidLocked && input.temp <= SPILL_GUARD_TEMP)
    else if f.msgId == HEATER_SET_TARGET then
      |f.payload| == 2 && HEATER_MIN_TARGET <= GetI16(f.payload[0], f.payload[1]) <= HEATER_MAX_TARGET
    else
      f.msgId in HANDLED && f.payload == []
      && (f.msgId == SCALE_TARE ==> input.rpm <= TARE_MAX_RPM && scale.Some?)
      && (f.msgId == LID_UNLOCK ==> input.rpm < UNLOCK_MAX_RPM)
  }

  /** A request is granted if and only if its conditions hold and no fault bars it. */
  lemma GrantedExactly(p: Plant, f: Frame, input: Inputs, faulted: bool, scale: Option<int>)
    requires f.kind == Request
    ensures var reply := Handle(p, f, input, faulted, scale).reply;
            reply.Some? && (reply.value.kind == Response <==>
                              Grantable(f, input, scale) && (faulted ==> AllowedWhileFaulted(f.msgId)))
  {
    hide GetU16, GetI16, ClampSpeedRequest, Grams, PutI32;
    if f.msgId in HANDLED {
      var i :| 0 <= i < |HANDLED| && HANDLED[i] == f.msgId;
    } else {
      UnknownIsRefused(p, f, input, scale);
      assert HANDLED[2] == MOTOR_SET_TARGET && HANDLED[4] == HEATER_SET_TARGET;
    }
  }

  /** The scale reports what has been added since the tare, to less than a gram, and nothing right
      after it. */
  lemma ScaleCountsFromTare(p: Plant, tare: Frame, read: Frame, input: Inputs, tared: int, raw: int)
    requires tare.kind == Request && tare.msgId == SCALE_TARE && tare.payload == [] && input.rpm <= TARE_MAX_RPM
    requires read.kind == Request && read.msgId == SCALE_READ && read.payload == []
    requires -0x4000_0000 <= tared < 0x4000_0000 && -0x4000_0000 <= raw < 0x4000_0000
    ensures var q := Handle(p, tare, input, false, Some(tared)).plant;
            var reply := Handle(q, read, input, false, Some(raw)).reply;
            && reply.Some? && reply.value.kind == Response && |reply.value.payload| == 4
            && (var s := reply.value.payload;
                var grams := GetI32(s[0], s[1], s[2], s[3]);
                -10 < (raw - tared) - 10 * grams < 10 && (raw == tared ==> grams == 0))
  {
    hide PutI32, GetI32;
    I32RoundTrip(Grams(Some(raw), tared));
  }

  /** The reply to a lock request says whether the lid is locked, which it is exactly when it is
      shut. */
  lemma LockReplyIsHonest(p: Plant, f: Frame, input: Inputs, scale: Option<int>)
    requires f.kind == Request && f.msgId == LID_LOCK && f.payload == [] && p.lid.Valid()
    ensures var h := Handle(p, f, input, false, scale);
            && h.reply == Reply(f, [if h.plant.lid.locked then 1 else 0])
            && h.plant.lid.closed == p.lid.closed && (h.plant.lid.locked <==> p.lid.closed)
  {
  }

  // ---- The handler object ----

  /** The link as the control logic sees it: frames to read and the replies handed over. */
  class FramePort {
    var inbox: seq<Frame>
    var outbox: seq<Frame>

    constructor ()
      ensures inbox == [] && outbox == []
    {
      inbox, outbox := [], [];
    }

    method Poll() returns (f: Option<Frame>)
      modifies this`inbox
      ensures f == if old(inbox) == [] then None else Some(old(inbox)[0])
      ensures inbox == if old(inbox) == [] then [] else old(inbox)[1..]
    {
      if inbox == [] {
        return None;
      }
      f := Some(inbox[0]);
      inbox := inbox[1..];
    }

    method Send(f: Frame)
      modifies this`outbox
      ensures outbox == old(outbox) + [f]
    {
      outbox := outbox + [f];
    }
  }

  function Attempt(reply: Option<Frame>): seq<Frame> {
    match reply
    case None => []
    case Some(f) => [f]
  }

  class CommandHandler {
    const port: FramePort
    const motor: MC.MotorController
    const pid: HP.HeaterPid
    const lid: LM.LidModel
    var tare: int

    ghost function Abs(): Plant
      reads this, motor, pid, lid
    {
      Plant(motor.Abs(), pid.Abs(), lid.Abs(), tare)
    }

    constructor (port: FramePort, motor: MC.MotorController, pid: HP.HeaterPid, lid: LM.LidModel)
      ensures this.port == port && this.motor == motor && this.pid == pid && this.lid == lid
      ensures tare == 0
    {
      this.port, this.motor, this.pid, this.lid, tare := port, motor, pid, lid, 0;
    }

    method Respond(f: Frame, payload: seq<Byte>)
      modifies port`outbox
      ensures port.outbox == old(port.outbox) + Attempt(Reply(f, payload))
    {
      port.Send(Frame(Response, f.seqNo, f.msgId, payload));
    }

    method Refuse(f: Frame)
      modifies port`outbox
      ensures port.outbox == old(port.outbox) + Attempt(Refusal(f))
    {
      port.Send(Frame(Nack, f.seqNo, f.msgId, []));
    }

    method HandleMotorSetTarget(f: Frame, input: Inputs)
      modifies port`outbox, motor
      ensures Abs() == SetMotor(old(Abs()), f, input).plant
      ensures port.outbox == old(port.outbox) + Attempt(SetMotor(old(Abs()), f, input).reply)
    {
      if |f.payload| != 3 {
        Refuse(f);
        return;
      }
      var requested := GetU16(f.payload[0], f.payload[1]);
      var bounded := if requested > MAX_RPM then MAX_RPM else requested;
      var ramp := f.payload[2];
      if ramp > RAMP_BURST {
        Refuse(f);
        return;
      }
      if ramp == RAMP_BURST {
        if !input.lidLocked || input.temp > SPILL_GUARD_TEMP {
          Refuse(f);
          return;
        }
        motor.Burst(bounded);
        Respond(f, PutU16(bounded));
        return;
      }
      var allowed := ClampSpeedRequest(bounded, input);
      motor.SetTarget(allowed, ramp);
      Respond(f, PutU16(allowed));
    }

    method HandleHeaterSetTarget(f: Frame)
      modifies port`outbox, pid
      ensures Abs() == SetHeater(old(Abs()), f).plant
      ensures port.outbox == old(port.outbox) + Attempt(SetHeater(old(Abs()), f).reply)
    {
      if |f.payload| != 2 {
        Refuse(f);
        return;
      }
      var target := GetI16(f.payload[0], f.payload[1]);
      if target < HEATER_MIN_TARGET || target > HEATER_MAX_TARGET {
        Refuse(f);
        return;
      }
      pid.SetTarget(target);
      Respond(f, []);
    }

    /** The handlers of the requests that take no payload. */
    method HandleEmpty(f: Frame, input: Inputs, scale: Option<int>)
      requires f.msgId in HANDLED && f.msgId != MOTOR_SET_TARGET && f.msgId != HEATER_SET_TARGET
      modifies this`tare, port`outbox, motor, pid, lid
      ensures Abs() == Obey(old(Abs()), f, input, scale).plant
      ensures port.outbox == old(port.outbox) + Attempt(Obey(old(Abs()), f, input, scale).reply)
    {
      hide SetMotor, SetHeater, Grams;
      if f.payload != [] {
        Refuse(f);
      } else if f.msgId == PING {
        Respond(f, []);
      } else if f.msgId == GET_VERSION {
        Respond(f, [0, 9, 0]);
      } else if f.msgId == MOTOR_STOP {
        motor.Stop();
        Respond(f, []);
      } else if f.msgId == HEATER_OFF {
        pid.Disable();
        Respond(f, []);
      } else if f.msgId == SCALE_TARE {
        if input.rpm > TARE_MAX_RPM || scale == None {
          Refuse(f);
        } else {
          tare := scale.value;
          Respond(f, []);
        }
      } else if f.msgId == SCALE_READ {
        Respond(f, PutI32(Grams(scale, tare)));
      } else if f.msgId == LID_LOCK {
        lid.SetLock(true);
        Respond(f, [if lid.locked then 1 else 0]);
      } else {
        if input.rpm >= UNLOCK_MAX_RPM {
          Refuse(f);
        } else {
          lid.SetLock(false);
          Respond(f, []);
        }
      }
    }

    /** Looks the request up in the table of handlers; what is not there is refused. */
    method HandleRequest(f: Frame, input: Inputs, faulted: bool, scale: Option<int>)
      modifies this`tare, port`outbox, motor, pid, lid
      ensures Abs() == Handle(old(Abs()), f, input, faulted, scale).plant
      ensures port.outbox == old(port.outbox) + Attempt(Handle(old(Abs()), f, input, faulted, scale).reply)
    {
      hide SetMotor, SetHeater, Grams;
      if f.kind != Request {
        return;
      }
      if faulted && !AllowedWhileFaulted(f.msgId) {
        Refuse(f);
        return;
      }
      for i := 0 to |HANDLED|
        invariant Abs() == old(Abs()) && port.outbox == old(port.outbox)
        invariant forall j :: 0 <= j < i ==> HANDLED[j] != f.msgId
      {
        if HANDLED[i] == f.msgId {
          if f.msgId == MOTOR_SET_TARGET {
            HandleMotorSetTarget(f, input);
          } else if f.msgId == HEATER_SET_TARGET {
            HandleHeaterSetTarget(f);
          } else {
            HandleEmpty(f, input, scale);
          }
          return;
        }
      }
      UnknownIsRefused(Abs(), f, input, scale);
      Refuse(f);
    }
  }
}
