/** What a program's command does: from the call on the client over the frame that is queued to the motor,
    heater, lid and scale of the safety controller. */
module CommandEffects {
  import opened Gf2
  import opened C1Link
  import opened Wrappers
  import opened Interlocks
  import opened CommandHandler
  import opened Programs
  import MC = McuClient
  import CC = CookingController
  import HP = HeaterPid
  import LM = LidModel
  import Drives = MotorController

  /** When the controller grants a command, in the command's own terms. */
  predicate Granted(c: Command, input: Inputs, scale: Option<int>) {
    match c
    case SetMotor(_, ramp) => ramp <= 3 && (ramp == 3 ==> input.lidLocked && input.temp <= 600)
    case SetHeater(temp) => 370 <= temp <= 1600
    case Tare => input.rpm <= 50 && scale.Some?
    case UnlockLid => input.rpm < 100
    case MotorStop => true
    case HeaterOff => true
    case LockLid => true
  }

  /** Thousandths of an RPM gained in a millisecond, which is RPM per second. */
  function Rate(ramp: Byte): nat {
    if ramp == RAMP_GENTLE then 500 else if ramp == RAMP_NORMAL then 1500 else 2500
  }

  /** What a granted command leaves behind. */
  function Left(c: Command, p: Plant, input: Inputs, scale: Option<int>): Plant
    requires Granted(c, input, scale)
  {
    match c
    case SetMotor(rpm, ramp) =>
      p.(drive := if ramp == RAMP_BURST then Drives.Drive(1000 * Min(rpm, MAX_RPM), Min(rpm, MAX_RPM), p.drive.step)
                  else Drives.Drive(p.drive.commanded, Min(rpm, ContinuousCap(input)), Rate(ramp)))
    case SetHeater(temp) => p.(pid := HP.Pid(true, temp, if p.pid.enabled && p.pid.target == temp then p.pid.integral else 0.0))
    case Tare => p.(tare := scale.value)
    case LockLid => p.(lid := LM.Lid(p.lid.closed, p.lid.closed || p.lid.locked))
    case UnlockLid => p.(lid := LM.Lid(p.lid.closed, !p.lid.closed && p.lid.locked))
    case MotorStop => p.(drive := Drives.Drive(0, 0, p.drive.step))
    case HeaterOff => p.(pid := HP.OFF)
  }

  /** The command's frame, with the next sequence number, is all that the client queues. */
  function Queued(c: Command, client: MC.Client, now: nat, room: bool): seq<Frame> {
    CC.RunActs(client, Tries(Some(c), room), now).queued
  }

  /** What a command does on the wire is what it says. It is queued exactly if the client is free and the
      link has room; the frame is granted exactly if the command can be obeyed and no fault bars it;
      granted, it changes what it names and nothing else, and refused, nothing at all. */
  lemma CommandTakesEffect(c: Command, client: MC.Client, now: nat, room: bool,
                           p: Plant, input: Inputs, faulted: bool, scale: Option<int>)
    ensures Queued(c, client, now, room) != [] <==> !client.waiting && client.response == None && room
    ensures Queued(c, client, now, room) != [] ==>
              |Queued(c, client, now, room)| == 1 &&
              var f := Queued(c, client, now, room)[0];
              var h := Handle(p, f, input, faulted, scale);
              && f.kind == Request && f.seqNo == client.nextSeq && h.reply.Some?
              && if Granted(c, input, scale) && (faulted ==> c.MotorStop? || c.HeaterOff?) then
                   h.reply.value.kind == Response && h.plant == Left(c, p, input, scale)
                 else h.reply.value.kind == Nack && h.plant == p
  {
    hide Handle, Left, Granted, Payload, Id, HP.Pid.SetTarget;
    OneFrame(c, client, now, room);
    if Queued(c, client, now, room) != [] {
      FrameTakesEffect(c, client.nextSeq, p, input, faulted, scale);
    }
  }

  lemma OneFrame(c: Command, client: MC.Client, now: nat, room: bool)
    ensures Queued(c, client, now, room) ==
            if !client.waiting && client.response == None && room then [Frame(Request, client.nextSeq, Id(c), Payload(c))] else []
  {
    hide Id, Payload, MC.Tracked, MC.Numbered;
    var acts := Tries(Some(c), room);
    assert acts[..0] == [] && CC.RunActs(client, [], now) == MC.Sent(client, []);
  }

  lemma FrameTakesEffect(c: Command, seqNo: Byte, p: Plant, input: Inputs, faulted: bool, scale: Option<int>)
    ensures var h := Handle(p, Frame(Request, seqNo, Id(c), Payload(c)), input, faulted, scale);
            && h.reply.Some?
            && if Granted(c, input, scale) && (faulted ==> c.MotorStop? || c.HeaterOff?) then
                 h.reply.value.kind == Response && h.plant == Left(c, p, input, scale)
               else h.reply.value.kind == Nack && h.plant == p
  {
    hide GetU16, PutU16, GetI16, PutI16, Grams, ClampSpeedRequest;
    match c
    case SetMotor(rpm, ramp) =>
      U16RoundTrip(rpm);
      GrantIsCappedRequest(rpm, input);
    case SetHeater(temp) => I16RoundTrip(temp);
    case _ =>
  }
}
