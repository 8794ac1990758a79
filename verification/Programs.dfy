/** What cooking programs have in common: the commands they issue through the client, one request
    at a time, and the record of those the client accepted. */
module Programs {
  import opened Gf2
  import opened C1Link
  import opened Wrappers
  import opened MC = McuClient
  import opened CookingController

  type DeciCelsius = t: int | -0x8000 <= t < 0x8000
  type Rpm = v: nat | v < 0x1_0000

  datatype Command =
    | SetMotor(rpm: Rpm, ramp: Byte)
    | SetHeater(temp: DeciCelsius)
    | MotorStop
    | HeaterOff
    | Tare
    | LockLid
    | UnlockLid

  function Id(c: Command): Byte {
    match c
    case SetMotor(_, _) => MOTOR_SET_TARGET
    case SetHeater(_) => HEATER_SET_TARGET
    case MotorStop => MOTOR_STOP
    case HeaterOff => HEATER_OFF
    case Tare => SCALE_TARE
    case LockLid => LID_LOCK
    case UnlockLid => LID_UNLOCK
  }

  function Payload(c: Command): (p: seq<Byte>)
    ensures |p| <= 3
  {
    match c
    case SetMotor(rpm, ramp) => PutU16(rpm) + [ramp]
    case SetHeater(temp) => PutI16(temp)
    case _ => []
  }

  /** The dial's speed. */
  function DialToRpm(dial: Byte): Rpm {
    if dial > 10 then 10700 else (dial as int) * 1070
  }

  /** The dial has eleven positions: standstill, ten steps of 1070 RPM, and nothing beyond. */
  lemma DialSpeeds(dial: Byte)
    ensures DialToRpm(dial) == 1070 * Min(dial as int, 10)
  {
  }

  /** What a tick asks of the client: nothing or one command. */
  function Tries(wanted: Option<Command>, room: bool): seq<Act> {
    match wanted
    case None => []
    case Some(c) => [Act(Id(c), Payload(c), room)]
  }

  /** Whether the client accepts it. */
  predicate Accepted(client: Client, wanted: Option<Command>, room: bool) {
    wanted.Some? && RequestStatus(client, Payload(wanted.value), room) == Ok
  }

  /** An accepted command and the true time of its acceptance. */
  datatype Entry = Entry(command: Command, at: nat)

  /** A line of a script: the command, and the least number of milliseconds after the one before. */
  datatype Line = Line(command: Command, hold: nat)

  predicate Follows(log: seq<Entry>, script: seq<Line>) {
    && |log| <= |script|
    && (forall k :: 0 <= k < |log| ==> log[k].command == script[k].command)
    && (forall k :: 0 < k < |log| ==> log[k].at >= log[k - 1].at + script[k].hold)
  }

  /** A log that follows the script still does when the next line is accepted in its time. */
  lemma FollowsOn(log: seq<Entry>, script: seq<Line>, entry: Entry, hold: nat, rest: seq<Line>)
    requires Follows(log, script) && script[|log|..] == [Line(entry.command, hold)] + rest
    requires log != [] ==> entry.at >= log[|log| - 1].at + hold
    ensures Follows(log + [entry], script) && script[|log| + 1..] == rest
  {
    assert script[|log|] == script[|log|..][0];
    assert script[|log| + 1..] == script[|log|..][1..];
  }

  /** Issues one command through the client's request operations. */
  method Issue(mcu: MC.McuClient, c: Command, now: nat) returns (ok: bool)
    requires mcu.Valid()
    modifies mcu, mcu.port`outbox, mcu.port`room
    ensures mcu.Valid()
    ensures ok == Accepted(old(mcu.Abs()), Some(c), old(mcu.port.HasRoom()))
    ensures var s := RunActs(old(mcu.Abs()), Tries(Some(c), old(mcu.port.HasRoom())), now);
            mcu.Abs() == s.client && mcu.port.outbox == old(mcu.port.outbox) + s.queued
  {
    hide Ask, RequestStatus, Id, Payload, MC.McuClient.Abs, MC.McuClient.Valid;
    ghost var c0, room := mcu.Abs(), mcu.port.HasRoom();
    var status := mcu.SendRequest(Id(c), Payload(c), now);
    ok := status == Ok;
    assert Tries(Some(c), room)[..0] == [];
  }
}
