/** Speed limits and trip conditions. Temperatures are in tenths of a degree, speeds in RPM. */
module Interlocks {
  import opened C1Link
  import opened Wrappers

  const MAX_RPM: nat := 10700
  const LID_OPEN_MAX_RPM: nat := 500
  const UNLOCKED_MAX_RPM: nat := 6400
  const UNLOCK_MAX_RPM: nat := 100
  const SPILL_GUARD_TEMP: int := 600
  const SPILL_GUARD_MAX_RPM: nat := 6400
  const TARE_MAX_RPM: nat := 50
  const OVERTEMP_CUTOFF: int := 1650
  const HEATER_MIN_TARGET: int := 370
  const HEATER_MAX_TARGET: int := 1600
  const LINK_TIMEOUT_MS: nat := 5000

  datatype Inputs = Inputs(temp: int, rpm: nat, lidClosed: bool, lidLocked: bool, stalled: bool)

  const POWER_ON := Inputs(200, 0, true, false, false)

  function ClampSpeedRequest(requested: nat, input: Inputs): nat {
    var a := if !input.lidClosed && requested > LID_OPEN_MAX_RPM then LID_OPEN_MAX_RPM else requested;
    var b := if input.lidClosed && !input.lidLocked && a > UNLOCKED_MAX_RPM then UNLOCKED_MAX_RPM else a;
    if input.temp > SPILL_GUARD_TEMP && b > SPILL_GUARD_MAX_RPM then SPILL_GUARD_MAX_RPM else b
  }

  function ContinuousCap(input: Inputs): (cap: nat)
    ensures !input.lidClosed ==> cap == LID_OPEN_MAX_RPM
    ensures input.lidClosed ==> (cap == MAX_RPM <==> input.lidLocked && input.temp <= SPILL_GUARD_TEMP)
    ensures input.lidClosed && cap != MAX_RPM ==> cap == UNLOCKED_MAX_RPM == SPILL_GUARD_MAX_RPM
  {
    var hot := if input.temp > SPILL_GUARD_TEMP then SPILL_GUARD_MAX_RPM else MAX_RPM;
    if !input.lidClosed && hot > LID_OPEN_MAX_RPM then LID_OPEN_MAX_RPM
    else if !input.lidLocked && hot > UNLOCKED_MAX_RPM then UNLOCKED_MAX_RPM
    else hot
  }

  function Evaluate(input: Inputs): FaultCode {
    if input.temp >= OVERTEMP_CUTOFF then Overtemp
    else if input.stalled then MotorStall
    else NoFault
  }

  /** What is granted when a speed is requested is what the continuous cap will leave of it. */
  lemma GrantIsCappedRequest(requested: nat, input: Inputs)
    ensures ClampSpeedRequest(Min(requested, MAX_RPM), input) == Min(requested, ContinuousCap(input))
  {
  }
}
