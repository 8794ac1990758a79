/** The drive. Speeds are commanded in thousandths of an RPM, so that each millisecond's ramp
    step is a whole number. */
module MotorController {
  import opened Gf2
  import opened C1Link
  import opened Interlocks
  import opened Wrappers

  datatype Drive = Drive(commanded: nat, target: nat, step: nat) {
    function SetTarget(rpm: nat, profile: Byte): Drive {
      this.(target := Min(rpm, MAX_RPM), step := RampStep(profile))
    }

    function Burst(rpm: nat): Drive {
      this.(target := Min(rpm, MAX_RPM), commanded := 1000 * Min(rpm, MAX_RPM))
    }

    function Stop(): Drive {
      this.(target := 0, commanded := 0)
    }

    function EnforceCap(cap: nat): Drive {
      this.(target := Min(target, cap), commanded := Min(commanded, 1000 * cap))
    }

    function Tick(): Drive {
      if commanded < 1000 * target then this.(commanded := Min(commanded + step, 1000 * target))
      else if commanded > 1000 * target then
        this.(commanded := if commanded < 1000 * target + 4 * step then 1000 * target else commanded - 4 * step)
      else this
    }

    predicate Active() {
      target > 0 || commanded > 0
    }
  }

  const STANDSTILL := Drive(0, 0, 500)

  /** Ramp per millisecond: 500, 1500 or 2500 RPM per second. */
  function RampStep(profile: Byte): (step: nat)
    ensures 500 <= step <= 2500
  {
    if profile == RAMP_GENTLE then 500
    else if profile == RAMP_NORMAL then 1500
    else if profile == RAMP_FAST then 2500
    else 1500
  }

  class MotorController {
    var commanded: nat
    var target: nat
    var step: nat
    // What the motor was last told, in units of one 10 700 000th of full duty.
    var duty: nat

    ghost function Abs(): Drive
      reads this
    {
      Drive(commanded, target, step)
    }

    constructor ()
      ensures Abs() == STANDSTILL && duty == 0
    {
      commanded, target, step, duty := 0, 0, 500, 0;
    }

    predicate Active()
      reads this
      ensures Active() <==> Abs().Active()
    {
      target > 0 || commanded > 0
    }

    method SetTarget(rpm: nat, profile: Byte)
      modifies this`target, this`step
      ensures Abs() == old(Abs()).SetTarget(rpm, profile)
    {
      target := if rpm > MAX_RPM then MAX_RPM else rpm;
      step := RampStep(profile);
    }

    method Burst(rpm: nat)
      modifies this`target, this`commanded
      ensures Abs() == old(Abs()).Burst(rpm)
    {
      target := if rpm > MAX_RPM then MAX_RPM else rpm;
      commanded := 1000 * target;
    }

    method Stop()
      modifies this`target, this`commanded, this`duty
      ensures Abs() == old(Abs()).Stop() && duty == 0
    {
      target, commanded := 0, 0;
      duty := 0;
    }

    method EnforceCap(cap: nat)
      modifies this`target, this`commanded
      ensures Abs() == old(Abs()).EnforceCap(cap)
    {
      if target > cap {
        target := cap;
      }
      if commanded > 1000 * cap {
        commanded := 1000 * cap;
      }
    }

    method Tick1ms()
      modifies this`commanded, this`duty
      ensures Abs() == old(Abs()).Tick() && duty == commanded
    {
      var goal: int := 1000 * target;
      var now: int := commanded;
      if now < goal {
        now := now + step;
        if now > goal {
          now := goal;
        }
      } else if now > goal {
        now := now - 4 * step;
        if now < goal {
          now := goal;
        }
      }
      commanded := now;
      duty := commanded;
    }
  }

  // ---- The ramp over any run of ticks ----

  function Ticks(d: Drive, n: nat): Drive {
    if n == 0 then d else Ticks(d, n - 1).Tick()
  }

  /** The drive n milliseconds later, on a straight line to its target. */
  function Straight(d: Drive, n: nat): Drive {
    d.(commanded :=
         if d.commanded <= 1000 * d.target then Min(d.commanded + n * d.step, 1000 * d.target)
         else if d.commanded <= 1000 * d.target + n * (4 * d.step) then 1000 * d.target
         else d.commanded - n * (4 * d.step))
  }

  /** Left alone, the drive approaches its target along a straight line, never crosses it, and
      reaches it after exactly as many ticks as the distance and the step require. */
  lemma {:induction false} RampEnvelope(d: Drive, n: nat)
    ensures Ticks(d, n) == Straight(d, n)
  {
    if n > 0 {
      RampEnvelope(d, n - 1);
      assert n * d.step == (n - 1) * d.step + d.step;
      assert n * (4 * d.step) == (n - 1) * (4 * d.step) + 4 * d.step;
    }
  }

  const DATASHEET_MAX_ACCELERATION: nat := 2500
  const DATASHEET_MAX_DECELERATION: nat := 14000

  /** No profile exceeds what the motor drive allows anywhere in its range: over n milliseconds
      the speed rises by at most n times 2.5 RPM and falls by at most n times 10 RPM. */
  lemma RampWithinDatasheet(d: Drive, rpm: nat, profile: Byte, n: nat)
    ensures var start := d.SetTarget(rpm, profile);
            var end := Ticks(start, n);
            && end.commanded <= start.commanded + n * DATASHEET_MAX_ACCELERATION
            && start.commanded <= end.commanded + n * 10000
            && 10000 <= DATASHEET_MAX_DECELERATION
  {
    var start := d.SetTarget(rpm, profile);
    RampEnvelope(start, n);
    assert n * start.step <= n * 2500;
    assert n * (4 * start.step) <= n * 10000;
  }

  /** RPM gained in a second: 500, 1500 and 2500 for the three ramps; any other profile ramps like the
      normal one. */
  function PerSecond(profile: Byte): nat {
    match profile
    case 0 => 500
    case 2 => 2500
    case _ => 1500
  }

  /** In any number of milliseconds before it reaches its target the motor gains exactly that much, and
      slowing down it loses four times as much. */
  lemma ProfileRates(d: Drive, rpm: nat, profile: Byte, n: nat)
    requires rpm <= MAX_RPM
    ensures var end := Ticks(d.SetTarget(rpm, profile), n);
            && end.target == rpm
            && (d.commanded + n * PerSecond(profile) <= 1000 * rpm ==> end.commanded == d.commanded + n * PerSecond(profile))
            && (d.commanded >= 1000 * rpm + n * (4 * PerSecond(profile)) ==>
                  end.commanded == d.commanded - n * (4 * PerSecond(profile)))
  {
    var start := d.SetTarget(rpm, profile);
    assert start.step == PerSecond(profile);
    RampEnvelope(start, n);
  }
}
