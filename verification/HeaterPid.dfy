/** The heater's proportional-integral controller, over the reals. Temperatures are in tenths of
    a degree. */
module HeaterPid {
  const KP := 130.0
  const KI := 2.0
  const MAX_WATTS := 1200.0
  const INTEGRAL_BAND := 5.0
  const TICK_SECONDS := 0.001

  datatype Pid = Pid(enabled: bool, target: int, integral: real) {
    function SetTarget(t: int): Pid {
      Pid(true, t, if !enabled || t != target then 0.0 else integral)
    }

    function Disable(): Pid {
      Pid(false, 0, 0.0)
    }

    function Error(measured: int): real {
      (target - measured) as real / 10.0
    }

    /** The state after a control step. */
    function Integrate(measured: int): Pid {
      var e := Error(measured);
      if enabled && -INTEGRAL_BAND < e < INTEGRAL_BAND then this.(integral := integral + e * TICK_SECONDS) else this
    }

    /** The heater power a control step commands. */
    function Watts(measured: int): (w: real)
      ensures 0.0 <= w <= MAX_WATTS
      ensures !enabled ==> w == 0.0
    {
      if !enabled then 0.0
      else
        var w := KP * Error(measured) + KI * Integrate(measured).integral;
        if w < 0.0 then 0.0 else if w > MAX_WATTS then MAX_WATTS else w
    }
  }

  const OFF := Pid(false, 0, 0.0)

  class HeaterPid {
    var enabled: bool
    var target: int
    var integral: real

    ghost function Abs(): Pid
      reads this
    {
      Pid(enabled, target, integral)
    }

    constructor ()
      ensures Abs() == OFF
    {
      enabled, target, integral := false, 0, 0.0;
    }

    method SetTarget(t: int)
      modifies this
      ensures Abs() == old(Abs()).SetTarget(t)
    {
      if !enabled || t != target {
        integral := 0.0;
      }
      target := t;
      enabled := true;
    }

    method Disable()
      modifies this
      ensures Abs() == old(Abs()).Disable()
    {
      enabled, target, integral := false, 0, 0.0;
    }

    method Update(measured: int) returns (watts: real)
      modifies this`integral
      ensures Abs() == old(Abs()).Integrate(measured) && watts == old(Abs()).Watts(measured)
    {
      if !enabled {
        return 0.0;
      }
      var error := (target - measured) as real / 10.0;
      if -INTEGRAL_BAND < error < INTEGRAL_BAND {
        integral := integral + error * TICK_SECONDS;
      }
      watts := KP * error + KI * integral;
      if watts < 0.0 {
        watts := 0.0;
      }
      if watts > MAX_WATTS {
        watts := MAX_WATTS;
      }
    }
  }

  // ---- Anti-windup ----

  function Steps(p: Pid, readings: seq<int>): Pid {
    if readings == [] then p
    else Steps(p, readings[..|readings| - 1]).Integrate(readings[|readings| - 1])
  }

  /** Over any readings the integral moves by less than five degree-milliseconds a step, and not
      at all while every reading is five degrees or more from the target. */
  lemma {:induction false} NoWindup(p: Pid, readings: seq<int>)
    ensures Steps(p, readings).enabled == p.enabled && Steps(p, readings).target == p.target
    ensures var drift := Steps(p, readings).integral - p.integral;
            -(0.005 * |readings| as real) <= drift <= 0.005 * |readings| as real
    ensures (forall i :: 0 <= i < |readings| ==> readings[i] - p.target >= 50 || p.target - readings[i] >= 50) ==>
              Steps(p, readings) == p
  {
    if readings != [] {
      var n := |readings| - 1;
      NoWindup(p, readings[..n]);
      var q, e := Steps(p, readings[..n]), p.Error(readings[n]);
      assert q.Error(readings[n]) == e;
      if -INTEGRAL_BAND < e < INTEGRAL_BAND {
        assert -0.005 <= e * TICK_SECONDS <= 0.005;
      }
      assert (n + 1) as real == n as real + 1.0;
    }
  }

  // ---- The control law ----

  /** Cold, the bowl is heated: at full power from 9.3 degrees below the set point, and at some power
      right up to it, unless a negative integral says that it has been too warm. */
  lemma ColdIsHeated(p: Pid, measured: int)
    requires p.enabled && p.integral >= 0.0
    ensures measured <= p.target - 93 ==> p.Watts(measured) == 1200.0
    ensures measured < p.target ==> p.Watts(measured) > 0.0
  {
  }

  /** At the set point or above it the bowl is not heated, unless a positive integral says that it has
      been too cool. */
  lemma HotIsNotHeated(p: Pid, measured: int)
    requires measured >= p.target && p.integral <= 0.0
    ensures p.Watts(measured) == 0.0
  {
  }

  /** A warmer reading never raises the power. */
  lemma WarmerNeverRaises(p: Pid, cooler: int, warmer: int)
    requires cooler <= warmer
    ensures p.Watts(warmer) <= p.Watts(cooler)
  {
  }

  /** Between no power and full power, every tenth of a degree outside the band is worth 13 watts, and
      at the set point a degree-second of integral is worth two. */
  lemma PowerIsLinear(p: Pid, measured: int)
    requires p.enabled
    ensures measured - p.target > 50 || p.target - measured >= 50 ==>
              p.Watts(measured) > 0.0 && p.Watts(measured - 1) < 1200.0 ==>
                p.Watts(measured - 1) - p.Watts(measured) == 13.0
    ensures 0.0 <= p.integral <= 600.0 ==> p.Watts(p.target) == 2.0 * p.integral
  {
  }

  /** The sum of the deviations of those readings that are less than five degrees from the target, each
      for a millisecond. */
  function Deviations(target: int, readings: seq<int>): real {
    if readings == [] then 0.0
    else
      var d := target - readings[|readings| - 1];
      Deviations(target, readings[..|readings| - 1]) + if -50 < d < 50 then d as real / 10000.0 else 0.0
  }

  /** Over any readings the integral grows by exactly these, in degree-seconds. */
  lemma {:induction false} IntegralIsSum(p: Pid, readings: seq<int>)
    requires p.enabled
    ensures Steps(p, readings) == p.(integral := p.integral + Deviations(p.target, readings))
  {
    if readings != [] {
      IntegralIsSum(p, readings[..|readings| - 1]);
    }
  }

  /** Setting the target again keeps what has been integrated; a new target, or the first, does not. */
  lemma TargetIsSet(p: Pid, t: int)
    ensures var q := p.SetTarget(t);
            && q.enabled && q.target == t
            && (p.enabled && p.target == t ==> q == p)
            && (!p.enabled || p.target != t ==> q.integral == 0.0)
  {
  }
}
