/** The chopping burst: lock the lid, spin at full speed for the pulse, stop, and unlock once the
    knife has run down. */
module TurboPulse {
  import opened C1Link
  import opened Wrappers
  import opened Clock
  import opened MC = McuClient
  import opened CookingController
  import opened Programs

  datatype PulsePhase = Locking | Spinning | Stopping | Unlocking | Finished

  datatype Pulse = Pulse(phase: PulsePhase, spinStarted: nat)

  const MAX_PULSE_MS: nat := 2000
  const RUN_DOWN_RPM: nat := 100
  const BURST := SetMotor(10700, RAMP_BURST)

  function Length(requested: nat): nat {
    if requested > MAX_PULSE_MS then MAX_PULSE_MS else requested
  }

  /** Pulses last at most two seconds. */
  lemma PulseLength(requested: nat)
    ensures Length(requested) == Min(requested, 2000)
  {
  }

  // ---- Specification ----

  /** rpm is the latest reading, if there is one. */
  function Wants(p: Pulse, rpm: Option<nat>): Option<Command> {
    match p.phase
    case Locking => Some(LockLid)
    case Spinning => if p.spinStarted == 0 then Some(BURST) else None
    case Stopping => Some(MotorStop)
    case Unlocking => if rpm == None || rpm.value >= RUN_DOWN_RPM then None else Some(UnlockLid)
    case Finished => None
  }

  function Next(p: Pulse, length: nat, rpm: Option<nat>, elapsed: nat, accepted: bool): Pulse {
    if p.phase == Spinning && p.spinStarted != 0 then
      if Elapsed(elapsed, p.spinStarted) >= length then p.(phase := PulsePhase.Stopping) else p
    else if Wants(p, rpm) == None || !accepted then p
    else
      match p.phase
      case Locking => p.(phase := Spinning)
      case Spinning => p.(spinStarted := elapsed)
      case Stopping => p.(phase := Unlocking)
      case _ => p.(phase := Finished)
  }

  // ---- Runs ----

  datatype PulseTick = PulseTick(at: nat, rpm: Option<nat>, accepted: bool)

  datatype Chopped = Chopped(pulse: Pulse, log: seq<Entry>, clock: nat)

  /** Milliseconds into a session, as the program sees them. */
  function Since(begun: nat, at: nat): nat {
    Elapsed(Ms(at), Ms(begun))
  }

  function Happen(begun: nat, length: nat, s: Chopped, e: PulseTick): Chopped {
    var wanted := Wants(s.pulse, e.rpm);
    Chopped(Next(s.pulse, length, e.rpm, Since(begun, e.at), e.accepted),
            if wanted.Some? && e.accepted then s.log + [Entry(wanted.value, e.at)] else s.log,
            e.at)
  }

  function After(begun: nat, length: nat, es: seq<PulseTick>): Option<Chopped> {
    if es == [] then Some(Chopped(Pulse(Locking, 0), [], begun))
    else
      var before := After(begun, length, es[..|es| - 1]);
      var e := es[|es| - 1];
      if before.Some? && before.value.clock <= e.at then Some(Happen(begun, length, before.value, e)) else None
  }

  function Script(length: nat): seq<Line> {
    [Line(LockLid, 0), Line(BURST, 0), Line(MotorStop, length), Line(UnlockLid, 0)]
  }

  /** No burst was accepted in the very millisecond in which the session's clock reads zero. */
  predicate Clean(begun: nat, log: seq<Entry>) {
    forall k :: 0 <= k < |log| && log[k].command == BURST ==> Since(begun, log[k].at) != 0
  }

  /** The first n entries: the lock and then bursts, repeated only while the clock read zero. */
  predicate Spun(begun: nat, log: seq<Entry>, n: nat) {
    && 1 <= n <= |log| && log[0].command == LockLid
    && (forall k :: 1 <= k < n ==> log[k].command == BURST)
    && (forall k :: 1 <= k < n - 1 ==> Since(begun, log[k].at) == 0)
  }

  /** ... and the last of them started the pulse. */
  predicate Pulsed(begun: nat, log: seq<Entry>, n: nat) {
    n >= 2 && Spun(begun, log, n) && Since(begun, log[n - 1].at) != 0
  }

  predicate Stopped(begun: nat, length: nat, log: seq<Entry>, n: nat) {
    && 3 <= n <= |log| && Pulsed(begun, log, n - 1)
    && log[n - 1].command == MotorStop && log[n - 1].at >= log[n - 2].at + length
  }

  predicate Timely(begun: nat, s: Chopped) {
    && begun <= s.clock
    && (forall k :: 0 <= k < |s.log| ==> begun <= s.log[k].at <= s.clock)
    && (forall k :: 0 < k < |s.log| ==> s.log[k - 1].at <= s.log[k].at)
  }

  predicate Inv(begun: nat, length: nat, s: Chopped) {
    var log, n := s.log, |s.log|;
    && Timely(begun, s)
    && match s.pulse.phase
       case Locking => n == 0 && s.pulse.spinStarted == 0
       case Spinning =>
         if s.pulse.spinStarted == 0 then Spun(begun, log, n) && (n >= 2 ==> Since(begun, log[n - 1].at) == 0)
         else Pulsed(begun, log, n) && Since(begun, log[n - 1].at) == s.pulse.spinStarted
       case Stopping => Pulsed(begun, log, n) && log[n - 1].at + length <= s.clock
       case Unlocking => Stopped(begun, length, log, n)
       case Finished => n >= 4 && Stopped(begun, length, log, n - 1) && log[n - 1].command == UnlockLid
  }

  /** Later entries change nothing about the first ones. */
  lemma SpunStays(begun: nat, log: seq<Entry>, more: Entry, n: nat)
    requires Spun(begun, log, n)
    ensures Spun(begun, log + [more], n)
  {
  }

  /** A burst accepted while the program's clock still reads zero is one more of the kind. */
  lemma SpunGrows(begun: nat, log: seq<Entry>, at: nat)
    requires Spun(begun, log, |log|) && (|log| >= 2 ==> Since(begun, log[|log| - 1].at) == 0)
    ensures Spun(begun, log + [Entry(BURST, at)], |log| + 1)
  {
  }

  lemma HappenKeepsInv(begun: nat, length: nat, s: Chopped, e: PulseTick)
    requires Inv(begun, length, s) && s.clock <= e.at
    ensures Inv(begun, length, Happen(begun, length, s, e))
  {
    hide Elapsed, Ms, Spun, Since, Timely;
    StaysTimely(begun, length, s, e);
    var p, n := s.pulse, |s.log|;
    var wanted := Wants(p, e.rpm);
    if wanted.Some? && e.accepted {
      var more := Entry(wanted.value, e.at);
      match p.phase
      case Locking =>
        LockedFirst(begun, e.at);
        assert s.log + [more] == [more];
      case Spinning => SpunGrows(begun, s.log, e.at);
      case Stopping => SpunStays(begun, s.log, more, n);
      case Unlocking => SpunStays(begun, s.log, more, n - 1);
      case Finished =>
    } else if p.phase == Spinning && p.spinStarted != 0 && Elapsed(Since(begun, e.at), p.spinStarted) >= length {
      PulseLasts(begun, length, s, e.at);
    }
  }

  lemma StaysTimely(begun: nat, length: nat, s: Chopped, e: PulseTick)
    requires Timely(begun, s) && s.clock <= e.at
    ensures Timely(begun, Happen(begun, length, s, e))
  {
    hide Wants, Next;
  }

  lemma LockedFirst(begun: nat, at: nat)
    ensures Spun(begun, [Entry(LockLid, at)], 1)
  {
  }

  lemma PulseLasts(begun: nat, length: nat, s: Chopped, at: nat)
    requires Inv(begun, length, s) && s.clock <= at && s.pulse.phase == Spinning && s.pulse.spinStarted != 0
    requires Elapsed(Since(begun, at), s.pulse.spinStarted) >= length
    ensures s.log[|s.log| - 1].at + length <= at
  {
    hide Elapsed, Ms, Spun;
    RunLasts(begun, s.log[|s.log| - 1].at, at, length);
  }

  lemma {:induction false} RunKeepsInv(begun: nat, length: nat, es: seq<PulseTick>)
    requires After(begun, length, es).Some?
    ensures Inv(begun, length, After(begun, length, es).value)
  {
    hide Happen;
    if es != [] {
      hide Inv;
      var n := |es| - 1;
      RunKeepsInv(begun, length, es[..n]);
      HappenKeepsInv(begun, length, After(begun, length, es[..n]).value, es[n]);
    }
  }

  /** A second burst means the first was accepted at clock zero, and is out of the script. */
  lemma SpunTwice(begun: nat, length: nat, log: seq<Entry>, n: nat)
    requires Spun(begun, log, n) && n >= 3
    ensures !Clean(begun, log) && !Follows(log, Script(length))
  {
    hide Since;
    assert log[1].command == BURST && Since(begun, log[1].at) == 0;
    assert log[2].command == BURST;
  }

  /** How many entries precede the stop. */
  function SpunPart(s: Chopped): int {
    match s.pulse.phase
    case Unlocking => |s.log| - 1
    case Finished => |s.log| - 2
    case _ => |s.log|
  }

  lemma InvFollows(begun: nat, length: nat, s: Chopped)
    requires Inv(begun, length, s) && SpunPart(s) <= 2
    ensures Follows(s.log, Script(length))
    ensures s.pulse.phase == Finished ==> |s.log| == 4
    ensures SpunPart(s) < 2 ==> s.pulse.spinStarted == 0 && |s.log| < 2
  {
    hide Since;
  }

  lemma InvSpun(begun: nat, length: nat, s: Chopped)
    requires Inv(begun, length, s) && SpunPart(s) >= 1
    ensures Spun(begun, s.log, SpunPart(s))
  {
    hide Since, Spun;
  }

  /** On every run the accepted commands are the lock, bursts, the stop no sooner than the pulse's
      length after the last burst, and the unlock: each once, except that the burst is repeated as
      long as it is accepted at clock zero. */
  lemma PulseFollowsScript(begun: nat, length: nat, es: seq<PulseTick>)
    requires After(begun, length, es).Some?
    ensures var s := After(begun, length, es).value;
            && (Clean(begun, s.log) ==> Follows(s.log, Script(length)))
            && (s.pulse.phase == Finished ==> |s.log| >= 4 && Stopped(begun, length, s.log, |s.log| - 1))
            && (s.pulse.phase == Finished && Clean(begun, s.log) ==> |s.log| == 4)
  {
    hide After, Spun, Clean, Follows, Since;
    RunKeepsInv(begun, length, es);
    var s := After(begun, length, es).value;
    if SpunPart(s) >= 3 {
      InvSpun(begun, length, s);
      SpunTwice(begun, length, s.log, SpunPart(s));
    } else {
      InvFollows(begun, length, s);
    }
  }

  /** The plain script, with one burst, is followed from here on if and only if no burst has been
      accepted at clock zero: otherwise the next accepted command is out of it. */
  lemma {:induction false} ScriptExactlyWhenClean(begun: nat, length: nat, es: seq<PulseTick>, e: PulseTick)
    requires After(begun, length, es + [e]).Some? && e.accepted
    ensures After(begun, length, es).Some?
    ensures Follows(After(begun, length, es + [e]).value.log, Script(length)) <==>
            Clean(begun, After(begun, length, es).value.log)
  {
    hide Spun, Clean, Follows, Since, Inv;
    assert (es + [e])[..|es|] == es;
    RunKeepsInv(begun, length, es);
    RunKeepsInv(begun, length, es + [e]);
    NextDecides(begun, length, After(begun, length, es).value, e);
  }

  lemma NextDecides(begun: nat, length: nat, s: Chopped, e: PulseTick)
    requires Inv(begun, length, s) && Inv(begun, length, Happen(begun, length, s, e)) && e.accepted
    ensures Follows(Happen(begun, length, s, e).log, Script(length)) <==> Clean(begun, s.log)
  {
    hide Spun, Since, Follows;
    var t := Happen(begun, length, s, e);
    if SpunPart(t) >= 3 {
      InvSpun(begun, length, t);
      SpunTwice(begun, length, t.log, SpunPart(t));
      assert t.log[1].command == BURST && Since(begun, t.log[1].at) == 0 by {
        FirstAtZero(begun, t.log, SpunPart(t));
      }
      assert s.log[1] == t.log[1];
    } else {
      InvFollows(begun, length, t);
      OnceIsClean(begun, length, s, e);
    }
  }

  lemma FirstAtZero(begun: nat, log: seq<Entry>, n: nat)
    requires Spun(begun, log, n) && n >= 3
    ensures log[1].command == BURST && Since(begun, log[1].at) == 0
  {
  }

  lemma OnceIsClean(begun: nat, length: nat, s: Chopped, e: PulseTick)
    requires Inv(begun, length, s) && e.accepted && SpunPart(Happen(begun, length, s, e)) <= 2
    ensures Clean(begun, s.log)
  {
    hide Since;
  }

  /** The lid is unlocked only on a tick whose reading shows the knife below 100 RPM. */
  lemma UnlockWaitsForRunDown(begun: nat, length: nat, es: seq<PulseTick>, e: PulseTick)
    requires After(begun, length, es + [e]).Some?
    ensures After(begun, length, es).Some?
    ensures var s, t := After(begun, length, es).value, After(begun, length, es + [e]).value;
            |t.log| > |s.log| && t.log[|s.log|].command == UnlockLid ==>
              e.rpm.Some? && e.rpm.value < RUN_DOWN_RPM && Stopped(begun, length, s.log, |s.log|)
  {
    hide Elapsed, Ms, Stopped, Pulsed, Spun, Timely;
    assert (es + [e])[..|es|] == es;
    RunKeepsInv(begun, length, es);
  }

  lemma {:induction false} LogWithin(begun: nat, length: nat, es: seq<PulseTick>, lo: nat, hi: nat)
    requires After(begun, length, es).Some?
    requires forall i :: 0 <= i < |es| ==> lo <= es[i].at < hi
    ensures var log := After(begun, length, es).value.log;
            forall k :: 0 <= k < |log| ==> lo <= log[k].at < hi
  {
    hide Next, Wants;
    if es != [] {
      LogWithin(begun, length, es[..|es| - 1], lo, hi);
    }
  }

  /** In a session of less than 49 days whose program is not ticked in the session's first millisecond -
      the controller ticks it ten milliseconds later - the plain script is followed. */
  lemma ShortSessionFollowsScript(begun: nat, length: nat, es: seq<PulseTick>)
    requires After(begun, length, es).Some?
    requires forall i :: 0 <= i < |es| ==> begun < es[i].at < begun + WRAP
    ensures Follows(After(begun, length, es).value.log, Script(length))
  {
    hide After, Follows;
    LogWithin(begun, length, es, begun + 1, begun + WRAP);
    var log := After(begun, length, es).value.log;
    forall k | 0 <= k < |log|
      ensures Since(begun, log[k].at) != 0
    {
      ElapsedExact(log[k].at, begun);
    }
    PulseFollowsScript(begun, length, es);
  }

  // ---- The schedule ----

  /** The n-th tick of a session that is ticked every ten milliseconds, with its command accepted and the
      knife standing still. */
  function OnTime(begun: nat, n: nat): PulseTick {
    PulseTick(begun + 10 * n, Some(0), true)
  }

  function OnTimeTicks(begun: nat, n: nat): seq<PulseTick> {
    if n == 0 then [] else OnTimeTicks(begun, n - 1) + [OnTime(begun, n)]
  }

  /** Ticks that the pulse lasts: as few as cover its length. */
  function Rounds(length: nat): (d: nat)
    ensures d >= 1 && 10 * d >= length && (d > 1 ==> 10 * (d - 1) < length)
  {
    if length == 0 then 1 else (length + 9) / 10
  }

  /** The commands by the end of the n-th tick: lock, burst, stop, unlock, each in its own tick. */
  function Schedule(begun: nat, length: nat, n: nat): seq<Entry> {
    var d := Rounds(length);
    (if n >= 1 then [Entry(LockLid, begun + 10)] else []) +
    (if n >= 2 then [Entry(BURST, begun + 20)] else []) +
    (if n >= d + 3 then [Entry(MotorStop, begun + 10 * (d + 3))] else []) +
    (if n >= d + 4 then [Entry(UnlockLid, begun + 10 * (d + 4))] else [])
  }

  function PhaseAt(length: nat, n: nat): PulsePhase {
    var d := Rounds(length);
    if n == 0 then Locking
    else if n < d + 2 then Spinning
    else if n == d + 2 then PulsePhase.Stopping
    else if n == d + 3 then Unlocking
    else Finished
  }

  function ScheduledAt(begun: nat, length: nat, n: nat): Chopped {
    Chopped(Pulse(PhaseAt(length, n), if n >= 2 then 20 else 0), Schedule(begun, length, n), begun + 10 * n)
  }

  /** A pulse whose commands are accepted runs to its schedule: it is stopped in the tick after its length
      is over, unlocked in the next, and then finished. */
  lemma {:induction false} PulseOnSchedule(begun: nat, length: nat, n: nat)
    requires length <= MAX_PULSE_MS
    ensures After(begun, length, OnTimeTicks(begun, n)) == Some(ScheduledAt(begun, length, n))
  {
    if n == 0 {
      NothingScheduled(begun, length);
    } else {
      hide After, OnTimeTicks, ScheduledAt, Happen;
      PulseOnSchedule(begun, length, n - 1);
      NextOnSchedule(begun, length, n);
      AfterOneMore(begun, length, n);
    }
  }

  lemma NothingScheduled(begun: nat, length: nat)
    ensures After(begun, length, OnTimeTicks(begun, 0)) == Some(ScheduledAt(begun, length, 0))
  {
    assert Schedule(begun, length, 0) == [];
  }

  lemma AfterOneMore(begun: nat, length: nat, n: nat)
    requires n > 0 && After(begun, length, OnTimeTicks(begun, n - 1)) == Some(ScheduledAt(begun, length, n - 1))
    ensures After(begun, length, OnTimeTicks(begun, n)) ==
            Some(Happen(begun, length, ScheduledAt(begun, length, n - 1), OnTime(begun, n)))
  {
    hide Happen, Schedule, PhaseAt;
    OnTimeLength(begun, n - 1);
    var es := OnTimeTicks(begun, n);
    assert es[..|es| - 1] == OnTimeTicks(begun, n - 1);
  }

  lemma {:induction false} OnTimeLength(begun: nat, n: nat)
    ensures |OnTimeTicks(begun, n)| == n
  {
    if n > 0 {
      OnTimeLength(begun, n - 1);
    }
  }

  lemma SinceOnTime(begun: nat, n: nat)
    requires n <= 300
    ensures Since(begun, begun + 10 * n) == 10 * n
    ensures n >= 2 ==> Elapsed(10 * n, 20) == 10 * n - 20
  {
    ElapsedExact(begun + 10 * n, begun);
  }

  lemma NextOnSchedule(begun: nat, length: nat, n: nat)
    requires n > 0 && length <= MAX_PULSE_MS
    ensures Happen(begun, length, ScheduledAt(begun, length, n - 1), OnTime(begun, n)) == ScheduledAt(begun, length, n)
  {
    hide Elapsed, Since, Rounds;
    if n <= 300 {
      SinceOnTime(begun, n);
    }
    match PhaseAt(length, n - 1)
    case Locking =>
    case Spinning =>
    case Stopping =>
    case Unlocking =>
    case Finished =>
  }

  /** A session in which the burst is first accepted when the clock has come round bursts again ten
      milliseconds later. */
  lemma BurstTwice()
    ensures var round := 7 + WRAP;
            var s := After(7, 1500, [PulseTick(17, None, true), PulseTick(round, None, true), PulseTick(round + 10, None, true)]);
            s.Some? && s.value.log == [Entry(LockLid, 17), Entry(BURST, round), Entry(BURST, round + 10)]
  {
    var round := 7 + WRAP;
    var e0, e1, e2 := PulseTick(17, None, true), PulseTick(round, None, true), PulseTick(round + 10, None, true);
    assert [e0, e1, e2][..2] == [e0, e1] && [e0, e1][..1] == [e0] && [e0][..0] == [];
    var s0 := Chopped(Pulse(Locking, 0), [], 7);
    assert After(7, 1500, []) == Some(s0);
    var s1 := Happen(7, 1500, s0, e0);
    assert After(7, 1500, [e0]) == Some(s1);
    assert Since(7, round) == 0;
    var s2 := Happen(7, 1500, s1, e1);
    assert After(7, 1500, [e0, e1]) == Some(s2);
  }

  // ---- The program object ----

  class TurboPulse {
    const length: nat
    var phase: PulsePhase
    var spinStarted: nat

    ghost function Abs(): Pulse
      reads this
    {
      Pulse(phase, spinStarted)
    }

    constructor (requested: nat)
      ensures length == Length(requested) <= MAX_PULSE_MS && Abs() == Pulse(Locking, 0)
    {
      length := if requested > MAX_PULSE_MS then MAX_PULSE_MS else requested;
      phase, spinStarted := Locking, 0;
    }

    method OnTick(mcu: MC.McuClient, now: nat, elapsed: nat, rpm: Option<nat>)
      requires mcu.Valid()
      modifies this, mcu, mcu.port
      ensures mcu.Valid()
      ensures var wanted, room := Wants(old(Abs()), rpm), old(mcu.port.HasRoom());
              var s := RunActs(old(mcu.Abs()), Tries(wanted, room), now);
              && mcu.Abs() == s.client && mcu.port.outbox == old(mcu.port.outbox) + s.queued
              && Abs() == Next(old(Abs()), length, rpm, elapsed, Accepted(old(mcu.Abs()), wanted, room))
    {
      hide MC.McuClient.Abs, MC.McuClient.Valid, Accepted, Ask;
      match phase
      case Locking =>
        var ok := Issue(mcu, LockLid, now);
        if ok {
          phase := Spinning;
        }
      case Spinning =>
        if spinStarted == 0 {
          var ok := Issue(mcu, BURST, now);
          if ok {
            spinStarted := elapsed;
          }
        } else if Elapsed(elapsed, spinStarted) >= length {
          phase := PulsePhase.Stopping;
        }
      case Stopping =>
        var ok := Issue(mcu, MotorStop, now);
        if ok {
          phase := Unlocking;
        }
      case Unlocking =>
        if rpm == None || rpm.value >= RUN_DOWN_RPM {
          return;
        }
        var ok := Issue(mcu, UnlockLid, now);
        if ok {
          phase := Finished;
        }
      case Finished =>
    }
  }
}
