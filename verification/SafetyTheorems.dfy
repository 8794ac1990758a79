/** The safety requirements of docs/safety-requirements.md over every run of the control loop:
    any inputs, any frames, and a clock that wraps. */
module SafetyTheorems {
  import opened C1Link
  import opened Wrappers
  import opened Clock
  import opened Interlocks
  import opened CommandHandler
  import opened SafetyMcu
  import HP = HeaterPid
  import LM = LidModel

  // ---- Runs ----

  function Run(m: Mcu, ws: seq<World>): Mcu {
    if ws == [] then m else Tick(Run(m, ws[..|ws| - 1]), ws[|ws| - 1]).mcu
  }

  /** True time of the latest tick. */
  function Now(start: nat, ws: seq<World>): nat {
    if ws == [] then start else ws[|ws| - 1].now
  }

  predicate HasRequest(fs: seq<Frame>) {
    exists i :: 0 <= i < |fs| && fs[i].kind == Request
  }

  /** True time at which a valid request was last heard. */
  function LastHeard(start: nat, ws: seq<World>): nat {
    if ws == [] then start
    else if HasRequest(ws[|ws| - 1].frames) then ws[|ws| - 1].now
    else LastHeard(start, ws[..|ws| - 1])
  }

  /** The longest pause between ticks for which link supervision is exact. */
  const MAX_TICK_GAP: nat := WRAP - LINK_TIMEOUT_MS

  predicate Timely(start: nat, ws: seq<World>) {
    ws == [] ||
    var before := ws[..|ws| - 1];
    Timely(start, before) && Now(start, before) <= ws[|ws| - 1].now < Now(start, before) + MAX_TICK_GAP
  }

  predicate AllOff(m: Mcu) {
    m.plant.drive.target == 0 && m.plant.drive.commanded == 0 && m.plant.pid == HP.OFF
  }

  // ---- What the frames of one tick can do ----

  predicate LegalTarget(p: HP.Pid) {
    p.enabled ==> 370 <= p.target <= 1600
  }

  /** Holds before and after every frame. */
  predicate Sound(m: Mcu) {
    && (m.fault != NoFault ==> AllOff(m))
    && (!m.tempOk ==> m.fault == SensorFailure)
    && LegalTarget(m.plant.pid) && (!m.plant.pid.enabled ==> m.plant.pid == HP.OFF)
    && m.plant.lid.Valid()
    && (m.input.lidLocked ==> m.input.lidClosed)
  }

  lemma ReceiveSound(m: Mcu, f: Frame, now: nat, scale: Option<int>)
    requires Sound(m)
    ensures var r := Receive(m, f, now, scale);
            && Sound(r)
            && r.tempOk == m.tempOk && r.input == m.input
            && (f.kind != Request ==> r == m)
            && (f.kind == Request ==> r.lastValid == Ms(now))
            && (r.fault == m.fault || (r.fault == NoFault && Acknowledges(f)))
            && (!AllOff(r) && AllOff(m) ==> m.fault == NoFault && SetsOutput(f))
            && (m.plant.lid.locked && !r.plant.lid.locked ==> m.fault == NoFault && m.input.rpm < UNLOCK_MAX_RPM)
  {
    hide GetU16, ClampSpeedRequest, Grams;
    var h := Handle(m.plant, f, m.input, m.fault != NoFault, scale);
    assert (h.plant.pid.enabled && h.plant.pid != m.plant.pid ==> LegalTarget(h.plant.pid)) by {
      OnlySetTargetActivates(m.plant, f, m.input, m.fault != NoFault, scale);
    }
    if m.fault != NoFault {
      FaultGate(m.plant, f, m.input, scale);
    }
  }

  predicate SetsOutput(f: Frame) {
    f.kind == Request && (f.msgId == MOTOR_SET_TARGET || f.msgId == HEATER_SET_TARGET)
  }

  lemma {:induction false} DrainSound(m: Mcu, fs: seq<Frame>, now: nat, scale: Option<int>)
    requires Sound(m)
    ensures var r := Drain(m, fs, now, scale);
            && Sound(r)
            && r.tempOk == m.tempOk && r.input == m.input
            && (r.fault == m.fault || r.fault == NoFault)
            && (!HasRequest(fs) ==> r == m)
            && (HasRequest(fs) ==> r.lastValid == Ms(now))
            && (m.plant.lid.locked && !r.plant.lid.locked ==> m.tempOk && m.input.rpm < UNLOCK_MAX_RPM)
  {
    hide Receive;
    if fs != [] {
      var n := |fs| - 1;
      DrainSound(m, fs[..n], now, scale);
      ReceiveSound(Drain(m, fs[..n], now, scale), fs[n], now, scale);
      if HasRequest(fs[..n]) {
        var i :| 0 <= i < n && fs[..n][i].kind == Request;
        assert fs[i].kind == Request;
      } else if fs[n].kind != Request {
        assert forall i :: 0 <= i < n ==> fs[..n][i].kind != Request;
        assert !HasRequest(fs);
      }
    }
  }

  // ---- One tick ----

  lemma SenseSound(m: Mcu, w: World)
    requires Sound(m)
    ensures var s := Sense(Moved(m, w), w);
            && Sound(s)
            && s.tempOk == w.reading.Some? && s.lastValid == m.lastValid
            && (s.fault == m.fault || s.fault == SensorFailure)
            && s.plant.lid == LM.Moves(m.plant.lid, w.moves)
            && (Active(s) ==> Active(m))
            && (w.reading.Some? ==> s.fault == m.fault && s.plant.drive == m.plant.drive && s.plant.pid == m.plant.pid)
            && (w.reading.Some? ==>
                  s.input == Inputs(w.reading.value, w.rpm, s.plant.lid.closed, s.plant.lid.locked, w.stalled))
  {
    LM.LockedStaysShut(m.plant.lid, w.moves);
  }

  /** A sample on which no output may stay on. */
  predicate Unsafe(w: World) {
    w.reading == None || w.reading.value >= 1650 || w.stalled
  }

  /** The state carried from tick to tick, against the true clock. */
  predicate Inv(m: Mcu, now: nat, heard: nat) {
    && Sound(m)
    && heard <= now && m.lastValid == Ms(heard)
    && (Active(m) ==> now < heard + LINK_TIMEOUT_MS)
  }

  function HeardAt(w: World, heard: nat): nat {
    if HasRequest(w.frames) then w.now else heard
  }

  /** Link supervision acts on true time, although it computes with a wrapping counter: the
      outputs are cut exactly when they are active and no request has come for five seconds. */
  lemma SupervisionExact(m: Mcu, w: World, now: nat, heard: nat)
    requires Inv(m, now, heard) && now <= w.now < now + MAX_TICK_GAP
    ensures var t := Trip(Heard(m, w));
            && Sound(t) && t.lastValid == Ms(HeardAt(w, heard)) && HeardAt(w, heard) <= w.now
            && Supervise(t, w.now) ==
               if Active(t) && w.now >= HeardAt(w, heard) + LINK_TIMEOUT_MS then EnterFault(t, LinkLost) else t
  {
    hide Sense, Drain;
    var s := Sense(Moved(m, w), w);
    SenseSound(m, w);
    DrainSound(s, w.frames, w.now, w.scale);
    var t := Trip(Heard(m, w));
    if Active(t) {
      assert t.fault == NoFault;
      ElapsedExact(w.now, HeardAt(w, heard));
    }
  }

  lemma TickKeepsInv(m: Mcu, w: World, now: nat, heard: nat)
    requires Inv(m, now, heard) && now <= w.now < now + MAX_TICK_GAP
    ensures Inv(Tick(m, w).mcu, w.now, HeardAt(w, heard))
  {
    hide Sense, Drain, Heard, Replies, ContinuousCap;
    SupervisionExact(m, w, now, heard);
  }

  lemma {:induction false} RunKeepsInv(start: nat, ws: seq<World>)
    requires Timely(start, ws)
    ensures Inv(Run(PowerOn(start), ws), Now(start, ws), LastHeard(start, ws))
  {
    hide Tick, Inv;
    if ws == [] {
      PowerOnInv(start);
    } else {
      var n := |ws| - 1;
      RunKeepsInv(start, ws[..n]);
      TickKeepsInv(Run(PowerOn(start), ws[..n]), ws[n], Now(start, ws[..n]), LastHeard(start, ws[..n]));
    }
  }

  lemma PowerOnInv(start: nat)
    ensures Inv(PowerOn(start), start, start)
  {
  }

  // ---- SR-003, SR-004, SR-007 and fault handling: what a fault means ----

  /** Everything a tick establishes about faults: a fault, old or new, means all outputs off; an
      unsafe sample always ends in a fault; an unreadable sensor always ends in its own fault. */
  lemma TickFaults(m: Mcu, w: World)
    requires Sound(m)
    ensures var r := Tick(m, w);
            && Sound(r.mcu)
            && (r.mcu.fault != NoFault ==> AllOff(r.mcu) && r.watts == 0.0)
            && (Unsafe(w) ==> r.mcu.fault != NoFault)
            && (w.reading == None ==> r.mcu.fault == SensorFailure)
            && (w.reading.Some? && w.reading.value >= OVERTEMP_CUTOFF && Heard(m, w).fault == NoFault ==> r.mcu.fault == Overtemp)
            && (!Unsafe(w) && Heard(m, w).fault == NoFault ==> r.mcu.fault == NoFault || r.mcu.fault == LinkLost)
  {
    hide Sense, Drain, Replies, ContinuousCap;
    SenseSound(m, w);
    DrainSound(Sense(Moved(m, w), w), w.frames, w.now, w.scale);
  }

  lemma {:induction false} RunSound(start: nat, ws: seq<World>)
    ensures Sound(Run(PowerOn(start), ws))
  {
    hide Tick, Sound;
    if ws == [] {
      PowerOnInv(start);
      InvSound(PowerOn(start), start, start);
    } else {
      RunSound(start, ws[..|ws| - 1]);
      TickFaults(Run(PowerOn(start), ws[..|ws| - 1]), ws[|ws| - 1]);
    }
  }

  lemma InvSound(m: Mcu, now: nat, heard: nat)
    requires Inv(m, now, heard)
    ensures Sound(m)
  {
  }

  // ---- The heater gate, on every run ----

  /** Heater power flows only if, in this very tick, the sensor was readable and below the cutoff,
      the motor turned freely, the lid was shut, no fault is latched, the set point is legal and a
      request was heard less than five true seconds ago. */
  lemma HeaterGate(start: nat, ws: seq<World>, w: World)
    requires Timely(start, ws + [w])
    ensures var m := Run(PowerOn(start), ws);
            var r := Tick(m, w);
            0.0 <= r.watts <= HP.MAX_WATTS &&
            (r.watts > 0.0 ==>
               && !Unsafe(w) && r.mcu.fault == NoFault
               && LM.Moves(m.plant.lid, w.moves).closed
               && r.mcu.plant.pid.enabled && 370 <= r.mcu.plant.pid.target <= 1600
               && w.now < LastHeard(start, ws + [w]) + 5000)
  {
    hide Sense, Drain, Replies, ContinuousCap, Run, LastHeard, HP.Pid.Watts;
    var m := Run(PowerOn(start), ws);
    assert (ws + [w])[..|ws|] == ws;
    RunKeepsInv(start, ws);
    SenseSound(m, w);
    DrainSound(Sense(Moved(m, w), w), w.frames, w.now, w.scale);
    SupervisionExact(m, w, Now(start, ws), LastHeard(start, ws));
    LastHeardStep(start, ws, w);
    TickFaults(m, w);
    var judged := Judged(m, w);
    var watts := judged.plant.pid.Watts(judged.input.temp);
  }

  /** The gate's other side: on a safe sample, with the lid shut, the loop on and no fault left when the
      tick ends, the heater heats. Below the set point it has some power, and full power from 9.3
      degrees below it, unless the bowl has been too warm; at the set point or above it has none, unless
      the bowl has been too cool. */
  lemma HeaterHeats(m: Mcu, w: World)
    requires Sound(m) && w.reading.Some?
    requires Tick(m, w).mcu.fault == NoFault && Tick(m, w).mcu.plant.pid.enabled
    requires LM.Moves(m.plant.lid, w.moves).closed
    ensures var r, before := Tick(m, w), Heard(m, w).plant.pid;
            && (w.reading.value < r.mcu.plant.pid.target && before.integral >= 0.0 ==> r.watts > 0.0)
            && (w.reading.value <= r.mcu.plant.pid.target - 93 && before.integral >= 0.0 ==> r.watts == 1200.0)
            && (w.reading.value >= r.mcu.plant.pid.target && before.integral <= 0.0 ==> r.watts == 0.0)
            && var deviation := r.mcu.plant.pid.target - w.reading.value;
               r.mcu.plant.pid.integral == before.integral + if -50 < deviation < 50 then deviation as real / 10000.0 else 0.0
  {
    hide Sense, Drain, Replies, ContinuousCap, HP.Pid.Watts;
    SenseSound(m, w);
    DrainSound(Sense(Moved(m, w), w), w.frames, w.now, w.scale);
    var pid := Judged(m, w).plant.pid;
    if pid.enabled && pid.integral >= 0.0 {
      HP.ColdIsHeated(pid, w.reading.value);
    }
    if w.reading.value >= pid.target && pid.integral <= 0.0 {
      HP.HotIsNotHeated(pid, w.reading.value);
    }
  }

  /** With the lid open, or the loop off, there is no power and nothing is integrated. */
  lemma OpenLidPausesHeating(m: Mcu, w: World)
    requires Sound(m) && w.reading.Some?
    requires !LM.Moves(m.plant.lid, w.moves).closed || !Heard(m, w).plant.pid.enabled
    ensures var r := Tick(m, w);
            r.watts == 0.0 && (r.mcu.fault == NoFault ==> r.mcu.plant.pid == Heard(m, w).plant.pid)
  {
    hide Sense, Drain, Replies, ContinuousCap;
    SenseSound(m, w);
    DrainSound(Sense(Moved(m, w), w), w.frames, w.now, w.scale);
  }

  lemma LastHeardStep(start: nat, ws: seq<World>, w: World)
    ensures LastHeard(start, ws + [w]) == HeardAt(w, LastHeard(start, ws))
  {
    assert (ws + [w])[..|ws|] == ws;
  }

  // ---- SR-001 and SR-002: the continuous cap ----

  /** After every tick the commanded speed respects the lid as it stood, and the temperature as it
      was measured, at the start of the tick - on every drive path, and also when the sensor has
      failed and the readings are stale. */
  lemma SpeedCap(start: nat, ws: seq<World>, w: World)
    ensures var m := Run(PowerOn(start), ws);
            var lid := LM.Moves(m.plant.lid, w.moves);
            var drive := Tick(m, w).mcu.plant.drive;
            && drive.commanded <= 1000 * 10700
            && (!lid.closed ==> drive.commanded <= 1000 * 500)
            && (!lid.locked ==> drive.commanded <= 1000 * 6400)
            && (w.reading.Some? && w.reading.value > 600 ==> drive.commanded <= 1000 * 6400)
  {
    hide Sense, Drain, Replies, Run;
    var m := Run(PowerOn(start), ws);
    RunSound(start, ws);
    SenseSound(m, w);
    DrainSound(Sense(Moved(m, w), w), w.frames, w.now, w.scale);
    TickFaults(m, w);
  }

  // ---- SR-008: safe unlock ----

  /** However many unlock requests arrive, a locked lid stays locked through a tick in which the
      measured speed is 100 RPM or more, or in which the sensors cannot be read. */
  lemma LockHolds(start: nat, ws: seq<World>, w: World)
    requires var m := Run(PowerOn(start), ws); m.plant.lid.locked
    requires w.rpm >= 100 || w.reading == None
    ensures Tick(Run(PowerOn(start), ws), w).mcu.plant.lid == LM.Lid(true, true)
  {
    hide Sense, Drain, Replies, Run, ContinuousCap;
    var m := Run(PowerOn(start), ws);
    RunSound(start, ws);
    SenseSound(m, w);
    LM.LockedStaysShut(m.plant.lid, w.moves);
    DrainSound(Sense(Moved(m, w), w), w.frames, w.now, w.scale);
    TickFaults(m, w);
  }

  // ---- SR-005: link supervision ----

  /** A tick raises the link fault exactly when, after its frames and its samples have raised no
      other, an output is active and no request has been heard for five true seconds. */
  lemma LinkLostExactly(start: nat, ws: seq<World>, w: World)
    requires Timely(start, ws + [w])
    ensures var m := Run(PowerOn(start), ws);
            var t := Trip(Heard(m, w));
            (Tick(m, w).mcu.fault == LinkLost && t.fault != LinkLost)
            <==> Active(t) && w.now >= LastHeard(start, ws + [w]) + 5000
  {
    hide Sense, Drain, Replies, Run, ContinuousCap, LastHeard, Heard;
    var m := Run(PowerOn(start), ws);
    assert (ws + [w])[..|ws|] == ws;
    RunKeepsInv(start, ws);
    SupervisionExact(m, w, Now(start, ws), LastHeard(start, ws));
    LastHeardStep(start, ws, w);
  }

  // ---- The fault latch, over traces ----

  /** Within one tick: leaving a fault takes an acknowledgement, and switching an output on takes a
      set-target request handled while no fault was latched. */
  lemma {:induction false} DrainLatch(m: Mcu, fs: seq<Frame>, now: nat, scale: Option<int>)
    requires Sound(m)
    ensures var r := Drain(m, fs, now, scale);
            && (m.fault != NoFault && r.fault == NoFault ==> exists a :: 0 <= a < |fs| && Acknowledges(fs[a]))
            && (AllOff(m) && !AllOff(r) ==>
                  exists b :: 0 <= b < |fs| && SetsOutput(fs[b]) &&
                    (m.fault == NoFault || exists a :: 0 <= a < b && Acknowledges(fs[a])))
  {
    hide Receive, Acknowledges, SetsOutput, AllOff, Sound;
    if fs != [] {
      var n := |fs| - 1;
      var q := Drain(m, fs[..n], now, scale);
      DrainLatch(m, fs[..n], now, scale);
      DrainSound(m, fs[..n], now, scale);
      ReceiveSound(q, fs[n], now, scale);
      if m.fault != NoFault && q.fault == NoFault {
        var a :| 0 <= a < n && Acknowledges(fs[..n][a]);
        assert Acknowledges(fs[a]);
      }
      if AllOff(m) && !AllOff(q) {
        var b :| 0 <= b < n && SetsOutput(fs[..n][b]) &&
          (m.fault == NoFault || exists a :: 0 <= a < b && Acknowledges(fs[..n][a]));
        assert SetsOutput(fs[b]);
        if m.fault != NoFault {
          var a :| 0 <= a < b && Acknowledges(fs[..n][a]);
          assert Acknowledges(fs[a]);
        }
      }
    }
  }

  /** An acknowledgement arrived in some tick whose own sample was safe. */
  predicate AckedAt(ws: seq<World>, i: nat, a: nat) {
    i < |ws| && !Unsafe(ws[i]) && a < |ws[i].frames| && Acknowledges(ws[i].frames[a])
  }

  predicate SetAt(ws: seq<World>, j: nat, b: nat) {
    j < |ws| && b < |ws[j].frames| && SetsOutput(ws[j].frames[b])
  }

  ghost predicate Acked(ws: seq<World>) {
    exists i, a :: AckedAt(ws, i, a)
  }

  /** ... and a later frame asked for an output. */
  ghost predicate Released(ws: seq<World>) {
    exists i, a, j, b :: AckedAt(ws, i, a) && SetAt(ws, j, b) && (i < j || (i == j && a < b))
  }

  lemma AckedStays(ws: seq<World>, w: World)
    ensures Acked(ws) ==> Acked(ws + [w])
    ensures Released(ws) ==> Released(ws + [w])
  {
    if Acked(ws) {
      var i, a :| AckedAt(ws, i, a);
      assert AckedAt(ws + [w], i, a);
    }
    if Released(ws) {
      var i, a, j, b :| AckedAt(ws, i, a) && SetAt(ws, j, b) && (i < j || (i == j && a < b));
      assert AckedAt(ws + [w], i, a) && SetAt(ws + [w], j, b);
    }
  }

  lemma JudgedOutputs(m: Mcu, w: World)
    requires Sound(m)
    ensures var h, r := Heard(m, w), Tick(m, w).mcu;
            && (r.fault == NoFault ==> h.fault == NoFault)
            && (!AllOff(r) ==> !AllOff(h) && r.fault == NoFault)
  {
    hide Heard, Replies, ContinuousCap;
    TickFaults(m, w);
  }

  lemma LatchStep(ws: seq<World>, m: Mcu, w: World)
    requires Sound(m)
    requires m.fault == NoFault ==> Acked(ws)
    requires !AllOff(m) ==> Released(ws)
    ensures var r := Tick(m, w).mcu;
            && (r.fault == NoFault ==> Acked(ws + [w]))
            && (!AllOff(r) ==> Released(ws + [w]))
  {
    hide Sense, Drain, Replies, Acknowledges, SetsOutput, AllOff, Sound, Tick, Unsafe, Acked, Released;
    var s, h, r, n := Sense(Moved(m, w), w), Heard(m, w), Tick(m, w).mcu, |ws|;
    AckedStays(ws, w);
    SenseSound(m, w);
    SenseOff(m, w);
    DrainLatch(s, w.frames, w.now, w.scale);
    JudgedOutputs(m, w);
    TickFaults(m, w);
    assert (ws + [w])[n] == w;
    if r.fault == NoFault && s.fault != NoFault {
      var a :| 0 <= a < |w.frames| && Acknowledges(w.frames[a]);
      AckWitness(ws + [w], n, a);
    }
    if !AllOff(r) && AllOff(s) {
      var b :| 0 <= b < |w.frames| && SetsOutput(w.frames[b]) &&
        (s.fault == NoFault || exists a :: 0 <= a < b && Acknowledges(w.frames[a]));
      if s.fault == NoFault {
        SenseNoFault(m, w);
        ReleaseWitness(ws, w, b);
      } else {
        var a :| 0 <= a < b && Acknowledges(w.frames[a]);
        AckWitness(ws + [w], n, a);
        SameTickWitness(ws + [w], n, a, b);
      }
    }
  }

  lemma AckWitness(ws: seq<World>, i: nat, a: nat)
    requires AckedAt(ws, i, a)
    ensures Acked(ws)
  {
  }

  lemma SameTickWitness(ws: seq<World>, i: nat, a: nat, b: nat)
    requires AckedAt(ws, i, a) && SetAt(ws, i, b) && a < b
    ensures Released(ws)
  {
  }

  lemma ReleaseWitness(ws: seq<World>, w: World, b: nat)
    requires Acked(ws) && b < |w.frames| && SetsOutput(w.frames[b])
    ensures Released(ws + [w])
  {
    var i, a :| AckedAt(ws, i, a);
    assert AckedAt(ws + [w], i, a) && SetAt(ws + [w], |ws|, b);
  }

  lemma SenseNoFault(m: Mcu, w: World)
    requires Sense(Moved(m, w), w).fault == NoFault
    ensures m.fault == NoFault
  {
  }

  lemma SenseOff(m: Mcu, w: World)
    ensures !AllOff(Sense(Moved(m, w), w)) ==> !AllOff(m)
  {
  }

  /** From any state with a latched fault, over any run: the fault is gone only if a tick with a
      safe sample brought an empty MOTOR_STOP, and an output is on only if a set-target request
      came after it. */
  lemma {:induction false} FaultLatch(m: Mcu, ws: seq<World>)
    requires Sound(m) && m.fault != NoFault
    ensures Sound(Run(m, ws))
    ensures Run(m, ws).fault == NoFault ==> Acked(ws)
    ensures !AllOff(Run(m, ws)) ==> Released(ws)
  {
    hide Tick, AllOff, Sound, Acked, Released;
    if ws == [] {
      FaultedIsOff(m);
    } else {
      var n := |ws| - 1;
      FaultLatch(m, ws[..n]);
      LatchStep(ws[..n], Run(m, ws[..n]), ws[n]);
      TickFaults(Run(m, ws[..n]), ws[n]);
      assert ws[..n] + [ws[n]] == ws;
    }
  }

  lemma FaultedIsOff(m: Mcu)
    requires Sound(m) && m.fault != NoFault
    ensures AllOff(m)
  {
  }

  lemma {:induction false} DrainClears(m: Mcu, fs: seq<Frame>, a: nat, now: nat, scale: Option<int>)
    requires a < |fs| && Acknowledges(fs[a]) && m.tempOk && m.input.temp < OVERTEMP_CUTOFF
    ensures var r := Drain(m, fs, now, scale);
            r.fault == NoFault && r.tempOk && r.input == m.input && r.lastValid == Ms(now)
  {
    hide Handle, Ms;
    var n := |fs| - 1;
    DrainKeepsInput(m, fs[..n], now, scale);
    if a < n {
      DrainClears(m, fs[..n], a, now, scale);
    } else {
      DrainKeepsTempOk(m, fs[..n], now, scale);
    }
  }

  lemma {:induction false} DrainKeepsTempOk(m: Mcu, fs: seq<Frame>, now: nat, scale: Option<int>)
    ensures Drain(m, fs, now, scale).tempOk == m.tempOk
  {
    hide Handle, Ms;
    if fs != [] {
      DrainKeepsTempOk(m, fs[..|fs| - 1], now, scale);
    }
  }

  /** Recovery, exactly: a tick that finds a fault latched ends without one if and only if its sample is
      safe and one of its frames is an empty MOTOR_STOP. */
  lemma FaultClearsExactly(m: Mcu, w: World)
    requires Sound(m) && m.fault != NoFault
    ensures Tick(m, w).mcu.fault == NoFault <==>
            !Unsafe(w) && exists a :: 0 <= a < |w.frames| && Acknowledges(w.frames[a])
  {
    hide Drain, Replies, Sound, Acknowledges;
    var s := Sense(Moved(m, w), w);
    SenseSound(m, w);
    TickFaults(m, w);
    DrainLatch(s, w.frames, w.now, w.scale);
    JudgedOutputs(m, w);
    if !Unsafe(w) && exists a :: 0 <= a < |w.frames| && Acknowledges(w.frames[a]) {
      var a :| 0 <= a < |w.frames| && Acknowledges(w.frames[a]);
      DrainClears(s, w.frames, a, w.now, w.scale);
      ElapsedExact(w.now, w.now);
    }
  }

  // ---- The granted speed ----

  predicate CommandsMotor(f: Frame) {
    f.kind == Request && (f.msgId == MOTOR_SET_TARGET || f.msgId == MOTOR_STOP)
  }

  lemma {:induction false} DriveUntouched(m: Mcu, fs: seq<Frame>, now: nat, scale: Option<int>)
    requires forall i :: 0 <= i < |fs| ==> !CommandsMotor(fs[i])
    ensures Drain(m, fs, now, scale).plant.drive == m.plant.drive
  {
    hide GetU16, GetI16, Grams;
    if fs != [] {
      DriveUntouched(m, fs[..|fs| - 1], now, scale);
    }
  }

  lemma {:induction false} DrainConcat(m: Mcu, a: seq<Frame>, b: seq<Frame>, now: nat, scale: Option<int>)
    ensures Drain(m, a + b, now, scale) == Drain(Drain(m, a, now, scale), b, now, scale)
  {
    hide Receive;
    if b == [] {
      assert a + b == a;
    } else {
      var n := |b| - 1;
      assert (a + b)[..|a + b| - 1] == a + b[..n];
      DrainConcat(m, a, b[..n], now, scale);
    }
  }

  /** The speed that a set-target request is to be granted: what was asked for, up to the continuous cap;
      in a burst, which is granted only where there is no lower cap, up to the motor's limit. */
  function Due(f: Frame, input: Inputs): nat
    requires |f.payload| == 3
  {
    Min(GetU16(f.payload[0], f.payload[1]), if f.payload[2] == RAMP_BURST then MAX_RPM else ContinuousCap(input))
  }

  /** A granted speed is the one due, and it becomes the target: the motor ramps to it, or in a burst is
      there at once. */
  lemma GrantBecomesTarget(m: Mcu, f: Frame, now: nat, scale: Option<int>)
    requires Sound(m) && f.kind == Request && f.msgId == MOTOR_SET_TARGET
    ensures var reply := ReplyTo(m, f, scale);
            var was, drive := m.plant.drive, Receive(m, f, now, scale).plant.drive;
            && |reply| == 1
            && (reply[0].kind == Response ==>
                  && |f.payload| == 3 && |reply[0].payload| == 2
                  && GetU16(reply[0].payload[0], reply[0].payload[1]) == Due(f, m.input) == drive.target
                  && drive.target <= ContinuousCap(m.input)
                  && drive.commanded == if f.payload[2] == RAMP_BURST then 1000 * drive.target else was.commanded)
  {
    hide GetU16, PutU16, Grams;
    if |f.payload| == 3 {
      var requested := GetU16(f.payload[0], f.payload[1]);
      GrantIsCappedRequest(requested, m.input);
      U16RoundTrip(Min(requested, MAX_RPM));
      U16RoundTrip(ClampSpeedRequest(Min(requested, MAX_RPM), m.input));
    }
  }

  lemma TargetAfterTick(m: Mcu, w: World)
    requires Tick(m, w).mcu.fault == NoFault
    ensures Tick(m, w).mcu.plant.drive.target == Min(Heard(m, w).plant.drive.target, ContinuousCap(Heard(m, w).input))
  {
    hide Heard, Replies, ContinuousCap;
  }

  /** The speed granted in a reply is the one due, and the target the motor has when the tick ends, on the
      ramp and on the burst path, unless a later motor command in the same tick or a fault intervenes. */
  lemma GrantedSpeedStands(start: nat, ws: seq<World>, w: World, before: seq<Frame>, f: Frame, after: seq<Frame>)
    requires w.frames == before + [f] + after
    requires f.kind == Request && f.msgId == MOTOR_SET_TARGET
    requires forall i :: 0 <= i < |after| ==> !CommandsMotor(after[i])
    ensures var m := Run(PowerOn(start), ws);
            var reply := ReplyTo(Drain(Sense(Moved(m, w), w), before, w.now, w.scale), f, w.scale);
            var r := Tick(m, w).mcu;
            && |reply| == 1
            && (reply[0].kind == Response && r.fault == NoFault ==>
                  && |f.payload| == 3 && |reply[0].payload| == 2
                  && r.plant.drive.target == GetU16(reply[0].payload[0], reply[0].payload[1])
                  && r.plant.drive.target == Due(f, Sense(Moved(m, w), w).input))
  {
    hide Sense, Drain, Replies, Run, Receive, ReplyTo, GetU16, Tick, ContinuousCap, Sound, Due;
    var m := Run(PowerOn(start), ws);
    var s := Sense(Moved(m, w), w);
    var mid := Drain(s, before, w.now, w.scale);
    RunSound(start, ws);
    SenseSound(m, w);
    DrainSound(s, before, w.now, w.scale);
    GrantBecomesTarget(mid, f, w.now, w.scale);
    DrainConcat(s, before + [f], after, w.now, w.scale);
    DrainConcat(s, before, [f], w.now, w.scale);
    DrainOne(mid, f, w.now, w.scale);
    DriveUntouched(Receive(mid, f, w.now, w.scale), after, w.now, w.scale);
    DrainSound(s, w.frames, w.now, w.scale);
    if Tick(m, w).mcu.fault == NoFault {
      TargetAfterTick(m, w);
    }
  }

  lemma DrainOne(m: Mcu, f: Frame, now: nat, scale: Option<int>)
    ensures Drain(m, [f], now, scale) == Receive(m, f, now, scale)
  {
    assert [f][..0] == [];
  }

  // ---- Replies ----

  function Requests(fs: seq<Frame>): seq<Frame> {
    if fs == [] then []
    else Requests(fs[..|fs| - 1]) + if fs[|fs| - 1].kind == Request then [fs[|fs| - 1]] else []
  }

  /** Every request gets exactly one echoing reply, in order; nothing else is answered. */
  lemma {:induction false} RepliesMatchRequests(m: Mcu, fs: seq<Frame>, now: nat, scale: Option<int>)
    ensures var rs, qs := Replies(m, fs, now, scale), Requests(fs);
            |rs| == |qs| && forall i :: 0 <= i < |rs| ==> Echoes(rs[i], qs[i])
  {
    hide Receive, Handle, Echoes;
    if fs != [] {
      var n := |fs| - 1;
      RepliesMatchRequests(m, fs[..n], now, scale);
      var d := Drain(m, fs[..n], now, scale);
      OneReplyPerRequest(d.plant, fs[n], d.input, d.fault != NoFault, scale);
    }
  }
}
