/** The drive over whole ticks of the safety controller: how fast its speed may change, and when
    the limit for an unlocked lid is overstepped. */
module SpeedLimits {
  import opened C1Link
  import opened Wrappers
  import opened Clock
  import opened Interlocks
  import opened CommandHandler
  import opened SafetyMcu
  import opened SafetyTheorems
  import LM = LidModel

  // ---- The lid as it stands when a tick ends ----

  /** The speed is above the limit for an unlocked lid, and the lid is unlocked. */
  predicate Oversteps(m: Mcu) {
    !m.plant.lid.locked && m.plant.drive.commanded > 1000 * UNLOCKED_MAX_RPM
  }

  /** A sample on which the drive may run at full speed and yet the lid may be unlocked. */
  predicate Tempting(m: Mcu, w: World) {
    && LM.Moves(m.plant.lid, w.moves).locked
    && w.reading.Some? && w.reading.value <= SPILL_GUARD_TEMP
    && w.rpm < UNLOCK_MAX_RPM && !w.stalled
  }

  /** A full-speed burst. */
  function FullBurst(): Frame {
    Frame(Request, 2, MOTOR_SET_TARGET, PutU16(MAX_RPM) + [RAMP_BURST])
  }

  function UnlockAndBurst(): seq<Frame> {
    [Frame(Request, 0, MOTOR_STOP, []), Frame(Request, 1, LID_UNLOCK, []), FullBurst()]
  }

  lemma CommandsKeepLidShut(m: Mcu, fs: seq<Frame>, now: nat, scale: Option<int>)
    ensures Drain(m, fs, now, scale).plant.lid.closed == m.plant.lid.closed
  {
    hide GetU16, PutU16, GetI16, Grams, ClampSpeedRequest;
    if fs != [] {
      CommandsKeepLidShut(m, fs[..|fs| - 1], now, scale);
    }
  }

  /** The limit for an open lid holds of the lid as it stands when the tick ends, since no command
      opens or shuts it; so does the limit for an unlocked lid, unless it was unlocked in this very
      tick. A lid left unlocked is met with the limit in the next tick, whatever happens there. */
  lemma LimitsAtTickEnd(m: Mcu, w: World)
    requires Sound(m)
    ensures var r := Tick(m, w).mcu;
            && r.plant.lid.closed == LM.Moves(m.plant.lid, w.moves).closed
            && (!r.plant.lid.closed ==> r.plant.drive.commanded <= 1000 * LID_OPEN_MAX_RPM)
            && (Oversteps(r) ==> Tempting(m, w))
            && (!m.plant.lid.locked ==> r.plant.drive.commanded <= 1000 * UNLOCKED_MAX_RPM)
  {
    hide Sense, Drain, Replies;
    SenseSound(m, w);
    CommandsKeepLidShut(Sense(Moved(m, w), w), w.frames, w.now, w.scale);
    DrainSound(Sense(Moved(m, w), w), w.frames, w.now, w.scale);
    TickFaults(m, w);
    LM.LockedStaysShut(m.plant.lid, w.moves);
  }

  lemma DrainThree(m: Mcu, a: Frame, b: Frame, c: Frame, now: nat, scale: Option<int>)
    ensures Drain(m, [a, b, c], now, scale) ==
            Receive(Receive(Receive(m, a, now, scale), b, now, scale), c, now, scale)
  {
    hide Receive;
    assert [a, b, c][..2] == [a, b] && [a, b][..1] == [a];
    DrainOne(m, a, now, scale);
  }

  /** On a tempting sample, a stop, an unlock and a burst in one tick end it at full speed on an
      unlocked lid. */
  lemma UnlockThenBurst(m: Mcu, w: World)
    requires Sound(m) && Tempting(m, w)
    ensures var r := Tick(m, w.(frames := UnlockAndBurst())).mcu;
            r.fault == NoFault && !r.plant.lid.locked && r.plant.drive.commanded == 1000 * MAX_RPM
  {
    hide Replies, Drain, GetU16, PutU16;
    var fs := UnlockAndBurst();
    var v := w.(frames := fs);
    var s := Sense(Moved(m, v), v);
    SenseSound(m, v);
    DrainThree(s, fs[0], fs[1], fs[2], v.now, v.scale);
    U16RoundTrip(MAX_RPM);
    var p := fs[2].payload;
    assert p[0] == PutU16(MAX_RPM)[0] && p[1] == PutU16(MAX_RPM)[1] && p[2] == RAMP_BURST;
    ElapsedExact(v.now, v.now);
  }

  /** Exactly when the requests of one tick can bring it to an end above the limit for an unlocked
      lid: when the lid was locked, the bowl cool and the knife almost still at its start. */
  lemma OverstepsExactly(m: Mcu, w: World)
    requires Sound(m)
    ensures (exists fs :: Oversteps(Tick(m, w.(frames := fs)).mcu)) <==> Tempting(m, w)
  {
    hide Tick, Tempting, Sound, UnlockAndBurst;
    if Tempting(m, w) {
      UnlockThenBurst(m, w);
      assert Oversteps(Tick(m, w.(frames := UnlockAndBurst())).mcu);
    }
    if exists fs :: Oversteps(Tick(m, w.(frames := fs)).mcu) {
      var fs :| Oversteps(Tick(m, w.(frames := fs)).mcu);
      LimitsAtTickEnd(m, w.(frames := fs));
      SameTemptation(m, w, fs);
    }
  }

  lemma SameTemptation(m: Mcu, w: World, fs: seq<Frame>)
    ensures Tempting(m, w.(frames := fs)) == Tempting(m, w)
  {
  }

  /** It happens from power-on: the lid is locked in the first millisecond, unlocked in the second,
      and the second ends at full speed. */
  lemma OversteppedFromPowerOn(now: nat)
    ensures var quiet := World(now, [], Some(200), 0, false, None, []);
            var m := Run(PowerOn(now), [quiet.(frames := [Frame(Request, 0, LID_LOCK, [])])]);
            var r := Tick(m, quiet.(frames := UnlockAndBurst())).mcu;
            Oversteps(r) && r.plant.drive.commanded == 1000 * MAX_RPM
  {
    hide UnlockAndBurst, Replies;
    var quiet := World(now, [], Some(200), 0, false, None, []);
    var w := quiet.(frames := [Frame(Request, 0, LID_LOCK, [])]);
    RunSound(now, [w]);
    assert [w][..0] == [];
    var m := Tick(PowerOn(now), w).mcu;
    DrainOne(Sense(Moved(PowerOn(now), w), w), w.frames[0], now, None);
    assert m.plant.lid == LM.Lid(true, true);
    UnlockThenBurst(m, quiet);
  }

  // ---- How fast the speed changes ----

  predicate Bursts(f: Frame) {
    f.kind == Request && f.msgId == MOTOR_SET_TARGET && |f.payload| == 3 && f.payload[2] == RAMP_BURST
  }

  /** The ramp never exceeds the fastest profile. */
  predicate Ramped(m: Mcu) {
    500 <= m.plant.drive.step <= 2500
  }

  lemma {:induction false} DrainRamp(m: Mcu, fs: seq<Frame>, now: nat, scale: Option<int>)
    requires Ramped(m)
    ensures var r := Drain(m, fs, now, scale);
            && Ramped(r)
            && ((forall i :: 0 <= i < |fs| ==> !Bursts(fs[i])) ==>
                  r.plant.drive.commanded <= m.plant.drive.commanded)
            && ((forall i :: 0 <= i < |fs| ==> !Bursts(fs[i]) && !Acknowledges(fs[i])) ==>
                  r.plant.drive.commanded == m.plant.drive.commanded && r.fault == m.fault)
  {
    hide GetU16, PutU16, GetI16, Grams, ClampSpeedRequest;
    if fs != [] {
      DrainRamp(m, fs[..|fs| - 1], now, scale);
    }
  }

  /** In one tick without a burst the speed rises by at most 2.5 RPM, as the datasheet has it.
      Without a stop, and if the tick ends without a fault, it falls by at most 10 RPM below what
      the continuous cap leaves of it. */
  lemma TickRamp(m: Mcu, w: World)
    requires Sound(m) && Ramped(m)
    ensures var was, r := m.plant.drive.commanded, Tick(m, w).mcu;
            && Ramped(r)
            && ((forall i :: 0 <= i < |w.frames| ==> !Bursts(w.frames[i])) ==>
                  r.plant.drive.commanded <= was + 2500)
            && ((forall i :: 0 <= i < |w.frames| ==> !Bursts(w.frames[i]) && !Acknowledges(w.frames[i])) && r.fault == NoFault ==>
                  Min(was, 1000 * ContinuousCap(Heard(m, w).input)) <= r.plant.drive.commanded + 10000)
  {
    hide Drain, Replies, ContinuousCap;
    var s := Sense(Moved(m, w), w);
    DrainRamp(s, w.frames, w.now, w.scale);
    TickFaults(m, w);
  }

  predicate NoBursts(ws: seq<World>) {
    forall k, i :: 0 <= k < |ws| && 0 <= i < |ws[k].frames| ==> !Bursts(ws[k].frames[i])
  }

  /** From any reachable state, over any run of n ticks without a burst, the speed rises by at most
      2.5 n RPM; every reachable state starts such a run. */
  lemma {:induction false} RunRamp(start: nat, ws: seq<World>, more: seq<World>)
    ensures var m := Run(PowerOn(start), ws);
            var r := Run(m, more);
            && Sound(m) && Ramped(m) && Sound(r) && Ramped(r)
            && (NoBursts(more) ==> r.plant.drive.commanded <= m.plant.drive.commanded + 2500 * |more|)
  {
    hide Tick, Sound;
    var m := Run(PowerOn(start), ws);
    if more != [] {
      var n := |more| - 1;
      RunRamp(start, ws, more[..n]);
      TickRamp(Run(m, more[..n]), more[n]);
      TickFaults(Run(m, more[..n]), more[n]);
    } else if ws != [] {
      var n := |ws| - 1;
      RunRamp(start, ws[..n], []);
      TickRamp(Run(PowerOn(start), ws[..n]), ws[n]);
      RunSound(start, ws);
    } else {
      RunSound(start, ws);
    }
  }

  // ---- Reaching the target ----

  /** A tick that leaves the drive to itself: no motor command, no fault, and a cap that does not bind. */
  predicate Undisturbed(m: Mcu, w: World) {
    var cap, drive := ContinuousCap(Sense(Moved(m, w), w).input), m.plant.drive;
    && (forall i :: 0 <= i < |w.frames| ==> !CommandsMotor(w.frames[i]))
    && m.fault == NoFault && Tick(m, w).mcu.fault == NoFault
    && drive.target <= cap && drive.commanded <= 1000 * cap
  }

  predicate AllUndisturbed(m: Mcu, ws: seq<World>) {
    ws == [] || (AllUndisturbed(m, ws[..|ws| - 1]) && Undisturbed(Run(m, ws[..|ws| - 1]), ws[|ws| - 1]))
  }

  lemma UndisturbedTick(m: Mcu, w: World)
    requires Sound(m) && Undisturbed(m, w)
    ensures Tick(m, w).mcu.plant.drive == m.plant.drive.Tick()
  {
    hide Drain, Replies, ContinuousCap;
    var s := Sense(Moved(m, w), w);
    TickFaults(m, w);
    SenseSound(m, w);
    DriveUntouched(s, w.frames, w.now, w.scale);
    DrainKeepsInput(s, w.frames, w.now, w.scale);
  }

  /** Over any undisturbed run the speed goes in a straight line to the target and stays there: up by the
      step of the ramp in every millisecond, or down by four times as much. */
  lemma {:induction false} UndisturbedRunRamps(m: Mcu, ws: seq<World>)
    requires Sound(m) && AllUndisturbed(m, ws)
    ensures Sound(Run(m, ws))
    ensures Run(m, ws).plant.drive == MC.Straight(m.plant.drive, |ws|)
  {
    hide Tick, Sound, Undisturbed, MC.Drive.Tick, MC.Straight;
    RunIsTicks(m, ws);
    MC.RampEnvelope(m.plant.drive, |ws|);
  }

  lemma {:induction false} RunIsTicks(m: Mcu, ws: seq<World>)
    requires Sound(m) && AllUndisturbed(m, ws)
    ensures Sound(Run(m, ws)) && Run(m, ws).plant.drive == MC.Ticks(m.plant.drive, |ws|)
  {
    hide Tick, Sound, Undisturbed, MC.Drive.Tick;
    if ws != [] {
      var n := |ws| - 1;
      RunIsTicks(m, ws[..n]);
      UndisturbedTick(Run(m, ws[..n]), ws[n]);
      TickFaults(Run(m, ws[..n]), ws[n]);
    }
  }
}
