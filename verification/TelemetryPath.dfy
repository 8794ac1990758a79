/** From the sample of a tick to the history in the application: what the safety controller measures is
    published when it is due, and is what the store gets. */
module TelemetryPath {
  import opened C1Link
  import opened Wrappers
  import opened Clock
  import opened CommandHandler
  import opened Interlocks
  import opened SafetyMcu
  import LM = LidModel
  import MC = McuClient
  import TP = TelemetryPublisher
  import TS = TelemetryStore

  /** What a tick has sampled; with no reading, what the last one with a reading had. */
  function Sampled(m: Mcu, w: World): Inputs {
    var lid := LM.Moves(m.plant.lid, w.moves);
    match w.reading
    case None => m.input
    case Some(t) => Inputs(t, w.rpm, lid.closed, lid.locked, w.stalled)
  }

  /** Counts and tare have the widths of the scale's interface. */
  predicate Weighable(m: Mcu, w: World) {
    -0x4000_0000 <= m.plant.tare < 0x4000_0000 && (w.scale.Some? ==> -0x4000_0000 <= w.scale.value < 0x4000_0000)
  }

  /** A report tells of a tick what its samples were, what the scale has gained since the tare, and
      whether power flows. */
  predicate Tells(d: TelemetryData, m: Mcu, w: World) {
    var r, input := Tick(m, w), Sampled(m, w);
    && d.tick == (m.ticks + 1) % WRAP
    && d.temp == input.temp && d.rpm == input.rpm
    && (d.flags & 0x01 != 0 <==> input.lidClosed) && (d.flags & 0x02 != 0 <==> input.lidLocked)
    && (d.flags & 0x04 != 0 <==> r.watts > 0.0) && (d.flags & 0x08 != 0 <==> input.stalled)
    && match w.scale
       case None => d.grams == 0
       case Some(raw) => -10 < (raw - r.mcu.plant.tare) - 10 * d.grams < 10
  }

  lemma TickSamples(m: Mcu, w: World)
    ensures Tick(m, w).mcu.input == Sampled(m, w) && Tick(m, w).mcu.ticks == m.ticks + 1
    ensures var tare := Tick(m, w).mcu.plant.tare; tare == m.plant.tare || w.scale == Some(tare)
  {
    hide Handle, Replies, ContinuousCap, Drain, Ms;
    var s := Sense(Moved(m, w), w);
    DrainKeepsInput(s, w.frames, w.now, w.scale);
    DrainTares(s, w.frames, w.now, w.scale);
  }

  lemma {:induction false} DrainTares(m: Mcu, fs: seq<Frame>, now: nat, scale: Option<int>)
    ensures var tare := Drain(m, fs, now, scale).plant.tare; tare == m.plant.tare || scale == Some(tare)
  {
    hide GetU16, GetI16, ClampSpeedRequest, Grams, Ms;
    if fs != [] {
      DrainTares(m, fs[..|fs| - 1], now, scale);
    }
  }

  lemma MeasurementsTell(m: Mcu, w: World)
    requires Weighable(m, w) && Readable(Tick(m, w).mcu.input)
    ensures var d := Measurements(Tick(m, w).mcu, w.scale, Tick(m, w).watts); d.Fits() && Tells(d, m, w)
  {
    hide Tick, Flags;
    TickSamples(m, w);
    var input := Sampled(m, w);
    FlagsReadBack(input.lidClosed, input.lidLocked, Tick(m, w).watts > 0.0, input.stalled);
  }

  /** Measurements are due ten true milliseconds after the last ones; a tick publishes them exactly if they
      are due, the link has room for them, and no fault report is held up before them. They are then the
      last frame of the tick, and tell what the tick has measured. */
  lemma MeasuredIsPublished(m: Mcu, p: TP.Publisher, w: World, sent: nat, faultRoom: bool, dataRoom: bool)
    requires Weighable(m, w) && Readable(Tick(m, w).mcu.input)
    requires p.lastPublish == Ms(sent) && sent <= w.now < sent + WRAP
    ensures var q := Publishes(m, p, w, faultRoom, dataRoom);
            if w.now >= sent + 10 && dataRoom && q.publisher.pending == NoFault then
              && q.frames != [] && q.publisher.lastPublish == Ms(w.now)
              && var f := q.frames[|q.frames| - 1];
                 && f.kind == Telemetry && f.msgId == TELEMETRY_MSG && |f.payload| == TELEMETRY_PAYLOAD_SIZE
                 && Tells(DecodeTelemetry(f.payload), m, w)
                 && forall i :: 0 <= i < |q.frames| - 1 ==> q.frames[i].msgId == FAULT_MSG
            else q.publisher.lastPublish == p.lastPublish && forall i :: 0 <= i < |q.frames| ==> q.frames[i].msgId == FAULT_MSG
  {
    hide Tick, Measurements, SenseReport, ProtectReport, Heard, EncodeTelemetry, DecodeTelemetry, Ms, Elapsed, Tells;
    MeasurementsTell(m, w);
    ElapsedExact(w.now, sent);
    TelemetryRoundTrip(Measurements(Tick(m, w).mcu, w.scale, Tick(m, w).watts));
  }

  /** The application then has a sample with the temperature, the speed and the weight of that tick as its
      latest, stamped with the time of its arrival. */
  lemma MeasuredIsStored(m: Mcu, p: TP.Publisher, w: World, sent: nat, faultRoom: bool,
                         samples: seq<TS.Sample>, at: nat)
    requires Weighable(m, w) && Readable(Tick(m, w).mcu.input)
    requires p.lastPublish == Ms(sent) && sent + 10 <= w.now < sent + WRAP
    requires Publishes(m, p, w, faultRoom, true).publisher.pending == NoFault
    ensures exists d: TelemetryData :: Tells(d, m, w) &&
              MC.StoreAll(samples, Publishes(m, p, w, faultRoom, true).frames, at) ==
              TS.Keep(samples, TS.Sample(Ms(at), d.temp, d.rpm, d.grams, d.flags as int))
  {
    hide Tick, Publishes, DecodeTelemetry, Tells, TS.Keep, Ms;
    MeasuredIsPublished(m, p, w, sent, faultRoom, true);
    var fs := Publishes(m, p, w, faultRoom, true).frames;
    var n := |fs| - 1;
    assert Tells(DecodeTelemetry(fs[n].payload), m, w);
    NothingToStore(samples, fs[..n], at);
  }

  lemma {:induction false} NothingToStore(samples: seq<TS.Sample>, fs: seq<Frame>, at: nat)
    requires forall i :: 0 <= i < |fs| ==> fs[i].msgId == FAULT_MSG
    ensures MC.StoreAll(samples, fs, at) == samples
  {
    if fs != [] {
      NothingToStore(samples, fs[..|fs| - 1], at);
    }
  }
}
