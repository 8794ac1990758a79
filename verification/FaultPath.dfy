/** From the fault that the safety controller enters to the session that ends: the report on its way
    through the publisher, the line, the client and the session. The line loses nothing. */
module FaultPath {
  import opened Gf2
  import opened C1Link
  import opened Wrappers
  import opened Clock
  import opened SafetyMcu
  import opened ST = SafetyTheorems
  import opened MC = McuClient
  import CC = CookingController
  import AR = ApplicationRuntime
  import CT = ClientTheorems
  import TP = TelemetryPublisher

  /** Both controllers, the frames under way to the application, and the fault entered last. */
  datatype System = System(mcu: Mcu, publisher: TP.Publisher, line: seq<Frame>, runtime: AR.Runtime, entered: FaultCode)

  function Powered(now: nat): System {
    System(PowerOn(now), TP.SILENT, [], AR.POWERED, NoFault)
  }

  /** A tick of the safety controller, which is given any requests; or a moment of the application,
      which finds the first frames of the line. */
  datatype Step =
    | Controls(world: World, faultRoom: bool, dataRoom: bool)
    | Lives(moment: AR.Moment)

  predicate Possible(s: System, e: Step) {
    match e
    case Controls(w, _, _) => Readable(Tick(s.mcu, w).mcu.input)
    case Lives(m) => m.Millisecond? ==> m.arrived <= s.line
  }

  /** The fault that a tick enters, on its samples or after its frames. */
  function Enters(m: Mcu, w: World, before: FaultCode): FaultCode {
    if Judged(m, w).fault != Heard(m, w).fault then Judged(m, w).fault
    else if Sense(Moved(m, w), w).fault != m.fault then Sense(Moved(m, w), w).fault
    else before
  }

  function Perform(s: System, e: Step): System
    requires Possible(s, e)
  {
    match e
    case Controls(w, faultRoom, dataRoom) =>
      var p := Publishes(s.mcu, s.publisher, w, faultRoom, dataRoom);
      s.(mcu := Tick(s.mcu, w).mcu, publisher := p.publisher,
         line := s.line + (Tick(s.mcu, w).replies + p.frames), entered := Enters(s.mcu, w, s.entered))
    case Lives(m) =>
      s.(runtime := AR.Live(s.runtime, m), line := if m.Millisecond? then s.line[|m.arrived|..] else s.line)
  }

  function Run(s: System, es: seq<Step>): Option<System> {
    if es == [] then Some(s)
    else
      var before := Run(s, es[..|es| - 1]);
      var e := es[|es| - 1];
      if before.Some? && Possible(before.value, e) then Some(Perform(before.value, e)) else None
  }

  // ---- What a line has to tell ----

  /** The fault code known once these frames have been read. */
  function Told(known: Byte, fs: seq<Frame>): Byte {
    if fs == [] then known
    else if ReportsFault(fs[|fs| - 1]) then fs[|fs| - 1].payload[0]
    else Told(known, fs[..|fs| - 1])
  }

  lemma {:induction false} ToldConcat(known: Byte, a: seq<Frame>, b: seq<Frame>)
    ensures Told(known, a + b) == Told(Told(known, a), b)
  {
    hide ReportsFault;
    if b == [] {
      assert a + b == a;
    } else {
      assert (a + b)[..|a + b| - 1] == a + b[..|b| - 1];
      ToldConcat(known, a, b[..|b| - 1]);
    }
  }

  lemma {:induction false} NothingTold(known: Byte, fs: seq<Frame>)
    requires forall i :: 0 <= i < |fs| ==> !ReportsFault(fs[i])
    ensures Told(known, fs) == known
  {
    hide ReportsFault;
    if fs != [] {
      NothingTold(known, fs[..|fs| - 1]);
    }
  }

  lemma {:induction false} ClientIsTold(c: Client, fs: seq<Frame>)
    ensures AbsorbAll(c, fs).lastFault == Told(c.lastFault, fs)
  {
    hide Absorb, ReportsFault;
    if fs != [] {
      ClientIsTold(c, fs[..|fs| - 1]);
      CT.FaultStep(AbsorbAll(c, fs[..|fs| - 1]), fs[|fs| - 1]);
    }
  }

  lemma PollIsTold(c: Client, now: nat, fs: seq<Frame>, retryRoom: bool, beatRoom: bool)
    ensures Poll(c, now, fs, retryRoom, beatRoom).client.lastFault == Told(c.lastFault, fs)
  {
    hide Expire, AbsorbAll, Heartbeat, Told;
    var first := Expire(c, now, retryRoom).client;
    AR.ExpireKeepsFault(c, now, retryRoom);
    ClientIsTold(first, fs);
    CT.HeartbeatMeans(AbsorbAll(first, fs), now, beatRoom);
  }

  /** Programs, starts and stops leave the remembered fault alone. */
  lemma SessionKeepsFault(a: CC.App, e: CC.Event)
    requires CC.SessionInv(a.ctl)
    ensures CC.Happen(a, e).app.client.lastFault == a.client.lastFault
  {
    hide Ms, CC.RunActs, CC.RunStopping, CC.Note, CC.SessionInv;
    if a.client.lastFault != 0 {
      CC.ReportedFaultBarsRestart(a, e);
    } else if e.TickEvent? {
      ActsKeepFault(CC.Settle(a).client, e.acts, e.now);
      StoppingKeepsFault(CC.Settle(a), a.client.response, e.now, e.room);
    }
  }

  lemma {:induction false} ActsKeepFault(c: Client, acts: seq<CC.Act>, now: nat)
    ensures CC.RunActs(c, acts, now).client.lastFault == c.lastFault
  {
    hide Ms;
    if acts != [] {
      ActsKeepFault(c, acts[..|acts| - 1], now);
    }
  }

  lemma StoppingKeepsFault(a: CC.App, response: Option<Frame>, now: nat, room: bool)
    requires a.client.lastFault == 0
    ensures CC.RunStopping(a, response, now, room).app.client.lastFault == 0
  {
    hide Ms;
  }

  // ---- The invariant ----

  /** A report still pending is that of the fault entered last; otherwise the frames under way tell
      the application of it, or have done so. A latched fault is the one entered last. */
  predicate Inv(s: System) {
    && Sound(s.mcu) && CC.SessionInv(s.runtime.app.ctl)
    && (s.mcu.fault != NoFault ==> s.mcu.fault == s.entered)
    && AR.NoAllClear(s.line)
    && if s.publisher.pending != NoFault then s.publisher.pending == s.entered
       else Told(s.runtime.app.client.lastFault, s.line) == FaultByte(s.entered)
  }

  lemma EntersIsNoted(m: Mcu, w: World, p: TP.Publisher, before: FaultCode)
    ensures var noted := Noted(Noted(p, SenseReport(m, w)), ProtectReport(Heard(m, w), w.now));
            && (noted == p || (noted == TP.Report(p, noted.pending) && noted.pending != NoFault))
            && (noted == p && p.pending == NoFault ==> Enters(m, w, before) == before)
            && (p.pending == before ==> noted.pending == Enters(m, w, before))
            && (noted.pending != NoFault && p.pending == NoFault ==> noted.pending == Enters(m, w, before))
  {
    hide Drain, Heard;
    EnterChangesFault(Heard(m, w), w.now);
  }

  lemma LatchedIsEntered(m: Mcu, w: World, before: FaultCode)
    requires Sound(m) && (m.fault != NoFault ==> m.fault == before)
    ensures Tick(m, w).mcu.fault != NoFault ==> Tick(m, w).mcu.fault == Enters(m, w, before)
  {
    hide Drain, Replies;
    SenseSound(m, w);
    DrainSound(Sense(Moved(m, w), w), w.frames, w.now, w.scale);
  }

  lemma RepliesTellNothing(m: Mcu, w: World, known: Byte)
    ensures Told(known, Tick(m, w).replies) == known
    ensures forall i :: 0 <= i < |Tick(m, w).replies| ==> !ReportsFault(Tick(m, w).replies[i])
  {
    hide Sense, Judged, Drain, Replies, Told;
    var s := Sense(Moved(m, w), w);
    RepliesMatchRequests(s, w.frames, w.now, w.scale);
    NothingTold(known, Replies(s, w.frames, w.now, w.scale));
  }

  lemma LineStaysTrue(line: seq<Frame>, replies: seq<Frame>, published: seq<Frame>)
    requires AR.NoAllClear(line)
    requires forall i :: 0 <= i < |replies| ==> !ReportsFault(replies[i])
    requires forall i :: 0 <= i < |published| ==> TP.Genuine(published[i])
    ensures AR.NoAllClear(line + (replies + published))
  {
  }

  lemma {:induction false} KnownStaysKnown(known: Byte, fs: seq<Frame>)
    requires known != 0 && AR.NoAllClear(fs)
    ensures Told(known, fs) != 0
  {
    if fs != [] {
      KnownStaysKnown(known, fs[..|fs| - 1]);
    }
  }

  lemma PublishTells(p: TP.Publisher, d: TelemetryData, now: nat, faultRoom: bool, dataRoom: bool, known: Byte)
    requires d.Measured()
    ensures var q := TP.Publish(p, d, now, faultRoom, dataRoom);
            && q.publisher.pending == (if faultRoom then NoFault else p.pending)
            && Told(known, q.frames) == if p.pending != NoFault && faultRoom then FaultByte(p.pending) else known
  {
    hide EncodeTelemetry, FaultByte, Elapsed, Ms, Told, TP.SendData;
    var first := TP.SendFault(p, faultRoom);
    var second := TP.SendData(first.publisher, d, now, dataRoom);
    FaultFrameTells(known, p.seqNo, p.pending);
    NothingTold(known, []);
    DataTellsNothing(first.publisher, d, now, dataRoom, Told(known, first.frames));
    ToldConcat(known, first.frames, second.frames);
  }

  lemma FaultFrameTells(known: Byte, seqNo: Byte, code: FaultCode)
    ensures Told(known, [TP.FaultFrame(seqNo, code)]) == FaultByte(code)
  {
    hide FaultByte;
  }

  lemma DataTellsNothing(p: TP.Publisher, d: TelemetryData, now: nat, room: bool, known: Byte)
    requires d.Measured()
    ensures var q := TP.SendData(p, d, now, room);
            Told(known, q.frames) == known && q.publisher.pending == p.pending
  {
    hide EncodeTelemetry, Told;
    NothingTold(known, TP.SendData(p, d, now, room).frames);
  }

  lemma ControlsKeepsInv(s: System, e: Step)
    requires Inv(s) && e.Controls? && Possible(s, e)
    ensures Inv(Perform(s, e))
    ensures e.faultRoom ==> Perform(s, e).publisher.pending == NoFault
  {
    hide Tick, Sound, Enters, Noted, SenseReport, ProtectReport, Heard, Flags, TP.Publish, FaultByte, Told,
      CC.SessionInv, AR.NoAllClear;
    var w, known := e.world, s.runtime.app.client.lastFault;
    var noted := Noted(Noted(s.publisher, SenseReport(s.mcu, w)), ProtectReport(Heard(s.mcu, w), w.now));
    var p := Publishes(s.mcu, s.publisher, w, e.faultRoom, e.dataRoom);
    TickFaults(s.mcu, w);
    LatchedIsEntered(s.mcu, w, s.entered);
    EntersIsNoted(s.mcu, w, s.publisher, s.entered);
    var told := Told(known, s.line);
    ToldConcat(known, s.line, Tick(s.mcu, w).replies + p.frames);
    ToldConcat(told, Tick(s.mcu, w).replies, p.frames);
    RepliesTellNothing(s.mcu, w, told);
    var data := Measurements(Tick(s.mcu, w).mcu, w.scale, Tick(s.mcu, w).watts);
    TP.PublishShape(noted, data, w.now, e.faultRoom, e.dataRoom);
    PublishTells(noted, data, w.now, e.faultRoom, e.dataRoom, told);
    LineStaysTrue(s.line, Tick(s.mcu, w).replies, p.frames);
  }

  lemma LivesKeepsInv(s: System, e: Step)
    requires Inv(s) && e.Lives? && Possible(s, e)
    ensures Inv(Perform(s, e))
  {
    hide Sound, FaultByte, Told, CC.SessionInv, Poll, CC.Tick, CC.Happen;
    var r, m := s.runtime, e.moment;
    match m
    case StartPressed(p) =>
      AppEvent(r.app, CC.StartEvent(p));
    case StopPressed =>
      AppEvent(r.app, CC.StopEvent);
    case Millisecond(now, arrived, retryRoom, beatRoom, room, acts, finished) =>
      PollIsTold(r.app.client, now, arrived, retryRoom, beatRoom);
      assert s.line == arrived + s.line[|arrived|..];
      ToldConcat(r.app.client.lastFault, arrived, s.line[|arrived|..]);
      var polled := r.app.(client := Poll(r.app.client, now, arrived, retryRoom, beatRoom).client);
      AppEvent(polled, CC.TickEvent(now, room, acts, finished));
  }

  lemma AppEvent(a: CC.App, e: CC.Event)
    requires CC.SessionInv(a.ctl)
    ensures var b := match e
                     case StartEvent(p) => CC.StartProgram(a, p)
                     case StopEvent => CC.Stop(a)
                     case TickEvent(now, room, acts, finished) => CC.Tick(a, now, room, acts, finished).app;
            CC.SessionInv(b.ctl) && b.client.lastFault == a.client.lastFault
  {
    hide CC.SessionInv, CC.Tick, CC.StartProgram, CC.Stop;
    CC.HappenKeepsSession(a, e);
    SessionKeepsFault(a, e);
  }

  lemma {:induction false} RunKeepsInv(now: nat, es: seq<Step>)
    requires Run(Powered(now), es).Some?
    ensures Inv(Run(Powered(now), es).value)
  {
    hide Perform, Possible, Inv;
    if es == [] {
      PoweredInv(now);
    } else {
      var n := |es| - 1;
      RunKeepsInv(now, es[..n]);
      var s := Run(Powered(now), es[..n]).value;
      if es[n].Controls? {
        ControlsKeepsInv(s, es[n]);
      } else {
        LivesKeepsInv(s, es[n]);
      }
    }
  }

  lemma PoweredInv(now: nat)
    ensures Inv(Powered(now))
  {
  }

  // ---- Main results ----

  /** The application's controller ticks at the end of this millisecond. */
  predicate TicksNow(s: System) {
    s.runtime.divider + 1 >= AR.TICK_DIVIDER
  }

  /** On every run: once the link has taken the report and the application has read the line to its
      end, it remembers exactly the fault entered last, which is the one latched, if one is; none is
      remembered before the first. */
  lemma FaultsArrive(now: nat, es: seq<Step>)
    requires Run(Powered(now), es).Some?
    ensures var s := Run(Powered(now), es).value;
            && (s.publisher.pending == NoFault && s.line == [] ==>
                  && s.runtime.app.client.lastFault == FaultByte(s.entered)
                  && (s.runtime.app.client.lastFault == 0 <==> s.entered == NoFault)
                  && (s.mcu.fault != NoFault ==> s.runtime.app.client.lastFault == FaultByte(s.mcu.fault)))
  {
    hide Run;
    RunKeepsInv(now, es);
  }

  /** ... and the link has taken it after any tick for which there was room. */
  lemma RoomTakesTheReport(now: nat, es: seq<Step>, e: Step)
    requires Run(Powered(now), es + [e]).Some? && e.Controls? && e.faultRoom
    ensures Run(Powered(now), es + [e]).value.publisher.pending == NoFault
  {
    hide Perform, Possible, Inv;
    assert (es + [e])[..|es|] == es;
    RunKeepsInv(now, es);
    ControlsKeepsInv(Run(Powered(now), es).value, e);
  }

  /** What a moment lets the application know. */
  function Knows(s: System, m: AR.Moment): Byte {
    var known := s.runtime.app.client.lastFault;
    if m.Millisecond? then Told(known, m.arrived) else known
  }

  lemma KnownFaultEnds(s: System, m: AR.Moment)
    requires Inv(s) && Possible(s, Lives(m)) && Knows(s, m) != 0
    ensures var t := Perform(s, Lives(m));
            && t.runtime.app.client.lastFault == Knows(s, m)
            && (m.Millisecond? && TicksNow(s) ==> t.runtime.app.ctl.session == CC.Faulted)
  {
    hide Told, Poll, CC.Tick, CC.SessionInv, Sound, AR.NoAllClear, CC.StartProgram, CC.Stop;
    var a := s.runtime.app;
    match m
    case StartPressed(p) => AppEvent(a, CC.StartEvent(p));
    case StopPressed => AppEvent(a, CC.StopEvent);
    case Millisecond(now, arrived, retryRoom, beatRoom, room, acts, finished) =>
      PollIsTold(a.client, now, arrived, retryRoom, beatRoom);
      var polled := a.(client := Poll(a.client, now, arrived, retryRoom, beatRoom).client);
      CC.ReportedFaultBarsRestart(polled, CC.TickEvent(now, room, acts, finished));
  }

  lemma KnownStays(s: System, e: Step)
    requires Inv(s) && Possible(s, e) && s.runtime.app.client.lastFault != 0
    ensures Perform(s, e).runtime.app.client.lastFault != 0
    ensures e.Lives? && e.moment.Millisecond? && TicksNow(s) ==> Perform(s, e).runtime.app.ctl.session == CC.Faulted
  {
    hide Told, Tick, Publishes, Enters, AR.Live, Sound, CC.SessionInv;
    if e.Lives? {
      if e.moment.Millisecond? {
        KnownStaysKnown(s.runtime.app.client.lastFault, e.moment.arrived);
      }
      KnownFaultEnds(s, e.moment);
    }
  }

  /** However the fault was entered, and whatever the session and the program were doing: the first
      controller tick that finds the report on the line ends Faulted. */
  lemma EnteredFaultEndsTheSession(now: nat, es: seq<Step>, m: AR.Moment)
    requires Run(Powered(now), es + [Lives(m)]).Some? && m.Millisecond?
    ensures var s := Run(Powered(now), es).value;
            var t := Run(Powered(now), es + [Lives(m)]).value;
            TicksNow(s) && s.publisher.pending == NoFault && s.entered != NoFault && m.arrived == s.line ==>
              && t.runtime.app.ctl.session == CC.Faulted
              && t.runtime.app.client.lastFault == FaultByte(s.entered)
  {
    hide Told, Perform, CC.SessionInv, Sound, AR.NoAllClear;
    assert (es + [Lives(m)])[..|es|] == es;
    RunKeepsInv(now, es);
    var s := Run(Powered(now), es).value;
    if Knows(s, m) != 0 {
      KnownFaultEnds(s, m);
    }
  }

  /** ... and so do all controller ticks after the application knows of a fault, acknowledged to the
      safety controller or not. */
  lemma {:induction false} KnownFaultBarsAll(now: nat, es: seq<Step>, more: seq<Step>)
    requires Run(Powered(now), es + more).Some? && Run(Powered(now), es).Some?
    requires Run(Powered(now), es).value.runtime.app.client.lastFault != 0
    ensures var n := |more| - 1;
            var t := Run(Powered(now), es + more).value;
            && t.runtime.app.client.lastFault != 0
            && (more != [] && more[n].Lives? && more[n].moment.Millisecond? ==>
                  Run(Powered(now), es + more[..n]).Some? &&
                  (TicksNow(Run(Powered(now), es + more[..n]).value) ==> t.runtime.app.ctl.session == CC.Faulted))
  {
    hide Perform, Possible, Inv;
    if more == [] {
      assert es + more == es;
    } else {
      var n := |more| - 1;
      assert (es + more)[..|es + more| - 1] == es + more[..n];
      KnownFaultBarsAll(now, es, more[..n]);
      RunKeepsInv(now, es + more[..n]);
      KnownStays(Run(Powered(now), es + more[..n]).value, more[n]);
    }
  }
}
