/** The cooking session: a program starts only after an acknowledged shutdown of both outputs, and
    any failure brings the session down the same way. The program itself is a parameter: in every
    tick it may issue any requests and declare itself finished. */
module CookingController {
  import opened Gf2
  import opened C1Link
  import opened Wrappers
  import opened Clock
  import opened MC = McuClient
  import TS = TelemetryStore
  import OU = OtaUpdater

  // ---- Specification ----

  datatype Session = Idle | Running | Stopping | Done | Faulted

  datatype Controller = Controller(session: Session, program: Option<nat>, startedAt: nat,
                                   heaterSent: bool, heaterDone: bool, motorSent: bool, motorDone: bool,
                                   faultShutdown: bool, startAfter: bool, pending: Option<nat>, feeds: nat)

  const ASLEEP := Controller(Idle, None, 0, false, false, false, false, false, false, None, 0)

  datatype App = App(ctl: Controller, client: Client)

  /** The application together with the frames it has just handed to the link. */
  datatype Acted = Acted(app: App, queued: seq<Frame>)

  /** A request a program makes during its tick, and whether the link has room for it. */
  datatype Act = Act(id: Byte, payload: seq<Byte>, room: bool)

  /** Nothing has been sent or acknowledged, and no program waits. */
  function NoShutdown(k: Controller, faulted: bool): Controller {
    k.(heaterSent := false, heaterDone := false, motorSent := false, motorDone := false,
       faultShutdown := faulted, startAfter := false, pending := None)
  }

  function BeginShutdown(a: App, faulted: bool): App {
    App(NoShutdown(a.ctl, faulted).(session := if faulted then Faulted else Stopping), ClearStatus(a.client))
  }

  function Begin(a: App, program: nat, now: nat): App {
    App(NoShutdown(a.ctl, false).(program := Some(program), startedAt := Ms(now), session := Running),
        ClearStatus(ClearFault(a.client)))
  }

  function StartStatus(a: App, program: Option<nat>): Status {
    if program == None then InvalidArgument
    else if a.ctl.session == Running || a.ctl.session == Stopping || (a.ctl.session == Faulted && !a.ctl.motorDone)
    then NotReady
    else Ok
  }

  function StartProgram(a: App, program: Option<nat>): App {
    if StartStatus(a, program) != Ok then a
    else
      var b := BeginShutdown(a, false);
      b.(ctl := b.ctl.(pending := program, startAfter := true))
  }

  function Stop(a: App): App {
    if a.ctl.session == Stopping && a.ctl.startAfter then a.(ctl := a.ctl.(startAfter := false, pending := None))
    else if a.ctl.session != Stopping && a.ctl.session != Faulted then BeginShutdown(a, false)
    else a
  }

  /** Acknowledgements are noted in the order in which they were asked for. */
  function NoteReply(k: Controller, response: Option<Frame>): Controller {
    if response == None || response.value.kind != Response then k
    else if k.heaterSent && !k.heaterDone && response.value.msgId == HEATER_OFF then k.(heaterDone := true)
    else if k.motorSent && !k.motorDone && response.value.msgId == MOTOR_STOP then k.(motorDone := true)
    else k
  }

  /** A failed shutdown command is issued again. */
  function NoteFailure(a: App): App {
    if a.client.status == Ok then a
    else
      App(if !a.ctl.heaterDone then a.ctl.(heaterSent := false)
          else if !a.ctl.motorDone then a.ctl.(motorSent := false)
          else a.ctl,
          ClearStatus(a.client))
  }

  function SendHeaterOff(a: App, now: nat, room: bool): Acted {
    if a.ctl.heaterSent || a.client.waiting then Acted(a, [])
    else
      var s := Ask(a.client, HEATER_OFF, [], now, room);
      Acted(App(a.ctl.(heaterSent := RequestStatus(a.client, [], room) == Ok), s.client), s.queued)
  }

  function SendMotorStop(a: App, now: nat, room: bool): Acted {
    if a.ctl.motorSent || a.client.waiting then Acted(a, [])
    else
      var s := Ask(a.client, MOTOR_STOP, [], now, room);
      Acted(App(a.ctl.(motorSent := RequestStatus(a.client, [], room) == Ok), s.client), s.queued)
  }

  function Note(a: App, response: Option<Frame>): App {
    NoteFailure(a.(ctl := NoteReply(a.ctl, response)))
  }

  function RunStopping(a: App, response: Option<Frame>, now: nat, room: bool): Acted {
    var b := Note(a, response);
    if !b.ctl.heaterDone then SendHeaterOff(b, now, room)
    else if !b.ctl.motorDone then SendMotorStop(b, now, room)
    else if b.ctl.startAfter && b.ctl.pending.Some? && !b.ctl.faultShutdown then
      Acted(Begin(b, b.ctl.pending.value, now), [])
    else Acted(b.(ctl := b.ctl.(session := if b.ctl.faultShutdown then Faulted else Done)), [])
  }

  function RunActs(c: Client, acts: seq<Act>, now: nat): Sent {
    if acts == [] then Sent(c, [])
    else
      var before := RunActs(c, acts[..|acts| - 1], now);
      var act := acts[|acts| - 1];
      var s := Ask(before.client, act.id, act.payload, now, act.room);
      Sent(s.client, before.queued + s.queued)
  }

  predicate Failed(a: App) {
    a.ctl.session != Faulted && (a.client.lastFault != 0 || a.client.status != Ok)
  }

  /** The watchdog is fed, the latest reply is taken, and a failure starts the shutdown. */
  function Settle(a: App): App {
    var b := App(a.ctl.(feeds := a.ctl.feeds + 1), Take(a.client));
    if Failed(b) then BeginShutdown(b, true) else b
  }

  function Tick(a: App, now: nat, room: bool, acts: seq<Act>, finished: bool): Acted {
    var b := Settle(a);
    if b.ctl.session == Running && b.ctl.program.Some? then
      var s := RunActs(b.client, acts, now);
      var c := b.(client := s.client);
      Acted(if finished then BeginShutdown(c, false) else c, s.queued)
    else if b.ctl.session == Stopping || b.ctl.session == Faulted then
      RunStopping(b, a.client.response, now, room)
    else Acted(b, [])
  }

  // ---- The session invariant ----

  predicate SessionInv(k: Controller) {
    && (k.pending.Some? <==> k.startAfter)
    && (k.startAfter ==> k.session == Stopping)
    && (k.faultShutdown <==> k.session == Faulted)
    && (k.motorDone ==> k.motorSent) && (k.motorSent ==> k.heaterDone) && (k.heaterDone ==> k.heaterSent)
    && (k.session == Running || k.session == Idle ==> !k.heaterSent)
    && (k.session == Running ==> k.program.Some?)
    && (k.session == Done ==> k.motorDone)
  }

  /** What can happen to a session, the client having changed in any way since the last event. */
  datatype Event =
    | StartEvent(program: Option<nat>)
    | StopEvent
    | TickEvent(now: nat, room: bool, acts: seq<Act>, finished: bool)

  function Happen(a: App, e: Event): Acted {
    match e
    case StartEvent(p) => Acted(StartProgram(a, p), [])
    case StopEvent => Acted(Stop(a), [])
    case TickEvent(now, room, acts, finished) => Tick(a, now, room, acts, finished)
  }

  function SessionAfter(k: Controller, es: seq<(Client, Event)>): Controller {
    if es == [] then k
    else
      var (c, e) := es[|es| - 1];
      Happen(App(SessionAfter(k, es[..|es| - 1]), c), e).app.ctl
  }

  /** What a shutdown may put on the link: one empty command, HEATER_OFF as long as the heater has
      not been acknowledged and MOTOR_STOP only afterwards. */
  predicate OrderlyCommand(k: Controller, queued: seq<Frame>) {
    queued != [] ==>
      |queued| == 1 && queued[0].kind == Request && queued[0].payload == [] &&
      queued[0].msgId == if k.heaterDone then MOTOR_STOP else HEATER_OFF
  }

  predicate AcknowledgesStop(response: Option<Frame>) {
    response.Some? && response.value.kind == Response && response.value.msgId == MOTOR_STOP
  }

  /** MOTOR_STOP has been acknowledged, if need be by the reply that waits to be taken. */
  predicate StopAcknowledged(k: Controller, response: Option<Frame>) {
    k.motorDone || (k.motorSent && AcknowledgesStop(response))
  }

  predicate Entering(k: Controller, l: Controller, s: Session) {
    k.session != s && l.session == s
  }

  lemma AskMeans(c: Client, id: Byte, payload: seq<Byte>, now: nat, room: bool)
    ensures var s := Ask(c, id, payload, now, room);
            && (RequestStatus(c, payload, room) == Ok <==> s.queued != [])
            && (s.queued != [] ==> s.queued == [Frame(Request, c.nextSeq, id, payload)])
  {
    hide Ms, Succ;
  }

  lemma SettleKeepsSession(a: App)
    requires SessionInv(a.ctl)
    ensures var k := Settle(a).ctl;
            && SessionInv(k)
            && (k.session == a.ctl.session || k.session == Faulted)
            && (k.session == a.ctl.session ==> k == a.ctl.(feeds := a.ctl.feeds + 1))
  {
  }

  lemma NoteKeepsSession(a: App, response: Option<Frame>)
    requires SessionInv(a.ctl) && (a.ctl.session == Stopping || a.ctl.session == Faulted)
    ensures var k := Note(a, response).ctl;
            && SessionInv(k) && k.session == a.ctl.session && k.program == a.ctl.program
            && (k.motorDone ==> a.ctl.heaterDone && StopAcknowledged(a.ctl, response))
  {
  }

  lemma StoppingKeepsSession(a: App, response: Option<Frame>, now: nat, room: bool)
    requires SessionInv(a.ctl) && (a.ctl.session == Stopping || a.ctl.session == Faulted)
    ensures var done := RunStopping(a, response, now, room);
            && SessionInv(done.app.ctl) && OrderlyCommand(done.app.ctl, done.queued)
            && (done.app.ctl.session == a.ctl.session || a.ctl.session == Stopping)
            && (done.app.ctl.session == Running || done.app.ctl.session == Done ==>
                  a.ctl.heaterDone && StopAcknowledged(a.ctl, response))
  {
    hide Ms, Succ, Ask, RequestStatus, Note;
    NoteKeepsSession(a, response);
    var b := Note(a, response);
    AskMeans(b.client, HEATER_OFF, [], now, room);
    AskMeans(b.client, MOTOR_STOP, [], now, room);
  }

  /** One event keeps the invariant; the drive is stopped only after the heater's command has been
      acknowledged; and a session enters Running or Done only from a shutdown both of whose commands
      have been acknowledged. */
  lemma HappenKeepsSession(a: App, e: Event)
    requires SessionInv(a.ctl)
    ensures var done := Happen(a, e);
            && SessionInv(done.app.ctl)
            && (a.ctl.session != Running ==> OrderlyCommand(done.app.ctl, done.queued))
            && (Entering(a.ctl, done.app.ctl, Running) || Entering(a.ctl, done.app.ctl, Done) ==>
                  a.ctl.session == Stopping && a.ctl.heaterDone && StopAcknowledged(a.ctl, a.client.response))
  {
    hide Ms, RunActs, RunStopping, Settle;
    if e.TickEvent? {
      SettleKeepsSession(a);
      var b := Settle(a);
      if b.ctl.session == Stopping || b.ctl.session == Faulted {
        StoppingKeepsSession(b, a.client.response, e.now, e.room);
      }
    }
  }

  /** Over all interleavings of starts, stops and ticks, with any replies, refusals, timeouts and
      faults in between. */
  lemma {:induction false} SessionStaysOrderly(es: seq<(Client, Event)>)
    ensures SessionInv(SessionAfter(ASLEEP, es))
  {
    hide Happen, SessionInv;
    if es == [] {
      AsleepInv();
    } else {
      var n := |es| - 1;
      SessionStaysOrderly(es[..n]);
      HappenKeepsSession(App(SessionAfter(ASLEEP, es[..n]), es[n].0), es[n].1);
    }
  }

  /** A fault code reported by the controller is forgotten only when a session begins, and no session
      can begin while it is remembered: every tick ends Faulted, whatever is started in between. */
  lemma ReportedFaultBarsRestart(a: App, e: Event)
    requires SessionInv(a.ctl) && a.client.lastFault != 0
    ensures var b := Happen(a, e).app;
            && b.client.lastFault == a.client.lastFault
            && (e.TickEvent? ==> b.ctl.session == Faulted)
            && !Entering(a.ctl, b.ctl, Running)
  {
    hide Ms, RunActs, RunStopping, Note;
    if e.TickEvent? {
      var b := Settle(a);
      SettleKeepsSession(a);
      NoteKeepsSession(b, a.client.response);
      FaultedStaysFaulted(b, a.client.response, e.now, e.room);
    }
  }

  /** A tick begins a session if and only if a program waits for a shutdown, both of whose commands are
      now acknowledged, no fault is remembered and no command has failed. */
  lemma RunsExactly(a: App, now: nat, room: bool, acts: seq<Act>, finished: bool)
    requires SessionInv(a.ctl)
    ensures Entering(a.ctl, Tick(a, now, room, acts, finished).app.ctl, Running) <==>
            && a.ctl.session == Stopping && a.ctl.startAfter
            && a.client.lastFault == 0 && a.client.status == Ok
            && a.ctl.heaterDone && StopAcknowledged(a.ctl, a.client.response)
  {
    hide Ms, RunActs, Ask, RequestStatus;
    SettleKeepsSession(a);
  }

  lemma FaultedStaysFaulted(a: App, response: Option<Frame>, now: nat, room: bool)
    requires SessionInv(a.ctl) && a.ctl.session == Faulted
    ensures var b := RunStopping(a, response, now, room).app;
            b.ctl.session == Faulted && b.client.lastFault == a.client.lastFault
  {
    hide Ms, Succ, Note;
    NoteKeepsSession(a, response);
    NoteKeepsFault(a, response);
  }

  lemma NoteKeepsFault(a: App, response: Option<Frame>)
    ensures Note(a, response).client.lastFault == a.client.lastFault
  {
  }

  /** Once stopped, a session does not run again unless a program is started: a program that was
      waiting for the shutdown is dropped. */
  lemma {:induction false} StoppedStaysStopped(a: App, es: seq<(Client, Event)>)
    requires SessionInv(a.ctl)
    requires forall i :: 0 <= i < |es| ==> !es[i].1.StartEvent?
    ensures var k := SessionAfter(Stop(a).ctl, es);
            SessionInv(k) && k.session != Running && !k.startAfter
  {
    hide Happen, SessionInv, Stop;
    if es == [] {
      StopMeans(a);
    } else {
      var n := |es| - 1;
      StoppedStaysStopped(a, es[..n]);
      OnlyStartsRun(App(SessionAfter(Stop(a).ctl, es[..n]), es[n].0), es[n].1);
    }
  }

  lemma StopMeans(a: App)
    requires SessionInv(a.ctl)
    ensures var k := Stop(a).ctl;
            SessionInv(k) && k.session != Running && !k.startAfter
  {
  }

  lemma OnlyStartsRun(a: App, e: Event)
    requires SessionInv(a.ctl) && a.ctl.session != Running && !a.ctl.startAfter && !e.StartEvent?
    ensures var k := Happen(a, e).app.ctl;
            SessionInv(k) && k.session != Running && !k.startAfter
  {
    hide Ms, RunActs, RunStopping, Settle, Stop;
    HappenKeepsSession(a, e);
    StopMeans(a);
    if e.TickEvent? {
      SettleKeepsSession(a);
      StoppingWithoutStart(Settle(a), a.client.response, e.now, e.room);
    }
  }

  lemma StoppingWithoutStart(a: App, response: Option<Frame>, now: nat, room: bool)
    requires SessionInv(a.ctl) && !a.ctl.startAfter
    ensures var k := RunStopping(a, response, now, room).app.ctl;
            (k.session == Running ==> a.ctl.session == Running) && !k.startAfter
  {
    hide Ms, Succ, Ask, RequestStatus, Note;
    NoteKeepsStart(a, response);
  }

  lemma NoteKeepsStart(a: App, response: Option<Frame>)
    ensures var k := Note(a, response).ctl;
            k.startAfter == a.ctl.startAfter && k.session == a.ctl.session
  {
  }

  lemma AsleepInv()
    ensures SessionInv(ASLEEP)
  {
  }

  // ---- The controller object ----

  const DISPLAY_WINDOW_MS: nat := 2000

  /** What the display shows: the mean temperature over the window, and the hot-bowl warning. */
  datatype Display = Display(averageTemp: real, hotBowl: bool)

  /** ... and what it ought to show: the warning exactly when some reading is above 60 degrees. */
  ghost predicate Shows(d: Display, samples: seq<TS.Sample>, newest: nat) {
    var window := TS.Scanned(samples, newest, DISPLAY_WINDOW_MS);
    d.averageTemp == TS.Mean(window) && (d.hotBowl <==> exists x :: x in window && x.temp > 600)
  }

  class CookingController {
    const mcu: MC.McuClient
    const telemetry: TS.TelemetryStore
    var ota: OU.OtaUpdater?
    var display: Display
    var session: Session
    var program: Option<nat>
    var startedAt: nat
    var heaterSent: bool
    var heaterDone: bool
    var motorSent: bool
    var motorDone: bool
    var faultShutdown: bool
    var startAfter: bool
    var pending: Option<nat>
    var feeds: nat

    ghost function Abs(): App
      reads this, mcu
    {
      App(Controller(session, program, startedAt, heaterSent, heaterDone, motorSent, motorDone,
                     faultShutdown, startAfter, pending, feeds), mcu.Abs())
    }

    constructor (mcu: MC.McuClient, telemetry: TS.TelemetryStore)
      ensures this.mcu == mcu && this.telemetry == telemetry && ota == null && Abs().ctl == ASLEEP
    {
      this.mcu, this.telemetry, ota := mcu, telemetry, null;
      display := Display(0.0, false);
      session, program, startedAt := Idle, None, 0;
      heaterSent, heaterDone, motorSent, motorDone := false, false, false, false;
      faultShutdown, startAfter, pending, feeds := false, false, None, 0;
    }

    method Start(next: Option<nat>) returns (status: Status)
      requires mcu.Valid()
      modifies this, mcu
      ensures mcu.Valid() && Abs() == StartProgram(old(Abs()), next) && status == StartStatus(old(Abs()), next)
      ensures display == old(display) && ota == old(ota)
    {
      hide Ms, ClearStatus, ClearFault, MC.McuClient.Abs, MC.McuClient.Valid;
      if next == None {
        return InvalidArgument;
      }
      if session == Running || session == Stopping || (session == Faulted && !motorDone) {
        return NotReady;
      }
      ShutDown(false);
      pending := next;
      startAfter := true;
      return Ok;
    }

    method StopSession()
      requires mcu.Valid()
      modifies this, mcu
      ensures mcu.Valid() && Abs() == Stop(old(Abs()))
      ensures display == old(display) && ota == old(ota)
    {
      hide Ms, ClearStatus, ClearFault, MC.McuClient.Abs, MC.McuClient.Valid;
      if session == Stopping && startAfter {
        startAfter := false;
        pending := None;
      } else if session != Stopping && session != Faulted {
        ShutDown(false);
      }
    }

    method BeginProgram(next: nat, now: nat)
      requires mcu.Valid()
      modifies this, mcu
      ensures mcu.Valid() && Abs() == Begin(old(Abs()), next, now)
      ensures display == old(display) && ota == old(ota)
    {
      hide Ms, ClearStatus, ClearFault, MC.McuClient.Abs, MC.McuClient.Valid;
      ClearShutdown(false);
      program := Some(next);
      startedAt := Ms(now);
      mcu.ForgetFault();
      mcu.ForgetCommandStatus();
      session := Running;
    }

    method ShutDown(faulted: bool)
      requires mcu.Valid()
      modifies this, mcu
      ensures mcu.Valid() && Abs() == BeginShutdown(old(Abs()), faulted)
      ensures display == old(display) && ota == old(ota)
    {
      hide Ms, ClearStatus, ClearFault, MC.McuClient.Abs, MC.McuClient.Valid;
      ClearShutdown(faulted);
      mcu.ForgetCommandStatus();
      session := if faulted then Faulted else Stopping;
    }

    method ClearShutdown(faulted: bool)
      modifies this
      ensures Abs() == old(Abs()).(ctl := NoShutdown(old(Abs()).ctl, faulted))
      ensures display == old(display) && ota == old(ota)
    {
      hide MC.McuClient.Abs;
      heaterSent, heaterDone, motorSent, motorDone := false, false, false, false;
      faultShutdown, startAfter, pending := faulted, false, None;
    }

    method NoteOutcome(response: Option<Frame>)
      requires mcu.Valid()
      modifies this, mcu
      ensures mcu.Valid() && Abs() == Note(old(Abs()), response)
      ensures display == old(display) && ota == old(ota)
    {
      hide Ms, NoteReply, ClearStatus, ClearFault, MC.McuClient.Abs, MC.McuClient.Valid;
      NoteAcknowledgement(response);
      if mcu.LastCommandStatus() != Ok {
        mcu.ForgetCommandStatus();
        if !heaterDone {
          heaterSent := false;
        } else if !motorDone {
          motorSent := false;
        }
      }
    }

    method NoteAcknowledgement(response: Option<Frame>)
      modifies this`heaterDone, this`motorDone
      ensures Abs() == old(Abs()).(ctl := NoteReply(old(Abs()).ctl, response))
    {
      hide MC.McuClient.Abs;
      if response.Some? && response.value.kind == Response {
        if heaterSent && !heaterDone && response.value.msgId == HEATER_OFF {
          heaterDone := true;
        } else if motorSent && !motorDone && response.value.msgId == MOTOR_STOP {
          motorDone := true;
        }
      }
    }

    method RunStoppingSequence(response: Option<Frame>, now: nat)
      requires mcu.Valid()
      modifies this, mcu, mcu.port
      ensures mcu.Valid()
      ensures var d := RunStopping(old(Abs()), response, now, old(mcu.port.HasRoom()));
              Abs() == d.app && mcu.port.outbox == old(mcu.port.outbox) + d.queued
      ensures display == old(display) && ota == old(ota)
    {
      hide Ms, ClearStatus, ClearFault, Succ, Ask, RequestStatus, Note, MC.McuClient.Abs, MC.McuClient.Valid;
      NoteOutcome(response);
      if !heaterDone {
        if !heaterSent && !mcu.AwaitingResponse() {
          var status := mcu.SendRequest(HEATER_OFF, [], now);
          heaterSent := status == Ok;
        }
        return;
      }
      if !motorDone {
        if !motorSent && !mcu.AwaitingResponse() {
          var status := mcu.SendRequest(MOTOR_STOP, [], now);
          motorSent := status == Ok;
        }
        return;
      }
      if startAfter && pending.Some? && !faultShutdown {
        BeginProgram(pending.value, now);
        return;
      }
      session := if faultShutdown then Faulted else Done;
    }

    /** The requests of a program, each tried against the room the link has at that moment. */
    method RunProgram(acts: seq<Act>, now: nat) returns (ghost tried: seq<Act>)
      requires mcu.Valid()
      modifies mcu, mcu.port
      ensures mcu.Valid()
      ensures |tried| == |acts| && forall i :: 0 <= i < |acts| ==> tried[i] == acts[i].(room := tried[i].room)
      ensures mcu.Abs() == RunActs(old(mcu.Abs()), tried, now).client
      ensures mcu.port.outbox == old(mcu.port.outbox) + RunActs(old(mcu.Abs()), tried, now).queued
    {
      hide Ms, ClearStatus, ClearFault, Succ, Ask, RequestStatus, MC.McuClient.Abs, MC.McuClient.Valid;
      ghost var c0, sent := mcu.Abs(), mcu.port.outbox;
      tried := [];
      for i := 0 to |acts|
        invariant mcu.Valid() && |tried| == i
        invariant forall j :: 0 <= j < i ==> tried[j] == acts[j].(room := tried[j].room)
        invariant mcu.Abs() == RunActs(c0, tried, now).client
        invariant mcu.port.outbox == sent + RunActs(c0, tried, now).queued
      {
        ghost var act := acts[i].(room := mcu.port.HasRoom());
        var status := mcu.SendRequest(acts[i].id, acts[i].payload, now);
        assert (tried + [act])[..i] == tried;
        tried := tried + [act];
      }
    }

    method AttachOta(updater: OU.OtaUpdater?)
      modifies this`ota
      ensures ota == updater && Abs() == old(Abs())
    {
      ota := updater;
    }

    method RefreshDisplay()
      modifies this`display
      ensures Shows(display, telemetry.samples, telemetry.Latest().t)
    {
      hide TS.Scanned, TS.Mean;
      var averageTemp := telemetry.AverageTempC(DISPLAY_WINDOW_MS);
      var hottest := telemetry.MaxTempC(DISPLAY_WINDOW_MS);
      display := Display(averageTemp, hottest > 60.0);
      if telemetry.samples == [] {
        TS.NothingScanned(telemetry.Latest().t, DISPLAY_WINDOW_MS);
      } else {
        TS.HotBowlExactly(hottest, TS.Scanned(telemetry.samples, telemetry.Latest().t, DISPLAY_WINDOW_MS));
      }
    }

    method StepOta()
      requires ota != null ==> ota.Valid()
      modifies ota
      ensures ota != null ==> ota.Valid() && ota.Abs() == OU.Step(old(ota.Abs()))
    {
      if ota != null && ota.state == OU.Verifying {
        ota.StepOnce();
      }
    }

    /** The program's turn, or the shutdown's. */
    method RunSession(ghost a0: App, response: Option<Frame>, now: nat, acts: seq<Act>, finished: bool)
      requires mcu.Valid() && Abs() == Settle(a0) && response == a0.client.response
      modifies this, mcu, mcu.port
      ensures mcu.Valid() && display == old(display) && ota == old(ota)
      ensures exists tried: seq<Act> ::
                && |tried| == |acts| && (forall i :: 0 <= i < |acts| ==> tried[i] == acts[i].(room := tried[i].room))
                && var t := Tick(a0, now, old(mcu.port.HasRoom()), tried, finished);
                   Abs() == t.app && mcu.port.outbox == old(mcu.port.outbox) + t.queued
    {
      hide Ms, ClearStatus, ClearFault, RunActs, RunStopping, Settle, MC.McuClient.Abs, MC.McuClient.Valid;
      ghost var room := mcu.port.HasRoom();
      if session == Running && program.Some? {
        ghost var tried := RunProgram(acts, now);
        if finished {
          ShutDown(false);
        }
        assert Abs() == Tick(a0, now, room, tried, finished).app;
      } else if session == Stopping || session == Faulted {
        RunStoppingSequence(response, now);
        assert Abs() == Tick(a0, now, room, acts, finished).app;
      } else {
        assert Abs() == Tick(a0, now, room, acts, finished).app;
      }
    }

    /** Feeds the watchdog, takes the reply, and brings the session down on a failure. */
    method SettleSession() returns (response: Option<Frame>)
      requires mcu.Valid()
      modifies this, mcu
      ensures mcu.Valid() && Abs() == Settle(old(Abs())) && response == old(Abs()).client.response
      ensures ota == old(ota) && Shows(display, telemetry.samples, telemetry.Latest().t)
    {
      hide Ms, ClearStatus, ClearFault, MC.McuClient.Abs, MC.McuClient.Valid, Shows;
      feeds := feeds + 1;
      response := mcu.TakeResponse();
      RefreshDisplay();
      if session != Faulted && (mcu.LastFault() != 0 || mcu.LastCommandStatus() != Ok) {
        ShutDown(true);
      }
    }

    method Tick10ms(now: nat, acts: seq<Act>, finished: bool)
      requires mcu.Valid() && (ota != null ==> ota.Valid())
      modifies this, mcu, mcu.port, ota
      ensures mcu.Valid() && ota == old(ota)
      ensures exists room: bool, tried: seq<Act> ::
                && |tried| == |acts| && (forall i :: 0 <= i < |acts| ==> tried[i] == acts[i].(room := tried[i].room))
                && Abs() == Tick(old(Abs()), now, room, tried, finished).app
                && mcu.port.outbox == old(mcu.port.outbox) + Tick(old(Abs()), now, room, tried, finished).queued
      ensures Shows(display, telemetry.samples, telemetry.Latest().t)
      ensures ota != null ==> ota.Valid() && ota.Abs() == OU.Step(old(ota.Abs()))
    {
      hide Tick, Settle, Shows, OU.Step, MC.McuClient.Abs, MC.McuClient.Valid, CookingController.Abs, OU.OtaUpdater.Valid,
        OU.OtaUpdater.Abs;
      ghost var a0, room := Abs(), mcu.port.HasRoom();
      var response := SettleSession();
      StepOta();
      RunSession(a0, response, now, acts, finished);
    }
  }
}
