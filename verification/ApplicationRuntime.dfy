/** The application's millisecond loop: the client is polled every time, the controller ticks every
    tenth time. */
module ApplicationRuntime {
  import opened C1Link
  import opened Wrappers
  import opened MC = McuClient
  import opened CC = CookingController
  import CT = ClientTheorems
  import TS = TelemetryStore
  import OU = OtaUpdater

  const TICK_DIVIDER: nat := 10

  datatype Runtime = Runtime(app: App, divider: nat)

  const POWERED := Runtime(App(ASLEEP, FRESH), 0)

  /** What one millisecond brings: frames, room in the transmit queue, and what the program does if
      the controller ticks. */
  datatype Moment =
    | Millisecond(now: nat, arrived: seq<Frame>, retryRoom: bool, beatRoom: bool, room: bool, acts: seq<Act>, finished: bool)
    | StartPressed(program: Option<nat>)
    | StopPressed

  function Live(r: Runtime, m: Moment): Runtime {
    match m
    case StartPressed(p) => r.(app := StartProgram(r.app, p))
    case StopPressed => r.(app := Stop(r.app))
    case Millisecond(now, arrived, retryRoom, beatRoom, room, acts, finished) =>
      var polled := r.app.(client := Poll(r.app.client, now, arrived, retryRoom, beatRoom).client);
      if r.divider + 1 >= TICK_DIVIDER then Runtime(Tick(polled, now, room, acts, finished).app, 0)
      else Runtime(polled, r.divider + 1)
  }

  function LiveOn(r: Runtime, ms: seq<Moment>): Runtime {
    if ms == [] then r else Live(LiveOn(r, ms[..|ms| - 1]), ms[|ms| - 1])
  }

  /** Milliseconds among the moments. */
  function Length(ms: seq<Moment>): nat {
    if ms == [] then 0 else Length(ms[..|ms| - 1]) + if ms[|ms| - 1].Millisecond? then 1 else 0
  }

  lemma LiveKeepsCount(r: Runtime, m: Moment, n: nat)
    requires r.divider == n % 10 && r.app.ctl.feeds == n / 10 && SessionInv(r.app.ctl)
    ensures var s, k := Live(r, m), n + if m.Millisecond? then 1 else 0;
            s.divider == k % 10 && s.app.ctl.feeds == k / 10 && SessionInv(s.app.ctl)
  {
    hide Poll, SessionInv, Tick, StartProgram, Stop;
    match m
    case StartPressed(p) => HappenFeeds(r.app, StartEvent(p));
    case StopPressed => HappenFeeds(r.app, StopEvent);
    case Millisecond(now, arrived, retryRoom, beatRoom, room, acts, finished) =>
      var polled := r.app.(client := Poll(r.app.client, now, arrived, retryRoom, beatRoom).client);
      HappenFeeds(polled, TickEvent(now, room, acts, finished));
  }

  lemma StoppingFeeds(a: App, response: Option<Frame>, now: nat, room: bool)
    ensures RunStopping(a, response, now, room).app.ctl.feeds == a.ctl.feeds
  {
    hide Note, Ask, RequestStatus;
    NoteFeeds(a, response);
  }

  lemma NoteFeeds(a: App, response: Option<Frame>)
    ensures Note(a, response).ctl.feeds == a.ctl.feeds
  {
  }

  /** Every controller tick feeds the watchdog once; nothing else does. */
  lemma HappenFeeds(a: App, e: Event)
    requires SessionInv(a.ctl)
    ensures Happen(a, e).app.ctl.feeds == a.ctl.feeds + if e.TickEvent? then 1 else 0
    ensures SessionInv(Happen(a, e).app.ctl)
  {
    hide RunActs, RunStopping, SessionInv;
    HappenKeepsSession(a, e);
    if e.TickEvent? {
      StoppingFeeds(Settle(a), a.client.response, e.now, e.room);
    }
  }

  /** Whatever a program, the link and the user do, the watchdog has been fed once in every ten
      milliseconds, at the tenth one, and the session has kept its invariant. */
  lemma {:induction false} FedEveryTenMilliseconds(ms: seq<Moment>)
    ensures var r := LiveOn(POWERED, ms);
            && r.app.ctl.feeds == Length(ms) / 10 && r.divider == Length(ms) % 10
            && SessionInv(r.app.ctl)
  {
    hide Live, SessionInv;
    if ms == [] {
      AsleepInv();
    } else {
      var n := |ms| - 1;
      FedEveryTenMilliseconds(ms[..n]);
      LiveKeepsCount(LiveOn(POWERED, ms[..n]), ms[n], Length(ms[..n]));
    }
  }

  // ---- A reported fault bars every session ----

  /** None of the frames reports that a fault is over, with code zero. */
  predicate NoAllClear(fs: seq<Frame>) {
    forall i :: 0 <= i < |fs| && ReportsFault(fs[i]) ==> fs[i].payload[0] != 0
  }

  predicate NoneAllClear(ms: seq<Moment>) {
    forall i :: 0 <= i < |ms| && ms[i].Millisecond? ==> NoAllClear(ms[i].arrived)
  }

  lemma PollRemembersFault(c: Client, now: nat, fs: seq<Frame>, retryRoom: bool, beatRoom: bool)
    requires c.lastFault != 0 && NoAllClear(fs)
    ensures Poll(c, now, fs, retryRoom, beatRoom).client.lastFault != 0
  {
    hide Expire, AbsorbAll, Heartbeat, ReportsFault;
    var first := Expire(c, now, retryRoom).client;
    ExpireKeepsFault(c, now, retryRoom);
    CT.LatestFaultIsRemembered(first, fs);
    CT.HeartbeatMeans(AbsorbAll(first, fs), now, beatRoom);
  }

  lemma ExpireKeepsFault(c: Client, now: nat, room: bool)
    ensures Expire(c, now, room).client.lastFault == c.lastFault
  {
    hide Overdue, Late;
  }

  /** Over any run of polls, ticks, starts and stops: while a reported fault stands, and no later report
      has code zero, no session is ever entered. */
  lemma {:induction false} FaultBarsSessions(r: Runtime, ms: seq<Moment>)
    requires SessionInv(r.app.ctl) && r.app.client.lastFault != 0 && NoneAllClear(ms)
    ensures var s := LiveOn(r, ms);
            && SessionInv(s.app.ctl) && s.app.client.lastFault != 0
            && (r.app.ctl.session != Running ==> s.app.ctl.session != Running)
            && (ms != [] ==> !Entering(LiveOn(r, ms[..|ms| - 1]).app.ctl, s.app.ctl, Running))
  {
    hide SessionInv, Live, NoAllClear;
    if ms != [] {
      var n := |ms| - 1;
      FaultBarsSessions(r, ms[..n]);
      FaultBarsOne(LiveOn(r, ms[..n]), ms[n]);
    }
  }

  lemma FaultBarsOne(r: Runtime, m: Moment)
    requires SessionInv(r.app.ctl) && r.app.client.lastFault != 0
    requires m.Millisecond? ==> NoAllClear(m.arrived)
    ensures var s := Live(r, m);
            SessionInv(s.app.ctl) && s.app.client.lastFault != 0 && !Entering(r.app.ctl, s.app.ctl, Running)
  {
    hide Poll, SessionInv, Tick, StartProgram, Stop, NoAllClear;
    match m
    case StartPressed(p) => BarredEvent(r.app, StartEvent(p));
    case StopPressed => BarredEvent(r.app, StopEvent);
    case Millisecond(now, arrived, retryRoom, beatRoom, room, acts, finished) =>
      PollRemembersFault(r.app.client, now, arrived, retryRoom, beatRoom);
      var polled := r.app.(client := Poll(r.app.client, now, arrived, retryRoom, beatRoom).client);
      BarredEvent(polled, TickEvent(now, room, acts, finished));
  }

  lemma BarredEvent(a: App, e: Event)
    requires SessionInv(a.ctl) && a.client.lastFault != 0
    ensures var b := Happen(a, e).app;
            SessionInv(b.ctl) && b.client.lastFault != 0 && !Entering(a.ctl, b.ctl, Running)
  {
    hide Happen, SessionInv;
    HappenKeepsSession(a, e);
    ReportedFaultBarsRestart(a, e);
  }

  class ApplicationRuntime {
    const telemetry: TS.TelemetryStore
    const client: MC.McuClient
    const ota: OU.OtaUpdater
    const controller: CC.CookingController
    var divider: nat

    ghost predicate Valid()
      reads this, client, controller, ota
    {
      && client.store == telemetry && controller.mcu == client && controller.telemetry == telemetry
      && controller.ota == ota && ota.Valid() && client.Valid()
    }

    ghost function Abs(): Runtime
      reads this, controller, client, controller.mcu
    {
      Runtime(controller.Abs(), divider)
    }

    constructor ()
      ensures Valid() && Abs() == POWERED && telemetry.samples == [] && ota.state == OU.Idle
      ensures fresh(client) && fresh(controller) && fresh(telemetry) && fresh(ota)
    {
      var port := new MC.AppPort();
      var store := new TS.TelemetryStore();
      var updater := new OU.OtaUpdater();
      var c := new MC.McuClient(port, store);
      var k := new CC.CookingController(c, store);
      k.AttachOta(updater);
      telemetry, client, ota, controller := store, c, updater, k;
      divider := 0;
    }

    /** Received measurements are stored; on every tenth call the image check advances by a chunk. */
    method Tick1ms(now: nat, acts: seq<Act>, finished: bool)
      requires Valid()
      modifies this, controller, client, client.port, telemetry, ota
      ensures Valid()
      ensures exists retryRoom, beatRoom, room, tried: seq<Act> ::
                && |tried| == |acts| && (forall i :: 0 <= i < |acts| ==> tried[i] == acts[i].(room := tried[i].room))
                && Abs() == Live(old(Abs()), Millisecond(now, old(client.port.inbox), retryRoom, beatRoom, room, tried, finished))
      ensures telemetry.samples == StoreAll(old(telemetry.samples), old(client.port.inbox), now)
      ensures ota.Abs() == if divider == 0 then OU.Step(old(ota.Abs())) else old(ota.Abs())
    {
      hide Poll, Tick, StoreAll, OU.Step, MC.McuClient.Valid, CC.CookingController.Abs, CC.Shows, OU.OtaUpdater.Abs,
        OU.OtaUpdater.Valid;
      ghost var r0, inbox := Abs(), client.port.inbox;
      ghost var retryRoom, beatRoom := PollClient(now);
      divider := divider + 1;
      if divider >= TICK_DIVIDER {
        divider := 0;
        ghost var polled := controller.Abs();
        controller.Tick10ms(now, acts, finished);
        ghost var room: bool, tried: seq<Act> :|
          && |tried| == |acts| && (forall i :: 0 <= i < |acts| ==> tried[i] == acts[i].(room := tried[i].room))
          && controller.Abs() == Tick(polled, now, room, tried, finished).app;
        assert Abs() == Live(r0, Millisecond(now, inbox, retryRoom, beatRoom, room, tried, finished));
      } else {
        assert Abs() == Live(r0, Millisecond(now, inbox, retryRoom, beatRoom, true, acts, finished));
      }
    }

    method PollClient(now: nat) returns (ghost retryRoom: bool, ghost beatRoom: bool)
      requires Valid()
      modifies client, client.port, telemetry
      ensures Valid() && ota.Abs() == old(ota.Abs())
      ensures telemetry.samples == StoreAll(old(telemetry.samples), old(client.port.inbox), now)
      ensures var polled := Poll(old(controller.Abs()).client, now, old(client.port.inbox), retryRoom, beatRoom);
              controller.Abs() == old(controller.Abs()).(client := polled.client)
    {
      hide Poll, StoreAll, MC.McuClient.Valid, MC.McuClient.Abs, OU.OtaUpdater.Abs, OU.OtaUpdater.Valid;
      ghost var before, inbox := client.Abs(), client.port.inbox;
      client.PollLink(now);
      retryRoom, beatRoom :|
        client.Abs() == Poll(before, now, inbox, retryRoom, beatRoom).client;
    }
  }
}
