/** Shutdowns end and programs begin: the shutdown as a five-stage machine, which the session refines tick
    by tick, and the number of ticks it takes when its commands are answered. */
module SessionProgress {
  import opened Gf2
  import opened C1Link
  import opened Wrappers
  import opened Clock
  import opened MC = McuClient
  import opened CC = CookingController
  import CT = ClientTheorems
  import AR = ApplicationRuntime

  // ---- The shutdown, one stage at a time ----

  /** Each of the two commands is due, then asked for, until it is acknowledged. */
  datatype Stage = HeaterDue | HeaterAsked | MotorDue | MotorAsked | Over

  function StageOf(k: Controller): Stage {
    if k.motorDone then Over
    else if k.motorSent then MotorAsked
    else if k.heaterDone then MotorDue
    else if k.heaterSent then HeaterAsked
    else HeaterDue
  }

  predicate Acknowledges(response: Option<Frame>, id: Byte) {
    response.Some? && response.value.kind == Response && response.value.msgId == id
  }

  /** What has become of the command that was asked for: acknowledged, failed, or still open. */
  function Answered(s: Stage, response: Option<Frame>, failed: bool): Stage {
    match s
    case HeaterAsked => if Acknowledges(response, HEATER_OFF) then MotorDue else if failed then HeaterDue else HeaterAsked
    case MotorAsked => if Acknowledges(response, MOTOR_STOP) then Over else if failed then MotorDue else MotorAsked
    case _ => s
  }

  /** A command that is due is asked for, if the client is free and the link has room. */
  function AskedFor(s: Stage, free: bool): Stage {
    if free && s == HeaterDue then HeaterAsked else if free && s == MotorDue then MotorAsked else s
  }

  function Order(c: Client, s: Stage, free: bool): seq<Frame> {
    if free && s == HeaterDue then [Frame(Request, c.nextSeq, HEATER_OFF, [])]
    else if free && s == MotorDue then [Frame(Request, c.nextSeq, MOTOR_STOP, [])]
    else []
  }

  predicate ShuttingDown(k: Controller) {
    k.session == Stopping || k.session == Faulted
  }

  /** Something went wrong: a fault is reported, or a command has failed. */
  predicate Trouble(a: App) {
    a.client.lastFault != 0 || a.client.status != Ok
  }

  /** The client has handed over its reply, and waits for the answer to what has been asked for. */
  predicate Waits(c: Client, d: Client, s: Stage, free: bool) {
    && d.response == None && d.status == Ok && (s != Over ==> d.lastFault == c.lastFault)
    && if Order(c, s, free) != [] then d.waiting && d.pendingId == Order(c, s, free)[0].msgId && d.pendingSeq == c.nextSeq
       else d.waiting == c.waiting
  }

  /** What the tick of a shutdown in a given stage leaves behind, once its latest reply is known. */
  predicate Moves(a: App, s: Stage, t: Acted, now: nat, room: bool) {
    var k, l, free := a.ctl, t.app.ctl, !a.client.waiting && room;
    && t.queued == Order(a.client, s, free)
    && Waits(a.client, t.app.client, s, free)
    && if s != Over then
         && StageOf(l) == AskedFor(s, free) && l.session == k.session
         && l.startAfter == k.startAfter && l.pending == k.pending && l.program == k.program
       else if k.startAfter then l.session == Running && l.program == k.pending && l.startedAt == Ms(now)
       else l.session == (if k.session == Faulted then Faulted else Done) && StageOf(l) == Over && l.program == k.program
  }

  lemma FreeAsks(c: Client, id: Byte, now: nat, room: bool)
    requires c.response == None
    ensures var free := !c.waiting && room;
            && Ask(c, id, [], now, room).queued == (if free then [Frame(Request, c.nextSeq, id, [])] else [])
            && (RequestStatus(c, [], room) == Ok <==> free)
            && var d := Ask(c, id, [], now, room).client;
               && d.response == None && d.lastFault == c.lastFault && (c.status == Ok ==> d.status == Ok)
               && if free then d.waiting && d.pendingId == id && d.pendingSeq == c.nextSeq else d.waiting == c.waiting
  {
    hide Succ, Ms;
  }

  lemma NoteAnswers(a: App, response: Option<Frame>)
    requires SessionInv(a.ctl) && ShuttingDown(a.ctl)
    ensures var b := Note(a, response);
            && StageOf(b.ctl) == Answered(StageOf(a.ctl), response, a.client.status != Ok)
            && SessionInv(b.ctl) && b.client == ClearStatus(a.client)
            && b.ctl == a.ctl.(heaterSent := b.ctl.heaterSent, heaterDone := b.ctl.heaterDone,
                               motorSent := b.ctl.motorSent, motorDone := b.ctl.motorDone)
  {
  }

  lemma StoppingMoves(a: App, response: Option<Frame>, now: nat, room: bool)
    requires SessionInv(a.ctl) && ShuttingDown(a.ctl) && a.client.response == None
    ensures Moves(a, Answered(StageOf(a.ctl), response, a.client.status != Ok), RunStopping(a, response, now, room), now, room)
  {
    hide Ms, Note, Answered, Ask, RequestStatus;
    NoteAnswers(a, response);
    var b := Note(a, response);
    FreeAsks(b.client, HEATER_OFF, now, room);
    FreeAsks(b.client, MOTOR_STOP, now, room);
  }

  lemma SettledIs(a: App)
    requires SessionInv(a.ctl)
    ensures var b := Settle(a);
            && SessionInv(b.ctl) && b.client.response == None
            && b.client.waiting == a.client.waiting && b.client.nextSeq == a.client.nextSeq
            && if a.ctl.session != Faulted && Trouble(a) then
                 b.ctl.session == Faulted && !b.ctl.startAfter && StageOf(b.ctl) == HeaterDue && b.client.status == Ok
               else b == App(a.ctl.(feeds := a.ctl.feeds + 1), Take(a.client))
  {
  }

  /** A tick takes a shutdown exactly as far as its stages say: the acknowledged command gives way to the
      next, the failed one is due again, the one due is asked for, and once both are acknowledged the
      waiting program begins or the session is over. If there is trouble before the session is Faulted,
      it is Faulted, and the shutdown starts afresh in the same tick. */
  lemma ShutdownTickExactly(a: App, now: nat, room: bool, acts: seq<Act>, finished: bool)
    requires SessionInv(a.ctl) && ShuttingDown(a.ctl)
    ensures var t := Tick(a, now, room, acts, finished);
            if a.ctl.session == Stopping && Trouble(a) then
              && t.app.ctl.session == Faulted && !t.app.ctl.startAfter
              && StageOf(t.app.ctl) == AskedFor(HeaterDue, !a.client.waiting && room)
              && t.queued == Order(a.client, HeaterDue, !a.client.waiting && room)
            else
              Moves(a, Answered(StageOf(a.ctl), a.client.response, a.client.status != Ok), t, now, room)
  {
    hide Ms, RunActs, Settle, RunStopping, SessionInv;
    SettledIs(a);
    StoppingMoves(Settle(a), a.client.response, now, room);
  }

  /** Outside a shutdown a tick makes a session Faulted exactly on trouble, and then begins the shutdown; a
      running program has its turn, and its end begins a shutdown; otherwise nothing happens. */
  lemma OtherTickExactly(a: App, now: nat, room: bool, acts: seq<Act>, finished: bool)
    requires SessionInv(a.ctl) && !ShuttingDown(a.ctl)
    ensures var t := Tick(a, now, room, acts, finished);
            if Trouble(a) then
              && t.app.ctl.session == Faulted && StageOf(t.app.ctl) == AskedFor(HeaterDue, !a.client.waiting && room)
              && t.queued == Order(a.client, HeaterDue, !a.client.waiting && room)
            else if a.ctl.session == Running then
              && t.queued == RunActs(Take(a.client), acts, now).queued
              && if finished then t.app.ctl.session == Stopping && StageOf(t.app.ctl) == HeaterDue && !t.app.ctl.startAfter
                 else t.app.ctl == a.ctl.(feeds := t.app.ctl.feeds)
            else t.queued == [] && t.app.ctl == a.ctl.(feeds := t.app.ctl.feeds)
  {
    hide Ms, RunActs, Settle, RunStopping;
    SettledIs(a);
    if Trouble(a) {
      StoppingMoves(Settle(a), a.client.response, now, room);
    }
  }

  // ---- Shutdowns whose commands are answered ----

  /** A poll of the client between two ticks of the session. */
  datatype PollMoment = PollMoment(now: nat, frames: seq<Frame>, retryRoom: bool, beatRoom: bool)

  function PollAll(c: Client, ps: seq<PollMoment>): Client {
    if ps == [] then c
    else
      var p := ps[|ps| - 1];
      Poll(PollAll(c, ps[..|ps| - 1]), p.now, p.frames, p.retryRoom, p.beatRoom).client
  }

  /** The poll comes before an open request has waited too long, and brings neither a fault report nor a
      refusal of it. */
  predicate NoBadNews(c: Client, p: PollMoment) {
    && (c.waiting ==> Elapsed(Ms(p.now), c.sentAt) <= RESPONSE_TIMEOUT_MS && Elapsed(Ms(p.now), c.startedAt) < REQUEST_DEADLINE_MS)
    && forall i :: 0 <= i < |p.frames| ==> !ReportsFault(p.frames[i]) && (p.frames[i].kind == Nack ==> !Completes(c, p.frames[i]))
  }

  predicate Peaceful(c: Client, ps: seq<PollMoment>) {
    forall i :: 0 <= i < |ps| ==> NoBadNews(PollAll(c, ps[..i]), ps[i])
  }

  /** The polls before a tick of the session, and the tick, for which the link has room. */
  datatype Round = Round(polls: seq<PollMoment>, now: nat, acts: seq<Act>, finished: bool)

  /** If a request is open, it is answered before the tick. */
  predicate Obliging(c: Client, r: Round) {
    Peaceful(c, r.polls) && !PollAll(c, r.polls).waiting
  }

  function Go(a: App, r: Round): Acted {
    Tick(a.(client := PollAll(a.client, r.polls)), r.now, true, r.acts, r.finished)
  }

  /** What peaceful polls leave of a request: it is open still, or has been granted. */
  predicate Granted(c: Client, d: Client) {
    && d.status == c.status == Ok && d.lastFault == c.lastFault
    && d.pendingId == c.pendingId
    && (d.waiting ==> c.waiting)
    && (d.waiting || !c.waiting ==> d.response == c.response)
    && (c.waiting && !d.waiting ==> Acknowledges(d.response, c.pendingId))
  }

  lemma NotLate(c: Client, p: PollMoment)
    requires NoBadNews(c, p)
    ensures Expire(c, p.now, p.retryRoom) == Sent(c, [])
  {
    var d := Elapsed(Ms(p.now), c.sentAt);
    if c.waiting {
      ModWithin(d - RESPONSE_TIMEOUT_MS, if d == RESPONSE_TIMEOUT_MS then 0 else -1);
    }
  }

  lemma PollGrants(c: Client, p: PollMoment)
    requires NoBadNews(c, p) && c.status == Ok
    ensures Granted(c, Poll(c, p.now, p.frames, p.retryRoom, p.beatRoom).client)
  {
    hide Expire, AbsorbAll, Heartbeat, Elapsed, Ms, ReportsFault, Completes;
    NotLate(c, p);
    CT.AbsorbAllMeans(c, p.frames);
    CT.LatestFaultIsRemembered(c, p.frames);
    var d := AbsorbAll(c, p.frames);
    CT.HeartbeatMeans(d, p.now, p.beatRoom);
    if c.waiting && !d.waiting {
      var i: nat :| CT.AnsweredBy(c, d, p.frames, i);
      Completing(c, p.frames[i]);
    }
  }

  lemma Completing(c: Client, f: Frame)
    requires Completes(c, f) && f.kind != Nack
    ensures Acknowledges(Some(f), c.pendingId)
  {
  }

  lemma {:induction false} PollsGrant(c: Client, ps: seq<PollMoment>)
    requires Peaceful(c, ps) && c.status == Ok
    ensures Granted(c, PollAll(c, ps))
  {
    hide NoBadNews, Poll;
    if ps != [] {
      var n := |ps| - 1;
      forall i | 0 <= i < n
        ensures NoBadNews(PollAll(c, ps[..n][..i]), ps[..n][i])
      {
        assert ps[..n][..i] == ps[..i];
      }
      PollsGrant(c, ps[..n]);
      PollGrants(PollAll(c, ps[..n]), ps[n]);
    }
  }

  /** A round is obliging if nothing is open, or if a poll in time brings the positive reply. */
  lemma ReplyObliges(c: Client, at: nat, payload: seq<Byte>, r: Round)
    requires c.waiting ==>
               && Elapsed(Ms(at), c.sentAt) <= RESPONSE_TIMEOUT_MS && Elapsed(Ms(at), c.startedAt) < REQUEST_DEADLINE_MS
               && r.polls == [PollMoment(at, [Frame(Response, c.pendingSeq, c.pendingId, payload)], true, true)]
    requires !c.waiting ==> r.polls == []
    ensures Obliging(c, r)
  {
    hide Elapsed, Ms, Heartbeat, Expire, Overdue, Late;
    if c.waiting {
      var p := r.polls[0];
      assert r.polls[..0] == [] && p.frames[..0] == [];
      assert NoBadNews(c, p);
      NotLate(c, p);
      assert AbsorbAll(c, []) == c;
      CT.HeartbeatMeans(AbsorbAll(c, p.frames), at, true);
      assert PollAll(c, []) == c;
    }
  }

  /** One round: what had been asked for is acknowledged, and the next command is asked for. */
  lemma RoundMoves(a: App, r: Round)
    requires SessionInv(a.ctl) && ShuttingDown(a.ctl) && a.client.status == Ok
    requires a.ctl.session == Faulted || a.client.lastFault == 0
    requires Obliging(a.client, r)
    requires StageOf(a.ctl) == HeaterAsked ==> a.client.waiting && a.client.pendingId == HEATER_OFF
    requires StageOf(a.ctl) == MotorAsked ==> a.client.waiting && a.client.pendingId == MOTOR_STOP
    ensures var s := match StageOf(a.ctl) case HeaterAsked => MotorDue case MotorAsked => Over case s => s;
            Moves(a.(client := PollAll(a.client, r.polls)), s, Go(a, r), r.now, true)
    ensures SessionInv(Go(a, r).app.ctl)
  {
    hide PollAll, Peaceful, Tick, Moves, SessionInv, Happen;
    PollsGrant(a.client, r.polls);
    var b := a.(client := PollAll(a.client, r.polls));
    ShutdownTickExactly(b, r.now, true, r.acts, r.finished);
    HappenKeepsSession(b, TickEvent(r.now, true, r.acts, r.finished));
    TickHappens(b, r);
  }

  lemma TickHappens(a: App, r: Round)
    ensures Happen(a, TickEvent(r.now, true, r.acts, r.finished)) == Tick(a, r.now, true, r.acts, r.finished)
  {
  }

  /** A shutdown with nothing asked for yet. */
  predicate Fresh(a: App) {
    && SessionInv(a.ctl) && ShuttingDown(a.ctl) && StageOf(a.ctl) == HeaterDue
    && a.client.status == Ok && (a.ctl.session == Faulted || a.client.lastFault == 0)
  }

  predicate IsOrder(queued: seq<Frame>, id: Byte) {
    |queued| == 1 && queued[0].kind == Request && queued[0].msgId == id && queued[0].payload == []
  }

  /** A fresh shutdown takes three rounds: HEATER_OFF, MOTOR_STOP, and the end. */
  lemma ThreeRounds(a: App, r1: Round, r2: Round, r3: Round)
    requires Fresh(a) && Obliging(a.client, r1)
    requires Obliging(Go(a, r1).app.client, r2)
    requires Obliging(Go(Go(a, r1).app, r2).app.client, r3)
    ensures var b := Go(a, r1);
            var c := Go(b.app, r2);
            var k := Go(c.app, r3).app.ctl;
            && IsOrder(b.queued, HEATER_OFF) && IsOrder(c.queued, MOTOR_STOP) && Go(c.app, r3).queued == []
            && if a.ctl.startAfter then k.session == Running && k.program == a.ctl.pending && k.startedAt == Ms(r3.now)
               else k.session == (if a.ctl.session == Faulted then Faulted else Done) && k.motorDone
  {
    hide Go, SessionInv, Obliging, PollAll;
    RoundMoves(a, r1);
    PolledIsFree(a, r1);
    var b := Go(a, r1);
    RoundMoves(b.app, r2);
    PolledIsFree(b.app, r2);
    var c := Go(b.app, r2);
    RoundMoves(c.app, r3);
  }

  lemma PolledIsFree(a: App, r: Round)
    requires Obliging(a.client, r) && a.client.status == Ok
    ensures !PollAll(a.client, r.polls).waiting && PollAll(a.client, r.polls).lastFault == a.client.lastFault
  {
    hide Peaceful;
    PollsGrant(a.client, r.polls);
  }

  /** From any session that is idle, done, or has shut down after a fault, a program that is started runs
      after three ticks, if no fault is remembered or reported and the commands are answered. */
  lemma StartedProgramRuns(a: App, program: nat, r1: Round, r2: Round, r3: Round)
    requires SessionInv(a.ctl) && a.client.lastFault == 0
    requires a.ctl.session == Idle || a.ctl.session == Done || (a.ctl.session == Faulted && StageOf(a.ctl) == Over)
    requires var b := StartProgram(a, Some(program));
             && Obliging(b.client, r1) && Obliging(Go(b, r1).app.client, r2)
             && Obliging(Go(Go(b, r1).app, r2).app.client, r3)
    ensures var b := StartProgram(a, Some(program));
            var k := Go(Go(Go(b, r1).app, r2).app, r3).app.ctl;
            k.session == Running && k.program == Some(program) && k.startedAt == Ms(r3.now)
  {
    hide Go, Obliging;
    ThreeRounds(StartProgram(a, Some(program)), r1, r2, r3);
  }

  /** A session that is stopped is done after three ticks, under the same conditions. */
  lemma StoppedSessionIsDone(a: App, r1: Round, r2: Round, r3: Round)
    requires SessionInv(a.ctl) && a.client.lastFault == 0 && !ShuttingDown(a.ctl)
    requires var b := Stop(a);
             && Obliging(b.client, r1) && Obliging(Go(b, r1).app.client, r2)
             && Obliging(Go(Go(b, r1).app, r2).app.client, r3)
    ensures var b := Stop(a);
            Go(Go(Go(b, r1).app, r2).app, r3).app.ctl.session == Done
  {
    hide Go, Obliging;
    ThreeRounds(Stop(a), r1, r2, r3);
  }

  /** A program can be started exactly from these sessions; anywhere else, and without a program, starting
      changes nothing. */
  lemma StartsExactly(a: App, program: Option<nat>)
    requires SessionInv(a.ctl)
    ensures var b := StartProgram(a, program);
            if program.Some? && (a.ctl.session == Idle || a.ctl.session == Done || (a.ctl.session == Faulted && StageOf(a.ctl) == Over))
            then StartStatus(a, program) == Ok && SessionInv(b.ctl) && b.ctl.session == Stopping && StageOf(b.ctl) == HeaterDue
                 && b.ctl.pending == program && b.client == ClearStatus(a.client)
            else StartStatus(a, program) != Ok && b == a
  {
  }

  /** Stopping withdraws a program that waits, lets a shutdown go on, and begins one otherwise. */
  lemma StopsExactly(a: App)
    requires SessionInv(a.ctl)
    ensures var b := Stop(a);
            && SessionInv(b.ctl) && !b.ctl.startAfter
            && if ShuttingDown(a.ctl) then b.ctl.session == a.ctl.session && StageOf(b.ctl) == StageOf(a.ctl) && b.client == a.client
               else b.ctl.session == Stopping && StageOf(b.ctl) == HeaterDue && b.client == ClearStatus(a.client)
  {
  }

  // ---- By the millisecond ----

  /** Milliseconds of the runtime up to and including the one in which the session ticks. */
  predicate UpToTick(r: AR.Runtime, ms: seq<AR.Moment>) {
    && r.divider + |ms| == AR.TICK_DIVIDER && ms != []
    && (forall i :: 0 <= i < |ms| ==> ms[i].Millisecond?)
    && ms[|ms| - 1].room
  }

  function PollsOf(ms: seq<AR.Moment>): (ps: seq<PollMoment>)
    requires forall i :: 0 <= i < |ms| ==> ms[i].Millisecond?
    ensures |ps| == |ms|
  {
    seq(|ms|, i requires 0 <= i < |ms| => PollMoment(ms[i].now, ms[i].arrived, ms[i].retryRoom, ms[i].beatRoom))
  }

  function RoundOf(r: AR.Runtime, ms: seq<AR.Moment>): Round
    requires UpToTick(r, ms)
  {
    var last := ms[|ms| - 1];
    Round(PollsOf(ms), last.now, last.acts, last.finished)
  }

  lemma {:induction false} OnlyPolls(r: AR.Runtime, ms: seq<AR.Moment>)
    requires r.divider + |ms| < AR.TICK_DIVIDER && forall i :: 0 <= i < |ms| ==> ms[i].Millisecond?
    ensures AR.LiveOn(r, ms) == AR.Runtime(r.app.(client := PollAll(r.app.client, PollsOf(ms))), r.divider + |ms|)
  {
    hide Poll, Tick;
    if ms != [] {
      var n := |ms| - 1;
      OnlyPolls(r, ms[..n]);
      assert PollsOf(ms)[..n] == PollsOf(ms[..n]);
    }
  }

  /** Seen from the session, these milliseconds are one round. */
  lemma MillisecondsAreARound(r: AR.Runtime, ms: seq<AR.Moment>)
    requires UpToTick(r, ms)
    ensures AR.LiveOn(r, ms) == AR.Runtime(Go(r.app, RoundOf(r, ms)).app, 0)
  {
    hide Poll, Tick;
    var n := |ms| - 1;
    OnlyPolls(r, ms[..n]);
    assert PollsOf(ms)[..n] == PollsOf(ms[..n]);
  }

  /** In the runtime: a program whose start is pressed runs at the third tick of the session, at most thirty
      milliseconds later, and a session whose stop is pressed is done by then, if the link has room and
      the commands are answered. */
  lemma PressedIsDone(r: AR.Runtime, press: AR.Moment, ms1: seq<AR.Moment>, ms2: seq<AR.Moment>, ms3: seq<AR.Moment>)
    requires SessionInv(r.app.ctl) && r.app.client.lastFault == 0
    requires press.StopPressed? || (press.StartPressed? && press.program.Some?)
    requires press.StopPressed? ==> !ShuttingDown(r.app.ctl)
    requires press.StartPressed? ==>
               r.app.ctl.session == Idle || r.app.ctl.session == Done || (r.app.ctl.session == Faulted && StageOf(r.app.ctl) == Over)
    requires var s := AR.Live(r, press);
             && UpToTick(s, ms1) && Obliging(s.app.client, RoundOf(s, ms1))
             && var t := AR.LiveOn(s, ms1);
                && UpToTick(t, ms2) && Obliging(t.app.client, RoundOf(t, ms2))
                && var u := AR.LiveOn(t, ms2);
                   UpToTick(u, ms3) && Obliging(u.app.client, RoundOf(u, ms3))
    ensures var k := AR.LiveOn(AR.LiveOn(AR.LiveOn(AR.Live(r, press), ms1), ms2), ms3).app.ctl;
            if press.StartPressed? then k.session == Running && k.program == press.program else k.session == Done
  {
    hide Go, Obliging, AR.LiveOn, PollsOf;
    var s := AR.Live(r, press);
    var t := AR.LiveOn(s, ms1);
    var u := AR.LiveOn(t, ms2);
    MillisecondsAreARound(s, ms1);
    MillisecondsAreARound(t, ms2);
    MillisecondsAreARound(u, ms3);
    if press.StartPressed? {
      StartedProgramRuns(r.app, press.program.value, RoundOf(s, ms1), RoundOf(t, ms2), RoundOf(u, ms3));
    } else {
      StoppedSessionIsDone(r.app, RoundOf(s, ms1), RoundOf(t, ms2), RoundOf(u, ms3));
    }
  }
}
