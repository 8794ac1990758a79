/** Application and safety controller joined by two lossy first-in first-out lines. Whatever is
    lost, delayed, refused or retried, a session enters Running or Done only when the controller
    has its heater loop disabled and its drive stopped.

    The application stages, the controller stages and the losses interleave freely, so every
    schedule of the two processors is covered. Requests may also be made past the session, except
    while it is shutting down. The only other premise is that a reply is not so late that its 8-bit
    sequence number has come round again. */
module SafeStart {
  import opened Gf2
  import opened C1Link
  import opened Wrappers
  import opened McuClient
  import opened CookingController
  import CH = CommandHandler
  import SM = SafetyMcu

  // ---- The system ----

  /** A frame marked with the absolute number of the request it carries or answers. */
  type Tagged = Marked<nat>

  /** Besides the two processors and the lines: whether requests have been made past the session since
      its last shutdown, the number of sequence numbers used so far, the absolute numbers of the
      pending request and of the waiting reply, and for the statement the numbers of the latest
      requests of each kind that were issued or obeyed. */
  datatype System = System(app: App, mcu: SM.Mcu, up: seq<Tagged>, down: seq<Tagged>, direct: bool,
                           issued: nat, pendingTag: nat, replyTag: nat, startTag: nat,
                           heaterSet: int, motorSet: int, offSent: int, handled: int, heaterOff: int, motorStop: int)

  function Boot(now: nat): System {
    System(App(ASLEEP, FRESH), SM.PowerOn(now), [], [], false, 0, 0, 0, 0, -1, -1, -1, -1, -1, -1)
  }

  /** The wire form of an absolute sequence number. */
  function Wire(n: nat): Byte {
    LowByte(n)
  }

  lemma WireSucc(n: nat)
    ensures Succ(Wire(n)) == Wire(n + 1)
  {
    hide LowByte;
    LowByteValue(n);
    LowByteDependsOnResidue(LowByte(n) as int + 1, n + 1);
  }

  lemma WireInjective(a: nat, b: nat)
    requires Wire(a) == Wire(b) && a <= b < a + 256
    ensures a == b
  {
    hide LowByte;
    LowByteValue(a);
    LowByteValue(b);
  }

  // ---- Application steps ----

  /** The session is not shutting down and has no program. */
  predicate AtRest(k: Controller) {
    k.session == Idle || k.session == Done || (k.session == Faulted && k.motorDone)
  }

  function WithApp(s: System, app: App): System {
    s.(app := app, direct := s.direct && AtRest(app.ctl))
  }

  /** Books the frames an application stage has queued after using n sequence numbers: at most one
      frame, which carries the last of them. */
  function Book(s: System, app: App, queued: seq<Frame>, n: nat): System {
    var t := WithApp(s, app).(issued := s.issued + n);
    if queued == [] || s.issued + n == 0 then t
    else
      var tag := s.issued + n - 1;
      var f := queued[0];
      t.(up := s.up + [Marked(f, tag)],
         pendingTag := if app.client.waiting then tag else s.pendingTag,
         heaterSet := if f.msgId == HEATER_SET_TARGET then tag else s.heaterSet,
         motorSet := if f.msgId == MOTOR_SET_TARGET then tag else s.motorSet,
         offSent := if f.msgId == HEATER_OFF then tag else s.offSent)
  }

  predicate Asks(c: Client, payload: seq<Byte>) {
    !c.waiting && c.response == None && |payload| <= MAX_PAYLOAD
  }

  /** Sequence numbers a program's requests use up. */
  function ActsUse(c: Client, acts: seq<Act>, now: nat): nat {
    if acts == [] then 0
    else
      var n := |acts| - 1;
      ActsUse(c, acts[..n], now) +
      if Asks(RunActs(c, acts[..n], now).client, acts[n].payload) then 1 else 0
  }

  /** ... and those an application tick uses up. */
  function TickUse(a: App, now: nat, acts: seq<Act>): nat {
    var b := Settle(a);
    if b.ctl.session == Running && b.ctl.program.Some? then ActsUse(b.client, acts, now)
    else if b.ctl.session == Stopping || b.ctl.session == Faulted then
      var c := Note(b, a.client.response);
      if !c.ctl.heaterDone then (if !c.ctl.heaterSent && Asks(c.client, []) then 1 else 0)
      else if !c.ctl.motorDone then (if !c.ctl.motorSent && Asks(c.client, []) then 1 else 0)
      else 0
    else 0
  }

  datatype Step =
    | PollExpire(now: nat, room: bool)
    | PollReceive
    | PollBeat(now: nat, room: bool)
    | AppTick(now: nat, room: bool, acts: seq<Act>, finished: bool)
    | UserStart(program: Option<nat>)
    | UserStop
    | UserRequest(id: Byte, payload: seq<Byte>, now: nat, room: bool)
    | McuSense(world: SM.World)
    | McuHandle(now: nat, scale: Option<int>)
    | McuFinish(now: nat)
    | McuReport(frame: Frame)
    | LoseUp(i: nat)
    | LoseDown(i: nat)

  predicate Enabled(s: System, e: Step) {
    match e
    case PollReceive =>
      s.down != [] && (s.down[0].frame.kind == Telemetry || s.issued <= s.down[0].mark + 256)
    case UserRequest(_, _, _, _) => s.app.ctl.session == Running || AtRest(s.app.ctl)
    case McuHandle(_, _) => s.up != []
    case McuReport(f) => f.kind == Telemetry
    case LoseUp(i) => i < |s.up|
    case LoseDown(i) => i < |s.down|
    case _ => true
  }

  function Receive(s: System): System
    requires s.down != []
  {
    var f := s.down[0].frame;
    s.(down := s.down[1..], app := s.app.(client := Absorb(s.app.client, f)),
       replyTag := if Completes(s.app.client, f) then s.down[0].mark else s.replyTag)
  }

  function Handle(s: System, now: nat, scale: Option<int>): System
    requires s.up != []
  {
    var f, tag := s.up[0].frame, s.up[0].mark;
    var reply := SM.ReplyTo(s.mcu, f, scale);
    var obeyed := reply != [] && reply[0].kind == Response;
    s.(up := s.up[1..], mcu := SM.Receive(s.mcu, f, now, scale), handled := tag,
       down := if reply == [] then s.down else s.down + [Marked(reply[0], tag)],
       heaterOff := if obeyed && f.msgId == HEATER_OFF then tag else s.heaterOff,
       motorStop := if obeyed && f.msgId == MOTOR_STOP then tag else s.motorStop)
  }

  function Perform(s: System, e: Step): System
    requires Enabled(s, e)
  {
    match e
    case PollExpire(now, room) =>
      var x := Expire(s.app.client, now, room);
      Book(s, s.app.(client := x.client), x.queued, |x.queued|)
    case PollReceive => Receive(s)
    case PollBeat(now, room) =>
      var x := Heartbeat(s.app.client, now, room);
      Book(s, s.app.(client := x.client), x.queued, if BeatDue(s.app.client, now) then 1 else 0)
    case AppTick(now, room, acts, finished) =>
      var x := Tick(s.app, now, room, acts, finished);
      var t := Book(s, x.app, x.queued, TickUse(s.app, now, acts));
      if s.app.ctl.session != Running && x.app.ctl.session == Running then t.(startTag := t.issued) else t
    case UserStart(p) => WithApp(s, StartProgram(s.app, p))
    case UserStop => WithApp(s, Stop(s.app))
    case UserRequest(id, payload, now, room) =>
      var x := Ask(s.app.client, id, payload, now, room);
      var t := Book(s, s.app.(client := x.client), x.queued, if Asks(s.app.client, payload) then 1 else 0);
      t.(direct := AtRest(s.app.ctl))
    case McuSense(w) => s.(mcu := SM.Sense(SM.Moved(s.mcu, w), w))
    case McuHandle(now, scale) => Handle(s, now, scale)
    case McuFinish(now) => s.(mcu := SM.Actuate(SM.Supervise(SM.Trip(s.mcu), now)))
    case McuReport(f) => s.(down := s.down + [Marked(f, s.issued)])
    case LoseUp(i) => s.(up := s.up[..i] + s.up[i + 1..])
    case LoseDown(i) => s.(down := s.down[..i] + s.down[i + 1..])
  }

  // ---- Invariant: numbers and lines ----

  /** Requests travel in the order of their numbers, none of which has been handled yet. */
  predicate UpAt(s: System, i: nat)
    requires i < |s.up|
  {
    var t := s.up[i];
    && t.frame.kind == Request && s.handled < t.mark < s.issued
    && (forall j :: 0 <= j < i ==> s.up[j].mark < t.mark)
    && (t.frame.msgId == HEATER_SET_TARGET ==> t.mark <= s.heaterSet)
    && (t.frame.msgId == MOTOR_SET_TARGET ==> t.mark <= s.motorSet)
    && (t.frame.msgId == HEATER_OFF ==> t.mark <= s.offSent)
    && t.frame.seqNo == Wire(t.mark)
  }

  /** A positive reply is evidence of what the controller has done. */
  predicate Evidence(s: System, f: Frame, tag: nat) {
    f.kind == Response ==>
      (f.msgId == HEATER_OFF ==> tag <= s.heaterOff) && (f.msgId == MOTOR_STOP ==> tag <= s.motorStop)
  }

  predicate DownAt(s: System, t: Tagged) {
    t.frame.kind != Telemetry ==>
      t.mark < s.issued && t.frame.seqNo == Wire(t.mark) && Evidence(s, t.frame, t.mark)
  }

  predicate Lines(s: System) {
    && (forall i :: 0 <= i < |s.up| ==> UpAt(s, i))
    && (forall i :: 0 <= i < |s.down| ==> DownAt(s, s.down[i]))
    && s.handled < s.issued && s.heaterOff <= s.handled && s.motorStop <= s.handled
    && s.heaterSet < s.issued && s.motorSet < s.issued && s.startTag <= s.issued
    && s.heaterOff <= s.offSent < s.issued
  }

  predicate ClientInv(s: System) {
    var c := s.app.client;
    && c.nextSeq == Wire(s.issued)
    && (c.waiting ==> s.pendingTag + 1 == s.issued && c.pendingSeq == Wire(s.pendingTag))
    && (c.waiting ==> c.response == None && c.status == Ok && |c.pendingPayload| <= MAX_PAYLOAD)
    && (c.response.Some? ==> s.replyTag < s.issued && Evidence(s, c.response.value, s.replyTag))
  }

  // ---- Invariant: what the controller may be doing ----

  /** An output is on only if it was asked for after it was last switched off. */
  predicate McuInv(s: System) {
    && (s.mcu.plant.pid.enabled ==> s.heaterOff < s.heaterSet)
    && (s.mcu.plant.drive.Active() ==> s.motorStop < s.motorSet)
  }

  // ---- Invariant: what the session knows ----

  /** Issued after every set-target, and a motor command after every heater command too. */
  predicate Latest(s: System, id: Byte, tag: int) {
    tag > s.heaterSet && tag > s.motorSet && (id == MOTOR_STOP ==> tag > s.offSent)
  }

  /** The pending request, or its reply, is the given command, and the latest. */
  predicate Pending(s: System, id: Byte) {
    var c := s.app.client;
    && (c.waiting ==> c.pendingId == id && Latest(s, id, s.pendingTag))
    && (c.response.Some? ==> c.response.value.msgId == id && Latest(s, id, s.replyTag))
  }

  predicate Quiet(c: Client) {
    !c.waiting && c.response == None
  }

  /** What the flags of a shutdown stand for, as long as nothing is requested past the session. */
  predicate FlagsMean(s: System) {
    var k, c := s.app.ctl, s.app.client;
    && (k.heaterSent && !k.heaterDone ==> Pending(s, HEATER_OFF))
    && (k.heaterDone ==> s.heaterOff > s.heaterSet && s.heaterOff > s.motorSet)
    && (k.heaterDone && !k.motorSent ==> Quiet(c))
    && (k.motorSent && !k.motorDone ==> Pending(s, MOTOR_STOP))
    && (k.motorDone ==> s.motorStop > s.motorSet && s.motorStop > s.offSent && Quiet(c))
  }

  predicate Knows(s: System) {
    var k := s.app.ctl;
    && SessionInv(k)
    && (if s.direct then AtRest(k) else FlagsMean(s))
    && (k.session == Running && s.heaterSet < s.startTag ==> s.heaterOff > s.heaterSet)
    && (k.session == Running && s.motorSet < s.startTag ==> s.heaterOff > s.motorSet)
    && (k.session == Running && s.motorSet < s.startTag ==> s.motorStop > s.motorSet)
    && (k.session == Running && s.offSent < s.startTag ==> s.motorStop > s.offSent)
  }

  predicate Inv(s: System) {
    Lines(s) && ClientInv(s) && McuInv(s) && Knows(s)
  }

  lemma BootInv(now: nat)
    ensures Inv(Boot(now))
  {
    assert Wire(0) == 0;
  }

  // ---- Losses and reports ----

  lemma LossKeepsInv(s: System, e: Step)
    requires Inv(s) && Enabled(s, e) && (e.LoseUp? || e.LoseDown? || e.McuReport?)
    ensures Inv(Perform(s, e))
  {
    hide ClientInv, McuInv, Knows, UpAt, DownAt;
    var t := Perform(s, e);
    forall i | 0 <= i < |t.up|
      ensures UpAt(t, i)
    {
      LossKeepsUp(s, e, i);
    }
    forall i | 0 <= i < |t.down|
      ensures DownAt(t, t.down[i])
    {
      LossKeepsDown(s, e, i);
    }
    SameMind(s, t);
  }

  lemma LossKeepsUp(s: System, e: Step, i: nat)
    requires Lines(s) && Enabled(s, e) && (e.LoseUp? || e.LoseDown? || e.McuReport?) && i < |Perform(s, e).up|
    ensures UpAt(Perform(s, e), i)
  {
    hide Wire, DownAt;
    assert UpAt(s, if e.LoseUp? && i >= e.i then i + 1 else i);
  }

  lemma LossKeepsDown(s: System, e: Step, i: nat)
    requires Lines(s) && Enabled(s, e) && (e.LoseUp? || e.LoseDown? || e.McuReport?) && i < |Perform(s, e).down|
    ensures DownAt(Perform(s, e), Perform(s, e).down[i])
  {
    hide Wire, UpAt;
    if i < |s.down| {
      assert DownAt(s, s.down[i]);
      if e.LoseDown? && i >= e.i {
        assert DownAt(s, s.down[i + 1]);
      }
    }
  }

  /** Only the lines differ. */
  lemma SameMind(s: System, t: System)
    requires t == s.(up := t.up, down := t.down)
    ensures ClientInv(t) == ClientInv(s) && McuInv(t) == McuInv(s) && Knows(t) == Knows(s)
  {
  }

  // ---- The controller's steps ----

  lemma McuWorkKeepsInv(s: System, e: Step)
    requires Inv(s) && (e.McuSense? || e.McuFinish?)
    ensures Inv(Perform(s, e))
  {
    hide ClientInv, Knows, UpAt, DownAt;
    var t := Perform(s, e);
    forall i | 0 <= i < |s.up|
      ensures UpAt(t, i)
    {
      SameLine(s, t, i);
    }
    forall i | 0 <= i < |s.down|
      ensures DownAt(t, s.down[i])
    {
      SameReply(s, t, s.down[i]);
    }
    OnlyOff(s.mcu, t.mcu, e);
    OtherMcu(s, t);
  }

  lemma SameLine(s: System, t: System, i: nat)
    requires i < |s.up| && t == s.(mcu := t.mcu)
    ensures UpAt(s, i) ==> UpAt(t, i)
  {
  }

  lemma SameReply(s: System, t: System, d: Tagged)
    requires t == s.(mcu := t.mcu)
    ensures DownAt(s, d) ==> DownAt(t, d)
  {
  }

  lemma OtherMcu(s: System, t: System)
    requires t == s.(mcu := t.mcu)
    ensures ClientInv(t) == ClientInv(s) && Knows(t) == Knows(s)
  {
  }

  /** Sampling, tripping, supervising and actuating never switch an output on. */
  lemma OnlyOff(m: SM.Mcu, n: SM.Mcu, e: Step)
    requires (e.McuSense? && n == SM.Sense(SM.Moved(m, e.world), e.world)) ||
             (e.McuFinish? && n == SM.Actuate(SM.Supervise(SM.Trip(m), e.now)))
    ensures n.plant.pid.enabled ==> m.plant.pid.enabled
    ensures n.plant.drive.Active() ==> m.plant.drive.Active()
  {
  }

  /** What one handled request does to the outputs, and what its positive reply proves. */
  lemma RequestEffect(m: SM.Mcu, f: Frame, now: nat, scale: Option<int>)
    requires f.kind == Request
    ensures var n, r := SM.Receive(m, f, now, scale), SM.ReplyTo(m, f, scale);
            && |r| == 1 && r[0].seqNo == f.seqNo && r[0].msgId == f.msgId && r[0].kind != Telemetry
            && (n.plant.pid.enabled && !m.plant.pid.enabled ==> f.msgId == HEATER_SET_TARGET)
            && (n.plant.drive.Active() && !m.plant.drive.Active() ==> f.msgId == MOTOR_SET_TARGET)
            && (r[0].kind == Response && f.msgId == HEATER_OFF ==> !n.plant.pid.enabled)
            && (r[0].kind == Response && f.msgId == MOTOR_STOP ==> !n.plant.drive.Active())
  {
    hide GetU16, GetI16, CH.Grams;
    CH.OneReplyPerRequest(m.plant, f, m.input, m.fault != NoFault, scale);
    CH.OnlySetTargetActivates(m.plant, f, m.input, m.fault != NoFault, scale);
  }

  lemma HandleKeepsInv(s: System, now: nat, scale: Option<int>)
    requires Inv(s) && s.up != []
    ensures Inv(Handle(s, now, scale))
  {
    hide SM.Receive, SM.ReplyTo, Wire, SessionInv;
    var f, t := s.up[0].frame, Handle(s, now, scale);
    assert UpAt(s, 0);
    RequestEffect(s.mcu, f, now, scale);
    forall i | 0 <= i < |t.up|
      ensures UpAt(t, i)
    {
      assert UpAt(s, i + 1);
    }
    forall i | 0 <= i < |t.down|
      ensures DownAt(t, t.down[i])
    {
      if i < |s.down| {
        assert DownAt(s, s.down[i]);
      }
    }
  }

  // ---- The client's steps ----

  lemma BookLines(s: System, app: App, queued: seq<Frame>, n: nat)
    requires Lines(s) && McuInv(s)
    requires |queued| <= n && |queued| <= 1
    requires queued != [] ==> queued[0].kind == Request && queued[0].seqNo == Wire(s.issued + n - 1)
    ensures Lines(Book(s, app, queued, n)) && McuInv(Book(s, app, queued, n))
  {
    hide Wire;
    var t := Book(s, app, queued, n);
    forall i | 0 <= i < |t.up|
      ensures UpAt(t, i)
    {
      if i < |s.up| {
        assert UpAt(s, i);
      } else {
        forall j | 0 <= j < i ensures t.up[j].mark < t.up[i].mark {
          assert UpAt(s, j);
        }
      }
    }
    forall i | 0 <= i < |t.down|
      ensures DownAt(t, t.down[i])
    {
      assert DownAt(s, s.down[i]);
    }
  }

  lemma ExpireKeepsInv(s: System, now: nat, room: bool)
    requires Inv(s)
    ensures Inv(Perform(s, PollExpire(now, room)))
  {
    hide Wire, Succ, Lines, McuInv, SessionInv, Overdue, Late;
    var c := s.app.client;
    var x := Expire(c, now, room);
    ExpireShape(c, now, room);
    WireSucc(s.issued);
    BookLines(s, s.app.(client := x.client), x.queued, |x.queued|);
    LinesBounds(s);
  }

  lemma LinesBounds(s: System)
    requires Lines(s)
    ensures s.heaterSet < s.issued && s.motorSet < s.issued && s.startTag <= s.issued && s.offSent < s.issued
  {
  }

  lemma ExpireShape(c: Client, now: nat, room: bool)
    ensures var x := Expire(c, now, room);
            && |x.queued| <= 1
            && (x.queued == [] ==> x.client == c || (c.waiting && x.client == GiveUp(c)))
            && (x.queued != [] ==> c.waiting && x.queued == [PendingFrame(c, c.nextSeq)])
            && (x.queued != [] ==> x.client == Retried(c, now))
  {
    hide Succ;
  }

  lemma BeatKeepsInv(s: System, now: nat, room: bool)
    requires Inv(s)
    ensures Inv(Perform(s, PollBeat(now, room)))
  {
    hide Wire, Succ, Lines, McuInv, SessionInv;
    var c := s.app.client;
    var x := Heartbeat(c, now, room);
    WireSucc(s.issued);
    BookLines(s, s.app.(client := x.client), x.queued, if BeatDue(c, now) then 1 else 0);
    LinesBounds(s);
  }

  /** A reply that completes the pending request answers that very request: its number is the
      latest one, because it matches modulo 256 and is not 256 numbers old. */
  lemma ReceiveKeepsInv(s: System)
    requires Inv(s) && Enabled(s, PollReceive)
    ensures Inv(Receive(s))
    ensures Completes(s.app.client, s.down[0].frame) ==> s.down[0].mark == s.pendingTag
  {
    hide Wire, SessionInv, McuInv;
    var t, d := Receive(s), s.down[0];
    assert DownAt(s, d);
    if Completes(s.app.client, d.frame) {
      WireInjective(d.mark, s.pendingTag);
    }
    forall i | 0 <= i < |t.up|
      ensures UpAt(t, i)
    {
      assert UpAt(s, i);
    }
    forall i | 0 <= i < |t.down|
      ensures DownAt(t, t.down[i])
    {
      assert DownAt(s, s.down[i + 1]);
    }
    assert McuInv(t) == McuInv(s) by {
      SameMcu(s, t);
    }
  }

  lemma SameMcu(s: System, t: System)
    requires t.mcu == s.mcu && t.heaterOff == s.heaterOff && t.heaterSet == s.heaterSet
    requires t.motorStop == s.motorStop && t.motorSet == s.motorSet
    ensures McuInv(t) == McuInv(s)
  {
  }

  // ---- The session's steps ----

  lemma UserKeepsInv(s: System, e: Step)
    requires Inv(s) && (e.UserStart? || e.UserStop?)
    ensures Inv(Perform(s, e))
  {
    hide Knows, ClientInv, StartProgram, Stop;
    var t := Perform(s, e);
    LinesBounds(s);
    SameLines(s, t);
    SameMcu(s, t);
    UserKeepsKnowledge(s, e);
    UserKeepsClient(s, e);
  }

  lemma UserKeepsKnowledge(s: System, e: Step)
    requires Knows(s) && (e.UserStart? || e.UserStop?)
    ensures Knows(Perform(s, e))
  {
    hide SessionInv;
    HappenKeepsSession(s.app, if e.UserStart? then StartEvent(e.program) else StopEvent);
  }

  lemma UserKeepsClient(s: System, e: Step)
    requires ClientInv(s) && (e.UserStart? || e.UserStop?)
    ensures ClientInv(Perform(s, e))
  {
    hide Wire, Evidence, AtRest;
    var t := Perform(s, e);
    forall f, tag ensures Evidence(t, f, tag) == Evidence(s, f, tag) {
      SameEvidence(s, t, f, tag);
    }
  }

  lemma SameEvidence(s: System, t: System, f: Frame, tag: nat)
    requires t.heaterOff == s.heaterOff && t.motorStop == s.motorStop
    ensures Evidence(t, f, tag) == Evidence(s, f, tag)
  {
  }

  lemma SameLines(s: System, t: System)
    requires Lines(s) && t == s.(app := t.app, startTag := t.startTag, direct := t.direct) && t.startTag <= t.issued
    ensures Lines(t)
  {
    forall i | 0 <= i < |t.up|
      ensures UpAt(t, i)
    {
      assert UpAt(s, i);
    }
    forall i | 0 <= i < |t.down|
      ensures DownAt(t, t.down[i])
    {
      assert DownAt(s, s.down[i]);
    }
  }

  /** A request made past the session: while a program runs it is like the program's own, and at rest
      the session no longer claims anything. */
  lemma DirectKeepsInv(s: System, e: Step)
    requires Inv(s) && e.UserRequest? && Enabled(s, e)
    ensures Inv(Perform(s, e))
  {
    hide Wire, Succ, Lines, McuInv, Ask, RequestStatus;
    var x := Ask(s.app.client, e.id, e.payload, e.now, e.room);
    var n := if Asks(s.app.client, e.payload) then 1 else 0;
    AskShape(s.app.client, e.id, e.payload, e.now, e.room);
    WireSucc(s.issued);
    BookLines(s, s.app.(client := x.client), x.queued, n);
    LinesBounds(s);
    var t, u := Perform(s, e), Book(s, s.app.(client := x.client), x.queued, n);
    SameLines(u, t);
    SameMcu(u, t);
  }

  lemma AskShape(c: Client, id: Byte, payload: seq<Byte>, now: nat, room: bool)
    ensures var x := Ask(c, id, payload, now, room);
            && (!Asks(c, payload) ==> x == Sent(c, []) && RequestStatus(c, payload, room) != Ok)
            && (Asks(c, payload) && !room ==>
                  && RequestStatus(c, payload, room) != Ok
                  && x == Sent(c.(nextSeq := Succ(c.nextSeq), pendingSeq := c.nextSeq), []))
            && (Asks(c, payload) && room ==>
                  && RequestStatus(c, payload, room) == Ok
                  && x.queued == [Frame(Request, c.nextSeq, id, payload)]
                  && x.client.waiting && x.client.nextSeq == Succ(c.nextSeq) && x.client.pendingSeq == c.nextSeq
                  && x.client.pendingId == id && x.client.pendingPayload == payload
                  && x.client.response == None && x.client.status == Ok)
  {
    hide Succ;
  }

  /** The outcome of trying requests that used n sequence numbers: at most one frame is queued; it
      is then the pending one and has the last number used. */
  predicate Tried(c: Client, x: Sent, issued: nat, n: nat) {
    && x.client.nextSeq == Wire(issued + n)
    && |x.queued| <= 1 && |x.queued| <= n
    && (x.queued == [] ==> x.client == c.(nextSeq := x.client.nextSeq, pendingSeq := x.client.pendingSeq))
    && (c.waiting ==> x == Sent(c, []) && n == 0)
    && (x.queued != [] ==>
          && x.client.waiting && x.client.pendingSeq == Wire(issued + n - 1)
          && x.client.response == None && x.client.status == Ok && |x.client.pendingPayload| <= MAX_PAYLOAD
          && x.queued[0] == Frame(Request, x.client.pendingSeq, x.client.pendingId, x.client.pendingPayload))
  }

  lemma TriedStep(c: Client, x: Sent, act: Act, now: nat, issued: nat, n: nat)
    requires Tried(c, x, issued, n)
    ensures var y := Ask(x.client, act.id, act.payload, now, act.room);
            Tried(c, Sent(y.client, x.queued + y.queued), issued, n + if Asks(x.client, act.payload) then 1 else 0)
  {
    hide Wire, Succ, Ask, RequestStatus;
    AskShape(x.client, act.id, act.payload, now, act.room);
    WireSucc(issued + n);
  }

  lemma {:induction false} ActsShape(c: Client, acts: seq<Act>, now: nat, issued: nat)
    requires c.nextSeq == Wire(issued)
    ensures Tried(c, RunActs(c, acts, now), issued, ActsUse(c, acts, now))
  {
    hide Wire, Ask, Asks;
    if acts != [] {
      hide Tried;
      var n := |acts| - 1;
      ActsShape(c, acts[..n], now, issued);
      TriedStep(c, RunActs(c, acts[..n], now), acts[n], now, issued, ActsUse(c, acts[..n], now));
    }
  }

  /** Taking the reply and reacting to a failure. */
  lemma SettleKeepsInv(s: System)
    requires Inv(s)
    ensures var b := Settle(s.app);
            && Lines(WithApp(s, b)) && McuInv(WithApp(s, b)) && SessionInv(b.ctl)
            && b.client == s.app.client.(response := None, status := b.client.status)
            && (b.client.waiting ==> b.client.status == Ok)
            && (b.ctl.session == s.app.ctl.session || b.ctl.session == Faulted)
  {
    hide Wire, SessionInv, UpAt, DownAt;
    SettleKeepsSession(s.app);
    var t := WithApp(s, Settle(s.app));
    SameLines(s, t);
    SameMcu(s, t);
  }

  /** With the reply taken and the failures noted, the session still knows what it claims. */
  lemma NoteKeepsInv(s: System)
    requires Inv(s)
    requires var b := Settle(s.app); b.ctl.session == Stopping || b.ctl.session == Faulted
    ensures var t := WithApp(s, Note(Settle(s.app), s.app.client.response));
            Inv(t) && t.app.client.response == None && t.app.ctl.session == Settle(s.app).ctl.session
  {
    hide Wire, Lines, McuInv, SessionInv, Knows, FlagsMean, Pending;
    var t := WithApp(s, Note(Settle(s.app), s.app.client.response));
    KnowsSession(s);
    SettleKeepsSession(s.app);
    NoteKeepsSession(Settle(s.app), s.app.client.response);
    NoteKeepsKnowledge(s);
    LinesBounds(s);
    SameLines(s, t);
    SameMcu(s, t);
  }

  lemma KnowsSession(s: System)
    requires Knows(s)
    ensures SessionInv(s.app.ctl) && (s.direct ==> AtRest(s.app.ctl))
  {
  }

  lemma NoteKeepsKnowledge(s: System)
    requires ClientInv(s) && Knows(s)
    requires var b := Settle(s.app); b.ctl.session == Stopping || b.ctl.session == Faulted
    ensures Knows(WithApp(s, Note(Settle(s.app), s.app.client.response)))
  {
    hide Wire;
    SettleKeepsSession(s.app);
    NoteKeepsSession(Settle(s.app), s.app.client.response);
  }

  /** A shutdown command is issued after every set-target request. */
  lemma CommandKeepsInv(s: System, heater: bool, now: nat, room: bool)
    requires Inv(s) && s.app.client.response == None
    requires s.app.ctl.session == Stopping || s.app.ctl.session == Faulted
    requires if heater then !s.app.ctl.heaterDone else s.app.ctl.heaterDone && !s.app.ctl.motorDone
    ensures var x := if heater then SendHeaterOff(s.app, now, room) else SendMotorStop(s.app, now, room);
            var sent := if heater then s.app.ctl.heaterSent else s.app.ctl.motorSent;
            Inv(Book(s, x.app, x.queued, if !sent && Asks(s.app.client, []) then 1 else 0))
  {
    hide Wire, Succ, Lines, McuInv, Ask, RequestStatus;
    var x := if heater then SendHeaterOff(s.app, now, room) else SendMotorStop(s.app, now, room);
    var sent := if heater then s.app.ctl.heaterSent else s.app.ctl.motorSent;
    AskShape(s.app.client, if heater then HEATER_OFF else MOTOR_STOP, [], now, room);
    WireSucc(s.issued);
    BookLines(s, x.app, x.queued, if !sent && Asks(s.app.client, []) then 1 else 0);
    LinesBounds(s);
  }

  /** A program's tick: what it asks for is numbered after the session's start. */
  lemma ProgramKeepsInv(s: System, e: Step)
    requires Inv(s) && e.AppTick?
    requires var b := Settle(s.app); b.ctl.session == Running && b.ctl.program.Some?
    ensures Inv(Perform(s, e))
  {
    hide Wire, Lines, McuInv, RunActs, ActsUse;
    var b := Settle(s.app);
    SettleKeepsInv(s);
    HappenKeepsSession(s.app, TickEvent(e.now, e.room, e.acts, e.finished));
    ActsShape(b.client, e.acts, e.now, s.issued);
    var x := Tick(s.app, e.now, e.room, e.acts, e.finished);
    BookLines(s, x.app, x.queued, TickUse(s.app, e.now, e.acts));
    LinesBounds(s);
  }

  /** Where an acknowledged shutdown leads. */
  function Finish(a: App, now: nat): App {
    if a.ctl.startAfter && a.ctl.pending.Some? && !a.ctl.faultShutdown then Begin(a, a.ctl.pending.value, now)
    else a.(ctl := a.ctl.(session := if a.ctl.faultShutdown then Faulted else Done))
  }

  lemma FinishKeepsInv(s: System, now: nat)
    requires Inv(s) && s.app.ctl.heaterDone && s.app.ctl.motorDone
    requires s.app.ctl.session == Stopping || s.app.ctl.session == Faulted
    ensures var a := Finish(s.app, now);
            Inv(WithApp(s, a).(startTag := if a.ctl.session == Running then s.issued else s.startTag))
  {
    hide Wire, Lines, McuInv;
    var a := Finish(s.app, now);
    var t := WithApp(s, a).(startTag := if a.ctl.session == Running then s.issued else s.startTag);
    LinesBounds(s);
    SameLines(s, t);
    SameMcu(s, t);
  }

  lemma ShutdownKeepsInv(s: System, e: Step)
    requires Inv(s) && e.AppTick?
    requires var b := Settle(s.app); b.ctl.session == Stopping || b.ctl.session == Faulted
    ensures Inv(Perform(s, e))
  {
    hide Settle, Note, Inv, Book, WithApp, AtRest, Begin, SendHeaterOff, SendMotorStop;
    NoteKeepsInv(s);
    SessionKnown(s);
    SettleKeepsSession(s.app);
    var b := Settle(s.app);
    var a := Note(b, s.app.client.response);
    var t := WithApp(s, a);
    WithAppIs(s, a);
    var x := Tick(s.app, e.now, e.room, e.acts, e.finished);
    if !a.ctl.heaterDone {
      CommandKeepsInv(t, true, e.now, e.room);
      SendsStaySilent(a, e.now, e.room);
    } else if !a.ctl.motorDone {
      CommandKeepsInv(t, false, e.now, e.room);
      SendsStaySilent(a, e.now, e.room);
    } else {
      SessionKnown(t);
      FinishKeepsInv(t, e.now);
      BeginRuns(a, a.ctl.pending, e.now);
      BookNothing(t, x.app);
      WithAppIs(t, x.app);
      FinishedIsAtRest(a, b.ctl.session, s.app.ctl.session);
    }
    BookIgnoresApp(s, a, x.app, x.queued, TickUse(s.app, e.now, e.acts));
  }

  lemma WithAppIs(s: System, a: App)
    ensures WithApp(s, a).app == a && WithApp(s, a).issued == s.issued && WithApp(s, a).startTag == s.startTag
  {
  }

  lemma FinishedIsAtRest(a: App, settled: Session, before: Session)
    requires a.ctl.motorDone && a.ctl.session == settled && (settled == Stopping || settled == Faulted)
    requires settled == before || settled == Faulted
    ensures AtRest(a.ctl) || before == Stopping
    ensures forall k: Controller :: k.session == Stopping ==> !AtRest(k)
  {
  }

  lemma SessionKnown(s: System)
    requires Inv(s)
    ensures SessionInv(s.app.ctl) && (s.direct ==> AtRest(s.app.ctl))
  {
  }

  lemma BookIgnoresApp(s: System, before: App, app: App, queued: seq<Frame>, n: nat)
    requires s.direct && AtRest(app.ctl) ==> AtRest(before.ctl)
    ensures Book(WithApp(s, before), app, queued, n) == Book(s, app, queued, n)
  {
  }

  lemma BookNothing(s: System, app: App)
    ensures Book(s, app, [], 0) == WithApp(s, app)
  {
  }

  lemma SendsStaySilent(a: App, now: nat, room: bool)
    ensures var k := SendHeaterOff(a, now, room).app.ctl; k.session == a.ctl.session && AtRest(k) == AtRest(a.ctl)
    ensures var k := SendMotorStop(a, now, room).app.ctl; k.session == a.ctl.session && AtRest(k) == AtRest(a.ctl)
  {
    hide Ask, RequestStatus;
  }

  lemma BeginRuns(a: App, program: Option<nat>, now: nat)
    ensures program.Some? ==> Begin(a, program.value, now).ctl.session == Running
  {
  }

  lemma AtRestKeepsInv(s: System, e: Step)
    requires Inv(s) && e.AppTick?
    requires var b := Settle(s.app); b.ctl.session == Idle || b.ctl.session == Done
    ensures Inv(Perform(s, e))
  {
    hide Wire, Lines, McuInv;
    SettleKeepsInv(s);
    SettleKeepsSession(s.app);
  }

  lemma StepKeepsInv(s: System, e: Step)
    requires Inv(s) && Enabled(s, e)
    ensures Inv(Perform(s, e))
  {
    hide Inv;
    match e
    case PollExpire(now, room) => ExpireKeepsInv(s, now, room);
    case PollReceive => ReceiveKeepsInv(s);
    case PollBeat(now, room) => BeatKeepsInv(s, now, room);
    case UserStart(_) => UserKeepsInv(s, e);
    case UserStop => UserKeepsInv(s, e);
    case UserRequest(_, _, _, _) => DirectKeepsInv(s, e);
    case McuSense(_) => McuWorkKeepsInv(s, e);
    case McuHandle(now, scale) => HandleKeepsInv(s, now, scale);
    case McuFinish(_) => McuWorkKeepsInv(s, e);
    case McuReport(_) => LossKeepsInv(s, e);
    case LoseUp(_) => LossKeepsInv(s, e);
    case LoseDown(_) => LossKeepsInv(s, e);
    case AppTick(_, _, _, _) => TickKeepsInv(s, e);
  }

  lemma TickKeepsInv(s: System, e: Step)
    requires Inv(s) && e.AppTick?
    ensures Inv(Perform(s, e))
  {
    hide Perform, Lines, ClientInv, McuInv, Settle;
    SettleKeepsInv(s);
    match Settle(s.app).ctl.session
    case Running => ProgramKeepsInv(s, e);
    case Stopping => ShutdownKeepsInv(s, e);
    case Faulted => ShutdownKeepsInv(s, e);
    case Idle => AtRestKeepsInv(s, e);
    case Done => AtRestKeepsInv(s, e);
  }

  // ---- Runs ----

  /** The system after a run of steps, if each was possible in its turn. */
  function Run(s: System, es: seq<Step>): Option<System> {
    if es == [] then Some(s)
    else
      var before := Run(s, es[..|es| - 1]);
      var e := es[|es| - 1];
      if before.Some? && Enabled(before.value, e) then Some(Perform(before.value, e)) else None
  }

  lemma {:induction false} RunKeepsInv(s: System, es: seq<Step>)
    requires Inv(s) && Run(s, es).Some?
    ensures Inv(Run(s, es).value)
  {
    hide Inv, Enabled, Perform;
    if es != [] {
      var n := |es| - 1;
      RunKeepsInv(s, es[..n]);
      StepKeepsInv(Run(s, es[..n]).value, es[n]);
    }
  }

  predicate OutputsOff(m: SM.Mcu) {
    !m.plant.pid.enabled && m.plant.drive.target == 0 && m.plant.drive.commanded == 0
  }

  /** HEATER_OFF and after it MOTOR_STOP were obeyed later than every set-target request. */
  predicate ShutDownLast(s: System) {
    && s.heaterOff > s.heaterSet && s.heaterOff > s.motorSet
    && s.motorStop > s.motorSet && s.motorStop > s.heaterOff
  }

  /** On every run, at the very step with which the session enters Running or Done, the controller
      has both outputs off and has obeyed both shutdown commands, in order, after the last
      set-target request ever made. */
  lemma SafeStart(now: nat, es: seq<Step>, e: Step)
    requires Run(Boot(now), es + [e]).Some?
    ensures Run(Boot(now), es).Some?
    ensures var s, t := Run(Boot(now), es).value, Run(Boot(now), es + [e]).value;
            Entering(s.app.ctl, t.app.ctl, Running) || Entering(s.app.ctl, t.app.ctl, Done) ==>
              OutputsOff(t.mcu) && ShutDownLast(t)
  {
    hide Inv, Perform;
    assert (es + [e])[..|es|] == es;
    BootInv(now);
    RunKeepsInv(Boot(now), es);
    RunKeepsInv(Boot(now), es + [e]);
    var s := Run(Boot(now), es).value;
    StartMarks(s, e);
    OffWhenKnown(Perform(s, e));
  }

  /** A session that enters Running is marked with a number above every one used before; and one that
      enters Running or Done comes from a shutdown, during which nothing is requested past it. */
  lemma StartMarks(s: System, e: Step)
    requires Inv(s) && Enabled(s, e)
    ensures var t := Perform(s, e);
            && (Entering(s.app.ctl, t.app.ctl, Running) ==> t.startTag == t.issued)
            && (Entering(s.app.ctl, t.app.ctl, Running) || Entering(s.app.ctl, t.app.ctl, Done) ==> !t.direct)
  {
    SessionKnown(s);
    hide Inv;
    if e.AppTick? {
      hide Tick, TickUse, SessionInv;
      HappenKeepsSession(s.app, TickEvent(e.now, e.room, e.acts, e.finished));
    } else {
      OnlyTicksEnter(s, e);
    }
  }

  lemma OnlyTicksEnter(s: System, e: Step)
    requires Enabled(s, e) && !e.AppTick?
    ensures var k := Perform(s, e).app.ctl;
            !Entering(s.app.ctl, k, Running) && !Entering(s.app.ctl, k, Done)
  {
    hide Ask, Expire, Heartbeat, BeatDue, Absorb, SM.Receive, SM.ReplyTo, SM.Sense, SM.Actuate, SM.Supervise, SM.Trip;
  }

  /** What the invariant says about the outputs. */
  lemma OffWhenKnown(s: System)
    requires Inv(s)
    ensures !s.direct && (s.app.ctl.motorDone || s.app.ctl.session == Done) ==> OutputsOff(s.mcu) && ShutDownLast(s)
    ensures s.app.ctl.session == Running && s.startTag == s.issued ==> OutputsOff(s.mcu) && ShutDownLast(s)
    ensures s.app.ctl.session == Running && s.heaterSet < s.startTag ==> !s.mcu.plant.pid.enabled
    ensures s.app.ctl.session == Running && s.motorSet < s.startTag ==>
              s.mcu.plant.drive.target == 0 && s.mcu.plant.drive.commanded == 0
  {
  }

  /** In every reachable state: after an acknowledged shutdown the outputs stay off until something is
      requested past the session, and in a running session each stays off until it is asked for. */
  lemma OffUntilAsked(now: nat, es: seq<Step>)
    requires Run(Boot(now), es).Some?
    ensures var s := Run(Boot(now), es).value;
            && (!s.direct && (s.app.ctl.motorDone || s.app.ctl.session == Done) ==> OutputsOff(s.mcu))
            && (s.app.ctl.session == Running && s.heaterSet < s.startTag ==> !s.mcu.plant.pid.enabled)
            && (s.app.ctl.session == Running && s.motorSet < s.startTag ==>
                  s.mcu.plant.drive.target == 0 && s.mcu.plant.drive.commanded == 0)
  {
    hide Inv, Perform, Run;
    BootInv(now);
    RunKeepsInv(Boot(now), es);
    OffWhenKnown(Run(Boot(now), es).value);
  }

  // ---- The steps are the processors' own calls, cut at their stages ----

  lemma RunMore(s: System, es: seq<Step>, e: Step)
    requires Run(s, es).Some? && Enabled(Run(s, es).value, e)
    ensures Run(s, es + [e]) == Some(Perform(Run(s, es).value, e))
  {
    hide Enabled, Perform;
    assert (es + [e])[..|es|] == es;
  }

  function TickSteps(w: SM.World, k: nat): seq<Step> {
    if k == 0 then [McuSense(w)] else TickSteps(w, k - 1) + [McuHandle(w.now, w.scale)]
  }

  /** What the first k frames leave: the state, the rest of the line, and the replies sent so far. */
  predicate Sensed(s: System, w: SM.World, k: nat, t: System)
    requires k <= |w.frames| <= |s.up|
  {
    var sensed := SM.Sense(SM.Moved(s.mcu, w), w);
    && t.up == s.up[k..]
    && t.mcu == SM.Drain(sensed, w.frames[..k], w.now, w.scale)
    && Frames(t.down) == Frames(s.down) + SM.Replies(sensed, w.frames[..k], w.now, w.scale)
  }

  lemma {:induction false} TickStepsRun(s: System, w: SM.World, k: nat)
    requires k <= |w.frames| <= |s.up| && forall i :: 0 <= i < |w.frames| ==> w.frames[i] == s.up[i].frame
    ensures var r := Run(s, TickSteps(w, k));
            r.Some? && Sensed(s, w, k, r.value)
  {
    hide SM.Sense, SM.Receive, SM.ReplyTo, SM.Moved, SM.Drain, SM.Replies, Run, Perform;
    if k == 0 {
      SenseRuns(s, w);
      SM.DrainNothing(SM.Sense(SM.Moved(s.mcu, w), w), w.now, w.scale);
      assert w.frames[..0] == [];
    } else {
      TickStepsRun(s, w, k - 1);
      RunMore(s, TickSteps(w, k - 1), McuHandle(w.now, w.scale));
      HandleOne(Run(s, TickSteps(w, k - 1)).value, w.now, w.scale);
      SM.DrainMore(SM.Sense(SM.Moved(s.mcu, w), w), w.frames, k - 1, w.now, w.scale);
    }
  }

  lemma SenseRuns(s: System, w: SM.World)
    ensures Run(s, [McuSense(w)]) == Some(s.(mcu := SM.Sense(SM.Moved(s.mcu, w), w)))
  {
    assert [McuSense(w)][..0] == [];
  }

  lemma FramesAppend(ts: seq<Tagged>, t: Tagged)
    ensures Frames(ts + [t]) == Frames(ts) + [t.frame]
  {
  }

  lemma HandleOne(s: System, now: nat, scale: Option<int>)
    requires s.up != []
    ensures var t := Perform(s, McuHandle(now, scale));
            && t.up == s.up[1..] && t.mcu == SM.Receive(s.mcu, s.up[0].frame, now, scale)
            && Frames(t.down) == Frames(s.down) + SM.ReplyTo(s.mcu, s.up[0].frame, scale)
  {
    hide SM.Receive, CH.Handle, Frames;
    var reply := SM.ReplyTo(s.mcu, s.up[0].frame, scale);
    if reply == [] {
      assert Frames(s.down) + [] == Frames(s.down);
    } else {
      FramesAppend(s.down, Marked(reply[0], s.up[0].mark));
    }
  }

  /** A whole tick of the safety controller is a run of these steps: it takes the frames off one line and
      puts its replies on the other. */
  lemma TickIsARun(s: System, w: SM.World)
    requires |w.frames| <= |s.up| && forall i :: 0 <= i < |w.frames| ==> w.frames[i] == s.up[i].frame
    ensures var r := Run(s, TickSteps(w, |w.frames|) + [McuFinish(w.now)]);
            && r.Some? && r.value.mcu == SM.Tick(s.mcu, w).mcu && r.value.up == s.up[|w.frames|..]
            && Frames(r.value.down) == Frames(s.down) + SM.Tick(s.mcu, w).replies
  {
    hide SM.Sense, SM.Drain, SM.Replies, SM.Actuate, SM.Supervise, SM.Trip, Frames;
    TickStepsRun(s, w, |w.frames|);
    RunMore(s, TickSteps(w, |w.frames|), McuFinish(w.now));
    assert w.frames[..|w.frames|] == w.frames;
  }

  function PollSteps(now: nat, room: bool, k: nat): seq<Step> {
    if k == 0 then [PollExpire(now, room)] else PollSteps(now, room, k - 1) + [PollReceive]
  }

  /** The first k replies on the line, none of them 256 numbers old. */
  predicate Fresh(s: System, k: nat) {
    k <= |s.down| && forall i :: 0 <= i < k ==> s.down[i].frame.kind == Telemetry || s.issued < s.down[i].mark + 256
  }

  lemma {:induction false} PollStepsRun(s: System, now: nat, room: bool, k: nat)
    requires Fresh(s, k)
    ensures var r := Run(s, PollSteps(now, room, k));
            && r.Some? && r.value.down == s.down[k..] && r.value.issued <= s.issued + 1
            && Frames(r.value.up) == Frames(s.up) + Expire(s.app.client, now, room).queued
            && r.value.app.client == AbsorbAll(Expire(s.app.client, now, room).client, Frames(s.down[..k]))
  {
    hide Absorb, Expire, Run, Perform;
    if k == 0 {
      ExpireRuns(s, now, room);
    } else {
      PollStepsRun(s, now, room, k - 1);
      RunMore(s, PollSteps(now, room, k - 1), PollReceive);
      ReceiveOne(Run(s, PollSteps(now, room, k - 1)).value);
      assert s.down[..k][..k - 1] == s.down[..k - 1];
      assert Frames(s.down[..k])[..k - 1] == Frames(s.down[..k - 1]);
    }
  }

  lemma ReceiveOne(s: System)
    requires Enabled(s, PollReceive)
    ensures var t := Perform(s, PollReceive);
            && t.down == s.down[1..] && t.issued == s.issued && t.up == s.up
            && t.app.client == Absorb(s.app.client, s.down[0].frame)
  {
    hide Absorb, Completes;
  }

  lemma BookQueues(s: System, app: App, queued: seq<Frame>, n: nat)
    requires |queued| <= 1 && (queued != [] ==> n > 0)
    ensures Frames(Book(s, app, queued, n).up) == Frames(s.up) + queued
    ensures Book(s, app, queued, n).app == app && Book(s, app, queued, n).down == s.down
    ensures Book(s, app, queued, n).issued == s.issued + n
  {
    if queued == [] {
      assert Frames(s.up) + [] == Frames(s.up);
    } else {
      FramesAppend(s.up, Marked(queued[0], s.issued + n - 1));
    }
  }

  lemma ExpireRuns(s: System, now: nat, room: bool)
    ensures var r := Run(s, [PollExpire(now, room)]);
            && r.Some? && r.value.down == s.down && r.value.issued <= s.issued + 1
            && Frames(r.value.up) == Frames(s.up) + Expire(s.app.client, now, room).queued
            && r.value.app.client == Expire(s.app.client, now, room).client
  {
    hide Expire, Book, Frames;
    assert [PollExpire(now, room)][..0] == [];
    ExpireShape(s.app.client, now, room);
    var x := Expire(s.app.client, now, room);
    BookQueues(s, s.app.(client := x.client), x.queued, |x.queued|);
  }

  /** So is a whole poll of the client: it takes its replies off the line and queues its requests. */
  lemma PollIsARun(s: System, now: nat, room: bool, beatRoom: bool, k: nat)
    requires Fresh(s, k)
    ensures var r := Run(s, PollSteps(now, room, k) + [PollBeat(now, beatRoom)]);
            var p := Poll(s.app.client, now, Frames(s.down[..k]), room, beatRoom);
            && r.Some? && r.value.down == s.down[k..]
            && r.value.app.client == p.client
            && Frames(r.value.up) == Frames(s.up) + p.queued
  {
    hide AbsorbAll, Expire, Run, Book, Frames;
    PollStepsRun(s, now, room, k);
    RunMore(s, PollSteps(now, room, k), PollBeat(now, beatRoom));
    var t := Run(s, PollSteps(now, room, k)).value;
    var x := Heartbeat(t.app.client, now, beatRoom);
    BookQueues(t, t.app.(client := x.client), x.queued, if BeatDue(t.app.client, now) then 1 else 0);
    var first := Expire(s.app.client, now, room).queued;
    assert (Frames(s.up) + first) + x.queued == Frames(s.up) + (first + x.queued);
  }
}
