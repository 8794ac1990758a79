/** Why no reply is 256 numbers old: by the clock, the application uses at most one sequence number in a
    poll and one in a controller tick, so a reply that comes within 230 milliseconds of its request is
    young enough, and a session starts safely without any premise on numbers. */
module ReplyAge {
  import opened C1Link
  import opened Wrappers
  import opened Clock
  import opened McuClient
  import opened CookingController
  import opened SafeStart
  import CT = ClientTheorems

  const MAX_ROUND_TRIP_MS: nat := 230
  const TICK_PERIOD_MS: nat := 10

  /** How far the application has come in the current millisecond. */
  datatype Stage = Waking | Polling | Polled | Ticked

  /** The system by the clock: true time, the times at which the sequence numbers were used and the
      turns they were used in, and the steps taken. */
  datatype Clocked = Clocked(sys: System, start: nat, elapsed: nat, stage: Stage, stamps: seq<nat>, turns: seq<nat>,
                             steps: seq<Step>) {
    function Now(): nat {
      start + elapsed
    }
  }

  /** The polls and ticks of the application, counted from power-on: one poll in every millisecond and one
      tick after every tenth. */
  function PollTurn(elapsed: nat): nat {
    elapsed + (if elapsed == 0 then 0 else (elapsed - 1) / TICK_PERIOD_MS)
  }

  function Turn(c: Clocked): nat
  {
    PollTurn(c.elapsed) + if c.stage == Ticked then 1 else 0
  }

  datatype Move =
    | NextMillisecond
    | Do(step: Step)

  predicate InTime(c: Clocked, reply: Tagged) {
    reply.frame.kind == Telemetry || (reply.mark < |c.stamps| && c.Now() <= c.stamps[reply.mark] + MAX_ROUND_TRIP_MS)
  }

  /** The runtime's order: in a millisecond first the poll - expiry, replies, heartbeat - and after every
      tenth the tick, in which a program tries at most one command. Everything else may happen at any
      moment. */
  predicate CanDo(c: Clocked, e: Step) {
    match e
    case PollExpire(now, _) => c.stage == Waking && now == c.Now()
    case PollReceive => c.stage == Polling && c.sys.down != [] && InTime(c, c.sys.down[0])
    case PollBeat(now, _) => c.stage == Polling && now == c.Now()
    case AppTick(now, _, acts, _) =>
      c.stage == Polled && now == c.Now() && c.elapsed > 0 && (now - c.start) % TICK_PERIOD_MS == 0 && |acts| <= 1
    case UserRequest(_, _, _, _) => false
    case _ => Enabled(c.sys, e)
  }

  function StageAfter(stage: Stage, e: Step): Stage {
    match e
    case PollExpire(_, _) => Polling
    case PollBeat(_, _) => Polled
    case AppTick(_, _, _, _) => Ticked
    case _ => stage
  }

  /** A step that is not enabled would change nothing; DoKeepsInv shows that every step that can be done
      is. */
  function Advance(c: Clocked, m: Move): Clocked {
    match m
    case NextMillisecond => c.(elapsed := c.elapsed + 1, stage := Waking)
    case Do(e) =>
      if !Enabled(c.sys, e) then c
      else
        var t := Perform(c.sys, e);
        var d := c.(sys := t, stage := StageAfter(c.stage, e), steps := c.steps + [e]);
        if t.issued == c.sys.issued then d
        else d.(stamps := c.stamps + [c.Now()], turns := c.turns + [Turn(d)])
  }

  // ---- The invariant ----

  /** Numbers are used in different turns, none of them later than now. */
  predicate Increasing(turns: seq<nat>, last: nat) {
    && (forall i, j :: 0 <= i < j < |turns| ==> turns[i] < turns[j])
    && (forall i :: 0 <= i < |turns| ==> turns[i] <= last)
  }

  predicate Stamped(c: Clocked) {
    && |c.stamps| == |c.turns| == c.sys.issued
    && (forall i :: 0 <= i < |c.stamps| ==> c.start <= c.stamps[i] <= c.Now() && PollTurn(c.stamps[i] - c.start) <= c.turns[i])
    && Increasing(c.turns, Turn(c))
  }

  predicate UsedNow(c: Clocked)
  {
    c.turns != [] && c.turns[|c.turns| - 1] == Turn(c)
  }

  /** A number used by the expiry of this poll went out, so that no heartbeat is due. */
  predicate TurnKept(c: Clocked)
  {
    && (c.stage == Waking ==> !UsedNow(c))
    && (c.stage == Polling && UsedNow(c) ==> c.sys.app.client.lastTx == Ms(c.Now()))
  }

  predicate TickedOnTen(c: Clocked) {
    c.stage == Ticked ==> c.elapsed > 0 && c.elapsed % TICK_PERIOD_MS == 0
  }

  predicate Inv(c: Clocked) {
    && Stamped(c) && TurnKept(c) && TickedOnTen(c)
    && Run(Boot(c.start), c.steps) == Some(c.sys)
  }

  // ---- A young reply has a recent number ----

  lemma {:induction false} TurnsSpread(turns: seq<nat>, last: nat, i: nat)
    requires Increasing(turns, last) && i < |turns|
    ensures |turns| - i <= last - turns[i] + 1
    decreases |turns| - i
  {
    if i + 1 < |turns| {
      TurnsSpread(turns, last, i + 1);
      assert turns[i] < turns[i + 1];
    }
  }

  lemma TurnsInTime(from: nat, upTo: nat)
    requires from <= upTo <= from + MAX_ROUND_TRIP_MS
    ensures PollTurn(upTo) + 1 - PollTurn(from) + 1 <= 256
  {
  }

  lemma InTimeIsEnabled(c: Clocked)
    requires Stamped(c) && c.sys.down != [] && InTime(c, c.sys.down[0])
    ensures Enabled(c.sys, PollReceive)
  {
    hide PollTurn;
    var reply := c.sys.down[0];
    if reply.frame.kind != Telemetry {
      var from := c.stamps[reply.mark] - c.start;
      TurnsSpread(c.turns, Turn(c), reply.mark);
      TurnsInTime(from, c.elapsed);
    }
  }

  // ---- Every step uses at most one number, in its own turn ----

  lemma TickUsesOne(a: App, now: nat, acts: seq<Act>)
    requires |acts| <= 1
    ensures TickUse(a, now, acts) <= 1
  {
    hide Settle, Note, Asks, RunActs;
    assert ActsUse(Settle(a).client, [], now) == 0;
    if acts != [] {
      assert acts[..|acts| - 1] == [];
    }
  }

  predicate Spends(e: Step) {
    e.PollExpire? || e.PollBeat? || e.AppTick?
  }

  /** What a step does to the numbers, and to the time of the client's last transmission. */
  lemma StepSpends(s: System, e: Step)
    requires Enabled(s, e) && !e.UserRequest? && (e.AppTick? ==> |e.acts| <= 1)
    ensures var t := Perform(s, e);
            && s.issued <= t.issued <= s.issued + 1
            && (!Spends(e) ==> t.issued == s.issued && t.app.client.lastTx == s.app.client.lastTx)
            && (e.PollExpire? && t.issued > s.issued ==> t.app.client.lastTx == Ms(e.now))
            && (e.PollBeat? && s.app.client.lastTx == Ms(e.now) ==> t.issued == s.issued)
  {
    hide Tick, TickUse, Ms, Expire, Heartbeat, Completes, SM.Receive, SM.ReplyTo, SM.Sense, SM.Actuate, SM.Supervise, SM.Trip;
    match e
    case AppTick(now, _, acts, _) => TickUsesOne(s.app, now, acts);
    case PollExpire(now, room) => CT.ExpireMeans(s.app.client, now, room);
    case PollBeat(now, _) => NotDue(s.app.client, now);
    case _ =>
  }

  lemma NotDue(c: Client, now: nat)
    ensures c.lastTx == Ms(now) ==> !BeatDue(c, now)
  {
    ElapsedExact(now, now);
  }

  lemma TurnsGrow(elapsed: nat)
    ensures PollTurn(elapsed) + (if elapsed > 0 && elapsed % TICK_PERIOD_MS == 0 then 1 else 0) < PollTurn(elapsed + 1)
  {
  }

  lemma MillisecondKeepsInv(c: Clocked)
    requires Inv(c)
    ensures Inv(Advance(c, NextMillisecond)) && Advance(c, NextMillisecond).start == c.start
  {
    hide PollTurn, Run, Boot;
    TurnsGrow(c.elapsed);
    var d := Advance(c, NextMillisecond);
  }

  lemma LaterStaysIncreasing(turns: seq<nat>, last: nat, later: nat)
    requires Increasing(turns, last) && last <= later
    ensures Increasing(turns, later)
  {
  }

  lemma OneMoreIsIncreasing(turns: seq<nat>, last: nat, turn: nat)
    requires Increasing(turns, last) && last <= turn && (turns != [] ==> turns[|turns| - 1] < turn)
    ensures Increasing(turns + [turn], turn)
  {
  }

  /** Only polls and ticks use numbers, and each its own. */
  lemma OwnTurn(c: Clocked, e: Step)
    requires TurnKept(c) && CanDo(c, e) && Enabled(c.sys, e) && Increasing(c.turns, Turn(c))
    ensures var t, d := Perform(c.sys, e), Advance(c, Do(e));
            && c.sys.issued <= t.issued <= c.sys.issued + 1
            && Turn(c) <= Turn(d)
            && (t.issued > c.sys.issued && c.turns != [] ==> c.turns[|c.turns| - 1] < Turn(d))
            && (t.issued == c.sys.issued ==> TurnKept(d)) && (t.issued > c.sys.issued ==> d.stage != Waking)
            && (t.issued > c.sys.issued && d.stage == Polling ==> t.app.client.lastTx == Ms(c.Now()))
  {
    hide PollTurn, Perform, Enabled, Increasing, Ms;
    StepSpends(c.sys, e);
    LastTurn(c);
  }

  lemma LastTurn(c: Clocked)
    requires Increasing(c.turns, Turn(c))
    ensures c.turns != [] ==> c.turns[|c.turns| - 1] <= Turn(c)
  {
    hide PollTurn;
  }

  lemma DoKeepsStamps(c: Clocked, e: Step)
    requires Stamped(c) && TurnKept(c) && TickedOnTen(c) && CanDo(c, e) && Enabled(c.sys, e)
    ensures var d := Advance(c, Do(e)); Stamped(d) && TurnKept(d) && TickedOnTen(d)
  {
    hide PollTurn, Perform, Enabled, Increasing, CanDo, Ms;
    OwnTurn(c, e);
    StaysOnTen(c, e);
    var d := Advance(c, Do(e));
    LaterStaysIncreasing(c.turns, Turn(c), Turn(d));
    if d.sys.issued > c.sys.issued {
      OneMoreIsIncreasing(c.turns, Turn(c), Turn(d));
    }
  }

  lemma StaysOnTen(c: Clocked, e: Step)
    requires TickedOnTen(c) && CanDo(c, e)
    ensures TickedOnTen(Advance(c, Do(e)))
  {
    hide Perform, Enabled;
  }

  lemma DoKeepsInv(c: Clocked, e: Step)
    requires Inv(c) && CanDo(c, e)
    ensures Enabled(c.sys, e) && Inv(Advance(c, Do(e))) && Advance(c, Do(e)).start == c.start
  {
    hide Perform, TurnKept, TickedOnTen, Run, Stamped;
    if e.PollReceive? {
      CanDoInTime(c);
      InTimeIsEnabled(c);
    }
    DoKeepsStamps(c, e);
    RunMore(Boot(c.start), c.steps, e);
  }

  lemma CanDoInTime(c: Clocked)
    requires CanDo(c, PollReceive)
    ensures c.sys.down != [] && InTime(c, c.sys.down[0])
  {
  }

  // ---- Runs by the clock ----

  function PowerOn(start: nat): Clocked {
    Clocked(Boot(start), start, 0, Polled, [], [], [])
  }

  function After(start: nat, ms: seq<Move>): Option<Clocked> {
    if ms == [] then Some(PowerOn(start))
    else
      var before := After(start, ms[..|ms| - 1]);
      var m := ms[|ms| - 1];
      if before.Some? && (m.Do? ==> CanDo(before.value, m.step)) then Some(Advance(before.value, m)) else None
  }

  lemma PowerOnInv(start: nat)
    ensures Inv(PowerOn(start))
  {
  }

  lemma {:induction false} RunKeepsInv(start: nat, ms: seq<Move>)
    requires After(start, ms).Some?
    ensures Inv(After(start, ms).value) && After(start, ms).value.start == start
    ensures ms != [] && ms[|ms| - 1].Do? ==> Enabled(After(start, ms[..|ms| - 1]).value.sys, ms[|ms| - 1].step)
  {
    hide Advance, CanDo, Enabled, Inv;
    if ms == [] {
      PowerOnInv(start);
    } else {
      var n := |ms| - 1;
      RunKeepsInv(start, ms[..n]);
      var c := After(start, ms[..n]).value;
      match ms[n]
      case NextMillisecond => MillisecondKeepsInv(c);
      case Do(e) => DoKeepsInv(c, e);
    }
  }

  /** The steps taken by the clock are a run of the system, in which every step was possible. */
  lemma ClockedIsARun(start: nat, ms: seq<Move>)
    requires After(start, ms).Some?
    ensures var c := After(start, ms).value;
            Run(Boot(start), c.steps) == Some(c.sys)
  {
    hide After, Stamped, TurnKept, Run;
    RunKeepsInv(start, ms);
  }

  /** With polls and ticks at their times, and replies handled within 230 milliseconds of their requests
      or lost: whenever the session enters Running or Done the controller has both outputs off and has
      obeyed both shutdown commands, in order, after the last set-target request. */
  lemma SafeStartByTheClock(start: nat, ms: seq<Move>, e: Step)
    requires After(start, ms + [Do(e)]).Some?
    ensures After(start, ms).Some?
    ensures var s, t := After(start, ms).value.sys, After(start, ms + [Do(e)]).value.sys;
            Entering(s.app.ctl, t.app.ctl, Running) || Entering(s.app.ctl, t.app.ctl, Done) ==>
              OutputsOff(t.mcu) && ShutDownLast(t)
  {
    hide Run, Perform, Enabled, CanDo, OutputsOff, ShutDownLast;
    assert (ms + [Do(e)])[..|ms|] == ms;
    var c, d := After(start, ms).value, After(start, ms + [Do(e)]).value;
    RunKeepsInv(start, ms + [Do(e)]);
    ClockedIsARun(start, ms);
    ClockedIsARun(start, ms + [Do(e)]);
    SafeStart.SafeStart(start, c.steps, e);
  }
}
