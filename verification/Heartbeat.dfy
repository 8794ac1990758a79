/** Client, line and safety controller together, millisecond by millisecond: as long as the client
    is polled, the link accepts what it is given and frames arrive within four seconds, the
    controller never loses the link. */
module Heartbeat {
  import opened C1Link
  import opened Wrappers
  import opened Clock
  import opened SafetyMcu
  import opened McuClient
  import CT = ClientTheorems
  import ST = SafetyTheorems

  /** The longest delay between queueing a frame and its being handled. */
  const MAX_DELAY_MS: nat := 4000

  /** A frame marked with the time at which it was queued. */
  type Stamped = Marked<nat>

  datatype Net = Net(app: CT.Trace, line: seq<Stamped>, delivered: nat, mcu: Mcu, heard: nat, now: nat)

  /** One millisecond: what the world does to the controller, how many frames reach it, what reaches
      the client, and which requests the application makes. */
  datatype Millisecond = Millisecond(world: World, arrivals: nat, inbox: seq<Frame>, calls: seq<CT.Event>)

  /** When the client, whose record of its last transmission starts at zero, takes that to have been: up
      to a second ago by the wrapping clock, or so long ago that its first poll sends. */
  function FirstStamp(start: nat): nat {
    var m := Ms(start + 1);
    if m < HEARTBEAT_INTERVAL_MS && m <= start + 1 then start + 1 - m else start
  }

  function Boot(start: nat): Net {
    Net(CT.Start(start).(tx := FirstStamp(start)), [], FirstStamp(start), PowerOn(start), start, start)
  }

  function Stamp(fs: seq<Frame>, at: nat): (line: seq<Stamped>)
    ensures |line| == |fs|
  {
    seq(|fs|, i requires 0 <= i < |fs| => Marked(fs[i], at))
  }

  function LastStamp(from: nat, line: seq<Stamped>): nat {
    if line == [] then from else line[|line| - 1].mark
  }

  function CallApp(net: Net, e: CT.Event): Net {
    net.(app := CT.Advance(net.app, e), line := net.line + Stamp(CT.Queued(net.app, e), net.now))
  }

  function CallAll(net: Net, es: seq<CT.Event>): Net {
    if es == [] then net else CallApp(CallAll(net, es[..|es| - 1]), es[|es| - 1])
  }

  function TickMcu(net: Net, ms: Millisecond): Net
    requires ms.arrivals <= |net.line|
  {
    net.(now := net.now + 1,
         line := net.line[ms.arrivals..],
         delivered := LastStamp(net.delivered, net.line[..ms.arrivals]),
         mcu := Tick(net.mcu, ms.world).mcu,
         heard := ST.HeardAt(ms.world, net.heard))
  }

  predicate Possible(net: Net, ms: Millisecond) {
    && ms.arrivals <= |net.line|
    && ms.world.now == net.now + 1
    && ms.world.frames == Frames(net.line[..ms.arrivals])
    && (forall i :: ms.arrivals <= i < |net.line| ==> net.now + 1 < net.line[i].mark + MAX_DELAY_MS)
    && (forall i :: 0 <= i < |ms.calls| ==> Accepted(ms.calls[i], net.now + 1))
  }

  /** A request at this time that the link has room for, or a reply being taken. */
  predicate Accepted(e: CT.Event, now: nat) {
    e.TakeReply? || (e.AskAt? && e.now == now && e.room)
  }

  function Pass(net: Net, ms: Millisecond): Net
    requires ms.arrivals <= |net.line|
  {
    CallAll(CallApp(TickMcu(net, ms), CT.PollAt(net.now + 1, ms.inbox, true, true)), ms.calls)
  }

  // ---- The invariant ----

  predicate SpacedAt(from: nat, line: seq<Stamped>, i: nat)
    requires i < |line|
  {
    var before := LastStamp(from, line[..i]);
    line[i].frame.kind == Request && before <= line[i].mark <= before + HEARTBEAT_INTERVAL_MS
  }

  /** Requests on the line were queued at most a second apart. */
  predicate Spaced(from: nat, line: seq<Stamped>) {
    forall i :: 0 <= i < |line| ==> SpacedAt(from, line, i)
  }

  predicate LineInv(net: Net) {
    && CT.Beating(net.app)
    && Spaced(net.delivered, net.line)
    && LastStamp(net.delivered, net.line) == net.app.tx <= net.now
  }

  predicate NetInv(net: Net) {
    && LineInv(net)
    && net.app.now == net.app.checked == net.now
    && ST.Inv(net.mcu, net.now, net.heard)
    && net.mcu.fault != LinkLost
    && HeardOrIdle(net)
  }

  /** What was delivered has been heard; only in its first second may the controller have heard nothing
      for a millisecond longer, and then it has nothing on. */
  predicate HeardOrIdle(net: Net) {
    net.delivered <= net.heard || (net.delivered == net.heard + 1 && !Active(net.mcu))
  }

  lemma SpacedAppend(from: nat, line: seq<Stamped>, fs: seq<Frame>, at: nat)
    requires Spaced(from, line)
    requires forall i :: 0 <= i < |fs| ==> fs[i].kind == Request
    requires LastStamp(from, line) <= at <= LastStamp(from, line) + HEARTBEAT_INTERVAL_MS
    ensures Spaced(from, line + Stamp(fs, at))
    ensures LastStamp(from, line + Stamp(fs, at)) == if fs == [] then LastStamp(from, line) else at
  {
    var all := line + Stamp(fs, at);
    forall i | 0 <= i < |all|
      ensures SpacedAt(from, all, i)
    {
      if i < |line| {
        assert all[..i] == line[..i] && SpacedAt(from, line, i);
      } else if i > |line| {
        assert all[..i][i - 1] == Stamp(fs, at)[i - 1 - |line|];
      } else {
        assert all[..i] == line;
      }
    }
  }

  lemma SpacedSplit(from: nat, line: seq<Stamped>, k: nat)
    requires Spaced(from, line) && k <= |line|
    ensures Spaced(LastStamp(from, line[..k]), line[k..])
    ensures LastStamp(LastStamp(from, line[..k]), line[k..]) == LastStamp(from, line)
  {
    var rest := line[k..];
    forall i | 0 <= i < |rest|
      ensures SpacedAt(LastStamp(from, line[..k]), rest, i)
    {
      assert SpacedAt(from, line, k + i);
      if i > 0 {
        assert rest[..i][i - 1] == line[..k + i][k + i - 1];
      } else {
        assert line[..k + i] == line[..k] && rest[..i] == [];
      }
    }
  }

  lemma {:induction false} StampsGrow(from: nat, line: seq<Stamped>)
    requires Spaced(from, line)
    ensures from <= LastStamp(from, line)
  {
    if line != [] {
      var n := |line| - 1;
      forall i | 0 <= i < n
        ensures SpacedAt(from, line[..n], i)
      {
        assert SpacedAt(from, line, i) && line[..n][..i] == line[..i];
      }
      StampsGrow(from, line[..n]);
      assert SpacedAt(from, line, n);
    }
  }

  // ---- The client's part ----

  lemma QueuedAreRequests(t: CT.Trace, e: CT.Event)
    ensures forall i :: 0 <= i < |CT.Queued(t, e)| ==> CT.Queued(t, e)[i].kind == Request
    ensures e.PollAt? || e.AskAt? ==> CT.Advance(t, e).tx == if CT.Queued(t, e) == [] then t.tx else e.now
    ensures e.TakeReply? ==> CT.Advance(t, e).tx == t.tx && CT.Queued(t, e) == []
  {
    hide Ms, Succ, Elapsed, SignedPositive, Overdue, Late, BeatDue, AbsorbAll;
  }

  lemma CallKeepsLine(net: Net, e: CT.Event)
    requires LineInv(net) && CT.Prompt(net.app, e)
    requires e.TakeReply? || (e.AskAt? && e.now == net.now) || (e.PollAt? && e.now == net.now && e.retryRoom && e.beatRoom)
    requires net.now <= net.app.tx + HEARTBEAT_INTERVAL_MS
    ensures LineInv(CallApp(net, e))
  {
    hide CT.Beating, CT.Advance, CT.Queued, Spaced;
    QueuedAreRequests(net.app, e);
    SpacedAppend(net.delivered, net.line, CT.Queued(net.app, e), net.now);
    match e
    case PollAt(_, _, _, _) => CT.PollKeepsBeating(net.app, e);
    case AskAt(_, _, _, _) => CT.AskKeepsBeating(net.app, e);
    case TakeReply => CT.TakeKeepsBeating(net.app);
  }

  lemma {:induction false} CallsKeepLine(net: Net, es: seq<CT.Event>)
    requires LineInv(net) && net.app.now == net.app.checked == net.now
    requires forall i :: 0 <= i < |es| ==> Accepted(es[i], net.now)
    ensures var after := CallAll(net, es);
            && LineInv(after) && after.app.now == after.app.checked == after.now == net.now
            && after.mcu == net.mcu && after.heard == net.heard && after.delivered == net.delivered
  {
    hide LineInv, CallApp;
    if es != [] {
      var n := |es| - 1;
      CallsKeepLine(net, es[..n]);
      var mid := CallAll(net, es[..n]);
      BeatsInTime(mid);
      CallKeepsLine(mid, es[n]);
      CallKeepsTime(mid, es[n]);
    }
  }

  lemma BeatsInTime(net: Net)
    requires LineInv(net) && net.app.checked == net.now
    ensures net.now <= net.app.tx + HEARTBEAT_INTERVAL_MS
  {
  }

  lemma CallKeepsTime(net: Net, e: CT.Event)
    requires Accepted(e, net.now) && net.app.now == net.app.checked == net.now
    ensures var after := CallApp(net, e);
            && after.app.now == after.app.checked == after.now == net.now
            && after.mcu == net.mcu && after.heard == net.heard && after.delivered == net.delivered
  {
    hide Ms, Succ;
  }

  // ---- The controller's part ----

  /** Whether or not something arrives in this millisecond, the controller has heard a request
      less than five seconds ago. */
  lemma HeardInTime(net: Net, ms: Millisecond)
    requires NetInv(net) && Possible(net, ms)
    ensures ms.world.now < ST.HeardAt(ms.world, net.heard) + 5000 + if net.delivered > net.heard then 1 else 0
    ensures ms.arrivals > 0 ==> ST.HeardAt(ms.world, net.heard) == ms.world.now
    ensures ms.arrivals > 0 ==> TickMcu(net, ms).delivered <= ms.world.now
  {
    hide CT.Beating, ST.Inv;
    BeatsInTime(net);
    if ms.arrivals > 0 {
      assert SpacedAt(net.delivered, net.line, 0);
      assert ms.world.frames[0] == net.line[..ms.arrivals][0].frame == net.line[0].frame;
      assert ST.HasRequest(ms.world.frames);
      SpacedSplit(net.delivered, net.line, ms.arrivals);
      StampsGrow(TickMcu(net, ms).delivered, net.line[ms.arrivals..]);
    } else {
      assert net.line[..0] == [];
      assert !ST.HasRequest(ms.world.frames);
      if net.line != [] {
        assert SpacedAt(net.delivered, net.line, 0);
      }
    }
  }

  /** A tick without frames switches nothing on. */
  lemma StaysIdle(m: Mcu, w: World)
    requires !Active(m) && w.frames == [] && m.fault != LinkLost
    ensures !Active(Tick(m, w).mcu) && Tick(m, w).mcu.fault != LinkLost
  {
    hide Replies;
  }

  lemma TickKeepsLinked(net: Net, ms: Millisecond)
    requires NetInv(net) && Possible(net, ms)
    ensures Tick(net.mcu, ms.world).mcu.fault != LinkLost
    ensures HeardOrIdle(TickMcu(net, ms))
  {
    hide NetInv, Sense, Drain, Replies, Tick, Active;
    HeardInTime(net, ms);
    NetInvParts(net, ms);
    if net.delivered > net.heard && ms.arrivals == 0 {
      assert net.line[..0] == [];
      StaysIdle(net.mcu, ms.world);
      assert !ST.HasRequest(ms.world.frames);
    } else {
      HeardIsLinked(net.mcu, ms.world, net.now, net.heard);
      if ms.arrivals == 0 {
        assert net.line[..0] == [];
        assert !ST.HasRequest(ms.world.frames);
      }
    }
  }

  lemma HeardIsLinked(m: Mcu, w: World, now: nat, heard: nat)
    requires ST.Inv(m, now, heard) && m.fault != LinkLost && w.now == now + 1
    requires w.now < ST.HeardAt(w, heard) + 5000
    ensures Tick(m, w).mcu.fault != LinkLost
  {
    hide Sense, Drain, Replies;
    ST.SupervisionExact(m, w, now, heard);
    ST.InvSound(m, now, heard);
    ST.SenseSound(m, w);
    ST.DrainSound(Sense(Moved(m, w), w), w.frames, w.now, w.scale);
  }

  lemma NetInvParts(net: Net, ms: Millisecond)
    requires NetInv(net) && Possible(net, ms)
    ensures ST.Inv(net.mcu, net.now, net.heard) && net.mcu.fault != LinkLost && ms.world.now == net.now + 1
    ensures HeardOrIdle(net)
  {
  }

  lemma PassKeepsInv(net: Net, ms: Millisecond)
    requires NetInv(net) && Possible(net, ms)
    ensures NetInv(Pass(net, ms))
  {
    hide CT.Beating, CT.Advance, CT.Queued, ST.Inv, Spaced, Tick, Active;
    TickKeepsLinked(net, ms);
    ST.TickKeepsInv(net.mcu, ms.world, net.now, net.heard);
    SpacedSplit(net.delivered, net.line, ms.arrivals);
    var ticked := TickMcu(net, ms);
    var poll := CT.PollAt(net.now + 1, ms.inbox, true, true);
    BeatsStrictly(net);
    CallKeepsLine(ticked, poll);
    PollTime(ticked, poll);
    CallsKeepLine(CallApp(ticked, poll), ms.calls);
  }

  lemma BeatsStrictly(net: Net)
    requires LineInv(net) && net.app.checked == net.now
    ensures net.now + 1 <= net.app.tx + HEARTBEAT_INTERVAL_MS
  {
  }

  lemma PollTime(net: Net, e: CT.Event)
    requires e.PollAt? && e.now == net.now
    ensures var after := CallApp(net, e);
            && after.app.now == after.app.checked == after.now == net.now
            && after.mcu == net.mcu && after.heard == net.heard && after.delivered == net.delivered
  {
    hide Ms, Succ;
  }

  // ---- The first millisecond ----

  /** The first poll either sends at once, or the clock has wrapped less than a second ago. */
  lemma FirstPoll(start: nat, inbox: seq<Frame>)
    ensures var t, e := Boot(start).app, CT.PollAt(start + 1, inbox, true, true);
            && CT.Beating(CT.Advance(t, e))
            && CT.Advance(t, e).tx == (if CT.Queued(t, e) == [] then t.tx else start + 1)
            && t.tx <= start + 1 <= t.tx + HEARTBEAT_INTERVAL_MS
  {
    hide Succ, AbsorbAll;
    var m := Ms(start + 1);
    ModWithin(m, 0);
    StampAtZero(start);
    CT.AbsorbAllMeans(FRESH, inbox);
  }

  lemma StampAtZero(start: nat)
    ensures Ms(start + 1) <= start + 1
    ensures Ms(start + 1) < HEARTBEAT_INTERVAL_MS ==> Ms(FirstStamp(start)) == 0
  {
    var k := (start + 1) / WRAP;
    assert start + 1 - Ms(start + 1) == k * WRAP;
    ModWithin(k * WRAP, k);
  }

  lemma FirstPassKeepsInv(start: nat, ms: Millisecond)
    requires Possible(Boot(start), ms)
    ensures NetInv(Pass(Boot(start), ms))
  {
    hide CT.Beating, CT.Advance, CT.Queued, ST.Inv, Tick, Spaced, Active;
    var boot := Boot(start);
    var ticked, poll := TickMcu(boot, ms), CT.PollAt(start + 1, ms.inbox, true, true);
    ST.PowerOnInv(start);
    ST.TickKeepsInv(boot.mcu, ms.world, start, start);
    BootIdle(start);
    assert boot.line[..0] == [] && boot.line[0..] == [];
    assert !ST.HasRequest(ms.world.frames);
    StaysIdle(boot.mcu, ms.world);
    FirstPoll(start, ms.inbox);
    NothingIsSpaced(boot.delivered);
    QueuedAreRequests(boot.app, poll);
    SpacedAppend(boot.delivered, [], CT.Queued(boot.app, poll), start + 1);
    PollTime(ticked, poll);
    CallsKeepLine(CallApp(ticked, poll), ms.calls);
  }

  lemma BootIdle(start: nat)
    ensures !Active(PowerOn(start)) && PowerOn(start).fault != LinkLost
    ensures FirstStamp(start) <= start + 1
  {
  }

  lemma NothingIsSpaced(from: nat)
    ensures Spaced(from, []) && LastStamp(from, []) == from
  {
  }

  // ---- Main result ----

  /** The net after a run of milliseconds, if each was possible in its turn. */
  function After(start: nat, mss: seq<Millisecond>): Option<Net> {
    if mss == [] then Some(Boot(start))
    else
      var before := After(start, mss[..|mss| - 1]);
      var ms := mss[|mss| - 1];
      if before.Some? && Possible(before.value, ms) then Some(Pass(before.value, ms)) else None
  }

  /** On every run from power-on at any time, whatever the user, the sensors, the application's requests
      and the replies do, the controller is never in the link-lost state, and from the first poll on a
      request is queued at least once a second. */
  lemma {:induction false} LinkNeverLost(start: nat, mss: seq<Millisecond>)
    requires After(start, mss).Some?
    ensures var net := After(start, mss).value;
            && net.mcu.fault != LinkLost
            && (mss != [] ==> NetInv(net) && net.now < net.app.tx + HEARTBEAT_INTERVAL_MS)
  {
    hide Pass, Possible, CT.Beating, ST.Inv, Spaced, Active;
    if mss != [] {
      var n := |mss| - 1;
      LinkNeverLost(start, mss[..n]);
      if n == 0 {
        FirstPassKeepsInv(start, mss[0]);
      } else {
        PassKeepsInv(After(start, mss[..n]).value, mss[n]);
      }
      BeatsStrictly(After(start, mss).value);
    }
  }
}
