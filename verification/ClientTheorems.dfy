/** Request resolution over every run of the client, in true time: whatever arrives and whatever
    the link refuses, each accepted request is queued at most twice and ends exactly once. */
module ClientTheorems {
  import opened Gf2
  import opened C1Link
  import opened Wrappers
  import opened Clock
  import opened McuClient

  // ---- Runs ----

  datatype Event =
    | PollAt(now: nat, frames: seq<Frame>, retryRoom: bool, beatRoom: bool)
    | AskAt(now: nat, id: Byte, payload: seq<Byte>, room: bool)
    | TakeReply

  /** The client with the true times and the tallies that the statements are about, and with what was
      asked in the latest accepted request. */
  datatype Trace = Trace(client: Client, now: nat, checked: nat, asked: nat, sent: nat, tx: nat,
                         accepted: nat, resolved: nat, queuedNow: nat, queuedInAll: nat,
                         askedId: Byte, askedPayload: seq<Byte>)

  function Start(now: nat): Trace {
    Trace(FRESH, now, now, 0, 0, now - now % WRAP, 0, 0, 0, 0, PING, [])
  }

  function Tally(b: bool): nat {
    if b then 1 else 0
  }

  function Advance(t: Trace, e: Event): Trace {
    match e
    case PollAt(now, frames, retryRoom, beatRoom) =>
      var first := Expire(t.client, now, retryRoom);
      var absorbed := AbsorbAll(first.client, frames);
      var last := Heartbeat(absorbed, now, beatRoom);
      var retried := |first.queued|;
      t.(client := last.client, now := now, checked := now,
         sent := if retried > 0 then now else t.sent,
         tx := if retried > 0 || last.queued != [] then now else t.tx,
         resolved := t.resolved + Tally(t.client.waiting && !absorbed.waiting),
         queuedNow := t.queuedNow + retried, queuedInAll := t.queuedInAll + retried)
    case AskAt(now, id, payload, room) =>
      var s := Ask(t.client, id, payload, now, room);
      if s.queued == [] then t.(client := s.client, now := now)
      else t.(client := s.client, now := now, checked := now, asked := now, sent := now, tx := now,
              accepted := t.accepted + 1, queuedNow := 1, queuedInAll := t.queuedInAll + 1,
              askedId := id, askedPayload := payload)
    case TakeReply => t.(client := Take(t.client))
  }

  function Run(t: Trace, es: seq<Event>): Trace {
    if es == [] then t else Advance(Run(t, es[..|es| - 1]), es[|es| - 1])
  }

  /** Time does not run backwards, and no two polls are further apart than the signed 32-bit
      comparison can bridge. */
  const MAX_REQUEST_POLL_GAP: nat := WRAP / 2 - REQUEST_DEADLINE_MS

  predicate Prompt(t: Trace, e: Event) {
    match e
    case PollAt(now, _, _, _) => t.now <= now < t.checked + MAX_REQUEST_POLL_GAP
    case AskAt(now, _, _, _) => t.now <= now
    case TakeReply => true
  }

  predicate AllPrompt(t: Trace, es: seq<Event>) {
    es == [] || (AllPrompt(t, es[..|es| - 1]) && Prompt(Run(t, es[..|es| - 1]), es[|es| - 1]))
  }

  // ---- The invariant ----

  predicate Waiting(t: Trace) {
    && t.client.startedAt == Ms(t.asked) && t.client.sentAt == Ms(t.sent)
    && t.asked <= t.sent <= t.checked < t.asked + REQUEST_DEADLINE_MS
    && t.sent == t.tx
    && t.queuedNow == 1 + Tally(t.client.retried)
    && t.client.status == Ok && t.client.response == None
    && t.client.pendingId == t.askedId && t.client.pendingPayload == t.askedPayload
  }

  predicate Inv(t: Trace) {
    && t.checked <= t.now && t.client.lastTx == Ms(t.tx) && t.tx <= t.now
    && t.accepted == t.resolved + Tally(t.client.waiting)
    && t.queuedNow <= 2
    && t.queuedInAll <= 2 * t.accepted - (if t.client.waiting then 2 - t.queuedNow else 0)
    && (t.client.waiting ==> Waiting(t))
  }

  // ---- Receiving ----

  /** A batch of frames completes the request if and only if one of them answers it; the first one
      that does becomes the response. */
  predicate AnsweredBy(c: Client, d: Client, fs: seq<Frame>, i: nat) {
    && i < |fs| && Completes(c, fs[i])
    && (forall j :: 0 <= j < i ==> !Completes(c, fs[j]))
    && d.response == Some(fs[i]) && d.status == if fs[i].kind == Response then Ok else ProtocolError
  }

  lemma AbsorbOne(c: Client, f: Frame)
    ensures var d := Absorb(c, f);
            && d == c.(waiting := d.waiting, response := d.response, status := d.status, lastFault := d.lastFault)
            && (Completes(c, f) ==> AnsweredBy(c, d, [f], 0) && !d.waiting)
            && (!Completes(c, f) ==> d == c.(lastFault := d.lastFault))
  {
  }

  lemma SameRequest(c: Client, d: Client)
    requires d == c.(lastFault := d.lastFault)
    ensures forall f :: Completes(c, f) <==> Completes(d, f)
  {
  }

  lemma {:induction false} AbsorbAllMeans(c: Client, fs: seq<Frame>)
    ensures var d := AbsorbAll(c, fs);
            && d == c.(waiting := d.waiting, response := d.response, status := d.status, lastFault := d.lastFault)
            && (d.waiting || !c.waiting ==> d == c.(lastFault := d.lastFault))
            && (d.waiting ==> forall i :: 0 <= i < |fs| ==> !Completes(c, fs[i]))
            && (c.waiting && !d.waiting ==> exists i :: AnsweredBy(c, d, fs, i))
  {
    hide Absorb, Completes;
    if fs != [] {
      var n := |fs| - 1;
      var q, d := AbsorbAll(c, fs[..n]), AbsorbAll(c, fs);
      AbsorbAllMeans(c, fs[..n]);
      AbsorbOne(q, fs[n]);
      if !q.waiting {
        NotWaiting(q, fs[n]);
      }
      if c.waiting && !q.waiting {
        var i :| AnsweredBy(c, q, fs[..n], i);
        assert AnsweredBy(c, d, fs, i);
      } else {
        SameRequest(c, q);
        if c.waiting && !d.waiting {
          assert AnsweredBy(c, d, fs, n);
        }
      }
    }
  }

  /** The remembered fault is the one most recently reported. */
  lemma {:induction false} LatestFaultIsRemembered(c: Client, fs: seq<Frame>)
    ensures var d := AbsorbAll(c, fs);
            if forall i :: 0 <= i < |fs| ==> !ReportsFault(fs[i]) then d.lastFault == c.lastFault
            else exists i: nat :: ReportedAt(fs, i) && d.lastFault == fs[i].payload[0]
  {
    hide Completes, ReportsFault;
    if fs != [] {
      var n := |fs| - 1;
      LatestFaultIsRemembered(c, fs[..n]);
      FaultStep(AbsorbAll(c, fs[..n]), fs[n]);
      if ReportsFault(fs[n]) {
        assert ReportedAt(fs, n);
      } else if i: nat :| ReportedAt(fs[..n], i) && AbsorbAll(c, fs[..n]).lastFault == fs[..n][i].payload[0] {
        assert ReportedAt(fs, i);
      }
    }
  }

  /** The last report of a batch. */
  predicate ReportedAt(fs: seq<Frame>, i: nat) {
    i < |fs| && ReportsFault(fs[i]) && |fs[i].payload| == 1 && forall j :: i < j < |fs| ==> !ReportsFault(fs[j])
  }

  lemma FaultStep(c: Client, f: Frame)
    ensures ReportsFault(f) ==> |f.payload| == 1 && Absorb(c, f).lastFault == f.payload[0]
    ensures !ReportsFault(f) ==> Absorb(c, f).lastFault == c.lastFault
  {
  }

  lemma NotWaiting(c: Client, f: Frame)
    requires !c.waiting
    ensures !Completes(c, f)
  {
  }

  // ---- Time ----

  /** While a request waits, both 32-bit tests say what the true clock says. */
  lemma TimersExact(t: Trace, now: nat)
    requires Inv(t) && t.client.waiting && t.now <= now < t.checked + MAX_REQUEST_POLL_GAP
    ensures Overdue(t.client, now) <==> now >= t.asked + REQUEST_DEADLINE_MS
    ensures Late(t.client, now) <==> now > t.sent + RESPONSE_TIMEOUT_MS
  {
    ElapsedExact(now, t.asked);
    ElapsedExact(now, t.sent);
    var d := now - t.sent;
    if d >= RESPONSE_TIMEOUT_MS {
      ModWithin(d - RESPONSE_TIMEOUT_MS, 0);
    } else {
      ModWithin(d - RESPONSE_TIMEOUT_MS, -1);
    }
  }

  // ---- Every step keeps the invariant ----

  lemma AskKeepsInv(t: Trace, e: Event)
    requires Inv(t) && Prompt(t, e) && e.AskAt?
    ensures Inv(Advance(t, e))
  {
    hide Ask, Ms;
    AskedMeans(t.client, e.id, e.payload, e.now, e.room);
    var u := Advance(t, e);
    assert u.client.waiting ==> Waiting(u);
  }

  lemma AskedMeans(c: Client, id: Byte, payload: seq<Byte>, now: nat, room: bool)
    ensures var s := Ask(c, id, payload, now, room);
            if s.queued == [] then s.client == c.(nextSeq := s.client.nextSeq, pendingSeq := s.client.pendingSeq) && (c.waiting ==> s.client == c)
            else
              && !c.waiting
              && s.client == c.(nextSeq := s.client.nextSeq, pendingSeq := s.client.pendingSeq, waiting := true, pendingId := id,
                                pendingPayload := payload, response := None, sentAt := Ms(now), startedAt := Ms(now),
                                lastTx := Ms(now), retried := false, status := Ok)
  {
    hide Succ, Ms;
  }

  lemma HeartbeatMeans(c: Client, now: nat, room: bool)
    ensures var h := Heartbeat(c, now, room);
            && h.client == c.(nextSeq := h.client.nextSeq, lastTx := if h.queued == [] then c.lastTx else Ms(now))
            && (c.waiting ==> h == Sent(c, []))
  {
    hide Ms, Succ, Elapsed;
  }

  lemma ExpireMeans(c: Client, now: nat, room: bool)
    ensures var x := Expire(c, now, room);
            && |x.queued| <= 1
            && (!c.waiting ==> x == Sent(c, []))
            && (x.client.waiting && x.queued == [] ==> x.client == c)
            && (x.queued != [] ==> !Overdue(c, now) && !c.retried)
            && (x.queued != [] ==> x.client == Retried(c, now))
            && (c.waiting && !x.client.waiting ==> x == Sent(GiveUp(c), []))
            && (x.client.waiting ==> !Overdue(c, now))
  {
    hide Ms, Succ, Elapsed, SignedPositive, Overdue, Late;
    if Overdue(c, now) {
      OverdueWaits(c, now);
    }
    if Late(c, now) {
      LateWaits(c, now);
    }
  }

  lemma OverdueWaits(c: Client, now: nat)
    requires Overdue(c, now)
    ensures c.waiting
  {
  }

  lemma LateWaits(c: Client, now: nat)
    requires Late(c, now)
    ensures c.waiting
  {
  }

  lemma PollKeepsInv(t: Trace, e: Event)
    requires Inv(t) && Prompt(t, e) && e.PollAt?
    ensures Inv(Advance(t, e))
  {
    hide Succ, Ms, AbsorbAll, Expire, Heartbeat, Overdue, Late;
    if t.client.waiting {
      TimersExact(t, e.now);
    }
    var first := Expire(t.client, e.now, e.retryRoom);
    var absorbed := AbsorbAll(first.client, e.frames);
    ExpireMeans(t.client, e.now, e.retryRoom);
    AbsorbAllMeans(first.client, e.frames);
    HeartbeatMeans(absorbed, e.now, e.beatRoom);
    var u := Advance(t, e);
    assert u.client.waiting ==> Waiting(u);
  }

  lemma {:induction false} RunKeepsInv(start: nat, es: seq<Event>)
    requires AllPrompt(Start(start), es)
    ensures Inv(Run(Start(start), es))
  {
    hide Advance, Inv;
    if es == [] {
      StartInv(start);
    } else {
      var n := |es| - 1;
      RunKeepsInv(start, es[..n]);
      var t := Run(Start(start), es[..n]);
      match es[n]
      case PollAt(_, _, _, _) => PollKeepsInv(t, es[n]);
      case AskAt(_, _, _, _) => AskKeepsInv(t, es[n]);
      case TakeReply => TakeKeepsInv(t);
    }
  }

  lemma StartInv(start: nat)
    ensures Inv(Start(start))
  {
    var k := start / WRAP;
    assert start - start % WRAP == k * WRAP;
    ModWithin(k * WRAP, k);
  }

  lemma TakeKeepsInv(t: Trace)
    requires Inv(t)
    ensures Inv(Advance(t, TakeReply))
  {
  }

  // ---- Main results ----

  /** Over every run: requests and their resolutions alternate, so each accepted request ends
      exactly once; none is queued more than twice; and one still waiting after a poll is less than
      150 true milliseconds old, so the first poll at or after its deadline ends it. */
  lemma RequestsResolve(start: nat, es: seq<Event>)
    requires AllPrompt(Start(start), es)
    ensures var t := Run(Start(start), es);
            && t.accepted == t.resolved + Tally(t.client.waiting)
            && t.queuedNow <= 2 && t.queuedInAll <= 2 * t.accepted
            && (t.client.waiting && es != [] && es[|es| - 1].PollAt? ==> t.now < t.asked + REQUEST_DEADLINE_MS)
  {
    RunKeepsInv(start, es);
  }

  /** The first stage of a poll, in true time. */
  lemma ExpireExact(t: Trace, now: nat, room: bool)
    requires Inv(t) && t.client.waiting && t.now <= now < t.checked + MAX_REQUEST_POLL_GAP
    ensures var c := t.client;
            var late := now > t.sent + RESPONSE_TIMEOUT_MS;
            Expire(c, now, room).client ==
              if now >= t.asked + REQUEST_DEADLINE_MS || (late && c.retried) then GiveUp(c)
              else if late && room then Retried(c, now)
              else c
  {
    hide Succ, Ms, Elapsed, SignedPositive, Overdue, Late;
    TimersExact(t, now);
  }

  /** The request as it stands once a retry, if one is due and the link has room, has given it a
      new sequence number. */
  function Current(t: Trace, now: nat, room: bool): Client {
    if now > t.sent + RESPONSE_TIMEOUT_MS && room then t.client.(pendingSeq := t.client.nextSeq) else t.client
  }

  predicate TimedOut(t: Trace, now: nat) {
    now >= t.asked + REQUEST_DEADLINE_MS || (t.client.retried && now > t.sent + RESPONSE_TIMEOUT_MS)
  }

  /** Exactly how one poll decides the fate of a waiting request: it times out, or the first frame
      with its message id and latest sequence number completes it, or it goes on waiting. */
  lemma PollOutcome(start: nat, es: seq<Event>, e: Event)
    requires AllPrompt(Start(start), es + [e]) && e.PollAt?
    requires Run(Start(start), es).client.waiting
    ensures var t := Run(Start(start), es);
            var c, d := Current(t, e.now, e.retryRoom), Advance(t, e).client;
            && (TimedOut(t, e.now) ==> !d.waiting && d.status == Timeout && d.response == None)
            && (!TimedOut(t, e.now) && d.waiting ==> forall i :: 0 <= i < |e.frames| ==> !Completes(c, e.frames[i]))
            && (!TimedOut(t, e.now) && !d.waiting ==> exists i :: AnsweredBy(c, d, e.frames, i))
  {
    hide AbsorbAll, Heartbeat, Run, Expire, Completes, Succ, Ms, Inv, AllPrompt;
    PrefixPrompt(Start(start), es, e);
    RunKeepsInv(start, es);
    var t := Run(Start(start), es);
    WaitingIsOpen(t);
    ExpireExact(t, e.now, e.retryRoom);
    var c, first := Current(t, e.now, e.retryRoom), Expire(t.client, e.now, e.retryRoom).client;
    var absorbed, d := AbsorbAll(first, e.frames), Advance(t, e).client;
    AbsorbAllMeans(first, e.frames);
    BeatKeepsReply(absorbed, e.now, e.beatRoom);
    if !TimedOut(t, e.now) {
      SameMatches(c, first);
      if !d.waiting {
        var i :| AnsweredBy(first, absorbed, e.frames, i);
        assert AnsweredBy(c, d, e.frames, i);
      }
    }
  }

  /** The open request has waited for its reply and has not been sent again. */
  predicate RetryDue(t: Trace, now: nat) {
    t.sent + RESPONSE_TIMEOUT_MS < now < t.asked + REQUEST_DEADLINE_MS && t.queuedNow == 1
  }

  /** A poll sends the open request once more, with the message id and the payload that were asked for
      and under a number that replies must now carry, exactly if it has waited for more than 50 true
      milliseconds but less than 150, has not been sent again before, and the link has room. Otherwise
      it sends at most a ping. */
  lemma RetryRepeatsTheRequest(start: nat, es: seq<Event>, e: Event)
    requires AllPrompt(Start(start), es + [e]) && e.PollAt?
    requires Run(Start(start), es).client.waiting
    ensures var t, queued := Run(Start(start), es), Queued(Run(Start(start), es), e);
            var d := Advance(t, e);
            if RetryDue(t, e.now) && e.retryRoom then
              && queued == [Frame(Request, t.client.nextSeq, t.askedId, t.askedPayload)]
              && d.client.pendingSeq == t.client.nextSeq && d.queuedNow == 2
            else
              && (queued == [] || queued == [Frame(Request, t.client.nextSeq, PING, [])])
              && d.client.pendingSeq == t.client.pendingSeq && d.queuedNow == t.queuedNow
  {
    hide AbsorbAll, Run, Expire, Ms, AllPrompt, Heartbeat, Inv;
    PrefixPrompt(Start(start), es, e);
    RunKeepsInv(start, es);
    var t := Run(Start(start), es);
    ExpireRepeats(t, e.now, e.retryRoom);
    var first := Expire(t.client, e.now, e.retryRoom);
    var absorbed := AbsorbAll(first.client, e.frames);
    AbsorbAllMeans(first.client, e.frames);
    HeartbeatMeans(absorbed, e.now, e.beatRoom);
    HeartbeatSends(absorbed, e.now, e.beatRoom);
    assert Queued(t, e) == first.queued + Heartbeat(absorbed, e.now, e.beatRoom).queued;
  }

  lemma ExpireRepeats(t: Trace, now: nat, room: bool)
    requires Inv(t) && t.client.waiting && t.now <= now < t.checked + MAX_REQUEST_POLL_GAP
    ensures var c, x := t.client, Expire(t.client, now, room);
            if RetryDue(t, now) && room then
              && x.queued == [Frame(Request, c.nextSeq, t.askedId, t.askedPayload)]
              && x.client.pendingSeq == c.nextSeq && x.client.lastTx == Ms(now)
            else x.queued == [] && x.client.pendingSeq == c.pendingSeq && x.client.nextSeq == c.nextSeq
  {
    hide Ms, Succ, Elapsed, SignedPositive, Overdue, Late, Inv;
    WaitingMeans(t);
    TimersExact(t, now);
  }

  lemma WaitingMeans(t: Trace)
    requires Inv(t) && t.client.waiting
    ensures t.queuedNow == 1 + Tally(t.client.retried)
    ensures t.client.pendingId == t.askedId && t.client.pendingPayload == t.askedPayload
  {
  }

  lemma HeartbeatSends(c: Client, now: nat, room: bool)
    ensures var h := Heartbeat(c, now, room);
            && (h.queued == [] || h.queued == [Frame(Request, c.nextSeq, PING, [])])
            && (c.lastTx == Ms(now) ==> h.queued == [])
  {
    hide Succ;
    ElapsedExact(now, now);
  }

  /** An accepted request goes out as it was asked for; nothing else is remembered as asked. */
  lemma RequestGoesOut(t: Trace, e: Event)
    requires e.AskAt?
    ensures var d := Advance(t, e);
            if d.accepted > t.accepted then
              Queued(t, e) == [Frame(Request, d.client.pendingSeq, e.id, e.payload)] &&
              d.askedId == e.id && d.askedPayload == e.payload && d.client.waiting
            else Queued(t, e) == [] && d.askedId == t.askedId && d.askedPayload == t.askedPayload
    ensures Advance(t, e).accepted > t.accepted <==>
              !t.client.waiting && t.client.response == None && |e.payload| <= MAX_PAYLOAD && e.room
  {
    hide Ms, Succ;
  }

  lemma WaitingIsOpen(t: Trace)
    requires Inv(t) && t.client.waiting
    ensures t.client.response == None
  {
  }

  lemma BeatKeepsReply(c: Client, now: nat, room: bool)
    ensures var d := Heartbeat(c, now, room).client;
            d.waiting == c.waiting && d.status == c.status && d.response == c.response
  {
  }

  lemma SameMatches(c: Client, d: Client)
    requires c.waiting == d.waiting && c.pendingId == d.pendingId && c.pendingSeq == d.pendingSeq
    ensures forall f :: Completes(c, f) <==> Completes(d, f)
  {
  }

  lemma PrefixPrompt(t: Trace, es: seq<Event>, e: Event)
    requires AllPrompt(t, es + [e])
    ensures AllPrompt(t, es) && Prompt(Run(t, es), e)
  {
    assert (es + [e])[..|es|] == es;
  }

  // ---- Heartbeats ----

  /** The frames an event hands to the link. */
  function Queued(t: Trace, e: Event): seq<Frame> {
    match e
    case PollAt(now, frames, retryRoom, beatRoom) => Poll(t.client, now, frames, retryRoom, beatRoom).queued
    case AskAt(now, id, payload, room) => Ask(t.client, id, payload, now, room).queued
    case TakeReply => []
  }

  /** After a poll, with a link that accepts what it is given, less than a second has passed since
      the last request was queued. */
  predicate Beating(t: Trace) {
    Inv(t) && t.checked < t.tx + HEARTBEAT_INTERVAL_MS
  }

  lemma BeatTimerExact(t: Trace, now: nat)
    requires Beating(t) && t.now <= now < t.checked + MAX_REQUEST_POLL_GAP
    ensures Elapsed(Ms(now), t.client.lastTx) == now - t.tx
  {
    ElapsedExact(now, t.tx);
  }

  lemma PollKeepsBeating(t: Trace, e: Event)
    requires Beating(t) && Prompt(t, e) && e.PollAt? && e.retryRoom && e.beatRoom
    ensures Beating(Advance(t, e))
  {
    hide Succ, Ms, Elapsed, SignedPositive, AbsorbAll, Overdue, Late;
    PollKeepsInv(t, e);
    BeatTimerExact(t, e.now);
    if t.client.waiting {
      TimersExact(t, e.now);
    }
    var first := Expire(t.client, e.now, e.retryRoom);
    AbsorbAllMeans(first.client, e.frames);
    ElapsedExact(e.now, e.now);
  }

  lemma AskKeepsBeating(t: Trace, e: Event)
    requires Beating(t) && Prompt(t, e) && e.AskAt?
    ensures Beating(Advance(t, e))
  {
    hide Succ, Ms, Inv;
    AskKeepsInv(t, e);
  }

  lemma TakeKeepsBeating(t: Trace)
    requires Beating(t)
    ensures Beating(Advance(t, TakeReply))
  {
    TakeKeepsInv(t);
  }
}
