/** The recipe walker: steps are set up, run and torn down in order, with every refused command
    issued again. The commands it gets accepted spell out the recipe's script. */
module GuidedRecipe {
  import opened Gf2
  import opened C1Link
  import opened Wrappers
  import opened Clock
  import opened MC = McuClient
  import opened CookingController
  import opened Programs

  datatype StepKind = Note | Mix | Heat | Weigh

  datatype RecipeStep = RecipeStep(kind: StepKind, temp: DeciCelsius, dial: Byte, duration: nat, weight: int)

  datatype Phase = Setup | Run | Teardown

  datatype Walk = Walk(index: nat, phase: Phase, command: nat, startedMs: nat, advance: bool, tared: bool)

  const START := Walk(0, Setup, 0, 0, false, false)

  // ---- Specification: one tick ----

  /** The command a tick issues. */
  function Wants(steps: seq<RecipeStep>, w: Walk): Option<Command> {
    if w.index < |steps| then StepWants(steps[w.index], w) else None
  }

  function StepWants(step: RecipeStep, w: Walk): Option<Command> {
    match (step.kind, w.phase)
    case (Mix, Setup) => Some(SetMotor(DialToRpm(step.dial), RAMP_NORMAL))
    case (Mix, Teardown) => Some(MotorStop)
    case (Heat, Setup) =>
      if w.command == 0 then Some(SetHeater(step.temp)) else Some(SetMotor(DialToRpm(step.dial), RAMP_GENTLE))
    case (Heat, Teardown) => if w.command == 0 then Some(HeaterOff) else Some(MotorStop)
    case (Weigh, Setup) => if w.tared then None else Some(Tare)
    case _ => None
  }

  /** A duration in seconds, as the walker's 32-bit arithmetic has it in milliseconds. */
  function Hold(duration: nat): nat {
    (duration * 1000) % WRAP
  }

  predicate StepDone(step: RecipeStep, w: Walk, elapsed: nat, grams: int) {
    match step.kind
    case Note => w.advance
    case Weigh => grams >= step.weight
    case _ => Elapsed(elapsed, w.startedMs) >= Hold(step.duration)
  }

  function Advance(w: Walk): Walk {
    w.(index := w.index + 1, phase := Setup, command := 0, advance := false)
  }

  /** One tick, elapsed milliseconds into the session; accepted tells what became of the command. */
  function Next(steps: seq<RecipeStep>, w: Walk, elapsed: nat, grams: int, accepted: bool): Walk {
    if w.index < |steps| then StepNext(steps[w.index], w, elapsed, grams, accepted) else w
  }

  function StepNext(step: RecipeStep, w: Walk, elapsed: nat, grams: int, accepted: bool): Walk {
    var refused := StepWants(step, w).Some? && !accepted;
    match w.phase
    case Setup =>
      if refused then w
      else if step.kind == Heat && w.command == 0 then w.(command := 1)
      else w.(phase := Run, command := 0, startedMs := elapsed, tared := w.tared || step.kind == Weigh)
    case Run => if StepDone(step, w, elapsed, grams) then w.(phase := Teardown, command := 0) else w
    case Teardown =>
      if refused then w
      else if step.kind == Heat && w.command == 0 then w.(command := 1)
      else Advance(w)
  }

  // ---- Specification: the script ----

  /** A step's commands, its run lasting hold milliseconds; only the first weighing tares the scale. */
  function StepLines(step: RecipeStep, tared: bool, hold: nat): seq<Line> {
    match step.kind
    case Note => []
    case Mix => [Line(SetMotor(DialToRpm(step.dial), RAMP_NORMAL), 0), Line(MotorStop, hold)]
    case Heat =>
      [Line(SetHeater(step.temp), 0), Line(SetMotor(DialToRpm(step.dial), RAMP_GENTLE), 0), Line(HeaterOff, hold),
       Line(MotorStop, 0)]
    case Weigh => if tared then [] else [Line(Tare, 0)]
  }

  function StepScript(step: RecipeStep, tared: bool): seq<Line> {
    StepLines(step, tared, Hold(step.duration))
  }

  function Script(steps: seq<RecipeStep>, tared: bool): seq<Line> {
    if steps == [] then [] else StepScript(steps[0], tared) + Script(steps[1..], tared || steps[0].kind == Weigh)
  }

  // ---- When a step is over ----

  /** A weighing is left exactly on a tick whose reading is at least the weight, and a note exactly once
      it has been confirmed; a confirmation counts for one step. */
  lemma StepEndsExactly(steps: seq<RecipeStep>, w: Walk, elapsed: nat, grams: int, accepted: bool)
    requires w.index < |steps| && w.phase == Run && (steps[w.index].kind == Weigh || steps[w.index].kind == Note)
    ensures var step, v := steps[w.index], Next(steps, w, elapsed, grams, accepted);
            && Wants(steps, w) == None
            && (if if step.kind == Weigh then grams >= step.weight else w.advance then v.phase == Teardown && v.index == w.index else v == w)
            && (v.phase == Teardown ==> Next(steps, v, elapsed, grams, accepted) == Walk(w.index + 1, Setup, 0, w.startedMs, false, w.tared))
  {
  }

  // ---- Every run follows the script ----

  datatype Event =
    | Ticked(at: nat, grams: int, accepted: bool)
    | UserNext

  datatype Cooked = Cooked(walk: Walk, log: seq<Entry>, clock: nat)

  /** Effect of one event of a session that began at the given true time. */
  function Happen(steps: seq<RecipeStep>, begun: nat, s: Cooked, e: Event): Cooked {
    match e
    case UserNext => s.(walk := s.walk.(advance := true))
    case Ticked(at, grams, accepted) =>
      var wanted := Wants(steps, s.walk);
      Cooked(Next(steps, s.walk, Elapsed(Ms(at), Ms(begun)), grams, accepted),
             if wanted.Some? && accepted then s.log + [Entry(wanted.value, at)] else s.log,
             at)
  }

  predicate Later(s: Cooked, e: Event) {
    e.Ticked? ==> s.clock <= e.at
  }

  /** The session after a run of events, if their times never go back. */
  function After(steps: seq<RecipeStep>, begun: nat, es: seq<Event>): Option<Cooked> {
    if es == [] then Some(Cooked(START, [], begun))
    else
      var before := After(steps, begun, es[..|es| - 1]);
      var e := es[|es| - 1];
      if before.Some? && Later(before.value, e) then Some(Happen(steps, begun, before.value, e)) else None
  }

  /** Lines of the current step that are still to be issued. */
  function StepRest(step: RecipeStep, w: Walk): seq<Line> {
    var script := StepScript(step, w.tared);
    match step.kind
    case Note => []
    case Weigh => if w.phase == Setup then script else []
    case Mix => if w.phase == Setup then script else script[1..]
    case Heat =>
      if w.phase == Setup then script[if w.command == 0 then 0 else 1..]
      else script[if w.phase == Run || w.command == 0 then 2 else 3..]
  }

  function Rest(steps: seq<RecipeStep>, w: Walk): seq<Line> {
    if w.index >= |steps| then []
    else
      var step := steps[w.index];
      StepRest(step, w) + Script(steps[w.index + 1..], w.tared || step.kind == Weigh)
  }

  predicate WeighsTared(step: RecipeStep, w: Walk) {
    step.kind == Weigh && w.phase != Setup ==> w.tared
  }

  predicate InRun(step: RecipeStep, w: Walk) {
    w.phase == Run && (step.kind == Mix || step.kind == Heat)
  }

  /** The tick issues the first command after the step's run. */
  predicate EndsRun(step: RecipeStep, w: Walk) {
    w.phase == Teardown && (step.kind == Mix || (step.kind == Heat && w.command == 0))
  }

  /** The first command of a teardown waits for the step's run, which began with the latest entry;
      and a weighing past its setup has a tared scale. */
  predicate Timed(steps: seq<RecipeStep>, begun: nat, s: Cooked) {
    var w := s.walk;
    w.index < |steps| ==>
      var step := steps[w.index];
      && WeighsTared(step, w)
      && (InRun(step, w) ==> s.log != [] && w.startedMs == Elapsed(Ms(s.log[|s.log| - 1].at), Ms(begun)))
      && (EndsRun(step, w) ==> s.log != [] && s.log[|s.log| - 1].at + Hold(step.duration) <= s.clock)
  }

  predicate Ordered(begun: nat, s: Cooked) {
    begun <= s.clock && forall k :: 0 <= k < |s.log| ==> begun <= s.log[k].at <= s.clock
  }

  predicate Inv(steps: seq<RecipeStep>, begun: nat, s: Cooked) {
    var script := Script(steps, false);
    && Follows(s.log, script)
    && script[|s.log|..] == Rest(steps, s.walk)
    && Ordered(begun, s) && Timed(steps, begun, s)
  }

  /** How long the command a tick issues has to wait for. */
  function Wait(step: RecipeStep, w: Walk): nat {
    if EndsRun(step, w) then Hold(step.duration) else 0
  }

  /** Takes the next line off the script if its command was accepted. */
  function Taken(step: RecipeStep, w: Walk, accepted: bool): seq<Line> {
    var wanted := StepWants(step, w);
    if wanted.Some? && accepted then [Line(wanted.value, Wait(step, w))] else []
  }

  lemma StepTakesALine(step: RecipeStep, w: Walk, elapsed: nat, grams: int, accepted: bool)
    ensures var v := StepNext(step, w, elapsed, grams, accepted);
            && (v.index == w.index ==> StepRest(step, w) == Taken(step, w, accepted) + StepRest(step, v))
            && (v.index != w.index ==> v == Advance(w) && StepRest(step, w) == Taken(step, w, accepted))
            && (v.tared || step.kind == Weigh <==> w.tared || step.kind == Weigh)
            && (v.tared ==> w.tared || step.kind == Weigh)
            && (v.index != w.index ==> w.phase == Teardown)
  {
    hide Hold, StepDone, DialToRpm;
  }

  /** A tick takes the next line off the whole script when its command is accepted. */
  lemma NextTakesALine(steps: seq<RecipeStep>, w: Walk, elapsed: nat, grams: int, accepted: bool)
    requires w.index < |steps| && WeighsTared(steps[w.index], w)
    ensures var v := Next(steps, w, elapsed, grams, accepted);
            Rest(steps, w) == Taken(steps[w.index], w, accepted) + Rest(steps, v)
  {
    hide StepRest, StepNext, StepWants, Taken;
    var v, step := Next(steps, w, elapsed, grams, accepted), steps[w.index];
    StepTakesALine(step, w, elapsed, grams, accepted);
    IndexMoves(step, w, elapsed, grams, accepted);
    var tail := Script(steps[w.index + 1..], w.tared || step.kind == Weigh);
    if v.index == w.index {
      assert Taken(step, w, accepted) + StepRest(step, v) + tail == Taken(step, w, accepted) + (StepRest(step, v) + tail);
    } else {
      ScriptUnfolds(steps, v);
    }
  }

  lemma IndexMoves(step: RecipeStep, w: Walk, elapsed: nat, grams: int, accepted: bool)
    ensures var v := StepNext(step, w, elapsed, grams, accepted);
            v.index == w.index || (v.index == w.index + 1 && v.phase == Setup && v.command == 0)
  {
    hide StepDone;
  }

  /** At the start of a step its own script and those of the later steps remain. */
  lemma ScriptUnfolds(steps: seq<RecipeStep>, w: Walk)
    requires w.index <= |steps| && w.phase == Setup && w.command == 0
    ensures Rest(steps, w) == Script(steps[w.index..], w.tared)
  {
    hide DialToRpm, Hold;
    if w.index < |steps| {
      assert steps[w.index..][1..] == steps[w.index + 1..];
    }
  }

  lemma TickKeepsTimed(steps: seq<RecipeStep>, begun: nat, s: Cooked, e: Event)
    requires Timed(steps, begun, s) && Ordered(begun, s) && Later(s, e) && e.Ticked?
    ensures Timed(steps, begun, Happen(steps, begun, s, e)) && Ordered(begun, Happen(steps, begun, s, e))
  {
    hide Elapsed, Ms, Hold;
    var w := s.walk;
    if w.index < |steps| && InRun(steps[w.index], w) && StepDone(steps[w.index], w, Elapsed(Ms(e.at), Ms(begun)), e.grams) {
      RunLasts(begun, s.log[|s.log| - 1].at, e.at, Hold(steps[w.index].duration));
    }
  }

  lemma HappenKeepsInv(steps: seq<RecipeStep>, begun: nat, s: Cooked, e: Event)
    requires Inv(steps, begun, s) && Later(s, e)
    ensures Inv(steps, begun, Happen(steps, begun, s, e))
  {
    hide Elapsed, Ms, Hold, Script, StepNext, StepWants, Rest, Wait, Follows, Timed, Ordered;
    var w := s.walk;
    if e.UserNext? {
      ConfirmIsSilent(steps, begun, s);
    } else {
      TickKeepsTimed(steps, begun, s, e);
      if w.index < |steps| {
        TimedIsTared(steps, begun, s);
        NextTakesALine(steps, w, Elapsed(Ms(e.at), Ms(begun)), e.grams, e.accepted);
        var wanted := Wants(steps, w);
        if wanted.Some? && e.accepted {
          LineIsDue(steps, begun, s, e.at);
          FollowsOn(s.log, Script(steps, false), Entry(wanted.value, e.at), Wait(steps[w.index], w),
                    Rest(steps, Happen(steps, begun, s, e).walk));
        }
      }
    }
  }

  lemma ConfirmIsSilent(steps: seq<RecipeStep>, begun: nat, s: Cooked)
    ensures var t := Happen(steps, begun, s, UserNext);
            && Rest(steps, t.walk) == Rest(steps, s.walk)
            && Timed(steps, begun, t) == Timed(steps, begun, s) && Ordered(begun, t) == Ordered(begun, s)
  {
    hide Script, Elapsed, Ms, Hold;
  }

  lemma TimedIsTared(steps: seq<RecipeStep>, begun: nat, s: Cooked)
    requires Timed(steps, begun, s) && s.walk.index < |steps|
    ensures WeighsTared(steps[s.walk.index], s.walk)
  {
  }

  lemma LineIsDue(steps: seq<RecipeStep>, begun: nat, s: Cooked, at: nat)
    requires Ordered(begun, s) && Timed(steps, begun, s) && s.clock <= at && s.walk.index < |steps|
    ensures s.log != [] ==> at >= s.log[|s.log| - 1].at + Wait(steps[s.walk.index], s.walk)
  {
    hide Elapsed, Ms, Hold;
  }

  lemma {:induction false} RunKeepsInv(steps: seq<RecipeStep>, begun: nat, es: seq<Event>)
    requires After(steps, begun, es).Some?
    ensures Inv(steps, begun, After(steps, begun, es).value)
  {
    hide Inv, Happen, Later;
    if es == [] {
      StartInv(steps, begun);
    } else {
      var n := |es| - 1;
      RunKeepsInv(steps, begun, es[..n]);
      HappenKeepsInv(steps, begun, After(steps, begun, es[..n]).value, es[n]);
    }
  }

  lemma StartInv(steps: seq<RecipeStep>, begun: nat)
    ensures Inv(steps, begun, Cooked(START, [], begun))
  {
    hide Script;
    ScriptUnfolds(steps, START);
    assert steps[0..] == steps;
    assert Script(steps, false)[0..] == Script(steps, false);
  }

  /** Whatever is refused, whenever the user confirms and however the weights come and go: the
      accepted commands are always a prefix of the recipe's script, each no earlier than the script
      allows, and a finished recipe has issued all of it. */
  lemma RecipeFollowsScript(steps: seq<RecipeStep>, begun: nat, es: seq<Event>)
    requires After(steps, begun, es).Some?
    ensures var s := After(steps, begun, es).value;
            && Follows(s.log, Script(steps, false))
            && (s.walk.index >= |steps| ==> |s.log| == |Script(steps, false)|)
  {
    hide Script, Ordered, Timed;
    RunKeepsInv(steps, begun, es);
  }

  // ---- The walker object ----

  class GuidedRecipe {
    const steps: seq<RecipeStep>
    var index: nat
    var phase: Phase
    var command: nat
    var startedMs: nat
    var advance: bool
    var tared: bool

    ghost function Abs(): Walk
      reads this
    {
      Walk(index, phase, command, startedMs, advance, tared)
    }

    constructor (steps: seq<RecipeStep>)
      ensures this.steps == steps && Abs() == START
    {
      this.steps := steps;
      index, phase, command, startedMs, advance, tared := 0, Setup, 0, 0, false, false;
    }

    predicate Finished()
      reads this
    {
      index >= |steps|
    }

    method ConfirmStep()
      modifies this`advance
      ensures Abs() == old(Abs()).(advance := true)
    {
      advance := true;
    }

    method RunSetup(mcu: MC.McuClient, step: RecipeStep, now: nat) returns (ready: bool)
      requires mcu.Valid() && phase == Setup
      modifies this`command, this`tared, mcu, mcu.port
      ensures mcu.Valid()
      ensures var wanted, room := StepWants(step, old(Abs())), old(mcu.port.HasRoom());
              var s := RunActs(old(mcu.Abs()), Tries(wanted, room), now);
              var accepted := Accepted(old(mcu.Abs()), wanted, room);
              && mcu.Abs() == s.client && mcu.port.outbox == old(mcu.port.outbox) + s.queued
              && (ready <==> (wanted.Some? ==> accepted) && (step.kind == Heat ==> old(command) != 0))
              && command == (if step.kind == Heat && old(command) == 0 && accepted then 1 else old(command))
              && tared == (old(tared) || (step.kind == Weigh && accepted))
    {
      hide MC.McuClient.Abs, MC.McuClient.Valid, Accepted, Ask;
      match step.kind
      case Note => return true;
      case Mix => ready := Issue(mcu, SetMotor(DialToRpm(step.dial), RAMP_NORMAL), now);
      case Heat =>
        if command == 0 {
          var ok := Issue(mcu, SetHeater(step.temp), now);
          if ok {
            command := 1;
          }
          return false;
        }
        ready := Issue(mcu, SetMotor(DialToRpm(step.dial), RAMP_GENTLE), now);
      case Weigh =>
        if tared {
          return true;
        }
        tared := Issue(mcu, Tare, now);
        return tared;
    }

    method RunTeardown(mcu: MC.McuClient, step: RecipeStep, now: nat) returns (ready: bool)
      requires mcu.Valid() && phase == Teardown
      modifies this`command, mcu, mcu.port
      ensures mcu.Valid()
      ensures var wanted, room := StepWants(step, old(Abs())), old(mcu.port.HasRoom());
              var s := RunActs(old(mcu.Abs()), Tries(wanted, room), now);
              var accepted := Accepted(old(mcu.Abs()), wanted, room);
              && mcu.Abs() == s.client && mcu.port.outbox == old(mcu.port.outbox) + s.queued
              && (ready <==> (wanted.Some? ==> accepted) && (step.kind == Heat ==> old(command) != 0))
              && command == (if step.kind == Heat && old(command) == 0 && accepted then 1 else old(command))
    {
      hide MC.McuClient.Abs, MC.McuClient.Valid, Accepted, Ask;
      match step.kind
      case Note => return true;
      case Weigh => return true;
      case Mix => ready := Issue(mcu, MotorStop, now);
      case Heat =>
        if command == 0 {
          var ok := Issue(mcu, HeaterOff, now);
          if ok {
            command := 1;
          }
          return false;
        }
        ready := Issue(mcu, MotorStop, now);
    }

    method TickSetup(mcu: MC.McuClient, step: RecipeStep, now: nat, elapsed: nat, ghost grams: int)
      requires mcu.Valid() && phase == Setup
      modifies this, mcu, mcu.port
      ensures mcu.Valid()
      ensures var wanted, room := StepWants(step, old(Abs())), old(mcu.port.HasRoom());
              var s := RunActs(old(mcu.Abs()), Tries(wanted, room), now);
              && mcu.Abs() == s.client && mcu.port.outbox == old(mcu.port.outbox) + s.queued
              && Abs() == StepNext(step, old(Abs()), elapsed, grams, Accepted(old(mcu.Abs()), wanted, room))
    {
      hide MC.McuClient.Abs, MC.McuClient.Valid, Accepted, RunActs, DialToRpm;
      var ready := RunSetup(mcu, step, now);
      if ready {
        startedMs, command, phase := elapsed, 0, Run;
      }
    }

    method TickTeardown(mcu: MC.McuClient, step: RecipeStep, now: nat, ghost elapsed: nat, ghost grams: int)
      requires mcu.Valid() && phase == Teardown
      modifies this, mcu, mcu.port
      ensures mcu.Valid()
      ensures var wanted, room := StepWants(step, old(Abs())), old(mcu.port.HasRoom());
              var s := RunActs(old(mcu.Abs()), Tries(wanted, room), now);
              && mcu.Abs() == s.client && mcu.port.outbox == old(mcu.port.outbox) + s.queued
              && Abs() == StepNext(step, old(Abs()), elapsed, grams, Accepted(old(mcu.Abs()), wanted, room))
    {
      hide MC.McuClient.Abs, MC.McuClient.Valid, Accepted, RunActs, DialToRpm;
      var ready := RunTeardown(mcu, step, now);
      if ready {
        index, phase, command, advance := index + 1, Setup, 0, false;
      }
    }

    /** One tick does to the client exactly what trying the wanted command does, and to the walk
        what that command's fate implies. */
    method OnTick(mcu: MC.McuClient, now: nat, elapsed: nat, grams: int)
      requires mcu.Valid()
      modifies this, mcu, mcu.port
      ensures mcu.Valid()
      ensures var wanted, room := Wants(steps, old(Abs())), old(mcu.port.HasRoom());
              var s := RunActs(old(mcu.Abs()), Tries(wanted, room), now);
              && mcu.Abs() == s.client && mcu.port.outbox == old(mcu.port.outbox) + s.queued
              && Abs() == Next(steps, old(Abs()), elapsed, grams, Accepted(old(mcu.Abs()), wanted, room))
    {
      hide MC.McuClient.Abs, MC.McuClient.Valid, Accepted, Ask, StepDone;
      if Finished() {
        return;
      }
      var step := steps[index];
      match phase
      case Setup => TickSetup(mcu, step, now, elapsed, grams);
      case Run =>
        if Done(step, elapsed, grams) {
          command, phase := 0, Teardown;
        }
      case Teardown => TickTeardown(mcu, step, now, elapsed, grams);
    }

    predicate Done(step: RecipeStep, elapsed: nat, grams: int)
      reads this
      ensures Done(step, elapsed, grams) <==> StepDone(step, Abs(), elapsed, grams)
    {
      match step.kind
      case Note => advance
      case Weigh => grams >= step.weight
      case _ => Elapsed(elapsed, startedMs) >= Hold(step.duration)
    }
  }
}
