/** When a recipe's steps last as long as they say. The walker multiplies seconds by a thousand in 32
    bits, so a script of its own making can be shorter than the recipe's. */
module RecipeTiming {
  import opened Wrappers
  import opened Clock
  import opened Programs
  import opened GuidedRecipe

  /** The script with the durations of the recipe. */
  function Promise(steps: seq<RecipeStep>, tared: bool): seq<Line> {
    if steps == [] then []
    else StepLines(steps[0], tared, steps[0].duration * 1000) + Promise(steps[1..], tared || steps[0].kind == Weigh)
  }

  predicate IsTimed(step: RecipeStep) {
    step.kind == Mix || step.kind == Heat
  }

  /** The least number of seconds whose milliseconds do not fit the 32-bit clock. */
  const TOO_LONG_S: nat := 4294968

  /** The durations of all timed steps fit the 32-bit clock. */
  predicate Fits(steps: seq<RecipeStep>) {
    forall i :: 0 <= i < |steps| && IsTimed(steps[i]) ==> steps[i].duration < TOO_LONG_S
  }

  lemma HoldIsDuration(duration: nat)
    ensures Hold(duration) >= duration * 1000 <==> duration < TOO_LONG_S
    ensures Hold(duration) <= duration * 1000
    ensures Hold(duration) < WRAP
    ensures duration >= TOO_LONG_S ==> Hold(duration) + WRAP <= duration * 1000
  {
  }

  lemma HoldIsMultipleOfEight(duration: nat)
    ensures Hold(duration) % 8 == 0
  {
    var rounds := duration * 1000 / WRAP;
    assert Hold(duration) == 8 * (125 * duration - WRAP / 8 * rounds);
  }

  predicate WaitsNoLonger(a: seq<Line>, b: seq<Line>) {
    |a| == |b| && forall k :: 0 <= k < |a| ==> a[k].command == b[k].command && a[k].hold <= b[k].hold
  }

  /** Line by line the walker's script issues the recipe's commands, and waits no longer. */
  lemma {:induction false} ScriptWaitsNoLonger(steps: seq<RecipeStep>, tared: bool)
    ensures WaitsNoLonger(Script(steps, tared), Promise(steps, tared))
  {
    if steps != [] {
      hide StepLines, Hold;
      HoldIsDuration(steps[0].duration);
      StepWaitsNoLonger(steps[0], tared, Hold(steps[0].duration), steps[0].duration * 1000);
      ScriptWaitsNoLonger(steps[1..], tared || steps[0].kind == Weigh);
    }
  }

  lemma StepWaitsNoLonger(step: RecipeStep, tared: bool, hold: nat, duration: nat)
    requires hold <= duration
    ensures WaitsNoLonger(StepLines(step, tared, hold), StepLines(step, tared, duration))
  {
    hide DialToRpm;
  }

  lemma {:induction false} FittingScriptIsPromise(steps: seq<RecipeStep>, tared: bool)
    requires Fits(steps)
    ensures Script(steps, tared) == Promise(steps, tared)
  {
    if steps != [] {
      hide DialToRpm, Hold;
      HoldIsDuration(steps[0].duration);
      FittingScriptIsPromise(steps[1..], tared || steps[0].kind == Weigh);
    }
  }

  /** What switches off ends a step's run, or follows the command that did. */
  predicate SwitchesOff(c: Command) {
    c == MotorStop || c == HeaterOff
  }

  predicate CutAt(script: seq<Line>, promise: seq<Line>, k: nat) {
    0 < k < |script| == |promise| && script[k].hold + WRAP <= promise[k].hold && SwitchesOff(script[k].command)
  }

  lemma LongRunIsCut(step: RecipeStep, tared: bool)
    requires IsTimed(step) && step.duration >= TOO_LONG_S
    ensures CutAt(StepScript(step, tared), StepLines(step, tared, step.duration * 1000), if step.kind == Mix then 1 else 2)
  {
    hide DialToRpm, Hold;
    HoldIsDuration(step.duration);
  }

  lemma CutStays(a: seq<Line>, b: seq<Line>, c: seq<Line>, d: seq<Line>, k: nat)
    requires |a| == |b| && |c| == |d|
    ensures CutAt(a, b, k) ==> CutAt(a + c, b + d, k)
    ensures CutAt(c, d, k) ==> CutAt(a + c, b + d, |a| + k)
  {
  }

  /** A step that is too long leaves a line whose wait is cut, by at least one round of the clock. */
  lemma {:induction false} LongStepIsCut(steps: seq<RecipeStep>, tared: bool) returns (k: nat)
    requires !Fits(steps)
    ensures CutAt(Script(steps, tared), Promise(steps, tared), k)
  {
    hide StepLines, StepScript, Hold, CutAt;
    var step := steps[0];
    var weighed := tared || step.kind == Weigh;
    SameLength(step, tared);
    ScriptWaitsNoLonger(steps[1..], weighed);
    if IsTimed(step) && step.duration >= TOO_LONG_S {
      k := if step.kind == Mix then 1 else 2;
      LongRunIsCut(step, tared);
      CutStays(StepScript(step, tared), StepLines(step, tared, step.duration * 1000),
               Script(steps[1..], weighed), Promise(steps[1..], weighed), k);
    } else {
      assert !Fits(steps[1..]) by {
        var i :| 0 <= i < |steps| && IsTimed(steps[i]) && steps[i].duration >= TOO_LONG_S;
        assert steps[1..][i - 1] == steps[i];
      }
      var j := LongStepIsCut(steps[1..], weighed);
      k := |StepScript(step, tared)| + j;
      CutStays(StepScript(step, tared), StepLines(step, tared, step.duration * 1000),
               Script(steps[1..], weighed), Promise(steps[1..], weighed), j);
    }
  }

  lemma SameLength(step: RecipeStep, tared: bool)
    ensures |StepScript(step, tared)| == |StepLines(step, tared, step.duration * 1000)|
  {
  }

  // ---- A run that wastes no time ----

  /** The program is ticked every ten milliseconds. */
  const TICK_MS: nat := 10

  function LatestTick(begun: nat, es: seq<Event>): nat {
    if es == [] then begun
    else if es[|es| - 1].Ticked? then es[|es| - 1].at
    else LatestTick(begun, es[..|es| - 1])
  }

  predicate Steady(begun: nat, es: seq<Event>) {
    es == [] ||
    (Steady(begun, es[..|es| - 1]) &&
     (es[|es| - 1].Ticked? ==> es[|es| - 1].at == LatestTick(begun, es[..|es| - 1]) + TICK_MS))
  }

  /** What switches off comes within two ticks of the time at which the script allows it. */
  predicate Tight(log: seq<Entry>, script: seq<Line>) {
    |log| <= |script| &&
    forall k :: 0 < k < |log| && SwitchesOff(log[k].command) ==>
      log[k].at <= log[k - 1].at + script[k].hold + 2 * TICK_MS
  }

  /** No time has been wasted in the current step since its latest command. */
  predicate Prompt(step: RecipeStep, s: Cooked) {
    && (InRun(step, s.walk) || SwitchingOff(step, s.walk) ==> s.log != [] && s.log[|s.log| - 1].at <= s.clock)
    && (InRun(step, s.walk) ==>
          var waited := s.clock - s.log[|s.log| - 1].at;
          waited % TICK_MS == 0 && (waited == 0 || waited < Hold(step.duration)))
    && (SwitchingOff(step, s.walk) ==> s.clock <= s.log[|s.log| - 1].at + Wait(step, s.walk) + TICK_MS)
  }

  /** The next command switches off. */
  predicate SwitchingOff(step: RecipeStep, w: Walk) {
    w.phase == Teardown && (step.kind == Mix || step.kind == Heat)
  }

  /** A session that has been ticked steadily and has wasted no time. */
  predicate Brisk(steps: seq<RecipeStep>, begun: nat, es: seq<Event>) {
    && Steady(begun, es) && After(steps, begun, es).Some?
    && var s := After(steps, begun, es).value;
       && s.clock == LatestTick(begun, es)
       && (s.walk.index < |steps| ==> Prompt(steps[s.walk.index], s))
       && Tight(s.log, Script(steps, false))
  }

  /** What moves a session on: the user confirms a note that has been shown; otherwise the next tick,
      which finds its command accepted and the weight on the scale. */
  function Onward(step: RecipeStep, s: Cooked): Event {
    if step.kind == Note && s.walk.phase == Run && !s.walk.advance then UserNext
    else Ticked(s.clock + TICK_MS, step.weight, true)
  }

  /** How far a step has come, and how long its run has to go on. */
  function Progress(step: RecipeStep, w: Walk): (n: nat)
    ensures n <= 5
  {
    match w.phase
    case Setup => if w.command == 0 then 5 else 4
    case Run => if w.advance then 2 else 3
    case Teardown => if w.command == 0 then 1 else 0
  }

  function Remaining(step: RecipeStep, s: Cooked): nat {
    if InRun(step, s.walk) && s.log != [] && s.log[|s.log| - 1].at + Hold(step.duration) > s.clock
    then s.log[|s.log| - 1].at + Hold(step.duration) - s.clock else 0
  }

  lemma WaitedExactly(begun: nat, from: nat, to: nat)
    requires begun <= from <= to < from + WRAP
    ensures Elapsed(Elapsed(Ms(to), Ms(begun)), Elapsed(Ms(from), Ms(begun))) == to - from
  {
    hide Elapsed, Ms;
    ElapsedIsMs(begun, from);
    ElapsedIsMs(begun, to);
    ElapsedExact(to - begun, from - begun);
  }

  /** Ticks every ten milliseconds do not step over the last ones before the clock comes round. */
  lemma NoTickIsMissed(hold: nat, waited: nat)
    requires hold < WRAP && hold % 8 == 0 && waited % TICK_MS == 0 && (waited == 0 || waited < hold)
    ensures waited + TICK_MS < WRAP
  {
  }

  /** One event: the session moves on and wastes no time. */
  lemma MovesOn(steps: seq<RecipeStep>, begun: nat, s: Cooked)
    requires s.walk.index < |steps| && Prompt(steps[s.walk.index], s) && Timed(steps, begun, s) && Ordered(begun, s)
    ensures var step := steps[s.walk.index];
            var t := Happen(steps, begun, s, Onward(step, s));
            && (t.walk.index < |steps| ==> Prompt(steps[t.walk.index], t))
            && (t.walk.index == s.walk.index + 1 ||
                (t.walk.index == s.walk.index &&
                   (Progress(step, t.walk) < Progress(step, s.walk) ||
                    (t.walk == s.walk && Remaining(step, t) < Remaining(step, s)))))
  {
    hide DialToRpm, Hold, Elapsed, Ms;
    var step := steps[s.walk.index];
    if InRun(step, s.walk) {
      var last := s.log[|s.log| - 1].at;
      HoldIsDuration(step.duration);
      HoldIsMultipleOfEight(step.duration);
      NoTickIsMissed(Hold(step.duration), s.clock - last);
      WaitedExactly(begun, last, s.clock + TICK_MS);
    }
  }

  lemma OnwardKeepsLog(steps: seq<RecipeStep>, begun: nat, s: Cooked)
    requires s.walk.index < |steps| && Prompt(steps[s.walk.index], s) && Inv(steps, begun, s)
    requires Tight(s.log, Script(steps, false))
    ensures Tight(Happen(steps, begun, s, Onward(steps[s.walk.index], s)).log, Script(steps, false))
  {
    hide DialToRpm, Hold, Elapsed, Ms, Script, Rest, StepNext;
    var step, script := steps[s.walk.index], Script(steps, false);
    var e := Onward(step, s);
    if e.Ticked? && StepWants(step, s.walk).Some? {
      NextTakesALine(steps, s.walk, Elapsed(Ms(e.at), Ms(begun)), e.grams, e.accepted);
      assert script[|s.log|] == script[|s.log|..][0];
    }
  }

  lemma OneMore(steps: seq<RecipeStep>, begun: nat, es: seq<Event>, e: Event)
    requires After(steps, begun, es).Some? && Later(After(steps, begun, es).value, e)
    requires Steady(begun, es) && (e.Ticked? ==> e.at == LatestTick(begun, es) + TICK_MS)
    ensures After(steps, begun, es + [e]) == Some(Happen(steps, begun, After(steps, begun, es).value, e))
    ensures Steady(begun, es + [e])
    ensures LatestTick(begun, es + [e]) == if e.Ticked? then e.at else LatestTick(begun, es)
  {
    hide Happen, Later;
    assert (es + [e])[..|es|] == es;
  }

  lemma OnwardClock(steps: seq<RecipeStep>, begun: nat, step: RecipeStep, s: Cooked)
    ensures var e := Onward(step, s);
            && Later(s, e) && (e.Ticked? ==> e.at == s.clock + TICK_MS)
            && Happen(steps, begun, s, e).clock == if e.Ticked? then e.at else s.clock
  {
    hide Wants, Next, Elapsed, Ms;
  }

  lemma OnwardStaysBrisk(steps: seq<RecipeStep>, begun: nat, es: seq<Event>)
    requires Brisk(steps, begun, es) && After(steps, begun, es).value.walk.index < |steps|
    ensures var s := After(steps, begun, es).value;
            var more := es + [Onward(steps[s.walk.index], s)];
            Brisk(steps, begun, more)
            && After(steps, begun, more) == Some(Happen(steps, begun, s, Onward(steps[s.walk.index], s)))
  {
    hide Tight, Prompt, Timed, Ordered, Follows, Rest, Script, After, Steady, LatestTick, Happen, Onward, Later, Progress,
      Remaining;
    var s := After(steps, begun, es).value;
    RunKeepsInv(steps, begun, es);
    MovesOn(steps, begun, s);
    OnwardKeepsLog(steps, begun, s);
    OnwardClock(steps, begun, steps[s.walk.index], s);
    OneMore(steps, begun, es, Onward(steps[s.walk.index], s));
  }

  /** Every recipe can be gone through, on ticks exactly ten milliseconds apart, so that every run of a
      step ends within two ticks of the time that the script allows. */
  lemma {:induction false} BriskRun(steps: seq<RecipeStep>, begun: nat, es: seq<Event>) returns (all: seq<Event>)
    requires Brisk(steps, begun, es)
    ensures Brisk(steps, begun, all) && After(steps, begun, all).value.walk.index >= |steps|
    decreases
      |steps| - After(steps, begun, es).value.walk.index,
      var s := After(steps, begun, es).value;
      if s.walk.index < |steps| then Progress(steps[s.walk.index], s.walk) else 0,
      var s := After(steps, begun, es).value;
      if s.walk.index < |steps| then Remaining(steps[s.walk.index], s) else 0
  {
    hide Tight, Prompt, Script, Happen, Onward, Progress, Remaining, Timed, Ordered, Follows, Rest;
    var s := After(steps, begun, es).value;
    if s.walk.index >= |steps| {
      all := es;
    } else {
      RunKeepsInv(steps, begun, es);
      MovesOn(steps, begun, s);
      OnwardStaysBrisk(steps, begun, es);
      all := BriskRun(steps, begun, es + [Onward(steps[s.walk.index], s)]);
    }
  }

  lemma StartIsBrisk(steps: seq<RecipeStep>, begun: nat)
    ensures Brisk(steps, begun, [])
  {
    hide Script;
  }

  /** On every run of a recipe every timed step lasts as long as the recipe says if and only if all its
      durations fit the clock: below 4294968 seconds, which is more than 49 days. It is the same for
      the runs on which the program is ticked every ten milliseconds. */
  lemma FullDurationExactly(steps: seq<RecipeStep>, begun: nat)
    ensures (forall es :: After(steps, begun, es).Some? ==> Follows(After(steps, begun, es).value.log, Promise(steps, false)))
            <==> Fits(steps)
    ensures (forall es :: After(steps, begun, es).Some? && Steady(begun, es) ==>
                            Follows(After(steps, begun, es).value.log, Promise(steps, false)))
            <==> Fits(steps)
  {
    hide After, Script, Promise, Fits, Steady;
    if Fits(steps) {
      hide Follows;
      FittingScriptIsPromise(steps, false);
      forall es | After(steps, begun, es).Some?
        ensures Follows(After(steps, begun, es).value.log, Promise(steps, false))
      {
        RecipeFollowsScript(steps, begun, es);
      }
    } else {
      var k := LongStepIsCut(steps, false);
      StartIsBrisk(steps, begun);
      var es := BriskRun(steps, begun, []);
      RecipeFollowsScript(steps, begun, es);
      var log := After(steps, begun, es).value.log;
      assert log[k].at <= log[k - 1].at + Script(steps, false)[k].hold + 2 * TICK_MS;
      assert !Follows(log, Promise(steps, false));
    }
  }
}
