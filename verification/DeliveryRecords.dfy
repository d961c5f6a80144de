/**
  What the breaker in front of the bridge lets through, and what it records of the deliveries, in every joint
  run: the breaker's own history decides on arrival, and the reply to Kafka decides what goes into it.
*/
module DeliveryRecords {
  import opened Routing
  import opened Pipeline
  import opened PipelineInvariants
  import opened BridgeBehindBreaker
  import B = CircuitBreakers
  import R = BreakerRuns
  import H = Handlers

  // ---------------------------------------------------------------------------------------------
  // The breaker inside

  /** The breaker's part in a joint step. */
  ghost function SysSteps(j: Joint, step: JStep): seq<R.Step> {
    match step
    case Wait(elapsed) => [R.Tick(elapsed)]
    case Arrival(p, o, gap) => if Deliverable(j.pipe, p, o) then [R.Begin(gap)] else []
    case Garbled(_, gap) =>
      if |R.Apply(j.sys, R.Begin(gap)).calls| == |j.sys.calls| then [R.Begin(gap)]
      else [R.Begin(gap), R.EndBadly(|j.sys.calls|)]
    case Progress(i, move) =>
      if i in j.callOf && Enabled(j.pipe, On(i, move)) && EndsWith(j.pipe, i, move)
      then [R.EndStep(j.callOf[i], CallOutcome(move))] else []
    case PublishBegins(gap) => [R.Begin(gap)]
    case PublishEnds(call, outcome) => if call in j.callOf.Values then [] else [R.EndStep(call, outcome)]
    case Elsewhere(_) => []
  }

  /** The move is the attempt's last. */
  ghost predicate EndsWith(s: State, i: nat, move: Move) {
    i < |Apply(s, On(i, move)).attempts| && !Live(Apply(s, On(i, move)).attempts[i])
  }

  ghost function SysTrace(j: Joint, steps: seq<JStep>): seq<R.Step>
    decreases |steps|
  {
    if steps == [] then [] else SysSteps(j, steps[0]) + SysTrace(JApply(j, steps[0]), steps[1..])
  }

  lemma SysStepsRun(j: Joint, step: JStep)
    ensures JApply(j, step).sys == R.Run(j.sys, SysSteps(j, step))
  {
    var steps := SysSteps(j, step);
    if |steps| == 1 {
      assert steps == [steps[0]];
      R.RunOne(j.sys, steps[0]);
    } else if |steps| == 2 {
      assert steps == [steps[0]] + [steps[1]];
      R.RunConcat(j.sys, [steps[0]], [steps[1]]);
      R.RunOne(j.sys, steps[0]);
      R.RunOne(R.Apply(j.sys, steps[0]), steps[1]);
    }
  }

  /** The breaker inside a joint run is a run of the breaker machine, so all that holds of those holds of it. */
  lemma {:induction false} SysTraceRuns(j: Joint, steps: seq<JStep>)
    ensures JRun(j, steps).sys == R.Run(j.sys, SysTrace(j, steps))
    decreases |steps|
  {
    if steps != [] {
      SysStepsRun(j, steps[0]);
      SysTraceRuns(JApply(j, steps[0]), steps[1..]);
      R.RunConcat(j.sys, SysSteps(j, steps[0]), SysTrace(JApply(j, steps[0]), steps[1..]));
    }
  }

  /** What the breaker logs of an arrival. */
  function Decision(sys: R.Sys, refused: bool, probe: bool, gap: B.Duration): R.Event {
    if refused then R.TurnedAway(sys.now + gap) else R.Admitted(|sys.calls|, probe, sys.now + gap)
  }

  lemma BreakerDecides(threshold: int, resetTimeout: real, start: real, trace: seq<R.Step>, gap: B.Duration)
    ensures var sys := R.Run(R.Init(threshold, resetTimeout, start), trace);
            var seen := R.StateAt(sys.log, threshold, resetTimeout, sys.now);
            var refused := seen.Open? || (seen.HalfOpen? && R.ProbesInFlight(sys.calls) == 1);
            R.Apply(sys, R.Begin(gap)).log == sys.log + [Decision(sys, refused, seen.HalfOpen?, gap)]
  {
    R.RefusedOnlyWithCause(threshold, resetTimeout, start, trace, gap);
    R.SingleProbe(threshold, resetTimeout, start, trace);
  }

  /** A refused message is passed over, any other is delivered. */
  ghost predicate Decided(j: Joint, j': Joint, p: nat, o: nat, refused: bool, probe: bool, gap: B.Duration) {
    && j'.pipe == Apply(j.pipe, if refused then Refuse(p) else Deliver(p, o))
    && j'.sys.log == j.sys.log + [Decision(j.sys, refused, probe, gap)]
  }

  lemma ArrivalFollows(j: Joint, p: nat, o: nat, refused: bool, probe: bool, gap: B.Duration)
    requires Deliverable(j.pipe, p, o)
    requires R.Apply(j.sys, R.Begin(gap)).log == j.sys.log + [Decision(j.sys, refused, probe, gap)]
    ensures Decided(j, JApply(j, Arrival(p, o, gap)), p, o, refused, probe, gap)
  {
    var sys := R.Apply(j.sys, R.Begin(gap));
    assert sys.log[|j.sys.log|].TurnedAway? <==> |sys.calls| == |j.sys.calls|;
    assert sys.log[|j.sys.log|] == Decision(j.sys, refused, probe, gap);
  }

  /**
    Which deliveries reach the handler: none while the breaker's history makes it open, or half-open with a
    probe in flight; all others. A refused one is passed over, and nothing is recorded of it but the refusal.
  */
  lemma ArrivalRefusedExactly(
      threshold: int, resetTimeout: real, start: real, template: Template, consumers: set<string>, partitions: nat,
      steps: seq<JStep>, p: nat, o: nat, gap: B.Duration)
    requires Deliverable(JRun(JInit(threshold, resetTimeout, start, template, consumers, partitions), steps).pipe, p, o)
    ensures var j := JRun(JInit(threshold, resetTimeout, start, template, consumers, partitions), steps);
            var seen := R.StateAt(j.sys.log, threshold, resetTimeout, j.sys.now);
            var refused := seen.Open? || (seen.HalfOpen? && R.ProbesInFlight(j.sys.calls) == 1);
            Decided(j, JApply(j, Arrival(p, o, gap)), p, o, refused, seen.HalfOpen?, gap)
  {
    var init := JInit(threshold, resetTimeout, start, template, consumers, partitions);
    var j := JRun(init, steps);
    SysTraceRuns(init, steps);
    BreakerDecides(threshold, resetTimeout, start, SysTrace(init, steps), gap);
    var seen := R.StateAt(j.sys.log, threshold, resetTimeout, j.sys.now);
    ArrivalFollows(j, p, o, seen.Open? || (seen.HalfOpen? && R.ProbesInFlight(j.sys.calls) == 1), seen.HalfOpen?, gap);
  }

  /** A delivery that does not decode never reaches the handler, and is a failure if it is let through. */
  lemma GarbledIsFailure(j: Joint, p: nat, gap: B.Duration)
    ensures var j' := JApply(j, Garbled(p, gap));
            && j'.pipe == Apply(j.pipe, Refuse(p))
            && (|| j'.sys.log == j.sys.log + [R.TurnedAway(j.sys.now + gap)]
                || (&& |j'.sys.log| == |j.sys.log| + 2 && j.sys.log <= j'.sys.log
                    && j'.sys.log[|j.sys.log|].Admitted?
                    && j'.sys.log[|j.sys.log| + 1] == R.Failed(|j.sys.calls|, j.sys.now + gap)))
  {
    var sys := R.Apply(j.sys, R.Begin(gap));
    if |sys.calls| != |j.sys.calls| {
      var probe := sys.calls[|j.sys.calls|].probe;
      assert sys.log == j.sys.log + [R.Admitted(|j.sys.calls|, probe, j.sys.now + gap)];
    }
  }

  // ---------------------------------------------------------------------------------------------
  // Deliveries and their calls

  /** Every attempt of the bridge has a call of its own, which runs as long as the attempt lives. */
  ghost predicate Paired(j: Joint) {
    && (forall i :: 0 <= i < |j.pipe.attempts| && j.pipe.attempts[i].source.Kafka? ==> i in j.callOf)
    && (forall i :: i in j.callOf ==>
          && i < |j.pipe.attempts| && j.callOf[i] < |j.sys.calls|
          && (j.sys.calls[j.callOf[i]].running <==> Live(j.pipe.attempts[i])))
    && (forall i, k :: i in j.callOf && k in j.callOf && i != k ==> j.callOf[i] != j.callOf[k])
  }

  /** One call ends, or none does; new ones may have begun. */
  ghost predicate CallsKept(sys: R.Sys, sys': R.Sys, ended: set<nat>) {
    && |sys.calls| <= |sys'.calls|
    && forall c :: 0 <= c < |sys.calls| ==> (sys'.calls[c].running <==> sys.calls[c].running && c !in ended)
  }

  lemma SysStepKeepsCalls(sys: R.Sys, step: R.Step)
    ensures CallsKept(sys, R.Apply(sys, step),
                      match step case EndWell(c) => {c} case EndBadly(c) => {c} case EndCancelled(c) => {c} case _ => {})
  {}

  /** Attempts keep their sources, and all but the mover their lives. */
  ghost predicate LivesKept(s: State, s': State, mover: set<nat>) {
    && |s.attempts| <= |s'.attempts|
    && (forall i :: 0 <= i < |s.attempts| ==> s'.attempts[i].source == s.attempts[i].source)
    && (forall i :: 0 <= i < |s.attempts| && i !in mover ==> (Live(s'.attempts[i]) <==> Live(s.attempts[i])))
  }

  lemma MoveKeepsLives(s: State, i: nat, move: Move)
    ensures LivesKept(s, Apply(s, On(i, move)), {i}) && |Apply(s, On(i, move)).attempts| == |s.attempts|
  {}

  lemma OtherKeepsLives(s: State, step: Step)
    requires !step.On? && !step.Deliver?
    ensures LivesKept(s, Apply(s, step), {})
    ensures forall i :: |s.attempts| <= i < |Apply(s, step).attempts| ==> Apply(s, step).attempts[i].source.Rabbit?
  {}

  /** Nothing but calls of others ends, and no attempt of the bridge begins or ends. */
  lemma ApartKeepsPaired(j: Joint, j': Joint, ended: set<nat>)
    requires Paired(j) && j'.callOf == j.callOf && ended !! j.callOf.Values
    requires CallsKept(j.sys, j'.sys, ended) && LivesKept(j.pipe, j'.pipe, {})
    requires forall i :: |j.pipe.attempts| <= i < |j'.pipe.attempts| ==> j'.pipe.attempts[i].source.Rabbit?
    ensures Paired(j')
  {
    forall i | i in j'.callOf
      ensures j'.sys.calls[j'.callOf[i]].running <==> Live(j'.pipe.attempts[i])
    {
      assert j.callOf[i] in j.callOf.Values;
    }
  }

  lemma ArrivalKeepsPaired(j: Joint, p: nat, o: nat, gap: B.Duration)
    requires Paired(j) && Deliverable(j.pipe, p, o)
    ensures Paired(JApply(j, Arrival(p, o, gap)))
  {
    var sys := R.Apply(j.sys, R.Begin(gap));
    SysStepKeepsCalls(j.sys, R.Begin(gap));
    if |sys.calls| == |j.sys.calls| {
      OtherKeepsLives(j.pipe, Refuse(p));
      ApartKeepsPaired(j, JApply(j, Arrival(p, o, gap)), {});
    }
  }

  lemma GarbledKeepsPaired(j: Joint, p: nat, gap: B.Duration)
    requires Paired(j)
    ensures Paired(JApply(j, Garbled(p, gap)))
  {
    var sys, c := R.Apply(j.sys, R.Begin(gap)), |j.sys.calls|;
    SysStepKeepsCalls(j.sys, R.Begin(gap));
    SysStepKeepsCalls(sys, R.EndBadly(c));
    OtherKeepsLives(j.pipe, Refuse(p));
    ApartKeepsPaired(j, JApply(j, Garbled(p, gap)), {});
  }

  /** An attempt moves, and if that ends it, so does its call. */
  lemma MoverKeepsPaired(j: Joint, j': Joint, i: nat)
    requires Paired(j) && j'.callOf == j.callOf && |j'.pipe.attempts| == |j.pipe.attempts|
    requires LivesKept(j.pipe, j'.pipe, {i})
    requires i < |j.pipe.attempts| && i in j.callOf ==>
               if Live(j.pipe.attempts[i]) && !Live(j'.pipe.attempts[i]) then CallsKept(j.sys, j'.sys, {j.callOf[i]})
               else j'.sys == j.sys && (Live(j'.pipe.attempts[i]) <==> Live(j.pipe.attempts[i]))
    requires i !in j.callOf ==> j'.sys == j.sys
    ensures Paired(j')
  {
    forall k | k in j'.callOf
      ensures j'.callOf[k] < |j'.sys.calls|
      ensures j'.sys.calls[j'.callOf[k]].running <==> Live(j'.pipe.attempts[k])
    {
      assert k != i && i in j.callOf ==> j.callOf[k] != j.callOf[i];
    }
  }

  lemma ProgressKeepsPaired(j: Joint, i: nat, move: Move)
    requires Paired(j)
    ensures Paired(JApply(j, Progress(i, move)))
  {
    MoveKeepsLives(j.pipe, i, move);
    if i in j.callOf && Enabled(j.pipe, On(i, move)) && EndsWith(j.pipe, i, move) {
      SysStepKeepsCalls(j.sys, R.EndStep(j.callOf[i], CallOutcome(move)));
    }
    MoverKeepsPaired(j, JApply(j, Progress(i, move)), i);
  }

  lemma StepKeepsPaired(j: Joint, step: JStep)
    requires Paired(j)
    ensures Paired(JApply(j, step))
  {
    match step {
      case Wait(_) =>
      case Arrival(p, o, gap) => if Deliverable(j.pipe, p, o) { ArrivalKeepsPaired(j, p, o, gap); }
      case Garbled(p, gap) => GarbledKeepsPaired(j, p, gap);
      case Progress(i, move) => ProgressKeepsPaired(j, i, move);
      case PublishBegins(gap) =>
        SysStepKeepsCalls(j.sys, R.Begin(gap));
        ApartKeepsPaired(j, JApply(j, step), {});
      case PublishEnds(call, outcome) =>
        if call !in j.callOf.Values {
          SysStepKeepsCalls(j.sys, R.EndStep(call, outcome));
          ApartKeepsPaired(j, JApply(j, step), {call});
        }
      case Elsewhere(other) =>
        if !other.On? && !other.Deliver? && !other.Refuse? {
          OtherKeepsLives(j.pipe, other);
          ApartKeepsPaired(j, JApply(j, step), {});
        }
    }
  }

  lemma {:induction false} RunKeepsPaired(j: Joint, steps: seq<JStep>)
    requires Paired(j)
    ensures Paired(JRun(j, steps))
    decreases |steps|
  {
    if steps != [] {
      StepKeepsPaired(j, steps[0]);
      RunKeepsPaired(JApply(j, steps[0]), steps[1..]);
    }
  }

  /** What the breaker records of a delivery: its reply, or that it was cancelled. */
  function Recorded(call: nat, probe: bool, now: real, move: Move): R.Event {
    if move.Die? then R.WasCancelled(call, probe)
    else if H.ReplyOf(move).ReplyRaised? then R.Failed(call, now)
    else R.Succeeded(call)
  }

  lemma LastMove(s: State, i: nat, move: Move)
    requires Enabled(s, On(i, move)) && EndsWith(s, i, move)
    ensures move.Ack? || move.Nack? || move.Die?
  {}

  /**
    In every joint run the end of a delivery, and nothing else that happens to it, is recorded: a success if the
    reply was an ack or a nack, whatever had failed before, a failure if nack raised, and if it was
    cancelled neither.
  */
  lemma DeliveryRecordedExactly(
      threshold: int, resetTimeout: real, start: real, template: Template, consumers: set<string>, partitions: nat,
      steps: seq<JStep>, i: nat, move: Move)
    requires var j := JRun(JInit(threshold, resetTimeout, start, template, consumers, partitions), steps);
             Enabled(j.pipe, On(i, move)) && j.pipe.attempts[i].source.Kafka?
    ensures var j := JRun(JInit(threshold, resetTimeout, start, template, consumers, partitions), steps);
            var log' := JApply(j, Progress(i, move)).sys.log;
            && i in j.callOf && j.callOf[i] < |j.sys.calls|
            && var c := j.callOf[i];
               log' == j.sys.log
                 + if EndsWith(j.pipe, i, move) then [Recorded(c, j.sys.calls[c].probe, j.sys.now, move)] else []
  {
    var init := JInit(threshold, resetTimeout, start, template, consumers, partitions);
    RunKeepsPaired(init, steps);
    var j := JRun(init, steps);
    assert R.Running(j.sys, j.callOf[i]);
    if EndsWith(j.pipe, i, move) {
      LastMove(j.pipe, i, move);
    }
  }
}
