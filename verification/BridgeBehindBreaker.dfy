/**
  The bridge behind the Kafka broker's circuit breaker: each delivery is a call through the breaker, which
  ends when the handler has acked or nacked, and the application publishes to Kafka through the same one.
*/
module BridgeBehindBreaker {
  import opened Routing
  import B = CircuitBreakers
  import R = BreakerRuns
  import opened Pipeline
  import opened PipelineInvariants
  import opened PartitionOrder
  import opened PartitionRefinement

  /** `callOf` gives the breaker call in which a bridge attempt runs. */
  datatype Joint = Joint(sys: R.Sys, pipe: State, callOf: map<nat, nat>)

  datatype JStep =
    | Wait(elapsed: B.Duration)
    | Arrival(partition: nat, offset: nat, gap: B.Duration)
    | Garbled(partition: nat, gap: B.Duration)
    | Progress(attempt: nat, move: Move)
    | PublishBegins(gap: B.Duration)
    | PublishEnds(call: nat, outcome: B.Outcome)
    | Elsewhere(step: Step)

  function JInit(threshold: int, resetTimeout: real, start: real, template: Template, consumers: set<string>, partitions: nat): Joint {
    Joint(R.Init(threshold, resetTimeout, start), Init(template, consumers, partitions), map[])
  }

  /** There is such a message to hand over. */
  predicate Deliverable(s: State, p: nat, o: nat) {
    p < |s.logs| && p < |s.positions| && o < |s.logs[p]|
  }

  /** How the call of an ended attempt ends: an exception leaves the handler only if nack raised. */
  function CallOutcome(move: Move): B.Outcome {
    match move
    case Nack(fate) => if fate.Ok? then B.Returned else B.Raised
    case Die => B.Cancelled
    case _ => B.Returned
  }

  ghost function JApply(j: Joint, step: JStep): Joint {
    match step
    case Wait(elapsed) => j.(sys := R.Apply(j.sys, R.Tick(elapsed)))
    case Arrival(p, o, gap) =>
      if !Deliverable(j.pipe, p, o) then j
      else
        var sys := R.Apply(j.sys, R.Begin(gap));
        if |sys.calls| == |j.sys.calls| then Joint(sys, Apply(j.pipe, Refuse(p)), j.callOf)
        else Joint(sys, Apply(j.pipe, Deliver(p, o)), j.callOf[|j.pipe.attempts| := |j.sys.calls|])
    case Garbled(p, gap) =>
      var sys := R.Apply(j.sys, R.Begin(gap));
      j.(sys := if |sys.calls| == |j.sys.calls| then sys else R.Apply(sys, R.EndBadly(|j.sys.calls|)),
         pipe := Apply(j.pipe, Refuse(p)))
    case Progress(i, move) =>
      var pipe := Apply(j.pipe, On(i, move));
      if i in j.callOf && Enabled(j.pipe, On(i, move)) && i < |pipe.attempts| && !Live(pipe.attempts[i])
      then Joint(R.Apply(j.sys, R.EndStep(j.callOf[i], CallOutcome(move))), pipe, j.callOf)
      else j.(pipe := pipe)
    case PublishBegins(gap) => j.(sys := R.Apply(j.sys, R.Begin(gap)))
    case PublishEnds(call, outcome) =>
      if call in j.callOf.Values then j else j.(sys := R.Apply(j.sys, R.EndStep(call, outcome)))
    case Elsewhere(other) =>
      if other.Deliver? || other.Refuse? || other.On? then j else j.(pipe := Apply(j.pipe, other))
  }

  ghost function JRun(j: Joint, steps: seq<JStep>): Joint
    decreases |steps|
  {
    if steps == [] then j else JRun(JApply(j, steps[0]), steps[1..])
  }

  /** Every delivery decodes, nack does not raise, and no Kafka publish fails through this breaker. */
  predicate Benign(step: JStep) {
    match step
    case Garbled(_, _) => false
    case Progress(_, move) => !(move.Nack? && !move.fate.Ok?)
    case PublishEnds(_, outcome) => !outcome.Raised?
    case _ => true
  }

  ghost predicate AllBenign(steps: seq<JStep>) {
    forall k :: 0 <= k < |steps| ==> Benign(steps[k])
  }

  /** The breaker has recorded no failure, nobody probes, nobody was turned away. */
  ghost predicate Calm(sys: R.Sys, threshold: int, resetTimeout: real) {
    && sys.breaker == B.Fresh(threshold, resetTimeout)
    && (forall i :: 0 <= i < |sys.calls| ==> !sys.calls[i].probe)
    && (forall k :: 0 <= k < |sys.log| ==> !sys.log[k].TurnedAway?)
  }

  lemma CalmStep(sys: R.Sys, step: R.Step, threshold: int, resetTimeout: real)
    requires Calm(sys, threshold, resetTimeout) && !step.EndBadly?
    ensures Calm(R.Apply(sys, step), threshold, resetTimeout)
    ensures step.Begin? ==> |R.Apply(sys, step).calls| == |sys.calls| + 1
  {}

  lemma {:induction false} RunStaysCalm(j: Joint, steps: seq<JStep>, threshold: int, resetTimeout: real)
    requires Calm(j.sys, threshold, resetTimeout) && AllBenign(steps)
    ensures Calm(JRun(j, steps).sys, threshold, resetTimeout)
    decreases |steps|
  {
    if steps != [] {
      assert Benign(steps[0]);
      BenignStepStaysCalm(j, steps[0], threshold, resetTimeout);
      RunStaysCalm(JApply(j, steps[0]), steps[1..], threshold, resetTimeout);
    }
  }

  lemma BenignStepStaysCalm(j: Joint, step: JStep, threshold: int, resetTimeout: real)
    requires Calm(j.sys, threshold, resetTimeout) && Benign(step)
    ensures Calm(JApply(j, step).sys, threshold, resetTimeout)
  {
    match step {
      case Wait(elapsed) => CalmStep(j.sys, R.Tick(elapsed), threshold, resetTimeout);
      case Arrival(_, _, gap) => CalmStep(j.sys, R.Begin(gap), threshold, resetTimeout);
      case PublishBegins(gap) => CalmStep(j.sys, R.Begin(gap), threshold, resetTimeout);
      case Progress(i, move) =>
        if i in j.callOf {
          CalmStep(j.sys, R.EndStep(j.callOf[i], CallOutcome(move)), threshold, resetTimeout);
        }
      case PublishEnds(call, outcome) => CalmStep(j.sys, R.EndStep(call, outcome), threshold, resetTimeout);
      case _ =>
    }
  }

  /**
    Handler errors, failed publishes to RabbitMQ, failed commits and failed acks never reach the Kafka-side
    breaker: without undecodable deliveries, raising nacks and failing Kafka publishes it stays in its
    initial state in every run, and turns nobody away.
  */
  lemma BreakerStaysClosed(
      threshold: int, resetTimeout: real, start: real,
      template: Template, consumers: set<string>, partitions: nat, steps: seq<JStep>)
    requires AllBenign(steps)
    ensures var sys := JRun(JInit(threshold, resetTimeout, start, template, consumers, partitions), steps).sys;
            && sys.breaker == B.Fresh(threshold, resetTimeout)
            && forall k :: 0 <= k < |sys.log| ==> !sys.log[k].TurnedAway?
  {
    RunStaysCalm(JInit(threshold, resetTimeout, start, template, consumers, partitions), steps, threshold, resetTimeout);
  }

  // ---------------------------------------------------------------------------------------------
  // The pipeline inside

  /** The pipeline's part in a joint step. */
  ghost function PipeStep(j: Joint, step: JStep): seq<Step> {
    match step
    case Arrival(p, o, gap) =>
      if !Deliverable(j.pipe, p, o) then []
      else if |R.Apply(j.sys, R.Begin(gap)).calls| == |j.sys.calls| then [Refuse(p)]
      else [Deliver(p, o)]
    case Garbled(p, _) => [Refuse(p)]
    case Progress(i, move) => [On(i, move)]
    case Elsewhere(other) => if other.Deliver? || other.Refuse? || other.On? then [] else [other]
    case _ => []
  }

  ghost function Trace(j: Joint, steps: seq<JStep>): seq<Step>
    decreases |steps|
  {
    if steps == [] then [] else PipeStep(j, steps[0]) + Trace(JApply(j, steps[0]), steps[1..])
  }

  lemma PipeStepRuns(j: Joint, step: JStep)
    ensures JApply(j, step).pipe == Run(j.pipe, PipeStep(j, step))
  {
    var pipe := PipeStep(j, step);
    if pipe != [] {
      assert pipe[1..] == [];
      assert Run(Apply(j.pipe, pipe[0]), []) == Apply(j.pipe, pipe[0]);
    }
  }

  lemma {:induction false} TraceRuns(j: Joint, steps: seq<JStep>)
    ensures JRun(j, steps).pipe == Run(j.pipe, Trace(j, steps))
    decreases |steps|
  {
    if steps != [] {
      PipeStepRuns(j, steps[0]);
      TraceRuns(JApply(j, steps[0]), steps[1..]);
      RunConcat(j.pipe, PipeStep(j, steps[0]), Trace(JApply(j, steps[0]), steps[1..]));
    }
  }

  /** Kafka delivers in order, as far as the breaker lets it. */
  ghost predicate JOrderly(j: Joint, steps: seq<JStep>)
    decreases |steps|
  {
    steps != [] ==>
      && (steps[0].Arrival? ==> Orderly(j.pipe, Deliver(steps[0].partition, steps[0].offset)))
      && JOrderly(JApply(j, steps[0]), steps[1..])
  }

  lemma {:induction false} TraceIsOrderly(j: Joint, steps: seq<JStep>)
    requires JOrderly(j, steps)
    ensures OrderlyRun(j.pipe, Trace(j, steps))
    decreases |steps|
  {
    if steps != [] {
      var first, rest := PipeStep(j, steps[0]), Trace(JApply(j, steps[0]), steps[1..]);
      TraceIsOrderly(JApply(j, steps[0]), steps[1..]);
      PipeStepRuns(j, steps[0]);
      if first == [] {
        assert first + rest == rest;
      } else {
        assert (first + rest)[1..] == rest && first[1..] == [];
        assert Run(Apply(j.pipe, first[0]), []) == Apply(j.pipe, first[0]);
        assert Orderly(j.pipe, first[0]);
      }
    }
  }

  /** While the breaker is calm, every message that arrives reaches the handler. */
  lemma {:induction false} NothingRefused(j: Joint, steps: seq<JStep>, threshold: int, resetTimeout: real)
    requires Calm(j.sys, threshold, resetTimeout) && AllBenign(steps)
    ensures forall k :: 0 <= k < |Trace(j, steps)| ==> !Trace(j, steps)[k].Refuse?
    decreases |steps|
  {
    if steps != [] {
      assert Benign(steps[0]);
      if steps[0].Arrival? {
        CalmStep(j.sys, R.Begin(steps[0].gap), threshold, resetTimeout);
      }
      BenignStepStaysCalm(j, steps[0], threshold, resetTimeout);
      NothingRefused(JApply(j, steps[0]), steps[1..], threshold, resetTimeout);
    }
  }

  /**
    The whole of it: with an orderly Kafka and benign faults, every arriving message reaches the handler,
    everything below a committed offset is settled, and, unless the logs let an event of it be overtaken,
    RabbitMQ's stream from a partition refines the partition.
  */
  lemma BridgeIsFaithful(
      threshold: int, resetTimeout: real, start: real,
      template: Template, consumers: set<string>, partitions: nat, steps: seq<JStep>, p: nat)
    requires BRIDGE !in consumers
    requires var j := JInit(threshold, resetTimeout, start, template, consumers, partitions);
             && AllBenign(steps) && JOrderly(j, steps)
             && p < |JRun(j, steps).pipe.logs|
    ensures var j := JInit(threshold, resetTimeout, start, template, consumers, partitions);
            var s := JRun(j, steps).pipe;
            && (forall k :: 0 <= k < |Trace(j, steps)| ==> !Trace(j, steps)[k].Refuse?)
            && p < |s.offsets| && ThroughUpTo(s.claims, s.logs[p], s.offsets[p])
            && (!Overtakable(s.logs, p) ==> Forwarded(s, p) <= FirstIds(s.logs[p]))
            && (s.offsets[p] == |s.logs[p]| && Unshared(s.logs, p) ==> Forwarded(s, p) == FirstIds(s.logs[p]))
  {
    var j := JInit(threshold, resetTimeout, start, template, consumers, partitions);
    var trace := Trace(j, steps);
    TraceRuns(j, steps);
    TraceIsOrderly(j, steps);
    NothingRefused(j, steps, threshold, resetTimeout);
    OrderlyInvariants(template, consumers, partitions, trace);
    var s := JRun(j, steps).pipe;
    assert Positioned(s, p);
    if !Overtakable(s.logs, p) {
      ForwardingRefinesPartition(template, consumers, partitions, trace, p);
    }
    if s.offsets[p] == |s.logs[p]| {
      FullyConsumedIsForwarded(template, consumers, partitions, trace, p);
    }
  }
}
