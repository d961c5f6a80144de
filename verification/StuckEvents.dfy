/** Which events can still be forwarded, and which are stuck for good. */
module StuckEvents {
  import opened Messages
  import opened Routing
  import opened Pipeline
  import opened PipelineInvariants
  import opened PipelineSafety
  import opened PartitionOrder
  import opened PartitionRefinement
  import opened OrderlySegments

  /** Some message of Kafka carries the identifier and has a routing key. */
  ghost predicate HasRoutable(template: Template, logs: seq<seq<Message>>, id: string) {
    exists p, o :: 0 <= p < |logs| && 0 <= o < |logs[p]| && BridgeIdOf(logs[p][o]) == Id(id)
      && !Unroutable(template, logs[p][o])
  }

  /** Kafka receives nothing new. */
  predicate CapturesNothing(steps: seq<Step>) {
    forall k :: 0 <= k < |steps| ==> !steps[k].Capture?
  }

  lemma StepKeepsLogs(s: State, step: Step)
    requires Sane(s) && !step.Capture?
    ensures Apply(s, step).logs == s.logs
  {
    if Enabled(s, step) {
      AdvanceIsLegal(s, step.attempt, step.move);
    }
  }

  lemma {:induction false} RunKeepsLogs(s: State, steps: seq<Step>)
    requires Sane(s) && CapturesNothing(steps)
    ensures Run(s, steps).logs == s.logs
    decreases |steps|
  {
    if steps != [] {
      StepKeepsSane(s, steps[0]);
      StepKeepsLogs(s, steps[0]);
      RunKeepsLogs(Apply(s, steps[0]), steps[1..]);
    }
  }

  /** Everything in flight crashes, then the message is delivered, published and its claim committed. */
  lemma ForwardNow(s: State, p: nat, o: nat, id: string) returns (more: seq<Step>)
    requires Sane(s) && p < |s.logs| && o < |s.logs[p]|
    requires BridgeIdOf(s.logs[p][o]) == Id(id) && !Unroutable(s.template, s.logs[p][o])
    ensures CapturesNothing(more) && Key(BRIDGE, id) in Run(s, more).claims
  {
    var m := s.logs[p][o];
    var first, t := Silence(s, 0, |s.attempts|);
    var u := t.(positions := t.positions[p := o + 1], attempts := t.attempts + [Start(Kafka(p, o), m)]);
    assert Apply(t, Deliver(p, o)) == u;
    RunOneMore(s, first, Deliver(p, o));
    var last, v := Process(u, t.attempts, p, o, m);
    RunConcat(s, first + [Deliver(p, o)], last);
    more := first + [Deliver(p, o)] + last;
  }

  lemma RunIsSane(template: Template, consumers: set<string>, partitions: nat, steps: seq<Step>)
    requires BRIDGE !in consumers
    ensures Sane(Run(Init(template, consumers, partitions), steps))
    ensures Run(Init(template, consumers, partitions), steps).template == template
  {
    InitIsSane(template, consumers, partitions);
    RunKeepsSane(Init(template, consumers, partitions), steps);
    RunKeepsSetup(Init(template, consumers, partitions), steps);
  }

  lemma StuckStaysStuck(
      template: Template, consumers: set<string>, partitions: nat, steps: seq<Step>, more: seq<Step>, id: string)
    requires BRIDGE !in consumers && CapturesNothing(more)
    requires !HasRoutable(template, Run(Init(template, consumers, partitions), steps).logs, id)
    ensures Key(BRIDGE, id) !in Run(Run(Init(template, consumers, partitions), steps), more).claims
  {
    var init := Init(template, consumers, partitions);
    RunIsSane(template, consumers, partitions, steps);
    RunKeepsLogs(Run(init, steps), more);
    RunConcat(init, steps, more);
    UnroutableEventIsStuck(template, consumers, partitions, steps + more, id);
  }

  /**
    In every run: with what Kafka holds, some continuation claims the identifier if and only if some message
    that carries it has a routing key. If none has, the event is stuck, whatever is done about it short of
    capturing another message; if one has, the bridge can still forward it, whatever has failed so far.
  */
  lemma ForwardableExactly(template: Template, consumers: set<string>, partitions: nat, steps: seq<Step>, id: string)
    requires BRIDGE !in consumers
    ensures var s := Run(Init(template, consumers, partitions), steps);
            (exists more :: CapturesNothing(more) && Key(BRIDGE, id) in Run(s, more).claims) <==>
              HasRoutable(template, s.logs, id)
  {
    var s := Run(Init(template, consumers, partitions), steps);
    RunIsSane(template, consumers, partitions, steps);
    if HasRoutable(template, s.logs, id) {
      var p: nat, o: nat :| p < |s.logs| && o < |s.logs[p]| && BridgeIdOf(s.logs[p][o]) == Id(id)
        && !Unroutable(template, s.logs[p][o]);
      var more := ForwardNow(s, p, o, id);
      assert CapturesNothing(more) && Key(BRIDGE, id) in Run(s, more).claims;
    } else {
      forall more | CapturesNothing(more)
        ensures Key(BRIDGE, id) !in Run(s, more).claims
      {
        StuckStaysStuck(template, consumers, partitions, steps, more, id);
      }
    }
  }

  /** The bridge can neither skip the message nor forward any message with its identifier. */
  ghost predicate IsStuck(template: Template, logs: seq<seq<Message>>, m: Message) {
    match BridgeIdOf(m)
    case NoId => false
    case BadId => true
    case Id(id) => !HasRoutable(template, logs, id)
  }

  lemma StuckIsNotThrough(template: Template, consumers: set<string>, partitions: nat, steps: seq<Step>, m: Message)
    requires BRIDGE !in consumers
    requires IsStuck(template, Run(Init(template, consumers, partitions), steps).logs, m)
    ensures !Through(Run(Init(template, consumers, partitions), steps).claims, m)
  {
    if BridgeIdOf(m).Id? {
      UnroutableEventIsStuck(template, consumers, partitions, steps, BridgeIdOf(m).id);
    }
  }

  /**
    In every orderly run a stuck message blocks its partition: nothing is committed past it, and nothing behind
    it is in hand or has been published.
  */
  lemma StuckMessageBlocks(
      template: Template, consumers: set<string>, partitions: nat, steps: seq<Step>, p: nat, k: nat)
    requires BRIDGE !in consumers && OrderlyRun(Init(template, consumers, partitions), steps)
    requires var s := Run(Init(template, consumers, partitions), steps);
             p < |s.logs| && k < |s.logs[p]| && IsStuck(template, s.logs, s.logs[p][k])
    ensures var s := Run(Init(template, consumers, partitions), steps);
            && p < |s.offsets| && s.offsets[p] <= k
            && (forall i :: 0 <= i < |s.attempts| && Busy(s.attempts[i], p) ==> s.attempts[i].source.offset <= k)
            && (forall j :: 0 <= j < |s.rabbit| && s.rabbit[j].partition == p ==> s.rabbit[j].offset <= k)
  {
    var init := Init(template, consumers, partitions);
    var s := Run(init, steps);
    OrderlyInvariants(template, consumers, partitions, steps);
    assert Positioned(s, p);
    StuckIsNotThrough(template, consumers, partitions, steps, s.logs[p][k]);
    InitInOrder(template, consumers, partitions);
    RunKeepsEntryOrder(init, steps);
    forall j | 0 <= j < |s.rabbit| && s.rabbit[j].partition == p
      ensures s.rabbit[j].offset <= k
    {
      assert Below(s, s.rabbit[j], k) || s.rabbit[j].offset <= k;
    }
  }
}
