/** Stretches of orderly runs in which the bridge handles messages without any failure. */
module OrderlySegments {
  import opened Messages
  import opened Routing
  import opened Pipeline
  import opened PartitionOrder

  /** The steps lead from s to t, and do so in order. */
  ghost predicate Leads(s: State, steps: seq<Step>, t: State) {
    OrderlyRun(s, steps) && Run(s, steps) == t
  }

  lemma {:induction false} LeadsOn(s: State, xs: seq<Step>, t: State, ys: seq<Step>, u: State)
    requires Leads(s, xs, t) && Leads(t, ys, u)
    ensures Leads(s, xs + ys, u)
    decreases |xs|
  {
    if xs == [] {
      assert xs + ys == ys;
    } else {
      assert (xs + ys)[1..] == xs[1..] + ys;
      LeadsOn(Apply(s, xs[0]), xs[1..], t, ys, u);
    }
  }

  lemma Then(s: State, steps: seq<Step>, t: State, step: Step, u: State) returns (more: seq<Step>)
    requires Leads(s, steps, t) && Orderly(t, step) && Apply(t, step) == u
    ensures Leads(s, more, u) && more == steps + [step]
  {
    assert [step][1..] == [] && Run(Apply(t, step), []) == u && OrderlyRun(Apply(t, step), []);
    assert Leads(t, [step], u);
    LeadsOn(s, steps, t, [step], u);
    more := steps + [step];
  }

  /** Only attempts move; nothing is delivered, captured or restarted. */
  predicate AllMoves(steps: seq<Step>) {
    forall k :: 0 <= k < |steps| ==> steps[k].On?
  }

  /** The attempts from k up to n crash. */
  lemma {:induction false} Silence(s: State, k: nat, n: nat) returns (steps: seq<Step>, t: State)
    requires k <= n <= |s.attempts| && forall i :: 0 <= i < k ==> !Live(s.attempts[i])
    ensures Leads(s, steps, t) && AllMoves(steps) && t == s.(attempts := t.attempts, stale := t.stale)
    ensures |t.attempts| == |s.attempts| && t.attempts[n..] == s.attempts[n..]
    ensures forall i :: 0 <= i < n ==> !Live(t.attempts[i])
    decreases n - k
  {
    if k == n {
      steps, t := [], s;
    } else {
      var s1 := Apply(s, On(k, Die));
      var first := Then(s, [], s, On(k, Die), s1);
      var rest;
      assert s1 == s.(attempts := s1.attempts, stale := s1.stale) && |s1.attempts| == |s.attempts|;
      assert s1.attempts[n..] == s.attempts[n..];
      rest, t := Silence(s1, k + 1, n);
      LeadsOn(s, first, s1, rest, t);
      steps := first + rest;
    }
  }

  // ---------------------------------------------------------------------------------------------
  // One message

  /** The bridge gets through with the message if nothing fails. */
  predicate Handleable(template: Template, claims: set<Key>, m: Message) {
    match BridgeIdOf(m)
    case NoId => true
    case BadId => false
    case Id(id) => Key(BRIDGE, id) in claims || BuildRoutingKey(template, m).Some?
  }

  /** The claim that handling the message adds to those there are. */
  function ClaimFor(m: Message): set<Key> {
    if BridgeIdOf(m).Id? then {Key(BRIDGE, BridgeIdOf(m).id)} else {}
  }

  /** The entry that handling the message sends to RabbitMQ. */
  function EntryFor(claims: set<Key>, p: nat, o: nat, m: Message, attempt: nat): seq<Entry> {
    if BridgeIdOf(m).Id? && Key(BRIDGE, BridgeIdOf(m).id) !in claims then [Entry(p, o, BridgeIdOf(m).id, m, attempt)] else []
  }

  predicate NotHolding(attempts: seq<Attempt>) {
    forall i :: 0 <= i < |attempts| ==> !Owner(attempts[i])
  }

  /** Claim and publish. */
  lemma ForwardSteps(s: State, before: seq<Attempt>, p: nat, o: nat, m: Message, id: string)
      returns (steps: seq<Step>, t: State)
    requires s.attempts == before + [Start(Kafka(p, o), m)] && NotHolding(before)
    requires BridgeIdOf(m) == Id(id) && BuildRoutingKey(s.template, m).Some? && Key(BRIDGE, id) !in s.claims
    ensures Leads(s, steps, t) && AllMoves(steps)
    ensures t == s.(attempts := before + [Start(Kafka(p, o), m).(phase := Worked, published := true)],
                    rabbit := s.rabbit + [Entry(p, o, id, m, |before|)], history := s.history + [Published(|before|)])
  {
    var i := |before|;
    var a := Start(Kafka(p, o), m);
    var s1 := s.(attempts := before + [a.(phase := Claimed)]);
    assert s.attempts[i := a.(phase := Claimed)] == s1.attempts;
    steps := Then(s, [], s, On(i, Claim), s1);
    t := s1.(attempts := before + [a.(phase := Worked, published := true)],
             rabbit := s.rabbit + [Entry(p, o, id, m, i)], history := s.history + [Published(i)]);
    assert s1.attempts[i := a.(phase := Worked, published := true)] == t.attempts;
    steps := Then(s, steps, s1, On(i, Work(Ok)), t);
  }

  /** Nothing to forward: no identifier, or one that is claimed. */
  lemma SkipSteps(s: State, before: seq<Attempt>, p: nat, o: nat, m: Message) returns (steps: seq<Step>, t: State)
    requires s.attempts == before + [Start(Kafka(p, o), m)]
    requires BridgeIdOf(m).NoId? || (BridgeIdOf(m).Id? && Key(BRIDGE, BridgeIdOf(m).id) in s.claims)
    ensures Leads(s, steps, t) && AllMoves(steps)
    ensures t == s.(attempts := before + [Start(Kafka(p, o), m).(phase := Idle)])
  {
    var a := Start(Kafka(p, o), m);
    t := s.(attempts := before + [a.(phase := Idle)]);
    assert s.attempts[|before| := a.(phase := Idle)] == t.attempts;
    steps := Then(s, [], s, On(|before|, Claim), t);
  }

  /** Commit, for an attempt that has published or had nothing to do. */
  lemma CommitStep(s: State, before: seq<Attempt>, a: Attempt) returns (steps: seq<Step>, t: State)
    requires s.attempts == before + [a] && a.source.Kafka?
    requires a.phase.Idle? || (a.phase.Worked? && KeyOf(a).Some?)
    ensures Leads(s, steps, t) && AllMoves(steps)
    ensures t == s.(attempts := before + [a.(phase := Settled, committed := a.committed || a.phase.Worked?)],
                    claims := s.claims + (if a.phase.Worked? then {KeyOf(a).value} else {}), history := t.history)
  {
    var a' := a.(phase := Settled, committed := a.committed || a.phase.Worked?);
    t := Apply(s, On(|before|, Commit(Ok)));
    assert s.attempts[|before| := a'] == before + [a'];
    assert s.effects + [] == s.effects && s.claims + {} == s.claims;
    steps := Then(s, [], s, On(|before|, Commit(Ok)), t);
  }

  lemma AckStep(s: State, before: seq<Attempt>, a: Attempt) returns (steps: seq<Step>, t: State)
    requires s.attempts == before + [a] && a.source.Kafka? && a.phase.Settled? && a.source.partition < |s.offsets|
    ensures Leads(s, steps, t) && AllMoves(steps)
    ensures var p := a.source.partition;
            t == s.(attempts := before + [a.(phase := Ended(Acked))],
                    offsets := s.offsets[p := Max(s.offsets[p], a.source.offset + 1)], history := t.history)
  {
    t := Apply(s, On(|before|, Ack(Ok)));
    assert s.attempts[|before| := a.(phase := Ended(Acked))] == before + [a.(phase := Ended(Acked))];
    steps := Then(s, [], s, On(|before|, Ack(Ok)), t);
  }

  /** A message delivered at p, o has been handled, acked, and left everything else as it was. */
  ghost predicate Handled(s: State, t: State, before: seq<Attempt>, p: nat, o: nat, m: Message)
    requires p < |s.offsets|
  {
    && t == s.(attempts := t.attempts, claims := s.claims + ClaimFor(m),
               rabbit := s.rabbit + EntryFor(s.claims, p, o, m, |before|),
               offsets := s.offsets[p := Max(s.offsets[p], o + 1)], history := t.history)
    && |t.attempts| == |before| + 1 && t.attempts[..|before|] == before && t.attempts[|before|].phase == Ended(Acked)
  }

  lemma Process(s: State, before: seq<Attempt>, p: nat, o: nat, m: Message) returns (steps: seq<Step>, t: State)
    requires s.attempts == before + [Start(Kafka(p, o), m)] && NotHolding(before) && p < |s.offsets|
    requires Handleable(s.template, s.claims, m)
    ensures Leads(s, steps, t) && AllMoves(steps) && Handled(s, t, before, p, o, m)
  {
    var a := Start(Kafka(p, o), m);
    var first, second, third;
    var t1, t2;
    if BridgeIdOf(m).Id? && Key(BRIDGE, BridgeIdOf(m).id) !in s.claims {
      first, t1 := ForwardSteps(s, before, p, o, m, BridgeIdOf(m).id);
      a := a.(phase := Worked, published := true);
    } else {
      first, t1 := SkipSteps(s, before, p, o, m);
      a := a.(phase := Idle);
      assert s.rabbit + [] == s.rabbit;
    }
    second, t2 := CommitStep(t1, before, a);
    third, t := AckStep(t2, before, a.(phase := Settled, committed := a.committed || a.phase.Worked?));
    LeadsOn(s, first, t1, second, t2);
    LeadsOn(s, first + second, t2, third, t);
    steps := first + second + third;
    assert t.claims == s.claims + ClaimFor(m);
  }

  // ---------------------------------------------------------------------------------------------
  // A partition's next message

  /** No attempt is in flight. */
  ghost predicate Resting(s: State) {
    && |s.positions| == |s.offsets| == |s.logs|
    && forall i :: 0 <= i < |s.attempts| ==> !Live(s.attempts[i])
  }

  lemma HandleNext(s: State, p: nat) returns (steps: seq<Step>, t: State)
    requires Resting(s) && p < |s.logs| && p !in s.stale && s.positions[p] < |s.logs[p]|
    requires Handleable(s.template, s.claims, s.logs[p][s.positions[p]])
    ensures Leads(s, steps, t) && Resting(t)
    ensures var o := s.positions[p];
            var m := s.logs[p][o];
            t == s.(attempts := t.attempts, positions := s.positions[p := o + 1],
                    claims := s.claims + ClaimFor(m), rabbit := s.rabbit + EntryFor(s.claims, p, o, m, |s.attempts|),
                    offsets := s.offsets[p := Max(s.offsets[p], o + 1)], history := t.history)
  {
    var o := s.positions[p];
    var m := s.logs[p][o];
    var s1 := s.(positions := s.positions[p := o + 1], attempts := s.attempts + [Start(Kafka(p, o), m)]);
    var first := Then(s, [], s, Deliver(p, o), s1);
    var second;
    second, t := Process(s1, s.attempts, p, o, m);
    LeadsOn(s, first, s1, second, t);
    steps := first + second;
    forall i | 0 <= i < |t.attempts|
      ensures !Live(t.attempts[i])
    {
      assert i < |s.attempts| ==> t.attempts[i] == t.attempts[..|s.attempts|][i];
    }
  }
}
