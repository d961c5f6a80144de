/**
  Consumers with different names do not disturb each other, nor the bridge, although all of them share the
  claims table: taking every move of the other consumers out of a run changes nothing for anybody else.
*/
module ConsumerIsolation {
  import opened Wrappers
  import opened Pipeline
  import opened Routing

  /** Attempts of consumers other than c. */
  predicate Foreign(a: Attempt, c: string) {
    a.source.Rabbit? && a.source.consumer != c
  }

  /** The effects of one consumer, in the order they were committed. */
  function EffectsFor(effects: seq<Effect>, c: string): seq<Effect> {
    if effects == [] then []
    else
      EffectsFor(effects[..|effects| - 1], c)
      + if effects[|effects| - 1].key.consumer == c then [effects[|effects| - 1]] else []
  }

  predicate SameWorld(s: State, t: State) {
    && s.template == t.template && s.consumers == t.consumers && s.sessions == t.sessions && s.rows == t.rows
    && s.logs == t.logs && s.positions == t.positions && s.offsets == t.offsets && s.stale == t.stale
    && s.rabbit == t.rabbit
  }

  predicate Concerns(key: Key, c: string) {
    key.consumer == c || key.consumer == BRIDGE
  }

  /** No consumer goes by the bridge's name. */
  ghost predicate Named(s: State) {
    && BRIDGE !in s.consumers
    && forall i :: 0 <= i < |s.attempts| && s.attempts[i].source.Rabbit? ==> s.attempts[i].source.consumer != BRIDGE
  }

  /** The two states differ only in what other consumers than c have claimed, done and effected. */
  ghost predicate Alike(c: string, s: State, t: State) {
    && SameWorld(s, t) && Named(s)
    && |s.attempts| == |t.attempts|
    && (forall i :: 0 <= i < |s.attempts| ==>
          s.attempts[i].source == t.attempts[i].source && s.attempts[i].message == t.attempts[i].message)
    && (forall i :: 0 <= i < |s.attempts| && !Foreign(s.attempts[i], c) ==> s.attempts[i] == t.attempts[i])
    && (forall key :: Concerns(key, c) ==> (key in s.claims <==> key in t.claims))
    && EffectsFor(s.effects, c) == EffectsFor(t.effects, c)
  }

  lemma EffectsAppend(effects: seq<Effect>, e: Effect, c: string)
    ensures EffectsFor(effects + [e], c) == EffectsFor(effects, c) + if e.key.consumer == c then [e] else []
  {
    assert (effects + [e])[..|effects|] == effects;
  }

  // ---------------------------------------------------------------------------------------------
  // The other consumers' moves

  predicate Commits(a: Attempt, move: Move) {
    a.phase.Worked? && move.Commit? && !move.fate.Fails? && KeyOf(a).Some?
  }

  /** A consumer's move changes its own attempt, and the tables only by committing that attempt's key. */
  ghost predicate Shaped(s: State, s': State, i: nat, commits: bool)
    requires i < |s.attempts| && i < |s'.attempts|
  {
    var a := s.attempts[i];
    && SameWorld(s, s')
    && s'.attempts == s.attempts[i := s'.attempts[i]]
    && s'.attempts[i].source == a.source && s'.attempts[i].message == a.message
    && (commits ==> KeyOf(a).Some?)
    && s'.claims == s.claims + (if commits then {KeyOf(a).value} else {})
    && s'.effects == s.effects + if commits then [Effect(KeyOf(a).value, a.message, i)] else []
  }

  lemma AdvanceShaped(s: State, i: nat, move: Move)
    requires i < |s.attempts| && Live(s.attempts[i]) && s.attempts[i].source.Rabbit?
    ensures i < |Advance(s, i, move).attempts|
    ensures Shaped(s, Advance(s, i, move), i, Commits(s.attempts[i], move))
  {
    assert s.effects + [] == s.effects && s.claims + {} == s.claims;
  }

  lemma ShapedInvisible(c: string, s: State, s': State, t: State, i: nat, commits: bool)
    requires Alike(c, s, t) && i < |s.attempts| && Foreign(s.attempts[i], c)
    requires i < |s'.attempts| && Shaped(s, s', i, commits)
    ensures Alike(c, s', t)
  {
    var a := s.attempts[i];
    if commits {
      EffectsAppend(s.effects, Effect(KeyOf(a).value, a.message, i), c);
    } else {
      assert s.effects + [] == s.effects;
    }
  }

  /** A move of another consumer leaves everything that concerns c or the bridge as it was. */
  lemma OtherMove(c: string, s: State, t: State, i: nat, move: Move)
    requires Alike(c, s, t) && i < |s.attempts| && Foreign(s.attempts[i], c)
    ensures Alike(c, Apply(s, On(i, move)), t)
  {
    if Live(s.attempts[i]) {
      AdvanceShaped(s, i, move);
      ShapedInvisible(c, s, Advance(s, i, move), t, i, Commits(s.attempts[i], move));
    }
  }

  // ---------------------------------------------------------------------------------------------
  // The moves of c and of the bridge

  lemma KeyConcerns(a: Attempt, c: string)
    requires KeyOf(a).Some? && (a.source.Rabbit? ==> a.source.consumer != BRIDGE)
    ensures Concerns(KeyOf(a).value, c) <==> !Foreign(a, c)
  {}

  lemma HeldAlike(c: string, s: State, t: State, key: Key)
    requires Alike(c, s, t) && Concerns(key, c)
    ensures Held(s.attempts, key) <==> Held(t.attempts, key)
  {
    if Held(s.attempts, key) {
      var j :| 0 <= j < |s.attempts| && Owner(s.attempts[j]) && KeyOf(s.attempts[j]) == Some(key);
      KeyConcerns(s.attempts[j], c);
      assert Owner(t.attempts[j]) && KeyOf(t.attempts[j]) == Some(key);
    }
    if Held(t.attempts, key) {
      var j :| 0 <= j < |t.attempts| && Owner(t.attempts[j]) && KeyOf(t.attempts[j]) == Some(key);
      KeyConcerns(t.attempts[j], c);
      assert Owner(s.attempts[j]) && KeyOf(s.attempts[j]) == Some(key);
    }
  }

  ghost predicate SameEffect(s: State, t: State, s': State, t': State) {
    || (s'.effects == s.effects && t'.effects == t.effects)
    || exists e :: s'.effects == s.effects + [e] && t'.effects == t.effects + [e]
  }

  /** The same update of the same attempt on both sides. */
  lemma UpdateAlike(c: string, s: State, t: State, s': State, t': State, i: nat, a: Attempt, added: set<Key>)
    requires Alike(c, s, t) && i < |s.attempts|
    requires a.source == s.attempts[i].source && a.message == s.attempts[i].message
    requires s'.attempts == s.attempts[i := a] && t'.attempts == t.attempts[i := a]
    requires s'.claims == s.claims + added && t'.claims == t.claims + added
    requires SameWorld(s', t') && s'.consumers == s.consumers && SameEffect(s, t, s', t')
    ensures Alike(c, s', t')
  {
    if s'.effects != s.effects {
      var e :| s'.effects == s.effects + [e] && t'.effects == t.effects + [e];
      EffectsAppend(s.effects, e, c);
      EffectsAppend(t.effects, e, c);
    }
  }

  lemma ClaimAlike(c: string, s: State, t: State, i: nat)
    requires Alike(c, s, t) && i < |s.attempts| && !Foreign(s.attempts[i], c)
    ensures Alike(c, DoClaim(s, i), DoClaim(t, i))
  {
    var a := s.attempts[i];
    assert t.attempts[i] == a;
    if KeyOf(a).Some? {
      KeyConcerns(a, c);
      HeldAlike(c, s, t, KeyOf(a).value);
    }
    UpdateAlike(c, s, t, DoClaim(s, i), DoClaim(t, i), i, DoClaim(s, i).attempts[i], {});
  }

  lemma WorkAlike(c: string, s: State, t: State, i: nat, fate: Fate)
    requires Alike(c, s, t) && i < |s.attempts| && !Foreign(s.attempts[i], c)
    ensures Alike(c, DoWork(s, i, fate), DoWork(t, i, fate))
  {
    assert t.attempts[i] == s.attempts[i];
    UpdateAlike(c, s, t, DoWork(s, i, fate), DoWork(t, i, fate), i, DoWork(s, i, fate).attempts[i], {});
  }

  lemma CommitAddsSameEffect(s: State, t: State, i: nat, fate: Fate)
    requires i < |s.attempts| && i < |t.attempts| && t.attempts[i] == s.attempts[i]
    ensures SameEffect(s, t, DoCommit(s, i, fate), DoCommit(t, i, fate))
  {
    assert s.effects + [] == s.effects && t.effects + [] == t.effects;
  }

  lemma CommitAlike(c: string, s: State, t: State, i: nat, fate: Fate)
    requires Alike(c, s, t) && i < |s.attempts| && !Foreign(s.attempts[i], c)
    ensures Alike(c, DoCommit(s, i, fate), DoCommit(t, i, fate))
  {
    var a := s.attempts[i];
    assert t.attempts[i] == a;
    CommitAddsSameEffect(s, t, i, fate);
    UpdateAlike(c, s, t, DoCommit(s, i, fate), DoCommit(t, i, fate), i, DoCommit(s, i, fate).attempts[i],
                if fate.Fails? || a.phase.Idle? || KeyOf(a).None? then {} else {KeyOf(a).value});
  }

  lemma AckAlike(c: string, s: State, t: State, i: nat, fate: Fate)
    requires Alike(c, s, t) && i < |s.attempts| && s.attempts[i].source.Kafka?
    ensures Alike(c, DoAck(s, i, fate), DoAck(t, i, fate))
  {
    assert t.attempts[i] == s.attempts[i];
    UpdateAlike(c, s, t, DoAck(s, i, fate), DoAck(t, i, fate), i, DoAck(s, i, fate).attempts[i], {});
  }

  lemma NackAlike(c: string, s: State, t: State, i: nat, fate: Fate)
    requires Alike(c, s, t) && i < |s.attempts| && s.attempts[i].source.Kafka?
    ensures Alike(c, DoNack(s, i, fate), DoNack(t, i, fate))
  {
    assert t.attempts[i] == s.attempts[i];
    UpdateAlike(c, s, t, DoNack(s, i, fate), DoNack(t, i, fate), i, DoNack(s, i, fate).attempts[i], {});
  }

  lemma DieAlike(c: string, s: State, t: State, i: nat)
    requires Alike(c, s, t) && i < |s.attempts| && !Foreign(s.attempts[i], c)
    ensures Alike(c, DoDie(s, i), DoDie(t, i))
  {
    assert t.attempts[i] == s.attempts[i];
    UpdateAlike(c, s, t, DoDie(s, i), DoDie(t, i), i, DoDie(s, i).attempts[i], {});
  }

  /** A move of c or of the bridge depends on nothing that another consumer did. */
  lemma OwnMove(c: string, s: State, t: State, i: nat, move: Move)
    requires Alike(c, s, t) && i < |s.attempts| && !Foreign(s.attempts[i], c) && Live(s.attempts[i])
    ensures i < |t.attempts| && Live(t.attempts[i])
    ensures Alike(c, Advance(s, i, move), Advance(t, i, move))
  {
    assert t.attempts[i] == s.attempts[i];
    match move {
      case Claim => ClaimAlike(c, s, t, i);
      case Break =>
      case Work(fate) => WorkAlike(c, s, t, i, fate);
      case Commit(fate) => CommitAlike(c, s, t, i, fate);
      case Ack(fate) => if s.attempts[i].source.Kafka? { AckAlike(c, s, t, i, fate); }
      case Nack(fate) => if s.attempts[i].source.Kafka? { NackAlike(c, s, t, i, fate); }
      case Die => DieAlike(c, s, t, i);
    }
  }

  /** So does every step of the environment, the deliveries included. */
  lemma EnvironmentAlike(c: string, s: State, t: State, step: Step)
    requires Alike(c, s, t) && !step.On?
    ensures Alike(c, Apply(s, step), Apply(t, step))
  {
    EnvironmentShape(c, s, t, step);
    BackgroundAlike(c, s, t, Apply(s, step), Apply(t, step));
  }

  /** A step of the environment starts at most one attempt, and the same one on both sides. */
  ghost predicate SameStart(s: State, t: State, s': State, t': State) {
    || (s'.attempts == s.attempts && t'.attempts == t.attempts)
    || exists a: Attempt :: s'.attempts == s.attempts + [a] && t'.attempts == t.attempts + [a]
         && (a.source.Rabbit? ==> a.source.consumer in s.consumers)
  }

  lemma EnvironmentShape(c: string, s: State, t: State, step: Step)
    requires Alike(c, s, t) && !step.On?
    ensures var s', t' := Apply(s, step), Apply(t, step);
            && SameWorld(s', t') && s'.consumers == s.consumers && SameStart(s, t, s', t')
            && s'.claims == s.claims && t'.claims == t.claims && s'.effects == s.effects && t'.effects == t.effects
  {}

  lemma BackgroundAlike(c: string, s: State, t: State, s': State, t': State)
    requires Alike(c, s, t) && SameWorld(s', t') && s'.consumers == s.consumers && SameStart(s, t, s', t')
    requires s'.claims == s.claims && t'.claims == t.claims && s'.effects == s.effects && t'.effects == t.effects
    ensures Alike(c, s', t')
  {}

  lemma OwnStep(c: string, s: State, t: State, step: Step)
    requires Alike(c, s, t) && !ForeignMove(c, s, step)
    ensures Alike(c, Apply(s, step), Apply(t, step))
  {
    if !step.On? {
      EnvironmentAlike(c, s, t, step);
    } else if step.attempt < |s.attempts| {
      assert s.attempts[step.attempt] == t.attempts[step.attempt];
      if Live(s.attempts[step.attempt]) {
        OwnMove(c, s, t, step.attempt, step.move);
      }
    }
  }

  // ---------------------------------------------------------------------------------------------
  // Whole runs

  predicate ForeignMove(c: string, s: State, step: Step) {
    step.On? && step.attempt < |s.attempts| && Foreign(s.attempts[step.attempt], c)
  }

  /** The run from s without the moves of other consumers than c. */
  ghost function Alone(c: string, s: State, steps: seq<Step>): seq<Step>
    decreases |steps|
  {
    if steps == [] then []
    else (if ForeignMove(c, s, steps[0]) then [] else [steps[0]]) + Alone(c, Apply(s, steps[0]), steps[1..])
  }

  lemma {:induction false} AloneRuns(c: string, s: State, t: State, steps: seq<Step>)
    requires Alike(c, s, t)
    ensures Alike(c, Run(s, steps), Run(t, Alone(c, s, steps)))
    decreases |steps|
  {
    if steps != [] {
      var step := steps[0];
      var rest := Alone(c, Apply(s, step), steps[1..]);
      if ForeignMove(c, s, step) {
        OtherMove(c, s, t, step.attempt, step.move);
        AloneRuns(c, Apply(s, step), t, steps[1..]);
        assert [] + rest == rest;
      } else {
        OwnStep(c, s, t, step);
        AloneRuns(c, Apply(s, step), Apply(t, step), steps[1..]);
        assert ([step] + rest)[1..] == rest;
      }
    }
  }

  /**
    In every run from the start: take out all that other consumers do with their deliveries, and keep
    everything else, the deliveries to them included. The outbox, Kafka, RabbitMQ, the bridge's claims and
    attempts, and the claims, attempts and effects of c come out the same.
  */
  lemma ConsumersAreIndependent(
      template: Template, consumers: set<string>, partitions: nat, steps: seq<Step>, c: string)
    requires BRIDGE !in consumers
    ensures var init := Init(template, consumers, partitions);
            Alike(c, Run(init, steps), Run(init, Alone(c, init, steps)))
  {
    var init := Init(template, consumers, partitions);
    AloneRuns(c, init, init, steps);
  }
}
