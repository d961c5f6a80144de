/** What every step of the pipeline keeps. */
module PipelineInvariants {
  import opened Wrappers
  import opened Messages
  import opened Routing
  import opened Pipeline

  /** The attempt has nothing left to do: its event is claimed, or the bridge found no identifier at all. */
  predicate Done(claims: set<Key>, a: Attempt) {
    match KeyOf(a)
    case Some(key) => key in claims
    case None => a.source.Kafka? && BridgeIdOf(a.message).NoId?
  }

  /** The message being handled is the one delivered. */
  predicate SourceFits(s: State, a: Attempt) {
    match a.source
    case Kafka(p, o) => p < |s.logs| && o < |s.logs[p]| && a.message == s.logs[p][o]
    case Rabbit(c, k) => c in s.consumers && k < |s.rabbit| && a.message == s.rabbit[k].message
  }

  /** The attempt's phase agrees with the claims table and with what it has done so far. */
  predicate PhaseFits(template: Template, claims: set<Key>, a: Attempt) {
    && (Owner(a) ==> KeyOf(a).Some? && KeyOf(a).value !in claims)
    && (a.phase.Worked? && a.source.Kafka? ==> a.published)
    && (a.phase.Begun? || a.phase.Claimed? || a.phase.Idle? ==> !a.published)
    && (a.phase.Begun? || Owner(a) || a.phase.Idle? ==> !a.committed)
    && (a.phase.Idle? || a.phase.Settled? || a.phase == Ended(Acked) ==> Done(claims, a))
    && (a.published ==> a.source.Kafka? && KeyOf(a).Some? && BuildRoutingKey(template, a.message).Some?)
    && (a.committed ==> KeyOf(a).Some? && KeyOf(a).value in claims && (a.source.Kafka? ==> a.published))
  }

  /** Two attempts never hold the same claim, and never have both committed it. */
  predicate Apart(a: Attempt, b: Attempt) {
    KeyOf(a) == KeyOf(b) ==> !(Owner(a) && Owner(b)) && !(a.committed && b.committed)
  }

  ghost predicate Backed(s: State, key: Key) {
    exists i :: 0 <= i < |s.attempts| && s.attempts[i].committed && KeyOf(s.attempts[i]) == Some(key)
  }

  predicate EntryFits(s: State, e: Entry) {
    && e.attempt < |s.attempts|
    && s.attempts[e.attempt].source == Kafka(e.partition, e.offset)
    && s.attempts[e.attempt].published
    && s.attempts[e.attempt].message == e.message
    && BridgeIdOf(e.message) == Id(e.id)
  }

  predicate EffectFits(s: State, e: Effect) {
    && e.attempt < |s.attempts|
    && s.attempts[e.attempt].source.Rabbit?
    && s.attempts[e.attempt].message == e.message
    && KeyOf(s.attempts[e.attempt]) == Some(e.key)
    && s.attempts[e.attempt].committed
  }

  ghost predicate Sane(s: State) {
    && |s.positions| == |s.offsets| == |s.logs|
    && BRIDGE !in s.consumers
    && (forall i :: 0 <= i < |s.attempts| ==> SourceFits(s, s.attempts[i]))
    && (forall i :: 0 <= i < |s.attempts| ==> PhaseFits(s.template, s.claims, s.attempts[i]))
    && (forall i, j :: 0 <= i < j < |s.attempts| ==> Apart(s.attempts[i], s.attempts[j]))
    && (forall key :: key in s.claims ==> Backed(s, key))
    && (forall k :: 0 <= k < |s.rabbit| ==> EntryFits(s, s.rabbit[k]))
    && (forall k :: 0 <= k < |s.effects| ==> EffectFits(s, s.effects[k]))
    && (forall p, o :: 0 <= p < |s.logs| && 0 <= o < |s.logs[p]| ==> s.logs[p][o] in s.rows.Values)
  }

  lemma InitIsSane(template: Template, consumers: set<string>, partitions: nat)
    requires BRIDGE !in consumers
    ensures Sane(Init(template, consumers, partitions))
  {}

  /** An attempt moves: its source and message stay, its claim or publication may be added to the rest. */
  ghost predicate Moves(s: State, s': State, i: nat) {
    && i < |s.attempts| && |s'.attempts| == |s.attempts|
    && (forall j :: 0 <= j < |s.attempts| && j != i ==> s'.attempts[j] == s.attempts[j])
    && s'.attempts[i].source == s.attempts[i].source && s'.attempts[i].message == s.attempts[i].message
    && (s.attempts[i].published ==> s'.attempts[i].published)
    && (s.attempts[i].committed ==> s'.attempts[i].committed)
    && s'.template == s.template && s'.consumers == s.consumers && s'.rows == s.rows && s'.logs == s.logs
    && |s'.positions| == |s.positions| && |s'.offsets| == |s.offsets|
    && (|| (s'.claims == s.claims && s'.effects == s.effects && s'.attempts[i].committed == s.attempts[i].committed)
        || CommitsClaim(s, s', i))
    && (|| (s'.rabbit == s.rabbit && s'.attempts[i].published == s.attempts[i].published)
        || (Owner(s.attempts[i]) && !s.attempts[i].published && s'.claims == s.claims && PublishesEntry(s, s', i)))
  }

  /** The claim becomes durable, and with it a consumer's business effect. */
  predicate CommitsClaim(s: State, s': State, i: nat)
    requires i < |s.attempts| && |s'.attempts| == |s.attempts|
  {
    var a := s.attempts[i];
    && Owner(a) && KeyOf(a).Some? && s'.attempts[i].committed
    && s'.claims == s.claims + {KeyOf(a).value}
    && s'.effects == s.effects + if a.source.Rabbit? then [Effect(KeyOf(a).value, a.message, i)] else []
  }

  predicate PublishesEntry(s: State, s': State, i: nat) {
    && |s'.rabbit| == |s.rabbit| + 1
    && s'.rabbit == s.rabbit + [s'.rabbit[|s.rabbit|]]
    && s'.rabbit[|s.rabbit|].attempt == i
    && EntryFits(s', s'.rabbit[|s.rabbit|])
  }

  /** A move that leaves the moved attempt in order and takes no claim that is held. */
  ghost predicate Legal(s: State, s': State, i: nat) {
    && Moves(s, s', i)
    && PhaseFits(s'.template, s'.claims, s'.attempts[i])
    && (Owner(s'.attempts[i]) && !Owner(s.attempts[i]) ==>
        KeyOf(s.attempts[i]).Some? && !Held(s.attempts, KeyOf(s.attempts[i]).value))
    && (s'.attempts[i].committed && !s.attempts[i].committed ==> Owner(s.attempts[i]))
  }

  /** A move that touches neither claims nor logs is legal if the new phase fits. */
  lemma PhaseMoveIsLegal(s: State, s': State, i: nat, a: Attempt)
    requires i < |s.attempts| && a == s.attempts[i].(phase := a.phase)
    requires s' == s.(attempts := s.attempts[i := a], positions := s'.positions, offsets := s'.offsets,
                      stale := s'.stale, history := s'.history)
    requires |s'.positions| == |s.positions| && |s'.offsets| == |s.offsets|
    requires PhaseFits(s.template, s.claims, a)
    requires Owner(a) && !Owner(s.attempts[i]) ==>
      KeyOf(s.attempts[i]).Some? && !Held(s.attempts, KeyOf(s.attempts[i]).value)
    ensures Legal(s, s', i)
  {
    assert KeyOf(a) == KeyOf(s.attempts[i]);
  }

  lemma ClaimIsLegal(s: State, i: nat)
    requires Sane(s) && i < |s.attempts| && s.attempts[i].phase.Begun?
    ensures Legal(s, DoClaim(s, i), i)
  {
    var s' := DoClaim(s, i);
    assert PhaseFits(s.template, s.claims, s.attempts[i]);
    PhaseMoveIsLegal(s, s', i, s'.attempts[i]);
  }

  lemma WorkIsLegal(s: State, i: nat, fate: Fate)
    requires Sane(s) && i < |s.attempts| && s.attempts[i].phase.Claimed?
    ensures Legal(s, DoWork(s, i, fate), i)
  {
    var a := s.attempts[i];
    var s' := DoWork(s, i, fate);
    assert PhaseFits(s.template, s.claims, a);
    if |s'.rabbit| == |s.rabbit| {
      PhaseMoveIsLegal(s, s', i, s'.attempts[i]);
    } else {
      var e := s'.rabbit[|s.rabbit|];
      assert s'.rabbit == s.rabbit + [e] && KeyOf(s'.attempts[i]) == KeyOf(a);
      assert BridgeIdOf(e.message) == Id(e.id);
      assert PublishesEntry(s, s', i);
    }
  }

  lemma CommitIsLegal(s: State, i: nat, fate: Fate)
    requires Sane(s) && i < |s.attempts| && (s.attempts[i].phase.Worked? || s.attempts[i].phase.Idle?)
    ensures Legal(s, DoCommit(s, i, fate), i)
  {
    var a := s.attempts[i];
    var s' := DoCommit(s, i, fate);
    assert PhaseFits(s.template, s.claims, a);
    if fate.Fails? || a.phase.Idle? {
      PhaseMoveIsLegal(s, s', i, s'.attempts[i]);
    } else {
      assert KeyOf(s'.attempts[i]) == KeyOf(a);
      assert CommitsClaim(s, s', i);
    }
  }

  lemma AckIsLegal(s: State, i: nat, fate: Fate)
    requires Sane(s) && i < |s.attempts| && s.attempts[i].phase.Settled? && s.attempts[i].source.Kafka?
    ensures Legal(s, DoAck(s, i, fate), i)
  {
    assert PhaseFits(s.template, s.claims, s.attempts[i]);
    PhaseMoveIsLegal(s, DoAck(s, i, fate), i, DoAck(s, i, fate).attempts[i]);
  }

  /** The attempt has come to the point at which it makes this move. */
  predicate Takes(a: Attempt, move: Move) {
    match move
    case Claim => a.phase.Begun?
    case Break => a.phase.Begun?
    case Work(_) => a.phase.Claimed?
    case Commit(_) => a.phase.Worked? || a.phase.Idle?
    case Ack(_) => a.phase.Settled? && a.source.Kafka?
    case Nack(_) => a.phase.Failing? && a.source.Kafka?
    case Die => true
  }

  lemma AdvanceIsLegal(s: State, i: nat, move: Move)
    requires Sane(s) && i < |s.attempts| && Live(s.attempts[i])
    ensures Legal(s, Advance(s, i, move), i)
  {
    var a := s.attempts[i];
    assert PhaseFits(s.template, s.claims, a);
    if Takes(a, move) {
      match move {
        case Claim => ClaimIsLegal(s, i);
        case Work(fate) => WorkIsLegal(s, i, fate);
        case Commit(fate) => CommitIsLegal(s, i, fate);
        case Break => PhaseMoveIsLegal(s, Put(s, i, a.(phase := Failing)), i, a.(phase := Failing));
        case Ack(fate) => AckIsLegal(s, i, fate);
        case Nack(fate) => PhaseMoveIsLegal(s, DoNack(s, i, fate), i, DoNack(s, i, fate).attempts[i]);
        case Die => PhaseMoveIsLegal(s, DoDie(s, i), i, a.(phase := Ended(Lost)));
      }
    } else {
      PhaseMoveIsLegal(s, s, i, a);
    }
  }

  lemma MovesKeepSources(s: State, s': State, i: nat)
    requires Sane(s) && Moves(s, s', i)
    ensures forall j :: 0 <= j < |s'.attempts| ==> SourceFits(s', s'.attempts[j])
  {
    forall j | 0 <= j < |s'.attempts|
      ensures SourceFits(s', s'.attempts[j])
    {
      assert SourceFits(s, s.attempts[j]);
    }
  }

  lemma MovesKeepEntries(s: State, s': State, i: nat)
    requires Sane(s) && Moves(s, s', i)
    ensures forall k :: 0 <= k < |s'.rabbit| ==> EntryFits(s', s'.rabbit[k])
  {
    forall k | 0 <= k < |s.rabbit|
      ensures EntryFits(s', s'.rabbit[k])
    {
      assert EntryFits(s, s.rabbit[k]);
    }
  }

  lemma MovesKeepEffects(s: State, s': State, i: nat)
    requires Sane(s) && Moves(s, s', i)
    ensures forall k :: 0 <= k < |s'.effects| ==> EffectFits(s', s'.effects[k])
  {
    forall k | 0 <= k < |s.effects|
      ensures EffectFits(s', s'.effects[k])
    {
      assert EffectFits(s, s.effects[k]);
    }
    if s'.effects != s.effects {
      assert CommitsClaim(s, s', i);
    }
  }

  lemma MovesKeepPhases(s: State, s': State, i: nat)
    requires Sane(s) && Moves(s, s', i)
    requires PhaseFits(s'.template, s'.claims, s'.attempts[i])
    ensures forall j :: 0 <= j < |s'.attempts| ==> PhaseFits(s'.template, s'.claims, s'.attempts[j])
  {
    forall j | 0 <= j < |s'.attempts| && j != i
      ensures PhaseFits(s'.template, s'.claims, s'.attempts[j])
    {
      assert PhaseFits(s.template, s.claims, s.attempts[j]);
      assert j < i ==> Apart(s.attempts[j], s.attempts[i]);
      assert i < j ==> Apart(s.attempts[i], s.attempts[j]);
    }
  }

  lemma MovesKeepApart(s: State, s': State, i: nat)
    requires Sane(s) && Moves(s, s', i)
    requires Owner(s'.attempts[i]) && !Owner(s.attempts[i]) ==>
      KeyOf(s.attempts[i]).Some? && !Held(s.attempts, KeyOf(s.attempts[i]).value)
    requires s'.attempts[i].committed && !s.attempts[i].committed ==> Owner(s.attempts[i])
    ensures forall j, k :: 0 <= j < k < |s'.attempts| ==> Apart(s'.attempts[j], s'.attempts[k])
  {
    forall j, k | 0 <= j < k < |s'.attempts|
      ensures Apart(s'.attempts[j], s'.attempts[k])
    {
      assert Apart(s.attempts[j], s.attempts[k]);
      assert PhaseFits(s.template, s.claims, s.attempts[j]);
      assert PhaseFits(s.template, s.claims, s.attempts[k]);
    }
  }

  lemma MovesKeepBacked(s: State, s': State, i: nat)
    requires Sane(s) && Moves(s, s', i)
    ensures forall key :: key in s'.claims ==> Backed(s', key)
  {
    forall key | key in s'.claims
      ensures Backed(s', key)
    {
      if key in s.claims {
        var j :| 0 <= j < |s.attempts| && s.attempts[j].committed && KeyOf(s.attempts[j]) == Some(key);
        assert s'.attempts[j].committed && KeyOf(s'.attempts[j]) == Some(key);
      } else {
        assert s'.attempts[i].committed && KeyOf(s'.attempts[i]) == Some(key);
      }
    }
  }

  lemma AdvanceKeepsSane(s: State, i: nat, move: Move)
    requires Sane(s) && i < |s.attempts| && Live(s.attempts[i])
    ensures Sane(Advance(s, i, move))
  {
    AdvanceIsLegal(s, i, move);
    LegalKeepsSane(s, Advance(s, i, move), i);
  }

  lemma LegalKeepsSane(s: State, s': State, i: nat)
    requires Sane(s) && Legal(s, s', i)
    ensures Sane(s')
  {
    MovesKeepSources(s, s', i);
    MovesKeepEntries(s, s', i);
    MovesKeepEffects(s, s', i);
    MovesKeepPhases(s, s', i);
    MovesKeepApart(s, s', i);
    MovesKeepBacked(s, s', i);
  }

  /** A new attempt holds nothing and has done nothing. */
  lemma StartKeepsSane(s: State, s': State, a: Attempt)
    requires Sane(s) && s' == s.(positions := s'.positions, attempts := s.attempts + [a])
    requires |s'.positions| == |s.positions|
    requires a.phase.Begun? && !a.published && !a.committed && SourceFits(s, a)
    ensures Sane(s')
  {
    forall j | 0 <= j < |s'.attempts|
      ensures SourceFits(s', s'.attempts[j]) && PhaseFits(s'.template, s'.claims, s'.attempts[j])
    {
      assert j < |s.attempts| ==> SourceFits(s, s.attempts[j]);
    }
    forall j, k | 0 <= j < k < |s'.attempts|
      ensures Apart(s'.attempts[j], s'.attempts[k])
    {
      assert k < |s.attempts| ==> Apart(s.attempts[j], s.attempts[k]);
    }
    forall key | key in s'.claims
      ensures Backed(s', key)
    {
      assert Backed(s, key);
      var j :| 0 <= j < |s.attempts| && s.attempts[j].committed && KeyOf(s.attempts[j]) == Some(key);
      assert s'.attempts[j].committed;
    }
    forall k | 0 <= k < |s'.rabbit|
      ensures EntryFits(s', s'.rabbit[k])
    {
      assert EntryFits(s, s.rabbit[k]);
    }
    forall k | 0 <= k < |s'.effects|
      ensures EffectFits(s', s'.effects[k])
    {
      assert EffectFits(s, s.effects[k]);
    }
  }

  /** The outbox and Kafka only grow, and the bridge's bookkeeping of positions is nobody's business here. */
  lemma EnvironmentKeepsSane(s: State, s': State)
    requires Sane(s)
    requires s' == s.(sessions := s'.sessions, rows := s'.rows, logs := s'.logs, positions := s'.positions, stale := s'.stale)
    requires |s'.positions| == |s.positions| && |s'.logs| == |s.logs|
    requires forall p :: 0 <= p < |s.logs| ==> s.logs[p] <= s'.logs[p]
    requires forall p, o :: 0 <= p < |s'.logs| && 0 <= o < |s'.logs[p]| ==> s'.logs[p][o] in s'.rows.Values
    ensures Sane(s')
  {
    forall j | 0 <= j < |s'.attempts|
      ensures SourceFits(s', s'.attempts[j])
    {
      assert SourceFits(s, s.attempts[j]);
    }
    forall key | key in s'.claims
      ensures Backed(s', key)
    {
      assert Backed(s, key);
      var j :| 0 <= j < |s.attempts| && s.attempts[j].committed && KeyOf(s.attempts[j]) == Some(key);
      assert s'.attempts[j].committed;
    }
    forall k | 0 <= k < |s'.rabbit|
      ensures EntryFits(s', s'.rabbit[k])
    {
      assert EntryFits(s, s.rabbit[k]);
    }
    forall k | 0 <= k < |s'.effects|
      ensures EffectFits(s', s'.effects[k])
    {
      assert EffectFits(s, s.effects[k]);
    }
  }

  /** Committed rows are never overwritten, so what fed Kafka stays among them. */
  lemma RowsKeep(rows: map<string, Message>, rows': map<string, Message>, m: Message)
    requires forall id :: id in rows ==> id in rows' && rows'[id] == rows[id]
    requires m in rows.Values
    ensures m in rows'.Values
  {
    var id :| id in rows && rows[id] == m;
    assert id in rows' && rows'[id] == m;
  }

  lemma RowStepKeepsSane(s: State, step: Step)
    requires Sane(s)
    requires step.OpenSession? || step.AddRow? || step.CloseSession? || step.AddRowAlone?
    ensures Sane(Apply(s, step))
  {
    var s' := Apply(s, step);
    assert forall id :: id in s.rows ==> id in s'.rows && s'.rows[id] == s.rows[id];
    forall p, o | 0 <= p < |s'.logs| && 0 <= o < |s'.logs[p]|
      ensures s'.logs[p][o] in s'.rows.Values
    {
      RowsKeep(s.rows, s'.rows, s.logs[p][o]);
    }
    EnvironmentKeepsSane(s, s');
  }

  lemma CaptureKeepsSane(s: State, id: string, p: nat)
    requires Sane(s)
    ensures Sane(Apply(s, Capture(id, p)))
  {
    var s' := Apply(s, Capture(id, p));
    if id in s.rows && p < |s.logs| {
      forall q, o | 0 <= q < |s'.logs| && 0 <= o < |s'.logs[q]|
        ensures s'.logs[q][o] in s'.rows.Values
      {
        if q == p && o == |s.logs[p]| {
          assert s.rows[id] in s.rows.Values;
        } else {
          assert s'.logs[q][o] == s.logs[q][o];
        }
      }
      EnvironmentKeepsSane(s, s');
    }
  }

  lemma StepKeepsSane(s: State, step: Step)
    requires Sane(s)
    ensures Sane(Apply(s, step))
  {
    var s' := Apply(s, step);
    match step {
      case On(i, move) =>
        if i < |s.attempts| && Live(s.attempts[i]) {
          AdvanceKeepsSane(s, i, move);
        }
      case Deliver(p, o) =>
        if s' != s {
          StartKeepsSane(s, s', Start(Kafka(p, o), s.logs[p][o]));
        }
      case Consume(c, k) =>
        if s' != s {
          StartKeepsSane(s, s', Start(Rabbit(c, k), s.rabbit[k].message));
        }
      case Capture(id, p) => CaptureKeepsSane(s, id, p);
      case Refuse(_) => EnvironmentKeepsSane(s, s');
      case Restart(_) => EnvironmentKeepsSane(s, s');
      case _ => RowStepKeepsSane(s, step);
    }
  }

  /** A step of the environment or a delivery: at most one attempt starts, and nothing else shows. */
  predicate Background(s: State, s': State) {
    && s'.template == s.template && s'.consumers == s.consumers
    && s'.claims == s.claims && s'.rabbit == s.rabbit && s'.effects == s.effects && s'.history == s.history
    && (|| s'.attempts == s.attempts
        || (&& |s'.attempts| == |s.attempts| + 1
            && s'.attempts == s.attempts + [s'.attempts[|s.attempts|]]
            && s'.attempts[|s.attempts|].phase.Begun?
            && !s'.attempts[|s.attempts|].published && !s'.attempts[|s.attempts|].committed))
  }

  predicate Enabled(s: State, step: Step) {
    step.On? && step.attempt < |s.attempts| && Live(s.attempts[step.attempt])
  }

  lemma OthersStayBackground(s: State, step: Step)
    requires !Enabled(s, step)
    ensures Background(s, Apply(s, step))
  {}

  /** All that a step can do to the claims table, to RabbitMQ, to the effects and to the attempts. */
  ghost predicate Follows(s: State, s': State, step: Step) {
    if Enabled(s, step) then Legal(s, s', step.attempt) else Background(s, s')
  }

  lemma StepFollows(s: State, step: Step)
    requires Sane(s)
    ensures Follows(s, Apply(s, step), step)
  {
    if Enabled(s, step) {
      AdvanceIsLegal(s, step.attempt, step.move);
    } else {
      OthersStayBackground(s, step);
    }
  }

  lemma {:induction false} RunKeepsSane(s: State, steps: seq<Step>)
    requires Sane(s)
    ensures Sane(Run(s, steps))
    decreases |steps|
  {
    if steps != [] {
      StepKeepsSane(s, steps[0]);
      RunKeepsSane(Apply(s, steps[0]), steps[1..]);
    }
  }
}
