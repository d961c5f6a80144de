/** What holds of the pipeline in every run. */
module PipelineSafety {
  import opened Wrappers
  import opened Messages
  import opened Routing
  import opened Pipeline
  import OutboxSessions
  import opened PipelineInvariants

  // ---------------------------------------------------------------------------------------------
  // Conservation of publications

  /** Ways in which an attempt that published can stand: any, claim committed, given up, commit still to come. */
  datatype Standing = Any | Confirmed | Abandoned | Pending

  predicate Stands(a: Attempt, key: Key, how: Standing) {
    && KeyOf(a) == Some(key) && a.published
    && match how
       case Any => true
       case Confirmed => a.committed
       case Abandoned => !a.committed && !Owner(a)
       case Pending => !a.committed && Owner(a)
  }

  function Count(attempts: seq<Attempt>, key: Key, how: Standing): nat {
    if attempts == [] then 0
    else Count(attempts[..|attempts| - 1], key, how) + if Stands(attempts[|attempts| - 1], key, how) then 1 else 0
  }

  function Publications(rabbit: seq<Entry>, id: string): nat {
    if rabbit == [] then 0
    else Publications(rabbit[..|rabbit| - 1], id) + if rabbit[|rabbit| - 1].id == id then 1 else 0
  }

  lemma {:induction false} CountPut(attempts: seq<Attempt>, i: nat, a: Attempt, key: Key, how: Standing)
    requires i < |attempts|
    ensures Count(attempts[i := a], key, how) + (if Stands(attempts[i], key, how) then 1 else 0) ==
            Count(attempts, key, how) + if Stands(a, key, how) then 1 else 0
  {
    var n := |attempts| - 1;
    if i == n {
      assert attempts[i := a][..n] == attempts[..n];
    } else {
      assert attempts[i := a][..n] == attempts[..n][i := a];
      CountPut(attempts[..n], i, a, key, how);
    }
  }

  lemma {:induction false} CountSplits(attempts: seq<Attempt>, key: Key)
    ensures Count(attempts, key, Any) ==
      Count(attempts, key, Confirmed) + Count(attempts, key, Abandoned) + Count(attempts, key, Pending)
  {
    if attempts != [] {
      CountSplits(attempts[..|attempts| - 1], key);
    }
  }

  lemma {:induction false} CountNone(attempts: seq<Attempt>, key: Key, how: Standing)
    requires forall i :: 0 <= i < |attempts| ==> !Stands(attempts[i], key, how)
    ensures Count(attempts, key, how) == 0
  {
    if attempts != [] {
      CountNone(attempts[..|attempts| - 1], key, how);
    }
  }

  lemma {:induction false} CountAtMostOne(attempts: seq<Attempt>, key: Key, how: Standing)
    requires forall i, j :: 0 <= i < j < |attempts| ==> !(Stands(attempts[i], key, how) && Stands(attempts[j], key, how))
    ensures Count(attempts, key, how) <= 1
  {
    if attempts != [] {
      var n := |attempts| - 1;
      if Stands(attempts[n], key, how) {
        CountNone(attempts[..n], key, how);
      } else {
        CountAtMostOne(attempts[..n], key, how);
      }
    }
  }

  lemma {:induction false} CountSome(attempts: seq<Attempt>, i: nat, key: Key, how: Standing)
    requires i < |attempts| && Stands(attempts[i], key, how)
    ensures 0 < Count(attempts, key, how)
  {
    if i < |attempts| - 1 {
      CountSome(attempts[..|attempts| - 1], i, key, how);
    }
  }

  /** RabbitMQ holds one entry for each attempt that published. */
  lemma StepKeepsPublications(s: State, s': State, step: Step, id: string)
    requires Follows(s, s', step) && Publications(s.rabbit, id) == Count(s.attempts, Key(BRIDGE, id), Any)
    ensures Publications(s'.rabbit, id) == Count(s'.attempts, Key(BRIDGE, id), Any)
  {
    if Enabled(s, step) {
      MoveKeepsPublications(s, s', step.attempt, id);
    } else {
      BackgroundKeepsPublications(s, s', id);
    }
  }

  lemma PublicationsAppend(rabbit: seq<Entry>, e: Entry, id: string)
    ensures Publications(rabbit + [e], id) == Publications(rabbit, id) + if e.id == id then 1 else 0
  {
    assert (rabbit + [e])[..|rabbit|] == rabbit;
  }

  lemma MoveKeepsPublications(s: State, s': State, i: nat, id: string)
    requires Legal(s, s', i) && Publications(s.rabbit, id) == Count(s.attempts, Key(BRIDGE, id), Any)
    ensures Publications(s'.rabbit, id) == Count(s'.attempts, Key(BRIDGE, id), Any)
  {
    assert s'.attempts == s.attempts[i := s'.attempts[i]];
    CountPut(s.attempts, i, s'.attempts[i], Key(BRIDGE, id), Any);
    StandingMoves(s, s', i, Key(BRIDGE, id));
    if |s'.rabbit| > |s.rabbit| {
      PublicationsAppend(s.rabbit, s'.rabbit[|s.rabbit|], id);
      EntryKey(s', s'.rabbit[|s.rabbit|]);
    }
  }

  /** The moved attempt comes to have published if it sends an entry, and else stands as it did. */
  lemma StandingMoves(s: State, s': State, i: nat, key: Key)
    requires Legal(s, s', i)
    ensures KeyOf(s'.attempts[i]) == KeyOf(s.attempts[i])
    ensures |s'.rabbit| <= |s.rabbit| ==>
      s'.rabbit == s.rabbit && (Stands(s'.attempts[i], key, Any) <==> Stands(s.attempts[i], key, Any))
    ensures |s'.rabbit| > |s.rabbit| ==>
      && PublishesEntry(s, s', i) && !Stands(s.attempts[i], key, Any)
      && (Stands(s'.attempts[i], key, Any) <==> KeyOf(s.attempts[i]) == Some(key))
  {}

  lemma BackgroundKeepsPublications(s: State, s': State, id: string)
    requires Background(s, s') && Publications(s.rabbit, id) == Count(s.attempts, Key(BRIDGE, id), Any)
    ensures Publications(s'.rabbit, id) == Count(s'.attempts, Key(BRIDGE, id), Any)
  {
    if s'.attempts != s.attempts {
      assert s'.attempts[..|s.attempts|] == s.attempts;
    }
  }

  lemma EntryKey(s: State, e: Entry)
    requires EntryFits(s, e)
    ensures KeyOf(s.attempts[e.attempt]) == Some(Key(BRIDGE, e.id))
  {}

  lemma {:induction false} RunKeepsPublications(s: State, steps: seq<Step>, id: string)
    requires Sane(s) && Publications(s.rabbit, id) == Count(s.attempts, Key(BRIDGE, id), Any)
    ensures Publications(Run(s, steps).rabbit, id) == Count(Run(s, steps).attempts, Key(BRIDGE, id), Any)
    decreases |steps|
  {
    if steps != [] {
      StepKeepsSane(s, steps[0]);
      StepFollows(s, steps[0]);
      StepKeepsPublications(s, Apply(s, steps[0]), steps[0], id);
      RunKeepsPublications(Apply(s, steps[0]), steps[1..], id);
    }
  }

  lemma ConfirmedIffClaimed(s: State, id: string)
    requires Sane(s)
    ensures Count(s.attempts, Key(BRIDGE, id), Confirmed) == if Key(BRIDGE, id) in s.claims then 1 else 0
    ensures Count(s.attempts, Key(BRIDGE, id), Pending) <= 1
  {
    var key := Key(BRIDGE, id);
    forall i, j | 0 <= i < j < |s.attempts|
      ensures !(Stands(s.attempts[i], key, Confirmed) && Stands(s.attempts[j], key, Confirmed))
      ensures !(Stands(s.attempts[i], key, Pending) && Stands(s.attempts[j], key, Pending))
    {
      assert Apart(s.attempts[i], s.attempts[j]);
    }
    CountAtMostOne(s.attempts, key, Confirmed);
    CountAtMostOne(s.attempts, key, Pending);
    if key in s.claims {
      var i := CommitterOf(s, key);
      CountSome(s.attempts, i, key, Confirmed);
    } else {
      forall i | 0 <= i < |s.attempts|
        ensures !Stands(s.attempts[i], key, Confirmed)
      {
        assert PhaseFits(s.template, s.claims, s.attempts[i]);
      }
      CountNone(s.attempts, key, Confirmed);
    }
  }

  /** A claim of the bridge was committed by a bridge attempt, which had published. */
  lemma CommitterOf(s: State, key: Key) returns (i: nat)
    requires Sane(s) && key in s.claims && key.consumer == BRIDGE
    ensures i < |s.attempts| && s.attempts[i].committed && KeyOf(s.attempts[i]) == Some(key)
    ensures s.attempts[i].source.Kafka? && s.attempts[i].published
  {
    assert Backed(s, key);
    i :| 0 <= i < |s.attempts| && s.attempts[i].committed && KeyOf(s.attempts[i]) == Some(key);
    assert SourceFits(s, s.attempts[i]);
    assert PhaseFits(s.template, s.claims, s.attempts[i]);
  }

  /**
    However many deliveries run at once and wherever failures strike: an event's publications are one for
    its committed claim, one for each attempt that published and then gave up, and at most one that still
    has to commit. A duplicate therefore needs an attempt that ended between publish and commit.
  */
  lemma PublishConservation(template: Template, consumers: set<string>, partitions: nat, steps: seq<Step>, id: string)
    requires BRIDGE !in consumers
    ensures var s := Run(Init(template, consumers, partitions), steps);
            var key := Key(BRIDGE, id);
            && Publications(s.rabbit, id) ==
               (if key in s.claims then 1 else 0)
               + Count(s.attempts, key, Abandoned) + Count(s.attempts, key, Pending)
            && Count(s.attempts, key, Pending) <= 1
            && (key in s.claims ==> Count(s.attempts, key, Pending) == 0)
            && (1 < Publications(s.rabbit, id) ==> 0 < Count(s.attempts, key, Abandoned))
  {
    var init := Init(template, consumers, partitions);
    var s := Run(init, steps);
    var key := Key(BRIDGE, id);
    RunKeepsSane(init, steps);
    RunKeepsPublications(init, steps, id);
    CountSplits(s.attempts, key);
    ConfirmedIffClaimed(s, id);
    if key in s.claims {
      forall i | 0 <= i < |s.attempts|
        ensures !Stands(s.attempts[i], key, Pending)
      {
        assert PhaseFits(s.template, s.claims, s.attempts[i]);
      }
      CountNone(s.attempts, key, Pending);
    }
  }

  // ---------------------------------------------------------------------------------------------
  // No acknowledged message is lost

  ghost predicate PublishedThenCommitted(history: seq<Event>, j: nat, before: int) {
    exists a, b :: 0 <= a < b < before <= |history| && history[a] == Published(j) && history[b] == Committed(j)
  }

  /** The attempt that claimed the event published it, then committed the claim, all before the given moment. */
  ghost predicate Secured(s: State, key: Key, before: int) {
    exists j: nat :: j < |s.attempts| && s.attempts[j].committed && KeyOf(s.attempts[j]) == Some(key)
      && PublishedThenCommitted(s.history, j, before)
  }

  /** The acked message is a bridge attempt's, and done with. */
  predicate AckFits(s: State, i: nat) {
    i < |s.attempts| && s.attempts[i].source.Kafka? && Done(s.claims, s.attempts[i])
  }

  /** If the entry is an ack, the acked event was secured before it. */
  ghost predicate AckSecured(s: State, c: nat)
    requires c < |s.history|
  {
    s.history[c].WasAcked? ==>
      && AckFits(s, s.history[c].attempt)
      && (KeyOf(s.attempts[s.history[c].attempt]).Some? ==>
            Secured(s, KeyOf(s.attempts[s.history[c].attempt]).value, c))
  }

  ghost predicate Chronicled(s: State) {
    && (forall j: nat :: j < |s.attempts| && s.attempts[j].published ==> Published(j) in s.history)
    && (forall j: nat :: j < |s.attempts| && s.attempts[j].committed && s.attempts[j].source.Kafka? ==>
          PublishedThenCommitted(s.history, j, |s.history|))
    && (forall j: nat :: j < |s.attempts| && s.attempts[j].phase == Ended(Acked) ==> WasAcked(j) in s.history)
    && (forall c: nat :: c < |s.history| ==> AckSecured(s, c))
  }

  /** How a move shows in the history. */
  ghost predicate Records(s: State, s': State, i: nat)
    requires i < |s.attempts| && |s'.attempts| == |s.attempts|
  {
    var a, a' := s.attempts[i], s'.attempts[i];
    || (s'.history == s.history && a'.published == a.published && a'.committed == a.committed
        && (a'.phase == Ended(Acked) ==> a.phase == Ended(Acked)))
    || (s'.history == s.history + [Published(i)] && a'.published && a'.committed == a.committed && a'.phase != Ended(Acked))
    || (s'.history == s.history + [Committed(i)] && a'.committed && a'.published == a.published && a'.phase != Ended(Acked))
    || (s'.history == s.history + [WasAcked(i)] && a'.published == a.published && a'.committed == a.committed
        && a.phase.Settled? && a.source.Kafka?)
  }

  ghost predicate StepRecords(s: State, s': State, step: Step) {
    Enabled(s, step) ==> |s'.attempts| == |s.attempts| && Records(s, s', step.attempt)
  }

  lemma StepIsRecorded(s: State, step: Step)
    requires Sane(s)
    ensures StepRecords(s, Apply(s, step), step)
  {
    if Enabled(s, step) {
      AdvanceRecords(s, step.attempt, step.move);
    }
  }

  lemma AdvanceRecords(s: State, i: nat, move: Move)
    requires Sane(s) && i < |s.attempts| && Live(s.attempts[i])
    ensures |Advance(s, i, move).attempts| == |s.attempts|
    ensures Records(s, Advance(s, i, move), i)
  {
    assert PhaseFits(s.template, s.claims, s.attempts[i]);
    match move {
      case Work(fate) => WorkRecords(s, i, fate);
      case Commit(fate) => CommitRecords(s, i, fate);
      case _ =>
    }
  }

  lemma WorkRecords(s: State, i: nat, fate: Fate)
    requires i < |s.attempts|
    ensures |DoWork(s, i, fate).attempts| == |s.attempts|
    ensures s.attempts[i].phase.Claimed? ==> Records(s, DoWork(s, i, fate), i)
  {}

  lemma CommitRecords(s: State, i: nat, fate: Fate)
    requires i < |s.attempts|
    ensures |DoCommit(s, i, fate).attempts| == |s.attempts|
    ensures Records(s, DoCommit(s, i, fate), i)
  {}

  lemma HistoryAppend(history: seq<Event>, e: Event, j: nat, before: int)
    requires PublishedThenCommitted(history, j, before)
    ensures PublishedThenCommitted(history + [e], j, before)
    ensures before == |history| ==> PublishedThenCommitted(history + [e], j, before + 1)
  {
    var a, b :| 0 <= a < b < before <= |history| && history[a] == Published(j) && history[b] == Committed(j);
    assert (history + [e])[a] == Published(j) && (history + [e])[b] == Committed(j);
  }

  lemma SecuredKept(s: State, s': State, i: nat, key: Key, before: int)
    requires Moves(s, s', i) && Secured(s, key, before)
    requires s'.history == s.history || exists e :: s'.history == s.history + [e]
    ensures Secured(s', key, before)
  {
    var j: nat :| j < |s.attempts| && s.attempts[j].committed && KeyOf(s.attempts[j]) == Some(key)
      && PublishedThenCommitted(s.history, j, before);
    if s'.history != s.history {
      HistoryAppend(s.history, s'.history[|s.history|], j, before);
      assert s'.history == s.history + [s'.history[|s.history|]];
    }
    assert s'.attempts[j].committed && KeyOf(s'.attempts[j]) == Some(key);
  }

  lemma MoveKeepsPublishRecords(s: State, s': State, i: nat)
    requires Sane(s) && Chronicled(s) && Legal(s, s', i) && Records(s, s', i)
    ensures forall j: nat :: j < |s'.attempts| && s'.attempts[j].published ==> Published(j) in s'.history
    ensures forall j: nat :: j < |s'.attempts| && s'.attempts[j].phase == Ended(Acked) ==> WasAcked(j) in s'.history
  {
    assert s.history <= s'.history;
    assert s'.history != s.history ==> s'.history[|s.history|] in s'.history;
  }

  lemma MoveKeepsCommitRecords(s: State, s': State, i: nat)
    requires Sane(s) && Chronicled(s) && Legal(s, s', i) && Records(s, s', i)
    ensures forall j: nat :: j < |s'.attempts| && s'.attempts[j].committed && s'.attempts[j].source.Kafka? ==>
              PublishedThenCommitted(s'.history, j, |s'.history|)
  {
    forall j: nat | j < |s'.attempts| && s'.attempts[j].committed && s'.attempts[j].source.Kafka?
      ensures PublishedThenCommitted(s'.history, j, |s'.history|)
    {
      if s.attempts[j].committed {
        if s'.history != s.history {
          HistoryAppend(s.history, s'.history[|s.history|], j, |s.history|);
          assert s'.history == s.history + [s'.history[|s.history|]];
        }
      } else {
        assert PhaseFits(s'.template, s'.claims, s'.attempts[i]);
        assert Published(j) in s.history;
        var a :| 0 <= a < |s.history| && s.history[a] == Published(j);
        assert s'.history[a] == Published(j) && s'.history[|s.history|] == Committed(j);
      }
    }
  }

  /** By the time an attempt may ack, the claim on its event has been published for and committed. */
  lemma SettledIsSecured(s: State, i: nat)
    requires Sane(s) && Chronicled(s) && i < |s.attempts|
    requires s.attempts[i].phase.Settled? && s.attempts[i].source.Kafka? && KeyOf(s.attempts[i]).Some?
    ensures Secured(s, KeyOf(s.attempts[i]).value, |s.history|)
  {
    assert PhaseFits(s.template, s.claims, s.attempts[i]);
    var j := CommitterOf(s, KeyOf(s.attempts[i]).value);
    assert PublishedThenCommitted(s.history, j, |s.history|);
  }

  lemma EarlierAckKept(s: State, s': State, i: nat, c: nat)
    requires Sane(s) && Legal(s, s', i) && Records(s, s', i) && Live(s.attempts[i])
    requires c < |s.history| && AckSecured(s, c)
    ensures c < |s'.history| && AckSecured(s', c)
  {
    assert s'.history[c] == s.history[c];
    if s.history[c].WasAcked? {
      var k := s.history[c].attempt;
      if KeyOf(s.attempts[k]).Some? {
        SecuredKept(s, s', i, KeyOf(s.attempts[k]).value, c);
      }
    }
  }

  lemma LatestAckSecured(s: State, s': State, i: nat)
    requires Sane(s) && Chronicled(s) && Legal(s, s', i) && Records(s, s', i)
    requires |s.history| < |s'.history|
    ensures AckSecured(s', |s.history|)
  {
    if s'.history[|s.history|].WasAcked? && KeyOf(s.attempts[i]).Some? {
      SettledIsSecured(s, i);
      SecuredKept(s, s', i, KeyOf(s.attempts[i]).value, |s.history|);
    }
  }

  lemma MoveKeepsAckRecords(s: State, s': State, i: nat)
    requires Sane(s) && Chronicled(s) && Legal(s, s', i) && Records(s, s', i) && Live(s.attempts[i])
    ensures forall c: nat :: c < |s'.history| ==> AckSecured(s', c)
  {
    forall c: nat | c < |s'.history|
      ensures AckSecured(s', c)
    {
      if c < |s.history| {
        EarlierAckKept(s, s', i, c);
      } else {
        LatestAckSecured(s, s', i);
      }
    }
  }

  lemma BackgroundKeepsChronicled(s: State, s': State)
    requires Chronicled(s) && Background(s, s')
    ensures Chronicled(s')
  {
    assert forall j: nat :: j < |s.attempts| ==> s'.attempts[j] == s.attempts[j];
    forall c: nat | c < |s'.history|
      ensures AckSecured(s', c)
    {
      assert AckSecured(s, c);
      if s.history[c].WasAcked? && KeyOf(s.attempts[s.history[c].attempt]).Some? {
        var key := KeyOf(s.attempts[s.history[c].attempt]).value;
        var j: nat :| j < |s.attempts| && s.attempts[j].committed && KeyOf(s.attempts[j]) == Some(key)
          && PublishedThenCommitted(s.history, j, c);
        assert s'.attempts[j] == s.attempts[j];
      }
    }
  }

  lemma StepKeepsChronicled(s: State, s': State, step: Step)
    requires Sane(s) && Chronicled(s) && Follows(s, s', step) && StepRecords(s, s', step)
    ensures Chronicled(s')
  {
    if Enabled(s, step) {
      MoveKeepsPublishRecords(s, s', step.attempt);
      MoveKeepsCommitRecords(s, s', step.attempt);
      MoveKeepsAckRecords(s, s', step.attempt);
    } else {
      BackgroundKeepsChronicled(s, s');
    }
  }

  lemma {:induction false} RunKeepsChronicled(s: State, steps: seq<Step>)
    requires Sane(s) && Chronicled(s)
    ensures Chronicled(Run(s, steps))
    decreases |steps|
  {
    if steps != [] {
      StepKeepsSane(s, steps[0]);
      StepFollows(s, steps[0]);
      StepIsRecorded(s, steps[0]);
      StepKeepsChronicled(s, Apply(s, steps[0]), steps[0]);
      RunKeepsChronicled(Apply(s, steps[0]), steps[1..]);
    }
  }

  /**
    In every run, whenever Kafka took an ack, whether or not the bridge learned of it, the acked message
    either carries no identifier, or its identifier is among the committed claims, and the attempt behind
    that claim had published the event before it committed the claim, and committed before the ack.
  */
  lemma AckedIsNeverLost(template: Template, consumers: set<string>, partitions: nat, steps: seq<Step>, c: nat)
    requires BRIDGE !in consumers
    requires var s := Run(Init(template, consumers, partitions), steps);
             c < |s.history| && s.history[c].WasAcked?
    ensures var s := Run(Init(template, consumers, partitions), steps);
            var i := s.history[c].attempt;
            && i < |s.attempts|
            && match BridgeIdOf(s.attempts[i].message)
               case NoId => true
               case BadId => false
               case Id(id) => Key(BRIDGE, id) in s.claims && Secured(s, Key(BRIDGE, id), c)
  {
    var init := Init(template, consumers, partitions);
    var s := Run(init, steps);
    RunKeepsSane(init, steps);
    RunKeepsChronicled(init, steps);
    assert AckSecured(s, c);
  }

  /** And every attempt that ended with an ack is among them. */
  lemma EndedAckedWasAcked(template: Template, consumers: set<string>, partitions: nat, steps: seq<Step>, i: nat)
    requires BRIDGE !in consumers
    requires var s := Run(Init(template, consumers, partitions), steps);
             i < |s.attempts| && s.attempts[i].phase == Ended(Acked)
    ensures WasAcked(i) in Run(Init(template, consumers, partitions), steps).history
  {
    RunKeepsChronicled(Init(template, consumers, partitions), steps);
  }

  // ---------------------------------------------------------------------------------------------
  // Exactly-once effects

  function EffectsOf(effects: seq<Effect>, key: Key): nat {
    if effects == [] then 0
    else EffectsOf(effects[..|effects| - 1], key) + if effects[|effects| - 1].key == key then 1 else 0
  }

  lemma EffectsAppend(effects: seq<Effect>, e: Effect, key: Key)
    ensures EffectsOf(effects + [e], key) == EffectsOf(effects, key) + if e.key == key then 1 else 0
  {
    assert (effects + [e])[..|effects|] == effects;
  }

  /** Whether a claim that is committed is the consumer's own: its bearer, and what it was before. */
  lemma CommitterFits(s: State, s': State, i: nat)
    requires Sane(s) && Legal(s, s', i) && CommitsClaim(s, s', i)
    ensures KeyOf(s.attempts[i]).value !in s.claims
    ensures s.attempts[i].source.Kafka? ==> KeyOf(s.attempts[i]).value.consumer == BRIDGE
  {
    assert PhaseFits(s.template, s.claims, s.attempts[i]);
  }

  lemma MoveKeepsEffects(s: State, s': State, i: nat, key: Key)
    requires Sane(s) && Legal(s, s', i) && key.consumer != BRIDGE
    requires EffectsOf(s.effects, key) == if key in s.claims then 1 else 0
    ensures EffectsOf(s'.effects, key) == if key in s'.claims then 1 else 0
  {
    if CommitsClaim(s, s', i) {
      CommitterFits(s, s', i);
      if s.attempts[i].source.Rabbit? {
        EffectsAppend(s.effects, Effect(KeyOf(s.attempts[i]).value, s.attempts[i].message, i), key);
      } else {
        assert s'.effects == s.effects;
      }
    }
  }

  lemma StepKeepsEffects(s: State, s': State, step: Step, key: Key)
    requires Sane(s) && Follows(s, s', step) && key.consumer != BRIDGE
    requires EffectsOf(s.effects, key) == if key in s.claims then 1 else 0
    ensures EffectsOf(s'.effects, key) == if key in s'.claims then 1 else 0
  {
    if Enabled(s, step) {
      MoveKeepsEffects(s, s', step.attempt, key);
    }
  }

  lemma {:induction false} RunKeepsEffects(s: State, steps: seq<Step>, key: Key)
    requires Sane(s) && key.consumer != BRIDGE
    requires EffectsOf(s.effects, key) == if key in s.claims then 1 else 0
    ensures EffectsOf(Run(s, steps).effects, key) == if key in Run(s, steps).claims then 1 else 0
    decreases |steps|
  {
    if steps != [] {
      StepKeepsSane(s, steps[0]);
      StepFollows(s, steps[0]);
      StepKeepsEffects(s, Apply(s, steps[0]), steps[0], key);
      RunKeepsEffects(Apply(s, steps[0]), steps[1..], key);
    }
  }

  /**
    However often an event is captured, delivered, forwarded and consumed: the committed business effects
    of one consumer for one identifier number one if that consumer's claim is committed and none if not.
  */
  lemma ExactlyOnceEffects(template: Template, consumers: set<string>, partitions: nat, steps: seq<Step>, key: Key)
    requires BRIDGE !in consumers && key.consumer != BRIDGE
    ensures var s := Run(Init(template, consumers, partitions), steps);
            EffectsOf(s.effects, key) == if key in s.claims then 1 else 0
  {
    InitIsSane(template, consumers, partitions);
    RunKeepsEffects(Init(template, consumers, partitions), steps, key);
  }

  /** Bridge and consumers read the row's own identifier out of its payload; `IdsAgree` says when. */
  predicate Faithful(rows: map<string, Message>) {
    forall id :: id in rows ==> BridgeIdOf(rows[id]) == Id(id) && ConsumerIdOf(rows[id]) == Some(id)
  }

  /** Where an effect comes from: a RabbitMQ entry, a Kafka offset, a committed outbox row. */
  ghost predicate Traced(s: State, e: Effect, entry: nat, row: string) {
    && entry < |s.rabbit| && s.rabbit[entry].message == e.message
    && s.rabbit[entry].partition < |s.logs| && s.rabbit[entry].offset < |s.logs[s.rabbit[entry].partition]|
    && s.logs[s.rabbit[entry].partition][s.rabbit[entry].offset] == e.message
    && row in s.rows && s.rows[row] == e.message
    && ConsumerIdOf(e.message) == Some(e.key.id)
    && BridgeIdOf(e.message) == Id(s.rabbit[entry].id)
  }

  lemma TraceEffect(s: State, e: Effect) returns (entry: nat, row: string)
    requires Sane(s) && e in s.effects
    ensures Traced(s, e, entry, row)
  {
    assert EffectFits(s, e);
    assert SourceFits(s, s.attempts[e.attempt]);
    entry := s.attempts[e.attempt].source.entry;
    var r := s.rabbit[entry];
    assert EntryFits(s, r);
    assert SourceFits(s, s.attempts[r.attempt]);
    assert s.logs[r.partition][r.offset] in s.rows.Values;
    row :| row in s.rows && s.rows[row] == e.message;
  }

  /**
    From end to end: every committed effect stems from an outbox row that was stored by itself or by a
    business transaction that committed, with the effect's message as its payload. If bridge and consumers agree
    on identifiers, the effect's identifier is that row's own, and each row has at most one effect for each
    consumer, with its payload as the message.
  */
  lemma EffectsStemFromRows(template: Template, consumers: set<string>, partitions: nat, steps: seq<Step>, e: Effect)
    requires BRIDGE !in consumers
    requires e in Run(Init(template, consumers, partitions), steps).effects
    ensures var s := Run(Init(template, consumers, partitions), steps);
            && (exists entry: nat, row :: Traced(s, e, entry, row) && OutboxSessions.Stored(steps, row, e.message))
            && e.key.consumer in consumers && EffectsOf(s.effects, e.key) == 1
            && (Faithful(s.rows) ==> e.key.id in s.rows && s.rows[e.key.id] == e.message)
  {
    var init := Init(template, consumers, partitions);
    var s := Run(init, steps);
    RunKeepsSane(init, steps);
    RunKeepsSetup(init, steps);
    var entry, row := TraceEffect(s, e);
    OutboxSessions.RowsAreStored(template, consumers, partitions, steps, row);
    assert EffectFits(s, e);
    assert SourceFits(s, s.attempts[e.attempt]);
    assert PhaseFits(s.template, s.claims, s.attempts[e.attempt]);
    ExactlyOnceEffects(template, consumers, partitions, steps, e.key);
  }

  lemma {:induction false} RunKeepsSetup(s: State, steps: seq<Step>)
    requires Sane(s)
    ensures Run(s, steps).consumers == s.consumers && Run(s, steps).template == s.template
    decreases |steps|
  {
    if steps != [] {
      StepKeepsSane(s, steps[0]);
      StepFollows(s, steps[0]);
      RunKeepsSetup(Apply(s, steps[0]), steps[1..]);
    }
  }

  // ---------------------------------------------------------------------------------------------
  // Messages without a routing key

  predicate Unroutable(template: Template, m: Message) {
    BuildRoutingKey(template, m).None?
  }

  /**
    An attempt on a message that has no routing key publishes and commits nothing. Kafka takes its ack only
    if the identifier has been claimed by an attempt on some other message, one that does have a key.
  */
  lemma UnroutableIsInert(template: Template, consumers: set<string>, partitions: nat, steps: seq<Step>, i: nat)
    requires BRIDGE !in consumers
    requires var s := Run(Init(template, consumers, partitions), steps);
             i < |s.attempts| && s.attempts[i].source.Kafka? && Unroutable(template, s.attempts[i].message)
    ensures var s := Run(Init(template, consumers, partitions), steps);
            && !s.attempts[i].published && !s.attempts[i].committed
            && (WasAcked(i) in s.history && KeyOf(s.attempts[i]).Some? ==>
                exists j: nat :: j < |s.attempts| && s.attempts[j].source.Kafka? && s.attempts[j].committed
                  && KeyOf(s.attempts[j]) == KeyOf(s.attempts[i]) && !Unroutable(template, s.attempts[j].message))
  {
    var init := Init(template, consumers, partitions);
    var s := Run(init, steps);
    RunKeepsSane(init, steps);
    RunKeepsSetup(init, steps);
    RunKeepsChronicled(init, steps);
    assert PhaseFits(s.template, s.claims, s.attempts[i]);
    if WasAcked(i) in s.history && KeyOf(s.attempts[i]).Some? {
      var c: nat :| c < |s.history| && s.history[c] == WasAcked(i);
      assert AckSecured(s, c);
      var j := CommitterOf(s, KeyOf(s.attempts[i]).value);
      assert PhaseFits(s.template, s.claims, s.attempts[j]);
    }
  }

  lemma AckedIsDone(s: State)
    requires Chronicled(s)
    ensures forall i: nat :: WasAcked(i) in s.history ==> AckFits(s, i)
  {
    forall i: nat | WasAcked(i) in s.history
      ensures AckFits(s, i)
    {
      var c: nat :| c < |s.history| && s.history[c] == WasAcked(i);
      assert AckSecured(s, c);
    }
  }

  lemma PublishedIsRoutable(s: State, j: nat, id: string)
    requires Sane(s) && j < |s.attempts| && s.attempts[j].published && KeyOf(s.attempts[j]) == Some(Key(BRIDGE, id))
    ensures exists p, o :: 0 <= p < |s.logs| && 0 <= o < |s.logs[p]| && BridgeIdOf(s.logs[p][o]) == Id(id)
              && !Unroutable(s.template, s.logs[p][o])
  {
    assert SourceFits(s, s.attempts[j]);
    assert PhaseFits(s.template, s.claims, s.attempts[j]);
  }

  /** If no message with the identifier has a routing key, the event is never claimed, published or acknowledged. */
  lemma UnroutableEventIsStuck(template: Template, consumers: set<string>, partitions: nat, steps: seq<Step>, id: string)
    requires BRIDGE !in consumers
    requires var s := Run(Init(template, consumers, partitions), steps);
             forall p, o :: 0 <= p < |s.logs| && 0 <= o < |s.logs[p]| && BridgeIdOf(s.logs[p][o]) == Id(id) ==>
               Unroutable(template, s.logs[p][o])
    ensures var s := Run(Init(template, consumers, partitions), steps);
            && Key(BRIDGE, id) !in s.claims
            && (forall k :: 0 <= k < |s.rabbit| ==> s.rabbit[k].id != id)
            && (forall i: nat :: i < |s.attempts| && KeyOf(s.attempts[i]) == Some(Key(BRIDGE, id)) ==>
                  WasAcked(i) !in s.history)
  {
    var init := Init(template, consumers, partitions);
    var s := Run(init, steps);
    RunKeepsSane(init, steps);
    RunKeepsSetup(init, steps);
    if Key(BRIDGE, id) in s.claims {
      var j := CommitterOf(s, Key(BRIDGE, id));
      PublishedIsRoutable(s, j, id);
    }
    forall k | 0 <= k < |s.rabbit|
      ensures s.rabbit[k].id != id
    {
      assert EntryFits(s, s.rabbit[k]);
      EntryKey(s, s.rabbit[k]);
      if s.rabbit[k].id == id {
        PublishedIsRoutable(s, s.rabbit[k].attempt, id);
      }
    }
    RunKeepsChronicled(init, steps);
    AckedIsDone(s);
  }
}
