/**
  Deliveries that the Kafka-side breaker refuses. Kafka hears neither ack nor nack of them, and unless the
  partition is restarted from its committed offset, the next ack commits past them.
*/
module RefusedDeliveries {
  import opened Messages
  import opened Routing
  import opened Pipeline
  import opened PipelineInvariants
  import opened PartitionOrder
  import opened OrderlySegments
  import opened OvertakingRuns

  /**
    Messages of p are due, r of them and one more; nothing of p is in hand, and Kafka has heard about everything
    it handed out.
  */
  ghost predicate Due(s: State, p: nat, r: nat) {
    && Sane(s) && InOrder(s) && p < |s.logs| && p !in s.stale && s.positions[p] + r < |s.logs[p]|
    && forall i :: 0 <= i < |s.attempts| ==> !Busy(s.attempts[i], p)
  }

  /** The first r messages due were refused, the next one was delivered in attempt n, and nothing else of p since. */
  ghost predicate Passed(s: State, u: State, p: nat, r: nat)
    requires Due(s, p, r)
  {
    var n, next := |s.attempts|, s.positions[p] + r;
    && Sane(u) && |u.logs| == |s.logs| && s.logs[p] <= u.logs[p] && s.claims <= u.claims
    && n < |u.attempts| && u.attempts[n].source == Kafka(p, next)
    && (forall k :: 0 <= k < |u.attempts| && k != n ==> !Busy(u.attempts[k], p))
    && (u.offsets[p] == s.offsets[p] || u.offsets[p] == Max(s.offsets[p], next + 1))
    && (u.attempts[n].phase == Ended(Acked) ==> u.offsets[p] == Max(s.offsets[p], next + 1))
  }

  lemma MoveKeepsPassed(s: State, u: State, u': State, p: nat, r: nat, i: nat)
    requires Due(s, p, r) && Passed(s, u, p, r) && Sane(u')
    requires Legal(u, u', i) && Live(u.attempts[i]) && Bears(u, u', i, p)
    ensures Passed(s, u', p, r)
  {
    var n := |s.attempts|;
    assert i != n ==> u'.attempts[n] == u.attempts[n];
    forall k | 0 <= k < |u'.attempts| && k != n
      ensures !Busy(u'.attempts[k], p)
    {
      assert k != i ==> u'.attempts[k] == u.attempts[k];
    }
  }

  lemma OtherKeepsPassed(s: State, u: State, u': State, p: nat, r: nat, step: Step)
    requires Due(s, p, r) && Passed(s, u, p, r) && Sane(u')
    requires Shifts(u, u', step) && !Enabled(u, step) && !(step.Deliver? && step.partition == p)
    ensures Passed(s, u', p, r)
  {
    assert !Delivers(u, step) ==> Settles(u, u', p);
    assert forall k :: 0 <= k < |u.attempts| ==> u'.attempts[k] == u.attempts[k];
  }

  lemma {:induction false} RunKeepsPassed(s: State, u: State, p: nat, r: nat, steps: seq<Step>)
    requires Due(s, p, r) && Passed(s, u, p, r)
    requires forall k :: 0 <= k < |steps| ==> !(steps[k].Deliver? && steps[k].partition == p)
    ensures Passed(s, Run(u, steps), p, r)
    decreases |steps|
  {
    if steps != [] {
      var step := steps[0];
      StepShifts(u, step);
      StepKeepsSane(u, step);
      if Enabled(u, step) {
        MoveKeepsPassed(s, u, Apply(u, step), p, r, step.attempt);
      } else {
        OtherKeepsPassed(s, u, Apply(u, step), p, r, step);
      }
      RunKeepsPassed(s, Apply(u, step), p, r, steps[1..]);
    }
  }

  function Refusals(p: nat, r: nat): seq<Step> {
    if r == 0 then [] else Refusals(p, r - 1) + [Refuse(p)]
  }

  /** Refuse the r messages due from this position on, and deliver the next one. */
  function Passing(p: nat, r: nat, position: nat): seq<Step> {
    Refusals(p, r) + [Deliver(p, position + r)]
  }

  function AfterRefusals(s: State, p: nat, r: nat): State
    requires p < |s.positions|
  {
    s.(positions := s.positions[p := s.positions[p] + r], stale := if r == 0 then s.stale else s.stale + {p})
  }

  function AfterDelivery(s: State, p: nat, r: nat): State
    requires p < |s.positions| && p < |s.logs| && s.positions[p] + r < |s.logs[p]|
  {
    var o := s.positions[p] + r;
    AfterRefusals(s, p, r).(positions := s.positions[p := o + 1],
                            attempts := s.attempts + [Start(Kafka(p, o), s.logs[p][o])])
  }

  /** Only a message that is there can be refused. */
  lemma RefusedIsDue(s: State, p: nat)
    ensures Apply(s, Refuse(p)) != s <==> p < |s.logs| && p < |s.positions| && s.positions[p] < |s.logs[p]|
  {
    var s' := Apply(s, Refuse(p));
    assert s' != s ==> s'.stale == s.stale + {p};
    assert p < |s.logs| && p < |s.positions| && s.positions[p] < |s.logs[p]| ==> s'.positions[p] == s.positions[p] + 1;
  }

  lemma RefusalFollows(s: State, p: nat, r: nat)
    requires p < |s.positions| && p < |s.logs| && 0 < r && s.positions[p] + r <= |s.logs[p]|
    ensures Apply(AfterRefusals(s, p, r - 1), Refuse(p)) == AfterRefusals(s, p, r)
  {
    var o := s.positions[p] + r;
    assert s.positions[p := o - 1][p := o] == s.positions[p := o];
  }

  lemma {:induction false} RefusalsRun(s: State, p: nat, r: nat)
    requires p < |s.positions| && p < |s.logs| && s.positions[p] + r <= |s.logs[p]|
    ensures Run(s, Refusals(p, r)) == AfterRefusals(s, p, r)
  {
    if r == 0 {
      assert s.positions[p := s.positions[p]] == s.positions;
    } else {
      RefusalsRun(s, p, r - 1);
      RefusalFollows(s, p, r);
      RunsOn(s, Refusals(p, r - 1), AfterRefusals(s, p, r - 1), Refuse(p), Refusals(p, r), AfterRefusals(s, p, r));
    }
  }

  lemma DeliveryFollows(s: State, p: nat, r: nat)
    requires p < |s.positions| && p < |s.logs| && s.positions[p] + r < |s.logs[p]|
    ensures Apply(AfterRefusals(s, p, r), Deliver(p, s.positions[p] + r)) == AfterDelivery(s, p, r)
  {
    var o := s.positions[p] + r;
    assert s.positions[p := o][p := o + 1] == s.positions[p := o + 1];
  }

  lemma DeliveryRuns(s: State, p: nat, r: nat)
    requires p < |s.positions| && p < |s.logs| && s.positions[p] + r < |s.logs[p]|
    ensures Run(s, Passing(p, r, s.positions[p])) == AfterDelivery(s, p, r)
  {
    RefusalsRun(s, p, r);
    DeliveryFollows(s, p, r);
    RunsOn(s, Refusals(p, r), AfterRefusals(s, p, r), Deliver(p, s.positions[p] + r), Passing(p, r, s.positions[p]),
           AfterDelivery(s, p, r));
  }

  lemma RunsOn(s: State, steps: seq<Step>, t: State, step: Step, more: seq<Step>, u: State)
    requires Run(s, steps) == t && Apply(t, step) == u && more == steps + [step]
    ensures Run(s, more) == u
  {
    RunOneMore(s, steps, step);
  }

  lemma DeliveryPasses(s: State, p: nat, r: nat)
    requires Due(s, p, r)
    ensures Passed(s, AfterDelivery(s, p, r), p, r)
  {
    DeliveryRuns(s, p, r);
    RunKeepsSane(s, Passing(p, r, s.positions[p]));
  }

  ghost predicate AllThrough(claims: set<Key>, log: seq<Message>, lo: int, hi: int) {
    forall k :: 0 <= lo <= k < hi <= |log| ==> Through(claims, log[k])
  }

  lemma PassedIsCommitted(s: State, u: State, p: nat, r: nat)
    requires Due(s, p, r) && Passed(s, u, p, r) && u.attempts[|s.attempts|].phase == Ended(Acked)
    ensures s.positions[p] + r < u.offsets[p] <= |u.logs[p]|
  {
    assert Positioned(s, p);
  }

  /** What has been committed past is settled exactly if all the refused messages are. */
  lemma PassedIsSettledExactly(s: State, u: State, p: nat, r: nat)
    requires Due(s, p, r) && Passed(s, u, p, r) && u.attempts[|s.attempts|].phase == Ended(Acked)
    ensures s.positions[p] + r < u.offsets[p] <= |u.logs[p]|
    ensures ThroughUpTo(u.claims, u.logs[p], u.offsets[p]) <==>
              AllThrough(u.claims, s.logs[p], s.positions[p], s.positions[p] + r)
  {
    PassedIsCommitted(s, u, p, r);
    if AllThrough(u.claims, s.logs[p], s.positions[p], s.positions[p] + r) {
      AckedIsThrough(u, p, |s.attempts|);
      AllSettled(s, u, p, r);
    }
    if ThroughUpTo(u.claims, u.logs[p], u.offsets[p]) {
      SettledAreThrough(u.claims, s.logs[p], u.logs[p], s.positions[p], s.positions[p] + r, u.offsets[p]);
    }
  }

  lemma SettledAreThrough(claims: set<Key>, log: seq<Message>, longer: seq<Message>, lo: nat, hi: nat, n: nat)
    requires log <= longer && hi <= n && ThroughUpTo(claims, longer, n)
    ensures AllThrough(claims, log, lo, hi)
  {
    forall k | lo <= k < hi <= |log|
      ensures Through(claims, log[k])
    {
      assert log[k] == longer[k];
    }
  }

  lemma AckedIsThrough(u: State, p: nat, n: nat)
    requires Sane(u) && n < |u.attempts| && u.attempts[n].source.Kafka? && u.attempts[n].source.partition == p
    requires u.attempts[n].phase == Ended(Acked)
    ensures p < |u.logs| && u.attempts[n].source.offset < |u.logs[p]|
    ensures Through(u.claims, u.logs[p][u.attempts[n].source.offset])
  {
    assert PhaseFits(u.template, u.claims, u.attempts[n]);
    assert SourceFits(u, u.attempts[n]);
    DoneMeansThrough(u.claims, u.attempts[n]);
  }

  lemma AllSettled(s: State, u: State, p: nat, r: nat)
    requires Due(s, p, r) && p < |u.logs| && s.logs[p] <= u.logs[p] && s.claims <= u.claims && p < |u.offsets|
    requires u.offsets[p] <= Max(s.offsets[p], s.positions[p] + r + 1)
    requires AllThrough(u.claims, s.logs[p], s.positions[p], s.positions[p] + r)
    requires Through(u.claims, u.logs[p][s.positions[p] + r])
    ensures ThroughUpTo(u.claims, u.logs[p], u.offsets[p])
  {
    forall k: nat | k < u.offsets[p] && k < |u.logs[p]|
      ensures Through(u.claims, u.logs[p][k])
    {
      if k < s.positions[p] || k < s.offsets[p] {
        SettledBefore(s, p, r, k);
        assert u.logs[p][k] == s.logs[p][k];
      } else if k < s.positions[p] + r {
        assert u.logs[p][k] == s.logs[p][k];
      }
    }
  }

  lemma SettledBefore(s: State, p: nat, r: nat, k: nat)
    requires Due(s, p, r) && (k < s.positions[p] || k < s.offsets[p])
    ensures k < |s.logs[p]| && Through(s.claims, s.logs[p][k])
  {
    assert Positioned(s, p);
    if k < s.positions[p] {
      assert Through(s.claims, s.logs[p][k]) || InHand(s.attempts, p, k);
    }
  }

  /** Where the run stands after the refusals, the next delivery, and these further steps. */
  ghost function After(s: State, p: nat, r: nat, after: seq<Step>): State
    requires p < |s.positions|
  {
    Run(s, Passing(p, r, s.positions[p]) + after)
  }

  /** Nothing more of p is delivered, and the message delivered after the refusals is acked. */
  ghost predicate AckedPast(s: State, p: nat, r: nat, after: seq<Step>)
    requires p < |s.positions|
  {
    && (forall k :: 0 <= k < |after| ==> !(after[k].Deliver? && after[k].partition == p))
    && |s.attempts| < |After(s, p, r, after).attempts|
    && After(s, p, r, after).attempts[|s.attempts|].phase == Ended(Acked)
  }

  /** Everything below the committed offset is settled. */
  ghost predicate Settled(u: State, p: nat) {
    p < |u.logs| && p < |u.offsets| && u.offsets[p] <= |u.logs[p]| && ThroughUpTo(u.claims, u.logs[p], u.offsets[p])
  }

  /** The ack commits past the refused messages, and their being settled is all that is in question. */
  lemma AckedPastIsSettledExactly(s: State, p: nat, r: nat, after: seq<Step>)
    requires Due(s, p, r) && AckedPast(s, p, r, after)
    ensures var u := After(s, p, r, after);
            && Passed(s, u, p, r) && p < |u.logs| && p < |u.offsets| && s.positions[p] + r < u.offsets[p] <= |u.logs[p]|
            && (Settled(u, p) <==> AllThrough(u.claims, s.logs[p], s.positions[p], s.positions[p] + r))
  {
    DeliveryPasses(s, p, r);
    DeliveryRuns(s, p, r);
    RunConcat(s, Passing(p, r, s.positions[p]), after);
    RunKeepsPassed(s, AfterDelivery(s, p, r), p, r, after);
    PassedIsSettledExactly(s, After(s, p, r, after), p, r);
  }

  /** A refused message needs no handling any more, or the one delivered in its stead carries the same identifier. */
  predicate Harmless(claims: set<Key>, refused: Message, delivered: Message) {
    Through(claims, refused) || (BridgeIdOf(refused).Id? && BridgeIdOf(delivered) == BridgeIdOf(refused))
  }

  ghost predicate AllHarmless(s: State, p: nat, r: nat)
    requires p < |s.positions| && p < |s.logs| && s.positions[p] + r < |s.logs[p]|
  {
    forall k: nat :: s.positions[p] <= k < s.positions[p] + r ==>
      Harmless(s.claims, s.logs[p][k], s.logs[p][s.positions[p] + r])
  }

  lemma HarmlessIsSettled(s: State, p: nat, r: nat, after: seq<Step>)
    requires Due(s, p, r) && AckedPast(s, p, r, after) && AllHarmless(s, p, r)
    ensures Settled(After(s, p, r, after), p)
  {
    var u := After(s, p, r, after);
    AckedPastIsSettledExactly(s, p, r, after);
    AckedIsThrough(u, p, |s.attempts|);
    forall k: nat | s.positions[p] <= k < s.positions[p] + r
      ensures Through(u.claims, s.logs[p][k])
    {
      assert Harmless(s.claims, s.logs[p][k], s.logs[p][s.positions[p] + r]);
    }
  }

  /** Everything else in flight crashes, and the bridge handles the next message: that alone settles nothing more. */
  lemma AckAlone(s: State, p: nat, r: nat) returns (after: seq<Step>)
    requires Due(s, p, r) && Handleable(s.template, s.claims, s.logs[p][s.positions[p] + r])
    ensures AckedPast(s, p, r, after)
    ensures After(s, p, r, after).claims == s.claims + ClaimFor(s.logs[p][s.positions[p] + r])
  {
    var n, o := |s.attempts|, s.positions[p] + r;
    var d := AfterDelivery(s, p, r);
    var first, t := Silence(d, 0, n);
    var before := t.attempts[..n];
    assert t.attempts == before + t.attempts[n..] && d.attempts[n..] == [Start(Kafka(p, o), s.logs[p][o])];
    var second, u := Process(t, before, p, o, s.logs[p][o]);
    LeadsOn(d, first, t, second, u);
    after := first + second;
    DeliveryRuns(s, p, r);
    RunConcat(s, Passing(p, r, s.positions[p]), after);
  }

  lemma HarmfulIsOpen(claims: set<Key>, refused: Message, delivered: Message)
    requires !Harmless(claims, refused, delivered)
    ensures !Through(claims + ClaimFor(delivered), refused)
  {
  }

  lemma HarmfulIsLost(s: State, p: nat, r: nat) returns (after: seq<Step>)
    requires Due(s, p, r) && Handleable(s.template, s.claims, s.logs[p][s.positions[p] + r]) && !AllHarmless(s, p, r)
    ensures AckedPast(s, p, r, after) && !Settled(After(s, p, r, after), p)
  {
    after := AckAlone(s, p, r);
    AckedPastIsSettledExactly(s, p, r, after);
    var k: nat :| s.positions[p] <= k < s.positions[p] + r
      && !Harmless(s.claims, s.logs[p][k], s.logs[p][s.positions[p] + r]);
    HarmfulIsOpen(s.claims, s.logs[p][k], s.logs[p][s.positions[p] + r]);
  }

  /**
    Exactly when refusing the messages that are due does no harm, to be read off before it happens. Let any
    number of them be refused, as an open breaker does, and let the next one be a message that the bridge can
    handle, delivered without a restart. Whatever else may happen short of another delivery of the partition,
    once it is acked everything below the committed offset is settled: if and only if each refused message
    carries no identifier, is claimed already, or carries the identifier of the message delivered. In all
    other cases an event can be lost.
  */
  lemma RefusalIsHarmlessExactly(
      template: Template, consumers: set<string>, partitions: nat, before: seq<Step>, p: nat, r: nat)
    requires BRIDGE !in consumers && OrderlyRun(Init(template, consumers, partitions), before)
    requires var s := Run(Init(template, consumers, partitions), before);
             && p < |s.logs| && p < |s.positions| && p !in s.stale && s.positions[p] + r < |s.logs[p]|
             && (forall i :: 0 <= i < |s.attempts| ==> !Busy(s.attempts[i], p))
             && Handleable(s.template, s.claims, s.logs[p][s.positions[p] + r])
    ensures var s := Run(Init(template, consumers, partitions), before);
            (forall after :: AckedPast(s, p, r, after) ==> Settled(After(s, p, r, after), p)) <==> AllHarmless(s, p, r)
  {
    var s := Run(Init(template, consumers, partitions), before);
    OrderlyInvariants(template, consumers, partitions, before);
    assert Due(s, p, r);
    if AllHarmless(s, p, r) {
      forall after | AckedPast(s, p, r, after)
        ensures Settled(After(s, p, r, after), p)
      {
        HarmlessIsSettled(s, p, r, after);
      }
    } else {
      var after := HarmfulIsLost(s, p, r);
    }
  }

  /** Two rows under their own identifiers, captured into one partition; the first refused, the second delivered. */
  function Refused(template: Template, m: Message, n: Message, mId: string, nId: string): State {
    Filled(template, {}, map[mId := m, nId := n], [[m, n]])
      .(positions := [2], stale := {0}, attempts := [Start(Kafka(0, 1), n)])
  }

  lemma ReachRefused(template: Template, m: Message, n: Message, mId: string, nId: string) returns (steps: seq<Step>)
    requires mId != nId
    ensures Run(Init(template, {}, 1), steps) == Refused(template, m, n, mId, nId)
  {
    var rows := map[mId := m, nId := n];
    var s := Filled(template, {}, rows, [[m, n]]);
    assert rows[mId] == m && rows[nId] == n;
    assert m in rows.Values && n in rows.Values;
    var first := Fill(template, {}, rows, [[m, n]]);
    assert s.positions == [0] && [] + [Start(Kafka(0, 1), n)] == [Start(Kafka(0, 1), n)];
    DeliveryRuns(s, 0, 1);
    assert AfterDelivery(s, 0, 1) == Refused(template, m, n, mId, nId);
    RunConcat(Init(template, {}, 1), first, Passing(0, 1, 0));
    steps := first + Passing(0, 1, 0);
  }

  lemma AckSecond(s: State, n: Message, nId: string) returns (steps: seq<Step>, u: State)
    requires s.attempts == [Start(Kafka(0, 1), n)] && s.offsets == [0] && s.claims == {} && s.rabbit == []
    requires BridgeIdOf(n) == Id(nId) && BuildRoutingKey(s.template, n).Some?
    ensures Run(s, steps) == u
    ensures u == s.(attempts := u.attempts, offsets := [2], claims := {Key(BRIDGE, nId)},
                    rabbit := [Entry(0, 1, nId, n, 0)], history := u.history)
    ensures forall i :: 0 <= i < |u.attempts| ==> !Live(u.attempts[i])
  {
    assert s.attempts == [] + [Start(Kafka(0, 1), n)];
    steps, u := Process(s, [], 0, 1, n);
    assert [] + [Entry(0, 1, nId, n, 0)] == [Entry(0, 1, nId, n, 0)];
    assert {} + {Key(BRIDGE, nId)} == {Key(BRIDGE, nId)};
    assert s.offsets[0 := 2] == [2];
  }

  /** Such a loss, for any two events that the bridge could forward: the first is gone, the second forwarded. */
  lemma RefusedDeliveryIsLost(template: Template, m: Message, n: Message, mId: string, nId: string)
      returns (steps: seq<Step>)
    requires BridgeIdOf(m) == Id(mId) && BridgeIdOf(n) == Id(nId) && mId != nId
    requires BuildRoutingKey(template, m).Some? && BuildRoutingKey(template, n).Some?
    ensures var u := Run(Init(template, {}, 1), steps);
            && u.rows == map[mId := m, nId := n] && u.logs == [[m, n]] && u.offsets == [2] && u.positions == [2]
            && u.claims == {Key(BRIDGE, nId)} && u.rabbit == [Entry(0, 1, nId, n, 0)]
            && forall i :: 0 <= i < |u.attempts| ==> !Live(u.attempts[i])
  {
    var s := Refused(template, m, n, mId, nId);
    var first := ReachRefused(template, m, n, mId, nId);
    assert s.offsets == [0];
    var last, u := AckSecond(s, n, nId);
    RunConcat(Init(template, {}, 1), first, last);
    steps := first + last;
  }
}
