/** What orderly runs can still achieve: from every state they reach, each partition can be handled up to what blocks it. */
module OrderlyProgress {
  import opened Messages
  import opened Routing
  import opened Pipeline
  import opened PipelineInvariants
  import opened PipelineSafety
  import opened PartitionOrder
  import opened PartitionRefinement
  import opened OrderlySegments

  // ---------------------------------------------------------------------------------------------
  // A stretch of one partition

  ghost predicate OccursIn(log: seq<Message>, lo: int, hi: int, id: string) {
    exists o :: 0 <= lo <= o < hi <= |log| && BridgeIdOf(log[o]) == Id(id)
  }

  ghost predicate AllHandleable(template: Template, claims: set<Key>, log: seq<Message>, lo: int, hi: int) {
    forall o :: 0 <= lo <= o < hi <= |log| ==> Handleable(template, claims, log[o])
  }

  /** The identifiers in the stretch are claimed now; those that were not before have been published from here. */
  ghost predicate Claimed(claims: set<Key>, claims': set<Key>, log: seq<Message>, lo: int, hi: int) {
    && claims <= claims'
    && forall id :: Key(BRIDGE, id) in claims' <==> Key(BRIDGE, id) in claims || OccursIn(log, lo, hi, id)
  }

  ghost predicate Sent(claims: set<Key>, rabbit: seq<Entry>, rabbit': seq<Entry>, p: nat, log: seq<Message>, lo: int, hi: int) {
    && (forall x :: x in PublishedFrom(rabbit', p) <==>
          x in PublishedFrom(rabbit, p) || (Key(BRIDGE, x) !in claims && OccursIn(log, lo, hi, x)))
    && forall r: nat :: r != p ==> PublishedFrom(rabbit', r) == PublishedFrom(rabbit, r)
  }

  /** Partition p has been handled from its position up to n. */
  ghost predicate Reached(s: State, t: State, p: nat, n: nat)
    requires p < |s.logs| && |s.positions| == |s.offsets| == |s.logs|
  {
    var lo := s.positions[p];
    && t == s.(attempts := t.attempts, positions := s.positions[p := n], claims := t.claims, rabbit := t.rabbit,
               offsets := s.offsets[p := if lo < n then Max(s.offsets[p], n) else s.offsets[p]], history := t.history)
    && Claimed(s.claims, t.claims, s.logs[p], lo, n)
    && Sent(s.claims, s.rabbit, t.rabbit, p, s.logs[p], lo, n)
  }

  lemma OccursInNext(log: seq<Message>, lo: nat, hi: nat, id: string)
    requires lo <= hi < |log|
    ensures OccursIn(log, lo, hi + 1, id) <==> OccursIn(log, lo, hi, id) || BridgeIdOf(log[hi]) == Id(id)
  {
    if OccursIn(log, lo, hi + 1, id) {
      var o :| 0 <= lo <= o < hi + 1 <= |log| && BridgeIdOf(log[o]) == Id(id);
      assert o < hi ==> OccursIn(log, lo, hi, id);
    }
  }

  lemma ClaimedNext(claims: set<Key>, mid: set<Key>, log: seq<Message>, lo: nat, hi: nat)
    requires lo <= hi < |log| && Claimed(claims, mid, log, lo, hi)
    ensures Claimed(claims, mid + ClaimFor(log[hi]), log, lo, hi + 1)
  {
    forall id
      ensures OccursIn(log, lo, hi + 1, id) <==> OccursIn(log, lo, hi, id) || BridgeIdOf(log[hi]) == Id(id)
    {
      OccursInNext(log, lo, hi, id);
    }
  }

  lemma PublishedFromAppend(rabbit: seq<Entry>, e: Entry, p: nat)
    ensures PublishedFrom(rabbit + [e], p) == PublishedFrom(rabbit, p) + if e.partition == p then [e.id] else []
  {
    assert (rabbit + [e])[..|rabbit|] == rabbit;
  }

  lemma EntrySent(claims: set<Key>, rabbit: seq<Entry>, p: nat, o: nat, m: Message, n: nat, x: string)
    ensures var after := rabbit + EntryFor(claims, p, o, m, n);
            x in PublishedFrom(after, p) <==>
              x in PublishedFrom(rabbit, p) || (BridgeIdOf(m) == Id(x) && Key(BRIDGE, x) !in claims)
    ensures forall r: nat :: r != p ==> PublishedFrom(rabbit + EntryFor(claims, p, o, m, n), r) == PublishedFrom(rabbit, r)
  {
    var more := EntryFor(claims, p, o, m, n);
    if more == [] {
      assert rabbit + more == rabbit;
    } else {
      PublishedFromAppend(rabbit, more[0], p);
      assert more == [more[0]];
      forall r: nat | r != p
        ensures PublishedFrom(rabbit + more, r) == PublishedFrom(rabbit, r)
      {
        PublishedFromAppend(rabbit, more[0], r);
      }
    }
  }

  lemma SentNext(
      claims: set<Key>, mid: set<Key>, rabbit: seq<Entry>, sofar: seq<Entry>, p: nat, log: seq<Message>,
      lo: nat, hi: nat, n: nat)
    requires lo <= hi < |log| && Claimed(claims, mid, log, lo, hi) && Sent(claims, rabbit, sofar, p, log, lo, hi)
    ensures Sent(claims, rabbit, sofar + EntryFor(mid, p, hi, log[hi], n), p, log, lo, hi + 1)
  {
    var after := sofar + EntryFor(mid, p, hi, log[hi], n);
    forall x
      ensures x in PublishedFrom(after, p) <==>
        x in PublishedFrom(rabbit, p) || (Key(BRIDGE, x) !in claims && OccursIn(log, lo, hi + 1, x))
    {
      EntrySent(mid, sofar, p, hi, log[hi], n, x);
      OccursInNext(log, lo, hi, x);
    }
    EntrySent(mid, sofar, p, hi, log[hi], n, "");
  }

  /** Without failures the bridge gets through a stretch of handleable messages. */
  lemma {:induction false} HandleUpTo(s: State, p: nat, n: nat) returns (steps: seq<Step>, t: State)
    requires Resting(s) && p < |s.logs| && p !in s.stale && s.positions[p] <= n <= |s.logs[p]|
    requires AllHandleable(s.template, s.claims, s.logs[p], s.positions[p], n)
    ensures Leads(s, steps, t) && Resting(t) && Reached(s, t, p, n)
    decreases n - s.positions[p]
  {
    if s.positions[p] == n {
      steps, t := [], s;
      assert s.positions[p := n] == s.positions && s.offsets[p := s.offsets[p]] == s.offsets;
    } else {
      var most, last, t1;
      most, t1 := HandleUpTo(s, p, n - 1);
      assert Handleable(s.template, s.claims, s.logs[p][n - 1]);
      last, t := HandleNext(t1, p);
      LeadsOn(s, most, t1, last, t);
      steps := most + last;
      ReachedNext(s, t1, t, p, n - 1);
    }
  }

  lemma ReachedNext(s: State, t1: State, t: State, p: nat, n: nat)
    requires p < |s.logs| && |s.positions| == |s.offsets| == |s.logs| && s.positions[p] <= n < |s.logs[p]|
    requires Reached(s, t1, p, n)
    requires t == t1.(attempts := t.attempts, positions := t1.positions[p := n + 1],
                      claims := t1.claims + ClaimFor(s.logs[p][n]),
                      rabbit := t1.rabbit + EntryFor(t1.claims, p, n, s.logs[p][n], |t1.attempts|),
                      offsets := t1.offsets[p := Max(t1.offsets[p], n + 1)], history := t.history)
    ensures Reached(s, t, p, n + 1)
  {
    ClaimedNext(s.claims, t1.claims, s.logs[p], s.positions[p], n);
    SentNext(s.claims, t1.claims, s.rabbit, t1.rabbit, p, s.logs[p], s.positions[p], n, |t1.attempts|);
    assert t.positions == s.positions[p := n + 1];
    assert t.offsets == s.offsets[p := Max(s.offsets[p], n + 1)];
  }

  // ---------------------------------------------------------------------------------------------
  // Every partition to its end

  /** Every partition restarts from its committed offset. */
  lemma {:induction false} RestartFrom(s: State, k: nat) returns (steps: seq<Step>, t: State)
    requires |s.positions| == |s.offsets| == |s.logs| && k <= |s.logs|
    requires forall p: nat :: p < k ==> p !in s.stale && s.positions[p] == s.offsets[p]
    ensures Leads(s, steps, t) && t == s.(positions := s.offsets, stale := t.stale)
    ensures forall p: nat :: p < |s.logs| ==> p !in t.stale
    decreases |s.logs| - k
  {
    if k == |s.logs| {
      steps, t := [], s;
      assert s.positions == s.offsets;
    } else {
      var s1 := s.(positions := s.positions[k := s.offsets[k]], stale := s.stale - {k});
      var first := Then(s, [], s, Restart(k), s1);
      var rest;
      rest, t := RestartFrom(s1, k + 1);
      LeadsOn(s, first, s1, rest, t);
      steps := first + rest;
    }
  }

  /** The messages ahead of the first one that cannot be handled. */
  function Cut(template: Template, claims: set<Key>, log: seq<Message>): seq<Message> {
    if log == [] || !Handleable(template, claims, log[0]) then []
    else [log[0]] + Cut(template, claims, log[1..])
  }

  lemma {:induction false} CutStops(template: Template, claims: set<Key>, log: seq<Message>)
    ensures Cut(template, claims, log) <= log
    ensures AllHandleable(template, claims, log, 0, |Cut(template, claims, log)|)
    ensures var n := |Cut(template, claims, log)|; n < |log| ==> !Handleable(template, claims, log[n])
  {
    if log != [] && Handleable(template, claims, log[0]) {
      CutStops(template, claims, log[1..]);
      var n := |Cut(template, claims, log)|;
      forall o | 0 <= o < n
        ensures Handleable(template, claims, log[o])
      {
        assert 0 < o ==> log[o] == log[1..][o - 1];
      }
    }
  }

  lemma HandleableIsUncut(template: Template, claims: set<Key>, log: seq<Message>)
    requires AllHandleable(template, claims, log, 0, |log|)
    ensures Cut(template, claims, log) == log
  {
    CutStops(template, claims, log);
  }

  /** All messages up to the goals, and not beyond the logs' ends, can be handled. */
  ghost predicate WithinReach(s: State, goals: seq<nat>) {
    && |goals| == |s.logs|
    && forall p :: 0 <= p < |s.logs| ==>
         goals[p] <= |s.logs[p]| && AllHandleable(s.template, s.claims, s.logs[p], 0, goals[p])
  }

  /** Every partition from k on is handled up to its goal. */
  lemma {:induction false} AdvanceFrom(s: State, goals: seq<nat>, k: nat) returns (steps: seq<Step>, t: State)
    requires Resting(s) && WithinReach(s, goals) && k <= |s.logs| && s.positions == s.offsets
    requires forall p: nat :: p < |s.logs| ==> p !in s.stale && s.offsets[p] <= |s.logs[p]|
    requires forall p: nat :: p < k ==> goals[p] <= s.offsets[p]
    ensures Leads(s, steps, t) && Resting(t) && t.logs == s.logs && s.claims <= t.claims
    ensures forall p: nat :: p < |t.logs| ==> goals[p] <= t.offsets[p]
    decreases |s.logs| - k
  {
    if k == |s.logs| {
      steps, t := [], s;
    } else {
      var first, s1 := AdvanceOne(s, goals, k);
      var rest;
      rest, t := AdvanceFrom(s1, goals, k + 1);
      LeadsOn(s, first, s1, rest, t);
      steps := first + rest;
    }
  }

  lemma AdvanceOne(s: State, goals: seq<nat>, k: nat) returns (steps: seq<Step>, t: State)
    requires Resting(s) && WithinReach(s, goals) && k < |s.logs| && s.positions == s.offsets
    requires k !in s.stale && s.offsets[k] <= |s.logs[k]|
    ensures Leads(s, steps, t) && Resting(t) && WithinReach(t, goals)
    ensures t.logs == s.logs && t.stale == s.stale && t.positions == t.offsets && s.claims <= t.claims
    ensures t.offsets == s.offsets[k := Max(s.offsets[k], goals[k])]
  {
    var n: nat := Max(s.offsets[k], goals[k]);
    assert AllHandleable(s.template, s.claims, s.logs[k], 0, goals[k]);
    steps, t := HandleUpTo(s, k, n);
    forall p | 0 <= p < |t.logs|
      ensures goals[p] <= |t.logs[p]| && AllHandleable(t.template, t.claims, t.logs[p], 0, goals[p])
    {
      assert AllHandleable(s.template, s.claims, s.logs[p], 0, goals[p]);
    }
  }

  /** Everything in flight crashes, every partition restarts, and each is handled up to its goal. */
  lemma AdvanceTo(s: State, goals: seq<nat>) returns (steps: seq<Step>, t: State)
    requires Sane(s) && InOrder(s) && WithinReach(s, goals)
    ensures Leads(s, steps, t) && t.logs == s.logs && |t.offsets| == |s.offsets| && s.claims <= t.claims
    ensures forall p: nat :: p < |t.logs| ==> goals[p] <= t.offsets[p]
  {
    var xs, ys, zs;
    var s1, s2;
    xs, s1 := Silence(s, 0, |s.attempts|);
    ys, s2 := RestartFrom(s1, 0);
    forall p: nat | p < |s.logs|
      ensures s.offsets[p] <= |s.logs[p]|
    {
      assert Positioned(s, p);
    }
    forall p | 0 <= p < |s2.logs|
      ensures goals[p] <= |s2.logs[p]| && AllHandleable(s2.template, s2.claims, s2.logs[p], 0, goals[p])
    {
      assert AllHandleable(s.template, s.claims, s.logs[p], 0, goals[p]);
    }
    zs, t := AdvanceFrom(s2, goals, 0);
    LeadsOn(s, xs, s1, ys, s2);
    LeadsOn(s, xs + ys, s2, zs, t);
    steps := xs + ys + zs;
  }

  /**
    Nothing that can happen in an orderly run puts out of reach what could be handled: some orderly
    continuation commits every partition's offset past all messages ahead of the first one that cannot be
    handled, and so has all of their events claimed.
  */
  lemma EveryPartitionCanAdvance(template: Template, consumers: set<string>, partitions: nat, steps: seq<Step>)
      returns (more: seq<Step>)
    requires BRIDGE !in consumers && OrderlyRun(Init(template, consumers, partitions), steps)
    ensures OrderlyRun(Init(template, consumers, partitions), steps + more)
    ensures var s := Run(Init(template, consumers, partitions), steps);
            var t := Run(Init(template, consumers, partitions), steps + more);
            && t.logs == s.logs && |t.offsets| == |t.logs| && s.claims <= t.claims
            && forall p: nat :: p < |s.logs| ==>
                 && |Cut(template, s.claims, s.logs[p])| <= t.offsets[p]
                 && forall id :: Occurs(Cut(template, s.claims, s.logs[p]), id) ==> Key(BRIDGE, id) in t.claims
  {
    var init := Init(template, consumers, partitions);
    var s := Run(init, steps);
    OrderlyInvariants(template, consumers, partitions, steps);
    RunKeepsSetup(init, steps);
    var goals: seq<nat> := seq(|s.logs|, p requires 0 <= p < |s.logs| => |Cut(template, s.claims, s.logs[p])|);
    forall p | 0 <= p < |s.logs|
      ensures goals[p] <= |s.logs[p]| && AllHandleable(s.template, s.claims, s.logs[p], 0, goals[p])
    {
      CutStops(template, s.claims, s.logs[p]);
    }
    var t;
    more, t := AdvanceTo(s, goals);
    LeadsOn(init, steps, s, more, t);
    forall p: nat, id | p < |s.logs| && Occurs(Cut(template, s.claims, s.logs[p]), id)
      ensures Key(BRIDGE, id) in t.claims
    {
      CutStops(template, s.claims, s.logs[p]);
      PassedIsClaimed(template, consumers, partitions, steps + more, p, Cut(template, s.claims, s.logs[p]), id);
    }
  }

  lemma PassedIsClaimed(
      template: Template, consumers: set<string>, partitions: nat, steps: seq<Step>, p: nat, passed: seq<Message>,
      id: string)
    requires BRIDGE !in consumers && OrderlyRun(Init(template, consumers, partitions), steps)
    requires var t := Run(Init(template, consumers, partitions), steps);
             p < |t.logs| && p < |t.offsets| && passed <= t.logs[p] && |passed| <= t.offsets[p]
    requires Occurs(passed, id)
    ensures Key(BRIDGE, id) in Run(Init(template, consumers, partitions), steps).claims
  {
    var o: nat :| o < |passed| && BridgeIdOf(passed[o]) == Id(id);
    CommittedOffsetIsSettled(template, consumers, partitions, steps, p, o);
  }

  ghost predicate AllMessagesHandleable(s: State) {
    forall p :: 0 <= p < |s.logs| ==> AllHandleable(s.template, s.claims, s.logs[p], 0, |s.logs[p]|)
  }

  lemma NothingIsCut(s: State)
    requires AllMessagesHandleable(s)
    ensures forall p :: 0 <= p < |s.logs| ==> Cut(s.template, s.claims, s.logs[p]) == s.logs[p]
  {
    forall p | 0 <= p < |s.logs|
      ensures Cut(s.template, s.claims, s.logs[p]) == s.logs[p]
    {
      assert AllHandleable(s.template, s.claims, s.logs[p], 0, |s.logs[p]|);
      HandleableIsUncut(s.template, s.claims, s.logs[p]);
    }
  }

  lemma OffsetsWithinLogs(template: Template, consumers: set<string>, partitions: nat, steps: seq<Step>)
    requires BRIDGE !in consumers && OrderlyRun(Init(template, consumers, partitions), steps)
    ensures var s := Run(Init(template, consumers, partitions), steps);
            && s.template == template && |s.offsets| == |s.logs|
            && forall p :: 0 <= p < |s.logs| ==> s.offsets[p] <= |s.logs[p]|
  {
    var s := Run(Init(template, consumers, partitions), steps);
    OrderlyInvariants(template, consumers, partitions, steps);
    InitIsSane(template, consumers, partitions);
    RunKeepsSetup(Init(template, consumers, partitions), steps);
    forall p | 0 <= p < |s.logs|
      ensures s.offsets[p] <= |s.logs[p]|
    {
      assert Positioned(s, p);
    }
  }

  /** So if all messages can be handled, all partitions can be brought to their ends. */
  lemma EveryPartitionCanFinish(template: Template, consumers: set<string>, partitions: nat, steps: seq<Step>)
      returns (more: seq<Step>)
    requires BRIDGE !in consumers && OrderlyRun(Init(template, consumers, partitions), steps)
    requires AllMessagesHandleable(Run(Init(template, consumers, partitions), steps))
    ensures OrderlyRun(Init(template, consumers, partitions), steps + more)
    ensures var s := Run(Init(template, consumers, partitions), steps);
            var t := Run(Init(template, consumers, partitions), steps + more);
            && t.logs == s.logs
            && (forall p: nat :: p < |t.logs| ==> p < |t.offsets| && t.offsets[p] == |t.logs[p]|)
            && forall p: nat, id :: p < |t.logs| && Occurs(t.logs[p], id) ==> Key(BRIDGE, id) in t.claims
  {
    OffsetsWithinLogs(template, consumers, partitions, steps);
    more := EveryPartitionCanAdvance(template, consumers, partitions, steps);
    NothingIsCut(Run(Init(template, consumers, partitions), steps));
    OffsetsWithinLogs(template, consumers, partitions, steps + more);
  }
}
