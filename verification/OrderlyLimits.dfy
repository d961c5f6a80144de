/**
  What an orderly run comes to in the end. Once Kafka receives nothing more, the events that can still be
  claimed and the offsets that can still be committed are determined by the logs alone.
*/
module OrderlyLimits {
  import opened Messages
  import opened Routing
  import opened Pipeline
  import opened PipelineInvariants
  import opened PipelineSafety
  import opened PartitionOrder
  import opened PartitionRefinement
  import opened OrderlySegments
  import opened OrderlyProgress

  /** With these claims the bridge gets no further: everything it could handle next is claimed. */
  ghost predicate Exhausted(template: Template, claims: set<Key>, logs: seq<seq<Message>>) {
    forall p, id :: 0 <= p < |logs| && Occurs(Cut(template, claims, logs[p]), id) ==> Key(BRIDGE, id) in claims
  }

  /** The bridge has not come to its limit before the identifier is claimed. */
  ghost predicate Attainable(template: Template, logs: seq<seq<Message>>, id: string) {
    forall claims: set<Key> :: Exhausted(template, claims, logs) ==> Key(BRIDGE, id) in claims
  }

  // ---------------------------------------------------------------------------------------------
  // No orderly run gets past the limit

  ghost predicate HasEntry(s: State, id: string) {
    exists k: nat :: k < |s.rabbit| && s.rabbit[k].id == id
  }

  /** What an orderly run keeps, as far as it is needed here. */
  ghost predicate Tracked(s: State) {
    Sane(s) && InOrder(s) && EntryOrder(s) && forall id :: Key(BRIDGE, id) in s.claims ==> HasEntry(s, id)
  }

  lemma RunIsTracked(template: Template, consumers: set<string>, partitions: nat, steps: seq<Step>)
    requires BRIDGE !in consumers && OrderlyRun(Init(template, consumers, partitions), steps)
    ensures var s := Run(Init(template, consumers, partitions), steps); Tracked(s) && s.template == template
  {
    var init := Init(template, consumers, partitions);
    OrderlyInvariants(template, consumers, partitions, steps);
    InitInOrder(template, consumers, partitions);
    RunKeepsEntryOrder(init, steps);
    RunKeepsSetup(init, steps);
    var s := Run(init, steps);
    forall id | Key(BRIDGE, id) in s.claims
      ensures HasEntry(s, id)
    {
      var q := ClaimedSomewhere(template, consumers, partitions, steps, id);
      var k := ForwardedEntry(s, q, id);
    }
  }

  lemma HandledIsWithin(template: Template, claims: set<Key>, logs: seq<seq<Message>>, p: nat, o: nat)
    requires Exhausted(template, claims, logs) && p < |logs| && o < |logs[p]|
    requires AllHandleable(template, claims, logs[p], 0, o + 1)
    ensures o < |Cut(template, claims, logs[p])| && Through(claims, logs[p][o])
  {
    CutStops(template, claims, logs[p]);
    var cut := Cut(template, claims, logs[p]);
    assert cut[o] == logs[p][o];
    assert BridgeIdOf(logs[p][o]).Id? ==> Occurs(cut, BridgeIdOf(logs[p][o]).id);
  }

  lemma EntryIsRoutable(s: State, k: nat)
    requires Sane(s) && k < |s.rabbit|
    ensures var e := s.rabbit[k];
            && e.partition < |s.logs| && e.offset < |s.logs[e.partition]|
            && BridgeIdOf(s.logs[e.partition][e.offset]) == Id(e.id)
            && BuildRoutingKey(s.template, s.logs[e.partition][e.offset]).Some?
  {
    var e := s.rabbit[k];
    assert EntryFits(s, e);
    assert SourceFits(s, s.attempts[e.attempt]) && PhaseFits(s.template, s.claims, s.attempts[e.attempt]);
  }

  /** What stands below an entry has an earlier entry of its own, if it has an identifier. */
  lemma EntryBefore(s: State, k: nat, o: nat) returns (j: nat)
    requires Tracked(s) && k < |s.rabbit| && Below(s, s.rabbit[k], o)
    ensures var m := s.logs[s.rabbit[k].partition][o];
            !BridgeIdOf(m).BadId? && (BridgeIdOf(m).Id? ==> j < k && s.rabbit[j].id == BridgeIdOf(m).id)
  {
    j := k;
    var m := s.logs[s.rabbit[k].partition][o];
    assert Through(s.claims, m);
    if BridgeIdOf(m).Id? {
      assert HasEntry(s, BridgeIdOf(m).id);
      j :| j < |s.rabbit| && s.rabbit[j].id == BridgeIdOf(m).id;
    }
  }

  /** An event is sent from ahead of the limit: by induction over the entries, so are those before it. */
  lemma {:induction false} EntryWithin(s: State, claims: set<Key>, k: nat)
    requires Tracked(s) && Exhausted(s.template, claims, s.logs) && k < |s.rabbit|
    ensures var e := s.rabbit[k];
            && e.partition < |s.logs| && e.offset < |Cut(s.template, claims, s.logs[e.partition])|
            && Key(BRIDGE, e.id) in claims
    decreases k
  {
    var e := s.rabbit[k];
    EntryIsRoutable(s, k);
    var log := s.logs[e.partition];
    forall o: nat | o <= e.offset
      ensures Handleable(s.template, claims, log[o])
    {
      if o < e.offset {
        var j := EntryBefore(s, k, o);
        if BridgeIdOf(log[o]).Id? {
          EntryWithin(s, claims, j);
        }
      }
    }
    HandledIsWithin(s.template, claims, s.logs, e.partition, e.offset);
  }

  /** Whatever happens in an orderly run, claims and committed offsets stay within every limit. */
  lemma NothingPassesTheLimit(
      template: Template, consumers: set<string>, partitions: nat, steps: seq<Step>, claims: set<Key>)
    requires BRIDGE !in consumers && OrderlyRun(Init(template, consumers, partitions), steps)
    requires Exhausted(template, claims, Run(Init(template, consumers, partitions), steps).logs)
    ensures var s := Run(Init(template, consumers, partitions), steps);
            && (forall id :: Key(BRIDGE, id) in s.claims ==> Key(BRIDGE, id) in claims)
            && |s.offsets| == |s.logs|
            && forall p :: 0 <= p < |s.logs| ==> s.offsets[p] <= |Cut(template, claims, s.logs[p])|
  {
    var s := Run(Init(template, consumers, partitions), steps);
    RunIsTracked(template, consumers, partitions, steps);
    forall id | Key(BRIDGE, id) in s.claims
      ensures Key(BRIDGE, id) in claims
    {
      var k: nat :| k < |s.rabbit| && s.rabbit[k].id == id;
      EntryWithin(s, claims, k);
    }
    forall p | 0 <= p < |s.logs|
      ensures s.offsets[p] <= |Cut(template, claims, s.logs[p])|
    {
      OffsetWithin(s, claims, p);
    }
  }

  lemma OffsetWithin(s: State, claims: set<Key>, p: nat)
    requires InOrder(s) && p < |s.logs| && forall id :: Key(BRIDGE, id) in s.claims ==> Key(BRIDGE, id) in claims
    ensures s.offsets[p] <= |Cut(s.template, claims, s.logs[p])|
  {
    assert Positioned(s, p);
    var n := |Cut(s.template, claims, s.logs[p])|;
    CutStops(s.template, claims, s.logs[p]);
    assert n < s.offsets[p] ==> Through(s.claims, s.logs[p][n]);
  }

  // ---------------------------------------------------------------------------------------------
  // Every orderly run can be brought to the limit

  function Unclaimed(claims: set<Key>, logs: seq<seq<Message>>): set<string> {
    set p, o | 0 <= p < |logs| && 0 <= o < |logs[p]| && BridgeIdOf(logs[p][o]).Id?
      && Key(BRIDGE, BridgeIdOf(logs[p][o]).id) !in claims :: BridgeIdOf(logs[p][o]).id
  }

  lemma SubsetSmaller(xs: set<string>, ys: set<string>, x: string)
    requires xs <= ys && x in ys && x !in xs
    ensures |xs| < |ys|
  {
    SubsetSize(xs, ys - {x});
  }

  lemma {:induction false} SubsetSize(xs: set<string>, ys: set<string>)
    requires xs <= ys
    ensures |xs| <= |ys|
    decreases |xs|
  {
    if xs != {} {
      var x :| x in xs;
      SubsetSize(xs - {x}, ys - {x});
    }
  }

  /** A cut depends on the bridge's claims only. */
  lemma {:induction false} CutsAgree(template: Template, claims: set<Key>, claims': set<Key>, log: seq<Message>)
    requires forall id :: Key(BRIDGE, id) in claims <==> Key(BRIDGE, id) in claims'
    ensures Cut(template, claims, log) == Cut(template, claims', log)
  {
    if log != [] {
      CutsAgree(template, claims, claims', log[1..]);
    }
  }

  /** The claims are at the limit, and every partition's committed offset is as far on as they allow. */
  ghost predicate AtLimit(s: State) {
    && |s.offsets| == |s.logs| && Exhausted(s.template, s.claims, s.logs)
    && forall p :: 0 <= p < |s.logs| ==> s.offsets[p] == |Cut(s.template, s.claims, s.logs[p])|
  }

  lemma ExhaustedSettles(
      template: Template, consumers: set<string>, partitions: nat, steps: seq<Step>, more: seq<Step>)
    requires BRIDGE !in consumers && OrderlyRun(Init(template, consumers, partitions), steps + more)
    requires var s := Run(Init(template, consumers, partitions), steps);
             var t := Run(Init(template, consumers, partitions), steps + more);
             && t.logs == s.logs && |t.offsets| == |t.logs| && s.claims <= t.claims
             && Exhausted(template, s.claims, s.logs)
             && forall p: nat :: p < |s.logs| ==> |Cut(template, s.claims, s.logs[p])| <= t.offsets[p]
    ensures AtLimit(Run(Init(template, consumers, partitions), steps + more))
  {
    var s := Run(Init(template, consumers, partitions), steps);
    var t := Run(Init(template, consumers, partitions), steps + more);
    NothingPassesTheLimit(template, consumers, partitions, steps + more, s.claims);
    RunIsTracked(template, consumers, partitions, steps + more);
    forall p | 0 <= p < |s.logs|
      ensures Cut(template, t.claims, t.logs[p]) == Cut(template, s.claims, s.logs[p])
    {
      CutsAgree(template, t.claims, s.claims, s.logs[p]);
    }
  }

  /** As long as the limit is not reached, one more pass over all partitions claims something more. */
  lemma OnePass(template: Template, consumers: set<string>, partitions: nat, steps: seq<Step>)
      returns (more: seq<Step>)
    requires BRIDGE !in consumers && OrderlyRun(Init(template, consumers, partitions), steps)
    ensures OrderlyRun(Init(template, consumers, partitions), steps + more)
    ensures var s := Run(Init(template, consumers, partitions), steps);
            var t := Run(Init(template, consumers, partitions), steps + more);
            t.logs == s.logs && (AtLimit(t) || |Unclaimed(t.claims, s.logs)| < |Unclaimed(s.claims, s.logs)|)
  {
    var s := Run(Init(template, consumers, partitions), steps);
    more := EveryPartitionCanAdvance(template, consumers, partitions, steps);
    if Exhausted(template, s.claims, s.logs) {
      ExhaustedSettles(template, consumers, partitions, steps, more);
    } else {
      var p, id :| 0 <= p < |s.logs| && Occurs(Cut(template, s.claims, s.logs[p]), id) && Key(BRIDGE, id) !in s.claims;
      var t := Run(Init(template, consumers, partitions), steps + more);
      LessUnclaimed(template, s.claims, t.claims, s.logs, p, id);
    }
  }

  lemma {:induction false} SettleFrom(
      template: Template, consumers: set<string>, partitions: nat, steps: seq<Step>, s: State)
      returns (more: seq<Step>, t: State)
    requires BRIDGE !in consumers && Leads(Init(template, consumers, partitions), steps, s)
    ensures Leads(Init(template, consumers, partitions), steps + more, t) && t.logs == s.logs && AtLimit(t)
    decreases |Unclaimed(s.claims, s.logs)|
  {
    more := OnePass(template, consumers, partitions, steps);
    t := Run(Init(template, consumers, partitions), steps + more);
    if !AtLimit(t) {
      var rest;
      rest, t := SettleFrom(template, consumers, partitions, steps + more, t);
      assert steps + more + rest == steps + (more + rest);
      more := more + rest;
    }
  }

  lemma LessUnclaimed(
      template: Template, claims: set<Key>, claims': set<Key>, logs: seq<seq<Message>>, p: nat, id: string)
    requires claims <= claims' && p < |logs| && Occurs(Cut(template, claims, logs[p]), id)
    requires Key(BRIDGE, id) !in claims && Key(BRIDGE, id) in claims'
    ensures |Unclaimed(claims', logs)| < |Unclaimed(claims, logs)|
  {
    CutStops(template, claims, logs[p]);
    var cut := Cut(template, claims, logs[p]);
    var o: nat :| o < |cut| && BridgeIdOf(cut[o]) == Id(id);
    assert BridgeIdOf(logs[p][o]) == Id(id);
    SubsetSmaller(Unclaimed(claims', logs), Unclaimed(claims, logs), id);
  }

  /**
    What an orderly run can come to does not depend on what has happened in it. From every state it reaches,
    whatever has failed, crashed or restarted, some orderly continuation claims exactly the identifiers that
    are attainable, which the logs alone determine, and commits every partition exactly up to the first
    message that the bridge cannot handle even then.
  */
  lemma OutcomeIsDetermined(template: Template, consumers: set<string>, partitions: nat, steps: seq<Step>)
      returns (more: seq<Step>)
    requires BRIDGE !in consumers && OrderlyRun(Init(template, consumers, partitions), steps)
    ensures OrderlyRun(Init(template, consumers, partitions), steps + more)
    ensures var s := Run(Init(template, consumers, partitions), steps);
            var t := Run(Init(template, consumers, partitions), steps + more);
            && t.logs == s.logs && |t.offsets| == |t.logs|
            && (forall id :: Key(BRIDGE, id) in t.claims <==> Attainable(template, s.logs, id))
            && forall p :: 0 <= p < |t.logs| ==> t.offsets[p] == |Cut(template, t.claims, t.logs[p])|
  {
    var t;
    more, t := SettleFrom(template, consumers, partitions, steps, Run(Init(template, consumers, partitions), steps));
    RunIsTracked(template, consumers, partitions, steps + more);
    ClaimedIsAttainable(template, consumers, partitions, steps + more);
  }

  lemma ClaimedIsAttainable(template: Template, consumers: set<string>, partitions: nat, steps: seq<Step>)
    requires BRIDGE !in consumers && OrderlyRun(Init(template, consumers, partitions), steps)
    ensures var s := Run(Init(template, consumers, partitions), steps);
            forall id :: Key(BRIDGE, id) in s.claims ==> Attainable(template, s.logs, id)
  {
    var s := Run(Init(template, consumers, partitions), steps);
    forall claims: set<Key> | Exhausted(template, claims, s.logs)
      ensures forall id :: Key(BRIDGE, id) in s.claims ==> Key(BRIDGE, id) in claims
    {
      NothingPassesTheLimit(template, consumers, partitions, steps, claims);
    }
  }

  /** In every orderly run: exactly the attainable identifiers can still be claimed with what Kafka holds. */
  lemma ClaimableInOrderExactly(
      template: Template, consumers: set<string>, partitions: nat, steps: seq<Step>, id: string)
    requires BRIDGE !in consumers && OrderlyRun(Init(template, consumers, partitions), steps)
    ensures var init := Init(template, consumers, partitions);
            var logs := Run(init, steps).logs;
            (exists more :: ClaimsInOrder(init, steps + more, logs, id)) <==> Attainable(template, logs, id)
  {
    var init := Init(template, consumers, partitions);
    var logs := Run(init, steps).logs;
    if Attainable(template, logs, id) {
      var more := OutcomeIsDetermined(template, consumers, partitions, steps);
      assert ClaimsInOrder(init, steps + more, logs, id);
    }
    forall more | ClaimsInOrder(init, steps + more, logs, id)
      ensures Attainable(template, logs, id)
    {
      ClaimedIsAttainable(template, consumers, partitions, steps + more);
    }
  }

  ghost predicate ClaimsInOrder(init: State, steps: seq<Step>, logs: seq<seq<Message>>, id: string) {
    OrderlyRun(init, steps) && Run(init, steps).logs == logs && Key(BRIDGE, id) in Run(init, steps).claims
  }
}
