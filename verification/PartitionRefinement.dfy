/** When the stream that RabbitMQ receives from a partition is the partition's own order. */
module PartitionRefinement {
  import opened Messages
  import opened Routing
  import opened Pipeline
  import opened PipelineInvariants
  import opened PipelineSafety
  import opened PartitionOrder

  /**
    The logs let some event of partition p be overtaken: another partition holds it ahead of an event that
    comes later in p, so that it can be forwarded from there while the later one still has to come from p.
  */
  ghost predicate Overtakable(logs: seq<seq<Message>>, p: nat) {
    p < |logs| && exists q: nat, o: nat, i: nat, j: nat :: OvertakenAt(logs, p, q, o, i, j)
  }

  ghost predicate OvertakenAt(logs: seq<seq<Message>>, p: nat, q: nat, o: nat, i: nat, j: nat)
    requires p < |logs|
  {
    var ids := FirstIds(logs[p]);
    && q < |logs| && q != p && i < j < |ids|
    && o < |logs[q]| && BridgeIdOf(logs[q][o]) == Id(ids[i])
    && !Occurs(logs[q][..o], ids[j])
  }

  // ---------------------------------------------------------------------------------------------
  // The order of entries

  /** Whatever stands below an entry's offset has been dealt with, and no entry after it carries it. */
  ghost predicate EntryOrder(s: State) {
    forall k, l, o :: 0 <= k <= l < |s.rabbit| && Below(s, s.rabbit[k], o) ==>
      var m := s.logs[s.rabbit[k].partition][o];
      Through(s.claims, m) && BridgeIdOf(m) != Id(s.rabbit[l].id)
  }

  predicate Below(s: State, e: Entry, o: int) {
    e.partition < |s.logs| && 0 <= o < e.offset && o < |s.logs[e.partition]|
  }

  lemma BelowStays(s: State, s': State, e: Entry, o: int)
    requires EntryFits(s, e) && Sane(s) && Below(s', e, o)
    requires |s'.logs| == |s.logs| && forall p :: 0 <= p < |s.logs| ==> s.logs[p] <= s'.logs[p]
    ensures Below(s, e, o) && s'.logs[e.partition][o] == s.logs[e.partition][o]
  {
    assert SourceFits(s, s.attempts[e.attempt]);
  }

  lemma GrowthKeepsEntryOrder(s: State, s': State)
    requires Sane(s) && EntryOrder(s) && s'.rabbit == s.rabbit && s.claims <= s'.claims
    requires |s'.logs| == |s.logs| && forall p :: 0 <= p < |s.logs| ==> s.logs[p] <= s'.logs[p]
    ensures EntryOrder(s')
  {
    forall k, l, o | 0 <= k <= l < |s'.rabbit| && Below(s', s'.rabbit[k], o)
      ensures var m := s'.logs[s'.rabbit[k].partition][o];
              Through(s'.claims, m) && BridgeIdOf(m) != Id(s'.rabbit[l].id)
    {
      BelowStays(s, s', s.rabbit[k], o);
    }
  }

  /** The new entry's event is unclaimed, and everything below its offset is through. */
  lemma PublishKeepsEntryOrder(s: State, s': State, e: Entry)
    requires EntryOrder(s) && s'.rabbit == s.rabbit + [e] && s'.claims == s.claims && s'.logs == s.logs
    requires Key(BRIDGE, e.id) !in s.claims
    requires e.partition < |s.logs| && ThroughUpTo(s.claims, s.logs[e.partition], e.offset)
    ensures EntryOrder(s')
  {
    forall k, l, o | 0 <= k <= l < |s'.rabbit| && Below(s', s'.rabbit[k], o)
      ensures var m := s'.logs[s'.rabbit[k].partition][o];
              Through(s'.claims, m) && BridgeIdOf(m) != Id(s'.rabbit[l].id)
    {
      if k == |s.rabbit| {
        assert Through(s.claims, s.logs[e.partition][o]);
      } else {
        assert Below(s, s.rabbit[k], o);
        assert k <= k < |s.rabbit|;
      }
    }
  }

  lemma MoveKeepsEntryOrder(s: State, s': State, i: nat)
    requires Sane(s) && InOrder(s) && EntryOrder(s) && Legal(s, s', i) && Live(s.attempts[i])
    ensures EntryOrder(s')
  {
    if s'.rabbit == s.rabbit {
      GrowthKeepsEntryOrder(s, s');
    } else {
      PublisherUnclaimed(s, s', i);
      var e := s'.rabbit[|s.rabbit|];
      assert SourceFits(s, s.attempts[i]);
      assert Positioned(s, e.partition) && Busy(s.attempts[i], e.partition);
      PublishKeepsEntryOrder(s, s', e);
    }
  }

  lemma ShiftKeepsEntryOrder(s: State, s': State, step: Step)
    requires Sane(s) && InOrder(s) && EntryOrder(s) && Shifts(s, s', step)
    ensures EntryOrder(s')
  {
    if Enabled(s, step) {
      MoveKeepsEntryOrder(s, s', step.attempt);
    } else {
      forall p | 0 <= p < |s.logs|
        ensures s.logs[p] <= s'.logs[p]
      {
        assert !Delivers(s, step) ==> Settles(s, s', p);
      }
      GrowthKeepsEntryOrder(s, s');
    }
  }

  lemma {:induction false} RunKeepsEntryOrder(s: State, steps: seq<Step>)
    requires Sane(s) && InOrder(s) && EntryOrder(s) && OrderlyRun(s, steps)
    ensures EntryOrder(Run(s, steps))
    decreases |steps|
  {
    if steps != [] {
      StepShifts(s, steps[0]);
      ShiftKeepsEntryOrder(s, Apply(s, steps[0]), steps[0]);
      StepKeepsSane(s, steps[0]);
      StepKeepsInOrder(s, steps[0]);
      RunKeepsEntryOrder(Apply(s, steps[0]), steps[1..]);
    }
  }

  // ---------------------------------------------------------------------------------------------
  // Events forwarded from elsewhere

  lemma {:induction false} PublishedFromEntry(rabbit: seq<Entry>, p: nat, id: string) returns (k: nat)
    requires id in PublishedFrom(rabbit, p)
    ensures k < |rabbit| && rabbit[k].id == id && rabbit[k].partition == p
  {
    k := |rabbit| - 1;
    if !(rabbit[k].partition == p && rabbit[k].id == id) {
      k := PublishedFromEntry(rabbit[..k], p, id);
    }
  }

  lemma ForwardedEntry(s: State, p: nat, id: string) returns (k: nat)
    requires Sane(s) && id in Forwarded(s, p)
    ensures k < |s.rabbit| && s.rabbit[k].id == id && s.rabbit[k].partition == p
    ensures p < |s.logs| && s.rabbit[k].offset < |s.logs[p]| && BridgeIdOf(s.logs[p][s.rabbit[k].offset]) == Id(id)
  {
    DestutterMembers(PublishedFrom(s.rabbit, p), id);
    k := PublishedFromEntry(s.rabbit, p, id);
    assert EntryFits(s, s.rabbit[k]);
    assert SourceFits(s, s.attempts[s.rabbit[k].attempt]);
  }

  /** RabbitMQ received the identifier from another partition. */
  ghost predicate ForwardedElsewhere(s: State, p: nat, id: string) {
    exists q: nat :: q < |s.logs| && q != p && id in Forwarded(s, q)
  }

  /** An identifier that only another partition forwarded stands before one that was forwarded from here. */
  ghost predicate Overtaken(s: State, p: nat)
    requires p < |s.logs|
  {
    var ids := FirstIds(s.logs[p]);
    exists i: nat, j: nat :: i < j < |ids| && ids[j] in Forwarded(s, p) && ForwardedElsewhere(s, p, ids[i])
  }

  lemma {:induction false} LastKept(xs: seq<string>, keep: seq<string>) returns (n: nat)
    ensures n <= |xs| && (0 < n ==> xs[n - 1] in keep)
    ensures forall i :: n <= i < |xs| ==> xs[i] !in keep
  {
    n := |xs|;
    if xs != [] && xs[|xs| - 1] !in keep {
      n := LastKept(xs[..|xs| - 1], keep);
    }
  }

  lemma KeptIsPrefix(xs: seq<string>, keep: seq<string>, n: nat)
    requires n <= |xs| && Kept(xs, keep) == keep
    requires forall i :: 0 <= i < n ==> xs[i] in keep
    requires forall i :: n <= i < |xs| ==> xs[i] !in keep
    ensures keep == xs[..n]
  {
    assert xs == xs[..n] + xs[n..];
    KeptConcat(xs[..n], xs[n..], keep);
    KeptAll(xs[..n], keep);
    KeptNone(xs[n..], keep);
  }

  /** If nothing was overtaken, what was forwarded is a prefix of what there is to forward. */
  lemma NotOvertakenIsPrefix(s: State, p: nat, k: nat)
    requires p < |s.logs| && Explains(s.claims, s.logs[p], Forwarded(s, p), k)
    requires forall id :: Key(BRIDGE, id) in s.claims ==> id in Forwarded(s, p) || ForwardedElsewhere(s, p, id)
    requires !Overtaken(s, p)
    ensures Forwarded(s, p) <= FirstIds(s.logs[p])
  {
    var ids, sent := FirstIds(s.logs[p][..k]), Forwarded(s, p);
    FirstIdsPrefix(s.logs[p], k);
    var n := LastKept(ids, sent);
    forall i: nat | i < n
      ensures ids[i] in sent
    {
      assert FirstIds(s.logs[p])[i] == ids[i] && FirstIds(s.logs[p])[n - 1] == ids[n - 1];
    }
    KeptIsPrefix(ids, sent, n);
  }

  /** In a log's own order, what comes first among the identifiers occurs below whatever comes later. */
  lemma FirstIdsOrder(log: seq<Message>, i: nat, j: nat, o: nat)
    requires i < j < |FirstIds(log)| && o < |log| && BridgeIdOf(log[o]) == Id(FirstIds(log)[j])
    ensures Occurs(log[..o], FirstIds(log)[i])
  {
    var ids, upto := FirstIds(log), FirstIds(log[..o + 1]);
    FirstIdsPrefix(log, o + 1);
    FirstIdsDistinct(log);
    assert BridgeIdOf(log[..o + 1][o]) == Id(ids[j]);
    FirstIdsMembers(log[..o + 1], ids[j]);
    var m :| 0 <= m < |upto| && upto[m] == ids[j];
    assert m == j && upto[i] == ids[i];
    FirstIdsMembers(log[..o + 1], ids[i]);
    OccursSplit(log[..o + 1], ids[i]);
    assert log[..o + 1][..o] == log[..o];
  }

  /** Everything was sent from these beginnings of the logs. */
  ghost predicate SentWithin(s: State, cuts: seq<seq<Message>>) {
    && |cuts| == |s.logs| && (forall q :: 0 <= q < |cuts| ==> cuts[q] <= s.logs[q])
    && forall k :: 0 <= k < |s.rabbit| ==>
         s.rabbit[k].partition < |cuts| && s.rabbit[k].offset < |cuts[s.rabbit[k].partition]|
  }

  lemma SentWithinLogs(s: State)
    requires Sane(s)
    ensures SentWithin(s, s.logs)
  {
    forall k | 0 <= k < |s.rabbit|
      ensures s.rabbit[k].partition < |s.logs| && s.rabbit[k].offset < |s.logs[s.rabbit[k].partition]|
    {
      assert EntryFits(s, s.rabbit[k]);
      assert SourceFits(s, s.attempts[s.rabbit[k].attempt]);
    }
  }

  /** A beginning of the log that has a first occurrence has those before it. */
  lemma FirstIdsWithin(log: seq<Message>, cut: seq<Message>, j: nat, o: nat)
    requires cut <= log && j < |FirstIds(log)| && o < |cut| && BridgeIdOf(log[o]) == Id(FirstIds(log)[j])
    ensures j < |FirstIds(cut)| && FirstIds(cut) <= FirstIds(log)
  {
    FirstIdsPrefix(log, |cut|);
    FirstIdsDistinct(log);
    assert log[..|cut|] == cut && BridgeIdOf(cut[o]) == Id(FirstIds(log)[j]);
    FirstIdsMembers(cut, FirstIds(log)[j]);
    var m :| 0 <= m < |FirstIds(cut)| && FirstIds(cut)[m] == FirstIds(log)[j];
    assert m == j;
  }

  /** What was overtaken in a run could be overtaken by the logs alone, as far as they were sent. */
  lemma OvertakenIsOvertakable(s: State, cuts: seq<seq<Message>>, p: nat)
    requires Sane(s) && EntryOrder(s) && p < |s.logs| && Overtaken(s, p) && SentWithin(s, cuts)
    ensures Overtakable(cuts, p)
  {
    var ids := FirstIds(s.logs[p]);
    var i: nat, j: nat :| i < j < |ids| && ids[j] in Forwarded(s, p) && ForwardedElsewhere(s, p, ids[i]);
    var q: nat :| q < |s.logs| && q != p && ids[i] in Forwarded(s, q);
    var a := ForwardedEntry(s, q, ids[i]);
    var b := ForwardedEntry(s, p, ids[j]);
    FirstIdsOrder(s.logs[p], i, j, s.rabbit[b].offset);
    EarlierEntry(s, a, b);
    AheadOf(s, a, b);
    FirstIdsWithin(s.logs[p], cuts[p], j, s.rabbit[b].offset);
    OvertakenWithin(s.logs, cuts, p, q, s.rabbit[a].offset, i, j);
  }

  lemma OvertakenWithin(
      logs: seq<seq<Message>>, cuts: seq<seq<Message>>, p: nat, q: nat, o: nat, i: nat, j: nat)
    requires |cuts| == |logs| && p < |logs| && q < |logs| && cuts[q] <= logs[q] && o < |cuts[q]|
    requires OvertakenAt(logs, p, q, o, i, j)
    requires j < |FirstIds(cuts[p])| && FirstIds(cuts[p]) <= FirstIds(logs[p])
    ensures OvertakenAt(cuts, p, q, o, i, j)
  {
    assert cuts[q][..o] == logs[q][..o];
  }

  /** An entry precedes any entry whose offset it lies below. */
  lemma EarlierEntry(s: State, a: nat, b: nat)
    requires EntryOrder(s) && a < |s.rabbit| && b < |s.rabbit|
    requires s.rabbit[b].partition < |s.logs| && s.rabbit[b].offset <= |s.logs[s.rabbit[b].partition]|
    requires Occurs(s.logs[s.rabbit[b].partition][..s.rabbit[b].offset], s.rabbit[a].id)
    ensures a < b
  {
    var below := s.logs[s.rabbit[b].partition][..s.rabbit[b].offset];
    var o :| 0 <= o < |below| && BridgeIdOf(below[o]) == Id(s.rabbit[a].id);
    assert Below(s, s.rabbit[b], o);
  }

  /** An entry's event does not occur below the offset of an earlier entry. */
  lemma AheadOf(s: State, a: nat, b: nat)
    requires EntryOrder(s) && a < b < |s.rabbit|
    requires s.rabbit[a].partition < |s.logs| && s.rabbit[a].offset <= |s.logs[s.rabbit[a].partition]|
    ensures !Occurs(s.logs[s.rabbit[a].partition][..s.rabbit[a].offset], s.rabbit[b].id)
  {
    var below := s.logs[s.rabbit[a].partition][..s.rabbit[a].offset];
    if Occurs(below, s.rabbit[b].id) {
      var o :| 0 <= o < |below| && BridgeIdOf(below[o]) == Id(s.rabbit[b].id);
      assert Below(s, s.rabbit[a], o);
      assert false;
    }
  }

  // ---------------------------------------------------------------------------------------------
  // The results

  lemma {:induction false} PositivePublications(rabbit: seq<Entry>, id: string) returns (k: nat)
    requires 0 < Publications(rabbit, id)
    ensures k < |rabbit| && rabbit[k].id == id
  {
    k := |rabbit| - 1;
    if rabbit[k].id != id {
      k := PositivePublications(rabbit[..k], id);
    }
  }

  /** A claimed identifier was forwarded from some partition in which it occurs. */
  lemma ClaimedSomewhere(
      template: Template, consumers: set<string>, partitions: nat, steps: seq<Step>, id: string) returns (q: nat)
    requires BRIDGE !in consumers
    requires Key(BRIDGE, id) in Run(Init(template, consumers, partitions), steps).claims
    ensures var s := Run(Init(template, consumers, partitions), steps);
            q < |s.logs| && Occurs(s.logs[q], id) && id in Forwarded(s, q)
  {
    var s := Run(Init(template, consumers, partitions), steps);
    PublishConservation(template, consumers, partitions, steps, id);
    RunKeepsSane(Init(template, consumers, partitions), steps);
    var k := PositivePublications(s.rabbit, id);
    var e := s.rabbit[k];
    assert EntryFits(s, e);
    assert SourceFits(s, s.attempts[e.attempt]);
    assert BridgeIdOf(s.logs[e.partition][e.offset]) == Id(id);
    PublishedFromMembers(s.rabbit, e.partition, k);
    DestutterMembers(PublishedFrom(s.rabbit, e.partition), id);
    q := e.partition;
  }

  lemma ClaimsAreForwarded(
      template: Template, consumers: set<string>, partitions: nat, steps: seq<Step>, p: nat)
    requires BRIDGE !in consumers
    ensures var s := Run(Init(template, consumers, partitions), steps);
            forall id :: Key(BRIDGE, id) in s.claims ==> id in Forwarded(s, p) || ForwardedElsewhere(s, p, id)
  {
    var s := Run(Init(template, consumers, partitions), steps);
    forall id | Key(BRIDGE, id) in s.claims
      ensures id in Forwarded(s, p) || ForwardedElsewhere(s, p, id)
    {
      var q := ClaimedSomewhere(template, consumers, partitions, steps, id);
    }
  }

  /** As far as the logs were sent, it is enough that they let no event be overtaken. */
  lemma ForwardingRefinesWithin(
      template: Template, consumers: set<string>, partitions: nat, steps: seq<Step>, cuts: seq<seq<Message>>, p: nat)
    requires BRIDGE !in consumers && OrderlyRun(Init(template, consumers, partitions), steps)
    requires var s := Run(Init(template, consumers, partitions), steps);
             p < |s.logs| && SentWithin(s, cuts) && !Overtakable(cuts, p)
    ensures var s := Run(Init(template, consumers, partitions), steps); Forwarded(s, p) <= FirstIds(s.logs[p])
  {
    var init := Init(template, consumers, partitions);
    var s := Run(init, steps);
    ForwardingOrder(template, consumers, partitions, steps, p);
    var k: nat :| Explains(s.claims, s.logs[p], Forwarded(s, p), k);
    OrderlyInvariants(template, consumers, partitions, steps);
    InitInOrder(template, consumers, partitions);
    RunKeepsEntryOrder(init, steps);
    ClaimsAreForwarded(template, consumers, partitions, steps, p);
    if Overtaken(s, p) {
      OvertakenIsOvertakable(s, cuts, p);
    }
    NotOvertakenIsPrefix(s, p, k);
  }

  /**
    Unless the logs let an event be overtaken, then whatever fails, crashes and restarts, the stream that
    RabbitMQ receives from a partition is, up to consecutive repeats, a prefix of the partition's first
    occurrences.
  */
  lemma ForwardingRefinesPartition(
      template: Template, consumers: set<string>, partitions: nat, steps: seq<Step>, p: nat)
    requires BRIDGE !in consumers && OrderlyRun(Init(template, consumers, partitions), steps)
    requires var s := Run(Init(template, consumers, partitions), steps); p < |s.logs| && !Overtakable(s.logs, p)
    ensures var s := Run(Init(template, consumers, partitions), steps); Forwarded(s, p) <= FirstIds(s.logs[p])
  {
    var s := Run(Init(template, consumers, partitions), steps);
    OrderlyInvariants(template, consumers, partitions, steps);
    SentWithinLogs(s);
    ForwardingRefinesWithin(template, consumers, partitions, steps, s.logs, p);
  }

  /** No identifier of p occurs in another partition. */
  ghost predicate Unshared(logs: seq<seq<Message>>, p: nat)
    requires p < |logs|
  {
    forall q: nat, id :: q < |logs| && Occurs(logs[p], id) && Occurs(logs[q], id) ==> q == p
  }

  /** Then none of its events can be overtaken. */
  lemma UnsharedIsNotOvertakable(logs: seq<seq<Message>>, p: nat)
    requires p < |logs| && Unshared(logs, p)
    ensures !Overtakable(logs, p)
  {
    forall q: nat, o: nat, i: nat, j: nat
      ensures !OvertakenAt(logs, p, q, o, i, j)
    {
      if OvertakenAt(logs, p, q, o, i, j) {
        FirstIdsMembers(logs[p], FirstIds(logs[p])[i]);
      }
    }
  }

  /**
    Everything below a partition's committed offset is settled: the message carries no identifier, or its
    claim is committed and RabbitMQ has the event.
  */
  lemma CommittedOffsetIsSettled(
      template: Template, consumers: set<string>, partitions: nat, steps: seq<Step>, p: nat, o: nat)
    requires BRIDGE !in consumers && OrderlyRun(Init(template, consumers, partitions), steps)
    requires var s := Run(Init(template, consumers, partitions), steps); p < |s.offsets| && o < s.offsets[p]
    ensures var s := Run(Init(template, consumers, partitions), steps);
            && p < |s.logs| && o < |s.logs[p]|
            && match BridgeIdOf(s.logs[p][o])
               case NoId => true
               case BadId => false
               case Id(id) => Key(BRIDGE, id) in s.claims && 0 < Publications(s.rabbit, id)
  {
    var s := Run(Init(template, consumers, partitions), steps);
    OrderlyInvariants(template, consumers, partitions, steps);
    assert Positioned(s, p);
    assert Through(s.claims, s.logs[p][o]);
    if BridgeIdOf(s.logs[p][o]).Id? {
      PublishConservation(template, consumers, partitions, steps, BridgeIdOf(s.logs[p][o]).id);
    }
  }

  lemma WholePrefix(sent: seq<string>, all: seq<string>)
    requires sent <= all && forall x :: x in all ==> x in sent
    requires forall i, j :: 0 <= i < j < |all| ==> all[i] != all[j]
    ensures sent == all
  {
    if all != [] {
      var n := |all| - 1;
      assert all[n] in all;
      var m :| 0 <= m < |sent| && sent[m] == all[n];
      assert m == n;
    }
  }

  /**
    So a partition whose offset is committed to the end has been forwarded completely: each of its events
    from here or from another partition that holds it, and all from here, in its own order, if no other does.
  */
  lemma FullyConsumedIsForwarded(
      template: Template, consumers: set<string>, partitions: nat, steps: seq<Step>, p: nat)
    requires BRIDGE !in consumers && OrderlyRun(Init(template, consumers, partitions), steps)
    requires var s := Run(Init(template, consumers, partitions), steps);
             p < |s.logs| && p < |s.offsets| && s.offsets[p] == |s.logs[p]|
    ensures var s := Run(Init(template, consumers, partitions), steps);
            && (forall id :: id in FirstIds(s.logs[p]) ==> id in Forwarded(s, p) || ForwardedElsewhere(s, p, id))
            && (Unshared(s.logs, p) ==> Forwarded(s, p) == FirstIds(s.logs[p]))
  {
    var s := Run(Init(template, consumers, partitions), steps);
    var all, sent := FirstIds(s.logs[p]), Forwarded(s, p);
    forall id | id in all
      ensures Key(BRIDGE, id) in s.claims
    {
      FirstIdsMembers(s.logs[p], id);
      var o: nat :| o < |s.logs[p]| && BridgeIdOf(s.logs[p][o]) == Id(id);
      CommittedOffsetIsSettled(template, consumers, partitions, steps, p, o);
    }
    ClaimsAreForwarded(template, consumers, partitions, steps, p);
    if Unshared(s.logs, p) {
      forall id | id in all
        ensures id in sent
      {
        FirstIdsMembers(s.logs[p], id);
        var q := ClaimedSomewhere(template, consumers, partitions, steps, id);
      }
      UnsharedIsNotOvertakable(s.logs, p);
      ForwardingRefinesPartition(template, consumers, partitions, steps, p);
      FirstIdsDistinct(s.logs[p]);
      WholePrefix(sent, all);
    }
  }
}
