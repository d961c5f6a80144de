/** Runs in which an event is overtaken, and with them exactly which logs keep every stream in its partition's order. */
module OvertakingRuns {
  import opened Messages
  import opened Routing
  import opened Pipeline
  import opened PipelineSafety
  import opened PartitionOrder
  import opened PartitionRefinement
  import opened OrderlySegments
  import opened OrderlyProgress
  import opened OrderlyLimits
  import opened StuckEvents

  // ---------------------------------------------------------------------------------------------
  // Filling the outbox and Kafka

  lemma AddOne(s: State, id: string, m: Message) returns (steps: seq<Step>)
    requires id !in s.rows
    ensures Leads(s, steps, s.(rows := s.rows[id := m]))
  {
    steps := Then(s, [], s, AddRowAlone(id, m), s.(rows := s.rows[id := m]));
  }

  lemma {:induction false} AddRows(s: State, rows: map<string, Message>, todo: set<string>) returns (steps: seq<Step>)
    requires todo <= rows.Keys && s.rows.Keys == rows.Keys - todo
    requires forall id :: id in s.rows ==> s.rows[id] == rows[id]
    ensures Leads(s, steps, s.(rows := rows))
    decreases |todo|
  {
    if todo == {} {
      steps := [];
      assert s.rows == rows;
    } else {
      var id :| id in todo;
      var s1 := s.(rows := s.rows[id := rows[id]]);
      var first := AddOne(s, id, rows[id]);
      var more := AddRows(s1, rows, todo - {id});
      LeadsOn(s, first, s1, more, s.(rows := rows));
      steps := first + more;
    }
  }

  lemma CaptureOne(s: State, p: nat, m: Message) returns (steps: seq<Step>)
    requires p < |s.logs| && m in s.rows.Values
    ensures Leads(s, steps, s.(logs := s.logs[p := s.logs[p] + [m]]))
  {
    var id :| id in s.rows && s.rows[id] == m;
    steps := Then(s, [], s, Capture(id, p), s.(logs := s.logs[p := s.logs[p] + [m]]));
  }

  lemma {:induction false} CaptureLog(s: State, p: nat, log: seq<Message>) returns (steps: seq<Step>)
    requires p < |s.logs| && forall o :: 0 <= o < |log| ==> log[o] in s.rows.Values
    ensures Leads(s, steps, s.(logs := s.logs[p := s.logs[p] + log]))
    decreases |log|
  {
    if log == [] {
      steps := [];
      assert s.logs[p] + log == s.logs[p] && s.logs[p := s.logs[p]] == s.logs;
    } else {
      var n := |log| - 1;
      var most := CaptureLog(s, p, log[..n]);
      var s1 := s.(logs := s.logs[p := s.logs[p] + log[..n]]);
      var last := CaptureOne(s1, p, log[n]);
      assert s.logs[p] + log[..n] + [log[n]] == s.logs[p] + log;
      assert s1.logs[p := s.logs[p] + log] == s.logs[p := s.logs[p] + log];
      LeadsOn(s, most, s1, last, s.(logs := s.logs[p := s.logs[p] + log]));
      steps := most + last;
    }
  }

  ghost predicate DrawnFrom(rows: map<string, Message>, logs: seq<seq<Message>>) {
    forall p, o :: 0 <= p < |logs| && 0 <= o < |logs[p]| ==> logs[p][o] in rows.Values
  }

  lemma {:induction false} CaptureLogs(s: State, logs: seq<seq<Message>>, k: nat) returns (steps: seq<Step>)
    requires |s.logs| == |logs| && k <= |logs| && DrawnFrom(s.rows, logs)
    requires forall p :: 0 <= p < |logs| ==> s.logs[p] == if p < k then logs[p] else []
    ensures Leads(s, steps, s.(logs := logs))
    decreases |logs| - k
  {
    if k == |logs| {
      steps := [];
      assert s.logs == logs;
    } else {
      var first := CaptureLog(s, k, logs[k]);
      assert [] + logs[k] == logs[k];
      var s1 := s.(logs := s.logs[k := logs[k]]);
      var rest := CaptureLogs(s1, logs, k + 1);
      LeadsOn(s, first, s1, rest, s.(logs := logs));
      steps := first + rest;
    }
  }

  /** The outbox filled, its rows captured, nothing delivered yet. */
  function Filled(template: Template, consumers: set<string>, rows: map<string, Message>, logs: seq<seq<Message>>): State {
    Init(template, consumers, |logs|).(rows := rows, logs := logs)
  }

  lemma Fill(template: Template, consumers: set<string>, rows: map<string, Message>, logs: seq<seq<Message>>)
      returns (steps: seq<Step>)
    requires DrawnFrom(rows, logs)
    ensures Leads(Init(template, consumers, |logs|), steps, Filled(template, consumers, rows, logs))
  {
    var init := Init(template, consumers, |logs|);
    var first := AddRows(init, rows, rows.Keys);
    var rest := CaptureLogs(init.(rows := rows), logs, 0);
    LeadsOn(init, first, init.(rows := rows), rest, Filled(template, consumers, rows, logs));
    steps := first + rest;
  }

  // ---------------------------------------------------------------------------------------------
  // Overtaking

  /** The beginnings of the logs that the bridge can handle with these claims. */
  function Cuts(template: Template, claims: set<Key>, logs: seq<seq<Message>>): (cuts: seq<seq<Message>>)
    ensures |cuts| == |logs|
  {
    seq(|logs|, p requires 0 <= p < |logs| => Cut(template, claims, logs[p]))
  }

  lemma CutIsHandleable(template: Template, claims: set<Key>, log: seq<Message>, n: nat)
    requires n <= |Cut(template, {}, log)|
    ensures Cut(template, {}, log) <= log && AllHandleable(template, claims, log, 0, n)
  {
    CutStops(template, {}, log);
    forall o | 0 <= o < n
      ensures Handleable(template, claims, log[o])
    {
      assert Handleable(template, {}, log[o]);
    }
  }

  lemma OccursInSlice(log: seq<Message>, n: nat, id: string)
    requires n <= |log|
    ensures OccursIn(log, 0, n, id) <==> Occurs(log[..n], id)
  {
    if OccursIn(log, 0, n, id) {
      var o :| 0 <= o < n && BridgeIdOf(log[o]) == Id(id);
      assert BridgeIdOf(log[..n][o]) == Id(id);
    }
    if Occurs(log[..n], id) {
      var o :| 0 <= o < |log[..n]| && BridgeIdOf(log[..n][o]) == Id(id);
      assert BridgeIdOf(log[o]) == Id(id);
    }
  }

  /** First partition q up to the event that overtakes, then partition p as far as it goes. */
  lemma OvertakeSteps(s: State, p: nat, q: nat, o: nat) returns (steps: seq<Step>, t: State)
    requires Resting(s) && s.stale == {} && s.claims == {} && s.rabbit == []
    requires p < |s.logs| && q < |s.logs| && p != q && s.positions[p] == 0 && s.positions[q] == 0
    requires o < |Cut(s.template, {}, s.logs[q])| <= |s.logs[q]|
    ensures Leads(s, steps, t) && t.logs == s.logs && t.rows == s.rows
    ensures forall x :: x in PublishedFrom(t.rabbit, p) <==>
              Occurs(Cut(s.template, {}, s.logs[p]), x) && !Occurs(s.logs[q][..o], x)
              && BridgeIdOf(s.logs[q][o]) != Id(x)
  {
    var first, second, s1;
    var n := |Cut(s.template, {}, s.logs[p])|;
    CutIsHandleable(s.template, s.claims, s.logs[q], o + 1);
    first, s1 := HandleUpTo(s, q, o + 1);
    CutIsHandleable(s1.template, s1.claims, s1.logs[p], n);
    second, t := HandleUpTo(s1, p, n);
    LeadsOn(s, first, s1, second, t);
    steps := first + second;
    assert PublishedFrom(s.rabbit, p) == [] && PublishedFrom(s1.rabbit, p) == [];
    forall x
      ensures x in PublishedFrom(t.rabbit, p) <==>
                Occurs(Cut(s.template, {}, s.logs[p]), x) && !Occurs(s.logs[q][..o], x)
                && BridgeIdOf(s.logs[q][o]) != Id(x)
    {
      OccursInSlice(s.logs[p], n, x);
      assert s.logs[p][..n] == Cut(s.template, {}, s.logs[p]);
      OccursInNext(s.logs[q], 0, o, x);
      OccursInSlice(s.logs[q], o, x);
    }
  }

  /** A prefix that has the later of two events has the earlier one. */
  lemma PrefixHasEarlier(sent: seq<string>, ids: seq<string>, i: nat, j: nat)
    requires i < j < |ids| && sent <= ids && ids[j] in sent
    requires forall k, l :: 0 <= k < l < |ids| ==> ids[k] != ids[l]
    ensures ids[i] in sent
  {
    var m :| 0 <= m < |sent| && sent[m] == ids[j];
    assert m == j && sent[i] == ids[i];
  }

  lemma GapShows(s: State, t: State, p: nat, q: nat, o: nat, i: nat, j: nat)
    requires t.logs == s.logs && p < |s.logs| && q < |s.logs| && o <= |s.logs[q]|
    requires var ids := FirstIds(Cut(s.template, {}, s.logs[p]));
             i < j < |ids| && !Occurs(s.logs[q][..o], ids[j])
             && forall x :: x in PublishedFrom(t.rabbit, p) <==>
                  Occurs(Cut(s.template, {}, s.logs[p]), x) && !Occurs(s.logs[q][..o], x) && ids[i] != x
    ensures !(Forwarded(t, p) <= FirstIds(t.logs[p]))
  {
    var cut := Cut(s.template, {}, s.logs[p]);
    var ids := FirstIds(cut);
    CutStops(s.template, {}, s.logs[p]);
    assert s.logs[p][..|cut|] == cut;
    FirstIdsPrefix(s.logs[p], |cut|);
    FirstIdsDistinct(s.logs[p]);
    FirstIdsMembers(cut, ids[j]);
    DestutterMembers(PublishedFrom(t.rabbit, p), ids[i]);
    DestutterMembers(PublishedFrom(t.rabbit, p), ids[j]);
    if Forwarded(t, p) <= FirstIds(s.logs[p]) {
      PrefixHasEarlier(Forwarded(t, p), FirstIds(s.logs[p]), i, j);
      assert false;
    }
  }

  /**
    Where an event can be overtaken ahead of all messages that the bridge cannot handle, an orderly run
    without any failure leaves a gap in the stream.
  */
  lemma OvertakableLeavesGap(
      template: Template, consumers: set<string>, rows: map<string, Message>, logs: seq<seq<Message>>, p: nat)
      returns (steps: seq<Step>)
    requires DrawnFrom(rows, logs) && Overtakable(Cuts(template, {}, logs), p)
    ensures Produces(template, consumers, steps, logs)
    ensures var t := Run(Init(template, consumers, |logs|), steps);
            t.rows == rows && !(Forwarded(t, p) <= FirstIds(logs[p]))
  {
    var q: nat, o: nat, i: nat, j: nat :| OvertakenAt(Cuts(template, {}, logs), p, q, o, i, j);
    var s := Filled(template, consumers, rows, logs);
    var first := Fill(template, consumers, rows, logs);
    CutStops(template, {}, logs[q]);
    assert Cut(template, {}, logs[q])[..o] == logs[q][..o];
    var second, t := OvertakeSteps(s, p, q, o);
    LeadsOn(Init(template, consumers, |logs|), first, s, second, t);
    steps := first + second;
    GapShows(s, t, p, q, o, i, j);
  }

  /** The smallest case: one event in two partitions, and another behind it in one of them. */
  lemma SharedEventIsOvertakable(template: Template, m: Message, n: Message, mId: string, nId: string)
    requires BridgeIdOf(m) == Id(mId) && BridgeIdOf(n) == Id(nId) && mId != nId
    requires BuildRoutingKey(template, m).Some? && BuildRoutingKey(template, n).Some?
    ensures Overtakable(Cuts(template, {}, [[m], [m, n]]), 1)
  {
    HandleableIsUncut(template, {}, [m]);
    HandleableIsUncut(template, {}, [m, n]);
    assert Cuts(template, {}, [[m], [m, n]]) == [[m], [m, n]];
    PairIsOvertakable(m, n, mId, nId);
  }

  lemma PairIsOvertakable(m: Message, n: Message, mId: string, nId: string)
    requires BridgeIdOf(m) == Id(mId) && BridgeIdOf(n) == Id(nId) && mId != nId
    ensures Overtakable([[m], [m, n]], 1)
  {
    var logs := [[m], [m, n]];
    assert [m, n][..1] == [m] && [m][..0] == [];
    assert FirstIds([m]) == [] + [mId] && FirstIds([m, n]) == [mId, nId];
    assert OvertakenAt(logs, 1, 0, 0, 0, 1);
  }

  /** An orderly run from the start at whose end Kafka holds these logs. */
  ghost predicate Produces(template: Template, consumers: set<string>, steps: seq<Step>, logs: seq<seq<Message>>) {
    && OrderlyRun(Init(template, consumers, |logs|), steps)
    && Run(Init(template, consumers, |logs|), steps).logs == logs
  }

  /** If one message with an identifier can be forwarded, all messages with that identifier can. */
  ghost predicate CopiesAlike(template: Template, logs: seq<seq<Message>>) {
    forall p, o :: 0 <= p < |logs| && 0 <= o < |logs[p]| && BridgeIdOf(logs[p][o]).Id? ==>
      (HasRoutable(template, logs, BridgeIdOf(logs[p][o]).id) <==> !Unroutable(template, logs[p][o]))
  }

  /** What the bridge claims if it handles each partition by itself. */
  function ClaimsOf(cuts: seq<seq<Message>>): set<Key> {
    set p, o | 0 <= p < |cuts| && 0 <= o < |cuts[p]| && BridgeIdOf(cuts[p][o]).Id?
      :: Key(BRIDGE, BridgeIdOf(cuts[p][o]).id)
  }

  lemma ClaimedHasRoutable(template: Template, logs: seq<seq<Message>>, id: string)
    requires Key(BRIDGE, id) in ClaimsOf(Cuts(template, {}, logs))
    ensures HasRoutable(template, logs, id)
  {
    var q, o :| 0 <= q < |logs| && 0 <= o < |Cuts(template, {}, logs)[q]|
      && BridgeIdOf(Cuts(template, {}, logs)[q][o]) == Id(id);
    CutStops(template, {}, logs[q]);
    assert Handleable(template, {}, logs[q][o]) && BridgeIdOf(logs[q][o]) == Id(id);
  }

  /** Claims made elsewhere do not help a message that cannot be forwarded, as no copy of it can be. */
  lemma AlikeIsCutAlike(template: Template, logs: seq<seq<Message>>, p: nat)
    requires CopiesAlike(template, logs) && p < |logs|
    ensures Cut(template, ClaimsOf(Cuts(template, {}, logs)), logs[p]) == Cut(template, {}, logs[p])
  {
    var claims, log := ClaimsOf(Cuts(template, {}, logs)), logs[p];
    CutStops(template, {}, log);
    CutStops(template, claims, log);
    var n := |Cut(template, {}, log)|;
    CutIsHandleable(template, claims, log, n);
    if n < |log| && BridgeIdOf(log[n]).Id? && Key(BRIDGE, BridgeIdOf(log[n]).id) in claims {
      ClaimedHasRoutable(template, logs, BridgeIdOf(log[n]).id);
    }
  }

  lemma AlikeIsExhausted(template: Template, logs: seq<seq<Message>>)
    requires CopiesAlike(template, logs)
    ensures var claims := ClaimsOf(Cuts(template, {}, logs));
            Exhausted(template, claims, logs) && Cuts(template, claims, logs) == Cuts(template, {}, logs)
  {
    var claims, cuts := ClaimsOf(Cuts(template, {}, logs)), Cuts(template, {}, logs);
    forall p, id | 0 <= p < |logs| && Occurs(Cut(template, claims, logs[p]), id)
      ensures Key(BRIDGE, id) in claims
    {
      AlikeIsCutAlike(template, logs, p);
      var o :| 0 <= o < |cuts[p]| && BridgeIdOf(cuts[p][o]) == Id(id);
    }
    forall p | 0 <= p < |logs|
      ensures Cuts(template, claims, logs)[p] == cuts[p]
    {
      AlikeIsCutAlike(template, logs, p);
    }
  }

  /** Whether copies are alike or not, nothing is sent from beyond where the bridge gets no further. */
  lemma SentWithinLimit(
      template: Template, consumers: set<string>, partitions: nat, steps: seq<Step>, claims: set<Key>)
    requires BRIDGE !in consumers && OrderlyRun(Init(template, consumers, partitions), steps)
    requires Exhausted(template, claims, Run(Init(template, consumers, partitions), steps).logs)
    ensures var s := Run(Init(template, consumers, partitions), steps);
            SentWithin(s, Cuts(template, claims, s.logs))
  {
    var s := Run(Init(template, consumers, partitions), steps);
    RunIsTracked(template, consumers, partitions, steps);
    var cuts := Cuts(template, claims, s.logs);
    forall q | 0 <= q < |cuts|
      ensures cuts[q] <= s.logs[q]
    {
      CutStops(template, claims, s.logs[q]);
    }
    forall k | 0 <= k < |s.rabbit|
      ensures s.rabbit[k].partition < |cuts| && s.rabbit[k].offset < |cuts[s.rabbit[k].partition]|
    {
      EntryWithin(s, claims, k);
    }
  }

  /**
    Exactly which logs keep a partition's stream in order, provided that copies of an event are alike: either
    all or none of them can be forwarded. Every orderly run that produces the logs forwards partition p, up
    to consecutive repeats, as a prefix of its first occurrences, if and only if the logs, each up to the
    first message that cannot be handled, let none of its events be overtaken. This holds for any outbox from
    which the logs can be drawn.
  */
  lemma ForwardingRefinesExactly(
      template: Template, consumers: set<string>, rows: map<string, Message>, logs: seq<seq<Message>>, p: nat)
    requires BRIDGE !in consumers && p < |logs| && DrawnFrom(rows, logs) && CopiesAlike(template, logs)
    ensures !Overtakable(Cuts(template, {}, logs), p) <==>
              forall steps :: Produces(template, consumers, steps, logs) ==>
                Forwarded(Run(Init(template, consumers, |logs|), steps), p) <= FirstIds(logs[p])
  {
    if Overtakable(Cuts(template, {}, logs), p) {
      var steps := OvertakableLeavesGap(template, consumers, rows, logs, p);
      assert Produces(template, consumers, steps, logs);
    } else {
      forall steps | Produces(template, consumers, steps, logs)
        ensures Forwarded(Run(Init(template, consumers, |logs|), steps), p) <= FirstIds(logs[p])
      {
        AlikeIsExhausted(template, logs);
        SentWithinLimit(template, consumers, |logs|, steps, ClaimsOf(Cuts(template, {}, logs)));
        ForwardingRefinesWithin(template, consumers, |logs|, steps, Cuts(template, {}, logs), p);
      }
    }
  }
}
