/** The order in which the bridge forwards a Kafka partition, and what its committed offset stands for. */
module PartitionOrder {
  import opened Messages
  import opened Routing
  import opened Pipeline
  import opened PipelineInvariants
  import opened PipelineSafety

  // ---------------------------------------------------------------------------------------------
  // Sequences of identifiers

  /** The identifiers of a log, each at its first occurrence. */
  function FirstIds(log: seq<Message>): seq<string> {
    if log == [] then []
    else
      var init := FirstIds(log[..|log| - 1]);
      match BridgeIdOf(log[|log| - 1])
      case Id(id) => if id in init then init else init + [id]
      case _ => init
  }

  /** Consecutive repeats removed. */
  function Destutter(xs: seq<string>): seq<string> {
    if xs == [] then []
    else
      var init := Destutter(xs[..|xs| - 1]);
      if init != [] && init[|init| - 1] == xs[|xs| - 1] then init else init + [xs[|xs| - 1]]
  }

  /** The elements of xs that occur in keep, in the order of xs. */
  function Kept(xs: seq<string>, keep: seq<string>): seq<string> {
    if xs == [] then []
    else Kept(xs[..|xs| - 1], keep) + if xs[|xs| - 1] in keep then [xs[|xs| - 1]] else []
  }

  /** The identifiers published from one partition, in the order RabbitMQ received them. */
  function PublishedFrom(rabbit: seq<Entry>, p: nat): seq<string> {
    if rabbit == [] then []
    else
      PublishedFrom(rabbit[..|rabbit| - 1], p)
      + if rabbit[|rabbit| - 1].partition == p then [rabbit[|rabbit| - 1].id] else []
  }

  function Forwarded(s: State, p: nat): seq<string> {
    Destutter(PublishedFrom(s.rabbit, p))
  }

  ghost predicate Occurs(log: seq<Message>, id: string) {
    exists o :: 0 <= o < |log| && BridgeIdOf(log[o]) == Id(id)
  }

  lemma OccursSplit(log: seq<Message>, id: string)
    requires log != []
    ensures Occurs(log, id) <==> Occurs(log[..|log| - 1], id) || BridgeIdOf(log[|log| - 1]) == Id(id)
  {
    var n := |log| - 1;
    if Occurs(log[..n], id) {
      var o :| 0 <= o < n && BridgeIdOf(log[..n][o]) == Id(id);
      assert BridgeIdOf(log[o]) == Id(id);
    }
    if Occurs(log, id) {
      var o :| 0 <= o < |log| && BridgeIdOf(log[o]) == Id(id);
      assert o < n ==> BridgeIdOf(log[..n][o]) == Id(id);
    }
  }

  lemma {:induction false} FirstIdsMembers(log: seq<Message>, id: string)
    ensures id in FirstIds(log) <==> Occurs(log, id)
  {
    if log != [] {
      FirstIdsMembers(log[..|log| - 1], id);
      OccursSplit(log, id);
    }
  }

  lemma {:induction false} FirstIdsPrefix(log: seq<Message>, k: nat)
    requires k <= |log|
    ensures FirstIds(log[..k]) <= FirstIds(log)
  {
    if k < |log| {
      FirstIdsPrefix(log[..|log| - 1], k);
      assert log[..|log| - 1][..k] == log[..k];
    } else {
      assert log[..k] == log;
    }
  }

  lemma {:induction false} FirstIdsDistinct(log: seq<Message>)
    ensures forall i, j :: 0 <= i < j < |FirstIds(log)| ==> FirstIds(log)[i] != FirstIds(log)[j]
  {
    if log != [] {
      FirstIdsDistinct(log[..|log| - 1]);
    }
  }

  lemma {:induction false} KeptConcat(xs: seq<string>, ys: seq<string>, keep: seq<string>)
    ensures Kept(xs + ys, keep) == Kept(xs, keep) + Kept(ys, keep)
    decreases |ys|
  {
    if ys == [] {
      assert xs + ys == xs;
    } else {
      var n := |ys| - 1;
      assert (xs + ys)[..|xs + ys| - 1] == xs + ys[..n];
      KeptConcat(xs, ys[..n], keep);
    }
  }

  lemma {:induction false} KeptMembers(xs: seq<string>, keep: seq<string>, x: string)
    ensures x in Kept(xs, keep) <==> x in xs && x in keep
  {
    if xs != [] {
      KeptMembers(xs[..|xs| - 1], keep, x);
      assert xs == xs[..|xs| - 1] + [xs[|xs| - 1]];
    }
  }

  lemma {:induction false} KeptAll(xs: seq<string>, keep: seq<string>)
    requires forall i :: 0 <= i < |xs| ==> xs[i] in keep
    ensures Kept(xs, keep) == xs
  {
    if xs != [] {
      KeptAll(xs[..|xs| - 1], keep);
    }
  }

  lemma {:induction false} KeptNone(xs: seq<string>, keep: seq<string>)
    requires forall i :: 0 <= i < |xs| ==> xs[i] !in keep
    ensures Kept(xs, keep) == []
  {
    if xs != [] {
      KeptNone(xs[..|xs| - 1], keep);
    }
  }

  lemma {:induction false} KeptMore(xs: seq<string>, keep: seq<string>, e: string)
    requires e !in xs
    ensures Kept(xs, keep + [e]) == Kept(xs, keep)
  {
    if xs != [] {
      KeptMore(xs[..|xs| - 1], keep, e);
      assert xs[|xs| - 1] in xs;
    }
  }

  lemma {:induction false} DestutterMembers(xs: seq<string>, x: string)
    ensures x in Destutter(xs) <==> x in xs
  {
    if xs != [] {
      DestutterMembers(xs[..|xs| - 1], x);
      assert xs == xs[..|xs| - 1] + [xs[|xs| - 1]];
    }
  }

  lemma {:induction false} PublishedFromMembers(rabbit: seq<Entry>, p: nat, k: nat)
    requires k < |rabbit| && rabbit[k].partition == p
    ensures rabbit[k].id in PublishedFrom(rabbit, p)
  {
    if k < |rabbit| - 1 {
      PublishedFromMembers(rabbit[..|rabbit| - 1], p, k);
    }
  }

  // ---------------------------------------------------------------------------------------------
  // The orderly runs

  /** A bridge attempt on the partition has not ended. */
  predicate Busy(a: Attempt, p: nat) {
    Live(a) && a.source.Kafka? && a.source.partition == p
  }

  /**
    Kafka hands the bridge one message of a partition at a time, the one at its position; and after a
    delivery about which Kafka heard neither ack nor nack, only once the partition has been restarted from
    its committed offset. Other steps are free.
  */
  ghost predicate Orderly(s: State, step: Step) {
    step.Deliver? && step.partition < |s.positions| ==>
      && step.offset == s.positions[step.partition]
      && step.partition !in s.stale
      && forall i :: 0 <= i < |s.attempts| ==> !Busy(s.attempts[i], step.partition)
  }

  ghost predicate OrderlyRun(s: State, steps: seq<Step>)
    decreases |steps|
  {
    steps != [] ==> Orderly(s, steps[0]) && OrderlyRun(Apply(s, steps[0]), steps[1..])
  }

  /** The bridge is through with the message: it has no identifier, or its claim is committed. */
  predicate Through(claims: set<Key>, m: Message) {
    match BridgeIdOf(m)
    case NoId => true
    case BadId => false
    case Id(id) => Key(BRIDGE, id) in claims
  }

  ghost predicate ThroughUpTo(claims: set<Key>, log: seq<Message>, n: int) {
    forall o :: 0 <= o < n && o < |log| ==> Through(claims, log[o])
  }

  /** What was forwarded is what the log holds up to some offset, less what other partitions claimed. */
  ghost predicate Explains(claims: set<Key>, log: seq<Message>, forwarded: seq<string>, k: nat) {
    && k <= |log|
    && forwarded == Kept(FirstIds(log[..k]), forwarded)
    && forall id :: id in FirstIds(log[..k]) ==> id in forwarded || Key(BRIDGE, id) in claims
  }

  /** Only the last event forwarded can still be unclaimed. */
  ghost predicate LastPending(claims: set<Key>, forwarded: seq<string>) {
    forall x :: 0 <= x < |forwarded| - 1 ==> Key(BRIDGE, forwarded[x]) in claims
  }

  ghost predicate OrderedList(claims: set<Key>, log: seq<Message>, forwarded: seq<string>) {
    && (exists k: nat :: Explains(claims, log, forwarded, k))
    && LastPending(claims, forwarded)
  }

  ghost predicate Ordered(s: State, p: nat)
    requires p < |s.logs|
  {
    OrderedList(s.claims, s.logs[p], Forwarded(s, p))
  }

  ghost predicate Positioned(s: State, p: nat)
    requires p < |s.logs| && |s.positions| == |s.offsets| == |s.logs|
  {
    && (forall i, j :: 0 <= i < j < |s.attempts| ==> !(Busy(s.attempts[i], p) && Busy(s.attempts[j], p)))
    && (forall i :: 0 <= i < |s.attempts| && Busy(s.attempts[i], p) ==>
          ThroughUpTo(s.claims, s.logs[p], s.attempts[i].source.offset))
    && ThroughUpTo(s.claims, s.logs[p], s.offsets[p]) && s.offsets[p] <= |s.logs[p]|
    && (p !in s.stale ==> s.positions[p] <= |s.logs[p]|)
    && (p !in s.stale ==> forall o :: 0 <= o < s.positions[p] ==>
          Through(s.claims, s.logs[p][o]) || InHand(s.attempts, p, o))
  }

  ghost predicate InHand(attempts: seq<Attempt>, p: nat, o: nat) {
    exists i :: 0 <= i < |attempts| && Busy(attempts[i], p) && attempts[i].source.offset == o
  }

  ghost predicate InOrder(s: State) {
    |s.positions| == |s.offsets| == |s.logs| && forall p :: 0 <= p < |s.logs| ==> Ordered(s, p) && Positioned(s, p)
  }

  // ---------------------------------------------------------------------------------------------
  // Forwarding keeps the order

  /**
    An unclaimed event whose predecessors are all claimed is either the one forwarded last, and stutters,
    or the next one in the log.
  */
  lemma ForwardExtends(claims: set<Key>, log: seq<Message>, forwarded: seq<string>, o: nat, e: string)
    requires OrderedList(claims, log, forwarded)
    requires o < |log| && BridgeIdOf(log[o]) == Id(e) && Key(BRIDGE, e) !in claims
    requires ThroughUpTo(claims, log, o)
    ensures OrderedList(claims, log,
              if forwarded != [] && forwarded[|forwarded| - 1] == e then forwarded else forwarded + [e])
  {
    var k: nat :| Explains(claims, log, forwarded, k);
    forall id
      ensures id in FirstIds(log[..o]) ==> Key(BRIDGE, id) in claims
    {
      FirstIdsMembers(log[..o], id);
    }
    if e in forwarded {
      assert forwarded[|forwarded| - 1] == e;
    } else {
      FirstIdsMembers(log[..k], e);
      if o < k {
        OccursAt(log, k, o, e);
      }
      assert k <= o;
      NextExplained(claims, log, forwarded, k, o, e);
    }
  }

  lemma OccursAt(log: seq<Message>, k: nat, o: nat, e: string)
    requires o < k <= |log| && BridgeIdOf(log[o]) == Id(e)
    ensures Occurs(log[..k], e)
  {
    assert BridgeIdOf(log[..k][o]) == Id(e);
  }

  /** Filtering a longer list of first occurrences finds nothing more of what was forwarded. */
  lemma KeptStays(log: seq<Message>, forwarded: seq<string>, k: nat, o: nat)
    requires k <= o <= |log| && forwarded == Kept(FirstIds(log[..k]), forwarded)
    ensures Kept(FirstIds(log[..o]), forwarded) == forwarded
    ensures forall x :: x in forwarded ==> x in FirstIds(log[..o])
  {
    var before, seen := FirstIds(log[..k]), FirstIds(log[..o]);
    assert log[..o][..k] == log[..k];
    FirstIdsPrefix(log[..o], k);
    FirstIdsDistinct(log[..o]);
    var rest := seen[|before|..];
    assert seen == before + rest;
    forall x | x in forwarded
      ensures x in before && x in seen && x !in rest
    {
      KeptMembers(before, forwarded, x);
    }
    KeptNone(rest, forwarded);
    KeptConcat(before, rest, forwarded);
  }

  lemma NextExplained(claims: set<Key>, log: seq<Message>, forwarded: seq<string>, k: nat, o: nat, e: string)
    requires Explains(claims, log, forwarded, k) && k <= o < |log| && BridgeIdOf(log[o]) == Id(e)
    requires e !in forwarded && Key(BRIDGE, e) !in claims
    requires forall id :: id in FirstIds(log[..o]) ==> Key(BRIDGE, id) in claims
    ensures Explains(claims, log, forwarded + [e], o + 1) && LastPending(claims, forwarded + [e])
  {
    var seen := FirstIds(log[..o]);
    assert log[..o + 1][..o] == log[..o];
    assert FirstIds(log[..o + 1]) == seen + [e];
    KeptStays(log, forwarded, k, o);
    NextKept(seen, forwarded, e);
    NextPending(claims, forwarded, seen, e);
  }

  lemma NextKept(seen: seq<string>, forwarded: seq<string>, e: string)
    requires Kept(seen, forwarded) == forwarded && e !in seen
    ensures Kept(seen + [e], forwarded + [e]) == forwarded + [e]
  {
    KeptMore(seen, forwarded, e);
    assert (seen + [e])[..|seen|] == seen;
  }

  lemma NextPending(claims: set<Key>, forwarded: seq<string>, seen: seq<string>, e: string)
    requires forall x :: x in forwarded ==> x in seen
    requires forall x :: x in seen ==> Key(BRIDGE, x) in claims
    ensures LastPending(claims, forwarded + [e])
  {}

  lemma ClaimsGrow(claims: set<Key>, claims': set<Key>, log: seq<Message>, more: seq<Message>, forwarded: seq<string>)
    requires claims <= claims' && log <= more && OrderedList(claims, log, forwarded)
    ensures OrderedList(claims', more, forwarded)
  {
    var k: nat :| Explains(claims, log, forwarded, k);
    assert more[..k] == log[..k];
    assert Explains(claims', more, forwarded, k);
  }

  lemma ForwardedAppend(rabbit: seq<Entry>, e: Entry, p: nat)
    ensures PublishedFrom(rabbit + [e], p) == PublishedFrom(rabbit, p) + if e.partition == p then [e.id] else []
    ensures var sofar := Destutter(PublishedFrom(rabbit, p));
            Destutter(PublishedFrom(rabbit + [e], p)) ==
              if e.partition != p || (sofar != [] && sofar[|sofar| - 1] == e.id) then sofar else sofar + [e.id]
  {
    assert (rabbit + [e])[..|rabbit|] == rabbit;
    var xs := PublishedFrom(rabbit, p);
    assert (xs + [e.id])[..|xs|] == xs;
    assert xs + [] == xs;
  }

  /** At the moment of publishing, the event's claim is held but not committed. */
  lemma PublisherUnclaimed(s: State, s': State, i: nat)
    requires Sane(s) && Legal(s, s', i) && s'.rabbit != s.rabbit
    ensures s'.claims == s.claims && PublishesEntry(s, s', i)
    ensures var e := s'.rabbit[|s.rabbit|];
            && s.attempts[i].source == Kafka(e.partition, e.offset) && s.attempts[i].message == e.message
            && BridgeIdOf(e.message) == Id(e.id) && Key(BRIDGE, e.id) !in s.claims
  {
    assert PhaseFits(s.template, s.claims, s.attempts[i]);
    EntryKey(s', s'.rabbit[|s.rabbit|]);
  }

  lemma PublishKeepsOrdered(s: State, s': State, e: Entry)
    requires e.partition < |s.logs| && s'.logs == s.logs && s'.claims == s.claims && s'.rabbit == s.rabbit + [e]
    requires Ordered(s, e.partition)
    requires e.offset < |s.logs[e.partition]| && BridgeIdOf(s.logs[e.partition][e.offset]) == Id(e.id)
    requires Key(BRIDGE, e.id) !in s.claims && ThroughUpTo(s.claims, s.logs[e.partition], e.offset)
    ensures Ordered(s', e.partition)
  {
    ForwardedAppend(s.rabbit, e, e.partition);
    ForwardExtends(s.claims, s.logs[e.partition], Forwarded(s, e.partition), e.offset, e.id);
  }

  /** Claims and logs may grow; entries of other partitions do not matter. */
  lemma GrowthKeepsOrdered(s: State, s': State, p: nat)
    requires p < |s.logs| && p < |s'.logs| && Ordered(s, p)
    requires s.claims <= s'.claims && s.logs[p] <= s'.logs[p]
    requires Forwarded(s', p) == Forwarded(s, p)
    ensures Ordered(s', p)
  {
    ClaimsGrow(s.claims, s'.claims, s.logs[p], s'.logs[p], Forwarded(s, p));
  }

  lemma MoveKeepsOrdered(s: State, s': State, i: nat, p: nat)
    requires Sane(s) && Legal(s, s', i) && InOrder(s) && p < |s.logs| && Live(s.attempts[i])
    ensures Ordered(s', p)
  {
    assert Ordered(s, p) && Positioned(s, p);
    if s'.rabbit == s.rabbit {
      GrowthKeepsOrdered(s, s', p);
    } else {
      PublisherUnclaimed(s, s', i);
      var e := s'.rabbit[|s.rabbit|];
      if e.partition == p {
        assert Busy(s.attempts[i], p);
        assert SourceFits(s, s.attempts[i]);
        PublishKeepsOrdered(s, s', e);
      } else {
        ForwardedAppend(s.rabbit, e, p);
        GrowthKeepsOrdered(s, s', p);
      }
    }
  }

  // ---------------------------------------------------------------------------------------------
  // Positions and committed offsets

  lemma ThroughGrows(claims: set<Key>, claims': set<Key>, log: seq<Message>, more: seq<Message>, n: int)
    requires claims <= claims' && log <= more && n <= |log| && ThroughUpTo(claims, log, n)
    ensures ThroughUpTo(claims', more, n)
  {
    forall o | 0 <= o < n && o < |more|
      ensures Through(claims', more[o])
    {
      assert Through(claims, log[o]);
    }
  }

  /** What the step does to one partition's positions, seen from the partition. */
  datatype Bearing = Stays | Rewinds | Retires | Leaves

  /** A move of an attempt that is not on the partition, or that stays in hand, leaves the partition's position alone. */
  ghost predicate BearsOn(s: State, s': State, i: nat, p: nat, how: Bearing)
    requires i < |s.attempts| && |s'.attempts| == |s.attempts|
    requires p < |s.logs| && |s.positions| == |s.offsets| == |s.logs|
    requires |s'.positions| == |s'.offsets| == |s.logs|
  {
    var a, a' := s.attempts[i], s'.attempts[i];
    match how
    case Stays =>
      && Busy(a', p) == Busy(a, p) && s'.positions[p] == s.positions[p]
      && (p in s'.stale <==> p in s.stale)
      && (s'.offsets[p] == s.offsets[p]
          || (Busy(a, p) && Done(s.claims, a) && s'.offsets[p] == Max(s.offsets[p], a.source.offset + 1)))
    case Rewinds =>
      && Busy(a, p) && !Busy(a', p) && s'.positions[p] == a.source.offset && s'.offsets[p] == s.offsets[p]
      && (p in s'.stale <==> p in s.stale)
    case Retires =>
      && Busy(a, p) && !Busy(a', p) && Done(s.claims, a) && s'.positions[p] == s.positions[p]
      && s'.offsets[p] == Max(s.offsets[p], a.source.offset + 1)
      && (p in s'.stale <==> p in s.stale)
    case Leaves =>
      && Busy(a, p) && !Busy(a', p) && s'.offsets[p] == s.offsets[p] && p in s'.stale
  }

  function BearingOf(a: Attempt, a': Attempt, p: nat): Bearing {
    if !Busy(a, p) || Busy(a', p) then Stays
    else if a'.phase == Ended(Nacked) then Rewinds
    else if a'.phase == Ended(Acked) then Retires
    else Leaves
  }

  ghost predicate Bears(s: State, s': State, i: nat, p: nat) {
    && i < |s.attempts| && |s'.attempts| == |s.attempts|
    && p < |s.logs| && |s.positions| == |s.offsets| == |s.logs| == |s'.positions| == |s'.offsets|
    && BearsOn(s, s', i, p, BearingOf(s.attempts[i], s'.attempts[i], p))
  }

  lemma AdvanceBears(s: State, i: nat, move: Move, p: nat)
    requires Sane(s) && i < |s.attempts| && Live(s.attempts[i]) && p < |s.logs|
    ensures Bears(s, Advance(s, i, move), i, p)
  {
    assert PhaseFits(s.template, s.claims, s.attempts[i]);
    assert SourceFits(s, s.attempts[i]);
    if Takes(s.attempts[i], move) {
      match move {
        case Ack(fate) => AckBears(s, i, fate, p);
        case Nack(fate) => NackBears(s, i, fate, p);
        case Die =>
        case _ => WorkingMovesStay(s, i, move);
      }
    }
  }

  lemma WorkingMovesStay(s: State, i: nat, move: Move)
    requires i < |s.attempts| && Live(s.attempts[i])
    requires move.Claim? || move.Break? || move.Work? || move.Commit?
    ensures var s' := Advance(s, i, move);
            && s'.positions == s.positions && s'.offsets == s.offsets && s'.stale == s.stale
            && |s'.attempts| == |s.attempts| && Live(s'.attempts[i]) && s'.attempts[i].source == s.attempts[i].source
  {}

  lemma AckBears(s: State, i: nat, fate: Fate, p: nat)
    requires Sane(s) && i < |s.attempts| && p < |s.logs|
    requires s.attempts[i].phase.Settled? && s.attempts[i].source.Kafka? && Done(s.claims, s.attempts[i])
    ensures Bears(s, DoAck(s, i, fate), i, p)
  {}

  lemma NackBears(s: State, i: nat, fate: Fate, p: nat)
    requires Sane(s) && i < |s.attempts| && p < |s.logs|
    requires s.attempts[i].phase.Failing? && s.attempts[i].source.Kafka?
    ensures Bears(s, DoNack(s, i, fate), i, p)
  {}

  lemma DoneMeansThrough(claims: set<Key>, a: Attempt)
    requires a.source.Kafka? && Done(claims, a)
    ensures Through(claims, a.message)
  {}

  /** All offsets up to and including the one in hand are through once its message is done. */
  lemma DoneExtends(s: State, i: nat, p: nat)
    requires Sane(s) && i < |s.attempts| && p < |s.logs| && Positioned(s, p)
    requires Busy(s.attempts[i], p) && Done(s.claims, s.attempts[i])
    ensures ThroughUpTo(s.claims, s.logs[p], Max(s.offsets[p], s.attempts[i].source.offset + 1))
    ensures Max(s.offsets[p], s.attempts[i].source.offset + 1) <= |s.logs[p]|
  {
    assert SourceFits(s, s.attempts[i]);
    DoneMeansThrough(s.claims, s.attempts[i]);
  }

  lemma InHandKept(s: State, s': State, i: nat, p: nat, o: nat)
    requires Moves(s, s', i) && InHand(s.attempts, p, o)
    requires Busy(s'.attempts[i], p) == Busy(s.attempts[i], p) || (Busy(s.attempts[i], p) && s.attempts[i].source.offset != o)
    ensures InHand(s'.attempts, p, o)
  {
    var j :| 0 <= j < |s.attempts| && Busy(s.attempts[j], p) && s.attempts[j].source.offset == o;
    assert Busy(s'.attempts[j], p) && s'.attempts[j].source.offset == o;
  }

  lemma MoveKeepsBusy(s: State, s': State, i: nat, p: nat, how: Bearing)
    requires Sane(s) && Legal(s, s', i) && p < |s.logs| && Positioned(s, p)
    requires |s'.positions| == |s'.offsets| == |s.logs| && BearsOn(s, s', i, p, how)
    ensures forall j, k :: 0 <= j < k < |s'.attempts| ==> !(Busy(s'.attempts[j], p) && Busy(s'.attempts[k], p))
    ensures forall j :: 0 <= j < |s'.attempts| && Busy(s'.attempts[j], p) ==>
              ThroughUpTo(s'.claims, s'.logs[p], s'.attempts[j].source.offset)
    ensures ThroughUpTo(s'.claims, s'.logs[p], s'.offsets[p]) && s'.offsets[p] <= |s'.logs[p]|
  {
    forall j, k | 0 <= j < k < |s'.attempts|
      ensures !(Busy(s'.attempts[j], p) && Busy(s'.attempts[k], p))
    {
      assert Busy(s'.attempts[j], p) ==> Busy(s.attempts[j], p);
      assert Busy(s'.attempts[k], p) ==> Busy(s.attempts[k], p);
    }
    forall j | 0 <= j < |s'.attempts| && Busy(s'.attempts[j], p)
      ensures ThroughUpTo(s'.claims, s'.logs[p], s'.attempts[j].source.offset)
    {
      assert Busy(s.attempts[j], p);
      assert SourceFits(s, s.attempts[j]);
      ThroughGrows(s.claims, s'.claims, s.logs[p], s'.logs[p], s.attempts[j].source.offset);
    }
    if s'.offsets[p] != s.offsets[p] {
      DoneExtends(s, i, p);
    }
    ThroughGrows(s.claims, s'.claims, s.logs[p], s'.logs[p], s'.offsets[p]);
  }

  lemma MoveKeepsPositions(s: State, s': State, i: nat, p: nat, how: Bearing)
    requires Sane(s) && Legal(s, s', i) && p < |s.logs| && Positioned(s, p)
    requires |s'.positions| == |s'.offsets| == |s.logs| && BearsOn(s, s', i, p, how)
    requires p !in s'.stale
    ensures s'.positions[p] <= |s'.logs[p]|
    ensures forall o :: 0 <= o < s'.positions[p] ==> Through(s'.claims, s'.logs[p][o]) || InHand(s'.attempts, p, o)
  {
    assert SourceFits(s, s.attempts[i]);
    forall o: nat | o < s'.positions[p]
      ensures o < |s'.logs[p]| && (Through(s'.claims, s'.logs[p][o]) || InHand(s'.attempts, p, o))
    {
      if how.Rewinds? {
        assert Through(s.claims, s.logs[p][o]);
      } else if !Through(s.claims, s.logs[p][o]) {
        if how.Retires? {
          DoneMeansThrough(s.claims, s.attempts[i]);
        }
        InHandKept(s, s', i, p, o);
      }
    }
  }

  lemma MoveKeepsPositioned(s: State, s': State, i: nat, p: nat, how: Bearing)
    requires Sane(s) && Legal(s, s', i) && p < |s.logs| && Positioned(s, p)
    requires |s'.positions| == |s'.offsets| == |s.logs| && BearsOn(s, s', i, p, how)
    ensures Positioned(s', p)
  {
    MoveKeepsBusy(s, s', i, p, how);
    if p !in s'.stale {
      MoveKeepsPositions(s, s', i, p, how);
    }
  }

  lemma MoveKeepsInOrder(s: State, s': State, i: nat, p: nat)
    requires Sane(s) && InOrder(s) && Legal(s, s', i) && Live(s.attempts[i]) && Bears(s, s', i, p)
    ensures Ordered(s', p) && Positioned(s', p)
  {
    assert Ordered(s, p) && Positioned(s, p);
    MoveKeepsOrdered(s, s', i, p);
    MoveKeepsPositioned(s, s', i, p, BearingOf(s.attempts[i], s'.attempts[i], p));
  }

  /** Other steps: logs grow, and at most one attempt starts. */
  lemma BackgroundKeepsOrdered(s: State, s': State, p: nat)
    requires Background(s, s') && p < |s.logs| && p < |s'.logs| && s.logs[p] <= s'.logs[p] && Ordered(s, p)
    ensures Ordered(s', p)
  {
    GrowthKeepsOrdered(s, s', p);
  }

  lemma DeliverKeepsPositioned(s: State, s': State, p: nat, q: nat)
    requires Sane(s) && InOrder(s) && p < |s.logs| && q < |s.logs| && s.positions[p] < |s.logs[p]|
    requires p !in s.stale && forall i :: 0 <= i < |s.attempts| ==> !Busy(s.attempts[i], p)
    requires s' == s.(positions := s.positions[p := s.positions[p] + 1],
                      attempts := s.attempts + [Start(Kafka(p, s.positions[p]), s.logs[p][s.positions[p]])])
    ensures Positioned(s', q)
  {
    assert Positioned(s, q);
    var n := |s.attempts|;
    forall o: nat | q !in s'.stale && o < s'.positions[q]
      ensures Through(s'.claims, s'.logs[q][o]) || InHand(s'.attempts, q, o)
    {
      if q == p && o == s.positions[p] {
        assert Busy(s'.attempts[n], p) && s'.attempts[n].source.offset == o;
      } else if !Through(s.claims, s.logs[q][o]) {
        assert InHand(s.attempts, q, o);
        var j :| 0 <= j < n && Busy(s.attempts[j], q) && s.attempts[j].source.offset == o;
        assert Busy(s'.attempts[j], q) && s'.attempts[j].source.offset == o;
      }
    }
    if q == p {
      forall o | 0 <= o < s.positions[p]
        ensures Through(s.claims, s.logs[p][o])
      {
        assert !InHand(s.attempts, p, o);
      }
    }
  }

  /** Attempts keep their places, positions move only where the partition is stale or freshly restarted. */
  lemma OtherKeepsPositioned(s: State, s': State, q: nat)
    requires Sane(s) && q < |s.logs| && Positioned(s, q)
    requires |s'.positions| == |s'.offsets| == |s'.logs| == |s.logs| && s'.offsets == s.offsets && s'.claims == s.claims
    requires s.logs[q] <= s'.logs[q]
    requires s'.attempts == s.attempts || exists a :: s'.attempts == s.attempts + [a] && a.source.Rabbit?
    requires || q in s'.stale
             || s'.positions[q] == s.offsets[q]
             || (s'.positions[q] == s.positions[q] && q !in s.stale)
    ensures Positioned(s', q)
  {
    forall j, k | 0 <= j < k < |s'.attempts|
      ensures !(Busy(s'.attempts[j], q) && Busy(s'.attempts[k], q))
    {
      assert k < |s.attempts| ==> s'.attempts[k] == s.attempts[k];
    }
    forall j | 0 <= j < |s'.attempts| && Busy(s'.attempts[j], q)
      ensures ThroughUpTo(s'.claims, s'.logs[q], s'.attempts[j].source.offset)
    {
      assert Busy(s.attempts[j], q) && SourceFits(s, s.attempts[j]);
      ThroughGrows(s.claims, s'.claims, s.logs[q], s'.logs[q], s.attempts[j].source.offset);
    }
    ThroughGrows(s.claims, s'.claims, s.logs[q], s'.logs[q], s.offsets[q]);
    forall o: nat | q !in s'.stale && o < s'.positions[q]
      ensures Through(s'.claims, s'.logs[q][o]) || InHand(s'.attempts, q, o)
    {
      if s'.positions[q] == s.offsets[q] {
        assert Through(s.claims, s.logs[q][o]);
      } else if !Through(s.claims, s.logs[q][o]) {
        assert InHand(s.attempts, q, o);
        var j :| 0 <= j < |s.attempts| && Busy(s.attempts[j], q) && s.attempts[j].source.offset == o;
        assert s'.attempts[j] == s.attempts[j];
      }
    }
  }

  /** The step hands a message to the bridge. */
  predicate Delivers(s: State, step: Step) {
    step.Deliver? && step.partition < |s.logs| && step.offset < |s.logs[step.partition]|
  }

  /** What other steps can do to a partition: its log grows; its position moves only if Kafka heard nothing, or by a restart. */
  ghost predicate Settles(s: State, s': State, q: nat)
    requires q < |s.logs| && |s.positions| == |s.offsets| == |s.logs| == |s'.positions| == |s'.logs|
  {
    && s.logs[q] <= s'.logs[q]
    && (|| q in s'.stale
        || s'.positions[q] == s.offsets[q]
        || (s'.positions[q] == s.positions[q] && q !in s.stale))
  }

  lemma OtherShape(s: State, step: Step, q: nat)
    requires Sane(s) && !Enabled(s, step) && !Delivers(s, step) && q < |s.logs|
    ensures var s' := Apply(s, step);
            && |s'.positions| == |s'.offsets| == |s'.logs| == |s.logs| && s'.offsets == s.offsets
            && (s'.attempts == s.attempts || exists a :: s'.attempts == s.attempts + [a] && a.source.Rabbit?)
            && Settles(s, s', q)
  {}

  lemma OtherCarriesOver(s: State, s': State, q: nat)
    requires Sane(s) && InOrder(s) && q < |s.logs| && Background(s, s')
    requires |s'.positions| == |s'.offsets| == |s'.logs| == |s.logs| && s'.offsets == s.offsets
    requires s.logs[q] <= s'.logs[q]
    requires s'.attempts == s.attempts || exists a :: s'.attempts == s.attempts + [a] && a.source.Rabbit?
    requires || q in s'.stale
             || s'.positions[q] == s.offsets[q]
             || (s'.positions[q] == s.positions[q] && q !in s.stale)
    ensures Ordered(s', q) && Positioned(s', q)
  {
    assert Ordered(s, q) && Positioned(s, q);
    BackgroundKeepsOrdered(s, s', q);
    OtherKeepsPositioned(s, s', q);
  }

  lemma DeliveryCarriesOver(s: State, s': State, p: nat, q: nat)
    requires Sane(s) && InOrder(s) && p < |s.logs| && q < |s.logs| && s.positions[p] < |s.logs[p]|
    requires p !in s.stale && forall i :: 0 <= i < |s.attempts| ==> !Busy(s.attempts[i], p)
    requires s' == s.(positions := s.positions[p := s.positions[p] + 1],
                      attempts := s.attempts + [Start(Kafka(p, s.positions[p]), s.logs[p][s.positions[p]])])
    requires Background(s, s')
    ensures Ordered(s', q) && Positioned(s', q)
  {
    assert Ordered(s, q);
    BackgroundKeepsOrdered(s, s', q);
    DeliverKeepsPositioned(s, s', p, q);
  }

  lemma NoPartitionAppears(s: State, step: Step)
    requires Sane(s) && !Enabled(s, step)
    ensures var s' := Apply(s, step);
            |s'.positions| == |s'.offsets| == |s'.logs| == |s.logs| && s'.offsets == s.offsets
  {}

  lemma OtherStarts(s: State, step: Step)
    requires !Enabled(s, step) && !Delivers(s, step)
    ensures var s' := Apply(s, step);
            s'.attempts == s.attempts || exists a :: s'.attempts == s.attempts + [a] && a.source.Rabbit?
  {}

  /** All that a step can do to the order of a partition. */
  ghost predicate Shifts(s: State, s': State, step: Step)
    requires |s.positions| == |s.offsets| == |s.logs|
  {
    && Follows(s, s', step)
    && |s'.positions| == |s'.offsets| == |s'.logs| == |s.logs|
    && if Enabled(s, step) then forall p: nat :: p < |s.logs| ==> Bears(s, s', step.attempt, p)
       else if Delivers(s, step) then
         s' == s.(positions := s.positions[step.partition := step.offset + 1],
                  attempts := s.attempts + [Start(Kafka(step.partition, step.offset), s.logs[step.partition][step.offset])])
       else
         && s'.offsets == s.offsets
         && (s'.attempts == s.attempts || exists a :: s'.attempts == s.attempts + [a] && a.source.Rabbit?)
         && forall q: nat :: q < |s.logs| ==> Settles(s, s', q)
  }

  lemma MoveShifts(s: State, i: nat, move: Move)
    requires Sane(s) && i < |s.attempts| && Live(s.attempts[i])
    ensures forall p: nat :: p < |s.logs| ==> Bears(s, Advance(s, i, move), i, p)
  {
    forall p: nat | p < |s.logs|
      ensures Bears(s, Advance(s, i, move), i, p)
    {
      AdvanceBears(s, i, move, p);
    }
  }

  lemma StepShifts(s: State, step: Step)
    requires Sane(s)
    ensures Shifts(s, Apply(s, step), step)
  {
    StepFollows(s, step);
    if Enabled(s, step) {
      MoveShifts(s, step.attempt, step.move);
    } else {
      NoPartitionAppears(s, step);
      if !Delivers(s, step) {
        OtherStarts(s, step);
        forall q: nat | q < |s.logs|
          ensures Settles(s, Apply(s, step), q)
        {
          OtherShape(s, step, q);
        }
      }
    }
  }

  lemma ShiftKeepsInOrder(s: State, s': State, step: Step)
    requires Sane(s) && InOrder(s) && Orderly(s, step) && Shifts(s, s', step)
    ensures InOrder(s')
  {
    forall q: nat | q < |s'.logs|
      ensures Ordered(s', q) && Positioned(s', q)
    {
      if Enabled(s, step) {
        MoveKeepsInOrder(s, s', step.attempt, q);
      } else if Delivers(s, step) {
        DeliveryCarriesOver(s, s', step.partition, q);
      } else {
        assert Settles(s, s', q);
        OtherCarriesOver(s, s', q);
      }
    }
  }

  lemma StepKeepsInOrder(s: State, step: Step)
    requires Sane(s) && InOrder(s) && Orderly(s, step)
    ensures InOrder(Apply(s, step))
  {
    StepShifts(s, step);
    ShiftKeepsInOrder(s, Apply(s, step), step);
  }

  lemma {:induction false} RunKeepsInOrder(s: State, steps: seq<Step>)
    requires Sane(s) && InOrder(s) && OrderlyRun(s, steps)
    ensures InOrder(Run(s, steps))
    decreases |steps|
  {
    if steps != [] {
      StepKeepsSane(s, steps[0]);
      StepKeepsInOrder(s, steps[0]);
      RunKeepsInOrder(Apply(s, steps[0]), steps[1..]);
    }
  }

  lemma InitInOrder(template: Template, consumers: set<string>, partitions: nat)
    ensures InOrder(Init(template, consumers, partitions))
  {
    var s := Init(template, consumers, partitions);
    forall p: nat | p < |s.logs|
      ensures Ordered(s, p) && Positioned(s, p)
    {
      assert Explains(s.claims, s.logs[p], Forwarded(s, p), 0);
    }
  }

  // ---------------------------------------------------------------------------------------------
  // What holds in every orderly run

  lemma OrderlyInvariants(template: Template, consumers: set<string>, partitions: nat, steps: seq<Step>)
    requires BRIDGE !in consumers && OrderlyRun(Init(template, consumers, partitions), steps)
    ensures Sane(Run(Init(template, consumers, partitions), steps))
    ensures InOrder(Run(Init(template, consumers, partitions), steps))
  {
    InitInOrder(template, consumers, partitions);
    RunKeepsInOrder(Init(template, consumers, partitions), steps);
    RunKeepsSane(Init(template, consumers, partitions), steps);
  }

  /**
    With repeats removed, what RabbitMQ received from a partition is the partition's own sequence of first
    occurrences up to some offset, less only identifiers that are claimed without having been published
    from here.
  */
  lemma ForwardingOrder(template: Template, consumers: set<string>, partitions: nat, steps: seq<Step>, p: nat)
    requires BRIDGE !in consumers && OrderlyRun(Init(template, consumers, partitions), steps)
    requires p < |Run(Init(template, consumers, partitions), steps).logs|
    ensures var s := Run(Init(template, consumers, partitions), steps);
            exists k: nat :: Explains(s.claims, s.logs[p], Forwarded(s, p), k)
  {
    OrderlyInvariants(template, consumers, partitions, steps);
    assert Ordered(Run(Init(template, consumers, partitions), steps), p);
  }
}
