/**
  Outbox operations of concurrent tasks. A reset reads the attempt count in one transaction and writes it
  back in another; an admin retry checks the row in a third, before both. Disabled steps change nothing.
*/
module OutboxRetries {
  import opened Wrappers
  import opened Outbox

  /** `at`: how much had been logged when the count was read. */
  datatype Stage = Checked | Loaded(attempts: nat, at: nat) | Over

  /** A reset under way; `retry` if an admin retry asked for it. `since`: how much had been logged when it began. */
  datatype Flight = Flight(id: string, retry: bool, since: nat, stage: Stage)

  /**
    What happened to a row. `repeated`: it was failed already. `stale`: the count written back was not the
    count in the row. `late`: the row was not failed any more. `retry`, `since`, `read`: the flight's `retry`,
    `since` and `at`.
  */
  datatype Event =
    | WasMarkedFailed(id: string, repeated: bool)
    | WasReset(id: string, stale: bool, late: bool, retry: bool, since: nat, read: nat)

  datatype Sys = Sys(rows: Table, flights: seq<Flight>, log: seq<Event>)

  datatype Step =
    | Add(id: string, now: real)
    | MarkPublished(id: string, now: real)
    | MarkFailed(id: string, message: string, now: real)
    | BeginReset(id: string)
    | BeginRetry(id: string)
    | Load(flight: nat)
    | Store(flight: nat)
    | Abandon(flight: nat)

  const INIT := Sys(map[], [], [])

  function SetStage(s: Sys, k: nat, stage: Stage): Sys
    requires k < |s.flights|
  {
    s.(flights := s.flights[k := s.flights[k].(stage := stage)])
  }

  function DoStore(s: Sys, k: nat): Sys
    requires k < |s.flights| && s.flights[k].stage.Loaded?
  {
    var f := s.flights[k];
    if f.id !in s.rows then SetStage(s, k, Over)
    else
      SetStage(s, k, Over).(
        rows := Reset(s.rows, f.id, f.stage.attempts),
        log := s.log + [ResetEvent(s.rows[f.id], f)])
  }

  function ResetEvent(row: Row, f: Flight): Event
    requires f.stage.Loaded?
  {
    WasReset(f.id, f.stage.attempts != row.attemptCount, !row.failed, f.retry, f.since, f.stage.at)
  }

  function Apply(s: Sys, step: Step): Sys {
    match step
    case Add(id, now) => if id in s.rows then s else s.(rows := s.rows[id := NewRow(now)])
    case MarkPublished(id, now) => s.(rows := Publish(s.rows, id, now))
    case MarkFailed(id, message, now) =>
      if id in s.rows
      then s.(rows := Fail(s.rows, id, message, now), log := s.log + [WasMarkedFailed(id, s.rows[id].failed)])
      else s
    case BeginReset(id) => s.(flights := s.flights + [Flight(id, false, |s.log|, Checked)])
    case BeginRetry(id) =>
      if id in s.rows && s.rows[id].failed then s.(flights := s.flights + [Flight(id, true, |s.log|, Checked)]) else s
    case Load(k) =>
      if k < |s.flights| && s.flights[k].stage.Checked?
      then SetStage(s, k, Loaded(Attempts(s.rows, s.flights[k].id), |s.log|)) else s
    case Store(k) => if k < |s.flights| && s.flights[k].stage.Loaded? then DoStore(s, k) else s
    case Abandon(k) => if k < |s.flights| then SetStage(s, k, Over) else s
  }

  function Run(s: Sys, steps: seq<Step>): Sys
    decreases |steps|
  {
    if steps == [] then s else Run(Apply(s, steps[0]), steps[1..])
  }

  // ---------------------------------------------------------------------------------------------
  // Lifecycle

  lemma {:induction false} RunKeepsConsistent(s: Sys, steps: seq<Step>)
    requires Consistent(s.rows)
    ensures Consistent(Run(s, steps).rows)
    decreases |steps|
  {
    if steps != [] {
      RunKeepsConsistent(Apply(s, steps[0]), steps[1..]);
    }
  }

  /** In every run: failed, the time of failure and the error message come and go together; published rows have their time. */
  lemma RowsStayConsistent(steps: seq<Step>)
    ensures Consistent(Run(INIT, steps).rows)
  {
    RunKeepsConsistent(INIT, steps);
  }

  // ---------------------------------------------------------------------------------------------
  // Counting

  datatype Kind =
    | Failures | RepeatedFailures
    | Resets | StaleResets
    | Retries | LateRetries | TimelyRetries | TimelyOthers

  predicate IsReset(e: Event, id: string) {
    e.WasReset? && e.id == id
  }

  predicate IsA(e: Event, id: string, kind: Kind) {
    match kind
    case Failures => e.WasMarkedFailed? && e.id == id
    case RepeatedFailures => e == WasMarkedFailed(id, true)
    case Resets => IsReset(e, id)
    case StaleResets => IsReset(e, id) && e.stale
    case Retries => IsReset(e, id) && e.retry
    case LateRetries => IsReset(e, id) && e.retry && e.late
    case TimelyRetries => IsReset(e, id) && e.retry && !e.late
    case TimelyOthers => IsReset(e, id) && !e.retry && !e.late
  }

  function Count(log: seq<Event>, id: string, kind: Kind): nat {
    if log == [] then 0 else Count(log[..|log| - 1], id, kind) + if IsA(log[|log| - 1], id, kind) then 1 else 0
  }

  /** What one step adds to the log. */
  function Logged(s: Sys, step: Step): seq<Event> {
    match step
    case MarkFailed(id, _, _) => if id in s.rows then [WasMarkedFailed(id, s.rows[id].failed)] else []
    case Store(k) =>
      if k < |s.flights| && s.flights[k].stage.Loaded? && s.flights[k].id in s.rows
      then [ResetEvent(s.rows[s.flights[k].id], s.flights[k])] else []
    case _ => []
  }

  lemma StepLogs(s: Sys, step: Step)
    ensures Apply(s, step).log == s.log + Logged(s, step)
  {}

  lemma CountAppend(log: seq<Event>, more: seq<Event>, id: string, kind: Kind)
    requires |more| <= 1
    ensures Count(log + more, id, kind) == Count(log, id, kind) + if more != [] && IsA(more[0], id, kind) then 1 else 0
  {
    if more == [] {
      assert log + more == log;
    } else {
      assert (log + more)[..|log|] == log;
    }
  }

  lemma StepCounts(s: Sys, step: Step, id: string, kind: Kind)
    ensures Count(Apply(s, step).log, id, kind) ==
      Count(s.log, id, kind) + if Logged(s, step) != [] && IsA(Logged(s, step)[0], id, kind) then 1 else 0
  {
    StepLogs(s, step);
    CountAppend(s.log, Logged(s, step), id, kind);
  }

  predicate Standing(rows: Table, id: string) {
    id in rows && rows[id].failed
  }

  /** What was logged tells how the row stood before and how it stands after. */
  predicate Records(s: Sys, s': Sys, more: seq<Event>, id: string) {
    && |more| <= 1 && s'.log == s.log + more
    && (id in s.rows ==> id in s'.rows)
    && if more == [] || more[0].id != id then Standing(s'.rows, id) == Standing(s.rows, id)
       else
         match more[0]
         case WasMarkedFailed(_, repeated) => Standing(s'.rows, id) && repeated == Standing(s.rows, id)
         case WasReset(_, _, late, _, _, _) => id in s.rows && !Standing(s'.rows, id) && late == !Standing(s.rows, id)
  }

  lemma StepRecords(s: Sys, step: Step, id: string)
    ensures Records(s, Apply(s, step), Logged(s, step), id)
  {
    assert s.log + [] == s.log;
  }

  // ---------------------------------------------------------------------------------------------
  // Attempt counts

  predicate LoadedOn(f: Flight, id: string) {
    f.id == id && f.stage.Loaded?
  }

  /** The row's count against the resets completed on it, and every count still to be written back. */
  ghost predicate Tallied(s: Sys, id: string) {
    var resets, stale := Count(s.log, id, Resets), Count(s.log, id, StaleResets);
    && (id !in s.rows ==> resets == 0 && stale == 0)
    && (id in s.rows ==> s.rows[id].attemptCount <= resets && (0 < resets ==> 0 < s.rows[id].attemptCount))
    && (id in s.rows ==> (s.rows[id].attemptCount == resets <==> stale == 0))
    && (forall k :: 0 <= k < |s.flights| && LoadedOn(s.flights[k], id) ==>
          s.flights[k].stage.attempts <= resets && (0 < stale ==> s.flights[k].stage.attempts < resets))
  }

  lemma StepKeepsTallied(s: Sys, step: Step, id: string)
    requires Tallied(s, id)
    ensures Tallied(Apply(s, step), id)
  {
    StepCounts(s, step, id, Resets);
    StepCounts(s, step, id, StaleResets);
  }

  lemma {:induction false} RunKeepsTallied(s: Sys, steps: seq<Step>, id: string)
    requires Tallied(s, id)
    ensures Tallied(Run(s, steps), id)
    decreases |steps|
  {
    if steps != [] {
      StepKeepsTallied(s, steps[0], id);
      RunKeepsTallied(Apply(s, steps[0]), steps[1..], id);
    }
  }

  /**
    After any interleaving the attempt count lies between one and the number of completed resets, once there
    is one; and it equals that number exactly when no reset ever wrote back a count that was no longer current.
  */
  lemma AttemptCountBounds(steps: seq<Step>, id: string)
    requires id in Run(INIT, steps).rows
    ensures var s := Run(INIT, steps);
            var resets := Count(s.log, id, Resets);
            && s.rows[id].attemptCount <= resets
            && (0 < resets ==> 1 <= s.rows[id].attemptCount)
            && (s.rows[id].attemptCount == resets <==> Count(s.log, id, StaleResets) == 0)
  {
    RunKeepsTallied(INIT, steps, id);
  }

  // ---------------------------------------------------------------------------------------------
  // Which schedules lose counts

  /** Another reset of the row was written between this one's read and its write. */
  ghost predicate WroteBetween(log: seq<Event>, id: string, lo: int, hi: int) {
    exists a :: 0 <= lo <= a < hi <= |log| && IsReset(log[a], id)
  }

  lemma {:induction false} CountGrows(log: seq<Event>, id: string, kind: Kind, lo: nat, hi: nat)
    requires lo <= hi <= |log|
    ensures Count(log[..lo], id, kind) <= Count(log[..hi], id, kind)
    decreases hi
  {
    if lo < hi {
      assert log[..hi][..hi - 1] == log[..hi - 1];
      CountGrows(log, id, kind, lo, hi - 1);
    }
  }

  lemma {:induction false} CountsDiffer(log: seq<Event>, id: string, lo: nat, hi: nat)
    requires lo <= hi <= |log|
    ensures Count(log[..lo], id, Resets) != Count(log[..hi], id, Resets) <==> WroteBetween(log, id, lo, hi)
    decreases hi
  {
    if lo < hi {
      var n := hi - 1;
      assert log[..hi][..n] == log[..n];
      CountsDiffer(log, id, lo, n);
      CountGrows(log, id, Resets, lo, n);
      if WroteBetween(log, id, lo, hi) && !IsReset(log[n], id) {
        var a :| 0 <= lo <= a < hi <= |log| && IsReset(log[a], id);
        assert WroteBetween(log, id, lo, n);
      }
    }
  }

  /** As long as nothing stale was written, a count that was read is the number of resets at that time. */
  predicate ReadFits(log: seq<Event>, id: string, attempts: nat, at: nat) {
    at <= |log| && (Count(log[..at], id, StaleResets) == 0 ==> attempts == Count(log[..at], id, Resets))
  }

  /** And a reset is stale exactly if the number of resets has changed since it read the count. */
  predicate StaleFits(log: seq<Event>, id: string, k: nat)
    requires k < |log|
  {
    IsReset(log[k], id) ==>
      && log[k].read <= k
      && (Count(log[..k], id, StaleResets) == 0 ==>
            (log[k].stale <==> Count(log[..log[k].read], id, Resets) != Count(log[..k], id, Resets)))
  }

  ghost predicate Fitting(s: Sys, id: string) {
    && (forall k :: 0 <= k < |s.flights| && LoadedOn(s.flights[k], id) ==>
          ReadFits(s.log, id, s.flights[k].stage.attempts, s.flights[k].stage.at))
    && (forall k: nat :: k < |s.log| ==> StaleFits(s.log, id, k))
  }

  /** A count is read from the row, and a reset compares what its flight has read with the row. */
  ghost predicate Reads(s: Sys, s': Sys, more: seq<Event>, id: string) {
    && |more| <= 1 && s'.log == s.log + more
    && (forall k :: 0 <= k < |s'.flights| && LoadedOn(s'.flights[k], id) ==>
          || (k < |s.flights| && s'.flights[k] == s.flights[k])
          || s'.flights[k].stage == Loaded(Attempts(s.rows, id), |s.log|))
    && (more != [] && IsReset(more[0], id) ==>
          id in s.rows && exists k :: 0 <= k < |s.flights| && WrittenBy(more[0], s.flights[k], s.rows[id]))
  }

  /** The reset is the write of this flight to this row. */
  predicate WrittenBy(e: Event, f: Flight, row: Row) {
    && e.WasReset? && LoadedOn(f, e.id)
    && e.read == f.stage.at && (e.stale <==> f.stage.attempts != row.attemptCount)
  }

  lemma StepReads(s: Sys, step: Step, id: string)
    ensures Reads(s, Apply(s, step), Logged(s, step), id)
  {
    assert s.log + [] == s.log;
  }

  lemma ReadFitsStays(log: seq<Event>, more: seq<Event>, id: string, attempts: nat, at: nat)
    requires ReadFits(log, id, attempts, at)
    ensures ReadFits(log + more, id, attempts, at)
  {
    assert (log + more)[..at] == log[..at];
  }

  lemma RowFitsRead(s: Sys, id: string)
    requires Tallied(s, id)
    ensures ReadFits(s.log, id, Attempts(s.rows, id), |s.log|)
  {
    assert s.log[..|s.log|] == s.log;
  }

  lemma StaleFitsStays(s: Sys, s': Sys, more: seq<Event>, id: string, k: nat)
    requires Tallied(s, id) && Fitting(s, id) && Reads(s, s', more, id) && k < |s'.log|
    ensures StaleFits(s'.log, id, k)
  {
    assert s'.log[..k] == s.log[..k];
    if k < |s.log| {
      assert StaleFits(s.log, id, k);
      if IsReset(s.log[k], id) {
        assert s'.log[..s.log[k].read] == s.log[..s.log[k].read];
      }
    } else if IsReset(s'.log[k], id) {
      var j :| 0 <= j < |s.flights| && WrittenBy(s'.log[k], s.flights[j], s.rows[id]);
      var r := s.flights[j].stage.at;
      assert s'.log[..r] == s.log[..r] && s.log[..k] == s.log;
      CountGrows(s.log, id, StaleResets, r, k);
    }
  }

  lemma ReadsKeepFitting(s: Sys, s': Sys, more: seq<Event>, id: string)
    requires Tallied(s, id) && Fitting(s, id) && Reads(s, s', more, id)
    ensures Fitting(s', id)
  {
    forall k: nat | k < |s'.log|
      ensures StaleFits(s'.log, id, k)
    {
      StaleFitsStays(s, s', more, id, k);
    }
    RowFitsRead(s, id);
    forall k | 0 <= k < |s'.flights| && LoadedOn(s'.flights[k], id)
      ensures ReadFits(s'.log, id, s'.flights[k].stage.attempts, s'.flights[k].stage.at)
    {
      ReadFitsStays(s.log, more, id, s'.flights[k].stage.attempts, s'.flights[k].stage.at);
    }
  }

  lemma {:induction false} RunKeepsFitting(s: Sys, steps: seq<Step>, id: string)
    requires Tallied(s, id) && Fitting(s, id)
    ensures Fitting(Run(s, steps), id)
    decreases |steps|
  {
    if steps != [] {
      StepReads(s, steps[0], id);
      ReadsKeepFitting(s, Apply(s, steps[0]), Logged(s, steps[0]), id);
      StepKeepsTallied(s, steps[0], id);
      RunKeepsFitting(Apply(s, steps[0]), steps[1..], id);
    }
  }

  /** No reset of the row was written between another one's read and its write. */
  ghost predicate NoneBetween(log: seq<Event>, id: string, n: int) {
    forall k :: 0 <= k < n <= |log| && IsReset(log[k], id) ==> !WroteBetween(log, id, log[k].read, k)
  }

  lemma {:induction false} StaleExactly(log: seq<Event>, id: string, n: nat)
    requires n <= |log| && forall k: nat :: k < |log| ==> StaleFits(log, id, k)
    ensures Count(log[..n], id, StaleResets) == 0 <==> NoneBetween(log, id, n)
    decreases n
  {
    if n > 0 {
      var k := n - 1;
      assert log[..n][..k] == log[..k];
      StaleExactly(log, id, k);
      assert StaleFits(log, id, k);
      if IsReset(log[k], id) {
        CountsDiffer(log, id, log[k].read, k);
      }
      assert NoneBetween(log, id, n) <==>
        NoneBetween(log, id, k) && (IsReset(log[k], id) ==> !WroteBetween(log, id, log[k].read, k));
    }
  }

  /**
    In every run: the attempt count is the number of completed resets exactly if no reset of the row was
    written between another one's read and its write.
  */
  lemma AttemptCountExactly(steps: seq<Step>, id: string)
    requires id in Run(INIT, steps).rows
    ensures var s := Run(INIT, steps);
            s.rows[id].attemptCount == Count(s.log, id, Resets) <==> NoneBetween(s.log, id, |s.log|)
  {
    var s := Run(INIT, steps);
    RunKeepsTallied(INIT, steps, id);
    RunKeepsFitting(INIT, steps, id);
    StaleExactly(s.log, id, |s.log|);
    assert s.log[..|s.log|] == s.log;
  }

  // ---------------------------------------------------------------------------------------------
  // Resets that do not overlap

  /** No reset of the row reads the count while another has read and not yet written it. */
  ghost predicate SerialResets(s: Sys, steps: seq<Step>, id: string)
    decreases |steps|
  {
    steps != [] ==>
      && (steps[0].Load? && steps[0].flight < |s.flights| && s.flights[steps[0].flight].id == id ==>
            forall k :: 0 <= k < |s.flights| ==> !LoadedOn(s.flights[k], id))
      && SerialResets(Apply(s, steps[0]), steps[1..], id)
  }

  ghost predicate FreshLoads(s: Sys, id: string) {
    && (forall j, k :: 0 <= j < k < |s.flights| ==> !(LoadedOn(s.flights[j], id) && LoadedOn(s.flights[k], id)))
    && (forall k :: 0 <= k < |s.flights| && LoadedOn(s.flights[k], id) ==> s.flights[k].stage.attempts == Attempts(s.rows, id))
    && Count(s.log, id, StaleResets) == 0
  }

  lemma StepKeepsFresh(s: Sys, step: Step, id: string)
    requires FreshLoads(s, id)
    requires step.Load? && step.flight < |s.flights| && s.flights[step.flight].id == id ==>
      forall k :: 0 <= k < |s.flights| ==> !LoadedOn(s.flights[k], id)
    ensures FreshLoads(Apply(s, step), id)
  {
    OneLoaded(s, step, id);
    LoadsStayFresh(s, step, id);
    NothingStale(s, step, id);
  }

  lemma LoadsStayFresh(s: Sys, step: Step, id: string)
    requires FreshLoads(s, id)
    ensures var s' := Apply(s, step);
            forall k :: 0 <= k < |s'.flights| && LoadedOn(s'.flights[k], id) ==>
              s'.flights[k].stage.attempts == Attempts(s'.rows, id)
  {
    var s' := Apply(s, step);
    forall k | 0 <= k < |s'.flights| && LoadedOn(s'.flights[k], id)
      ensures s'.flights[k].stage.attempts == Attempts(s'.rows, id)
    {
      assert k < |s.flights| && (LoadedOn(s.flights[k], id) || step == Load(k));
    }
  }

  lemma NothingStale(s: Sys, step: Step, id: string)
    requires FreshLoads(s, id)
    ensures Count(Apply(s, step).log, id, StaleResets) == 0
  {
    StepCounts(s, step, id, StaleResets);
  }

  lemma OneLoaded(s: Sys, step: Step, id: string)
    requires forall j, k :: 0 <= j < k < |s.flights| ==> !(LoadedOn(s.flights[j], id) && LoadedOn(s.flights[k], id))
    requires step.Load? && step.flight < |s.flights| && s.flights[step.flight].id == id ==>
      forall k :: 0 <= k < |s.flights| ==> !LoadedOn(s.flights[k], id)
    ensures var fs := Apply(s, step).flights;
            forall j, k :: 0 <= j < k < |fs| ==> !(LoadedOn(fs[j], id) && LoadedOn(fs[k], id))
  {}

  lemma {:induction false} SerialResetsStayFresh(s: Sys, steps: seq<Step>, id: string)
    requires FreshLoads(s, id) && SerialResets(s, steps, id)
    ensures Count(Run(s, steps).log, id, StaleResets) == 0
    decreases |steps|
  {
    if steps != [] {
      StepKeepsFresh(s, steps[0], id);
      SerialResetsStayFresh(Apply(s, steps[0]), steps[1..], id);
    }
  }

  /** When no two resets of a row overlap, its attempt count is the number of completed resets. */
  lemma SerialResetsAreCounted(steps: seq<Step>, id: string)
    requires SerialResets(INIT, steps, id) && id in Run(INIT, steps).rows
    ensures Run(INIT, steps).rows[id].attemptCount == Count(Run(INIT, steps).log, id, Resets)
  {
    SerialResetsStayFresh(INIT, steps, id);
    AttemptCountBounds(steps, id);
  }

  // ---------------------------------------------------------------------------------------------
  // Admin retries

  predicate Retrying(f: Flight, id: string) {
    f.id == id && f.retry && !f.stage.Over?
  }

  ghost predicate UnderRetry(s: Sys, id: string) {
    exists k :: 0 <= k < |s.flights| && Retrying(s.flights[k], id)
  }

  /** No retry of the row passes its check while another is under way. */
  ghost predicate SerialRetries(s: Sys, steps: seq<Step>, id: string)
    decreases |steps|
  {
    steps != [] ==>
      && (steps[0] == BeginRetry(id) ==> !UnderRetry(s, id))
      && SerialRetries(Apply(s, steps[0]), steps[1..], id)
  }

  /** Each retry, done or under way, and a failure still standing, each has its own `mark_failed`. */
  ghost predicate Paid(s: Sys, id: string) {
    && (forall j, k :: 0 <= j < k < |s.flights| ==> !(Retrying(s.flights[j], id) && Retrying(s.flights[k], id)))
    && (UnderRetry(s, id) ==> id in s.rows)
    && Count(s.log, id, Retries) + (if UnderRetry(s, id) || Standing(s.rows, id) then 1 else 0)
       <= Count(s.log, id, Failures)
  }

  lemma StepKeepsPaid(s: Sys, step: Step, id: string)
    requires Paid(s, id) && (step == BeginRetry(id) ==> !UnderRetry(s, id))
    ensures Paid(Apply(s, step), id)
  {
    StepKeepsOneRetry(s, step, id);
    StepRecords(s, step, id);
    if step.Store? && step.flight < |s.flights| && Retrying(s.flights[step.flight], id) {
      assert UnderRetry(s, id);
    }
    RecordKeepsPaid(s, Apply(s, step), Logged(s, step), id);
  }

  lemma RecordKeepsPaid(s: Sys, s': Sys, more: seq<Event>, id: string)
    requires Paid(s, id) && Records(s, s', more, id)
    requires forall j, k :: 0 <= j < k < |s'.flights| ==> !(Retrying(s'.flights[j], id) && Retrying(s'.flights[k], id))
    requires UnderRetry(s', id) ==> UnderRetry(s, id) || Standing(s.rows, id)
    requires more != [] && IsA(more[0], id, Retries) ==> UnderRetry(s, id) && !UnderRetry(s', id)
    ensures Paid(s', id)
  {
    CountAppend(s.log, more, id, Retries);
    CountAppend(s.log, more, id, Failures);
  }

  lemma StepKeepsOneRetry(s: Sys, step: Step, id: string)
    requires forall j, k :: 0 <= j < k < |s.flights| ==> !(Retrying(s.flights[j], id) && Retrying(s.flights[k], id))
    requires step == BeginRetry(id) ==> !UnderRetry(s, id)
    ensures var fs := Apply(s, step).flights;
            forall j, k :: 0 <= j < k < |fs| ==> !(Retrying(fs[j], id) && Retrying(fs[k], id))
    ensures UnderRetry(Apply(s, step), id) ==>
              UnderRetry(s, id) || (step == BeginRetry(id) && id in s.rows && s.rows[id].failed)
    ensures (step.Store? && step.flight < |s.flights| && Retrying(s.flights[step.flight], id)
             && s.flights[step.flight].stage.Loaded?) ==> !UnderRetry(Apply(s, step), id)
  {
    var s' := Apply(s, step);
    if UnderRetry(s', id) && !(step == BeginRetry(id) && id in s.rows && s.rows[id].failed) {
      var k :| 0 <= k < |s'.flights| && Retrying(s'.flights[k], id);
      assert k < |s.flights| && Retrying(s.flights[k], id);
    }
  }

  lemma {:induction false} RunKeepsPaid(s: Sys, steps: seq<Step>, id: string)
    requires Paid(s, id) && SerialRetries(s, steps, id)
    ensures Paid(Run(s, steps), id)
    decreases |steps|
  {
    if steps != [] {
      StepKeepsPaid(s, steps[0], id);
      RunKeepsPaid(Apply(s, steps[0]), steps[1..], id);
    }
  }

  /** When retries of a row do not overlap, they never outnumber the times the row was marked failed. */
  lemma RetriesArePaidFor(steps: seq<Step>, id: string)
    requires SerialRetries(INIT, steps, id)
    ensures Count(Run(INIT, steps).log, id, Retries) <= Count(Run(INIT, steps).log, id, Failures)
  {
    RunKeepsPaid(INIT, steps, id);
  }

  // ---------------------------------------------------------------------------------------------
  // The balance of failures and retries

  /** Failures that were not repetitions, less timely resets. */
  function Net(log: seq<Event>, id: string): int {
    if log == [] then 0
    else
      Net(log[..|log| - 1], id)
      + match log[|log| - 1]
        case WasMarkedFailed(x, repeated) => if x == id && !repeated then 1 else 0
        case WasReset(x, _, late, _, _, _) => if x == id && !late then -1 else 0
  }

  lemma {:induction false} NetCounts(log: seq<Event>, id: string)
    ensures Net(log, id) == Count(log, id, Failures) - Count(log, id, RepeatedFailures)
                            - Count(log, id, TimelyRetries) - Count(log, id, TimelyOthers)
  {
    if log != [] {
      NetCounts(log[..|log| - 1], id);
    }
  }

  lemma RecordKeepsNet(s: Sys, s': Sys, more: seq<Event>, id: string)
    requires Records(s, s', more, id) && Net(s.log, id) == if Standing(s.rows, id) then 1 else 0
    ensures Net(s'.log, id) == if Standing(s'.rows, id) then 1 else 0
  {
    if more == [] {
      assert s'.log == s.log;
    } else {
      assert s'.log[..|s.log|] == s.log;
    }
  }

  lemma {:induction false} RunKeepsNet(s: Sys, steps: seq<Step>, id: string)
    requires Net(s.log, id) == if Standing(s.rows, id) then 1 else 0
    ensures Net(Run(s, steps).log, id) == if Standing(Run(s, steps).rows, id) then 1 else 0
    decreases |steps|
  {
    if steps != [] {
      StepRecords(s, steps[0], id);
      RecordKeepsNet(s, Apply(s, steps[0]), Logged(s, steps[0]), id);
      RunKeepsNet(Apply(s, steps[0]), steps[1..], id);
    }
  }

  lemma {:induction false} RetriesSplit(log: seq<Event>, id: string)
    ensures Count(log, id, Retries) == Count(log, id, TimelyRetries) + Count(log, id, LateRetries)
  {
    if log != [] {
      RetriesSplit(log[..|log| - 1], id);
    }
  }

  /**
    In every run each failure that was not a repetition has been reset in time, by a retry or otherwise, or
    still stands. So only late retries, which find the row no longer failed, can push the retries beyond
    the failures, and they do exactly if they outnumber what the other failures leave over.
  */
  lemma RetryBalance(steps: seq<Step>, id: string)
    ensures var s := Run(INIT, steps);
            && Count(s.log, id, Failures) ==
                 Count(s.log, id, RepeatedFailures) + Count(s.log, id, TimelyRetries) + Count(s.log, id, TimelyOthers)
                 + (if Standing(s.rows, id) then 1 else 0)
            && Count(s.log, id, Retries) <= Count(s.log, id, Failures) + Count(s.log, id, LateRetries)
            && (Count(s.log, id, Retries) <= Count(s.log, id, Failures) <==>
                  Count(s.log, id, LateRetries) <=
                    Count(s.log, id, RepeatedFailures) + Count(s.log, id, TimelyOthers)
                    + if Standing(s.rows, id) then 1 else 0)
  {
    RunKeepsNet(INIT, steps, id);
    NetCounts(Run(INIT, steps).log, id);
    RetriesSplit(Run(INIT, steps).log, id);
  }

  // ---------------------------------------------------------------------------------------------
  // Which failures are retried twice

  /** Whether the row was last marked failed or last reset. */
  function FailedIn(log: seq<Event>, id: string): bool {
    if log == [] then false
    else if log[|log| - 1].id == id then log[|log| - 1].WasMarkedFailed?
    else FailedIn(log[..|log| - 1], id)
  }

  /** The log tells which rows are failed and which resets were late, and that a retry began on a failed row. */
  ghost predicate Told(s: Sys, id: string) {
    && (Standing(s.rows, id) <==> FailedIn(s.log, id))
    && (forall k :: 0 <= k < |s.log| && IsReset(s.log[k], id) ==> s.log[k].late == !FailedIn(s.log[..k], id))
    && (forall k :: 0 <= k < |s.flights| && s.flights[k].id == id && s.flights[k].retry ==>
          BeganFailed(s.log, id, s.flights[k].since, |s.log|))
    && (forall k :: 0 <= k < |s.log| && IsReset(s.log[k], id) && s.log[k].retry ==>
          BeganFailed(s.log, id, s.log[k].since, k))
  }

  predicate BeganFailed(log: seq<Event>, id: string, since: nat, k: int) {
    since <= k <= |log| && FailedIn(log[..since], id)
  }

  ghost predicate FailedBefore(log: seq<Event>, id: string, k: int) {
    exists j :: 0 <= j < k <= |log| && IsA(log[j], id, Failures)
  }

  lemma {:induction false} FailedInHasCause(log: seq<Event>, id: string)
    requires FailedIn(log, id)
    ensures FailedBefore(log, id, |log|)
  {
    var n := |log| - 1;
    if log[n].id == id {
      assert IsA(log[n], id, Failures);
    } else {
      FailedInHasCause(log[..n], id);
      var j :| 0 <= j < n && IsA(log[..n][j], id, Failures);
      assert IsA(log[j], id, Failures);
    }
  }

  lemma BeganFailedStays(log: seq<Event>, more: seq<Event>, id: string, since: nat, k: int)
    requires BeganFailed(log, id, since, k)
    ensures BeganFailed(log + more, id, since, k) && BeganFailed(log + more, id, since, |log + more|)
  {
    assert (log + more)[..since] == log[..since];
  }

  lemma FailedInAppend(log: seq<Event>, more: seq<Event>, id: string)
    requires |more| <= 1
    ensures FailedIn(log + more, id) ==
      if more != [] && more[0].id == id then more[0].WasMarkedFailed? else FailedIn(log, id)
  {
    if more == [] {
      assert log + more == log;
    } else {
      assert (log + more)[..|log|] == log;
    }
  }

  /** The flights stay what they are, and a retry that begins finds the row failed. */
  ghost predicate FlightsGrow(s: Sys, s': Sys, id: string) {
    && |s.flights| <= |s'.flights|
    && (forall k :: 0 <= k < |s.flights| ==>
          && s'.flights[k].id == s.flights[k].id && s'.flights[k].retry == s.flights[k].retry
          && s'.flights[k].since == s.flights[k].since)
    && (forall k :: |s.flights| <= k < |s'.flights| && s'.flights[k].id == id && s'.flights[k].retry ==>
          Standing(s.rows, id) && s'.flights[k].since == |s.log|)
  }

  /** A logged retry is that of some flight. */
  ghost predicate Flown(s: Sys, more: seq<Event>, id: string) {
    more != [] && IsA(more[0], id, Retries) ==>
      exists k :: 0 <= k < |s.flights| && s.flights[k].id == id && s.flights[k].retry && s.flights[k].since == more[0].since
  }

  lemma StepGrowsFlights(s: Sys, step: Step, id: string)
    ensures FlightsGrow(s, Apply(s, step), id) && Flown(s, Logged(s, step), id)
  {}

  lemma RecordKeepsTold(s: Sys, s': Sys, more: seq<Event>, id: string)
    requires Told(s, id) && Records(s, s', more, id) && FlightsGrow(s, s', id) && Flown(s, more, id)
    ensures Told(s', id)
  {
    FailedInAppend(s.log, more, id);
    ResetsStayTold(s, s', more, id);
    forall k | 0 <= k < |s'.flights| && s'.flights[k].id == id && s'.flights[k].retry
      ensures BeganFailed(s'.log, id, s'.flights[k].since, |s'.log|)
    {
      if k >= |s.flights| {
        assert s.log[..|s.log|] == s.log;
      }
      BeganFailedStays(s.log, more, id, s'.flights[k].since, |s.log|);
    }
  }

  lemma ResetsStayTold(s: Sys, s': Sys, more: seq<Event>, id: string)
    requires Told(s, id) && Records(s, s', more, id) && Flown(s, more, id)
    ensures forall k :: 0 <= k < |s'.log| && IsReset(s'.log[k], id) ==>
              && s'.log[k].late == !FailedIn(s'.log[..k], id)
              && (s'.log[k].retry ==> BeganFailed(s'.log, id, s'.log[k].since, k))
  {
    forall k | 0 <= k < |s'.log| && IsReset(s'.log[k], id)
      ensures s'.log[k].late == !FailedIn(s'.log[..k], id)
      ensures s'.log[k].retry ==> BeganFailed(s'.log, id, s'.log[k].since, k)
    {
      assert s'.log[..k] == s.log[..k];
      if k == |s.log| {
        assert s.log[..k] == s.log;
      }
      if s'.log[k].retry {
        BeganFailedStays(s.log, more, id, s'.log[k].since, k);
      }
    }
  }

  lemma {:induction false} RunKeepsTold(s: Sys, steps: seq<Step>, id: string)
    requires Told(s, id)
    ensures Told(Run(s, steps), id)
    decreases |steps|
  {
    if steps != [] {
      StepRecords(s, steps[0], id);
      StepGrowsFlights(s, steps[0], id);
      RecordKeepsTold(s, Apply(s, steps[0]), Logged(s, steps[0]), id);
      RunKeepsTold(Apply(s, steps[0]), steps[1..], id);
    }
  }

  /** No failure of the row is recorded after a and before b. */
  ghost predicate NoFailureBetween(log: seq<Event>, id: string, a: int, b: int) {
    forall j :: 0 <= a < j < b <= |log| ==> !IsA(log[j], id, Failures)
  }

  /** Event a resets the row, and event b still finds it so. */
  ghost predicate ResetStands(log: seq<Event>, id: string, a: int, b: int) {
    0 <= a < b <= |log| && IsReset(log[a], id) && NoFailureBetween(log, id, a, b)
  }

  lemma {:induction false} FailedInExactly(log: seq<Event>, id: string, k: nat)
    requires k <= |log| && FailedBefore(log, id, k)
    ensures !FailedIn(log[..k], id) <==> exists a :: ResetStands(log, id, a, k)
    decreases k
  {
    var n := k - 1;
    assert log[..k][..n] == log[..n] && log[..k][n] == log[n];
    if log[n].id == id {
      if log[n].WasReset? {
        assert ResetStands(log, id, n, k);
      } else {
        assert IsA(log[n], id, Failures);
      }
    } else {
      var j :| 0 <= j < k && IsA(log[j], id, Failures);
      assert FailedBefore(log, id, n);
      FailedInExactly(log, id, n);
      assert forall a :: ResetStands(log, id, a, k) <==> ResetStands(log, id, a, n);
    }
  }

  /** In every run: a retry comes late exactly if a reset has come between it and the failure it was asked for. */
  lemma RetryIsLateExactly(steps: seq<Step>, id: string, b: nat)
    requires var log := Run(INIT, steps).log; b < |log| && IsReset(log[b], id) && log[b].retry
    ensures var log := Run(INIT, steps).log; log[b].late <==> exists a :: ResetStands(log, id, a, b)
  {
    var log := Run(INIT, steps).log;
    RunKeepsTold(INIT, steps, id);
    HadCause(log, id, log[b].since, b);
    FailedInExactly(log, id, b);
  }

  lemma HadCause(log: seq<Event>, id: string, since: nat, k: int)
    requires BeganFailed(log, id, since, k)
    ensures FailedBefore(log, id, k)
  {
    FailedInHasCause(log[..since], id);
    var j :| 0 <= j < since && IsA(log[..since][j], id, Failures);
    assert IsA(log[j], id, Failures);
  }

  /** Two retries with no failure between them: the failure before them is retried twice. */
  ghost predicate RetriedTwice(log: seq<Event>, id: string, a: int, b: int) {
    0 <= a < b < |log| && IsA(log[a], id, Retries) && IsA(log[b], id, Retries) && NoFailureBetween(log, id, a, b)
  }

  /** Both are retries, and when the first wrote, the second had passed its check already. */
  predicate Overlap(log: seq<Event>, id: string, a: int, b: int) {
    0 <= a < b < |log| && IsA(log[a], id, Retries) && IsA(log[b], id, Retries) && log[b].since <= a
  }

  /** A retry that checks the row after a reset finds it failed only by another failure. */
  lemma ResetNeedsFailure(log: seq<Event>, id: string, a: nat, since: nat, b: nat)
    requires a < since <= b <= |log| && IsReset(log[a], id) && FailedIn(log[..since], id)
    ensures !NoFailureBetween(log, id, a, b)
  {
    HadCause(log, id, since, since);
    FailedInExactly(log, id, since);
    if NoFailureBetween(log, id, a, b) {
      assert ResetStands(log, id, a, since);
      assert false;
    }
  }

  /**
    In every run: a failure is retried by both a and b exactly if the two overlapped, b past its check when a
    wrote, and no other failure came between their writes. So retries that do not overlap each have a failure
    of their own, and it takes both a late check and a quiet interval to retry one twice.
  */
  lemma RetriedTwiceExactly(steps: seq<Step>, id: string, a: nat, b: nat)
    ensures var log := Run(INIT, steps).log;
            RetriedTwice(log, id, a, b) <==> Overlap(log, id, a, b) && NoFailureBetween(log, id, a, b)
  {
    var log := Run(INIT, steps).log;
    RunKeepsTold(INIT, steps, id);
    if RetriedTwice(log, id, a, b) && a < log[b].since {
      ResetNeedsFailure(log, id, a, log[b].since, b);
    }
  }

  /** Of the row's failures and retries, the last is a failure. */
  predicate LastIsFailure(log: seq<Event>, id: string) {
    if log == [] then false
    else
      var e := log[|log| - 1];
      IsA(e, id, Failures) || (!IsA(e, id, Retries) && LastIsFailure(log[..|log| - 1], id))
  }

  lemma {:induction false} LastIsRetry(log: seq<Event>, id: string, n: nat) returns (a: nat)
    requires FailedBefore(log, id, n) && !LastIsFailure(log[..n], id)
    ensures a < n && IsA(log[a], id, Retries) && NoFailureBetween(log, id, a, n)
    decreases n
  {
    a := n - 1;
    assert log[..n][..a] == log[..a] && log[..n][a] == log[a];
    if !IsA(log[a], id, Retries) {
      var j :| 0 <= j < n && IsA(log[j], id, Failures);
      assert FailedBefore(log, id, a);
      a := LastIsRetry(log, id, a);
    }
  }

  lemma {:induction false} UntwiceIsPaid(log: seq<Event>, id: string, n: nat)
    requires n <= |log| && forall a, b :: !RetriedTwice(log, id, a, b)
    requires forall k :: 0 <= k < |log| && IsA(log[k], id, Retries) ==> FailedBefore(log, id, k)
    ensures Count(log[..n], id, Retries) + (if LastIsFailure(log[..n], id) then 1 else 0) <= Count(log[..n], id, Failures)
    decreases n
  {
    if n > 0 {
      var k := n - 1;
      assert log[..n][..k] == log[..k] && log[..n][k] == log[k];
      UntwiceIsPaid(log, id, k);
      if IsA(log[k], id, Retries) && !LastIsFailure(log[..k], id) {
        var a := LastIsRetry(log, id, k);
        assert RetriedTwice(log, id, a, k);
        assert false;
      }
    }
  }

  /** So retries outnumber failures only if some two of them overlap with no failure between their writes. */
  lemma QuietOverlapIsNeeded(steps: seq<Step>, id: string)
    requires var log := Run(INIT, steps).log;
             forall a: nat, b: nat :: !(Overlap(log, id, a, b) && NoFailureBetween(log, id, a, b))
    ensures var log := Run(INIT, steps).log; Count(log, id, Retries) <= Count(log, id, Failures)
  {
    var log := Run(INIT, steps).log;
    RunKeepsTold(INIT, steps, id);
    forall a, b
      ensures !RetriedTwice(log, id, a, b)
    {
      if RetriedTwice(log, id, a, b) {
        RetriedTwiceExactly(steps, id, a, b);
      }
    }
    forall k | 0 <= k < |log| && IsA(log[k], id, Retries)
      ensures FailedBefore(log, id, k)
    {
      HadCause(log, id, log[k].since, k);
    }
    UntwiceIsPaid(log, id, |log|);
    assert log[..|log|] == log;
  }

  // ---------------------------------------------------------------------------------------------
  // A failure that is retried twice

  lemma {:induction false} RunConcat(s: Sys, xs: seq<Step>, ys: seq<Step>)
    ensures Run(s, xs + ys) == Run(Run(s, xs), ys)
    decreases |xs|
  {
    if xs == [] {
      assert xs + ys == ys;
    } else {
      assert (xs + ys)[1..] == xs[1..] + ys;
      RunConcat(Apply(s, xs[0]), xs[1..], ys);
    }
  }

  lemma NextIs(steps: seq<Step>, s: Sys, step: Step, s': Sys)
    requires Run(INIT, steps) == s && Apply(s, step) == s'
    ensures Run(INIT, steps + [step]) == s'
  {
    RunConcat(INIT, steps, [step]);
    assert [step][1..] == [];
    assert Run(Apply(s, step), []) == s';
  }

  /** One failure, two retries past their checks, both with the count read. */
  function TwoLoaded(id: string, message: string): Sys {
    Sys(map[id := NewRow(0.0).(failed := true, failedAt := Some(0.0), errorMessage := Some(message))],
        [Flight(id, true, 1, Loaded(0, 1)), Flight(id, true, 1, Loaded(0, 1))], [WasMarkedFailed(id, false)])
  }

  lemma ReachTwoLoaded(id: string, message: string) returns (steps: seq<Step>)
    ensures Run(INIT, steps) == TwoLoaded(id, message)
  {
    var end := TwoLoaded(id, message);
    var a, b := Flight(id, true, 1, Checked), Flight(id, true, 1, Loaded(0, 1));
    assert [] + [WasMarkedFailed(id, false)] == [WasMarkedFailed(id, false)] && [] + [a] == [a] && [a] + [a] == [a, a];
    steps := [];
    NextIs(steps, INIT, Add(id, 0.0), INIT.(rows := map[id := NewRow(0.0)]));
    steps := steps + [Add(id, 0.0)];
    NextIs(steps, INIT.(rows := map[id := NewRow(0.0)]), MarkFailed(id, message, 0.0), end.(flights := []));
    steps := steps + [MarkFailed(id, message, 0.0)];
    NextIs(steps, end.(flights := []), BeginRetry(id), end.(flights := [a]));
    steps := steps + [BeginRetry(id)];
    NextIs(steps, end.(flights := [a]), BeginRetry(id), end.(flights := [a, a]));
    steps := steps + [BeginRetry(id)];
    NextIs(steps, end.(flights := [a, a]), Load(0), end.(flights := [b, a]));
    steps := steps + [Load(0)];
    NextIs(steps, end.(flights := [b, a]), Load(1), end);
    steps := steps + [Load(1)];
  }

  function TwiceLog(id: string): seq<Event> {
    [WasMarkedFailed(id, false), WasReset(id, false, false, true, 1, 1), WasReset(id, true, true, true, 1, 1)]
  }

  lemma TwiceCounts(id: string)
    ensures var log := TwiceLog(id);
            && Count(log, id, Failures) == 1 && Count(log, id, Retries) == 2
            && Count(log, id, LateRetries) == 1 && Count(log, id, Resets) == 2
  {
    var log := TwiceLog(id);
    assert log == [log[0]] + [log[1]] + [log[2]];
    forall kind: Kind
      ensures Count(log, id, kind) ==
        (if IsA(log[0], id, kind) then 1 else 0) + (if IsA(log[1], id, kind) then 1 else 0)
        + if IsA(log[2], id, kind) then 1 else 0
    {
      CountAppend([], [log[0]], id, kind);
      CountAppend([log[0]], [log[1]], id, kind);
      CountAppend([log[0]] + [log[1]], [log[2]], id, kind);
      assert [] + [log[0]] == [log[0]];
    }
  }

  /** When they do overlap, one failure can be retried twice, and one of the two resets is not counted. */
  lemma OverlappingRetries(id: string, message: string) returns (steps: seq<Step>)
    ensures var s := Run(INIT, steps);
            && Count(s.log, id, Failures) == 1 && Count(s.log, id, Retries) == 2 && Count(s.log, id, LateRetries) == 1
            && id in s.rows && s.rows[id].attemptCount == 1 && Count(s.log, id, Resets) == 2
  {
    steps := ReachTwoLoaded(id, message);
    var start := TwoLoaded(id, message);
    var once := Apply(start, Store(0));
    var twice := Apply(once, Store(1));
    NextIs(steps, start, Store(0), once);
    steps := steps + [Store(0)];
    NextIs(steps, once, Store(1), twice);
    steps := steps + [Store(1)];
    assert twice.log == TwiceLog(id);
    TwiceCounts(id);
  }
}
