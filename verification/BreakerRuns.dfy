/**
  The breaker under concurrent callers. A step is what one task does between two suspension points, the
  order of steps and every outcome are the adversary's, and a step that is not enabled changes nothing,
  so each list of steps is a run.
*/
module BreakerRuns {
  import opened Wrappers
  import opened CircuitBreakers

  datatype Call = Call(probe: bool, running: bool)

  datatype Event =
    | Admitted(call: nat, probe: bool, at: real)
    | TurnedAway(at: real)
    | Succeeded(call: nat)
    | Failed(call: nat, at: real)
    | WasCancelled(call: nat, probe: bool)

  datatype Sys = Sys(breaker: Breaker, now: real, calls: seq<Call>, log: seq<Event>)

  datatype Step =
    | Tick(elapsed: Duration)
    | Look
    | Begin(gap: Duration)
    | EndWell(call: nat)
    | EndBadly(call: nat)
    | EndCancelled(call: nat)

  function Init(threshold: int, resetTimeout: real, now: real): Sys {
    Sys(Fresh(threshold, resetTimeout), now, [], [])
  }

  predicate Running(s: Sys, i: nat) {
    i < |s.calls| && s.calls[i].running
  }

  function VerdictOf(c: Call): Verdict {
    if c.probe then Probe else Passed
  }

  /** The call returns: the breaker after its record, its probe lock given back. */
  function Finish(s: Sys, i: nat, recorded: Breaker, event: Event): Sys
    requires Running(s, i)
  {
    s.(breaker := Leave(recorded, VerdictOf(s.calls[i])),
       calls := s.calls[i := s.calls[i].(running := false)],
       log := s.log + [event])
  }

  function Arrive(s: Sys, gap: Duration): Sys {
    var later := s.now + gap;
    var (b, verdict) := Enter(s.breaker, s.now, later);
    if verdict.Refused? then s.(breaker := b, now := later, log := s.log + [TurnedAway(later)])
    else s.(breaker := b, now := later,
            calls := s.calls + [Call(verdict.Probe?, true)],
            log := s.log + [Admitted(|s.calls|, verdict.Probe?, later)])
  }

  function Apply(s: Sys, step: Step): Sys {
    match step
    case Tick(elapsed) => s.(now := s.now + elapsed)
    case Look => s.(breaker := Observe(s.breaker, s.now))
    case Begin(gap) => Arrive(s, gap)
    case EndWell(i) => if Running(s, i) then Finish(s, i, Succeed(s.breaker), Succeeded(i)) else s
    case EndBadly(i) => if Running(s, i) then Finish(s, i, Fail(s.breaker, s.now), Failed(i, s.now)) else s
    case EndCancelled(i) =>
      if Running(s, i) then Finish(s, i, s.breaker, WasCancelled(i, s.calls[i].probe)) else s
  }

  function Run(s: Sys, steps: seq<Step>): Sys
    decreases |steps|
  {
    if steps == [] then s else Run(Apply(s, steps[0]), steps[1..])
  }

  lemma {:induction false} LogGrows(s: Sys, steps: seq<Step>)
    ensures s.log <= Run(s, steps).log
    decreases |steps|
  {
    if steps != [] {
      LogGrows(Apply(s, steps[0]), steps[1..]);
    }
  }

  lemma {:induction false} RunConcat(s: Sys, xs: seq<Step>, ys: seq<Step>)
    ensures Run(s, xs + ys) == Run(Run(s, xs), ys)
    decreases |xs|
  {
    if xs == [] {
      assert xs + ys == ys;
    } else {
      assert (xs + ys)[1..] == xs[1..] + ys;
      RunConcat(Apply(s, xs[0]), xs[1..], ys);
    }
  }

  // ---------------------------------------------------------------------------------------------
  // The state as a function of what completed and when

  /** Consecutive failures since the last recorded success; a cancelled call is recorded as neither. */
  function TrailingFailures(log: seq<Event>): nat {
    if log == [] then 0
    else match log[|log| - 1]
      case Succeeded(_) => 0
      case Failed(_, _) => TrailingFailures(log[..|log| - 1]) + 1
      case _ => TrailingFailures(log[..|log| - 1])
  }

  function LastFailure(log: seq<Event>): (r: Option<real>)
    ensures 0 < TrailingFailures(log) ==> r.Some?
  {
    if log == [] then None
    else match log[|log| - 1]
      case Failed(_, at) => Some(at)
      case _ => LastFailure(log[..|log| - 1])
  }

  /** A threshold below one acts as one: it takes a recorded failure to open the breaker. */
  function Limit(threshold: int): nat {
    if threshold < 1 then 1 else threshold
  }

  function StateAt(log: seq<Event>, threshold: int, resetTimeout: real, t: real): CircuitState {
    if TrailingFailures(log) < Limit(threshold) then Closed
    else if t - LastFailure(log).value < resetTimeout then Open
    else HalfOpen
  }

  function ProbesInFlight(calls: seq<Call>): nat {
    if calls == [] then 0
    else ProbesInFlight(calls[..|calls| - 1])
         + if calls[|calls| - 1].probe && calls[|calls| - 1].running then 1 else 0
  }

  /** What every step keeps. */
  predicate Inv(s: Sys) {
    var b := s.breaker;
    && b.failures == TrailingFailures(s.log)
    && b.lastFailure == LastFailure(s.log)
    && (b.state.Closed? <==> b.failures < Limit(b.threshold))
    && (b.lastFailure.Some? ==> b.lastFailure.value <= s.now)
    && (b.state.HalfOpen? ==> b.lastFailure.Some? && b.resetTimeout <= s.now - b.lastFailure.value)
    && ProbesInFlight(s.calls) == (if b.locked then 1 else 0)
  }

  lemma LogAppend(log: seq<Event>, e: Event)
    ensures TrailingFailures(log + [e]) ==
      if e.Succeeded? then 0 else TrailingFailures(log) + if e.Failed? then 1 else 0
    ensures LastFailure(log + [e]) == if e.Failed? then Some(e.at) else LastFailure(log)
  {
    assert (log + [e])[..|log|] == log;
  }

  lemma {:induction false} ProbesUpdate(calls: seq<Call>, i: nat)
    requires i < |calls| && calls[i].running
    ensures ProbesInFlight(calls[i := calls[i].(running := false)]) ==
      ProbesInFlight(calls) - if calls[i].probe then 1 else 0
  {
    var n := |calls| - 1;
    var c := calls[i].(running := false);
    if i == n {
      assert calls[i := c][..n] == calls[..n];
    } else {
      assert calls[i := c][..n] == calls[..n][i := c];
      ProbesUpdate(calls[..n], i);
    }
  }

  lemma BeginKeepsInv(s: Sys, gap: Duration)
    requires Inv(s)
    ensures Inv(Arrive(s, gap))
  {
    var s' := Arrive(s, gap);
    LogAppend(s.log, s'.log[|s.log|]);
    if |s'.calls| == |s.calls| + 1 {
      assert s'.calls[..|s.calls|] == s.calls;
    }
  }

  lemma FinishKeepsProbes(s: Sys, i: nat, recorded: Breaker, event: Event)
    requires Inv(s) && Running(s, i) && recorded.locked == s.breaker.locked
    ensures var s' := Finish(s, i, recorded, event);
            ProbesInFlight(s'.calls) == if s'.breaker.locked then 1 else 0
  {
    ProbesUpdate(s.calls, i);
  }

  lemma FinishKeepsInv(s: Sys, i: nat, recorded: Breaker, event: Event)
    requires Inv(s) && Running(s, i)
    requires || (recorded == Succeed(s.breaker) && event == Succeeded(i))
             || (recorded == Fail(s.breaker, s.now) && event == Failed(i, s.now))
             || (recorded == s.breaker && event == WasCancelled(i, s.calls[i].probe))
    ensures Inv(Finish(s, i, recorded, event))
  {
    LogAppend(s.log, event);
    FinishKeepsProbes(s, i, recorded, event);
  }

  lemma StepKeepsInv(s: Sys, step: Step)
    requires Inv(s)
    ensures Inv(Apply(s, step))
  {
    match step {
      case Tick(_) =>
      case Look =>
      case Begin(gap) => BeginKeepsInv(s, gap);
      case EndWell(i) => if Running(s, i) { FinishKeepsInv(s, i, Succeed(s.breaker), Succeeded(i)); }
      case EndBadly(i) => if Running(s, i) { FinishKeepsInv(s, i, Fail(s.breaker, s.now), Failed(i, s.now)); }
      case EndCancelled(i) =>
        if Running(s, i) {
          FinishKeepsInv(s, i, s.breaker, WasCancelled(i, s.calls[i].probe));
        }
    }
  }

  lemma StepMoves(s: Sys, step: Step)
    ensures s.now <= Apply(s, step).now
    ensures Apply(s, step).breaker.threshold == s.breaker.threshold
    ensures Apply(s, step).breaker.resetTimeout == s.breaker.resetTimeout
    ensures s.log <= Apply(s, step).log && |Apply(s, step).log| <= |s.log| + 1
  {}

  lemma {:induction false} RunKeepsInv(s: Sys, steps: seq<Step>)
    requires Inv(s)
    ensures Inv(Run(s, steps))
    ensures s.now <= Run(s, steps).now
    ensures Run(s, steps).breaker.threshold == s.breaker.threshold
    ensures Run(s, steps).breaker.resetTimeout == s.breaker.resetTimeout
    decreases |steps|
  {
    if steps != [] {
      StepKeepsInv(s, steps[0]);
      StepMoves(s, steps[0]);
      RunKeepsInv(Apply(s, steps[0]), steps[1..]);
    }
  }

  /**
    In every run the state anybody observes is a function of the recorded completions and the time of
    observation. How the calls were interleaved, who looked before, and the lazy moves leave no trace.
  */
  lemma ObservedStateIsHistory(threshold: int, resetTimeout: real, start: real, steps: seq<Step>, t: real)
    requires Run(Init(threshold, resetTimeout, start), steps).now <= t
    ensures var s := Run(Init(threshold, resetTimeout, start), steps);
            Observe(s.breaker, t).state == StateAt(s.log, threshold, resetTimeout, t)
  {
    RunKeepsInv(Init(threshold, resetTimeout, start), steps);
  }

  /** The lock is held exactly while a probe runs, and there is never a second probe. */
  lemma SingleProbe(threshold: int, resetTimeout: real, start: real, steps: seq<Step>)
    ensures var s := Run(Init(threshold, resetTimeout, start), steps);
            && ProbesInFlight(s.calls) <= 1
            && (s.breaker.locked <==> ProbesInFlight(s.calls) == 1)
  {
    RunKeepsInv(Init(threshold, resetTimeout, start), steps);
  }

  /**
    Nobody is turned away without cause: a caller is refused exactly when the history makes the breaker
    open on arrival, or half-open with a probe in flight. So however a probe ends (success, failure or
    cancellation), the next caller to find the breaker half-open is let through.
  */
  lemma RefusedOnlyWithCause(threshold: int, resetTimeout: real, start: real, steps: seq<Step>, gap: Duration)
    ensures var s := Run(Init(threshold, resetTimeout, start), steps);
            var seen := StateAt(s.log, threshold, resetTimeout, s.now);
            && (Apply(s, Begin(gap)).log == s.log + [TurnedAway(s.now + gap)]
                <==> seen.Open? || (seen.HalfOpen? && ProbesInFlight(s.calls) == 1))
            && (Apply(s, Begin(gap)).log == s.log + [Admitted(|s.calls|, seen.HalfOpen?, s.now + gap)]
                <==> seen.Closed? || (seen.HalfOpen? && ProbesInFlight(s.calls) == 0))
  {
    RunKeepsInv(Init(threshold, resetTimeout, start), steps);
    var s := Run(Init(threshold, resetTimeout, start), steps);
    var s' := Apply(s, Begin(gap));
    assert s'.log[|s.log|] == if |s'.calls| == |s.calls| then TurnedAway(s.now + gap)
                              else Admitted(|s.calls|, s'.calls[|s.calls|].probe, s.now + gap);
  }

  /** A caller that is turned away leaves the count, the timer and the lock alone. */
  lemma RefusalRecordsNothing(s: Sys, gap: Duration)
    requires Apply(s, Begin(gap)).calls == s.calls
    ensures var b := Apply(s, Begin(gap)).breaker;
            b.failures == s.breaker.failures && b.lastFailure == s.breaker.lastFailure
            && b.locked == s.breaker.locked
  {
    assert Enter(s.breaker, s.now, s.now + gap).1.Refused?
      || |Apply(s, Begin(gap)).calls| == |s.calls| + 1;
  }

  // ---------------------------------------------------------------------------------------------
  // An uninterrupted call, with whatever it nests, is one of these runs

  function EndStep(i: nat, outcome: Outcome): Step {
    match outcome
    case Returned => EndWell(i)
    case Raised => EndBadly(i)
    case Cancelled => EndCancelled(i)
  }

  function PlaySteps(s: Sys, work: Work): seq<Step>
    decreases work, 1
  {
    var s1 := Apply(s, Begin(0.0));
    if |s1.calls| == |s.calls| then [Begin(0.0)]
    else [Begin(0.0)] + BodySteps(s1, work) + [EndStep(|s.calls|, Body(s1.breaker, work, s.now).outcome)]
  }

  function BodySteps(s: Sys, work: Work): seq<Step>
    decreases work, 0
  {
    match work
    case Return(took) => [Tick(took)]
    case Raise(took) => [Tick(took)]
    case Cancel(took) => [Tick(took)]
    case Reenter(before, inner, onReturn, onRaise) =>
      var s1 := Apply(s, Tick(before));
      var s2 := Run(s1, PlaySteps(s1, inner));
      var nested := Play(s.breaker, inner, s.now + before);
      [Tick(before)] + PlaySteps(s1, inner)
      + if nested.outcome.Cancelled? then []
        else BodySteps(s2, if nested.outcome.Returned? then onReturn else onRaise)
  }

  lemma RunOne(s: Sys, step: Step)
    ensures Run(s, [step]) == Apply(s, step)
  {
    assert [step][1..] == [];
    assert Run(Apply(s, step), []) == Apply(s, step);
  }

  lemma EndRecords(s: Sys, i: nat, outcome: Outcome)
    requires Running(s, i)
    ensures var s' := Apply(s, EndStep(i, outcome));
            && s'.breaker == Leave(Recorded(s.breaker, outcome, s.now), VerdictOf(s.calls[i]))
            && s'.now == s.now && |s'.calls| == |s.calls| && s'.calls[..i] == s.calls[..i]
            && |s'.log| == |s.log| + 1
            && s'.log[|s.log|] == match outcome
               case Returned => Succeeded(i)
               case Raised => Failed(i, s.now)
               case Cancelled => WasCancelled(i, s.calls[i].probe)
  {
  }

  lemma RunBetween(s: Sys, first: Step, steps: seq<Step>, last: Step)
    ensures Run(s, [first] + steps + [last]) == Apply(Run(Apply(s, first), steps), last)
  {
    RunOne(s, first);
    RunConcat(s, [first], steps);
    RunOne(Run(Apply(s, first), steps), last);
    RunConcat(s, [first] + steps, [last]);
  }

  lemma {:induction false} BodyIsRun(s: Sys, work: Work)
    ensures var s' := Run(s, BodySteps(s, work));
            var p := Body(s.breaker, work, s.now);
            && s'.breaker == p.breaker && s'.now == p.now
            && s.calls <= s'.calls && |s'.calls| == |s.calls| + p.levels
    decreases work, 0
  {
    match work
    case Return(took) => RunOne(s, Tick(took));
    case Raise(took) => RunOne(s, Tick(took));
    case Cancel(took) => RunOne(s, Tick(took));
    case Reenter(before, inner, onReturn, onRaise) =>
      var s1 := Apply(s, Tick(before));
      RunOne(s, Tick(before));
      PlayIsRun(s1, inner);
      RunConcat(s, [Tick(before)], PlaySteps(s1, inner));
      var first := [Tick(before)] + PlaySteps(s1, inner);
      var nested := Play(s.breaker, inner, s.now + before);
      if nested.outcome.Cancelled? {
        assert first + [] == first;
      } else {
        var s2, next := Run(s1, PlaySteps(s1, inner)), if nested.outcome.Returned? then onReturn else onRaise;
        BodyIsRun(s2, next);
        RunConcat(s, first, BodySteps(s2, next));
      }
  }

  /** The log's last event tells how the call numbered i ended, or that it was turned away. */
  predicate Reports(log: seq<Event>, i: nat, p: Played) {
    log != []
    && var last := log[|log| - 1];
       match p.outcome
       case Returned => last == Succeeded(i)
       case Raised => last == (if p.levels == 0 then TurnedAway(p.now) else Failed(i, p.now))
       case Cancelled => last.WasCancelled? && last.call == i
  }

  /**
    The uninterrupted `call` drives the breaker exactly as this sequence of steps does; what its caller is told
    is what the run has recorded, and the levels are the calls it has admitted.
  */
  lemma {:induction false} PlayIsRun(s: Sys, work: Work)
    ensures var s' := Run(s, PlaySteps(s, work));
            var p := Play(s.breaker, work, s.now);
            && s'.breaker == p.breaker && s'.now == p.now
            && s.calls <= s'.calls && |s'.calls| == |s.calls| + p.levels
            && Reports(s'.log, |s.calls|, p)
    decreases work, 1
  {
    var s1 := Apply(s, Begin(0.0));
    RunOne(s, Begin(0.0));
    if |s1.calls| > |s.calls| {
      BodyIsRun(s1, work);
      var end := EndStep(|s.calls|, Body(s1.breaker, work, s.now).outcome);
      var s2 := Run(s1, BodySteps(s1, work));
      RunBetween(s, Begin(0.0), BodySteps(s1, work), end);
      assert s2.calls[|s.calls|] == s1.calls[|s.calls|];
      EndRecords(s2, |s.calls|, Body(s1.breaker, work, s.now).outcome);
    }
  }

  // ---------------------------------------------------------------------------------------------
  // Calls made while a probe is in flight

  predicate EndOf(e: Event, call: nat) {
    match e
    case Succeeded(c) => c == call
    case Failed(c, _) => c == call
    case WasCancelled(c, _) => c == call
    case _ => false
  }

  ghost predicate EndsIn(log: seq<Event>, call: nat, lo: int, hi: int) {
    exists k :: 0 <= lo < k < hi <= |log| && EndOf(log[k], call)
  }

  ghost predicate SucceedsIn(log: seq<Event>, lo: int, hi: int) {
    exists k :: 0 <= lo < k < hi <= |log| && log[k].Succeeded?
  }

  /** A success recorded strictly between lo and hi by some other call. */
  ghost predicate OtherSucceedsIn(log: seq<Event>, call: nat, lo: int, hi: int) {
    exists k :: 0 <= lo < k < hi <= |log| && log[k].Succeeded? && log[k].call != call
  }

  predicate ProbeAt(log: seq<Event>, a: nat) {
    a < |log| && log[a].Admitted? && log[a].probe
  }

  /** A probe that has not ended is running, and only a success since then can have closed the breaker. */
  ghost predicate ProbesHold(s: Sys) {
    forall a: nat :: ProbeAt(s.log, a) && !EndsIn(s.log, s.log[a].call, a, |s.log|) ==>
      && Running(s, s.log[a].call) && s.calls[s.log[a].call].probe
      && (s.breaker.state.Closed? ==> SucceedsIn(s.log, a, |s.log|))
  }

  ghost predicate NestedOk(log: seq<Event>) {
    forall a: nat, c: nat :: a < c < |log| && ProbeAt(log, a) && log[c].Admitted? && !EndsIn(log, log[a].call, a, c)
      ==> OtherSucceedsIn(log, log[a].call, a, c)
  }

  lemma {:induction false} RunningProbeLocks(calls: seq<Call>, i: nat)
    requires i < |calls| && calls[i].probe && calls[i].running
    ensures 0 < ProbesInFlight(calls)
  {
    if i < |calls| - 1 {
      RunningProbeLocks(calls[..|calls| - 1], i);
    }
  }

  lemma EndsInStable(log: seq<Event>, e: Event, call: nat, lo: int, hi: int)
    requires hi <= |log|
    ensures EndsIn(log + [e], call, lo, hi) <==> EndsIn(log, call, lo, hi)
    ensures SucceedsIn(log + [e], lo, hi) <==> SucceedsIn(log, lo, hi)
    ensures OtherSucceedsIn(log, call, lo, hi) ==> OtherSucceedsIn(log + [e], call, lo, hi)
  {
    if EndsIn(log, call, lo, hi) {
      var k :| 0 <= lo < k < hi <= |log| && EndOf(log[k], call);
      assert EndOf((log + [e])[k], call);
    }
    if SucceedsIn(log, lo, hi) {
      var k :| 0 <= lo < k < hi <= |log| && log[k].Succeeded?;
      assert (log + [e])[k].Succeeded?;
    }
    if OtherSucceedsIn(log, call, lo, hi) {
      var k :| 0 <= lo < k < hi <= |log| && log[k].Succeeded? && log[k].call != call;
      assert (log + [e])[k].Succeeded?;
    }
    if EndsIn(log + [e], call, lo, hi) {
      var k :| 0 <= lo < k < hi && EndOf((log + [e])[k], call);
      assert EndOf(log[k], call);
    }
    if SucceedsIn(log + [e], lo, hi) {
      var k :| 0 <= lo < k < hi && (log + [e])[k].Succeeded?;
      assert log[k].Succeeded?;
    }
  }

  lemma EndsInGrows(log: seq<Event>, e: Event, call: nat, lo: int)
    requires 0 <= lo < |log|
    ensures EndsIn(log + [e], call, lo, |log| + 1) <==> EndsIn(log, call, lo, |log|) || EndOf(e, call)
    ensures SucceedsIn(log + [e], lo, |log| + 1) <==> SucceedsIn(log, lo, |log|) || e.Succeeded?
  {
    EndsInStable(log, e, call, lo, |log|);
    var log' := log + [e];
    assert log'[|log|] == e;
    if EndsIn(log', call, lo, |log|) {
      var k :| 0 <= lo < k < |log| <= |log'| && EndOf(log'[k], call);
    }
    if SucceedsIn(log', lo, |log|) {
      var k :| 0 <= lo < k < |log| <= |log'| && log'[k].Succeeded?;
    }
    if EndsIn(log', call, lo, |log'|) && !EndOf(e, call) {
      var k :| 0 <= lo < k < |log'| <= |log'| && EndOf(log'[k], call);
      assert k < |log|;
    }
    if SucceedsIn(log', lo, |log'|) && !e.Succeeded? {
      var k :| 0 <= lo < k < |log'| <= |log'| && log'[k].Succeeded?;
      assert k < |log|;
    }
  }

  lemma StepKeepsProbesHold(s: Sys, step: Step)
    requires Inv(s) && ProbesHold(s)
    ensures ProbesHold(Apply(s, step))
  {
    var s' := Apply(s, step);
    if |s'.log| == |s.log| {
      assert s'.log == s.log && s'.calls == s.calls;
    } else {
      var e := s'.log[|s.log|];
      assert s'.log == s.log + [e];
      forall a: nat | ProbeAt(s'.log, a) && !EndsIn(s'.log, s'.log[a].call, a, |s'.log|)
        ensures && Running(s', s'.log[a].call) && s'.calls[s'.log[a].call].probe
                && (s'.breaker.state.Closed? ==> SucceedsIn(s'.log, a, |s'.log|))
      {
        if a < |s.log| {
          EndsInGrows(s.log, e, s.log[a].call, a);
          assert ProbeAt(s.log, a);
        }
      }
    }
  }

  lemma StepKeepsNestedOk(s: Sys, step: Step)
    requires Inv(s) && ProbesHold(s) && NestedOk(s.log)
    ensures NestedOk(Apply(s, step).log)
  {
    var s' := Apply(s, step);
    if |s'.log| > |s.log| {
      var e := s'.log[|s.log|];
      assert s'.log == s.log + [e];
      forall a: nat, c: nat | a < c < |s'.log| && ProbeAt(s'.log, a) && s'.log[c].Admitted?
                               && !EndsIn(s'.log, s'.log[a].call, a, c)
        ensures OtherSucceedsIn(s'.log, s'.log[a].call, a, c)
      {
        var p := s.log[a].call;
        assert ProbeAt(s.log, a);
        EndsInStable(s.log, e, p, a, c);
        if c == |s.log| {
          RunningProbeLocks(s.calls, p);
          var k :| 0 <= a < k < c <= |s.log| && s.log[k].Succeeded?;
          assert EndOf(s.log[k], p) <==> s.log[k].call == p;
          assert !EndsIn(s.log, p, a, c);
          assert s'.log[k].Succeeded?;
        }
      }
    }
  }

  lemma {:induction false} RunKeepsNestedOk(s: Sys, steps: seq<Step>)
    requires Inv(s) && ProbesHold(s) && NestedOk(s.log)
    ensures NestedOk(Run(s, steps).log)
    decreases |steps|
  {
    if steps != [] {
      StepKeepsInv(s, steps[0]);
      StepKeepsProbesHold(s, steps[0]);
      StepKeepsNestedOk(s, steps[0]);
      RunKeepsNestedOk(Apply(s, steps[0]), steps[1..]);
    }
  }

  /**
    Whatever is admitted while a probe is in flight, a call nested inside the probe included, owes it to
    a success that a different call recorded after the probe was let in.
  */
  lemma AdmittedDuringProbe(threshold: int, resetTimeout: real, start: real, steps: seq<Step>, a: nat, c: nat)
    requires var log := Run(Init(threshold, resetTimeout, start), steps).log;
             && a < c < |log| && ProbeAt(log, a) && log[c].Admitted?
             && !EndsIn(log, log[a].call, a, c)
    ensures var log := Run(Init(threshold, resetTimeout, start), steps).log;
            OtherSucceedsIn(log, log[a].call, a, c)
  {
    RunKeepsNestedOk(Init(threshold, resetTimeout, start), steps);
  }

  // ---------------------------------------------------------------------------------------------
  // How often an open breaker lets a probe through

  /** The times at which calls were admitted, oldest first. */
  function AdmissionTimes(log: seq<Event>): seq<real> {
    if log == [] then []
    else AdmissionTimes(log[..|log| - 1])
         + if log[|log| - 1].Admitted? then [log[|log| - 1].at] else []
  }

  ghost predicate Sparse(times: seq<real>, gap: real) {
    forall i, j :: 0 <= i < j < |times| ==> gap <= times[j] - times[i]
  }

  /** No success was recorded and no probe was cancelled. */
  ghost predicate Quiet(log: seq<Event>) {
    forall k :: 0 <= k < |log| ==> !log[k].Succeeded? && !(log[k].WasCancelled? && log[k].probe)
  }

  /** The last admission of the window still holds the lock, or its failure has restarted the timer. */
  ghost predicate Paced(s: Sys, n: nat) {
    && n <= |s.log|
    && !s.breaker.state.Closed?
    && var times := AdmissionTimes(s.log[n..]);
       && Sparse(times, s.breaker.resetTimeout)
       && (times != [] ==>
           var last := times[|times| - 1];
           && last <= s.now
           && (|| (s.breaker.locked && LastAdmittedRuns(s, n))
               || (s.breaker.lastFailure.Some? && last <= s.breaker.lastFailure.value)))
  }

  /** Some probe is in flight that was admitted in the window. */
  ghost predicate LastAdmittedRuns(s: Sys, n: nat) {
    exists k :: n <= k < |s.log| && ProbeAt(s.log, k) && Running(s, s.log[k].call) && s.calls[s.log[k].call].probe
  }

  lemma {:induction false} TwoProbes(calls: seq<Call>, i: nat, j: nat)
    requires i < j < |calls|
    requires calls[i].probe && calls[i].running && calls[j].probe && calls[j].running
    ensures 2 <= ProbesInFlight(calls)
  {
    var n := |calls| - 1;
    if j < n {
      TwoProbes(calls[..n], i, j);
    } else {
      RunningProbeLocks(calls[..n], i);
    }
  }

  lemma AdmissionAppend(log: seq<Event>, e: Event, n: nat)
    requires n <= |log|
    ensures (log + [e])[n..] == log[n..] + [e]
    ensures AdmissionTimes((log + [e])[n..]) ==
      AdmissionTimes(log[n..]) + if e.Admitted? then [e.at] else []
  {
    assert (log + [e])[n..] == log[n..] + [e];
    assert (log[n..] + [e])[..|log[n..]|] == log[n..];
  }

  lemma ProbeStillRuns(s: Sys, step: Step, n: nat)
    requires Inv(s) && n <= |s.log| && LastAdmittedRuns(s, n)
    requires Apply(s, step).breaker.locked
    ensures LastAdmittedRuns(Apply(s, step), n)
  {
    var s' := Apply(s, step);
    var k :| n <= k < |s.log| && ProbeAt(s.log, k) && Running(s, s.log[k].call) && s.calls[s.log[k].call].probe;
    var p := s.log[k].call;
    RunningProbeLocks(s.calls, p);
    assert ProbeAt(s'.log, k) && s'.log[k].call == p;
    assert Running(s', p) && s'.calls[p].probe;
  }

  /** A step that admits nobody keeps the pace if it keeps the probe or restarts the timer. */
  lemma PacedWithoutArrival(s: Sys, s': Sys, n: nat)
    requires Paced(s, n) && n <= |s'.log| && !s'.breaker.state.Closed?
    requires s'.breaker.resetTimeout == s.breaker.resetTimeout && s.now <= s'.now
    requires AdmissionTimes(s'.log[n..]) == AdmissionTimes(s.log[n..])
    requires || (s'.breaker.lastFailure.Some? && s.now <= s'.breaker.lastFailure.value)
             || (&& s'.breaker.lastFailure == s.breaker.lastFailure
                 && (s.breaker.locked && LastAdmittedRuns(s, n) ==> s'.breaker.locked && LastAdmittedRuns(s', n)))
    ensures Paced(s', n)
  {}

  lemma PacedWithArrival(s: Sys, s': Sys, n: nat)
    requires Paced(s, n) && n <= |s'.log| && !s'.breaker.state.Closed? && 0.0 < s.breaker.resetTimeout
    requires s'.breaker.resetTimeout == s.breaker.resetTimeout && s.now <= s'.now
    requires AdmissionTimes(s'.log[n..]) == AdmissionTimes(s.log[n..]) + [s'.now]
    requires !s.breaker.locked && s'.breaker.locked && LastAdmittedRuns(s', n)
    requires s.breaker.lastFailure.Some? && s.breaker.resetTimeout <= s'.now - s.breaker.lastFailure.value
    ensures Paced(s', n)
  {
    var times := AdmissionTimes(s.log[n..]);
    forall i | 0 <= i < |times|
      ensures s.breaker.resetTimeout <= s'.now - times[i]
    {
      assert i < |times| - 1 ==> s.breaker.resetTimeout <= times[|times| - 1] - times[i];
    }
  }

  /** An open or half-open breaker admits a call only as a probe, with the lock free and the timer run out. */
  lemma ArrivalShape(s: Sys, gap: Duration)
    requires Inv(s) && !s.breaker.state.Closed?
    ensures var s' := Apply(s, Begin(gap));
            && s'.now == s.now + gap && !s'.breaker.state.Closed?
            && s'.breaker.lastFailure == s.breaker.lastFailure
            && (|| (s'.log == s.log + [TurnedAway(s'.now)] && s'.calls == s.calls && s'.breaker.locked == s.breaker.locked)
                || (&& s'.log == s.log + [Admitted(|s.calls|, true, s'.now)]
                    && s'.calls == s.calls + [Call(true, true)]
                    && !s.breaker.locked && s'.breaker.locked && s.breaker.lastFailure.Some?
                    && s.breaker.resetTimeout <= s'.now - s.breaker.lastFailure.value))
  {}

  lemma ArrivalKeepsPaced(s: Sys, gap: Duration, n: nat)
    requires Inv(s) && Paced(s, n) && 0.0 < s.breaker.resetTimeout
    ensures Paced(Apply(s, Begin(gap)), n)
  {
    ArrivalShape(s, gap);
    StepMoves(s, Begin(gap));
    var s' := Apply(s, Begin(gap));
    var e := s'.log[|s.log|];
    AdmissionAppend(s.log, e, n);
    if e.Admitted? {
      assert ProbeAt(s'.log, |s.log|) && Running(s', e.call) && s'.calls[e.call].probe;
      PacedWithArrival(s, s', n);
    } else {
      if s.breaker.locked && LastAdmittedRuns(s, n) {
        ProbeStillRuns(s, Begin(gap), n);
      }
      PacedWithoutArrival(s, s', n);
    }
  }

  /** Any other step that records no success either restarts the timer or keeps timer and calls as they were. */
  lemma OtherShape(s: Sys, step: Step)
    requires Inv(s) && !step.Begin? && !s.breaker.state.Closed?
    ensures var s' := Apply(s, step);
            s'.log == s.log || exists e :: s'.log == s.log + [e] && !e.Admitted?
    ensures var s' := Apply(s, step);
            s'.breaker.state.Closed? ==> |s'.log| > |s.log| && s'.log[|s.log|].Succeeded?
    ensures var s' := Apply(s, step);
            s'.breaker.lastFailure != s.breaker.lastFailure ==> s'.breaker.lastFailure == Some(s.now)
    ensures var s' := Apply(s, step);
            s.breaker.locked && !s'.breaker.locked && s'.breaker.lastFailure != Some(s.now) ==>
              && |s'.log| > |s.log|
              && (s'.log[|s.log|].Succeeded? || (s'.log[|s.log|].WasCancelled? && s'.log[|s.log|].probe))
  {
    var s' := Apply(s, step);
    if |s'.log| > |s.log| {
      assert s'.log == s.log + [s'.log[|s.log|]];
    }
  }

  lemma StepKeepsPaced(s: Sys, step: Step, n: nat)
    requires Inv(s) && Paced(s, n) && 0.0 < s.breaker.resetTimeout
    requires n <= |Apply(s, step).log| && Quiet(Apply(s, step).log[n..])
    ensures Paced(Apply(s, step), n)
  {
    var s' := Apply(s, step);
    StepMoves(s, step);
    if step.Begin? {
      ArrivalKeepsPaced(s, step.gap, n);
    } else {
      OtherShape(s, step);
      if s.breaker.locked && LastAdmittedRuns(s, n) && s'.breaker.locked {
        ProbeStillRuns(s, step, n);
      }
      OtherKeepsPaced(s, s', n);
    }
  }

  lemma OtherKeepsPaced(s: Sys, s': Sys, n: nat)
    requires Paced(s, n) && n <= |s'.log| && Quiet(s'.log[n..])
    requires s'.breaker.resetTimeout == s.breaker.resetTimeout && s.now <= s'.now
    requires s'.log == s.log || exists e :: s'.log == s.log + [e] && !e.Admitted?
    requires s'.breaker.state.Closed? ==> |s'.log| > |s.log| && s'.log[|s.log|].Succeeded?
    requires s'.breaker.lastFailure != s.breaker.lastFailure ==> s'.breaker.lastFailure == Some(s.now)
    requires s.breaker.locked && !s'.breaker.locked && s'.breaker.lastFailure != Some(s.now) ==>
      && |s'.log| > |s.log|
      && (s'.log[|s.log|].Succeeded? || (s'.log[|s.log|].WasCancelled? && s'.log[|s.log|].probe))
    requires s.breaker.locked && LastAdmittedRuns(s, n) && s'.breaker.locked ==> LastAdmittedRuns(s', n)
    ensures Paced(s', n)
  {
    if |s'.log| > |s.log| {
      var e := s'.log[|s.log|];
      assert s'.log == s.log + [e];
      AdmissionAppend(s.log, e, n);
      assert s'.log[n..][|s.log| - n] == e;
    }
    PacedWithoutArrival(s, s', n);
  }

  lemma QuietPrefix(log: seq<Event>, longer: seq<Event>, n: nat)
    requires n <= |log| && log <= longer && Quiet(longer[n..])
    ensures Quiet(log[n..])
  {
    forall k | 0 <= k < |log[n..]|
      ensures !log[n..][k].Succeeded? && !(log[n..][k].WasCancelled? && log[n..][k].probe)
    {
      assert log[n..][k] == longer[n..][k];
    }
  }

  lemma {:induction false} RunKeepsPaced(s: Sys, steps: seq<Step>, n: nat)
    requires Inv(s) && Paced(s, n) && 0.0 < s.breaker.resetTimeout
    requires n <= |Run(s, steps).log| && Quiet(Run(s, steps).log[n..])
    ensures Paced(Run(s, steps), n)
    decreases |steps|
  {
    if steps != [] {
      var s' := Apply(s, steps[0]);
      LogGrows(s', steps[1..]);
      StepMoves(s, steps[0]);
      QuietPrefix(s'.log, Run(s', steps[1..]).log, n);
      StepKeepsInv(s, steps[0]);
      StepKeepsPaced(s, steps[0], n);
      RunKeepsPaced(s', steps[1..], n);
    }
  }

  /**
    From a moment at which the breaker is open, admissions keep `resetTimeout` apart until a success is
    recorded or a probe is cancelled, even while calls admitted earlier keep failing.
  */
  lemma OpenAdmissionsSparse(threshold: int, resetTimeout: real, start: real, before: seq<Step>, after: seq<Step>)
    requires 0.0 < resetTimeout
    requires Run(Init(threshold, resetTimeout, start), before).breaker.state.Open?
    requires var s := Run(Init(threshold, resetTimeout, start), before);
             |s.log| <= |Run(s, after).log| && Quiet(Run(s, after).log[|s.log|..])
    ensures var s := Run(Init(threshold, resetTimeout, start), before);
            Sparse(AdmissionTimes(Run(s, after).log[|s.log|..]), resetTimeout)
  {
    var init := Init(threshold, resetTimeout, start);
    var s := Run(init, before);
    RunKeepsInv(init, before);
    assert s.log[|s.log|..] == [];
    RunKeepsPaced(s, after, |s.log|);
    RunKeepsInv(s, after);
  }

  lemma {:induction false} SparseSpan(times: seq<real>, gap: real, i: nat, j: nat)
    requires Sparse(times, gap) && i <= j < |times|
    ensures (j - i) as real * gap <= times[j] - times[i]
    decreases j - i
  {
    if i < j {
      SparseSpan(times, gap, i, j - 1);
      assert gap <= times[j] - times[j - 1];
      assert (j - i) as real == (j - 1 - i) as real + 1.0;
      assert ((j - 1 - i) as real + 1.0) * gap == (j - 1 - i) as real * gap + gap;
    }
  }

  lemma SignOfProduct(x: real, y: real)
    requires 0.0 < y && x * y <= 0.0
    ensures x <= 0.0
  {}

  lemma QuotientBound(k: nat, gap: real, window: real)
    requires 0.0 < gap && k as real * gap <= window
    ensures k <= (window / gap).Floor
  {
    var q := window / gap;
    assert q * gap == window;
    assert (k as real - q) * gap <= 0.0;
    SignOfProduct(k as real - q, gap);
  }

  /** So the admissions that fall within any window of length T number at most floor(T / resetTimeout) + 1. */
  lemma OpenAdmissionsBounded(
      threshold: int, resetTimeout: real, start: real, before: seq<Step>, after: seq<Step>,
      i: nat, j: nat, window: real)
    requires 0.0 < resetTimeout
    requires Run(Init(threshold, resetTimeout, start), before).breaker.state.Open?
    requires var s := Run(Init(threshold, resetTimeout, start), before);
             |s.log| <= |Run(s, after).log| && Quiet(Run(s, after).log[|s.log|..])
    requires var s := Run(Init(threshold, resetTimeout, start), before);
             var times := AdmissionTimes(Run(s, after).log[|s.log|..]);
             i <= j < |times| && times[j] - times[i] <= window
    ensures j - i + 1 <= (window / resetTimeout).Floor + 1
  {
    OpenAdmissionsSparse(threshold, resetTimeout, start, before, after);
    var s := Run(Init(threshold, resetTimeout, start), before);
    SparseSpan(AdmissionTimes(Run(s, after).log[|s.log|..]), resetTimeout, i, j);
    QuotientBound(j - i, resetTimeout, window);
  }
}
