/**
  The async circuit breaker. `Breaker` is the value of its fields, and the functions over it are the
  stretches of code that run between two `await`s; the class updates the fields in place.
*/
module CircuitBreakers {
  import opened Wrappers

  type Duration = d: real | 0.0 <= d witness 0.0

  datatype CircuitState = Closed | Open | HalfOpen

  datatype Breaker = Breaker(
    threshold: int,
    resetTimeout: real,
    failures: nat,
    state: CircuitState,
    lastFailure: Option<real>,
    locked: bool)

  /** How `call` treats its caller: turned away, let through while closed, or let through as the half-open probe. */
  datatype Verdict = Refused | Passed | Probe

  function Fresh(threshold: int, resetTimeout: real): Breaker {
    Breaker(threshold, resetTimeout, 0, Closed, None, false)
  }

  /** Reading the `state` property moves an open breaker to half-open once the timeout has elapsed. */
  function Observe(b: Breaker, now: real): Breaker {
    if b.state.Open? && b.lastFailure.Some? && b.resetTimeout <= now - b.lastFailure.value
    then b.(state := HalfOpen) else b
  }

  /** `call` up to the point where the wrapped function starts; it reads the state, and so the clock, twice. */
  function Enter(b: Breaker, first: real, second: real): (Breaker, Verdict) {
    var b1 := Observe(b, first);
    if b1.state.Open? then (b1, Refused)
    else
      var b2 := Observe(b1, second);
      if !b2.state.HalfOpen? then (b2, Passed)
      else if b2.locked then (b2, Refused)
      else (b2.(locked := true), Probe)
  }

  function Succeed(b: Breaker): Breaker {
    b.(failures := 0, state := Closed)
  }

  function Fail(b: Breaker, now: real): Breaker {
    var n := b.failures + 1;
    b.(failures := n, lastFailure := Some(now), state := if b.threshold <= n then Open else b.state)
  }

  /** Leaving `async with self._half_open_lock`, which only a probe has entered. */
  function Leave(b: Breaker, verdict: Verdict): Breaker {
    if verdict.Probe? then b.(locked := false) else b
  }

  // ---------------------------------------------------------------------------------------------
  // One caller at a time, with re-entrant calls

  /**
    How a wrapped function behaves. `Reenter` calls the same breaker again while it runs, and goes on in one
    way if that call returns and in another if it raises; letting the exception through is to raise.
  */
  datatype Work =
    | Return(took: Duration)
    | Raise(took: Duration)
    | Cancel(took: Duration)
    | Reenter(before: Duration, inner: Work, onReturn: Work, onRaise: Work)

  datatype Outcome = Returned | Raised | Cancelled

  /** The end of a call: the breaker, the time, the outcome the caller sees, and how many calls were admitted. */
  datatype Played = Played(breaker: Breaker, now: real, outcome: Outcome, levels: nat)

  /** What `_execute_call` records: a return and an exception, but not a cancellation. */
  function Recorded(b: Breaker, outcome: Outcome, now: real): Breaker {
    match outcome
    case Returned => Succeed(b)
    case Raised => Fail(b, now)
    case Cancelled => b
  }

  function Play(b: Breaker, work: Work, now: real): Played
    decreases work, 1
  {
    var (entered, verdict) := Enter(b, now, now);
    if verdict.Refused? then Played(entered, now, Raised, 0)
    else
      var run := Body(entered, work, now);
      Played(Leave(Recorded(run.breaker, run.outcome, run.now), verdict), run.now, run.outcome, run.levels + 1)
  }

  /** The wrapped function itself. */
  function Body(b: Breaker, work: Work, now: real): Played
    decreases work, 0
  {
    match work
    case Return(took) => Played(b, now + took, Returned, 0)
    case Raise(took) => Played(b, now + took, Raised, 0)
    case Cancel(took) => Played(b, now + took, Cancelled, 0)
    case Reenter(before, inner, onReturn, onRaise) =>
      var nested := Play(b, inner, now + before);
      if nested.outcome.Cancelled? then nested
      else
        var rest := Body(nested.breaker, if nested.outcome.Returned? then onReturn else onRaise, nested.now);
        rest.(levels := nested.levels + rest.levels)
  }

  /** How a function ends, given how the calls it makes end, one after the other. */
  predicate EndsAs(work: Work, answers: seq<Outcome>, outcome: Outcome) {
    match work
    case Return(_) => answers == [] && outcome.Returned?
    case Raise(_) => answers == [] && outcome.Raised?
    case Cancel(_) => answers == [] && outcome.Cancelled?
    case Reenter(_, _, onReturn, onRaise) =>
      answers != []
      && match answers[0]
         case Returned => EndsAs(onReturn, answers[1..], outcome)
         case Raised => EndsAs(onRaise, answers[1..], outcome)
         case Cancelled => answers[1..] == [] && outcome.Cancelled?
  }

  /** How the calls end that the function makes when it starts in this state. */
  function Answers(b: Breaker, work: Work, now: real): seq<Outcome>
    decreases work
  {
    match work
    case Reenter(before, inner, onReturn, onRaise) =>
      var nested := Play(b, inner, now + before);
      [nested.outcome]
      + (match nested.outcome
         case Returned => Answers(nested.breaker, onReturn, nested.now)
         case Raised => Answers(nested.breaker, onRaise, nested.now)
         case Cancelled => [])
    case _ => []
  }

  lemma {:induction false} FunctionEndsAs(b: Breaker, work: Work, now: real)
    ensures EndsAs(work, Answers(b, work, now), Body(b, work, now).outcome)
    decreases work
  {
    match work
    case Reenter(before, inner, onReturn, onRaise) =>
      var nested := Play(b, inner, now + before);
      assert Answers(b, work, now)[0] == nested.outcome;
      match nested.outcome {
        case Returned =>
          FunctionEndsAs(nested.breaker, onReturn, nested.now);
          assert Answers(b, work, now)[1..] == Answers(nested.breaker, onReturn, nested.now);
        case Raised =>
          FunctionEndsAs(nested.breaker, onRaise, nested.now);
          assert Answers(b, work, now)[1..] == Answers(nested.breaker, onRaise, nested.now);
        case Cancelled =>
      }
    case _ =>
  }

  /**
    What a caller is told. A breaker that is open, or half-open with its lock held, raises at once and records
    nothing; any other runs the function, and the call ends as the function does, nested calls included. In
    particular nobody is told of success whose function has not run.
  */
  lemma CallEndsExactly(b: Breaker, work: Work, now: real)
    ensures var p, seen := Play(b, work, now), Observe(b, now);
            if seen.state.Open? || (seen.state.HalfOpen? && b.locked) then p == Played(seen, now, Raised, 0)
            else 0 < p.levels && EndsAs(work, Answers(seen.(locked := b.locked || seen.state.HalfOpen?), work, now), p.outcome)
    ensures Play(b, work, now).outcome.Returned? ==> 0 < Play(b, work, now).levels
  {
    FunctionEndsAs(Enter(b, now, now).0, work, now);
  }

  /** An exception that a call raises: the breaker as it was when it was thrown, and the levels it has crossed. */
  datatype Flight = Flight(origin: Breaker, crossed: nat)

  function FlightOf(b: Breaker, work: Work, now: real): Flight
    decreases work, 1
  {
    var (entered, verdict) := Enter(b, now, now);
    if verdict.Refused? then Flight(entered, 0)
    else
      var inside := FlightInside(entered, work, now);
      inside.(crossed := inside.crossed + 1)
  }

  function FlightInside(b: Breaker, work: Work, now: real): Flight
    decreases work, 0
  {
    match work
    case Reenter(before, inner, onReturn, onRaise) =>
      var nested := Play(b, inner, now + before);
      if nested.outcome.Returned? then FlightInside(nested.breaker, onReturn, nested.now)
      else if onRaise.Raise? then FlightOf(b, inner, now + before)
      else FlightInside(nested.breaker, onRaise, nested.now)
    case _ => Flight(b, 0)
  }

  /**
    An exception that crosses d admitted levels is recorded d times, wherever it came from: raised by some
    function, or by the breaker itself in refusing a call.
  */
  lemma {:induction false} PropagationCountsLevels(b: Breaker, work: Work, now: real)
    requires Play(b, work, now).outcome.Raised?
    ensures var p, flight := Play(b, work, now), FlightOf(b, work, now);
            && p.breaker.failures == flight.origin.failures + flight.crossed
            && p.breaker.lastFailure == if flight.crossed == 0 then flight.origin.lastFailure else Some(p.now)
    decreases work, 1
  {
    var (entered, verdict) := Enter(b, now, now);
    if !verdict.Refused? {
      InsideCountsLevels(entered, work, now);
    }
  }

  lemma {:induction false} InsideCountsLevels(b: Breaker, work: Work, now: real)
    requires Body(b, work, now).outcome.Raised?
    ensures var run, flight := Body(b, work, now), FlightInside(b, work, now);
            run.breaker.failures == flight.origin.failures + flight.crossed
    decreases work, 0
  {
    match work
    case Reenter(before, inner, onReturn, onRaise) =>
      var nested := Play(b, inner, now + before);
      if nested.outcome.Returned? {
        InsideCountsLevels(nested.breaker, onReturn, nested.now);
      } else if onRaise.Raise? {
        PropagationCountsLevels(b, inner, now + before);
      } else {
        InsideCountsLevels(nested.breaker, onRaise, nested.now);
      }
    case _ =>
  }

  /** How deep the first calls nest, and whether they are the only ones. */
  function Depth(work: Work): nat {
    match work
    case Reenter(_, inner, _, _) => 1 + Depth(inner)
    case _ => 1
  }

  predicate Single(work: Work) {
    match work
    case Reenter(_, inner, onReturn, onRaise) => Single(inner) && !onReturn.Reenter? && !onRaise.Reenter?
    case _ => true
  }

  /** How a function ends, and how long it takes, if every call it makes is refused. */
  function Alone(work: Work): (Outcome, Duration) {
    match work
    case Return(took) => (Returned, took)
    case Raise(took) => (Raised, took)
    case Cancel(took) => (Cancelled, took)
    case Reenter(before, _, _, onRaise) =>
      var (outcome, took) := Alone(onRaise);
      (outcome, before + took)
  }

  lemma {:induction false} ProbeRunsAlone(b: Breaker, work: Work, now: real)
    requires b.state.HalfOpen? && b.locked
    ensures Body(b, work, now) == Played(b, now + Alone(work).1, Alone(work).0, 0)
  {
    match work
    case Reenter(before, inner, _, onRaise) =>
      assert Play(b, inner, now + before) == Played(b, now + before, Raised, 0);
      ProbeRunsAlone(b, onRaise, now + before);
    case _ =>
  }

  /**
    A closed breaker admits the first call at every depth, and so the whole of a nest that makes no others; a
    half-open one admits the outermost only, whatever it goes on to call; an open one none.
  */
  lemma {:induction false} LevelsAdmitted(b: Breaker, work: Work, now: real)
    ensures Observe(b, now).state.Closed? ==> Depth(work) <= Play(b, work, now).levels
    ensures Observe(b, now).state.Closed? && Single(work) ==> Play(b, work, now).levels == Depth(work)
    ensures Observe(b, now).state.HalfOpen? ==> Play(b, work, now).levels == if b.locked then 0 else 1
    ensures Observe(b, now).state.Open? ==> Play(b, work, now).levels == 0
    decreases work
  {
    var (entered, verdict) := Enter(b, now, now);
    if verdict.Probe? {
      ProbeRunsAlone(entered, work, now);
    } else if work.Reenter? {
      LevelsAdmitted(entered, work.inner, now + work.before);
      var nested := Play(entered, work.inner, now + work.before);
      assert Single(work) ==> Body(nested.breaker, work.onReturn, nested.now).levels == 0;
      assert Single(work) ==> Body(nested.breaker, work.onRaise, nested.now).levels == 0;
    }
  }

  /** A half-open probe that ends well although every call it makes is refused. */
  predicate Recovers(work: Work) {
    Alone(work).0.Returned?
  }

  /**
    Exactly which probes close a half-open breaker again. Whatever a probe calls through the same breaker is
    refused by the lock the probe holds, so no nested call helps, by returning or by its depth: the probe
    recovers the breaker only if the function makes do without each of them.
  */
  lemma ProbeRecoversExactly(b: Breaker, work: Work, now: real)
    requires Observe(b, now).state.HalfOpen?
    ensures Play(b, work, now).breaker.state.Closed? <==> !b.locked && Recovers(work)
  {
    var (entered, verdict) := Enter(b, now, now);
    if verdict.Probe? {
      ProbeRunsAlone(entered, work, now);
    }
  }

  /**
    A half-open breaker never recovers through a function that calls the same breaker and lets the refusal
    through: the lock the probe holds refuses the inner call, whatever the inner call would have done, and
    the refusal is then recorded as the probe's own failure.
  */
  lemma ReentrantProbeReopens(
      b: Breaker, before: Duration, inner: Work, onReturn: Work, onRaise: Work, now: real)
    requires Observe(b, now).state.HalfOpen? && Alone(onRaise).0.Raised?
    requires b.threshold <= b.failures + 1
    ensures var p := Play(b, Reenter(before, inner, onReturn, onRaise), now);
            && p.outcome.Raised?
            && p.breaker.state == (if b.locked then HalfOpen else Open)
            && p.breaker.locked == b.locked
            && (!b.locked ==> p.breaker.lastFailure == Some(now + before + Alone(onRaise).1))
  {
    var (entered, verdict) := Enter(b, now, now);
    if verdict.Probe? {
      ProbeRunsAlone(entered, Reenter(before, inner, onReturn, onRaise), now);
    }
  }

  // ---------------------------------------------------------------------------------------------
  // The object

  class CircuitBreaker {
    const failureThreshold: int
    const resetTimeout: real
    var failureCount: nat
    var state: CircuitState
    var lastFailureTime: Option<real>
    var halfOpenLocked: bool

    function Snapshot(): Breaker
      reads this
    {
      Breaker(failureThreshold, resetTimeout, failureCount, state, lastFailureTime, halfOpenLocked)
    }

    constructor (failureThreshold: int, resetTimeout: real)
      ensures Snapshot() == Fresh(failureThreshold, resetTimeout)
    {
      this.failureThreshold := failureThreshold;
      this.resetTimeout := resetTimeout;
      failureCount, state, lastFailureTime, halfOpenLocked := 0, Closed, None, false;
    }

    /** The `state` property: even a read may move the breaker. */
    method ReadState(now: real) returns (s: CircuitState)
      modifies this
      ensures Snapshot() == Observe(old(Snapshot()), now)
      ensures s == Snapshot().state
    {
      if state == Open && lastFailureTime.Some? {
        var elapsed := now - lastFailureTime.value;
        if elapsed >= resetTimeout {
          state := HalfOpen;
        }
      }
      return state;
    }

    method RecordSuccess()
      modifies this
      ensures Snapshot() == Succeed(old(Snapshot()))
    {
      failureCount := 0;
      state := Closed;
    }

    method RecordFailure(now: real)
      modifies this
      ensures Snapshot() == Fail(old(Snapshot()), now)
    {
      failureCount := failureCount + 1;
      lastFailureTime := Some(now);
      if failureCount >= failureThreshold {
        state := Open;
      }
    }

    /** The two checks at the head of `call`, and the lock a half-open caller takes. */
    method Admit(first: real, second: real) returns (verdict: Verdict)
      modifies this
      ensures (Snapshot(), verdict) == Enter(old(Snapshot()), first, second)
    {
      var s := ReadState(first);
      if s == Open {
        return Refused;
      }
      s := ReadState(second);
      if s == HalfOpen {
        if halfOpenLocked {
          return Refused;
        }
        halfOpenLocked := true;
        return Probe;
      }
      return Passed;
    }

    /** `call`, run without interruption by other callers; the wrapped function may call it again. */
    method Call(work: Work, now: real) returns (outcome: Outcome, later: real, levels: nat)
      modifies this
      ensures Played(Snapshot(), later, outcome, levels) == Play(old(Snapshot()), work, now)
      decreases work, 2
    {
      var verdict := Admit(now, now);
      if verdict == Refused {
        return Raised, now, 0;
      }
      outcome, later, levels := ExecuteCall(work, now);
      if verdict == Probe {
        halfOpenLocked := false;
      }
      levels := levels + 1;
    }

    /** `_execute_call`: run the function and record what an `except Exception` clause can see. */
    method ExecuteCall(work: Work, now: real) returns (outcome: Outcome, later: real, levels: nat)
      modifies this
      ensures var run := Body(old(Snapshot()), work, now);
              && later == run.now && outcome == run.outcome && levels == run.levels
              && Snapshot() == Recorded(run.breaker, run.outcome, run.now)
      decreases work, 1
    {
      outcome, later, levels := RunFunction(work, now);
      if outcome == Returned {
        RecordSuccess();
      } else if outcome == Raised {
        RecordFailure(later);
      }
    }

    /** The wrapped function, and what it calls through this breaker. */
    method RunFunction(work: Work, now: real) returns (outcome: Outcome, later: real, levels: nat)
      modifies this
      ensures Played(Snapshot(), later, outcome, levels) == Body(old(Snapshot()), work, now)
      decreases work, 0
    {
      match work {
        case Return(took) => return Returned, now + took, 0;
        case Raise(took) => return Raised, now + took, 0;
        case Cancel(took) => return Cancelled, now + took, 0;
        case Reenter(before, inner, onReturn, onRaise) =>
          outcome, later, levels := Call(inner, now + before);
          if outcome != Cancelled {
            var more;
            outcome, later, more := RunFunction(if outcome == Returned then onReturn else onRaise, later);
            levels := levels + more;
          }
      }
    }
  }

  /** Consuming and publishing go through one breaker, and middlewares made by the factory share it. */
  class CircuitBreakerMiddleware {
    const breaker: CircuitBreaker

    constructor (failureThreshold: int, resetTimeout: real)
      ensures fresh(breaker) && breaker.Snapshot() == Fresh(failureThreshold, resetTimeout)
    {
      breaker := new CircuitBreaker(failureThreshold, resetTimeout);
    }

    constructor Sharing(breaker: CircuitBreaker)
      ensures this.breaker == breaker
    {
      this.breaker := breaker;
    }

    method ConsumeScope(handler: Work, now: real) returns (outcome: Outcome, later: real, levels: nat)
      modifies breaker
      ensures Played(breaker.Snapshot(), later, outcome, levels) == Play(old(breaker.Snapshot()), handler, now)
    {
      outcome, later, levels := breaker.Call(handler, now);
    }

    method PublishScope(send: Work, now: real) returns (outcome: Outcome, later: real, levels: nat)
      modifies breaker
      ensures Played(breaker.Snapshot(), later, outcome, levels) == Play(old(breaker.Snapshot()), send, now)
    {
      outcome, later, levels := breaker.Call(send, now);
    }
  }
}
