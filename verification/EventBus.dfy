/**
  The in-process event bus. What a handler does when it is invoked is the adversary's choice, made anew for
  each invocation: it may register handlers, dispatch events and raise, so dispatch is re-entrant. The hooks
  record what they are told and do not raise.
*/
module EventBus {

  /** A registered callback with the name its traces carry. */
  datatype Handler = Handler(name: string, callback: nat)

  /** The rest of an invocation; after a nested dispatch it depends on whether that raised. */
  datatype Script =
    | Stop
    | Raise
    | Register(event: string, handler: Handler, next: Script)
    | Dispatch(event: string, onReturn: Script, onRaise: Script)

  datatype Trace = Began(name: string) | Succeeded(name: string) | Failed(name: string) | Disabled

  /** What a handler does, given all the traces up to its invocation, which tell any two invocations apart. */
  type Behaviour = (Handler, seq<Trace>) -> Script

  type Handlers = map<string, seq<Handler>>

  /** What a piece of execution leaves behind: the registrations, the traces it emitted, whether it raised. */
  datatype Done = Done(handlers: Handlers, traces: seq<Trace>, raised: bool)

  function HandlersOf(handlers: Handlers, event: string): seq<Handler> {
    if event in handlers then handlers[event] else []
  }

  function Registered(handlers: Handlers, event: string, h: Handler): Handlers {
    handlers[event := HandlersOf(handlers, event) + [h]]
  }

  // The meaning of a dispatch, after the traces in `past`. `depth` is what the interpreter's recursion limit
  // leaves for nested dispatches; going beyond it raises.

  function DispatchDone(
      enabled: bool, behave: Behaviour, depth: nat, past: seq<Trace>, handlers: Handlers, event: string): Done
    decreases depth, 0
  {
    if !enabled then Done(handlers, [Disabled], false)
    else if depth == 0 then Done(handlers, [], true)
    else InvokeAllDone(behave, depth - 1, past, handlers, HandlersOf(handlers, event))
  }

  function InvokeAllDone(behave: Behaviour, depth: nat, past: seq<Trace>, handlers: Handlers, hs: seq<Handler>): Done
    decreases depth, 3, |hs|
  {
    if hs == [] then Done(handlers, [], false)
    else
      var first := InvokeDone(behave, depth, past, handlers, hs[0]);
      if first.raised then first
      else
        var rest := InvokeAllDone(behave, depth, past + first.traces, first.handlers, hs[1..]);
        rest.(traces := first.traces + rest.traces)
  }

  function InvokeDone(behave: Behaviour, depth: nat, past: seq<Trace>, handlers: Handlers, h: Handler): Done
    decreases depth, 2
  {
    var begun := past + [Began(h.name)];
    var body := ScriptDone(behave, depth, begun, handlers, behave(h, begun));
    body.(traces := [Began(h.name)] + body.traces + [if body.raised then Failed(h.name) else Succeeded(h.name)])
  }

  function ScriptDone(behave: Behaviour, depth: nat, past: seq<Trace>, handlers: Handlers, script: Script): Done
    decreases depth, 1, script
  {
    match script
    case Stop => Done(handlers, [], false)
    case Raise => Done(handlers, [], true)
    case Register(event, h, next) => ScriptDone(behave, depth, past, Registered(handlers, event, h), next)
    case Dispatch(event, onReturn, onRaise) =>
      var nested := DispatchDone(true, behave, depth, past, handlers, event);
      var next := if nested.raised then onRaise else onReturn;
      var rest := ScriptDone(behave, depth, past + nested.traces, nested.handlers, next);
      rest.(traces := nested.traces + rest.traces)
  }

  function Prefixed(emitted: seq<Trace>, done: Done): Done {
    done.(traces := emitted + done.traces)
  }

  /** One turn of the loop over the handlers, with the traces of the turns before it. */
  lemma InvokeAllAdvances(
      behave: Behaviour, depth: nat, past: seq<Trace>, handlers: Handlers, hs: seq<Handler>, emitted: seq<Trace>)
    requires hs != []
    ensures var first := InvokeDone(behave, depth, past, handlers, hs[0]);
            Prefixed(emitted, InvokeAllDone(behave, depth, past, handlers, hs)) ==
              Prefixed(emitted + first.traces,
                       if first.raised then first.(traces := [])
                       else InvokeAllDone(behave, depth, past + first.traces, first.handlers, hs[1..]))
  {
    var first := InvokeDone(behave, depth, past, handlers, hs[0]);
    if first.raised {
      assert emitted + first.traces + [] == emitted + first.traces;
    } else {
      var rest := InvokeAllDone(behave, depth, past + first.traces, first.handlers, hs[1..]);
      assert emitted + (first.traces + rest.traces) == emitted + first.traces + rest.traces;
    }
  }

  // ---------------------------------------------------------------------------------------------
  // The object

  class EventBus {
    const enabled: bool
    const behave: Behaviour
    var handlers: Handlers
    var traces: seq<Trace>

    constructor (enabled: bool, behave: Behaviour)
      ensures this.enabled == enabled && this.behave == behave && handlers == map[] && traces == []
    {
      this.enabled, this.behave := enabled, behave;
      handlers, traces := map[], [];
    }

    method Register(event: string, h: Handler)
      modifies this`handlers
      ensures handlers == Registered(old(handlers), event, h)
    {
      if event !in handlers {
        handlers := handlers[event := []];
      }
      handlers := handlers[event := handlers[event] + [h]];
    }

    method Dispatch(depth: nat, event: string) returns (raised: bool)
      modifies this
      ensures var done := DispatchDone(enabled, behave, depth, old(traces), old(handlers), event);
              handlers == done.handlers && traces == old(traces) + done.traces && raised == done.raised
      decreases depth, 0
    {
      var snapshot := HandlersOf(handlers, event);
      if !enabled {
        traces := traces + [Disabled];
        return false;
      }
      if depth == 0 {
        return true;
      }
      raised := InvokeAll(depth - 1, snapshot);
    }

    /** `SequentialDispatchBackend.invoke`: in order, until one raises. */
    method InvokeAll(depth: nat, hs: seq<Handler>) returns (raised: bool)
      requires enabled
      modifies this
      ensures var done := InvokeAllDone(behave, depth, old(traces), old(handlers), hs);
              handlers == done.handlers && traces == old(traces) + done.traces && raised == done.raised
      decreases depth, 3
    {
      ghost var emitted: seq<Trace> := [];
      ghost var whole := InvokeAllDone(behave, depth, traces, handlers, hs);
      assert hs[0..] == hs && Prefixed([], whole) == whole;
      for i := 0 to |hs|
        invariant traces == old(traces) + emitted
        invariant whole == Prefixed(emitted, InvokeAllDone(behave, depth, traces, handlers, hs[i..]))
      {
        ghost var first := InvokeDone(behave, depth, traces, handlers, hs[i]);
        InvokeAllAdvances(behave, depth, traces, handlers, hs[i..], emitted);
        assert hs[i..][1..] == hs[i + 1..];
        raised := InvokeHandler(depth, hs[i]);
        emitted := emitted + first.traces;
        if raised {
          return true;
        }
      }
      return false;
    }

    /** `DispatchExecutor.invoke_handler`: a trace before, one after, and the exception passed on. */
    method InvokeHandler(depth: nat, h: Handler) returns (raised: bool)
      requires enabled
      modifies this
      ensures var done := InvokeDone(behave, depth, old(traces), old(handlers), h);
              handlers == done.handlers && traces == old(traces) + done.traces && raised == done.raised
      decreases depth, 2
    {
      traces := traces + [Began(h.name)];
      raised := RunScript(depth, behave(h, traces));
      traces := traces + [if raised then Failed(h.name) else Succeeded(h.name)];
    }

    /** The handler's own code. */
    method RunScript(depth: nat, script: Script) returns (raised: bool)
      requires enabled
      modifies this
      ensures var done := ScriptDone(behave, depth, old(traces), old(handlers), script);
              handlers == done.handlers && traces == old(traces) + done.traces && raised == done.raised
      decreases depth, 1, script
    {
      match script {
        case Stop => return false;
        case Raise => return true;
        case Register(event, h, next) =>
          Register(event, h);
          raised := RunScript(depth, next);
        case Dispatch(event, onReturn, onRaise) =>
          var failed := Dispatch(depth, event);
          raised := RunScript(depth, if failed then onRaise else onReturn);
      }
    }
  }

  // ---------------------------------------------------------------------------------------------
  // Well-bracketed traces

  /** Reads a word of traces against the stack of handlers that have begun; None if a trace does not match. */
  function Scan(word: seq<Trace>, stack: seq<string>): (r: seq<seq<string>>)
    ensures |r| <= 1
  {
    if word == [] then [stack]
    else
      match word[0]
      case Began(name) => Scan(word[1..], stack + [name])
      case Disabled => Scan(word[1..], stack)
      case Succeeded(name) =>
        if stack != [] && stack[|stack| - 1] == name then Scan(word[1..], stack[..|stack| - 1]) else []
      case Failed(name) =>
        if stack != [] && stack[|stack| - 1] == name then Scan(word[1..], stack[..|stack| - 1]) else []
  }

  /** The outcome of one handler. */
  datatype Closing = Closing(name: string, ok: bool)

  /** The handlers that end at the level at which the word starts, with their outcomes. */
  function Outer(word: seq<Trace>, level: nat): seq<Closing> {
    if word == [] then []
    else
      match word[0]
      case Began(_) => Outer(word[1..], level + 1)
      case Disabled => Outer(word[1..], level)
      case Succeeded(name) =>
        (if level == 1 then [Closing(name, true)] else []) + Outer(word[1..], if level == 0 then 0 else level - 1)
      case Failed(name) =>
        (if level == 1 then [Closing(name, false)] else []) + Outer(word[1..], if level == 0 then 0 else level - 1)
  }

  /** The word opens and closes handlers in matching pairs, on top of any stack. */
  ghost predicate Balanced(word: seq<Trace>) {
    && (forall stack :: Scan(word, stack) == [stack])
    && (forall rest, level: nat :: 0 < level ==> Outer(word + rest, level) == Outer(rest, level))
    && (forall rest :: Outer(word + rest, 0) == Outer(word, 0) + Outer(rest, 0))
  }

  lemma {:induction false} ScanConcat(a: seq<Trace>, b: seq<Trace>, stack: seq<string>)
    ensures Scan(a + b, stack) == if Scan(a, stack) == [] then [] else Scan(b, Scan(a, stack)[0])
    decreases |a|
  {
    if a == [] {
      assert a + b == b;
    } else {
      assert (a + b)[1..] == a[1..] + b;
      match a[0] {
        case Began(name) => ScanConcat(a[1..], b, stack + [name]);
        case Disabled => ScanConcat(a[1..], b, stack);
        case _ =>
          if stack != [] {
            ScanConcat(a[1..], b, stack[..|stack| - 1]);
          }
      }
    }
  }

  lemma BalancedEmpty()
    ensures Balanced([])
  {
    forall rest: seq<Trace>
      ensures [] + rest == rest
    {}
  }

  lemma BalancedConcat(a: seq<Trace>, b: seq<Trace>)
    requires Balanced(a) && Balanced(b)
    ensures Balanced(a + b)
  {
    forall stack: seq<string>
      ensures Scan(a + b, stack) == [stack]
    {
      ScanConcat(a, b, stack);
    }
    forall rest, level: nat | 0 < level
      ensures Outer(a + b + rest, level) == Outer(rest, level)
    {
      assert a + b + rest == a + (b + rest);
    }
    forall rest
      ensures Outer(a + b + rest, 0) == Outer(a + b, 0) + Outer(rest, 0)
    {
      assert a + b + rest == a + (b + rest);
    }
  }

  lemma ScanBracket(word: seq<Trace>, name: string, end: Trace, stack: seq<string>)
    requires Scan(word, stack + [name]) == [stack + [name]] && (end == Succeeded(name) || end == Failed(name))
    ensures Scan([Began(name)] + word + [end], stack) == [stack]
  {
    var whole := [Began(name)] + word + [end];
    assert whole[1..] == word + [end];
    ScanConcat(word, [end], stack + [name]);
    ScanEnd(name, end, stack);
  }

  lemma ScanEnd(name: string, end: Trace, stack: seq<string>)
    requires end == Succeeded(name) || end == Failed(name)
    ensures Scan([end], stack + [name]) == [stack]
  {
    assert [end][1..] == [];
    assert (stack + [name])[..|stack + [name]| - 1] == stack;
    assert Scan([], stack) == [stack];
  }

  lemma OuterBracket(word: seq<Trace>, name: string, end: Trace, rest: seq<Trace>, level: nat)
    requires Balanced(word) && (end == Succeeded(name) || end == Failed(name))
    ensures Outer([Began(name)] + word + [end] + rest, level) ==
      (if level == 0 then [Closing(name, end.Succeeded?)] else []) + Outer(rest, level)
  {
    var whole := [Began(name)] + word + [end] + rest;
    assert whole[1..] == word + ([end] + rest);
    assert Outer(word + ([end] + rest), level + 1) == Outer([end] + rest, level + 1);
    assert ([end] + rest)[1..] == rest;
  }

  lemma BalancedBracket(word: seq<Trace>, name: string, end: Trace)
    requires Balanced(word) && (end == Succeeded(name) || end == Failed(name))
    ensures Balanced([Began(name)] + word + [end])
    ensures Outer([Began(name)] + word + [end], 0) == [Closing(name, end.Succeeded?)]
  {
    var whole := [Began(name)] + word + [end];
    OuterBracket(word, name, end, [], 0);
    assert whole + [] == whole && Outer([], 0) == [];
    forall stack: seq<string>
      ensures Scan(whole, stack) == [stack]
    {
      ScanBracket(word, name, end, stack);
    }
    forall rest, level: nat
      ensures Outer(whole + rest, level) == (if level == 0 then [Closing(name, end.Succeeded?)] else []) + Outer(rest, level)
    {
      OuterBracket(word, name, end, rest, level);
    }
  }

  lemma {:induction false} DispatchBalanced(
      enabled: bool, behave: Behaviour, depth: nat, past: seq<Trace>, handlers: Handlers, event: string)
    ensures Balanced(DispatchDone(enabled, behave, depth, past, handlers, event).traces)
    decreases depth, 0
  {
    if !enabled {
      DisabledBalanced();
    } else if depth == 0 {
      BalancedEmpty();
    } else {
      InvokeAllBalanced(behave, depth - 1, past, handlers, HandlersOf(handlers, event));
    }
  }

  lemma DisabledBalanced()
    ensures Balanced([Disabled])
  {
    assert [Disabled][1..] == [];
    forall rest: seq<Trace>, level: nat
      ensures Outer([Disabled] + rest, level) == Outer(rest, level)
    {
      assert ([Disabled] + rest)[1..] == rest;
    }
  }

  lemma {:induction false} InvokeAllBalanced(
      behave: Behaviour, depth: nat, past: seq<Trace>, handlers: Handlers, hs: seq<Handler>)
    ensures Balanced(InvokeAllDone(behave, depth, past, handlers, hs).traces)
    decreases depth, 3, |hs|
  {
    if hs == [] {
      BalancedEmpty();
    } else {
      InvokeBalanced(behave, depth, past, handlers, hs[0]);
      var first := InvokeDone(behave, depth, past, handlers, hs[0]);
      if !first.raised {
        InvokeAllBalanced(behave, depth, past + first.traces, first.handlers, hs[1..]);
        BalancedConcat(first.traces,
                       InvokeAllDone(behave, depth, past + first.traces, first.handlers, hs[1..]).traces);
      }
    }
  }

  lemma {:induction false} InvokeBalanced(behave: Behaviour, depth: nat, past: seq<Trace>, handlers: Handlers, h: Handler)
    ensures var done := InvokeDone(behave, depth, past, handlers, h);
            Balanced(done.traces) && Outer(done.traces, 0) == [Closing(h.name, !done.raised)]
    decreases depth, 2
  {
    var begun := past + [Began(h.name)];
    ScriptBalanced(behave, depth, begun, handlers, behave(h, begun));
    var body := ScriptDone(behave, depth, begun, handlers, behave(h, begun));
    BalancedBracket(body.traces, h.name, if body.raised then Failed(h.name) else Succeeded(h.name));
  }

  lemma {:induction false} ScriptBalanced(
      behave: Behaviour, depth: nat, past: seq<Trace>, handlers: Handlers, script: Script)
    ensures Balanced(ScriptDone(behave, depth, past, handlers, script).traces)
    decreases depth, 1, script
  {
    match script {
      case Stop => BalancedEmpty();
      case Raise => BalancedEmpty();
      case Register(event, h, next) => ScriptBalanced(behave, depth, past, Registered(handlers, event, h), next);
      case Dispatch(event, onReturn, onRaise) =>
        DispatchBalanced(true, behave, depth, past, handlers, event);
        var nested := DispatchDone(true, behave, depth, past, handlers, event);
        var next := if nested.raised then onRaise else onReturn;
        ScriptBalanced(behave, depth, past + nested.traces, nested.handlers, next);
        BalancedConcat(nested.traces, ScriptDone(behave, depth, past + nested.traces, nested.handlers, next).traces);
    }
  }

  /** Whatever the handlers do, the traces of a dispatch pair each begin with the end of the same handler. */
  lemma DispatchTracesMatch(
      enabled: bool, behave: Behaviour, depth: nat, past: seq<Trace>, handlers: Handlers, event: string)
    ensures Scan(DispatchDone(enabled, behave, depth, past, handlers, event).traces, []) == [[]]
  {
    DispatchBalanced(enabled, behave, depth, past, handlers, event);
  }

  // ---------------------------------------------------------------------------------------------
  // Which handlers a dispatch runs

  /** The first n handlers, all successful except the last one if the dispatch raised. */
  function RanPrefix(hs: seq<Handler>, n: nat, raised: bool): seq<Closing>
    requires n <= |hs|
  {
    seq(n, i requires 0 <= i < n => Closing(hs[i].name, !(raised && i == n - 1)))
  }

  /** The first n handlers ran; all of them if nothing was raised, and at least the one that raised. */
  predicate Ran(done: Done, hs: seq<Handler>, n: nat) {
    && n <= |hs|
    && Outer(done.traces, 0) == RanPrefix(hs, n, done.raised)
    && (if done.raised then 0 < n else n == |hs|)
  }

  lemma {:induction false} InvokeAllRuns(
      behave: Behaviour, depth: nat, past: seq<Trace>, handlers: Handlers, hs: seq<Handler>) returns (n: nat)
    ensures Ran(InvokeAllDone(behave, depth, past, handlers, hs), hs, n)
    decreases |hs|
  {
    if hs == [] {
      n := 0;
    } else {
      var first := InvokeDone(behave, depth, past, handlers, hs[0]);
      InvokeBalanced(behave, depth, past, handlers, hs[0]);
      if first.raised {
        n := 1;
      } else {
        var m := InvokeAllRuns(behave, depth, past + first.traces, first.handlers, hs[1..]);
        n := m + 1;
        var rest := InvokeAllDone(behave, depth, past + first.traces, first.handlers, hs[1..]);
        assert Outer(first.traces + rest.traces, 0) == Outer(first.traces, 0) + Outer(rest.traces, 0);
        assert RanPrefix(hs, n, rest.raised) == [Closing(hs[0].name, true)] + RanPrefix(hs[1..], m, rest.raised);
      }
    }
  }

  /**
    An enabled dispatch runs exactly the handlers that were registered when it began, in order, up to and
    including the first that fails, and raises exactly if one fails; registrations made while it runs do
    not change that. A disabled dispatch runs none. This holds of nested dispatches as it does of the
    outermost one, a handler's dispatches of its own event included.
  */
  lemma DispatchRunsSnapshot(
      enabled: bool, behave: Behaviour, depth: nat, past: seq<Trace>, handlers: Handlers, event: string)
    ensures !enabled ==> DispatchDone(enabled, behave, depth, past, handlers, event) == Done(handlers, [Disabled], false)
    ensures enabled && depth == 0 ==>
              DispatchDone(enabled, behave, depth, past, handlers, event) == Done(handlers, [], true)
    ensures enabled && 0 < depth ==>
              exists n: nat ::
                Ran(DispatchDone(enabled, behave, depth, past, handlers, event), HandlersOf(handlers, event), n)
  {
    if enabled && 0 < depth {
      var n := InvokeAllRuns(behave, depth - 1, past, handlers, HandlersOf(handlers, event));
      var done := DispatchDone(enabled, behave, depth, past, handlers, event);
      assert done == InvokeAllDone(behave, depth - 1, past, handlers, HandlersOf(handlers, event));
      assert Ran(done, HandlersOf(handlers, event), n);
    }
  }

  // ---------------------------------------------------------------------------------------------
  // Handlers end as their code does

  /** What a handler's code does on its way: it registers handlers and dispatches events, which may raise. */
  datatype Act = Registers(event: string, handler: Handler) | Dispatches(event: string, raised: bool)

  /** The code can take this way, given how the dispatches on it end, and this is how it ends. */
  predicate Takes(script: Script, acts: seq<Act>, raised: bool) {
    match script
    case Stop => acts == [] && !raised
    case Raise => acts == [] && raised
    case Register(event, h, next) => acts != [] && acts[0] == Registers(event, h) && Takes(next, acts[1..], raised)
    case Dispatch(event, onReturn, onRaise) =>
      acts != [] && acts[0].Dispatches? && acts[0].event == event
      && (if acts[0].raised then Takes(onRaise, acts[1..], raised) else Takes(onReturn, acts[1..], raised))
  }

  /** The acts, one after the other, leave these registrations and traces, and the dispatches end as they say. */
  ghost predicate Perform(
      behave: Behaviour, depth: nat, past: seq<Trace>, handlers: Handlers, acts: seq<Act>, after: Handlers,
      word: seq<Trace>)
    decreases |acts|
  {
    if acts == [] then after == handlers && word == []
    else
      match acts[0]
      case Registers(event, h) => Perform(behave, depth, past, Registered(handlers, event, h), acts[1..], after, word)
      case Dispatches(event, raised) =>
        var nested := DispatchDone(true, behave, depth, past, handlers, event);
        && nested.raised == raised && nested.traces <= word
        && Perform(behave, depth, past + nested.traces, nested.handlers, acts[1..], after, word[|nested.traces|..])
  }

  lemma {:induction false} ScriptPerforms(
      behave: Behaviour, depth: nat, past: seq<Trace>, handlers: Handlers, script: Script) returns (acts: seq<Act>)
    ensures var done := ScriptDone(behave, depth, past, handlers, script);
            && Takes(script, acts, done.raised)
            && Perform(behave, depth, past, handlers, acts, done.handlers, done.traces)
    decreases script
  {
    match script {
      case Stop => acts := [];
      case Raise => acts := [];
      case Register(event, h, next) =>
        var more := ScriptPerforms(behave, depth, past, Registered(handlers, event, h), next);
        acts := [Registers(event, h)] + more;
        assert acts[1..] == more;
      case Dispatch(event, onReturn, onRaise) =>
        var nested := DispatchDone(true, behave, depth, past, handlers, event);
        var next := if nested.raised then onRaise else onReturn;
        var more := ScriptPerforms(behave, depth, past + nested.traces, nested.handlers, next);
        acts := [Dispatches(event, nested.raised)] + more;
        assert acts[1..] == more;
        var rest := ScriptDone(behave, depth, past + nested.traces, nested.handlers, next);
        assert (nested.traces + rest.traces)[|nested.traces|..] == rest.traces;
    }
  }

  /** The handler was begun, its code ran to its end, and the trace behind it and the outcome say which end. */
  ghost predicate RanItsCode(
      behave: Behaviour, depth: nat, past: seq<Trace>, handlers: Handlers, h: Handler, done: Done)
  {
    var begun := past + [Began(h.name)];
    exists acts, word ::
      && Takes(behave(h, begun), acts, done.raised)
      && Perform(behave, depth, begun, handlers, acts, done.handlers, word)
      && done.traces == [Began(h.name)] + word + [if done.raised then Failed(h.name) else Succeeded(h.name)]
  }

  lemma InvokeRunsCode(behave: Behaviour, depth: nat, past: seq<Trace>, handlers: Handlers, h: Handler)
    ensures RanItsCode(behave, depth, past, handlers, h, InvokeDone(behave, depth, past, handlers, h))
  {
    var begun := past + [Began(h.name)];
    var acts := ScriptPerforms(behave, depth, begun, handlers, behave(h, begun));
    var body := ScriptDone(behave, depth, begun, handlers, behave(h, begun));
    assert Perform(behave, depth, begun, handlers, acts, body.handlers, body.traces);
  }

  /** What the first n handlers leave, each of them invoked after what those before it have left. */
  function Turns(
      behave: Behaviour, depth: nat, past: seq<Trace>, handlers: Handlers, hs: seq<Handler>, n: nat): Done
    requires n <= |hs|
  {
    if n == 0 then Done(handlers, [], false)
    else
      var before := Turns(behave, depth, past, handlers, hs, n - 1);
      var last := InvokeDone(behave, depth, past + before.traces, before.handlers, hs[n - 1]);
      last.(traces := before.traces + last.traces)
  }

  lemma {:induction false} TurnsFromSecond(
      behave: Behaviour, depth: nat, past: seq<Trace>, handlers: Handlers, hs: seq<Handler>, n: nat)
    requires n < |hs|
    ensures var first := InvokeDone(behave, depth, past, handlers, hs[0]);
            var rest := Turns(behave, depth, past + first.traces, first.handlers, hs[1..], n);
            Turns(behave, depth, past, handlers, hs, n + 1) ==
              Done(rest.handlers, first.traces + rest.traces, if n == 0 then first.raised else rest.raised)
  {
    var first := InvokeDone(behave, depth, past, handlers, hs[0]);
    if n == 0 {
      assert past + [] == past && [] + first.traces == first.traces && first.traces + [] == first.traces;
      assert Turns(behave, depth, past, handlers, hs, 0) == Done(handlers, [], false);
    } else {
      TurnsFromSecond(behave, depth, past, handlers, hs, n - 1);
      var rest := Turns(behave, depth, past + first.traces, first.handlers, hs[1..], n - 1);
      assert past + (first.traces + rest.traces) == past + first.traces + rest.traces;
      var last := InvokeDone(behave, depth, past + first.traces + rest.traces, rest.handlers, hs[n]);
      assert first.traces + rest.traces + last.traces == first.traces + (rest.traces + last.traces);
    }
  }

  /** The first n handlers ran, and none before the last of them raised; if that one did not, they are all. */
  ghost predicate StopsAfter(
      behave: Behaviour, depth: nat, past: seq<Trace>, handlers: Handlers, hs: seq<Handler>, n: nat, done: Done)
  {
    && n <= |hs| && done == Turns(behave, depth, past, handlers, hs, n)
    && (forall i :: 0 <= i < n ==> !Turns(behave, depth, past, handlers, hs, i).raised)
    && (!done.raised ==> n == |hs|)
  }

  lemma {:induction false} InvokeAllStops(
      behave: Behaviour, depth: nat, past: seq<Trace>, handlers: Handlers, hs: seq<Handler>) returns (n: nat)
    ensures StopsAfter(behave, depth, past, handlers, hs, n, InvokeAllDone(behave, depth, past, handlers, hs))
    decreases |hs|
  {
    if hs == [] {
      n := 0;
    } else {
      var first := InvokeDone(behave, depth, past, handlers, hs[0]);
      TurnsFromSecond(behave, depth, past, handlers, hs, 0);
      if first.raised {
        n := 1;
        assert first.traces + [] == first.traces;
      } else {
        var m := InvokeAllStops(behave, depth, past + first.traces, first.handlers, hs[1..]);
        n := m + 1;
        TurnsFromSecond(behave, depth, past, handlers, hs, m);
        forall i | 0 <= i < n
          ensures !Turns(behave, depth, past, handlers, hs, i).raised
        {
          if 0 < i {
            TurnsFromSecond(behave, depth, past, handlers, hs, i - 1);
            assert !Turns(behave, depth, past + first.traces, first.handlers, hs[1..], i - 1).raised;
          }
        }
      }
    }
  }

  /**
    Where a dispatch stops, and why. Each handler that runs is invoked after what those before it have left,
    and ends as its own code does: with a failure if the code raises, given how its own dispatches end, and with
    success if it comes to its end. The first handler that raises is the last to run, and the dispatch raises
    exactly if there is one; otherwise all handlers registered when it began have run.
  */
  lemma DispatchStopsAtFirstRaise(
      behave: Behaviour, depth: nat, past: seq<Trace>, handlers: Handlers, event: string) returns (n: nat)
    requires 0 < depth
    ensures var hs := HandlersOf(handlers, event);
            StopsAfter(behave, depth - 1, past, handlers, hs, n, DispatchDone(true, behave, depth, past, handlers, event))
    ensures var hs := HandlersOf(handlers, event);
            forall i :: 0 <= i < n ==>
              var before := Turns(behave, depth - 1, past, handlers, hs, i);
              var after := Turns(behave, depth - 1, past, handlers, hs, i + 1);
              && before.traces <= after.traces
              && RanItsCode(behave, depth - 1, past + before.traces, before.handlers, hs[i],
                            after.(traces := after.traces[|before.traces|..]))
  {
    var hs := HandlersOf(handlers, event);
    n := InvokeAllStops(behave, depth - 1, past, handlers, hs);
    forall i | 0 <= i < n
      ensures var before := Turns(behave, depth - 1, past, handlers, hs, i);
              var after := Turns(behave, depth - 1, past, handlers, hs, i + 1);
              && before.traces <= after.traces
              && RanItsCode(behave, depth - 1, past + before.traces, before.handlers, hs[i],
                            after.(traces := after.traces[|before.traces|..]))
    {
      var before := Turns(behave, depth - 1, past, handlers, hs, i);
      InvokeRunsCode(behave, depth - 1, past + before.traces, before.handlers, hs[i]);
      var one := InvokeDone(behave, depth - 1, past + before.traces, before.handlers, hs[i]);
      assert (before.traces + one.traces)[|before.traces|..] == one.traces;
    }
  }

  /** The plainest case: the first handler raises, so there are its two traces and no others. */
  lemma FirstHandlerRaises(behave: Behaviour, depth: nat, past: seq<Trace>, handlers: Handlers, event: string)
    requires 0 < depth && HandlersOf(handlers, event) != []
    requires var h := HandlersOf(handlers, event)[0]; behave(h, past + [Began(h.name)]) == Raise
    ensures var h := HandlersOf(handlers, event)[0];
            DispatchDone(true, behave, depth, past, handlers, event) ==
              Done(handlers, [Began(h.name), Failed(h.name)], true)
  {
    var hs := HandlersOf(handlers, event);
    var begun := past + [Began(hs[0].name)];
    assert ScriptDone(behave, depth - 1, begun, handlers, behave(hs[0], begun)) == Done(handlers, [], true);
    assert InvokeDone(behave, depth - 1, past, handlers, hs[0]).raised;
  }

  // ---------------------------------------------------------------------------------------------
  // Registrations

  /** A handler comes last in its event's list, and no other list changes. */
  lemma RegisteredComesLast(handlers: Handlers, event: string, h: Handler, other: string)
    ensures HandlersOf(Registered(handlers, event, h), other) ==
      HandlersOf(handlers, other) + if other == event then [h] else []
  {
  }

  /** Whatever a dispatch runs, it unregisters nothing and comes between no two handlers. */
  lemma {:induction false} DispatchOnlyRegisters(
      enabled: bool, behave: Behaviour, depth: nat, past: seq<Trace>, handlers: Handlers, event: string, other: string)
    ensures HandlersOf(handlers, other) <=
      HandlersOf(DispatchDone(enabled, behave, depth, past, handlers, event).handlers, other)
    decreases depth, 0
  {
    if enabled && 0 < depth {
      InvokeAllOnlyRegisters(behave, depth - 1, past, handlers, HandlersOf(handlers, event), other);
    }
  }

  lemma {:induction false} InvokeAllOnlyRegisters(
      behave: Behaviour, depth: nat, past: seq<Trace>, handlers: Handlers, hs: seq<Handler>, other: string)
    ensures HandlersOf(handlers, other) <=
      HandlersOf(InvokeAllDone(behave, depth, past, handlers, hs).handlers, other)
    decreases depth, 3, |hs|
  {
    if hs != [] {
      var begun := past + [Began(hs[0].name)];
      ScriptOnlyRegisters(behave, depth, begun, handlers, behave(hs[0], begun), other);
      var first := InvokeDone(behave, depth, past, handlers, hs[0]);
      if !first.raised {
        InvokeAllOnlyRegisters(behave, depth, past + first.traces, first.handlers, hs[1..], other);
      }
    }
  }

  lemma {:induction false} ScriptOnlyRegisters(
      behave: Behaviour, depth: nat, past: seq<Trace>, handlers: Handlers, script: Script, other: string)
    ensures HandlersOf(handlers, other) <=
      HandlersOf(ScriptDone(behave, depth, past, handlers, script).handlers, other)
    decreases depth, 1, script
  {
    match script {
      case Stop =>
      case Raise =>
      case Register(event, h, next) =>
        RegisteredComesLast(handlers, event, h, other);
        ScriptOnlyRegisters(behave, depth, past, Registered(handlers, event, h), next, other);
      case Dispatch(event, onReturn, onRaise) =>
        DispatchOnlyRegisters(true, behave, depth, past, handlers, event, other);
        var nested := DispatchDone(true, behave, depth, past, handlers, event);
        ScriptOnlyRegisters(behave, depth, past + nested.traces, nested.handlers,
                            if nested.raised then onRaise else onReturn, other);
    }
  }
}
