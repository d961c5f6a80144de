/**
  The delivery pipeline as one machine: outbox rows, captured into Kafka partitions, forwarded by the
  bridge to RabbitMQ, processed there by idempotent consumers. Bridge and consumers claim events in one
  table, each inside its own database transaction.

  A step is what happens between two suspension points of one task, or an act of the environment. A step
  that is not enabled changes nothing, so each list of steps is a run: tasks interleave freely, deliveries
  repeat freely, and failures strike wherever the list says.
*/
module Pipeline {
  import opened Wrappers
  import opened Messages
  import opened Routing

  /** The consumer name under which the bridge claims. */
  const BRIDGE := "kafka_rabbitmq_bridge"

  /** The primary key of the processed-message table. */
  datatype Key = Key(consumer: string, id: string)

  /** What is being handled: a Kafka delivery by the bridge, or a RabbitMQ delivery by a consumer. */
  datatype Source = Kafka(partition: nat, offset: nat) | Rabbit(consumer: string, entry: nat)

  /** `Nacked`: Kafka took the nack, even if it raised. `Lost`: cancelled, crashed or a failed nack, so Kafka heard nothing. */
  datatype Ending = Acked | Nacked | Lost

  /**
    How far an attempt has come: transaction begun; claim inserted; work done (published, or the business
    effect written); nothing to do; transaction over and its success reported; an exception on its way out;
    over. A claim not yet committed belongs to an attempt that is `Claimed` or `Worked`.
  */
  datatype Phase = Begun | Claimed | Worked | Idle | Settled | Failing | Ended(how: Ending)

  datatype Attempt = Attempt(source: Source, message: Message, phase: Phase, published: bool, committed: bool)

  datatype Entry = Entry(partition: nat, offset: nat, id: string, message: Message, attempt: nat)

  datatype Effect = Effect(key: Key, message: Message, attempt: nat)

  datatype Event = Published(attempt: nat) | Committed(attempt: nat) | WasAcked(attempt: nat)

  /** A business transaction with outbox rows not yet committed; `clash` if it added one identifier twice. */
  datatype Session = Open(pending: map<string, Message>, clash: bool) | Closed

  datatype State = State(
    template: Template,
    consumers: set<string>,
    sessions: seq<Session>,
    rows: map<string, Message>,
    logs: seq<seq<Message>>,
    positions: seq<nat>,
    offsets: seq<nat>,
    stale: set<nat>,
    claims: set<Key>,
    rabbit: seq<Entry>,
    effects: seq<Effect>,
    attempts: seq<Attempt>,
    history: seq<Event>)

  /** How a remote operation went: as reported, not at all, or carried out although its caller got an exception. */
  datatype Fate = Ok | Fails | Ambiguous

  datatype Move =
    | Claim
    | Break
    | Work(fate: Fate)
    | Commit(fate: Fate)
    | Ack(fate: Fate)
    | Nack(fate: Fate)
    | Die

  datatype Step =
    | OpenSession
    | AddRow(session: nat, id: string, payload: Message)
    | CloseSession(session: nat, commit: bool)
    | AddRowAlone(id: string, payload: Message)
    | Capture(id: string, partition: nat)
    | Deliver(partition: nat, offset: nat)
    | Refuse(partition: nat)
    | Restart(partition: nat)
    | Consume(consumer: string, entry: nat)
    | On(attempt: nat, move: Move)

  function Init(template: Template, consumers: set<string>, partitions: nat): State {
    State(template, consumers, [], map[], seq(partitions, _ => []), seq(partitions, _ => 0), seq(partitions, _ => 0),
          {}, {}, [], [], [], [])
  }

  function KeyOf(a: Attempt): Option<Key> {
    match a.source
    case Kafka(_, _) => (match BridgeIdOf(a.message) case Id(id) => Some(Key(BRIDGE, id)) case _ => None)
    case Rabbit(consumer, _) => (match ConsumerIdOf(a.message) case Some(id) => Some(Key(consumer, id)) case None => None)
  }

  /** The attempt's transaction holds an uncommitted claim. */
  predicate Owner(a: Attempt) {
    a.phase.Claimed? || a.phase.Worked?
  }

  predicate Live(a: Attempt) {
    !a.phase.Ended?
  }

  ghost predicate Held(attempts: seq<Attempt>, key: Key) {
    exists j :: 0 <= j < |attempts| && Owner(attempts[j]) && KeyOf(attempts[j]) == Some(key)
  }

  function Put(s: State, i: nat, a: Attempt): State
    requires i < |s.attempts|
  {
    s.(attempts := s.attempts[i := a])
  }

  /**
    INSERT .. ON CONFLICT DO NOTHING. A committed claim gives row count 0. A claim another transaction has
    inserted but not committed makes the statement wait, which here is a step that does nothing.
  */
  ghost function DoClaim(s: State, i: nat): State
    requires i < |s.attempts|
  {
    var a := s.attempts[i];
    match KeyOf(a)
    case None =>
      Put(s, i, a.(phase := if a.source.Kafka? && BridgeIdOf(a.message).NoId? then Idle else Failing))
    case Some(key) =>
      if key in s.claims then Put(s, i, a.(phase := Idle))
      else if Held(s.attempts, key) then s
      else Put(s, i, a.(phase := Claimed))
  }

  /** The bridge publishes, outside the transaction; a consumer writes its business effect, inside it. */
  function DoWork(s: State, i: nat, fate: Fate): State
    requires i < |s.attempts|
  {
    var a := s.attempts[i];
    match a.source
    case Rabbit(_, _) => Put(s, i, a.(phase := if fate.Ok? then Worked else Failing))
    case Kafka(p, o) =>
      if fate.Fails? || BuildRoutingKey(s.template, a.message).None? || KeyOf(a).None?
      then Put(s, i, a.(phase := Failing))
      else
        Put(s, i, a.(phase := if fate.Ok? then Worked else Failing, published := true))
          .(rabbit := s.rabbit + [Entry(p, o, KeyOf(a).value.id, a.message, i)],
            history := s.history + [Published(i)])
  }

  function DoCommit(s: State, i: nat, fate: Fate): State
    requires i < |s.attempts|
  {
    var a := s.attempts[i];
    var a' := a.(phase := if fate.Ok? then Settled else Failing);
    if fate.Fails? || a.phase.Idle? || KeyOf(a).None? then Put(s, i, a')
    else
      var key := KeyOf(a).value;
      Put(s, i, a'.(committed := true))
        .(claims := s.claims + {key},
          effects := s.effects + if a.source.Rabbit? then [Effect(key, a.message, i)] else [],
          history := s.history + [Committed(i)])
  }

  function Max(x: nat, y: nat): nat {
    if x < y then y else x
  }

  function DoAck(s: State, i: nat, fate: Fate): State
    requires i < |s.attempts| && s.attempts[i].source.Kafka?
  {
    var a := s.attempts[i];
    var p := a.source.partition;
    var s' := Put(s, i, a.(phase := if fate.Ok? then Ended(Acked) else Failing))
                .(history := if fate.Fails? then s.history else s.history + [WasAcked(i)]);
    if fate.Fails? || |s.offsets| <= p then s'
    else s'.(offsets := s.offsets[p := Max(s.offsets[p], a.source.offset + 1)])
  }

  function DoNack(s: State, i: nat, fate: Fate): State
    requires i < |s.attempts| && s.attempts[i].source.Kafka?
  {
    var a := s.attempts[i];
    var p := a.source.partition;
    if fate.Fails? then Put(s, i, a.(phase := Ended(Lost))).(stale := s.stale + {p})
    else if |s.positions| <= p then Put(s, i, a.(phase := Ended(Nacked)))
    else Put(s, i, a.(phase := Ended(Nacked))).(positions := s.positions[p := a.source.offset])
  }

  function DoDie(s: State, i: nat): State
    requires i < |s.attempts|
  {
    var a := s.attempts[i];
    Put(s, i, a.(phase := Ended(Lost)))
      .(stale := if a.source.Kafka? then s.stale + {a.source.partition} else s.stale)
  }

  /** `process_kafka_message` and `consume_event` with its caller, one await at a time. */
  ghost function Advance(s: State, i: nat, move: Move): State
    requires i < |s.attempts| && Live(s.attempts[i])
  {
    var a := s.attempts[i];
    match move
    case Claim => if a.phase.Begun? then DoClaim(s, i) else s
    case Break => if a.phase.Begun? then Put(s, i, a.(phase := Failing)) else s
    case Work(fate) => if a.phase.Claimed? then DoWork(s, i, fate) else s
    case Commit(fate) => if a.phase.Worked? || a.phase.Idle? then DoCommit(s, i, fate) else s
    case Ack(fate) => if a.phase.Settled? && a.source.Kafka? then DoAck(s, i, fate) else s
    case Nack(fate) => if a.phase.Failing? && a.source.Kafka? then DoNack(s, i, fate) else s
    case Die => DoDie(s, i)
  }

  function Start(source: Source, message: Message): Attempt {
    Attempt(source, message, Begun, false, false)
  }

  ghost function Apply(s: State, step: Step): State {
    match step
    case OpenSession => s.(sessions := s.sessions + [Open(map[], false)])
    case AddRow(k, id, payload) =>
      if k < |s.sessions| && s.sessions[k].Open?
      then
        var session := s.sessions[k];
        s.(sessions := s.sessions[k := Open(session.pending[id := payload], session.clash || id in session.pending)])
      else s
    case CloseSession(k, commit) =>
      if k < |s.sessions| && s.sessions[k].Open? then
        var session := s.sessions[k];
        s.(sessions := s.sessions[k := Closed],
           rows := if commit && !session.clash && session.pending.Keys !! s.rows.Keys then s.rows + session.pending
                   else s.rows)
      else s
    case AddRowAlone(id, payload) => if id in s.rows then s else s.(rows := s.rows[id := payload])
    case Capture(id, p) =>
      if id in s.rows && p < |s.logs| then s.(logs := s.logs[p := s.logs[p] + [s.rows[id]]]) else s
    case Deliver(p, o) =>
      if p < |s.logs| && p < |s.positions| && o < |s.logs[p]| then
        s.(positions := s.positions[p := o + 1], attempts := s.attempts + [Start(Kafka(p, o), s.logs[p][o])])
      else s
    case Refuse(p) =>
      if p < |s.logs| && p < |s.positions| && s.positions[p] < |s.logs[p]|
      then s.(positions := s.positions[p := s.positions[p] + 1], stale := s.stale + {p}) else s
    case Restart(p) =>
      if p < |s.positions| && p < |s.offsets|
      then s.(positions := s.positions[p := s.offsets[p]], stale := s.stale - {p}) else s
    case Consume(c, k) =>
      if c in s.consumers && k < |s.rabbit|
      then s.(attempts := s.attempts + [Start(Rabbit(c, k), s.rabbit[k].message)]) else s
    case On(i, move) => if i < |s.attempts| && Live(s.attempts[i]) then Advance(s, i, move) else s
  }

  ghost function Run(s: State, steps: seq<Step>): State
    decreases |steps|
  {
    if steps == [] then s else Run(Apply(s, steps[0]), steps[1..])
  }

  lemma {:induction false} RunConcat(s: State, xs: seq<Step>, ys: seq<Step>)
    ensures Run(s, xs + ys) == Run(Run(s, xs), ys)
    decreases |xs|
  {
    if xs == [] {
      assert xs + ys == ys;
    } else {
      assert (xs + ys)[1..] == xs[1..] + ys;
      RunConcat(Apply(s, xs[0]), xs[1..], ys);
    }
  }

  lemma RunOneMore(s: State, steps: seq<Step>, step: Step)
    ensures Run(s, steps + [step]) == Apply(Run(s, steps), step)
  {
    RunConcat(s, steps, [step]);
    assert [step][1..] == [];
    assert Run(Apply(Run(s, steps), step), []) == Apply(Run(s, steps), step);
  }
}
