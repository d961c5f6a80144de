/**
  The handlers as the code writes them: statements that change the database, RabbitMQ and Kafka's offsets
  in order, with exceptions as results. Each is shown to be a run of the pipeline machine, whose state the
  ghost field `machine` follows; other tasks' attempts in flight are part of that state.
*/
module Handlers {
  import opened Wrappers
  import opened Messages
  import opened Routing
  import opened Pipeline

  datatype Error = InvalidIdentifier | DatabaseError | NoRoutingKey | BrokerError | CommitError | AckError | HandlerError

  /** How `process_kafka_message` ends for the breaker around it: normally after ack or nack, or by an exception. */
  datatype Reply = ReplyAcked | ReplyNacked | ReplyRaised

  /** What goes wrong during one delivery. */
  datatype Faults = Faults(insertFails: bool, publish: Fate, commit: Fate, ack: Fate, nack: Fate)

  /** The claim statement inserts a row. */
  predicate Inserts(claims: set<Key>, message: Message, faults: Faults) {
    BridgeIdOf(message).Id? && !faults.insertFails && Key(BRIDGE, BridgeIdOf(message).id) !in claims
  }

  /** The event reaches RabbitMQ, whether or not the bridge learns of it. */
  predicate Publishes(template: Template, claims: set<Key>, message: Message, faults: Faults) {
    Inserts(claims, message, faults) && BuildRoutingKey(template, message).Some? && !faults.publish.Fails?
  }

  /** `handle_message` returns: nothing to forward, already forwarded, or forwarded now. */
  predicate Handles(template: Template, claims: set<Key>, message: Message, faults: Faults) {
    match BridgeIdOf(message)
    case NoId => true
    case BadId => false
    case Id(id) =>
      !faults.insertFails
      && (Key(BRIDGE, id) in claims || (BuildRoutingKey(template, message).Some? && faults.publish.Ok?))
  }

  /** The bridge acks exactly when handling, commit and ack all report success; an exception escapes only from nack. */
  function ReplyTo(template: Template, claims: set<Key>, message: Message, faults: Faults): Reply {
    if Handles(template, claims, message, faults) && faults.commit.Ok? && faults.ack.Ok? then ReplyAcked
    else if faults.nack.Ok? then ReplyNacked
    else ReplyRaised
  }

  /** What `handle_message` raises, in the order in which things can go wrong. */
  function RaisedBy(template: Template, message: Message, faults: Faults): Error {
    if !BridgeIdOf(message).Id? then InvalidIdentifier
    else if faults.insertFails then DatabaseError
    else if BuildRoutingKey(template, message).None? then NoRoutingKey
    else BrokerError
  }

  /** The reply that the last step of a delivery gives. */
  function ReplyOf(move: Move): Reply {
    match move
    case Ack(_) => ReplyAcked
    case Nack(Ok) => ReplyNacked
    case _ => ReplyRaised
  }

  /** A delivery that succeeds ends with an ack. */
  function Closing(i: nat, done: bool): seq<Step> {
    if done then [On(i, Ack(Ok))] else []
  }

  function ClaimsAfter(template: Template, claims: set<Key>, message: Message, faults: Faults): set<Key> {
    if Inserts(claims, message, faults) && Handles(template, claims, message, faults) && !faults.commit.Fails?
    then claims + {Key(BRIDGE, BridgeIdOf(message).id)} else claims
  }

  function OffsetsAfter(
      template: Template, claims: set<Key>, offsets: seq<nat>, p: nat, o: nat, message: Message, faults: Faults): seq<nat>
    requires p < |offsets|
  {
    if Handles(template, claims, message, faults) && faults.commit.Ok? && !faults.ack.Fails?
    then offsets[p := Max(offsets[p], o + 1)] else offsets
  }

  function EndingOf(reply: Reply, nack: Fate): Ending {
    if reply.ReplyAcked? then Acked else if nack.Fails? then Lost else Nacked
  }

  class Runtime {
    const template: Template
    var claims: set<Key>
    var rabbit: seq<Entry>
    var effects: seq<Effect>
    var positions: seq<nat>
    var offsets: seq<nat>
    /** The row that the current session has inserted and not committed. */
    var inserted: Option<Key>

    /** The business effect that the current session has written and not committed. */
    var written: Option<Effect>

    ghost var machine: State

    constructor (template: Template, ghost consumers: set<string>, partitions: nat)
      ensures Valid() && inserted.None? && written.None?
      ensures machine == Init(template, consumers, partitions)
    {
      this.template := template;
      claims, rabbit, effects := {}, [], [];
      positions, offsets := seq(partitions, _ => 0), seq(partitions, _ => 0);
      inserted, written := None, None;
      machine := Init(template, consumers, partitions);
    }

    ghost predicate Valid()
      reads this
    {
      && machine.template == template && machine.claims == claims && machine.rabbit == rabbit
      && machine.effects == effects && machine.positions == positions && machine.offsets == offsets
      && |positions| == |offsets| == |machine.logs|
    }

    /** The attempt is in this phase, with its source, message and flags as given. */
    ghost predicate At(i: nat, a: Attempt)
      reads this
    {
      i < |machine.attempts| && machine.attempts[i] == a
    }

    /** Everything but the given attempt, and the tables the handlers write, is as it was. */
    twostate predicate OthersKept(i: nat)
      reads this
    {
      && machine.logs == old(machine.logs) && machine.rows == old(machine.rows)
      && |old(machine.attempts)| <= |machine.attempts|
      && forall j :: 0 <= j < |old(machine.attempts)| && j != i ==> machine.attempts[j] == old(machine.attempts[j])
    }

    /**
      `SqlAlchemyProcessedMessageStore.claim`. The statement returns once no other transaction holds the
      key; `fails` is any database error but a duplicate.
    */
    method ClaimEvent(i: nat, key: Key, fails: bool) returns (r: Result<bool, Error>, ghost step: Step)
      requires Valid() && i < |machine.attempts| && machine.attempts[i].phase.Begun?
      requires KeyOf(machine.attempts[i]) == Some(key) && inserted.None?
      requires !Held(machine.attempts, key)
      modifies this
      ensures Valid() && machine == Apply(old(machine), step) && OthersKept(i)
      ensures claims == old(claims) && rabbit == old(rabbit) && effects == old(effects)
              && positions == old(positions) && offsets == old(offsets)
      ensures r == if fails then Failure(DatabaseError) else Success(key !in claims)
      ensures inserted == (if r == Success(true) then Some(key) else None) && written == old(written)
      ensures At(i, old(machine.attempts[i]).(phase :=
                if r.Failure? then Failing else if r.value then Claimed else Idle))
    {
      if fails {
        step := On(i, Break);
        machine := Apply(machine, step);
        return Failure(DatabaseError), step;
      }
      step := On(i, Claim);
      machine := Apply(machine, step);
      if key in claims {
        return Success(false), step;
      }
      inserted := Some(key);
      return Success(true), step;
    }

    /** `publish_to_exchange`: outside the transaction, so nothing undoes it. */
    method PublishToExchange(i: nat, p: nat, o: nat, id: string, message: Message, fate: Fate)
      returns (r: Result<(), Error>, ghost step: Step)
      requires Valid() && At(i, Start(Kafka(p, o), message).(phase := Claimed))
      requires BridgeIdOf(message) == Id(id) && BuildRoutingKey(template, message).Some?
      modifies this
      ensures Valid() && machine == Apply(old(machine), step) && OthersKept(i)
      ensures claims == old(claims) && effects == old(effects) && positions == old(positions)
              && offsets == old(offsets) && inserted == old(inserted)
      ensures rabbit == old(rabbit) + if fate.Fails? then [] else [Entry(p, o, id, message, i)]
      ensures r == if fate.Ok? then Success(()) else Failure(BrokerError)
      ensures At(i, Start(Kafka(p, o), message).(phase := if fate.Ok? then Worked else Failing, published := !fate.Fails?))
    {
      step := On(i, Work(fate));
      machine := Apply(machine, step);
      if fate != Fails {
        rabbit := rabbit + [Entry(p, o, id, message, i)];
      }
      return if fate == Ok then Success(()) else Failure(BrokerError), step;
    }

    /** Without a usable identifier there is nothing to claim: the bridge skips the message, or `strip` or `claim` raises. */
    ghost method LeaveUnclaimed(i: nat) returns (step: Step)
      requires Valid() && i < |machine.attempts| && machine.attempts[i].phase.Begun?
      requires machine.attempts[i].source.Kafka? && !BridgeIdOf(machine.attempts[i].message).Id?
      modifies this`machine
      ensures Valid() && machine == Apply(old(machine), step) && OthersKept(i)
      ensures At(i, old(machine.attempts[i]).(
                phase := if BridgeIdOf(old(machine.attempts[i]).message).NoId? then Idle else Failing))
    {
      step := On(i, Claim);
      machine := Apply(machine, step);
    }

    /** `build_routing_key` raises KeyError, and the publish is never tried. */
    ghost method LeaveUnrouted(i: nat) returns (step: Step)
      requires Valid() && i < |machine.attempts| && machine.attempts[i].phase.Claimed?
      requires machine.attempts[i].source.Kafka?
      modifies this`machine
      ensures Valid() && machine == Apply(old(machine), step) && OthersKept(i)
      ensures At(i, old(machine.attempts[i]).(phase := Failing))
    {
      step := On(i, Work(Fails));
      machine := Apply(machine, step);
    }

    /** `BridgeConsumer.handle_message` */
    method HandleMessage(i: nat, p: nat, o: nat, message: Message, faults: Faults)
      returns (r: Result<(), Error>, ghost steps: seq<Step>)
      requires Valid() && inserted.None? && At(i, Start(Kafka(p, o), message))
      requires forall id :: BridgeIdOf(message) == Id(id) ==> !Held(machine.attempts, Key(BRIDGE, id))
      modifies this
      ensures Valid() && machine == Run(old(machine), steps) && OthersKept(i)
      ensures claims == old(claims) && effects == old(effects) && positions == old(positions) && offsets == old(offsets)
      ensures r.Success? <==> Handles(template, claims, message, faults)
      ensures r.Failure? ==> r.error == RaisedBy(template, message, faults)
      ensures inserted == if Inserts(claims, message, faults) then Some(Key(BRIDGE, BridgeIdOf(message).id)) else None
      ensures rabbit == old(rabbit) +
                if Publishes(template, claims, message, faults) then [Entry(p, o, BridgeIdOf(message).id, message, i)] else []
      ensures At(i, Start(Kafka(p, o), message).(
                phase := if r.Failure? then Failing else if inserted.Some? then Worked else Idle,
                published := Publishes(template, claims, message, faults)))
    {
      ghost var before := machine;
      ghost var step;
      var eventId := Or(Get(message, "event_id"), Get(message, "eventId"));
      if !Truthy(eventId) {
        step := LeaveUnclaimed(i);
        OneStep(before, step);
        return Success(()), [step];
      }
      if !eventId.Str? || Strip(eventId.text) == "" {
        step := LeaveUnclaimed(i);
        OneStep(before, step);
        return Failure(InvalidIdentifier), [step];
      }
      var isNew;
      isNew, step := ClaimEvent(i, Key(BRIDGE, eventId.text), faults.insertFails);
      OneStep(before, step);
      if isNew.Failure? {
        return Failure(isNew.error), [step];
      }
      if !isNew.value {
        return Success(()), [step];
      }
      ghost var work;
      if BuildRoutingKey(template, message).None? {
        work := LeaveUnrouted(i);
        RunOneMore(before, [step], work);
        return Failure(NoRoutingKey), [step] + [work];
      }
      r, work := PublishToExchange(i, p, o, eventId.text, message, faults.publish);
      RunOneMore(before, [step], work);
      steps := [step] + [work];
    }

    /** Leaving `session.begin()`: the claim becomes durable, unless the commit fails. */
    method CommitTransaction(i: nat, fate: Fate) returns (ghost step: Step)
      requires Valid() && i < |machine.attempts| && machine.attempts[i].source.Kafka?
      requires machine.attempts[i].phase == if inserted.Some? then Worked else Idle
      requires inserted.Some? ==> KeyOf(machine.attempts[i]) == inserted
      modifies this
      ensures Valid() && machine == Apply(old(machine), step) && OthersKept(i)
      ensures claims == old(claims) + (if old(inserted).Some? && !fate.Fails? then {old(inserted).value} else {})
      ensures inserted.None? && rabbit == old(rabbit) && effects == old(effects)
              && positions == old(positions) && offsets == old(offsets)
      ensures At(i, old(machine.attempts[i]).(phase := if fate.Ok? then Settled else Failing,
                committed := old(machine.attempts[i]).committed || (old(inserted).Some? && !fate.Fails?)))
    {
      step := On(i, Commit(fate));
      machine := Apply(machine, step);
      if fate != Fails && inserted.Some? {
        claims := claims + {inserted.value};
      }
      inserted := None;
    }

    /** `msg.ack()`: commits the offset behind the message. */
    method AckMessage(i: nat, p: nat, o: nat, fate: Fate) returns (ghost step: Step)
      requires Valid() && i < |machine.attempts| && machine.attempts[i].source == Kafka(p, o) && p < |offsets|
      requires machine.attempts[i].phase.Settled?
      modifies this
      ensures Valid() && machine == Apply(old(machine), step) && OthersKept(i)
      ensures step == On(i, Ack(fate))
      ensures offsets == if fate.Fails? then old(offsets) else old(offsets)[p := Max(old(offsets)[p], o + 1)]
      ensures claims == old(claims) && rabbit == old(rabbit) && effects == old(effects)
              && positions == old(positions) && inserted == old(inserted)
      ensures At(i, old(machine.attempts[i]).(phase := if fate.Ok? then Ended(Acked) else Failing))
    {
      step := On(i, Ack(fate));
      machine := Apply(machine, step);
      if fate != Fails {
        offsets := offsets[p := Max(offsets[p], o + 1)];
      }
    }

    /** `msg.nack()`: moves the position back to the message. */
    method NackMessage(i: nat, p: nat, o: nat, fate: Fate) returns (ghost step: Step)
      requires Valid() && i < |machine.attempts| && machine.attempts[i].source == Kafka(p, o) && p < |positions|
      requires machine.attempts[i].phase.Failing?
      modifies this
      ensures Valid() && machine == Apply(old(machine), step) && OthersKept(i)
      ensures step == On(i, Nack(fate))
      ensures positions == if fate.Fails? then old(positions) else old(positions)[p := o]
      ensures claims == old(claims) && rabbit == old(rabbit) && effects == old(effects)
              && offsets == old(offsets) && inserted == old(inserted)
      ensures At(i, old(machine.attempts[i]).(phase := Ended(if fate.Fails? then Lost else Nacked)))
    {
      step := On(i, Nack(fate));
      machine := Apply(machine, step);
      if fate != Fails {
        positions := positions[p := o];
      }
    }

    /** Kafka hands over the message at offset o. */
    method Receive(i: nat, p: nat, o: nat, message: Message) returns (ghost step: Step)
      requires Valid() && i == |machine.attempts|
      requires p < |positions| && o < |machine.logs[p]| && machine.logs[p][o] == message
      modifies this
      ensures Valid() && step == Deliver(p, o) && machine == Apply(old(machine), step) && OthersKept(i)
      ensures At(i, Start(Kafka(p, o), message)) && positions == old(positions)[p := o + 1]
      ensures forall key :: Held(machine.attempts, key) ==> Held(old(machine.attempts), key)
      ensures claims == old(claims) && rabbit == old(rabbit) && effects == old(effects)
              && offsets == old(offsets) && inserted == old(inserted)
    {
      step := Deliver(p, o);
      machine := Apply(machine, step);
      positions := positions[p := o + 1];
    }

    /** After `handle_message` has returned: the end of the transaction, then the ack; an ack that succeeds comes last. */
    method CommitAndAck(i: nat, p: nat, o: nat, faults: Faults) returns (done: bool, ghost steps: seq<Step>)
      requires Valid() && i < |machine.attempts| && machine.attempts[i].source == Kafka(p, o) && p < |offsets|
      requires machine.attempts[i].phase == if inserted.Some? then Worked else Idle
      requires inserted.Some? ==> KeyOf(machine.attempts[i]) == inserted
      modifies this
      ensures Valid() && machine == Run(old(machine), steps + Closing(i, done)) && OthersKept(i) && inserted.None?
      ensures done <==> faults.commit.Ok? && faults.ack.Ok?
      ensures i < |machine.attempts| && machine.attempts[i].source == Kafka(p, o)
      ensures machine.attempts[i].phase == if done then Ended(Acked) else Failing
      ensures claims == old(claims) + (if old(inserted).Some? && !faults.commit.Fails? then {old(inserted).value} else {})
      ensures offsets == if faults.commit.Ok? && !faults.ack.Fails? then old(offsets)[p := Max(old(offsets)[p], o + 1)]
                         else old(offsets)
      ensures rabbit == old(rabbit) && effects == old(effects) && positions == old(positions)
    {
      ghost var before := machine;
      ghost var step := CommitTransaction(i, faults.commit);
      OneStep(before, step);
      steps := [step];
      done := false;
      if faults.commit == Ok {
        ghost var ack := AckMessage(i, p, o, faults.ack);
        RunOneMore(before, [step], ack);
        done := faults.ack == Ok;
        steps := if done then [step] else [step] + [ack];
      }
      assert !done ==> steps + [] == steps;
    }

    /** The `try` block of `process_kafka_message`; false stands for an exception. */
    method TryProcess(i: nat, p: nat, o: nat, message: Message, faults: Faults) returns (done: bool, ghost steps: seq<Step>)
      requires Valid() && inserted.None? && At(i, Start(Kafka(p, o), message)) && p < |offsets|
      requires forall id :: BridgeIdOf(message) == Id(id) ==> !Held(machine.attempts, Key(BRIDGE, id))
      modifies this
      ensures Valid() && machine == Run(old(machine), steps + Closing(i, done)) && OthersKept(i) && inserted.None?
      ensures done <==> Handles(template, old(claims), message, faults) && faults.commit.Ok? && faults.ack.Ok?
      ensures i < |machine.attempts| && machine.attempts[i].source == Kafka(p, o)
      ensures machine.attempts[i].phase == if done then Ended(Acked) else Failing
      ensures claims == ClaimsAfter(template, old(claims), message, faults)
      ensures offsets == OffsetsAfter(template, old(claims), old(offsets), p, o, message, faults)
      ensures rabbit == old(rabbit) +
                if Publishes(template, old(claims), message, faults) then [Entry(p, o, BridgeIdOf(message).id, message, i)]
                else []
      ensures effects == old(effects) && positions == old(positions)
    {
      ghost var before := machine;
      var handled;
      handled, steps := HandleMessage(i, p, o, message, faults);
      if handled.Failure? {
        inserted := None;
        assert steps + [] == steps;
        return false, steps;
      }
      ghost var more;
      done, more := CommitAndAck(i, p, o, faults);
      RunConcat(before, steps, more + Closing(i, done));
      assert steps + (more + Closing(i, done)) == steps + more + Closing(i, done);
      steps := steps + more;
    }

    /** `process_kafka_message`, from the delivery to the reply, which the last move gives. */
    method ProcessKafkaMessage(i: nat, p: nat, o: nat, message: Message, faults: Faults)
      returns (reply: Reply, ghost steps: seq<Step>, ghost last: Move)
      requires Valid() && i == |machine.attempts| && inserted.None?
      requires p < |positions| && o < |machine.logs[p]| && machine.logs[p][o] == message
      requires forall id :: BridgeIdOf(message) == Id(id) ==> !Held(machine.attempts, Key(BRIDGE, id))
      modifies this
      ensures Valid() && inserted.None? && OthersKept(i)
      ensures machine == Run(old(machine), [Deliver(p, o)] + steps + [On(i, last)])
      ensures last == if reply.ReplyAcked? then Ack(Ok) else Nack(faults.nack)
      ensures reply == ReplyOf(last) && reply == ReplyTo(template, old(claims), message, faults)
      ensures i < |machine.attempts| && machine.attempts[i].phase == Ended(EndingOf(reply, faults.nack))
      ensures rabbit == old(rabbit) +
                if Publishes(template, old(claims), message, faults) then [Entry(p, o, BridgeIdOf(message).id, message, i)]
                else []
      ensures claims == ClaimsAfter(template, old(claims), message, faults)
      ensures offsets == OffsetsAfter(template, old(claims), old(offsets), p, o, message, faults)
      ensures positions == old(positions)[p := if reply.ReplyAcked? || faults.nack.Fails? then o + 1 else o]
      ensures effects == old(effects)
    {
      ghost var before := machine;
      ghost var deliver := Receive(i, p, o, message);
      OneStep(before, deliver);
      var done;
      done, steps := TryProcess(i, p, o, message, faults);
      RunConcat(before, [deliver], steps + Closing(i, done));
      assert [deliver] + (steps + Closing(i, done)) == [deliver] + steps + Closing(i, done);
      if done {
        return ReplyAcked, steps, Ack(Ok);
      }
      assert [deliver] + steps + [] == [deliver] + steps;
      ghost var nack := NackMessage(i, p, o, faults.nack);
      RunOneMore(before, [deliver] + steps, nack);
      return if faults.nack == Ok then ReplyNacked else ReplyRaised, steps, Nack(faults.nack);
    }

    // -------------------------------------------------------------------------------------------
    // Consumers

    /** A consumer's message arrives from RabbitMQ. */
    method ReceiveEntry(i: nat, c: string, k: nat, message: Message) returns (ghost step: Step)
      requires Valid() && i == |machine.attempts| && c in machine.consumers && k < |rabbit| && rabbit[k].message == message
      modifies this`machine
      ensures Valid() && step == Consume(c, k) && machine == Apply(old(machine), step) && OthersKept(i)
      ensures At(i, Start(Rabbit(c, k), message))
      ensures forall key :: Held(machine.attempts, key) ==> Held(old(machine.attempts), key)
    {
      step := Consume(c, k);
      machine := Apply(machine, step);
    }

    /** `handle_event`: a write in the session that holds the claim. */
    method HandleEvent(i: nat, c: string, k: nat, id: string, message: Message, fails: bool)
      returns (r: Result<(), Error>, ghost step: Step)
      requires Valid() && At(i, Start(Rabbit(c, k), message).(phase := Claimed)) && written.None?
      modifies this`machine, this`written
      ensures Valid() && machine == Apply(old(machine), step) && OthersKept(i)
      ensures r == if fails then Failure(HandlerError) else Success(())
      ensures written == if fails then None else Some(Effect(Key(c, id), message, i))
      ensures At(i, Start(Rabbit(c, k), message).(phase := if fails then Failing else Worked))
    {
      step := On(i, Work(if fails then Fails else Ok));
      machine := Apply(machine, step);
      if fails {
        return Failure(HandlerError), step;
      }
      written := Some(Effect(Key(c, id), message, i));
      return Success(()), step;
    }

    ghost method LeaveUnread(i: nat) returns (step: Step)
      requires Valid() && i < |machine.attempts| && machine.attempts[i].phase.Begun?
      requires machine.attempts[i].source.Rabbit? && KeyOf(machine.attempts[i]).None?
      modifies this`machine
      ensures Valid() && machine == Apply(old(machine), step) && OthersKept(i)
      ensures At(i, old(machine.attempts[i]).(phase := Failing))
    {
      step := On(i, Claim);
      machine := Apply(machine, step);
    }

    /** `consume_event`: claim first, then the handler; false means a duplicate. */
    method ConsumeEvent(i: nat, c: string, k: nat, message: Message, insertFails: bool, handlerFails: bool)
      returns (r: Result<bool, Error>, ghost steps: seq<Step>)
      requires Valid() && inserted.None? && written.None? && At(i, Start(Rabbit(c, k), message))
      requires forall id :: ConsumerIdOf(message) == Some(id) ==> !Held(machine.attempts, Key(c, id))
      modifies this
      ensures Valid() && machine == Run(old(machine), steps) && OthersKept(i)
      ensures claims == old(claims) && rabbit == old(rabbit) && effects == old(effects)
              && positions == old(positions) && offsets == old(offsets)
      ensures r.Failure? <==>
                || ConsumerIdOf(message).None? || insertFails
                || (handlerFails && Key(c, ConsumerIdOf(message).value) !in claims)
      ensures r.Success? ==> (r.value <==> Key(c, ConsumerIdOf(message).value) !in claims)
      ensures r == Success(true) ==>
                && inserted == Some(Key(c, ConsumerIdOf(message).value))
                && written == Some(Effect(Key(c, ConsumerIdOf(message).value), message, i))
      ensures At(i, Start(Rabbit(c, k), message).(phase := if r.Failure? then Failing else if r.value then Worked else Idle))
    {
      ghost var before := machine;
      ghost var step;
      var id := ConsumerIdOf(message);
      if id.None? {
        step := LeaveUnread(i);
        OneStep(before, step);
        return Failure(InvalidIdentifier), [step];
      }
      var claimed;
      claimed, step := ClaimEvent(i, Key(c, id.value), insertFails);
      OneStep(before, step);
      if claimed.Failure? || !claimed.value {
        return claimed, [step];
      }
      var handled;
      ghost var work;
      handled, work := HandleEvent(i, c, k, id.value, message, handlerFails);
      RunOneMore(before, [step], work);
      return if handled.Failure? then Failure(handled.error) else Success(true), [step] + [work];
    }

    /** `session.commit()` of a consumer: claim and business effect become durable together, or neither does. */
    method CommitConsumer(i: nat, fate: Fate) returns (ghost step: Step)
      requires Valid() && i < |machine.attempts| && machine.attempts[i].phase.Worked?
      requires inserted.Some? && KeyOf(machine.attempts[i]) == inserted && machine.attempts[i].source.Rabbit?
      requires written == Some(Effect(inserted.value, machine.attempts[i].message, i))
      modifies this
      ensures Valid() && machine == Apply(old(machine), step) && OthersKept(i) && inserted.None? && written.None?
      ensures claims == old(claims) + (if fate.Fails? then {} else {old(inserted).value})
      ensures effects == old(effects) + if fate.Fails? then [] else [old(written).value]
      ensures rabbit == old(rabbit) && positions == old(positions) && offsets == old(offsets)
    {
      step := On(i, Commit(fate));
      machine := Apply(machine, step);
      if fate != Fails {
        claims := claims + {inserted.value};
        effects := effects + [written.value];
      }
      inserted, written := None, None;
    }

    /** `session.rollback()`, or leaving the session by an exception. */
    method Rollback(i: nat) returns (ghost step: Step)
      requires Valid() && i < |machine.attempts| && Live(machine.attempts[i]) && machine.attempts[i].source.Rabbit?
      modifies this`machine, this`inserted, this`written
      ensures Valid() && machine == Apply(old(machine), step) && OthersKept(i) && inserted.None? && written.None?
    {
      step := On(i, Die);
      machine := Apply(machine, step);
      inserted, written := None, None;
    }

    /** A delivery to a consumer whose caller commits and rolls back as `consume_event` documents. */
    method ConsumeDelivery(
        i: nat, c: string, k: nat, message: Message, insertFails: bool, handlerFails: bool, commit: Fate)
      returns (processed: bool, ghost steps: seq<Step>)
      requires Valid() && inserted.None? && written.None?
      requires i == |machine.attempts| && c in machine.consumers && k < |rabbit| && rabbit[k].message == message
      requires forall id :: ConsumerIdOf(message) == Some(id) ==> !Held(machine.attempts, Key(c, id))
      modifies this
      ensures Valid() && inserted.None? && written.None? && OthersKept(i)
      ensures machine == Run(old(machine), [Consume(c, k)] + steps)
      ensures processed <==>
                && ConsumerIdOf(message).Some? && !insertFails && !handlerFails
                && Key(c, ConsumerIdOf(message).value) !in old(claims)
      ensures claims == old(claims) +
                (if processed && !commit.Fails? then {Key(c, ConsumerIdOf(message).value)} else {})
      ensures effects == old(effects) +
                if processed && !commit.Fails? then [Effect(Key(c, ConsumerIdOf(message).value), message, i)] else []
      ensures rabbit == old(rabbit) && positions == old(positions) && offsets == old(offsets)
    {
      ghost var before := machine;
      ghost var receive := ReceiveEntry(i, c, k, message);
      OneStep(before, receive);
      var r;
      r, steps := ConsumeEvent(i, c, k, message, insertFails, handlerFails);
      RunConcat(before, [receive], steps);
      processed := r == Success(true);
      ghost var last;
      if processed {
        last := CommitConsumer(i, commit);
      } else {
        last := Rollback(i);
      }
      RunOneMore(before, [receive] + steps, last);
      assert [receive] + steps + [last] == [receive] + (steps + [last]);
      steps := steps + [last];
    }
  }

  lemma OneStep(s: State, step: Step)
    ensures Run(s, [step]) == Apply(s, step)
  {
    RunOneMore(s, [], step);
    assert [] + [step] == [step];
  }
}
