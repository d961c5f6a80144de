/**
  How rows come into the outbox, in terms of the steps of a run alone: an event is in the table exactly if it
  was added by itself, or by a business transaction that committed.
*/
module OutboxSessions {
  import opened Messages
  import opened Routing
  import opened Pipeline

  /** How many sessions have been opened; they are numbered in that order. */
  function Opened(steps: seq<Step>): nat {
    if steps == [] then 0
    else Opened(steps[..|steps| - 1]) + if steps[|steps| - 1].OpenSession? then 1 else 0
  }

  /** Step b ends session k, which had been opened. */
  predicate Ends(steps: seq<Step>, b: int, k: nat) {
    0 <= b < |steps| && steps[b].CloseSession? && steps[b].session == k && k < Opened(steps[..b])
  }

  ghost predicate IsOpen(steps: seq<Step>, k: nat) {
    k < Opened(steps) && forall b :: 0 <= b < |steps| ==> !Ends(steps, b, k)
  }

  /** Step a adds an event with this identifier to session k while it is open. */
  ghost predicate Adds(steps: seq<Step>, a: int, k: nat, id: string) {
    0 <= a < |steps| && steps[a].AddRow? && steps[a].session == k && steps[a].id == id && IsOpen(steps[..a], k)
  }

  ghost predicate HasAdded(steps: seq<Step>, k: nat, id: string) {
    exists a :: Adds(steps, a, k, id)
  }

  /** Session k has added one identifier twice. */
  ghost predicate AddedTwice(steps: seq<Step>, k: nat) {
    exists a, b, id :: a < b && Adds(steps, a, k, id) && Adds(steps, b, k, id)
  }

  // ---------------------------------------------------------------------------------------------
  // Steps at the end of a run

  lemma EndsBefore(steps: seq<Step>, step: Step, b: int, k: nat)
    requires b < |steps|
    ensures Ends(steps + [step], b, k) <==> Ends(steps, b, k)
  {
    assert 0 <= b ==> (steps + [step])[..b] == steps[..b];
  }

  lemma IsOpenMore(steps: seq<Step>, step: Step, k: nat)
    ensures Opened(steps + [step]) == Opened(steps) + if step.OpenSession? then 1 else 0
    ensures IsOpen(steps + [step], k) <==>
              if step.OpenSession? && k == Opened(steps) then true
              else IsOpen(steps, k) && !(step.CloseSession? && step.session == k)
  {
    var more := steps + [step];
    assert more[..|steps|] == steps && more[..|more| - 1] == steps;
    forall b | 0 <= b < |steps|
      ensures Ends(more, b, k) <==> Ends(steps, b, k)
      ensures Ends(steps, b, k) ==> k < Opened(steps)
    {
      EndsBefore(steps, step, b, k);
      OpenedGrows(steps, b);
    }
    if k < Opened(steps) {
      assert Ends(more, |steps|, k) <==> step.CloseSession? && step.session == k;
      if b :| 0 <= b < |steps| && Ends(steps, b, k) {
        assert Ends(more, b, k);
      }
    }
  }

  lemma {:induction false} OpenedGrows(steps: seq<Step>, n: nat)
    requires n <= |steps|
    ensures Opened(steps[..n]) <= Opened(steps)
    decreases |steps|
  {
    if n < |steps| {
      OpenedGrows(steps[..|steps| - 1], n);
      assert steps[..|steps| - 1][..n] == steps[..n];
    } else {
      assert steps[..n] == steps;
    }
  }

  lemma AddsMore(steps: seq<Step>, step: Step, a: int, k: nat, id: string)
    ensures Adds(steps + [step], a, k, id) <==>
              if a == |steps| then step.AddRow? && step.session == k && step.id == id && IsOpen(steps, k)
              else Adds(steps, a, k, id)
  {
    var more := steps + [step];
    if 0 <= a <= |steps| {
      assert more[..a] == steps[..a];
      assert a == |steps| ==> more[..a] == steps;
    }
  }

  // ---------------------------------------------------------------------------------------------
  // What a session holds

  /** The session holds what was added to it. */
  ghost predicate Kept(steps: seq<Step>, k: nat, session: Session) {
    && (session.Open? <==> IsOpen(steps, k))
    && (session.Open? ==>
          && (forall id :: id in session.pending <==> HasAdded(steps, k, id))
          && (session.clash <==> AddedTwice(steps, k))
          && (!session.clash ==>
                forall a, id :: Adds(steps, a, k, id) ==> id in session.pending && session.pending[id] == steps[a].payload))
  }

  ghost predicate AllKept(steps: seq<Step>, sessions: seq<Session>) {
    |sessions| == Opened(steps) && forall k :: 0 <= k < |sessions| ==> Kept(steps, k, sessions[k])
  }

  function SessionsAfter(sessions: seq<Session>, step: Step): seq<Session> {
    match step
    case OpenSession => sessions + [Open(map[], false)]
    case AddRow(k, id, payload) =>
      if k < |sessions| && sessions[k].Open?
      then sessions[k := Open(sessions[k].pending[id := payload], sessions[k].clash || id in sessions[k].pending)]
      else sessions
    case CloseSession(k, _) => if k < |sessions| && sessions[k].Open? then sessions[k := Closed] else sessions
    case _ => sessions
  }

  lemma MoveKeepsTables(s: State, i: nat, move: Move)
    requires i < |s.attempts| && Live(s.attempts[i])
    ensures Advance(s, i, move).sessions == s.sessions && Advance(s, i, move).rows == s.rows
  {}

  lemma StepSessions(s: State, step: Step)
    ensures Apply(s, step).sessions == SessionsAfter(s.sessions, step)
  {
    if step.On? && step.attempt < |s.attempts| && Live(s.attempts[step.attempt]) {
      MoveKeepsTables(s, step.attempt, step.move);
    }
  }

  /** A step that adds nothing to session k leaves what has been added to it. */
  lemma OtherAdds(steps: seq<Step>, step: Step, k: nat)
    requires !(step.AddRow? && step.session == k && IsOpen(steps, k))
    ensures forall a, id :: Adds(steps + [step], a, k, id) <==> Adds(steps, a, k, id)
    ensures forall a, id :: Adds(steps, a, k, id) ==> (steps + [step])[a] == steps[a]
  {
    forall a, id
      ensures Adds(steps + [step], a, k, id) <==> Adds(steps, a, k, id)
    {
      AddsMore(steps, step, a, k, id);
    }
  }

  lemma OtherKept(steps: seq<Step>, step: Step, k: nat, session: Session)
    requires Kept(steps, k, session) && k < Opened(steps)
    requires !(step.AddRow? && step.session == k && IsOpen(steps, k))
    requires !(step.CloseSession? && step.session == k)
    ensures Kept(steps + [step], k, session)
  {
    IsOpenMore(steps, step, k);
    OtherAdds(steps, step, k);
    if session.Open? {
      forall id
        ensures HasAdded(steps + [step], k, id) <==> HasAdded(steps, k, id)
      {
        if a :| Adds(steps, a, k, id) {
          assert Adds(steps + [step], a, k, id);
        }
      }
      if AddedTwice(steps, k) {
        var a, b, id :| a < b && Adds(steps, a, k, id) && Adds(steps, b, k, id);
        assert Adds(steps + [step], a, k, id) && Adds(steps + [step], b, k, id);
      }
    }
  }

  lemma FreshKept(steps: seq<Step>)
    ensures Kept(steps + [OpenSession], Opened(steps), Open(map[], false))
  {
    var k := Opened(steps);
    IsOpenMore(steps, OpenSession, k);
    forall a, id
      ensures !Adds(steps + [OpenSession], a, k, id)
    {
      AddsMore(steps, OpenSession, a, k, id);
      if 0 <= a < |steps| {
        OpenedGrows(steps, a);
      }
    }
  }

  lemma AddKept(steps: seq<Step>, k: nat, id: string, payload: Message, session: Session)
    requires Kept(steps, k, session) && session.Open?
    ensures Kept(steps + [AddRow(k, id, payload)], k,
                 Open(session.pending[id := payload], session.clash || id in session.pending))
  {
    var step := AddRow(k, id, payload);
    var more, n := steps + [step], |steps|;
    IsOpenMore(steps, step, k);
    forall a, x
      ensures Adds(more, a, k, x) <==> Adds(steps, a, k, x) || (a == n && x == id)
    {
      AddsMore(steps, step, a, k, x);
    }
    forall x
      ensures HasAdded(more, k, x) <==> HasAdded(steps, k, x) || x == id
    {
      assert Adds(more, n, k, id);
      if a :| Adds(steps, a, k, x) {
        assert Adds(more, a, k, x);
      }
    }
    TwiceMore(steps, more, k, id);
  }

  lemma TwiceMore(steps: seq<Step>, more: seq<Step>, k: nat, id: string)
    requires forall a, x :: Adds(more, a, k, x) <==> Adds(steps, a, k, x) || (a == |steps| && x == id)
    ensures AddedTwice(more, k) <==> AddedTwice(steps, k) || HasAdded(steps, k, id)
  {
    if AddedTwice(steps, k) {
      var a, b, x :| a < b && Adds(steps, a, k, x) && Adds(steps, b, k, x);
      assert Adds(more, a, k, x) && Adds(more, b, k, x);
    }
    if HasAdded(steps, k, id) {
      var a :| Adds(steps, a, k, id);
      assert Adds(more, a, k, id) && Adds(more, |steps|, k, id);
    }
    if AddedTwice(more, k) {
      var a, b, x :| a < b && Adds(more, a, k, x) && Adds(more, b, k, x);
      assert Adds(steps, a, k, x);
      assert b < |steps| ==> Adds(steps, b, k, x);
    }
  }

  lemma StepKeepsKept(steps: seq<Step>, step: Step, sessions: seq<Session>)
    requires AllKept(steps, sessions)
    ensures AllKept(steps + [step], SessionsAfter(sessions, step))
  {
    var after := SessionsAfter(sessions, step);
    IsOpenMore(steps, step, 0);
    forall k | 0 <= k < |after|
      ensures Kept(steps + [step], k, after[k])
    {
      IsOpenMore(steps, step, k);
      if k == |sessions| {
        FreshKept(steps);
      } else {
        assert Kept(steps, k, sessions[k]);
        if step.AddRow? && step.session == k && sessions[k].Open? {
          AddKept(steps, k, step.id, step.payload, sessions[k]);
        } else if !(step.CloseSession? && step.session == k) {
          OtherKept(steps, step, k, sessions[k]);
        }
      }
    }
  }

  lemma {:induction false} SessionsKept(
      template: Template, consumers: set<string>, partitions: nat, steps: seq<Step>)
    ensures AllKept(steps, Run(Init(template, consumers, partitions), steps).sessions)
    decreases |steps|
  {
    if steps != [] {
      var n := |steps| - 1;
      var init := Init(template, consumers, partitions);
      SessionsKept(template, consumers, partitions, steps[..n]);
      assert steps == steps[..n] + [steps[n]];
      RunOneMore(init, steps[..n], steps[n]);
      StepSessions(Run(init, steps[..n]), steps[n]);
      StepKeepsKept(steps[..n], steps[n], Run(init, steps[..n]).sessions);
    }
  }

  // ---------------------------------------------------------------------------------------------
  // What the table holds

  /** Step c puts this row into the table: by itself, or as the commit of a session that has added it. */
  ghost predicate StoredBy(steps: seq<Step>, c: int, id: string, payload: Message) {
    && 0 <= c < |steps|
    && (|| steps[c] == AddRowAlone(id, payload)
        || (&& steps[c].CloseSession? && steps[c].commit && IsOpen(steps[..c], steps[c].session)
            && exists a :: Adds(steps[..c], a, steps[c].session, id) && steps[a].payload == payload))
  }

  ghost predicate Stored(steps: seq<Step>, id: string, payload: Message) {
    exists c :: StoredBy(steps, c, id, payload)
  }

  /** A commit of session k goes through: no identifier was added twice or is in the table already. */
  ghost predicate Committable(steps: seq<Step>, k: nat, rows: map<string, Message>) {
    IsOpen(steps, k) && !AddedTwice(steps, k) && forall id :: HasAdded(steps, k, id) ==> id !in rows
  }

  /**
    Exactly what the end of a session does to the table: a commit that goes through turns all of the session's
    events into rows, with their payloads, and leaves all other rows; a commit that does not, and a rollback,
    change nothing.
  */
  lemma SessionEndsExactly(
      template: Template, consumers: set<string>, partitions: nat, steps: seq<Step>, k: nat, commit: bool, id: string)
    ensures var init := Init(template, consumers, partitions);
            var rows, rows' := Run(init, steps).rows, Run(init, steps + [CloseSession(k, commit)]).rows;
            if commit && Committable(steps, k, rows) then
              && (id in rows' <==> id in rows || HasAdded(steps, k, id))
              && (id in rows ==> rows'[id] == rows[id])
              && forall a :: Adds(steps, a, k, id) ==> rows'[id] == steps[a].payload
            else rows' == rows
  {
    var s := Run(Init(template, consumers, partitions), steps);
    SessionsKept(template, consumers, partitions, steps);
    RunOneMore(Init(template, consumers, partitions), steps, CloseSession(k, commit));
    if k < |s.sessions| {
      assert Kept(steps, k, s.sessions[k]);
      if s.sessions[k].Open? {
        var pending := s.sessions[k].pending;
        assert pending.Keys !! s.rows.Keys <==> forall x :: x in pending ==> x !in s.rows;
      }
    }
  }

  /** An event added by itself is stored unless its identifier is taken. */
  lemma AloneIsStored(
      template: Template, consumers: set<string>, partitions: nat, steps: seq<Step>, id: string, payload: Message)
    ensures var init := Init(template, consumers, partitions);
            var rows := Run(init, steps).rows;
            Run(init, steps + [AddRowAlone(id, payload)]).rows == if id in rows then rows else rows[id := payload]
  {
    RunOneMore(Init(template, consumers, partitions), steps, AddRowAlone(id, payload));
  }

  /** No other step touches the table. */
  lemma OthersKeepRows(s: State, step: Step)
    requires !step.CloseSession? && !step.AddRowAlone?
    ensures Apply(s, step).rows == s.rows
  {
    if step.On? && step.attempt < |s.attempts| && Live(s.attempts[step.attempt]) {
      MoveKeepsTables(s, step.attempt, step.move);
    }
  }

  lemma StoredStays(steps: seq<Step>, step: Step, id: string, payload: Message)
    requires Stored(steps, id, payload)
    ensures Stored(steps + [step], id, payload)
  {
    var c :| StoredBy(steps, c, id, payload);
    assert (steps + [step])[..c] == steps[..c];
    assert StoredBy(steps + [step], c, id, payload);
  }

  /** In every run each row was stored, with its payload, by a step of its own or by a session that committed. */
  lemma {:induction false} RowsAreStored(
      template: Template, consumers: set<string>, partitions: nat, steps: seq<Step>, id: string)
    requires id in Run(Init(template, consumers, partitions), steps).rows
    ensures Stored(steps, id, Run(Init(template, consumers, partitions), steps).rows[id])
    decreases |steps|
  {
    var init := Init(template, consumers, partitions);
    var n := |steps| - 1;
    var most, step := steps[..n], steps[n];
    assert steps == most + [step];
    RunOneMore(init, most, step);
    var rows, payload := Run(init, most).rows, Run(init, steps).rows[id];
    if id in rows {
      RowStays(Run(init, most), step, id);
      RowsAreStored(template, consumers, partitions, most, id);
      StoredStays(most, step, id, payload);
    } else {
      NewRowIsStored(template, consumers, partitions, most, step, id);
    }
  }

  lemma RowStays(s: State, step: Step, id: string)
    requires id in s.rows
    ensures id in Apply(s, step).rows && Apply(s, step).rows[id] == s.rows[id]
  {
    if !step.CloseSession? && !step.AddRowAlone? {
      OthersKeepRows(s, step);
    }
  }

  lemma NewRowIsStored(
      template: Template, consumers: set<string>, partitions: nat, most: seq<Step>, step: Step, id: string)
    requires var init := Init(template, consumers, partitions);
             id in Run(init, most + [step]).rows && id !in Run(init, most).rows
    ensures Stored(most + [step], id, Run(Init(template, consumers, partitions), most + [step]).rows[id])
  {
    var init := Init(template, consumers, partitions);
    var steps := most + [step];
    var payload := Run(init, steps).rows[id];
    assert steps[..|most|] == most;
    RunOneMore(init, most, step);
    if step.AddRowAlone? {
      AloneIsStored(template, consumers, partitions, most, step.id, step.payload);
      assert StoredBy(steps, |most|, id, payload);
    } else if step.CloseSession? {
      SessionEndsExactly(template, consumers, partitions, most, step.session, step.commit, id);
      var a :| Adds(most, a, step.session, id);
      assert steps[a] == most[a];
      assert StoredBy(steps, |most|, id, payload);
    } else {
      OthersKeepRows(Run(init, most), step);
    }
  }
}
