/** What the status columns of a row say: they are the row's history, in every interleaving of the operations. */
module OutboxHistory {
  import opened Wrappers
  import opened Outbox
  import opened OutboxRetries

  /** What has been done to a row. */
  datatype Mark = Inserted(at: real) | Sent(at: real) | Broken(at: real, message: string) | Renewed

  /** What a step does to the row with this identifier. */
  function MarkOf(s: Sys, step: Step, id: string): seq<Mark> {
    match step
    case Add(x, now) => if x == id && id !in s.rows then [Inserted(now)] else []
    case MarkPublished(x, now) => if x == id && id in s.rows then [Sent(now)] else []
    case MarkFailed(x, message, now) => if x == id && id in s.rows then [Broken(now, message)] else []
    case Store(_) => if Logged(s, step) != [] && IsReset(Logged(s, step)[0], id) then [Renewed] else []
    case _ => []
  }

  function History(s: Sys, steps: seq<Step>, id: string): seq<Mark>
    decreases |steps|
  {
    if steps == [] then [] else MarkOf(s, steps[0], id) + History(Apply(s, steps[0]), steps[1..], id)
  }

  /** The mark has not been taken back by a reset since. */
  predicate Stands(marks: seq<Mark>, c: int) {
    0 <= c < |marks| && forall d :: c < d < |marks| ==> !marks[d].Renewed?
  }

  predicate LastSent(marks: seq<Mark>, c: int) {
    0 <= c < |marks| && marks[c].Sent? && forall d :: c < d < |marks| ==> !marks[d].Sent?
  }

  predicate LastBroken(marks: seq<Mark>, c: int) {
    Stands(marks, c) && marks[c].Broken? && forall d :: c < d < |marks| ==> !marks[d].Broken?
  }

  /** The columns of a row, by its marks. */
  ghost predicate Tells(marks: seq<Mark>, row: Row) {
    && marks != [] && marks[0] == Inserted(row.createdAt)
    && (row.published <==> exists c :: Stands(marks, c) && marks[c].Sent?)
    && (row.failed <==> exists c :: Stands(marks, c) && marks[c].Broken?)
    && (row.publishedAt.None? <==> forall c :: 0 <= c < |marks| ==> !marks[c].Sent?)
    && (forall c :: LastSent(marks, c) ==> row.publishedAt == Some(marks[c].at))
    && (forall c :: LastBroken(marks, c) ==>
          row.failedAt == Some(marks[c].at) && row.errorMessage == Some(marks[c].message))
    && RowFits(row)
  }

  /** A row is in the table once it has been inserted, and its columns are as its marks tell. */
  ghost predicate Told(rows: Table, id: string, marks: seq<Mark>) {
    (id in rows <==> marks != []) && (id in rows ==> Tells(marks, rows[id]))
  }

  lemma MarksBefore(marks: seq<Mark>, mark: Mark)
    ensures forall c :: 0 <= c < |marks| ==> (marks + [mark])[c] == marks[c]
    ensures forall c :: 0 <= c < |marks| ==> (Stands(marks + [mark], c) <==> Stands(marks, c) && !mark.Renewed?)
    ensures Stands(marks + [mark], |marks|)
    ensures forall c :: 0 <= c < |marks| ==> (LastSent(marks + [mark], c) <==> LastSent(marks, c) && !mark.Sent?)
    ensures forall c :: 0 <= c < |marks| ==>
              (LastBroken(marks + [mark], c) <==> LastBroken(marks, c) && !mark.Broken? && !mark.Renewed?)
  {
    var more := marks + [mark];
    assert more[|marks|] == mark;
    forall c | 0 <= c < |marks|
      ensures Stands(more, c) <==> Stands(marks, c) && !mark.Renewed?
      ensures LastSent(more, c) <==> LastSent(marks, c) && !mark.Sent?
      ensures LastBroken(more, c) <==> LastBroken(marks, c) && !mark.Broken? && !mark.Renewed?
    {
      assert forall d :: c < d < |marks| ==> more[d] == marks[d];
    }
  }

  lemma SentTells(marks: seq<Mark>, row: Row, now: real)
    requires Tells(marks, row)
    ensures Tells(marks + [Sent(now)], row.(published := true, publishedAt := Some(now)))
  {
    var more := marks + [Sent(now)];
    MarksBefore(marks, Sent(now));
    assert more[|marks|] == Sent(now);
    if c :| Stands(marks, c) && marks[c].Broken? {
      assert Stands(more, c) && more[c].Broken?;
    }
  }

  lemma BrokenTells(marks: seq<Mark>, row: Row, now: real, message: string)
    requires Tells(marks, row)
    ensures Tells(marks + [Broken(now, message)],
                  row.(failed := true, failedAt := Some(now), errorMessage := Some(message)))
  {
    var more := marks + [Broken(now, message)];
    MarksBefore(marks, Broken(now, message));
    assert more[|marks|] == Broken(now, message);
    if c :| Stands(marks, c) && marks[c].Sent? {
      assert Stands(more, c) && more[c].Sent?;
    }
    if c :| 0 <= c < |marks| && marks[c].Sent? {
      assert more[c].Sent?;
    }
  }

  lemma RenewedTells(marks: seq<Mark>, row: Row, attempts: nat)
    requires Tells(marks, row)
    ensures Tells(marks + [Renewed], row.(published := false, failed := false, failedAt := None, errorMessage := None,
                                          attemptCount := attempts))
  {
    var more := marks + [Renewed];
    MarksBefore(marks, Renewed);
    assert more[|marks|] == Renewed;
    if c :| 0 <= c < |marks| && marks[c].Sent? {
      assert more[c].Sent?;
    }
  }

  lemma StepTells(s: Sys, step: Step, id: string, marks: seq<Mark>)
    requires Told(s.rows, id, marks)
    ensures Told(Apply(s, step).rows, id, marks + MarkOf(s, step, id))
  {
    var more := MarkOf(s, step, id);
    if more == [] {
      assert marks + more == marks;
      UnmarkedStays(s, step, id);
    } else {
      match more[0]
      case Inserted(now) =>
        assert marks + more == [Inserted(now)];
      case Sent(now) => SentTells(marks, s.rows[id], now);
      case Broken(now, message) => BrokenTells(marks, s.rows[id], now, message);
      case Renewed => RenewedTells(marks, s.rows[id], s.flights[step.flight].stage.attempts + 1);
    }
  }

  lemma UnmarkedStays(s: Sys, step: Step, id: string)
    requires MarkOf(s, step, id) == []
    ensures id in Apply(s, step).rows <==> id in s.rows
    ensures id in s.rows ==> Apply(s, step).rows[id] == s.rows[id]
  {}

  lemma TellsOn(rows: Table, id: string, marks: seq<Mark>, first: seq<Mark>, rest: seq<Mark>)
    requires Told(rows, id, marks + first + rest)
    ensures Told(rows, id, marks + (first + rest))
  {
    assert marks + first + rest == marks + (first + rest);
  }

  lemma {:induction false} RunTells(s: Sys, steps: seq<Step>, id: string, marks: seq<Mark>)
    requires Told(s.rows, id, marks)
    ensures Told(Run(s, steps).rows, id, marks + History(s, steps, id))
    decreases |steps|
  {
    if steps == [] {
      assert marks + [] == marks;
    } else {
      var t := Apply(s, steps[0]);
      StepTells(s, steps[0], id, marks);
      RunTells(t, steps[1..], id, marks + MarkOf(s, steps[0], id));
      TellsOn(Run(t, steps[1..]).rows, id, marks, MarkOf(s, steps[0], id), History(t, steps[1..], id));
    }
  }

  /**
    In every interleaving the status columns tell the row's history. It was inserted at its creation time; it
    is published exactly if it was marked so after the last reset, and failed likewise; the times and the error
    message are those of the last mark, the time of publication even of one that was taken back. So a row is
    pending exactly if nothing has been marked since it was inserted or last reset.
  */
  lemma StatusIsHistory(steps: seq<Step>, id: string)
    ensures Told(Run(INIT, steps).rows, id, History(INIT, steps, id))
    ensures id in Run(INIT, steps).rows ==>
              var marks := History(INIT, steps, id);
              IsPending(Run(INIT, steps).rows[id]) <==>
                forall c :: Stands(marks, c) ==> marks[c].Inserted? || marks[c].Renewed?
  {
    RunTells(INIT, steps, id, []);
    assert [] + History(INIT, steps, id) == History(INIT, steps, id);
  }

  /**
    If nothing comes between its transactions, a reset does to the table what `ResetFailed` does, and so does a
    retry of a row that has failed; of any other, it does nothing.
  */
  lemma UninterruptedRuns(s: Sys, id: string, retry: bool)
    ensures var n := |s.flights|;
            Run(s, [if retry then BeginRetry(id) else BeginReset(id), Load(n), Store(n)]).rows ==
              if retry && !Standing(s.rows, id) then s.rows else Reset(s.rows, id, Attempts(s.rows, id))
  {
    var n := |s.flights|;
    var first := if retry then BeginRetry(id) else BeginReset(id);
    var s1 := Apply(s, first);
    var s2 := Apply(s1, Load(n));
    var s3 := Apply(s2, Store(n));
    var steps := [first, Load(n), Store(n)];
    assert steps[1..] == [Load(n), Store(n)] && steps[1..][1..] == [Store(n)] && steps[1..][1..][1..] == [];
    assert Run(s2, [Store(n)]) == Run(s3, []) == s3;
    assert Run(s1, [Load(n), Store(n)]) == s3;
    assert !retry || Standing(s.rows, id) ==> s2.flights[n].stage == Loaded(Attempts(s.rows, id), |s.log|);
  }
}
