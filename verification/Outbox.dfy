/** The outbox table: one row per event, its status columns, and the operations that update them. */
module Outbox {
  import opened Wrappers

  datatype Row = Row(
    published: bool,
    failed: bool,
    attemptCount: nat,
    createdAt: real,
    publishedAt: Option<real>,
    failedAt: Option<real>,
    errorMessage: Option<string>)

  type Table = map<string, Row>

  datatype Error = DuplicateEvent | NotFound | NotFailed

  function NewRow(now: real): Row {
    Row(false, false, 0, now, None, None, None)
  }

  predicate IsPending(r: Row) {
    !r.published && !r.failed
  }

  // Each status operation is one UPDATE .. WHERE event_id = id, which does nothing if there is no such row.

  function Publish(rows: Table, id: string, now: real): Table {
    if id in rows then rows[id := rows[id].(published := true, publishedAt := Some(now))] else rows
  }

  function Fail(rows: Table, id: string, message: string, now: real): Table {
    if id in rows then rows[id := rows[id].(failed := true, failedAt := Some(now), errorMessage := Some(message))] else rows
  }

  /** The second transaction of a reset, which writes back the count its first transaction read. */
  function Reset(rows: Table, id: string, attempts: nat): Table {
    if id in rows then
      rows[id := rows[id].(published := false, failed := false, failedAt := None, errorMessage := None,
                           attemptCount := attempts + 1)]
    else rows
  }

  /** `scalar_one_or_none() or 0` */
  function Attempts(rows: Table, id: string): nat {
    if id in rows then rows[id].attemptCount else 0
  }

  function PendingIds(rows: Table): set<string> {
    set id | id in rows && IsPending(rows[id])
  }

  /** The status columns agree with one another. */
  predicate RowFits(r: Row) {
    && (r.failed <==> r.failedAt.Some?)
    && (r.failed <==> r.errorMessage.Some?)
    && (r.published ==> r.publishedAt.Some?)
  }

  ghost predicate Consistent(rows: Table) {
    forall id :: id in rows ==> RowFits(rows[id])
  }

  function SettledIds(rows: Table): set<string> {
    set id | id in rows && (rows[id].published || rows[id].failed)
  }

  /** `count_unpublished`: all the rows less those published or failed. */
  function CountUnpublished(rows: Table): (n: nat)
    ensures n == |rows| - |SettledIds(rows)|
  {
    assert PendingIds(rows) !! SettledIds(rows) && PendingIds(rows) + SettledIds(rows) == rows.Keys;
    |PendingIds(rows)|
  }

  /** `min(created_at)` over the given rows. */
  ghost function OldestCreated(rows: Table, ids: set<string>): (t: real)
    requires ids != {} && ids <= rows.Keys
    ensures exists id :: id in ids && t == rows[id].createdAt
    ensures forall id :: id in ids ==> t <= rows[id].createdAt
    decreases |ids|
  {
    var id :| id in ids;
    var rest := ids - {id};
    if rest == {} then
      assert ids == {id};
      rows[id].createdAt
    else
      var t := OldestCreated(rows, rest);
      assert ids == rest + {id};
      if rows[id].createdAt < t then rows[id].createdAt else t
  }

  /** Zero if nothing is pending, else the age of the oldest pending row, never below zero. */
  ghost function OldestUnpublishedAge(rows: Table, now: real): (age: real)
    ensures 0.0 <= age
    ensures forall id :: id in PendingIds(rows) ==> now - rows[id].createdAt <= age
    ensures age == 0.0 || exists id :: id in PendingIds(rows) && age == now - rows[id].createdAt
  {
    if PendingIds(rows) == {} then 0.0
    else
      var age := now - OldestCreated(rows, PendingIds(rows));
      if age < 0.0 then 0.0 else age
  }

  datatype Added = Added(id: string, row: Row)

  /** No identifier is in the table already or added twice. */
  predicate Insertable(rows: Table, added: seq<Added>) {
    && (forall i :: 0 <= i < |added| ==> added[i].id !in rows)
    && forall i, j :: 0 <= i < j < |added| ==> added[i].id != added[j].id
  }

  /** An empty session can commit; with one more event it can if the identifier is neither stored nor added yet. */
  lemma InsertableExactly(rows: Table, added: seq<Added>, next: Added)
    ensures Insertable(rows, [])
    ensures Insertable(rows, added + [next]) <==>
              && Insertable(rows, added) && next.id !in rows
              && forall i :: 0 <= i < |added| ==> added[i].id != next.id
  {
    var more := added + [next];
    assert more[|added|] == next;
    assert forall i :: 0 <= i < |added| ==> more[i] == added[i];
  }

  function InsertAll(rows: Table, added: seq<Added>): Table {
    if added == [] then rows
    else InsertAll(rows, added[..|added| - 1])[added[|added| - 1].id := added[|added| - 1].row]
  }

  /** A commit adds the session's rows as they are, and leaves all other rows alone. */
  lemma {:induction false} InsertAllExactly(rows: Table, added: seq<Added>, id: string)
    requires Insertable(rows, added)
    ensures id in rows ==> id in InsertAll(rows, added) && InsertAll(rows, added)[id] == rows[id]
    ensures id !in rows ==>
      (id in InsertAll(rows, added) <==> exists i :: 0 <= i < |added| && added[i].id == id)
    ensures forall i :: 0 <= i < |added| && added[i].id == id ==>
      id in InsertAll(rows, added) && InsertAll(rows, added)[id] == added[i].row
    decreases |added|
  {
    if added != [] {
      var n := |added| - 1;
      InsertAllExactly(rows, added[..n], id);
      assert forall i :: 0 <= i < n ==> added[..n][i] == added[i];
    }
  }

  /** A business transaction, with the events it has added to the outbox. */
  class BusinessSession {
    var added: seq<Added>

    constructor ()
      ensures added == []
    {
      added := [];
    }
  }

  class OutboxTable {
    var rows: Table

    constructor ()
      ensures rows == map[]
    {
      rows := map[];
    }

    /** `add_event_to_outbox`: into the caller's session if there is one, else in a transaction of its own. */
    method AddEvent(id: string, now: real, session: BusinessSession?) returns (r: Result<(), Error>)
      modifies this, if session != null then {session} else {}
      ensures session != null ==>
                r.Success? && rows == old(rows) && session.added == old(session.added) + [Added(id, NewRow(now))]
      ensures session == null ==> (r.Failure? <==> id in old(rows))
      ensures session == null ==> rows == if r.Success? then old(rows)[id := NewRow(now)] else old(rows)
    {
      if session != null {
        session.added := session.added + [Added(id, NewRow(now))];
        return Success(());
      }
      if id in rows {
        return Failure(DuplicateEvent);
      }
      rows := rows[id := NewRow(now)];
      return Success(());
    }

    /** The caller's commit: all of the session's events become rows, or none does. */
    method CommitSession(session: BusinessSession) returns (r: Result<(), Error>)
      modifies this, session
      ensures session.added == []
      ensures r.Success? <==> Insertable(old(rows), old(session.added))
      ensures rows == if r.Success? then InsertAll(old(rows), old(session.added)) else old(rows)
    {
      var added := session.added;
      session.added := [];
      if !Insertable(rows, added) {
        return Failure(DuplicateEvent);
      }
      rows := InsertAll(rows, added);
      return Success(());
    }

    method MarkPublished(id: string, now: real)
      modifies this
      ensures rows == Publish(old(rows), id, now)
      ensures old(Consistent(rows)) ==> Consistent(rows)
    {
      if id in rows {
        rows := rows[id := rows[id].(published := true, publishedAt := Some(now))];
      }
    }

    method MarkFailed(id: string, message: string, now: real)
      modifies this
      ensures rows == Fail(old(rows), id, message, now)
      ensures old(Consistent(rows)) ==> Consistent(rows)
    {
      if id in rows {
        rows := rows[id := rows[id].(failed := true, failedAt := Some(now), errorMessage := Some(message))];
      }
    }

    /** `reset_failed` when nothing comes between its two transactions. */
    method ResetFailed(id: string)
      modifies this
      ensures rows == Reset(old(rows), id, Attempts(old(rows), id))
      ensures old(Consistent(rows)) ==> Consistent(rows)
      ensures id in old(rows) ==>
                id in rows && IsPending(rows[id]) && rows[id].attemptCount == old(rows)[id].attemptCount + 1
    {
      var current := if id in rows then rows[id].attemptCount else 0;
      if id in rows {
        rows := rows[id := rows[id].(published := false, failed := false, failedAt := None, errorMessage := None,
                                     attemptCount := current + 1)];
      }
    }

    method RetryEvent(id: string) returns (r: Result<(), Error>)
      modifies this
      ensures r == if id !in old(rows) then Failure(NotFound)
                   else if !old(rows)[id].failed then Failure(NotFailed)
                   else Success(())
      ensures rows == if r.Success? then Reset(old(rows), id, Attempts(old(rows), id)) else old(rows)
    {
      if id !in rows {
        return Failure(NotFound);
      }
      if !rows[id].failed {
        return Failure(NotFailed);
      }
      ResetFailed(id);
      return Success(());
    }
  }
}
