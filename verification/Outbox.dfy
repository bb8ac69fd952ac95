/**
  The memory outbox: one row per conversation, re-armed by every completed turn,
  claimed when idle, and moved on by status writes guarded on the claimed
  `last_turn_at`.
 */
module Outbox {
  import opened Common

  type ConversationId = nat

  datatype Status = Pending | Done | Failed

  datatype Row = Row(status: Status, lastTurnAt: real, attempts: nat, lastError: Option<string>)

  type Rows = map<ConversationId, Row>

  function Rearmed(now: real): Row {
    Row(Pending, now, 0, None)
  }

  function MarkedDone(rows: Rows, c: ConversationId, claimed: real): Rows {
    if c in rows && rows[c].lastTurnAt == claimed
    then rows[c := rows[c].(status := Done, lastError := None)] else rows
  }

  function FailureRecorded(rows: Rows, c: ConversationId, claimed: real, error: string, maxAttempts: nat): Rows {
    if c in rows && rows[c].lastTurnAt == claimed then
      var attempts := rows[c].attempts + 1;
      rows[c := Row(if attempts >= maxAttempts then Failed else Pending, claimed, attempts, Some(error))]
    else rows
  }

  class ConversationOutbox {
    var rows: Rows

    constructor ()
      ensures rows == map[]
    {
      rows := map[];
    }

    method Touch(c: ConversationId, now: real)
      modifies this
      ensures rows == old(rows)[c := Rearmed(now)] == old(rows)[c := Row(Pending, now, 0, None)]
    {
      if c in rows {
        rows := rows[c := rows[c].(lastTurnAt := now, status := Pending, attempts := 0, lastError := None)];
      } else {
        rows := rows[c := Row(Pending, now, 0, None)];
      }
    }

    method MarkDone(c: ConversationId, claimed: real) returns (marked: bool)
      modifies this
      ensures rows == MarkedDone(old(rows), c, claimed)
      ensures marked <==> c in old(rows) && old(rows)[c].lastTurnAt == claimed
      ensures rows == if marked then old(rows)[c := Row(Done, claimed, old(rows)[c].attempts, None)] else old(rows)
    {
      marked := c in rows && rows[c].lastTurnAt == claimed;
      if marked {
        rows := rows[c := rows[c].(status := Done, lastError := None)];
      }
    }

    method RecordFailure(c: ConversationId, claimed: real, error: string, maxAttempts: nat)
      returns (row: Option<Row>)
      modifies this
      ensures rows == FailureRecorded(old(rows), c, claimed, error, maxAttempts)
      ensures row.Some? <==> c in old(rows) && old(rows)[c].lastTurnAt == claimed
      ensures row == None ==> rows == old(rows)
      ensures row.Some? ==>
                && rows == old(rows)[c := row.value]
                && row.value.attempts == old(rows)[c].attempts + 1
                && row.value.lastTurnAt == claimed && row.value.lastError == Some(error)
                && row.value.status == if row.value.attempts < maxAttempts then Pending else Failed
    {
      if c !in rows || rows[c].lastTurnAt != claimed {
        return None;
      }
      var attempts := rows[c].attempts + 1;
      var status := if attempts >= maxAttempts then Failed else Pending;
      rows := rows[c := rows[c].(attempts := attempts, lastError := Some(error), status := status)];
      row := Some(rows[c]);
    }
  }
}
