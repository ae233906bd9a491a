/** The keyed table of disbursement requests and the decision taken on what it holds. */
module Idempotency {
  import opened Wrappers
  import opened Workflow

  datatype RowStatus = PROCESSING | COMPLETED | ROW_FAILED

  datatype Row = Row(requestHash: string, status: RowStatus, payload: Option<Receipt>)

  type Table = map<string, Row>

  datatype DbError = IntegrityError

  function Lookup(rows: Table, applicationId: string): Option<Row> {
    if applicationId in rows then Some(rows[applicationId]) else None
  }

  /** The primary key admits one insert per application. */
  function Inserted(rows: Table, applicationId: string, requestHash: string): Result<Table, DbError> {
    if applicationId in rows then Failure(IntegrityError)
    else Success(rows[applicationId := Row(requestHash, PROCESSING, None)])
  }

  /** An UPDATE by key: no row, no effect. */
  function Completed(rows: Table, applicationId: string, payload: Option<Receipt>): Table {
    if applicationId in rows
    then rows[applicationId := rows[applicationId].(status := COMPLETED, payload := payload)]
    else rows
  }

  function MarkedFailed(rows: Table, applicationId: string): Table {
    if applicationId in rows then rows[applicationId := rows[applicationId].(status := ROW_FAILED)] else rows
  }

  class IdempotencyRepository {
    var rows: Table

    constructor ()
      ensures rows == map[]
    {
      rows := map[];
    }

    method Get(applicationId: string) returns (row: Option<Row>)
      ensures row == Lookup(rows, applicationId)
      ensures row == if applicationId in rows then Some(rows[applicationId]) else None
    {
      if applicationId in rows {
        return Some(rows[applicationId]);
      }
      return None;
    }

    method Create(applicationId: string, requestHash: string) returns (failure: Option<DbError>)
      modifies this
      ensures match Inserted(old(rows), applicationId, requestHash)
              case Success(rows') => failure == None && rows == rows'
              case Failure(e) => failure == Some(e) && rows == old(rows)
      ensures failure.None? <==> applicationId !in old(rows)
      ensures failure.None? ==> rows == old(rows)[applicationId := Row(requestHash, PROCESSING, None)]
    {
      if applicationId in rows {
        return Some(IntegrityError);
      }
      rows := rows[applicationId := Row(requestHash, PROCESSING, None)];
      return None;
    }

    method MarkCompleted(applicationId: string, payload: Option<Receipt>)
      modifies this
      ensures rows == Completed(old(rows), applicationId, payload)
      ensures applicationId in old(rows) ==>
                rows == old(rows)[applicationId := Row(old(rows)[applicationId].requestHash, COMPLETED, payload)]
      ensures applicationId !in old(rows) ==> rows == old(rows)
    {
      if applicationId in rows {
        rows := rows[applicationId := rows[applicationId].(status := COMPLETED, payload := payload)];
      }
    }

    method MarkFailed(applicationId: string)
      modifies this
      ensures rows == MarkedFailed(old(rows), applicationId)
      ensures applicationId in old(rows) ==>
                var row := old(rows)[applicationId];
                rows == old(rows)[applicationId := Row(row.requestHash, ROW_FAILED, row.payload)]
      ensures applicationId !in old(rows) ==> rows == old(rows)
    {
      if applicationId in rows {
        rows := rows[applicationId := rows[applicationId].(status := ROW_FAILED)];
      }
    }
  }

  datatype Resolution = Fresh | Replay(payload: Option<Receipt>) | Conflict | InProgress

  /** What an arriving request with this hash is told. A FAILED row reads as if there were none. */
  function Resolve(existing: Option<Row>, requestHash: string): Resolution {
    if existing.None? then Fresh
    else if existing.value.requestHash != requestHash then Conflict
    else if existing.value.status == COMPLETED && existing.value.payload.Some? then Replay(existing.value.payload)
    else if existing.value.status == PROCESSING then InProgress
    else Fresh
  }
}
