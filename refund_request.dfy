/** The `refund_request` table: one request per order, renewed by a
    customer and approved by an administrator. Every operation treats a
    missing table as nothing to do rather than as an error. */
module RefundRequests {
  import opened Common

  /** A row of `refund_request`, keyed by its order (the creation and
      processing times are left out; `processed` says whether a processing
      time is set). */
  datatype RefundRow = RefundRow(
    userId: Id,
    reason: string,
    status: string,
    adminId: Option<Id>,
    adminNote: Option<string>,
    processed: bool)

  /** How a write ended: done, skipped because the table is missing, or
      failed with another database error. */
  datatype Outcome = Done | Skipped | Failed

  /** The table after `upsert`: a new order gets a 'requested' row; an
      existing one keeps its user, takes the new reason, returns to
      'requested' and loses the administrator's id, note and processing
      time. */
  function Upserted(rows: map<Id, RefundRow>, orderId: Id, userId: Id, reason: string): (r: map<Id, RefundRow>)
    ensures r.Keys == rows.Keys + {orderId}
    ensures forall k :: k in rows && k != orderId ==> r[k] == rows[k]
    ensures r[orderId].reason == reason && r[orderId].status == "requested"
    ensures r[orderId].adminId.None? && r[orderId].adminNote.None? && !r[orderId].processed
    ensures r[orderId].userId == if orderId in rows then rows[orderId].userId else userId
  {
    var user := if orderId in rows then rows[orderId].userId else userId;
    rows[orderId := RefundRow(user, reason, "requested", None, None, false)]
  }

  /** The table after `markApproved`: the order's row, if any, becomes
      'approved' with the administrator and the note (null when missing
      or empty) and a processing time. */
  function Approved(rows: map<Id, RefundRow>, orderId: Id, adminId: Option<Id>, note: Option<string>): (r: map<Id, RefundRow>)
    ensures r.Keys == rows.Keys
    ensures forall k :: k in rows && k != orderId ==> r[k] == rows[k]
    ensures orderId in rows ==>
      r[orderId] == rows[orderId].(status := "approved", adminId := adminId, adminNote := OrNull(note), processed := true)
  {
    if orderId in rows then
      rows[orderId := rows[orderId].(status := "approved", adminId := adminId, adminNote := OrNull(note), processed := true)]
    else rows
  }

  /** Renewing a request erases an earlier approval entirely: the row is
      the one a renewal of the unapproved request gives. */
  lemma RenewAfterApproval(rows: map<Id, RefundRow>, orderId: Id, userId: Id, reason: string, adminId: Option<Id>, note: Option<string>)
    ensures Upserted(Approved(rows, orderId, adminId, note), orderId, userId, reason) == Upserted(rows, orderId, userId, reason)
  {
  }

  /** Renewing twice is renewing once with the last reason. */
  lemma RenewTwice(rows: map<Id, RefundRow>, orderId: Id, userId: Id, other: Id, first: string, second: string)
    ensures Upserted(Upserted(rows, orderId, userId, first), orderId, other, second) == Upserted(rows, orderId, userId, second)
  {
  }

  class RefundTable {
    var rows: map<Id, RefundRow>
    /** Whether the table exists in the database. */
    var present: bool

    constructor (present: bool)
      ensures rows == map[] && this.present == present
    {
      rows := map[];
      this.present := present;
    }

    /** `upsert`: skipped without the table, failed on another error,
        otherwise the request is inserted or renewed. */
    method Upsert(orderId: Id, userId: Id, reason: string, fails: bool) returns (o: Outcome)
      modifies this`rows
      ensures !present ==> o == Skipped
      ensures present && fails ==> o == Failed
      ensures o != Done ==> rows == old(rows)
      ensures o == Done <==> present && !fails
      ensures o == Done ==> rows == Upserted(old(rows), orderId, userId, reason)
    {
      if !present {
        return Skipped;
      }
      if fails {
        return Failed;
      }
      if orderId in rows {
        rows := rows[orderId := rows[orderId].(reason := reason, status := "requested", adminId := None, adminNote := None, processed := false)];
      } else {
        rows := rows[orderId := RefundRow(userId, reason, "requested", None, None, false)];
      }
      o := Done;
    }

    /** `getByOrderIds`: an empty list gives no rows before any query, a
        missing table gives no rows, another error is an error; otherwise
        the rows of the listed orders, by order (the database's row order is
        left out). */
    function GetByOrderIds(orderIds: seq<Id>, fails: bool): (r: Result<map<Id, RefundRow>>)
      reads this
      ensures orderIds == [] || !present ==> r == Ok(map[])
      ensures r.Err? <==> orderIds != [] && present && fails
      ensures r.Ok? ==> forall k :: k in r.value <==> k in rows && k in orderIds && present
      ensures r.Ok? ==> forall k :: k in r.value ==> r.value[k] == rows[k]
    {
      if orderIds == [] || !present then Ok(map[])
      else if fails then Err("query failed")
      else Ok(map k | k in rows && k in orderIds :: rows[k])
    }

    /** `getByOrderId`: the order's request, or null when there is none or
        the table is missing; another error is an error. */
    function GetByOrderId(orderId: Id, fails: bool): (r: Result<Option<RefundRow>>)
      reads this
      ensures !present ==> r == Ok(None)
      ensures r.Err? <==> present && fails
      ensures r.Ok? && r.value.Some? <==> present && !fails && orderId in rows
      ensures r.Ok? && r.value.Some? ==> r.value.value == rows[orderId]
    {
      if !present then Ok(None)
      else if fails then Err("query failed")
      else if orderId in rows then Ok(Some(rows[orderId]))
      else Ok(None)
    }

    /** `markApproved`: skipped without the table, failed on another
        error, otherwise only that order's request is approved. */
    method MarkApproved(orderId: Id, adminId: Option<Id>, note: Option<string>, fails: bool) returns (o: Outcome)
      modifies this`rows
      ensures !present ==> o == Skipped
      ensures o == Done <==> present && !fails
      ensures o != Done ==> rows == old(rows)
      ensures o == Done ==> rows == Approved(old(rows), orderId, adminId, note)
    {
      if !present {
        return Skipped;
      }
      if fails {
        return Failed;
      }
      if orderId in rows {
        rows := rows[orderId := rows[orderId].(status := "approved", adminId := adminId, adminNote := OrNull(note), processed := true)];
      }
      o := Done;
    }
  }
}
