/** The `transactions` ledger of captured and refunded payments, keyed by
    order. */
module Transactions {
  import opened Common

  /** A row of `transactions`; the capture time is kept as the text the
      caller formatted. */
  datatype TxRow = TxRow(
    orderId: Id,
    payerId: Option<string>,
    payerEmail: Option<string>,
    amount: real,
    currency: string,
    status: string,
    time: string,
    captureId: Option<string>,
    refundReason: Option<string>)

  /** The row `create` inserts: an empty or missing capture id or refund
      reason is stored as null, every other field as given. */
  function CreatedTx(data: TxRow): (r: TxRow)
    ensures r.captureId.Some? <==> Truthy(data.captureId)
    ensures r.refundReason.Some? <==> Truthy(data.refundReason)
    ensures r.captureId.Some? ==> r.captureId == data.captureId
    ensures r.refundReason.Some? ==> r.refundReason == data.refundReason
    ensures r.(captureId := data.captureId, refundReason := data.refundReason) == data
  {
    data.(captureId := OrNull(data.captureId), refundReason := OrNull(data.refundReason))
  }

  /** `getByOrderId`, on a list of rows: the first row of that order, or
      null. */
  function FirstByOrder(rows: seq<TxRow>, orderId: Id): (r: Option<TxRow>)
    ensures r.Some? <==> exists i :: 0 <= i < |rows| && rows[i].orderId == orderId
    ensures r.Some? ==> r.value in rows && r.value.orderId == orderId
    ensures r.Some? ==>
      exists i :: 0 <= i < |rows| && rows[i] == r.value && forall j :: 0 <= j < i ==> rows[j].orderId != orderId
  {
    var i := FindIndex(rows, (row: TxRow) => row.orderId == orderId);
    if i < 0 then None else Some(rows[i])
  }

  /** The rows after `updateStatusByOrderId`: every row of the order gets
      the status and the reason, the others are unchanged. */
  function StatusUpdated(rows: seq<TxRow>, orderId: Id, status: string, reason: Option<string>): (r: seq<TxRow>)
    ensures |r| == |rows|
    ensures forall i :: 0 <= i < |rows| ==>
      r[i] == if rows[i].orderId == orderId then rows[i].(status := status, refundReason := reason) else rows[i]
  {
    seq(|rows|, i requires 0 <= i < |rows| =>
      if rows[i].orderId == orderId then rows[i].(status := status, refundReason := reason) else rows[i])
  }

  /** After a status update, the row found for the order carries the new
      status and reason; the rows found for other orders are unchanged. */
  lemma LookupAfterStatusUpdate(rows: seq<TxRow>, orderId: Id, status: string, reason: Option<string>, other: Id)
    requires other != orderId
    ensures FirstByOrder(rows, orderId).Some? ==>
      FirstByOrder(StatusUpdated(rows, orderId, status, reason), orderId) ==
        Some(FirstByOrder(rows, orderId).value.(status := status, refundReason := reason))
    ensures FirstByOrder(StatusUpdated(rows, orderId, status, reason), other) == FirstByOrder(rows, other)
  {
    var after := StatusUpdated(rows, orderId, status, reason);
    var mine := (row: TxRow) => row.orderId == orderId;
    var theirs := (row: TxRow) => row.orderId == other;
    FindIndexSame(after, mine, rows, mine);
    FindIndexSame(after, theirs, rows, theirs);
  }

  class TransactionTable {
    /** The rows in insertion order. */
    var rows: seq<TxRow>

    constructor ()
      ensures rows == []
    {
      rows := [];
    }

    /** `create`: appends exactly one row, unless the insert fails. */
    method Create(data: TxRow, fails: bool) returns (ok: bool)
      modifies this
      ensures ok <==> !fails
      ensures ok ==> rows == old(rows) + [CreatedTx(data)]
      ensures !ok ==> rows == old(rows)
    {
      if fails {
        return false;
      }
      rows := rows + [CreatedTx(data)];
      ok := true;
    }

    /** `getByOrderId`. */
    function GetByOrderId(orderId: Id): (r: Option<TxRow>)
      reads this
      ensures r.Some? <==> exists i :: 0 <= i < |rows| && rows[i].orderId == orderId
      ensures r.Some? ==> r.value.orderId == orderId
    {
      FirstByOrder(rows, orderId)
    }

    /** `updateStatusByOrderId`: sets the status and the refund reason of
        every row of the order. */
    method UpdateStatusByOrderId(orderId: Id, status: string, reason: Option<string>)
      modifies this
      ensures rows == StatusUpdated(old(rows), orderId, status, reason)
    {
      var k := 0;
      while k < |rows|
        invariant 0 <= k <= |rows| == |old(rows)|
        invariant forall i :: 0 <= i < k ==>
          rows[i] == if old(rows)[i].orderId == orderId then old(rows)[i].(status := status, refundReason := reason) else old(rows)[i]
        invariant forall i :: k <= i < |rows| ==> rows[i] == old(rows)[i]
      {
        if rows[k].orderId == orderId {
          rows := rows[k := rows[k].(status := status, refundReason := reason)];
        }
        k := k + 1;
      }
    }
  }
}
