/** The `nets_transactions` ledger: one row per NETS QR request, found by
    its retrieval reference and updated field by field. */
module NetsTransactions {
  import opened Common

  /** A payload as handed to the ledger: null or undefined, a text, or an
      object with the text `JSON.stringify` makes of it (`None` when
      stringifying throws). */
  datatype JsValue = JsNull | JsText(text: string) | JsObject(serialized: Option<string>)

  /** An entry of an update object: absent (`undefined`) or given. */
  datatype Field<T> = Undefined | Given(value: T)

  /** A row of `nets_transactions` (the creation time is left out). */
  datatype NetsRow = NetsRow(
    userId: Option<Id>,
    orderId: Option<Id>,
    amount: real,
    txnRetrievalRef: string,
    netTransactionId: Option<string>,
    courseInitId: Option<string>,
    status: Option<string>,
    responseCode: Option<string>,
    networkStatus: Option<int>,
    payload: Option<string>)

  /** The fields handed to `create`; `None` stands for a missing field. */
  datatype NetsInput = NetsInput(
    userId: Option<Id>,
    orderId: Option<Id>,
    amount: Option<real>,
    txnRetrievalRef: string,
    netTransactionId: Option<string>,
    courseInitId: Option<string>,
    status: Option<string>,
    responseCode: Option<string>,
    networkStatus: Option<int>,
    payload: JsValue)

  /** The object handed to `updateByTxnRetrievalRef`; a given field may
      itself be null. */
  datatype NetsUpdates = NetsUpdates(
    userId: Field<Option<Id>>,
    orderId: Field<Option<Id>>,
    amount: Field<Option<real>>,
    netTransactionId: Field<Option<string>>,
    courseInitId: Field<Option<string>>,
    status: Field<Option<string>>,
    responseCode: Field<Option<string>>,
    networkStatus: Field<Option<int>>,
    payload: Field<JsValue>)

  const NoUpdates := NetsUpdates(Undefined, Undefined, Undefined, Undefined, Undefined, Undefined, Undefined, Undefined, Undefined)

  /** `serializePayload`: null stays null, a text is kept as it is, an
      object becomes its JSON text, or null when that fails. */
  function SerializePayload(p: JsValue): (r: Option<string>)
    ensures p.JsNull? ==> r.None?
    ensures p.JsText? ==> r == Some(p.text)
    ensures p.JsObject? ==> r == p.serialized
  {
    match p
    case JsNull => None
    case JsText(t) => Some(t)
    case JsObject(s) => s
  }

  /** `Number(x || 0)` for an amount. */
  function AmountOrZero(a: Option<real>): real {
    if a.Some? then a.value else 0.0
  }

  /** The row `create` inserts: status 'pending' unless a non-empty status
      is given, and every other missing or empty optional field null. */
  function Created(data: NetsInput): (r: NetsRow)
    ensures r.status == Some(if Truthy(data.status) then data.status.value else "pending")
    ensures r.netTransactionId.Some? <==> Truthy(data.netTransactionId)
    ensures r.courseInitId.Some? <==> Truthy(data.courseInitId)
    ensures r.responseCode.Some? <==> Truthy(data.responseCode)
    ensures r.txnRetrievalRef == data.txnRetrievalRef && r.userId == data.userId && r.orderId == data.orderId
    ensures r.amount == AmountOrZero(data.amount) && r.networkStatus == data.networkStatus
    ensures r.payload == SerializePayload(data.payload)
  {
    NetsRow(data.userId, data.orderId, AmountOrZero(data.amount), data.txnRetrievalRef,
            OrNull(data.netTransactionId), OrNull(data.courseInitId),
            Some(OrDefault(data.status, "pending")), OrNull(data.responseCode),
            data.networkStatus, SerializePayload(data.payload))
  }

  /** Whether an update object sets at least one column. */
  predicate SetsAny(u: NetsUpdates) {
    u.userId.Given? || u.orderId.Given? || u.amount.Given? || u.netTransactionId.Given? ||
    u.courseInitId.Given? || u.status.Given? || u.responseCode.Given? || u.networkStatus.Given? ||
    u.payload.Given?
  }

  function Pick<T>(f: Field<T>, current: T): T {
    if f.Given? then f.value else current
  }

  /** A row after an update: every given field is written, an amount as
      `Number(x || 0)`, a network status as `Number(x)` (null is 0), a
      payload serialised; every other column keeps its value. */
  function Apply(row: NetsRow, u: NetsUpdates): (r: NetsRow)
    ensures r.txnRetrievalRef == row.txnRetrievalRef
    ensures u.orderId.Undefined? ==> r.orderId == row.orderId
    ensures u.orderId.Given? ==> r.orderId == u.orderId.value
    ensures u.status.Undefined? ==> r.status == row.status
    ensures u.status.Given? ==> r.status == u.status.value
    ensures u.amount.Given? ==> r.amount == AmountOrZero(u.amount.value)
    ensures u.networkStatus.Given? ==> r.networkStatus == Some(if u.networkStatus.value.Some? then u.networkStatus.value.value else 0)
    ensures u.payload.Given? ==> r.payload == SerializePayload(u.payload.value)
    ensures !SetsAny(u) ==> r == row
  {
    NetsRow(
      Pick(u.userId, row.userId),
      Pick(u.orderId, row.orderId),
      if u.amount.Given? then AmountOrZero(u.amount.value) else row.amount,
      row.txnRetrievalRef,
      Pick(u.netTransactionId, row.netTransactionId),
      Pick(u.courseInitId, row.courseInitId),
      Pick(u.status, row.status),
      Pick(u.responseCode, row.responseCode),
      if u.networkStatus.Given? then Some(if u.networkStatus.value.Some? then u.networkStatus.value.value else 0) else row.networkStatus,
      if u.payload.Given? then SerializePayload(u.payload.value) else row.payload)
  }

  /** The rows after an update: those with the reference get the update,
      the others are unchanged. */
  function UpdatedRows(rows: seq<NetsRow>, ref: string, u: NetsUpdates): (r: seq<NetsRow>)
    ensures |r| == |rows|
    ensures forall i :: 0 <= i < |rows| ==> r[i] == if rows[i].txnRetrievalRef == ref then Apply(rows[i], u) else rows[i]
  {
    seq(|rows|, i requires 0 <= i < |rows| => if rows[i].txnRetrievalRef == ref then Apply(rows[i], u) else rows[i])
  }

  /** The number of rows with the reference. */
  function CountRef(rows: seq<NetsRow>, ref: string): (n: nat)
    ensures n <= |rows|
  {
    if rows == [] then 0
    else CountRef(rows[..|rows| - 1], ref) + (if rows[|rows| - 1].txnRetrievalRef == ref then 1 else 0)
  }

  /** `getByTxnRetrievalRef`, on a list of rows: the first row with that
      reference, or null. */
  function FirstByRef(rows: seq<NetsRow>, ref: string): (r: Option<NetsRow>)
    ensures r.Some? <==> exists i :: 0 <= i < |rows| && rows[i].txnRetrievalRef == ref
    ensures r.Some? ==> r.value in rows && r.value.txnRetrievalRef == ref
    ensures r.Some? ==>
      exists i :: 0 <= i < |rows| && rows[i] == r.value && forall j :: 0 <= j < i ==> rows[j].txnRetrievalRef != ref
  {
    var i := FindIndex(rows, (row: NetsRow) => row.txnRetrievalRef == ref);
    if i < 0 then None else Some(rows[i])
  }

  /** After an update, looking the reference up gives the first matching
      row with the update applied; in particular it carries the order key
      the update wrote. */
  lemma LookupAfterUpdate(rows: seq<NetsRow>, ref: string, u: NetsUpdates)
    ensures FirstByRef(UpdatedRows(rows, ref, u), ref).None? <==> FirstByRef(rows, ref).None?
    ensures FirstByRef(rows, ref).Some? ==>
      FirstByRef(UpdatedRows(rows, ref, u), ref) == Some(Apply(FirstByRef(rows, ref).value, u))
  {
    var accepts := (row: NetsRow) => row.txnRetrievalRef == ref;
    FindIndexSame(UpdatedRows(rows, ref, u), accepts, rows, accepts);
  }

  /** An update object that sets nothing changes no row. */
  lemma EmptyUpdateChangesNothing(rows: seq<NetsRow>, ref: string, u: NetsUpdates)
    requires !SetsAny(u)
    ensures UpdatedRows(rows, ref, u) == rows
  {
  }

  class NetsTable {
    /** The rows in insertion order. */
    var rows: seq<NetsRow>

    constructor ()
      ensures rows == []
    {
      rows := [];
    }

    /** `create`: appends the row with its defaults and returns its key. */
    method Create(data: NetsInput) returns (id: Id)
      modifies this
      ensures rows == old(rows) + [Created(data)]
      ensures id == |rows|
    {
      rows := rows + [Created(data)];
      id := |rows|;
    }

    /** `getByTxnRetrievalRef`. */
    function GetByTxnRetrievalRef(ref: string): (r: Option<NetsRow>)
      reads this
      ensures r.Some? <==> exists i :: 0 <= i < |rows| && rows[i].txnRetrievalRef == ref
      ensures r.Some? ==> r.value.txnRetrievalRef == ref
    {
      FirstByRef(rows, ref)
    }

    /** `updateByTxnRetrievalRef`: a missing update object, or one that sets
        no column, gives 0 and changes nothing; otherwise every row with the
        reference gets the given columns and the number of those rows is
        returned. */
    method UpdateByTxnRetrievalRef(ref: string, updates: Option<NetsUpdates>) returns (affected: nat)
      modifies this
      ensures updates.None? || !SetsAny(updates.value) ==> affected == 0 && rows == old(rows)
      ensures updates.Some? && SetsAny(updates.value) ==>
        rows == UpdatedRows(old(rows), ref, updates.value) && affected == CountRef(old(rows), ref)
    {
      if updates.None? || !SetsAny(updates.value) {
        return 0;
      }
      var u := updates.value;
      var k := 0;
      affected := 0;
      while k < |rows|
        invariant 0 <= k <= |rows| == |old(rows)|
        invariant forall i :: 0 <= i < k ==>
          rows[i] == if old(rows)[i].txnRetrievalRef == ref then Apply(old(rows)[i], u) else old(rows)[i]
        invariant forall i :: k <= i < |rows| ==> rows[i] == old(rows)[i]
        invariant affected == CountRef(old(rows)[..k], ref)
      {
        assert old(rows)[..k + 1][..k] == old(rows)[..k];
        if rows[k].txnRetrievalRef == ref {
          rows := rows[k := Apply(rows[k], u)];
          affected := affected + 1;
        }
        k := k + 1;
      }
      assert old(rows)[..k] == old(rows);
    }
  }
}
