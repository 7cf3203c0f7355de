/** The payment-method labels shown on orders: a free-text method is mapped
    to one of the canonical labels "NETS QR", "NETS", "PayNow" and "PayPal",
    and a missing method is inferred from the payment record. */
module PaymentMethod {
  import opened Common

  /** `normalizePaymentMethod(value)`; a missing value is `None`. */
  function Normalize(value: Option<string>): (r: string)
    ensures !Truthy(value) ==> r == ""
    ensures Truthy(value) && Trim(value.value) == "" ==> r == ""
  {
    if !Truthy(value) then ""
    else
      var raw := Trim(value.value);
      if raw == "" then "" else Classify(raw)
  }

  /** The keyword ladder on the trimmed text `raw`. */
  function Classify(raw: string): string {
    var upper := Upper(raw);
    if Contains(upper, "NETS") && Contains(upper, "QR") then "NETS QR"
    else if Contains(upper, "NETS") then "NETS"
    else if Contains(upper, "PAYNOW") then "PayNow"
    else if Contains(upper, "PAYPAL") then "PayPal"
    else raw
  }

  /** The canonical labels. */
  predicate IsLabel(s: string) {
    s == "NETS QR" || s == "NETS" || s == "PayNow" || s == "PayPal"
  }

  /** None of the keywords occurs in the upper-cased text. */
  predicate KeywordFree(s: string) {
    !Contains(Upper(s), "NETS") && !Contains(Upper(s), "PAYNOW") && !Contains(Upper(s), "PAYPAL")
  }

  /** The keyword ladder, in its priority order: NETS with QR, NETS,
      PAYNOW, PAYPAL, and otherwise the trimmed text unchanged. */
  lemma NormalizeLadder(s: string)
    requires Trim(s) != ""
    ensures var u := Upper(Trim(s)); var r := Normalize(Some(s));
      (Contains(u, "NETS") && Contains(u, "QR") ==> r == "NETS QR") &&
      (Contains(u, "NETS") && !Contains(u, "QR") ==> r == "NETS") &&
      (!Contains(u, "NETS") && Contains(u, "PAYNOW") ==> r == "PayNow") &&
      (!Contains(u, "NETS") && !Contains(u, "PAYNOW") && Contains(u, "PAYPAL") ==> r == "PayPal") &&
      (KeywordFree(Trim(s)) ==> r == Trim(s))
  {
  }

  /** The result is empty, a canonical label, or the trimmed text when that
      holds no keyword. */
  lemma NormalizeRange(value: Option<string>)
    ensures var r := Normalize(value);
      r == "" || IsLabel(r) || (Truthy(value) && r == Trim(value.value) && KeywordFree(r))
  {
  }

  /** `p` does not occur in `s` when one of its characters never does. */
  lemma NotContainsMissing(s: string, p: string, j: nat)
    requires j < |p| && forall i :: 0 <= i < |s| ==> s[i] != p[j]
    ensures !Contains(s, p)
  {
    forall k: nat
      ensures !OccursAt(s, p, k)
    {
      if k + |p| <= |s| {
        assert s[k..k + |p|][j] == s[k + j];
      }
    }
    ContainsIff(s, p);
  }

  lemma UpperOfUpper(s: string)
    requires forall i :: 0 <= i < |s| ==> !('a' <= s[i] <= 'z')
    ensures Upper(s) == s
  {
  }

  /** A label has no surrounding whitespace. */
  lemma TrimLabel(s: string)
    requires IsLabel(s)
    ensures Trim(s) == s
  {
    TrimOfTrimmed(s);
  }

  /** Text without surrounding whitespace goes straight to the ladder. */
  lemma NormalizeOfTrimmed(s: string)
    requires s != "" && Trim(s) == s
    ensures Normalize(Some(s)) == Classify(s)
  {
  }

  // The ladder keeps each label. The labels are passed as parameters so
  // that the recursive definitions are not unrolled on literals.

  lemma NetsQrClassified(s: string)
    requires s == "NETS QR"
    ensures Classify(s) == s
  {
    UpperOfUpper(s);
    ContainsAt(s, "NETS", 0);
    ContainsAt(s, "QR", 5);
  }

  lemma NetsClassified(s: string)
    requires s == "NETS"
    ensures Classify(s) == s
  {
    UpperOfUpper(s);
    ContainsAt(s, "NETS", 0);
    NotContainsMissing(s, "QR", 0);
  }

  lemma PayNowClassified(s: string, u: string)
    requires s == "PayNow" && u == "PAYNOW"
    ensures Classify(s) == s
  {
    assert Upper(s) == u;
    NotContainsMissing(u, "NETS", 1);
    ContainsAt(u, "PAYNOW", 0);
  }

  lemma PayPalClassified(s: string, u: string)
    requires s == "PayPal" && u == "PAYPAL"
    ensures Classify(s) == s
  {
    assert Upper(s) == u;
    NotContainsMissing(u, "NETS", 1);
    NotContainsMissing(u, "PAYNOW", 4);
    ContainsAt(u, "PAYPAL", 0);
  }

  /** Each label normalises to itself. */
  lemma LabelFixed(s: string)
    requires IsLabel(s)
    ensures Normalize(Some(s)) == s
  {
    TrimLabel(s);
    NormalizeOfTrimmed(s);
    if s == "NETS QR" {
      NetsQrClassified(s);
    } else if s == "NETS" {
      NetsClassified(s);
    } else if s == "PayNow" {
      PayNowClassified(s, "PAYNOW");
    } else {
      PayPalClassified(s, "PAYPAL");
    }
  }

  /** Normalising twice is normalising once. */
  lemma NormalizeIdempotent(value: Option<string>)
    ensures Normalize(Some(Normalize(value))) == Normalize(value)
  {
    var r := Normalize(value);
    NormalizeRange(value);
    if IsLabel(r) {
      LabelFixed(r);
    } else if r != "" {
      TrimIdempotent(value.value);
    }
  }

  // ---------------------------------------------------------------------
  // Inferring the method of an order
  // ---------------------------------------------------------------------

  /** The fields of an order row that are read. */
  datatype OrderRef = OrderRef(paymentMethod: Option<string>, status: Option<string>)

  /** The fields of a payment record that are read. */
  datatype TxnRef = TxnRef(payerId: Option<string>, payerEmail: Option<string>, captureId: Option<string>)

  /** The trimmed payer id, or "" without one. */
  function PayerId(transaction: Option<TxnRef>): string {
    if transaction.Some? && Truthy(transaction.value.payerId) then Trim(transaction.value.payerId.value) else ""
  }

  /** `resolvePaymentMethod({ order, transaction })`. */
  function Resolve(order: Option<OrderRef>, transaction: Option<TxnRef>): (r: string)
    ensures order.Some? && Normalize(order.value.paymentMethod) != "" ==> r == Normalize(order.value.paymentMethod)
  {
    var direct := Normalize(if order.Some? then order.value.paymentMethod else None);
    if direct != "" then direct
    else
      var payerId := PayerId(transaction);
      var payerUpper := Upper(payerId);
      if Contains(payerUpper, "NETS") then "NETS"
      else if Contains(payerUpper, "PAYNOW") then "PayNow"
      else if payerId != "" || (transaction.Some? && (Truthy(transaction.value.payerEmail) || Truthy(transaction.value.captureId))) then "PayPal"
      else if order.Some? && (order.value.status == Some("paid") || order.value.status == Some("refunded")) then "PayPal"
      else ""
  }

  /** Without a usable recorded method: a payer id naming NETS or PayNow
      decides, then any PayPal trace (payer id, payer e-mail or capture id),
      then a paid or refunded status; otherwise nothing is known. */
  lemma ResolveFallback(order: Option<OrderRef>, transaction: Option<TxnRef>)
    requires order.None? || Normalize(order.value.paymentMethod) == ""
    ensures var r := Resolve(order, transaction); var u := Upper(PayerId(transaction));
      (Contains(u, "NETS") ==> r == "NETS") &&
      (!Contains(u, "NETS") && Contains(u, "PAYNOW") ==> r == "PayNow") &&
      (r == "" <==> (PayerId(transaction) == "" &&
                     (transaction.None? || (!Truthy(transaction.value.payerEmail) && !Truthy(transaction.value.captureId))) &&
                     (order.None? || (order.value.status != Some("paid") && order.value.status != Some("refunded")))))
  {
    if PayerId(transaction) == "" {
      NotContainsMissing(Upper(""), "NETS", 0);
      NotContainsMissing(Upper(""), "PAYNOW", 0);
    }
  }

  /** The inferred method is always already normalised. */
  lemma ResolveNormalized(order: Option<OrderRef>, transaction: Option<TxnRef>)
    ensures Normalize(Some(Resolve(order, transaction))) == Resolve(order, transaction)
  {
    var direct := Normalize(if order.Some? then order.value.paymentMethod else None);
    if direct != "" {
      NormalizeIdempotent(if order.Some? then order.value.paymentMethod else None);
    } else if Resolve(order, transaction) != "" {
      LabelFixed(Resolve(order, transaction));
    }
  }
}
