/** What the mapping of a legacy payment promises, read off the document's own fields and status words. */
module LegacyMapping {
  import opened Arithmetic
  import opened Wrappers
  import opened LegacyPayments
  import opened Backfill
  import opened BackfillProperties

  const PAID_WORDS := {"succeeded", "paid"}
  const OPEN_WORDS := {"pending", "failed", "unpaid", "expired"}
  const PARTIAL_WORDS := {"partially_paid", "partial"}
  const WAIVED_WORDS := {"waived"}

  /** The status words are compared in lower case. */
  predicate StatusIn(doc: Payment, words: set<string>) {
    Text.Lower(doc.status) in words
  }

  predicate HasKnownStatus(doc: Payment) {
    StatusIn(doc, PAID_WORDS + OPEN_WORDS + PARTIAL_WORDS + WAIVED_WORDS)
  }

  /** The field that says what was received: the first of the two that is there. */
  function Received(doc: Payment): Cell {
    if doc.amountReceived != Null then doc.amountReceived else doc.paidAmount
  }

  /** A field that names no amount, or zero. */
  predicate NamesNothing(c: Cell) {
    c == Null || c == Int(0) || (c.Str? && Text.Strip(c.s) in {"", "0"})
  }

  /** A paid row that does not say how much was received. */
  predicate PaidInFull(doc: Payment) {
    StatusIn(doc, PAID_WORDS) && NamesNothing(Received(doc))
  }

  /** Every figure the mapping has to read can be read. */
  predicate IsReadable(doc: Payment) {
    && IntCents(doc.amount).Ok? && IntCents(doc.discount).Ok? && doc.createdAt.Some?
    && (doc.finalAmount != Null ==> IntCents(doc.finalAmount).Ok?)
    && (PaidInFull(doc) || IntCents(Received(doc)).Ok?)
  }

  /** What the row is billed: its final amount if it has one, else the amount less the discount; never negative. */
  function Billed(doc: Payment): int
    requires IsReadable(doc)
  {
    if doc.finalAmount != Null then Max(IntCents(doc.finalAmount).value, 0)
    else Max(IntCents(doc.amount).value - IntCents(doc.discount).value, 0)
  }

  /** What counts as received for it. */
  function Collected(doc: Payment): int
    requires IsReadable(doc)
  {
    if PaidInFull(doc) then Billed(doc) else Max(IntCents(Received(doc)).value, 0)
  }

  /** Python's reading of one figure. */
  lemma IntCentsMeans(c: Cell, v: int)
    ensures c.Null? || c == Str("") ==> IntCents(c) == Ok(0)
    ensures c.Int? ==> IntCents(c) == Ok(c.n)
    ensures c.Bool? || c.Float? || c.BigDecimal? || c.Other? ==> IntCents(c).Raised?
    ensures c.Str? && c.s != "" ==>
      (IntCents(c) == Ok(v) <==> exists d: string :: d != "" && Decimal.AllDigits(d) && Denotes(Text.Strip(c.s), d, v))
  {
    if c.Str? && c.s != "" {
      NumeralMeans(Text.Strip(c.s), v);
    }
    hide Text.Strip, Denotes, Decimal.Value;
  }

  lemma NumeralMeans(t: string, v: int)
    ensures (exists d: string :: d != "" && Decimal.AllDigits(d) && Denotes(t, d, v)) <==>
      if t != "" && t[0] in {'+', '-'} then
        t[1..] != "" && Decimal.AllDigits(t[1..]) && v == (if t[0] == '-' then -1 else 1) * Decimal.Value(t[1..])
      else t != "" && Decimal.AllDigits(t) && v == Decimal.Value(t)
  {
    hide Decimal.Value;
    if t != "" && t[0] in {'+', '-'} {
      var d := t[1..];
      assert t == [t[0]] + d;
      if d != "" && Decimal.AllDigits(d) && v == (if t[0] == '-' then -1 else 1) * Decimal.Value(d) {
        assert Denotes(t, d, v);
      }
    } else if t != "" && Decimal.AllDigits(t) && v == Decimal.Value(t) {
      assert Denotes(t, t, v);
    }
    forall d: string | d != "" && Decimal.AllDigits(d) && Denotes(t, d, v)
      ensures if t[0] in {'+', '-'} then d == t[1..] else d == t
    {
      assert Decimal.IsDigit(d[0]);
    }
  }

  /** The numeral `t` has the digits `d` and the value `v`. */
  predicate Denotes(t: string, d: string, v: int)
    requires Decimal.AllDigits(d)
  {
    ((t == d || t == "+" + d) && v == Decimal.Value(d)) || (t == "-" + d && v == -(Decimal.Value(d) as int))
  }

  /** Which documents map: known status and readable figures; an unknown status is left out, anything else raises. */
  lemma MapsIff(doc: Payment)
    ensures MapLegacyPayment(doc) == Ok(None) <==> !HasKnownStatus(doc)
    ensures MapLegacyPayment(doc).Ok? && MapLegacyPayment(doc).value.Some? <==> HasKnownStatus(doc) && IsReadable(doc)
    ensures Eligible(doc) <==> HasKnownStatus(doc) && IsReadable(doc) && !Truthy(doc.isDeleted)
  {
    hide IntCents, Text.Lower, Text.Strip, Truthy;
  }

  /** What a document marks as deleted: any value but absent, false, zero and the empty string. */
  lemma TruthyMeans(c: Cell)
    ensures Truthy(c) <==> c !in {Null, Bool(false), Int(0), Str(""), Float(true), BigDecimal(true)}
  {
  }

  /** The header and the line of a mapped row. */
  lemma MappedHeader(doc: Payment)
    requires HasKnownStatus(doc) && IsReadable(doc)
    ensures var (m, final) := (MapLegacyPayment(doc).value.value, doc.finalAmount != Null);
      var (inv, line) := (m.invoice.body, m.line.body);
      && inv.total == Billed(doc)
      && inv.subtotal == line.amount == line.unitAmount == (if final then Billed(doc) else IntCents(doc.amount).value)
      && inv.discount == (if final then 0 else IntCents(doc.discount).value)
      && inv.parent == (if doc.parentId != "" then doc.parentId else doc.parentUserId)
      && inv.createdAt == line.createdAt == doc.createdAt.value
  {
    hide IntCents, Text.Lower, Text.Strip, InvoiceId, LineId, LedgerPaymentId, AllocationId, PaymentId;
  }

  /** The identities of a mapped row, spelled out. */
  lemma MappedIds(doc: Payment)
    requires HasKnownStatus(doc) && IsReadable(doc)
    ensures var m := MapLegacyPayment(doc).value.value;
      var id := if doc.paymentId.StringId? && doc.paymentId.text != "" then doc.paymentId.text else doc.docId;
      && m.invoice.id == "inv-from-" + id && m.invoice.body.backfillPaymentId == id
      && m.line.id == "line-from-" + id && m.line.body.invoiceId == m.invoice.id && m.line.body.sourceId == id
      && (m.payment.Some? ==> m.payment.value.id == "lp-from-" + id)
      && (m.allocation.Some? ==> m.allocation.value.id == "alloc-from-" + id
                                 && m.allocation.value.body.invoiceId == m.invoice.id
                                 && m.allocation.value.body.paymentId == "lp-from-" + id)
      && m.invoice.academy == m.line.academy == doc.academy
  {
    hide IntCents, Text.Lower, Text.Strip;
  }

  /** The money of a mapped row that is not waived. */
  lemma MappedMoney(doc: Payment)
    requires HasKnownStatus(doc) && IsReadable(doc) && !StatusIn(doc, WAIVED_WORDS)
    ensures var m := MapLegacyPayment(doc).value.value;
      var (total, paid) := (Billed(doc), Collected(doc));
      && m.invoice.body.balance == Max(total - paid, 0)
      && m.invoice.body.status == (if total == 0 || paid >= total then Paid
                                   else if paid > 0 || StatusIn(doc, PARTIAL_WORDS) then PartiallyPaid else Open)
      && (m.payment.Some? <==> paid > 0) && (m.allocation.Some? <==> paid > 0)
      && (paid > 0 ==> m.payment.value.body.amount == paid && m.payment.value.body.unapplied == Max(paid - total, 0)
                       && m.payment.value.body.succeeded && m.allocation.value.body.amount == Min(paid, total)
                       && m.payment.value.body.parent == m.invoice.body.parent)
  {
    hide IntCents, Text.Lower, Text.Strip, InvoiceId, LineId, LedgerPaymentId, AllocationId, PaymentId;
  }

  /** A waived row owes nothing and was paid by nobody. */
  lemma WaivedRowIsVoid(doc: Payment)
    requires IsReadable(doc) && Text.Lower(doc.status) == "waived"
    ensures var m := MapLegacyPayment(doc).value.value;
      m.invoice.body.status == Void && m.invoice.body.balance == 0 && m.payment.None? && m.allocation.None?
  {
    hide IntCents, Text.Lower, Text.Strip;
  }

  /** An open row without a figure owes its whole total, and no payment is booked for it. */
  lemma OpenRowOwesItsTotal(doc: Payment)
    requires IsReadable(doc) && Text.Lower(doc.status) in {"pending", "failed", "unpaid", "expired"}
    requires doc.amountReceived == Null && doc.paidAmount == Null
    ensures var m := MapLegacyPayment(doc).value.value;
      && m.invoice.body.balance == m.invoice.body.total == Billed(doc)
      && m.invoice.body.status == (if Billed(doc) == 0 then Paid else Open)
      && m.payment.None? && m.allocation.None?
  {
    MappedMoney(doc);
    MappedHeader(doc);
    hide MapLegacyPayment, Text.Lower, Text.Strip;
  }

  /** A paid row without a figure is settled in full. */
  lemma PaidRowIsSettled(doc: Payment)
    requires IsReadable(doc) && Text.Lower(doc.status) in {"succeeded", "paid"} && NamesNothing(Received(doc))
    ensures var m := MapLegacyPayment(doc).value.value;
      && m.invoice.body.balance == 0 && m.invoice.body.status == Paid
      && (Billed(doc) > 0 ==> m.payment.Some? && m.payment.value.body.amount == m.allocation.value.body.amount == Billed(doc))
  {
    MappedMoney(doc);
    hide MapLegacyPayment, IntCents, Text.Lower, Text.Strip;
  }

  /** A partial row keeps what is left of its total, and is never reopened. */
  lemma PartialRowKeepsTheRest(doc: Payment)
    requires IsReadable(doc) && Text.Lower(doc.status) in {"partially_paid", "partial"}
    ensures var (m, paid) := (MapLegacyPayment(doc).value.value, Max(IntCents(Received(doc)).value, 0));
      && m.invoice.body.balance == Max(Billed(doc) - paid, 0)
      && m.invoice.body.status == if Billed(doc) == 0 || paid >= Billed(doc) then Paid else PartiallyPaid
  {
    MappedMoney(doc);
    hide MapLegacyPayment, IntCents, Text.Lower, Text.Strip;
  }

  // ----- what a run looks at and reports -----

  /** A run looks at the academy's rows that have neither of the two ledger fields. */
  lemma RunLooksAt(payments: seq<Payment>, academy: string, doc: Payment)
    ensures doc in LegacyRows(payments, academy) <==>
      doc in payments && doc.academy == academy && !doc.hasIdempotencyKey && !doc.hasUnapplied
  {
    LegacyRowsMembers(payments, academy, doc);
    hide LegacyRows;
  }

  /** Where one more row is counted. */
  lemma CountedWhere(l: Ledger, docs: seq<Payment>, doc: Payment)
    ensures var (c, d) := (Counted(l, docs), Counted(l, docs + [doc]));
      && d.deleted == c.deleted + (if Truthy(doc.isDeleted) then 1 else 0)
      && d.unknown == c.unknown + (if !Truthy(doc.isDeleted) && !HasKnownStatus(doc) then 1 else 0)
      && d.errors == c.errors + (if !Truthy(doc.isDeleted) && HasKnownStatus(doc) && !IsReadable(doc) then 1 else 0)
      && d.mapped == c.mapped + (if !Truthy(doc.isDeleted) && HasKnownStatus(doc) && IsReadable(doc) then 1 else 0)
  {
    assert (docs + [doc])[..|docs|] == docs;
    MapsIff(doc);
    hide Truthy, HasKnownStatus, IsReadable, AllPresent, MapLegacyPayment, FiguresOf;
  }

  /** The parent a row is reconciled under. */
  lemma GroupedUnder(doc: Payment)
    ensures ParentKey(doc)
         == if doc.parentId != "" then doc.parentId else if doc.parentUserId != "" then doc.parentUserId else "unknown"
  {
  }

  /** What reconciliation expects a mapped row to owe: its invoice's balance if it is open or partial, else nothing. */
  lemma OwedMeans(doc: Payment)
    requires Eligible(doc)
    ensures OwedByLegacy(doc)
         == if StatusIn(doc, OPEN_WORDS + PARTIAL_WORDS) then Max(Billed(doc) - Collected(doc), 0) else 0
  {
    MapsIff(doc);
    hide IntCents, Text.Lower, Text.Strip, Truthy;
  }
}
