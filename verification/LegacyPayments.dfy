/** Legacy `payments` documents and the ledger rows one of them becomes. */
module LegacyPayments {
  import opened Arithmetic
  import opened Wrappers
  import opened Collections
  import Decimal
  import Text

  /** A loosely typed document value; an absent field and a null read the same. */
  datatype Cell = Null | Bool(b: bool) | Int(n: int) | Float(isZero: bool) | BigDecimal(isZero: bool) | Str(s: string) | Other

  /** The `payment_id` field of a document: absent, null or a string, which may be blank. */
  datatype IdField = NoId | NullId | StringId(text: string)

  /** `None` for `createdAt` means the document has no such field. */
  datatype Payment = Payment(
    academy: string, docId: string, paymentId: IdField,
    hasIdempotencyKey: bool, hasUnapplied: bool, isDeleted: Cell,
    status: string, parentId: string, parentUserId: string,
    amount: Cell, discount: Cell, finalAmount: Cell, amountReceived: Cell, paidAmount: Cell,
    createdAt: Option<int>)

  datatype Kind = PaidKind | OpenKind | PartialKind | VoidKind | UnknownKind

  /** The backfill writes four of them; `OtherStatus` is any further one the ledger may hold. */
  datatype InvoiceStatus = Void | Waived | Cancelled | Paid | PartiallyPaid | Open | OtherStatus

  datatype Invoice = Invoice(
    parent: string, status: InvoiceStatus, subtotal: int, discount: int, total: int, balance: int,
    createdAt: int, backfillPaymentId: string)

  datatype Line = Line(invoiceId: string, unitAmount: int, amount: int, sourceId: string, createdAt: int)

  datatype LedgerPayment = LedgerPayment(parent: string, amount: int, unapplied: int, succeeded: bool, createdAt: int)

  datatype Allocation = Allocation(paymentId: string, invoiceId: string, amount: int, createdAt: int)

  datatype Mapped = Mapped(
    invoice: Row<Invoice>, line: Row<Line>, payment: Option<Row<LedgerPayment>>, allocation: Option<Row<Allocation>>)

  predicate Truthy(c: Cell) {
    match c
    case Null => false
    case Bool(b) => b
    case Int(n) => n != 0
    case Str(s) => s != ""
    case Float(zero) => !zero
    case BigDecimal(zero) => !zero
    case Other => true
  }

  /** `_int_cents`. */
  function IntCents(c: Cell): Result<int> {
    match c
    case Null => Ok(0)
    case Int(n) => Ok(n)
    case Str(s) =>
      if s == "" then Ok(0) else
      var trimmed := Text.Strip(s);
      if trimmed == "" then Raised
      else if trimmed[0] in {'+', '-'} then
        var digits := trimmed[1..];
        if digits == "" || !Decimal.AllDigits(digits) then Raised
        else
          var n: int := Decimal.Value(digits);
          Ok(if trimmed[0] == '-' then -n else n)
      else if Decimal.AllDigits(trimmed) then Ok(Decimal.Value(trimmed))
      else Raised
    case _ => Raised
  }

  /** The status groups, on the lower-cased status. */
  function KindOf(status: string): Kind {
    var s := Text.Lower(status);
    if s in {"succeeded", "paid"} then PaidKind
    else if s in {"pending", "failed", "unpaid", "expired"} then OpenKind
    else if s in {"partially_paid", "partial"} then PartialKind
    else if s == "waived" then VoidKind
    else UnknownKind
  }

  function PaymentId(doc: Payment): string {
    if doc.paymentId.StringId? && doc.paymentId.text != "" then doc.paymentId.text else doc.docId
  }

  /** The empty string stands for a missing parent. */
  function ParentId(doc: Payment): string {
    if doc.parentId != "" then doc.parentId else doc.parentUserId
  }

  predicate IsLegacy(doc: Payment) {
    !doc.hasIdempotencyKey && !doc.hasUnapplied
  }

  /** `_legacy_total_cents`. */
  function TotalCents(doc: Payment): Result<int> {
    if doc.finalAmount != Null then
      var final :- IntCents(doc.finalAmount);
      Ok(Max(final, 0))
    else
      var amount :- IntCents(doc.amount);
      var discount :- IntCents(doc.discount);
      Ok(Max(amount - discount, 0))
  }

  /** `_legacy_paid_cents`: a paid status with no usable figure counts as paid in full. */
  function PaidCents(doc: Payment, total: int, kind: Kind): Result<int> {
    var explicit := if doc.amountReceived == Null then doc.paidAmount else doc.amountReceived;
    if kind.PaidKind? && (
         || explicit == Null
         || (explicit.Str? && Text.Strip(explicit.s) in {"", "0"})
         || explicit == Int(0)) then Ok(total)
    else
      var paid :- IntCents(explicit);
      Ok(Max(paid, 0))
  }

  function InvoiceStatusOf(kind: Kind, total: int, paid: int): InvoiceStatus {
    if kind.VoidKind? then Void
    else if total == 0 || paid >= total then Paid
    else if paid > 0 || kind.PartialKind? then PartiallyPaid
    else Open
  }

  /** The amounts a row's mapping works with. */
  datatype Figures = Figures(amount: int, discount: int, total: int, paid: int, createdAt: int)

  function FiguresOf(doc: Payment): Result<Figures> {
    var amount :- IntCents(doc.amount);
    var discount :- IntCents(doc.discount);
    var total :- TotalCents(doc);
    var paid :- PaidCents(doc, total, KindOf(doc.status));
    if doc.createdAt.None? then Raised else Ok(Figures(amount, discount, total, paid, doc.createdAt.value))
  }

  function InvoiceId(paymentId: string): string {
    "inv-from-" + paymentId
  }

  function LineId(paymentId: string): string {
    "line-from-" + paymentId
  }

  function LedgerPaymentId(paymentId: string): string {
    "lp-from-" + paymentId
  }

  function AllocationId(paymentId: string): string {
    "alloc-from-" + paymentId
  }

  lemma IdsAreInjective(p: string, q: string)
    ensures InvoiceId(p) == InvoiceId(q) ==> p == q
    ensures LineId(p) == LineId(q) ==> p == q
    ensures LedgerPaymentId(p) == LedgerPaymentId(q) ==> p == q
    ensures AllocationId(p) == AllocationId(q) ==> p == q
  {
    assert InvoiceId(p)[9..] == p && InvoiceId(q)[9..] == q;
    assert LineId(p)[10..] == p && LineId(q)[10..] == q;
    assert LedgerPaymentId(p)[8..] == p && LedgerPaymentId(q)[8..] == q;
    assert AllocationId(p)[11..] == p && AllocationId(q)[11..] == q;
  }

  /** `map_legacy_payment`: raises on a bad figure or a missing creation time, `None` for an unknown status. */
  function MapLegacyPayment(doc: Payment): Result<Option<Mapped>> {
    var kind := KindOf(doc.status);
    if kind.UnknownKind? then Ok(None) else
    var f :- FiguresOf(doc);
    var (id, parent) := (PaymentId(doc), ParentId(doc));
    var hasFinal := doc.finalAmount != Null;
    var subtotal := if hasFinal then f.total else f.amount;
    var invoice := Row(doc.academy, InvoiceId(id), Invoice(
      parent, InvoiceStatusOf(kind, f.total, f.paid), subtotal, if hasFinal then 0 else f.discount, f.total,
      if kind.VoidKind? then 0 else Max(f.total - f.paid, 0), f.createdAt, id));
    var line := Row(doc.academy, LineId(id), Line(InvoiceId(id), subtotal, subtotal, id, f.createdAt));
    if f.paid > 0 && !kind.VoidKind? then
      var applied := Min(f.paid, f.total);
      Ok(Some(Mapped(invoice, line,
        Some(Row(doc.academy, LedgerPaymentId(id),
                 LedgerPayment(parent, f.paid, Max(f.paid - applied, 0), true, f.createdAt))),
        Some(Row(doc.academy, AllocationId(id), Allocation(LedgerPaymentId(id), InvoiceId(id), applied, f.createdAt))))))
    else
      Ok(Some(Mapped(invoice, line, None, None)))
  }

  /** A row the backfill maps: not soft-deleted, known status, no mapping error. */
  predicate Eligible(doc: Payment) {
    !Truthy(doc.isDeleted) && !KindOf(doc.status).UnknownKind? && FiguresOf(doc).Ok?
  }

  function MappedOf(doc: Payment): Mapped
    requires Eligible(doc)
  {
    MapLegacyPayment(doc).value.value
  }

  /** The money of one mapped row: what the invoice bills, what was received and where it went. */
  ghost predicate Balanced(m: Mapped) {
    var inv := m.invoice.body;
    && m.line.body.amount == inv.subtotal
    && (m.payment.Some? <==> m.allocation.Some?)
    && (m.payment.Some? ==> var (lp, al) := (m.payment.value.body, m.allocation.value.body);
          && lp.amount == al.amount + lp.unapplied && lp.unapplied >= 0 && lp.amount > 0 && al.amount <= inv.total
          && (inv.status != Void ==> inv.balance == inv.total - al.amount))
    && (m.payment.None? && inv.status != Void ==> inv.balance == inv.total)
    && (inv.status == Paid <==> inv.status != Void && inv.balance == 0)
    && 0 <= inv.balance <= inv.total
  }

  lemma MappedIsBalanced(doc: Payment)
    requires Eligible(doc)
    ensures Balanced(MappedOf(doc))
  {
    hide IntCents, KindOf, Text.Strip;
  }

  /** The identities of one mapped row. */
  ghost predicate Linked(m: Mapped, academy: string, id: string) {
    && m.invoice.academy == m.line.academy == academy
    && m.invoice.id == InvoiceId(id) && m.invoice.body.backfillPaymentId == id
    && m.line.id == LineId(id) && m.line.body.invoiceId == InvoiceId(id)
    && (m.payment.Some? ==> m.payment.value.academy == academy && m.payment.value.id == LedgerPaymentId(id)
                            && m.payment.value.body.succeeded)
    && (m.allocation.Some? ==> m.allocation.value.academy == academy && m.allocation.value.id == AllocationId(id)
                               && m.allocation.value.body.invoiceId == InvoiceId(id)
                               && m.allocation.value.body.paymentId == LedgerPaymentId(id))
  }

  lemma MappedIsLinked(doc: Payment)
    requires Eligible(doc)
    ensures Linked(MappedOf(doc), doc.academy, PaymentId(doc))
  {
    hide FiguresOf, KindOf, InvoiceId, LineId, LedgerPaymentId, AllocationId, PaymentId, ParentId;
  }

  /** A negative discount on a zero amount with no final amount: the one shape whose header the audit rejects. */
  predicate NegativeDiscountOnNothing(doc: Payment) {
    && doc.finalAmount == Null
    && IntCents(doc.amount) == Ok(0)
    && IntCents(doc.discount).Ok? && IntCents(doc.discount).value < 0
  }

  /** The header arithmetic the audit recomputes; a zero subtotal reads as the total there. */
  lemma HeaderAgreesIff(doc: Payment)
    requires Eligible(doc)
    ensures var inv := MappedOf(doc).invoice.body;
      var subtotal := if inv.subtotal == 0 then inv.total else inv.subtotal;
      && inv.total == Max(inv.subtotal - inv.discount, 0)
      && (inv.total == Max(subtotal - inv.discount, 0) <==> !NegativeDiscountOnNothing(doc))
      && (inv.subtotal != 0 ==> inv.subtotal == subtotal)
  {
    hide IntCents, KindOf, Text.Strip, PaidCents;
  }
}
