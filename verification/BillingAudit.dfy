/**
 * The billing-consistency audit: header, line, balance and allocation sums of the ledger, recomputed, then the credits
 * against the projection of their applications.
 */
module BillingAudit {
  import opened Arithmetic
  import opened AuditReport
  import opened Collections
  import opened CreditAudit
  import opened LegacyPayments
  import opened Backfill

  /** One amount filed under a reference: a line or allocation under its invoice, a credit under what it came from. */
  datatype Entry = Entry(academy: string, ref: string, amount: int)

  /** What the audit reads: the ledger, the account credits and the projection of their applications. */
  datatype Books = Books(ledger: Ledger, credits: seq<Credit>, applications: seq<Projected>)

  /** The audit's answer; it passes exactly with an empty list. */
  datatype Audited = Audited(passed: bool, invoices: nat, payments: nat, credits: nat, failures: seq<Failure>)

  function LineEntries(lines: seq<Row<Line>>): seq<Entry> {
    if lines == [] then [] else
    var r := lines[|lines| - 1];
    LineEntries(lines[..|lines| - 1]) + [Entry(r.academy, r.body.invoiceId, r.body.amount)]
  }

  function AllocationsByInvoice(allocations: seq<Row<Allocation>>): seq<Entry> {
    if allocations == [] then [] else
    var r := allocations[|allocations| - 1];
    AllocationsByInvoice(allocations[..|allocations| - 1]) + [Entry(r.academy, r.body.invoiceId, r.body.amount)]
  }

  function AllocationsByPayment(allocations: seq<Row<Allocation>>): seq<Entry> {
    if allocations == [] then [] else
    var r := allocations[|allocations| - 1];
    AllocationsByPayment(allocations[..|allocations| - 1]) + [Entry(r.academy, r.body.paymentId, r.body.amount)]
  }

  function ApplicationsByInvoice(rows: seq<Projected>): seq<Entry> {
    if rows == [] then [] else
    var r := rows[|rows| - 1];
    ApplicationsByInvoice(rows[..|rows| - 1]) + [Entry(r.academy, r.pair.invoiceId, r.amount)]
  }

  /** The credits that came from an overpaid allocation, under that allocation. */
  function OverpaymentsBySource(credits: seq<Credit>): seq<Entry> {
    if credits == [] then [] else
    var c := credits[|credits| - 1];
    OverpaymentsBySource(credits[..|credits| - 1]) + if c.overpayment then [Entry(c.academy, c.sourceId, c.amount)] else []
  }

  function SumOf(entries: seq<Entry>, academy: string, refs: set<string>): int {
    if entries == [] then 0 else
    var e := entries[|entries| - 1];
    SumOf(entries[..|entries| - 1], academy, refs) + if e.academy == academy && e.ref in refs then e.amount else 0
  }

  /** The allocation ids of one payment; blank ids are dropped. */
  function AllocationIdsOf(allocations: seq<Row<Allocation>>, academy: string, paymentId: string): set<string> {
    set r | r in allocations && r.academy == academy && r.body.paymentId == paymentId && r.id != "" :: r.id
  }

  /** Invoices whose balance is nobody's debt any more. */
  predicate IsExempt(status: InvoiceStatus) {
    status in {Void, Waived, Cancelled}
  }

  function InvoiceFailures(b: Books, inv: Row<Invoice>): seq<Failure> {
    var (academy, id, i) := (inv.academy, inv.id, inv.body);
    var subtotal := if i.subtotal == 0 then i.total else i.subtotal;
    var lineSum := SumOf(LineEntries(b.ledger.lines), academy, {id});
    var applied := SumOf(AllocationsByInvoice(b.ledger.allocations), academy, {id});
    var credited := SumOf(ApplicationsByInvoice(b.applications), academy, {id});
    var expected := Max(i.total - applied - credited, 0);
    (if lineSum != 0 && lineSum != subtotal then [InvoiceLineTotalMismatch(id, lineSum, subtotal)] else []) +
    (if i.total != Max(subtotal - i.discount, 0) then [InvoiceTotalMismatch(id, subtotal, i.discount, i.total)] else []) +
    (if !IsExempt(i.status) && i.balance != expected then [InvoiceBalanceMismatch(id, i.balance, expected)] else []) +
    (if i.status == Paid && i.balance != 0 then [PaidInvoiceHasBalance(id, i.balance)] else [])
  }

  function PaymentFailures(b: Books, p: Row<LedgerPayment>): seq<Failure> {
    if !p.body.succeeded then [] else
    var applied := SumOf(AllocationsByPayment(b.ledger.allocations), p.academy, {p.id});
    var credited := SumOf(OverpaymentsBySource(b.credits), p.academy, AllocationIdsOf(b.ledger.allocations, p.academy, p.id));
    if applied + credited + p.body.unapplied != p.body.amount
    then [PaymentAllocationMismatch(p.id, p.body.amount, applied, credited, p.body.unapplied)] else []
  }

  function AllInvoiceFailures(b: Books, invoices: seq<Row<Invoice>>, academy: string): seq<Failure> {
    if invoices == [] then [] else
    var inv := invoices[|invoices| - 1];
    AllInvoiceFailures(b, invoices[..|invoices| - 1], academy) + if inv.academy == academy then InvoiceFailures(b, inv) else []
  }

  function AllPaymentFailures(b: Books, payments: seq<Row<LedgerPayment>>, academy: string): seq<Failure> {
    if payments == [] then [] else
    var p := payments[|payments| - 1];
    AllPaymentFailures(b, payments[..|payments| - 1], academy) + if p.academy == academy then PaymentFailures(b, p) else []
  }

  function AllFailures(b: Books, academy: string): seq<Failure> {
    AllInvoiceFailures(b, b.ledger.invoices, academy) + AllPaymentFailures(b, b.ledger.payments, academy)
    + AllCreditFailures(b.credits, b.applications, academy)
  }

  function CountRows<T>(rows: seq<Row<T>>, academy: string): nat {
    if rows == [] then 0 else CountRows(rows[..|rows| - 1], academy) + if rows[|rows| - 1].academy == academy then 1 else 0
  }

  function AuditOf(b: Books, academy: string): Audited {
    var failures := Capped(AllFailures(b, academy));
    Audited(failures == [], CountRows(b.ledger.invoices, academy), CountRows(b.ledger.payments, academy),
            CreditAudit.CountOf(b.credits, academy), failures)
  }

  // ----- the source's mutable form -----

  /** `_sum_collection_amount`. */
  method SumCollectionAmount(entries: seq<Entry>, academy: string, refs: set<string>) returns (total: int)
    ensures total == SumOf(entries, academy, refs)
  {
    total := 0;
    for i := 0 to |entries|
      invariant total == SumOf(entries[..i], academy, refs)
    {
      assert entries[..i + 1][..i] == entries[..i];
      if entries[i].academy == academy && entries[i].ref in refs {
        total := total + entries[i].amount;
      }
    }
    assert entries[..|entries|] == entries;
  }

  method AuditInvoice(b: Books, inv: Row<Invoice>, report: FailureList)
    requires report.Valid()
    modifies report
    ensures report.Valid() && report.reported == old(report.reported) + InvoiceFailures(b, inv)
  {
    hide SumOf, LineEntries, AllocationsByInvoice, ApplicationsByInvoice, Max, Capped;
    var (academy, id, i) := (inv.academy, inv.id, inv.body);
    var subtotal := if i.subtotal == 0 then i.total else i.subtotal;
    var lineSum := SumCollectionAmount(LineEntries(b.ledger.lines), academy, {id});
    var applied := SumCollectionAmount(AllocationsByInvoice(b.ledger.allocations), academy, {id});
    var credited := SumCollectionAmount(ApplicationsByInvoice(b.applications), academy, {id});
    ghost var before := report.reported;
    Check(report, lineSum != 0 && lineSum != subtotal, InvoiceLineTotalMismatch(id, lineSum, subtotal));
    Check(report, i.total != Max(subtotal - i.discount, 0), InvoiceTotalMismatch(id, subtotal, i.discount, i.total));
    var expected := Max(i.total - applied - credited, 0);
    Check(report, !IsExempt(i.status) && i.balance != expected, InvoiceBalanceMismatch(id, i.balance, expected));
    Check(report, i.status == Paid && i.balance != 0, PaidInvoiceHasBalance(id, i.balance));
    CheckOrder(before,
               if lineSum != 0 && lineSum != subtotal then [InvoiceLineTotalMismatch(id, lineSum, subtotal)] else [],
               if i.total != Max(subtotal - i.discount, 0) then [InvoiceTotalMismatch(id, subtotal, i.discount, i.total)] else [],
               if !IsExempt(i.status) && i.balance != expected then [InvoiceBalanceMismatch(id, i.balance, expected)] else [],
               if i.status == Paid && i.balance != 0 then [PaidInvoiceHasBalance(id, i.balance)] else []);
  }

  lemma CheckOrder(before: seq<Failure>, a: seq<Failure>, b: seq<Failure>, c: seq<Failure>, d: seq<Failure>)
    ensures before + a + b + c + d == before + (a + b + c + d)
  {
  }

  method AuditPayment(b: Books, p: Row<LedgerPayment>, report: FailureList)
    requires report.Valid()
    modifies report
    ensures report.Valid() && report.reported == old(report.reported) + PaymentFailures(b, p)
  {
    if !p.body.succeeded {
      return;
    }
    var applied, ids := AllocatedFrom(b.ledger.allocations, p.academy, p.id);
    var credited := 0;
    if ids != {} {
      credited := SumCollectionAmount(OverpaymentsBySource(b.credits), p.academy, ids);
    } else {
      SumOverNothing(OverpaymentsBySource(b.credits), p.academy);
    }
    if applied + credited + p.body.unapplied != p.body.amount {
      report.Append(PaymentAllocationMismatch(p.id, p.body.amount, applied, credited, p.body.unapplied));
    }
  }

  lemma {:induction false} SumOverNothing(entries: seq<Entry>, academy: string)
    ensures SumOf(entries, academy, {}) == 0
  {
    if entries != [] {
      SumOverNothing(entries[..|entries| - 1], academy);
    }
  }

  method AllocatedFrom(allocations: seq<Row<Allocation>>, academy: string, paymentId: string) returns (total: int, ids: set<string>)
    ensures total == SumOf(AllocationsByPayment(allocations), academy, {paymentId})
    ensures ids == AllocationIdsOf(allocations, academy, paymentId)
  {
    hide AllocationIdsOf;
    NoAllocations(academy, paymentId);
    total, ids := 0, {};
    for i := 0 to |allocations|
      invariant total == SumOf(AllocationsByPayment(allocations[..i]), academy, {paymentId})
      invariant ids == AllocationIdsOf(allocations[..i], academy, paymentId)
    {
      var a := allocations[i];
      assert allocations[..i + 1] == allocations[..i] + [a];
      AllocationStep(allocations[..i], a, academy, paymentId);
      if a.academy == academy && a.body.paymentId == paymentId {
        total := total + a.body.amount;
        if a.id != "" {
          ids := ids + {a.id};
        }
      }
    }
    assert allocations[..|allocations|] == allocations;
  }

  lemma NoAllocations(academy: string, paymentId: string)
    ensures SumOf(AllocationsByPayment([]), academy, {paymentId}) == 0 && AllocationIdsOf([], academy, paymentId) == {}
  {
  }

  lemma AllocationStep(before: seq<Row<Allocation>>, a: Row<Allocation>, academy: string, paymentId: string)
    ensures SumOf(AllocationsByPayment(before + [a]), academy, {paymentId}) == SumOf(AllocationsByPayment(before), academy, {paymentId})
         + if a.academy == academy && a.body.paymentId == paymentId then a.body.amount else 0
    ensures AllocationIdsOf(before + [a], academy, paymentId) == AllocationIdsOf(before, academy, paymentId)
         + if a.academy == academy && a.body.paymentId == paymentId && a.id != "" then {a.id} else {}
  {
    var entries := AllocationsByPayment(before);
    assert (before + [a])[..|before|] == before;
    assert (entries + [Entry(a.academy, a.body.paymentId, a.body.amount)])[..|entries|] == entries;
  }

  method AuditInvoices(b: Books, academy: string, report: FailureList) returns (count: nat)
    requires report.Valid()
    modifies report
    ensures report.Valid() && report.reported == old(report.reported) + AllInvoiceFailures(b, b.ledger.invoices, academy)
    ensures count == CountRows(b.ledger.invoices, academy)
  {
    hide InvoiceFailures, Capped;
    var invoices := b.ledger.invoices;
    ghost var before := report.reported;
    count := 0;
    for i := 0 to |invoices|
      invariant report.Valid() && report.reported == before + AllInvoiceFailures(b, invoices[..i], academy)
      invariant count == CountRows(invoices[..i], academy)
    {
      assert invoices[..i + 1][..i] == invoices[..i];
      if invoices[i].academy == academy {
        count := count + 1;
        AuditInvoice(b, invoices[i], report);
      }
    }
    assert invoices[..|invoices|] == invoices;
  }

  method AuditPayments(b: Books, academy: string, report: FailureList) returns (count: nat)
    requires report.Valid()
    modifies report
    ensures report.Valid() && report.reported == old(report.reported) + AllPaymentFailures(b, b.ledger.payments, academy)
    ensures count == CountRows(b.ledger.payments, academy)
  {
    hide PaymentFailures, Capped;
    var payments := b.ledger.payments;
    ghost var before := report.reported;
    count := 0;
    for i := 0 to |payments|
      invariant report.Valid() && report.reported == before + AllPaymentFailures(b, payments[..i], academy)
      invariant count == CountRows(payments[..i], academy)
    {
      assert payments[..i + 1][..i] == payments[..i];
      if payments[i].academy == academy {
        count := count + 1;
        AuditPayment(b, payments[i], report);
      }
    }
    assert payments[..|payments|] == payments;
  }

  /** `audit_billing_consistency`. */
  method AuditBillingConsistency(b: Books, academy: string) returns (r: Audited)
    ensures r == AuditOf(b, academy)
  {
    hide AllInvoiceFailures, AllPaymentFailures, AllCreditFailures, CountRows, CreditAudit.CountOf;
    var report := new FailureList();
    var invoiceCount := AuditInvoices(b, academy, report);
    var paymentCount := AuditPayments(b, academy, report);
    var creditCount := AuditCredits(b.credits, b.applications, academy, report);
    assert report.reported == AllFailures(b, academy);
    r := Audited(report.failures == [], invoiceCount, paymentCount, creditCount, report.failures);
  }
}
