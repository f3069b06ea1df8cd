/** Two programs that must agree: everything the backfill writes is judged by the billing-consistency audit. */
module BackfillPassesAudit {
  import opened Wrappers
  import opened Collections
  import opened LegacyPayments
  import opened Backfill
  import opened BackfillProperties
  import opened BillingAudit
  import opened CreditAudit

  // ----- sums over appended collections -----

  lemma {:induction false} SumConcat(a: seq<Entry>, b: seq<Entry>, academy: string, refs: set<string>)
    ensures SumOf(a + b, academy, refs) == SumOf(a, academy, refs) + SumOf(b, academy, refs)
  {
    if b == [] {
      assert a + b == a;
    } else {
      var n := |b| - 1;
      assert (a + b)[..|a| + n] == a + b[..n];
      SumConcat(a, b[..n], academy, refs);
    }
  }

  lemma {:induction false} LineEntriesConcat(a: seq<Row<Line>>, b: seq<Row<Line>>)
    ensures LineEntries(a + b) == LineEntries(a) + LineEntries(b)
  {
    if b == [] {
      assert a + b == a;
    } else {
      var n := |b| - 1;
      assert (a + b)[..|a| + n] == a + b[..n];
      LineEntriesConcat(a, b[..n]);
    }
  }

  lemma {:induction false} AllocationEntriesConcat(a: seq<Row<Allocation>>, b: seq<Row<Allocation>>)
    ensures AllocationsByInvoice(a + b) == AllocationsByInvoice(a) + AllocationsByInvoice(b)
    ensures AllocationsByPayment(a + b) == AllocationsByPayment(a) + AllocationsByPayment(b)
  {
    if b == [] {
      assert a + b == a;
    } else {
      var n := |b| - 1;
      assert (a + b)[..|a| + n] == a + b[..n];
      AllocationEntriesConcat(a, b[..n]);
    }
  }

  /** What is filed in a ledger under one payment's derived ids. */
  datatype Filed = Filed(lines: int, byInvoice: int, byPayment: int)

  function FiledUnder(l: Ledger, academy: string, id: string): Filed {
    Filed(SumOf(LineEntries(l.lines), academy, {InvoiceId(id)}),
          SumOf(AllocationsByInvoice(l.allocations), academy, {InvoiceId(id)}),
          SumOf(AllocationsByPayment(l.allocations), academy, {LedgerPaymentId(id)}))
  }

  lemma FiledConcat(a: Ledger, b: Batches, academy: string, id: string)
    ensures var (x, y) := (FiledUnder(a, academy, id), FiledUnder(b, academy, id));
      FiledUnder(PlusRows(a, b), academy, id) == Filed(x.lines + y.lines, x.byInvoice + y.byInvoice, x.byPayment + y.byPayment)
  {
    hide InvoiceId, LedgerPaymentId, SumOf, LineEntries, AllocationsByInvoice, AllocationsByPayment;
    LineEntriesConcat(a.lines, b.lines);
    AllocationEntriesConcat(a.allocations, b.allocations);
    SumConcat(LineEntries(a.lines), LineEntries(b.lines), academy, {InvoiceId(id)});
    SumConcat(AllocationsByInvoice(a.allocations), AllocationsByInvoice(b.allocations), academy, {InvoiceId(id)});
    SumConcat(AllocationsByPayment(a.allocations), AllocationsByPayment(b.allocations), academy, {LedgerPaymentId(id)});
  }

  lemma {:induction false} NoLinesFiled(lines: seq<Row<Line>>, academy: string, refs: set<string>)
    requires forall r :: r in lines ==> r.academy != academy
    ensures SumOf(LineEntries(lines), academy, refs) == 0
  {
    if lines != [] {
      var n := |lines| - 1;
      NoLinesFiled(lines[..n], academy, refs);
      var entries := LineEntries(lines[..n]);
      assert LineEntries(lines)[..n] == entries by { LineEntriesLength(lines[..n]); }
    }
  }

  lemma {:induction false} LineEntriesLength(lines: seq<Row<Line>>)
    ensures |LineEntries(lines)| == |lines|
  {
    if lines != [] {
      LineEntriesLength(lines[..|lines| - 1]);
    }
  }

  lemma {:induction false} AllocationEntriesLength(allocations: seq<Row<Allocation>>)
    ensures |AllocationsByInvoice(allocations)| == |AllocationsByPayment(allocations)| == |allocations|
  {
    if allocations != [] {
      AllocationEntriesLength(allocations[..|allocations| - 1]);
    }
  }

  lemma {:induction false} NoAllocationsFiled(allocations: seq<Row<Allocation>>, academy: string, refs: set<string>)
    requires forall r :: r in allocations ==> r.academy != academy
    ensures SumOf(AllocationsByInvoice(allocations), academy, refs) == 0
    ensures SumOf(AllocationsByPayment(allocations), academy, refs) == 0
  {
    if allocations != [] {
      var n := |allocations| - 1;
      NoAllocationsFiled(allocations[..n], academy, refs);
      AllocationEntriesLength(allocations[..n]);
      assert AllocationsByInvoice(allocations)[..n] == AllocationsByInvoice(allocations[..n]);
      assert AllocationsByPayment(allocations)[..n] == AllocationsByPayment(allocations[..n]);
    }
  }

  // ----- each payment's rows are filed under its own ids only -----

  function FiledByRow(m: Mapped): Filed {
    var al := if m.allocation.Some? then m.allocation.value.body.amount else 0;
    Filed(m.line.body.amount, al, al)
  }

  lemma FiledForOne(m: Mapped, academy: string, own: string, id: string)
    requires Linked(m, academy, own) && (m.payment.Some? <==> m.allocation.Some?)
    ensures FiledUnder(RowsOf(m), academy, id) == if id == own then FiledByRow(m) else Filed(0, 0, 0)
  {
    IdsAreInjective(own, id);
    hide InvoiceId, LedgerPaymentId, LineId, AllocationId;
    OneLine(m.line, academy, {InvoiceId(id)});
    if m.allocation.Some? {
      OneAllocation(m.allocation.value, academy, {InvoiceId(id)});
      OneAllocation(m.allocation.value, academy, {LedgerPaymentId(id)});
    }
  }

  lemma OneEntry(e: Entry, academy: string, refs: set<string>)
    ensures SumOf([e], academy, refs) == if e.academy == academy && e.ref in refs then e.amount else 0
  {
    assert [e][..0] == [];
  }

  lemma OneLine(r: Row<Line>, academy: string, refs: set<string>)
    ensures SumOf(LineEntries([r]), academy, refs) == if r.academy == academy && r.body.invoiceId in refs then r.body.amount else 0
  {
    hide SumOf;
    assert [r][..0] == [];
    assert LineEntries([r]) == [Entry(r.academy, r.body.invoiceId, r.body.amount)];
    OneEntry(Entry(r.academy, r.body.invoiceId, r.body.amount), academy, refs);
  }

  lemma OneAllocation(r: Row<Allocation>, academy: string, refs: set<string>)
    ensures SumOf(AllocationsByInvoice([r]), academy, refs)
         == if r.academy == academy && r.body.invoiceId in refs then r.body.amount else 0
    ensures SumOf(AllocationsByPayment([r]), academy, refs)
         == if r.academy == academy && r.body.paymentId in refs then r.body.amount else 0
  {
    hide SumOf;
    assert [r][..0] == [];
    assert AllocationsByInvoice([r]) == [Entry(r.academy, r.body.invoiceId, r.body.amount)];
    assert AllocationsByPayment([r]) == [Entry(r.academy, r.body.paymentId, r.body.amount)];
    OneEntry(Entry(r.academy, r.body.invoiceId, r.body.amount), academy, refs);
    OneEntry(Entry(r.academy, r.body.paymentId, r.body.amount), academy, refs);
  }

  lemma {:induction false} FiledOfOthers(docs: seq<Payment>, academy: string, id: string)
    requires forall d :: d in docs ==> d.academy == academy && PaymentId(d) != id
    ensures FiledUnder(Wanted(docs), academy, id) == Filed(0, 0, 0)
  {
    hide Eligible, MappedOf, PaymentId, FiledUnder;
    if docs == [] {
      FiledNothing(academy, id);
    } else {
      var (n, doc) := (|docs| - 1, docs[|docs| - 1]);
      assert docs == docs[..n] + [doc];
      FiledOfOthers(docs[..n], academy, id);
      if Eligible(doc) {
        FiledConcat(Wanted(docs[..n]), RowsOf(MappedOf(doc)), academy, id);
        MappedIsLinked(doc);
        MappedIsBalanced(doc);
        FiledForOne(MappedOf(doc), academy, PaymentId(doc), id);
      }
    }
  }

  lemma FiledNothing(academy: string, id: string)
    ensures FiledUnder(NO_ROWS, academy, id) == Filed(0, 0, 0)
  {
  }

  /** With distinct payment ids, exactly one payment's line and allocation are filed under its ids. */
  lemma {:induction false} FiledOfOwn(docs: seq<Payment>, academy: string, doc: Payment)
    requires DistinctIds(docs) && (forall d :: d in docs ==> d.academy == academy)
    requires doc in docs && Eligible(doc)
    ensures FiledUnder(Wanted(docs), academy, PaymentId(doc)) == FiledByRow(MappedOf(doc))
  {
    hide Eligible, MappedOf, PaymentId, FiledUnder, FiledByRow;
    var (n, last) := (|docs| - 1, docs[|docs| - 1]);
    assert docs == docs[..n] + [last];
    var id := PaymentId(doc);
    if Eligible(last) {
      FiledConcat(Wanted(docs[..n]), RowsOf(MappedOf(last)), academy, id);
      MappedIsLinked(last);
      MappedIsBalanced(last);
      FiledForOne(MappedOf(last), academy, PaymentId(last), id);
    }
    if doc == last {
      forall d | d in docs[..n] ensures PaymentId(d) != id {
        var i :| 0 <= i < n && docs[i] == d;
      }
      FiledOfOthers(docs[..n], academy, id);
    } else {
      FiledOfOwn(docs[..n], academy, doc);
      var i :| 0 <= i < n && docs[i] == doc;
      assert PaymentId(docs[i]) != PaymentId(docs[n]);
    }
  }

  // ----- verdicts -----

  /** A first run's ledger: other academies' rows are whatever they were, this academy's are the wanted ones. */
  ghost predicate FirstRun(l: Ledger, docs: seq<Payment>, academy: string) {
    && NoRowsOf(l, academy) && DistinctIds(docs)
    && (forall d :: d in docs ==> d.academy == academy)
  }

  lemma FiledAfterFirstRun(l: Ledger, docs: seq<Payment>, academy: string, doc: Payment)
    requires FirstRun(l, docs, academy) && doc in docs && Eligible(doc)
    ensures FiledUnder(Backfilled(l, docs), academy, PaymentId(doc)) == FiledByRow(MappedOf(doc))
  {
    FirstRunInsertsAll(l, docs, academy);
    var id := PaymentId(doc);
    FiledConcat(l, Wanted(docs), academy, id);
    FiledBefore(l, academy, id);
    FiledOfOwn(docs, academy, doc);
    hide Eligible, MappedOf, PaymentId, Wanted, FiledByRow, FiledUnder, Missing;
  }

  lemma FiledBefore(l: Ledger, academy: string, id: string)
    requires NoRowsOf(l, academy)
    ensures FiledUnder(l, academy, id) == Filed(0, 0, 0)
  {
    hide InvoiceId, LedgerPaymentId, SumOf, LineEntries, AllocationsByInvoice, AllocationsByPayment;
    NoLinesFiled(l.lines, academy, {InvoiceId(id)});
    NoAllocationsFiled(l.allocations, academy, {InvoiceId(id)});
    NoAllocationsFiled(l.allocations, academy, {LedgerPaymentId(id)});
  }

  /** No credit of the academy was applied to an invoice of the ledger or came from one of its allocations. */
  ghost predicate CreditsElsewhere(b: Books, academy: string) {
    && (forall a :: a in b.applications && a.academy == academy ==> !Has(b.ledger.invoices, academy, a.pair.invoiceId))
    && (forall c :: c in b.credits && c.academy == academy && c.overpayment ==> !Has(b.ledger.allocations, academy, c.sourceId))
  }

  lemma {:induction false} NoApplicationsSum(rows: seq<Projected>, academy: string, id: string)
    requires forall a :: a in rows && a.academy == academy ==> a.pair.invoiceId != id
    ensures SumOf(ApplicationsByInvoice(rows), academy, {id}) == 0
  {
    if rows != [] {
      var n := |rows| - 1;
      assert rows[n] in rows;
      NoApplicationsSum(rows[..n], academy, id);
      var before := ApplicationsByInvoice(rows[..n]);
      assert (before + [Entry(rows[n].academy, rows[n].pair.invoiceId, rows[n].amount)])[..|before|] == before;
    }
  }

  lemma {:induction false} NoOverpaymentsSum(credits: seq<Credit>, academy: string, refs: set<string>)
    requires forall c :: c in credits && c.academy == academy && c.overpayment ==> c.sourceId !in refs
    ensures SumOf(OverpaymentsBySource(credits), academy, refs) == 0
  {
    if credits != [] {
      var n := |credits| - 1;
      assert credits[n] in credits;
      NoOverpaymentsSum(credits[..n], academy, refs);
      var before := OverpaymentsBySource(credits[..n]);
      assert (before + [Entry(credits[n].academy, credits[n].sourceId, credits[n].amount)])[..|before|] == before;
      assert before + [] == before;
    }
  }

  /** The credit sums the audit adds for a row of the ledger are zero. */
  lemma NoCreditsForLedger(b: Books, academy: string, r: Row<Invoice>, paymentId: string)
    requires CreditsElsewhere(b, academy) && r in b.ledger.invoices && r.academy == academy
    ensures SumOf(ApplicationsByInvoice(b.applications), academy, {r.id}) == 0
    ensures SumOf(OverpaymentsBySource(b.credits), academy, AllocationIdsOf(b.ledger.allocations, academy, paymentId)) == 0
  {
    HasMember(b.ledger.invoices, r);
    NoApplicationsSum(b.applications, academy, r.id);
    forall id | id in AllocationIdsOf(b.ledger.allocations, academy, paymentId)
      ensures Has(b.ledger.allocations, academy, id)
    {
      var a :| a in b.ledger.allocations && a.academy == academy && a.id == id;
      HasMember(b.ledger.allocations, a);
    }
    NoOverpaymentsSum(b.credits, academy, AllocationIdsOf(b.ledger.allocations, academy, paymentId));
  }

  /** The audit's verdict on one backfilled invoice. */
  lemma InvoiceVerdict(b: Books, m: Mapped, doc: Payment, academy: string)
    requires Eligible(doc) && doc.academy == academy && m == MappedOf(doc) && CreditsElsewhere(b, academy) && m.invoice in b.ledger.invoices
    requires FiledUnder(b.ledger, academy, PaymentId(doc)) == FiledByRow(m)
    ensures InvoiceFailures(b, m.invoice) == [] <==> !NegativeDiscountOnNothing(doc)
  {
    MappedIsBalanced(doc);
    MappedIsLinked(doc);
    HeaderAgreesIff(doc);
    hide Eligible, MappedOf, PaymentId, NegativeDiscountOnNothing, SumOf, LineEntries, AllocationsByInvoice, InvoiceId, CreditsElsewhere;
    hide ApplicationsByInvoice, OverpaymentsBySource, AllocationIdsOf;
    NoCreditsForLedger(b, academy, m.invoice, LedgerPaymentId(PaymentId(doc)));
  }

  /** The audit's verdict on one backfilled payment. */
  lemma PaymentVerdict(b: Books, m: Mapped, doc: Payment, academy: string)
    requires Eligible(doc) && doc.academy == academy && m == MappedOf(doc) && CreditsElsewhere(b, academy)
    requires m.invoice in b.ledger.invoices && m.payment.Some?
    requires FiledUnder(b.ledger, academy, PaymentId(doc)) == FiledByRow(m)
    ensures PaymentFailures(b, m.payment.value) == []
  {
    MappedIsBalanced(doc);
    MappedIsLinked(doc);
    hide Eligible, MappedOf, PaymentId, SumOf, LineEntries, AllocationsByPayment, LedgerPaymentId, CreditsElsewhere;
    hide ApplicationsByInvoice, OverpaymentsBySource, AllocationIdsOf;
    NoCreditsForLedger(b, academy, m.invoice, m.payment.value.id);
  }

  lemma {:induction false} InvoicesPassIff(b: Books, invoices: seq<Row<Invoice>>, academy: string)
    ensures AllInvoiceFailures(b, invoices, academy) == [] <==>
      forall r :: r in invoices && r.academy == academy ==> InvoiceFailures(b, r) == []
  {
    hide InvoiceFailures;
    if invoices != [] {
      var n := |invoices| - 1;
      assert invoices == invoices[..n] + [invoices[n]];
      InvoicesPassIff(b, invoices[..n], academy);
    }
  }

  lemma {:induction false} PaymentsPassIff(b: Books, payments: seq<Row<LedgerPayment>>, academy: string)
    ensures AllPaymentFailures(b, payments, academy) == [] <==>
      forall r :: r in payments && r.academy == academy ==> PaymentFailures(b, r) == []
  {
    hide PaymentFailures;
    if payments != [] {
      var n := |payments| - 1;
      assert payments == payments[..n] + [payments[n]];
      PaymentsPassIff(b, payments[..n], academy);
    }
  }

  /** Every wanted row is the mapping of one of the payments. */
  lemma {:induction false} WantedIsMapped(docs: seq<Payment>)
    ensures forall r :: r in Wanted(docs).invoices ==> exists d :: d in docs && Eligible(d) && MappedOf(d).invoice == r
    ensures forall r :: r in Wanted(docs).payments ==> exists d :: d in docs && Eligible(d) && MappedOf(d).payment == Some(r)
  {
    hide Eligible, MappedOf;
    if docs != [] {
      var n := |docs| - 1;
      assert docs == docs[..n] + [docs[n]];
      WantedIsMapped(docs[..n]);
    }
  }

  lemma InvoicesPass(b: Books, l: Ledger, docs: seq<Payment>, academy: string)
    requires FirstRun(l, docs, academy) && b.ledger == Backfilled(l, docs) && CreditsElsewhere(b, academy)
    ensures AllInvoiceFailures(b, b.ledger.invoices, academy) == [] <==>
      forall d :: d in docs && Eligible(d) ==> !NegativeDiscountOnNothing(d)
  {
    hide Eligible, MappedOf, InvoiceFailures, NegativeDiscountOnNothing, Wanted, FiledUnder, FiledByRow, PaymentId;
    FirstRunInsertsAll(l, docs, academy);
    InvoicesPassIff(b, b.ledger.invoices, academy);
    WantedIsMapped(docs);
    forall d | d in docs && Eligible(d)
      ensures MappedOf(d).invoice in b.ledger.invoices && MappedOf(d).invoice.academy == academy
      ensures InvoiceFailures(b, MappedOf(d).invoice) == [] <==> !NegativeDiscountOnNothing(d)
    {
      WantedContains(docs, d);
      MappedIsLinked(d);
      FiledAfterFirstRun(l, docs, academy, d);
      InvoiceVerdict(b, MappedOf(d), d, academy);
    }
  }

  lemma PaymentsPass(b: Books, l: Ledger, docs: seq<Payment>, academy: string)
    requires FirstRun(l, docs, academy) && b.ledger == Backfilled(l, docs) && CreditsElsewhere(b, academy)
    ensures AllPaymentFailures(b, b.ledger.payments, academy) == []
  {
    hide Eligible, MappedOf, PaymentFailures, Wanted, FiledUnder, FiledByRow, PaymentId;
    FirstRunInsertsAll(l, docs, academy);
    PaymentsPassIff(b, b.ledger.payments, academy);
    WantedIsMapped(docs);
    forall r | r in b.ledger.payments && r.academy == academy
      ensures PaymentFailures(b, r) == []
    {
      var d :| d in docs && Eligible(d) && MappedOf(d).payment == Some(r);
      WantedContains(docs, d);
      FiledAfterFirstRun(l, docs, academy, d);
      PaymentVerdict(b, MappedOf(d), d, academy);
    }
  }

  /**
   * The backfill satisfies the audit. On a ledger without rows of the academy, whose credits are not tied to them, a
   * completed backfill of any rows with distinct payment ids passes the whole billing-consistency audit with zero
   * failures exactly when the credits are in order and no mapped row discounts a zero amount by a negative figure
   * without a final amount. With discounts that are not negative, only the credits decide.
   */
  lemma BackfillPassesAuditIff(b: Books, l: Ledger, docs: seq<Payment>, academy: string)
    requires FirstRun(l, docs, academy) && b.ledger == Backfilled(l, docs) && CreditsElsewhere(b, academy)
    ensures AuditOf(b, academy).passed <==>
      InOrder(b.credits, b.applications, academy) && forall d :: d in docs && Eligible(d) ==> !NegativeDiscountOnNothing(d)
    ensures (forall d :: d in docs && Eligible(d) ==> IntCents(d.discount).value >= 0) ==>
      (AuditOf(b, academy).passed <==> InOrder(b.credits, b.applications, academy))
  {
    hide Eligible, MappedOf, Wanted, IntCents, AllInvoiceFailures, AllPaymentFailures, AllCreditFailures, InOrder, CountRows, CreditAudit.CountOf;
    InvoicesPass(b, l, docs, academy);
    PaymentsPass(b, l, docs, academy);
    CreditPassIff(b.credits, b.applications, academy);
  }
}
