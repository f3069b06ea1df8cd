/** What the backfill guarantees over several runs: crash repair, idempotence, and an exact reconciliation gap. */
module BackfillProperties {
  import opened Arithmetic
  import opened Collections
  import opened LegacyPayments
  import opened Backfill

  ghost predicate DistinctIds(docs: seq<Payment>) {
    forall i, j :: 0 <= i < j < |docs| ==> PaymentId(docs[i]) != PaymentId(docs[j])
  }

  lemma {:induction false} LegacyRowsMembers(docs: seq<Payment>, academy: string, d: Payment)
    ensures d in LegacyRows(docs, academy) <==> d in docs && d.academy == academy && IsLegacy(d)
  {
    OfAcademyMembers(docs, academy, d);
    LegacyOnlyMembers(OfAcademy(docs, academy), d);
  }

  lemma {:induction false} OfAcademyMembers(docs: seq<Payment>, academy: string, d: Payment)
    ensures d in OfAcademy(docs, academy) <==> d in docs && d.academy == academy
  {
    if docs != [] {
      var n := |docs| - 1;
      assert docs == docs[..n] + [docs[n]];
      OfAcademyMembers(docs[..n], academy, d);
    }
  }

  lemma {:induction false} LegacyOnlyMembers(docs: seq<Payment>, d: Payment)
    ensures d in LegacyOnly(docs) <==> d in docs && IsLegacy(d)
  {
    hide IsLegacy;
    if docs != [] {
      var n := |docs| - 1;
      assert docs == docs[..n] + [docs[n]];
      LegacyOnlyMembers(docs[..n], d);
    }
  }

  // ----- what the backfill wants -----

  /** The row of each kind that one payment wants, by its key. */
  ghost predicate WantedFrom<T>(r: Row<T>, doc: Payment, id: string) {
    Eligible(doc) && r.academy == doc.academy && r.id == id
  }

  /** Every wanted row comes from an eligible payment and carries that payment's derived id. */
  lemma {:induction false} WantedHasSource(docs: seq<Payment>)
    ensures forall r :: r in Wanted(docs).invoices ==> exists d :: d in docs && WantedFrom(r, d, InvoiceId(PaymentId(d)))
    ensures forall r :: r in Wanted(docs).lines ==> exists d :: d in docs && WantedFrom(r, d, LineId(PaymentId(d)))
    ensures forall r :: r in Wanted(docs).payments ==> exists d :: d in docs && WantedFrom(r, d, LedgerPaymentId(PaymentId(d)))
    ensures forall r :: r in Wanted(docs).allocations ==> exists d :: d in docs && WantedFrom(r, d, AllocationId(PaymentId(d)))
  {
    hide Eligible, MappedOf, InvoiceId, LineId, LedgerPaymentId, AllocationId, PaymentId;
    if docs != [] {
      var n := |docs| - 1;
      assert docs == docs[..n] + [docs[n]];
      WantedHasSource(docs[..n]);
      if Eligible(docs[n]) {
        MappedIsLinked(docs[n]);
      }
    }
  }

  lemma {:induction false} WantedContains(docs: seq<Payment>, doc: Payment)
    requires doc in docs && Eligible(doc)
    ensures var (w, m) := (Wanted(docs), MappedOf(doc));
      && m.invoice in w.invoices && m.line in w.lines
      && (m.payment.Some? ==> m.payment.value in w.payments)
      && (m.allocation.Some? ==> m.allocation.value in w.allocations)
  {
    hide Eligible, MappedOf;
    var n := |docs| - 1;
    if doc != docs[n] {
      assert docs == docs[..n] + [docs[n]];
      WantedContains(docs[..n], doc);
    }
  }

  ghost predicate KeysAreDistinct(rows: Batches) {
    DistinctKeys(rows.invoices) && DistinctKeys(rows.lines) && DistinctKeys(rows.payments) && DistinctKeys(rows.allocations)
  }

  lemma {:induction false} DistinctIdsGiveDistinctKeys(docs: seq<Payment>)
    requires DistinctIds(docs)
    ensures KeysAreDistinct(Wanted(docs))
  {
    hide Eligible, MappedOf, InvoiceId, LineId, LedgerPaymentId, AllocationId, PaymentId;
    if docs != [] {
      var n := |docs| - 1;
      DistinctIdsGiveDistinctKeys(docs[..n]);
      if Eligible(docs[n]) {
        NewKeys(docs[..n], docs[n]);
        var (w, m) := (Wanted(docs[..n]), MappedOf(docs[n]));
        DistinctKeysSnoc(w.invoices, m.invoice);
        DistinctKeysSnoc(w.lines, m.line);
        if m.payment.Some? { DistinctKeysSnoc(w.payments, m.payment.value); }
        if m.allocation.Some? { DistinctKeysSnoc(w.allocations, m.allocation.value); }
      }
    }
  }

  /** A payment with a new id wants rows with new keys. */
  lemma NewKeys(docs: seq<Payment>, doc: Payment)
    requires Eligible(doc) && forall d :: d in docs ==> PaymentId(d) != PaymentId(doc)
    ensures var (w, m) := (Wanted(docs), MappedOf(doc));
      && (forall r :: r in w.invoices ==> !SameKey(r, m.invoice))
      && (forall r :: r in w.lines ==> !SameKey(r, m.line))
      && (forall r :: r in w.payments && m.payment.Some? ==> !SameKey(r, m.payment.value))
      && (forall r :: r in w.allocations && m.allocation.Some? ==> !SameKey(r, m.allocation.value))
  {
    hide Eligible, MappedOf, InvoiceId, LineId, LedgerPaymentId, AllocationId, PaymentId;
    WantedHasSource(docs);
    MappedIsLinked(doc);
    forall d | d in docs
      ensures InvoiceId(PaymentId(d)) != InvoiceId(PaymentId(doc)) && LineId(PaymentId(d)) != LineId(PaymentId(doc))
      ensures LedgerPaymentId(PaymentId(d)) != LedgerPaymentId(PaymentId(doc))
      ensures AllocationId(PaymentId(d)) != AllocationId(PaymentId(doc))
    {
      IdsAreInjective(PaymentId(d), PaymentId(doc));
    }
  }

  // ----- crash repair -----

  /** The ledger after a crash that let any part of any of the four batches through. */
  ghost predicate Interrupted(l: Ledger, docs: seq<Payment>, now: Ledger) {
    var batch := Missing(l, Wanted(docs));
    && PartlyInserted(l.invoices, batch.invoices, now.invoices)
    && PartlyInserted(l.lines, batch.lines, now.lines)
    && PartlyInserted(l.payments, batch.payments, now.payments)
    && PartlyInserted(l.allocations, batch.allocations, now.allocations)
  }

  /** Equal as collections: the same rows, each as often. */
  ghost predicate SameRows(a: Ledger, b: Ledger) {
    && multiset(a.invoices) == multiset(b.invoices) && multiset(a.lines) == multiset(b.lines)
    && multiset(a.payments) == multiset(b.payments) && multiset(a.allocations) == multiset(b.allocations)
  }

  predicate Keeps(before: Ledger, after: Ledger) {
    && before.invoices <= after.invoices && before.lines <= after.lines
    && before.payments <= after.payments && before.allocations <= after.allocations
  }

  /** Crash repair: rerunning after any interruption reaches exactly the uninterrupted ledger and changes no existing row. */
  lemma RerunRepairsCrash(l: Ledger, docs: seq<Payment>, now: Ledger)
    requires DistinctIds(docs) && Interrupted(l, docs, now)
    ensures SameRows(Backfilled(now, docs), Backfilled(l, docs))
    ensures Keeps(now, Backfilled(now, docs)) && Keeps(l, Backfilled(now, docs))
  {
    hide PartlyInserted, Absent, Wanted;
    DistinctIdsGiveDistinctKeys(docs);
    var w := Wanted(docs);
    RepairCompletes(l.invoices, w.invoices, now.invoices);
    RepairCompletes(l.lines, w.lines, now.lines);
    RepairCompletes(l.payments, w.payments, now.payments);
    RepairCompletes(l.allocations, w.allocations, now.allocations);
    InterruptedKeeps(l, docs, now);
  }

  lemma InterruptedKeeps(l: Ledger, docs: seq<Payment>, now: Ledger)
    requires Interrupted(l, docs, now)
    ensures Keeps(l, now)
  {
    hide Missing, Wanted;
  }

  /** A completed run leaves nothing to write: one more run inserts no row and counts every mapped row as already backfilled. */
  lemma RerunWritesNothing(l: Ledger, docs: seq<Payment>)
    ensures var after := Backfilled(l, docs);
      && Missing(after, Wanted(docs)) == NO_ROWS
      && Backfilled(after, docs) == after
      && Counted(after, docs).already == Counted(after, docs).mapped
  {
    hide Absent, Has, Wanted, Counted;
    var (w, after) := (Wanted(docs), Backfilled(l, docs));
    forall r | r in w.invoices ensures Has(after.invoices, r.academy, r.id) { AllPresentAfterInsert(l.invoices, w.invoices, r); }
    forall r | r in w.lines ensures Has(after.lines, r.academy, r.id) { AllPresentAfterInsert(l.lines, w.lines, r); }
    forall r | r in w.payments ensures Has(after.payments, r.academy, r.id) { AllPresentAfterInsert(l.payments, w.payments, r); }
    forall r | r in w.allocations ensures Has(after.allocations, r.academy, r.id) { AllPresentAfterInsert(l.allocations, w.allocations, r); }
    NothingAbsentAfter(after.invoices, w.invoices);
    NothingAbsentAfter(after.lines, w.lines);
    NothingAbsentAfter(after.payments, w.payments);
    NothingAbsentAfter(after.allocations, w.allocations);
    forall d | d in docs && Eligible(d)
      ensures AllPresent(after, MappedOf(d))
    {
      WantedContains(docs, d);
    }
    AllCountedAsAlready(after, docs);
  }

  lemma {:induction false} AllCountedAsAlready(l: Ledger, docs: seq<Payment>)
    requires forall d :: d in docs && Eligible(d) ==> AllPresent(l, MappedOf(d))
    ensures Counted(l, docs).already == Counted(l, docs).mapped
  {
    hide AllPresent, MappedOf, Truthy, FiguresOf, KindOf;
    if docs != [] {
      var n := |docs| - 1;
      assert docs == docs[..n] + [docs[n]];
      AllCountedAsAlready(l, docs[..n]);
    }
  }

  // ----- the first run -----

  predicate NoRowsOf(l: Ledger, academy: string) {
    && (forall r :: r in l.invoices ==> r.academy != academy) && (forall r :: r in l.lines ==> r.academy != academy)
    && (forall r :: r in l.payments ==> r.academy != academy) && (forall r :: r in l.allocations ==> r.academy != academy)
  }

  /** On a ledger without rows of the academy, the run inserts everything it wants. */
  lemma FirstRunInsertsAll(l: Ledger, docs: seq<Payment>, academy: string)
    requires NoRowsOf(l, academy) && forall d :: d in docs ==> d.academy == academy
    ensures Missing(l, Wanted(docs)) == Wanted(docs)
  {
    hide Wanted, Eligible, MappedOf;
    WantedHasSource(docs);
    var w := Wanted(docs);
    AllAbsent(l.invoices, w.invoices);
    AllAbsent(l.lines, w.lines);
    AllAbsent(l.payments, w.payments);
    AllAbsent(l.allocations, w.allocations);
  }

  // ----- reconciliation -----

  /** Every mapped row is represented by its own balance: none has an invoice yet, or the one there is the backfill's. */
  ghost predicate OwnBalances(l: Ledger, docs: seq<Payment>) {
    forall d :: d in docs && Eligible(d) ==> InvoiceFor(l, d).body.balance == MappedOf(d).invoice.body.balance
  }

  lemma FirstRunHasOwnBalances(l: Ledger, docs: seq<Payment>, academy: string)
    requires NoRowsOf(l, academy) && forall d :: d in docs ==> d.academy == academy
    ensures OwnBalances(l, docs)
  {
    hide Eligible, MappedOf;
    forall d | d in docs && Eligible(d)
      ensures InvoiceFor(l, d) == MappedOf(d).invoice
    {
      MappedIsLinked(d);
      var m := MappedOf(d);
      LookupIsHas(l.invoices, m.invoice.academy, m.invoice.id);
    }
  }

  /** What a row with a paid status still owes: received less than its total. */
  function Shortfall(doc: Payment): nat {
    if Eligible(doc) && KindOf(doc.status).PaidKind?
    then Max(FiguresOf(doc).value.total - FiguresOf(doc).value.paid, 0) else 0
  }

  function ParentShortfall(docs: seq<Payment>, parent: string): nat {
    if docs == [] then 0 else
    ParentShortfall(docs[..|docs| - 1], parent) +
    if ParentKey(docs[|docs| - 1]) == parent then Shortfall(docs[|docs| - 1]) else 0
  }

  /** One row: the invoice's balance exceeds the legacy balance by the row's shortfall. */
  lemma RowGap(doc: Payment)
    requires Eligible(doc)
    ensures MappedOf(doc).invoice.body.balance == OwedByLegacy(doc) + Shortfall(doc)
  {
    hide IntCents, KindOf, FiguresOf;
  }

  /** The reconciliation gap is exact, parent by parent. */
  lemma {:induction false} GapIsShortfall(l: Ledger, docs: seq<Payment>, parent: string)
    requires OwnBalances(l, docs)
    ensures LedgerBalance(InvoicesOf(l, docs, parent)) - LegacyBalance(DocsOf(docs, parent)) == ParentShortfall(docs, parent)
  {
    hide Eligible, MappedOf, ParentKey, OwedByLegacy, Shortfall, InvoiceFor, LedgerBalance, LegacyBalance;
    if docs == [] {
      EmptyBalances();
    } else {
      var (n, doc) := (|docs| - 1, docs[|docs| - 1]);
      assert docs == docs[..n] + [doc];
      GapIsShortfall(l, docs[..n], parent);
      var (invoices, rows) := (InvoicesOf(l, docs[..n], parent), DocsOf(docs[..n], parent));
      assert invoices + [] == invoices && rows + [] == rows;
      if Eligible(doc) {
        RowGap(doc);
        BalancesSnoc(invoices, InvoiceFor(l, doc), rows, doc);
      } else {
        NoShortfall(doc);
      }
    }
  }

  lemma EmptyBalances()
    ensures LedgerBalance([]) == 0 && LegacyBalance([]) == 0
  {
  }

  lemma BalancesSnoc(invoices: seq<Row<Invoice>>, invoice: Row<Invoice>, rows: seq<Payment>, doc: Payment)
    ensures LedgerBalance(invoices + [invoice]) == LedgerBalance(invoices) + invoice.body.balance
    ensures LegacyBalance(rows + [doc]) == LegacyBalance(rows) + OwedByLegacy(doc)
  {
    hide OwedByLegacy;
    assert (invoices + [invoice])[..|invoices|] == invoices;
    assert (rows + [doc])[..|rows|] == rows;
  }

  lemma NoShortfall(doc: Payment)
    requires !Eligible(doc)
    ensures Shortfall(doc) == 0
  {
  }

  lemma {:induction false} ParentShortfallIff(docs: seq<Payment>, parent: string)
    ensures ParentShortfall(docs, parent) > 0 <==> exists d :: d in docs && ParentKey(d) == parent && Shortfall(d) > 0
  {
    hide ParentKey, Shortfall;
    if docs != [] {
      var n := |docs| - 1;
      assert docs == docs[..n] + [docs[n]];
      ParentShortfallIff(docs[..n], parent);
    }
  }

  /** A parent fails reconciliation exactly when one of its rows marked paid received less than its total. */
  lemma MismatchesAreUnderReceived(l: Ledger, docs: seq<Payment>)
    requires OwnBalances(l, docs)
    ensures Mismatched(l, docs) == set d | d in docs && Shortfall(d) > 0 :: ParentKey(d)
  {
    hide Shortfall, ParentKey, Eligible, LegacyBalance, LedgerBalance, DocsOf, InvoicesOf;
    forall p
      ensures Matches(l, docs, p) <==> !exists d :: d in docs && ParentKey(d) == p && Shortfall(d) > 0
    {
      GapIsShortfall(l, docs, p);
      ParentShortfallIff(docs, p);
    }
    forall d | d in docs && Shortfall(d) > 0
      ensures ParentKey(d) in Parents(docs)
    {
      if !Eligible(d) { NoShortfall(d); }
    }
  }
}
