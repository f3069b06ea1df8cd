/** What the billing-consistency audit accepts and reports, in terms of the rows of the books alone. */
module AuditProperties {
  import opened Arithmetic
  import opened Collections
  import opened Reordering
  import opened Text
  import opened LegacyPayments
  import opened AuditReport
  import opened CreditAudit
  import opened BillingAudit
  import BackfillPassesAudit

  // ----- sums read off the rows -----

  function LineFigure(academy: string, invoiceId: string): Row<Line> -> int {
    (r: Row<Line>) => if r.academy == academy && r.body.invoiceId == invoiceId then r.body.amount else 0
  }

  function PaidOnFigure(academy: string, invoiceId: string): Row<Allocation> -> int {
    (r: Row<Allocation>) => if r.academy == academy && r.body.invoiceId == invoiceId then r.body.amount else 0
  }

  function PaidFromFigure(academy: string, paymentId: string): Row<Allocation> -> int {
    (r: Row<Allocation>) => if r.academy == academy && r.body.paymentId == paymentId then r.body.amount else 0
  }

  function CreditFigure(academy: string, invoiceId: string): Projected -> int {
    (r: Projected) => if r.academy == academy && r.pair.invoiceId == invoiceId then r.amount else 0
  }

  function OverpaidFigure(academy: string, sources: set<string>): Credit -> int {
    (c: Credit) => if c.academy == academy && c.overpayment && c.sourceId in sources then c.amount else 0
  }

  /** What an invoice's lines, its payments' allocations and the credits applied to it add up to. */
  function Lined(b: Books, r: Row<Invoice>): int {
    Total(b.ledger.lines, LineFigure(r.academy, r.id))
  }

  function PaidOn(b: Books, r: Row<Invoice>): int {
    Total(b.ledger.allocations, PaidOnFigure(r.academy, r.id))
  }

  function CreditedOn(b: Books, r: Row<Invoice>): int {
    Total(b.applications, CreditFigure(r.academy, r.id))
  }

  /** What was allocated from a payment, and what its allocations left over as credit. */
  function PaidFrom(b: Books, p: Row<LedgerPayment>): int {
    Total(b.ledger.allocations, PaidFromFigure(p.academy, p.id))
  }

  function LeftAsCredit(b: Books, p: Row<LedgerPayment>): int {
    Total(b.credits, OverpaidFigure(p.academy, OwnAllocations(b, p)))
  }

  function OwnAllocations(b: Books, p: Row<LedgerPayment>): set<string> {
    set a | a in b.ledger.allocations && a.academy == p.academy && a.body.paymentId == p.id && a.id != "" :: a.id
  }

  lemma SumSnoc(entries: seq<Entry>, e: Entry, academy: string, refs: set<string>)
    ensures SumOf(entries + [e], academy, refs) == SumOf(entries, academy, refs) + if e.academy == academy && e.ref in refs then e.amount else 0
  {
    assert (entries + [e])[..|entries|] == entries;
  }

  lemma {:induction false} LinesAddUp(lines: seq<Row<Line>>, academy: string, id: string)
    ensures SumOf(LineEntries(lines), academy, {id}) == Total(lines, LineFigure(academy, id))
  {
    hide SumOf;
    if lines == [] {
      assert SumOf([], academy, {id}) == 0 by { EmptySum(academy, {id}); }
    } else {
      var (n, r) := (|lines| - 1, lines[|lines| - 1]);
      LinesAddUp(lines[..n], academy, id);
      SumSnoc(LineEntries(lines[..n]), Entry(r.academy, r.body.invoiceId, r.body.amount), academy, {id});
    }
  }

  lemma EmptySum(academy: string, refs: set<string>)
    ensures SumOf([], academy, refs) == 0
  {
  }

  lemma {:induction false} AllocationsAddUp(rows: seq<Row<Allocation>>, academy: string, id: string)
    ensures SumOf(AllocationsByInvoice(rows), academy, {id}) == Total(rows, PaidOnFigure(academy, id))
    ensures SumOf(AllocationsByPayment(rows), academy, {id}) == Total(rows, PaidFromFigure(academy, id))
  {
    hide SumOf;
    if rows == [] {
      EmptySum(academy, {id});
    } else {
      var (n, r) := (|rows| - 1, rows[|rows| - 1]);
      AllocationsAddUp(rows[..n], academy, id);
      SumSnoc(AllocationsByInvoice(rows[..n]), Entry(r.academy, r.body.invoiceId, r.body.amount), academy, {id});
      SumSnoc(AllocationsByPayment(rows[..n]), Entry(r.academy, r.body.paymentId, r.body.amount), academy, {id});
    }
  }

  lemma {:induction false} ApplicationsAddUp(rows: seq<Projected>, academy: string, id: string)
    ensures SumOf(ApplicationsByInvoice(rows), academy, {id}) == Total(rows, CreditFigure(academy, id))
  {
    hide SumOf;
    if rows == [] {
      EmptySum(academy, {id});
    } else {
      var (n, r) := (|rows| - 1, rows[|rows| - 1]);
      ApplicationsAddUp(rows[..n], academy, id);
      SumSnoc(ApplicationsByInvoice(rows[..n]), Entry(r.academy, r.pair.invoiceId, r.amount), academy, {id});
    }
  }

  lemma {:induction false} OverpaymentsAddUp(credits: seq<Credit>, academy: string, refs: set<string>)
    ensures SumOf(OverpaymentsBySource(credits), academy, refs) == Total(credits, OverpaidFigure(academy, refs))
  {
    hide SumOf;
    if credits == [] {
      EmptySum(academy, refs);
    } else {
      var (n, c) := (|credits| - 1, credits[|credits| - 1]);
      OverpaymentsAddUp(credits[..n], academy, refs);
      var before := OverpaymentsBySource(credits[..n]);
      assert before + [] == before;
      SumSnoc(before, Entry(c.academy, c.sourceId, c.amount), academy, refs);
    }
  }

  // ----- one invoice, one payment -----

  /** A subtotal of zero stands for the total. */
  function Subtotal(i: Invoice): int {
    if i.subtotal == 0 then i.total else i.subtotal
  }

  /** What is still due once payments and credits are taken off. */
  function Due(b: Books, r: Row<Invoice>): int {
    Max(r.body.total - PaidOn(b, r) - CreditedOn(b, r), 0)
  }

  /** The failures one invoice deserves. */
  ghost predicate InvoiceDeserves(b: Books, r: Row<Invoice>, f: Failure) {
    var i := r.body;
    match f
    case InvoiceLineTotalMismatch(id, lineSum, subtotal) =>
      id == r.id && lineSum == Lined(b, r) && subtotal == Subtotal(i) && lineSum != 0 && lineSum != subtotal
    case InvoiceTotalMismatch(id, subtotal, discount, total) =>
      id == r.id && subtotal == Subtotal(i) && discount == i.discount && total == i.total && total != Max(subtotal - discount, 0)
    case InvoiceBalanceMismatch(id, balance, expected) =>
      id == r.id && balance == i.balance && expected == Due(b, r) && balance != expected && i.status !in {Void, Waived, Cancelled}
    case PaidInvoiceHasBalance(id, balance) =>
      id == r.id && balance == i.balance && i.status == Paid && balance != 0
    case _ => false
  }

  ghost predicate PaymentDeserves(b: Books, p: Row<LedgerPayment>, f: Failure) {
    match f
    case PaymentAllocationMismatch(id, amount, applied, credited, unapplied) =>
      && id == p.id && amount == p.body.amount && applied == PaidFrom(b, p) && credited == LeftAsCredit(b, p)
      && unapplied == p.body.unapplied && p.body.succeeded && applied + credited + unapplied != amount
    case _ => false
  }

  lemma InvoiceReports(b: Books, r: Row<Invoice>, f: Failure)
    ensures f in InvoiceFailures(b, r) <==> InvoiceDeserves(b, r, f)
  {
    LinesAddUp(b.ledger.lines, r.academy, r.id);
    AllocationsAddUp(b.ledger.allocations, r.academy, r.id);
    ApplicationsAddUp(b.applications, r.academy, r.id);
    hide SumOf, Total, LineFigure, PaidOnFigure, PaidFromFigure, CreditFigure, LineEntries, AllocationsByInvoice, ApplicationsByInvoice, Max;
  }

  lemma PaymentReports(b: Books, p: Row<LedgerPayment>, f: Failure)
    ensures f in PaymentFailures(b, p) <==> PaymentDeserves(b, p, f)
  {
    AllocationsAddUp(b.ledger.allocations, p.academy, p.id);
    OverpaymentsAddUp(b.credits, p.academy, OwnAllocations(b, p));
    assert AllocationIdsOf(b.ledger.allocations, p.academy, p.id) == OwnAllocations(b, p);
    hide SumOf, Total, PaidOnFigure, PaidFromFigure, OverpaidFigure, AllocationsByPayment, OverpaymentsBySource, OwnAllocations, AllocationIdsOf;
  }

  // ----- the whole audit -----

  /** The failures the credits deserve. */
  ghost predicate CreditsDeserve(b: Books, academy: string, f: Failure) {
    match f
    case CreditBalanceInvalid(id, amount, remaining) =>
      exists c :: c in b.credits && c.academy == academy && c.id == id && c.amount == amount && c.remaining == remaining
                  && !(0 <= remaining <= amount)
    case ApplicationAmountUnrecoverable(pair) =>
      exists c :: c in b.credits && c.academy == academy && Made(c, pair) && !NamedIn(c, pair.invoiceId) && !IsProjected(b, academy, pair)
    case OrphanApplicationRow(pair) =>
      IsProjected(b, academy, pair) && !exists c :: c in b.credits && c.academy == academy && Made(c, pair)
    case _ => false
  }

  ghost predicate IsProjected(b: Books, academy: string, pair: Pair) {
    exists r :: r in b.applications && r.academy == academy && r.pair == pair
  }

  lemma {:induction false} AllInvoicesReport(b: Books, invoices: seq<Row<Invoice>>, academy: string, f: Failure)
    ensures f in AllInvoiceFailures(b, invoices, academy) <==>
      exists r :: r in invoices && r.academy == academy && InvoiceDeserves(b, r, f)
  {
    hide InvoiceFailures, InvoiceDeserves;
    if invoices != [] {
      var n := |invoices| - 1;
      assert invoices == invoices[..n] + [invoices[n]];
      AllInvoicesReport(b, invoices[..n], academy, f);
      InvoiceReports(b, invoices[n], f);
    }
  }

  lemma {:induction false} AllPaymentsReport(b: Books, payments: seq<Row<LedgerPayment>>, academy: string, f: Failure)
    ensures f in AllPaymentFailures(b, payments, academy) <==>
      exists p :: p in payments && p.academy == academy && PaymentDeserves(b, p, f)
  {
    hide PaymentFailures, PaymentDeserves;
    if payments != [] {
      var n := |payments| - 1;
      assert payments == payments[..n] + [payments[n]];
      AllPaymentsReport(b, payments[..n], academy, f);
      PaymentReports(b, payments[n], f);
    }
  }

  lemma {:induction false} ApplicationsReport(c: Credit, appliedTo: seq<string>, known: seq<Pair>, f: Failure)
    ensures f in ApplicationFailures(c, appliedTo, known) <==>
      && f.ApplicationAmountUnrecoverable? && f.pair.creditId == c.id && f.pair.invoiceId in appliedTo
      && !Embeds(c, f.pair.invoiceId) && f.pair !in known
  {
    hide Embeds;
    if appliedTo != [] {
      var n := |appliedTo| - 1;
      assert appliedTo == appliedTo[..n] + [appliedTo[n]];
      ApplicationsReport(c, appliedTo[..n], known, f);
    }
  }

  ghost predicate CreditDeserves(c: Credit, known: seq<Pair>, f: Failure) {
    || (f == CreditBalanceInvalid(c.id, c.amount, c.remaining) && !(0 <= c.remaining <= c.amount))
    || (f.ApplicationAmountUnrecoverable? && Made(c, f.pair) && !NamedIn(c, f.pair.invoiceId) && f.pair !in known)
  }

  lemma CreditReports(c: Credit, known: seq<Pair>, f: Failure)
    ensures f in CreditFailures(c, known) <==> CreditDeserves(c, known, f)
  {
    ApplicationsReport(c, c.appliedTo, known, f);
    EmbedsMeansNamed(c);
    hide ApplicationFailures, Embeds, NamedIn;
  }

  lemma {:induction false} EachCreditReports(credits: seq<Credit>, academy: string, known: seq<Pair>, f: Failure)
    ensures f in EachCreditFailures(credits, academy, known) <==>
      exists c :: c in credits && c.academy == academy && CreditDeserves(c, known, f)
  {
    hide CreditFailures, CreditDeserves;
    if credits != [] {
      var n := |credits| - 1;
      assert credits == credits[..n] + [credits[n]];
      EachCreditReports(credits[..n], academy, known, f);
      CreditReports(credits[n], known, f);
    }
  }

  lemma {:induction false} UnspentMembers(pairs: seq<Pair>, spent: set<Pair>, p: Pair)
    ensures p in Unspent(pairs, spent) <==> p in pairs && p !in spent
  {
    if pairs != [] {
      var n := |pairs| - 1;
      assert pairs == pairs[..n] + [pairs[n]];
      UnspentMembers(pairs[..n], spent, p);
    }
  }

  lemma SameMembers<T>(a: seq<T>, b: seq<T>, x: T)
    requires multiset(a) == multiset(b)
    ensures x in a <==> x in b
  {
    assert x in a <==> x in multiset(a);
    assert x in b <==> x in multiset(b);
  }

  lemma OrphansReport(credits: seq<Credit>, rows: seq<Projected>, academy: string, f: Failure)
    ensures f in OrphanFailures(SortBy(PairLeq, Unspent(ProjectedPairs(rows, academy), SpentPairs(credits, academy)))) <==>
      && f.OrphanApplicationRow? && f.pair in ProjectedPairs(rows, academy)
      && !exists c :: c in credits && c.academy == academy && Made(c, f.pair)
  {
    var (known, spent) := (ProjectedPairs(rows, academy), SpentPairs(credits, academy));
    var sorted := SortBy(PairLeq, Unspent(known, spent));
    SpentMeansMade(credits, academy);
    OrphanMembers(sorted, f);
    if f.OrphanApplicationRow? {
      SameMembers(sorted, Unspent(known, spent), f.pair);
      UnspentMembers(known, spent, f.pair);
    }
    hide ProjectedPairs, SpentPairs, Unspent, Made, SortBy, OrphanFailures;
  }

  lemma OrphanMembers(pairs: seq<Pair>, f: Failure)
    ensures f in OrphanFailures(pairs) <==> f.OrphanApplicationRow? && f.pair in pairs
  {
    var failures := OrphanFailures(pairs);
    assert forall i :: 0 <= i < |pairs| ==> failures[i] == OrphanApplicationRow(pairs[i]);
    if f.OrphanApplicationRow? && f.pair in pairs {
      var i :| 0 <= i < |pairs| && pairs[i] == f.pair;
      assert failures[i] == f;
    }
  }

  lemma CreditsReport(b: Books, academy: string, f: Failure)
    ensures f in AllCreditFailures(b.credits, b.applications, academy) <==> CreditsDeserve(b, academy, f)
  {
    var known := ProjectedPairs(b.applications, academy);
    ProjectedMembers(b.applications, academy);
    EachCreditReports(b.credits, academy, known, f);
    OrphansReport(b.credits, b.applications, academy, f);
    hide ProjectedPairs, SpentPairs, Unspent, Made, SortBy, OrphanFailures, EachCreditFailures, NamedIn;
    assert forall p :: p in known <==> IsProjected(b, academy, p);
    hide IsProjected;
    EachCreditDeserves(b, academy, known, f);
  }

  lemma EachCreditDeserves(b: Books, academy: string, known: seq<Pair>, f: Failure)
    requires forall p :: p in known <==> IsProjected(b, academy, p)
    ensures (exists c :: c in b.credits && c.academy == academy && CreditDeserves(c, known, f))
      <==> CreditsDeserve(b, academy, f) && !f.OrphanApplicationRow?
  {
    hide Made, NamedIn, IsProjected;
    match f
    case CreditBalanceInvalid(id, amount, remaining) =>
      if c :| c in b.credits && c.academy == academy && c.id == id && c.amount == amount && c.remaining == remaining
              && !(0 <= remaining <= amount) {
        assert CreditDeserves(c, known, f);
      }
    case ApplicationAmountUnrecoverable(pair) =>
      if c :| c in b.credits && c.academy == academy && Made(c, pair) && !NamedIn(c, pair.invoiceId) && !IsProjected(b, academy, pair) {
        assert CreditDeserves(c, known, f);
      }
    case _ =>
  }

  /** A failure that some row of the academy deserves. */
  ghost predicate Deserved(b: Books, academy: string, f: Failure) {
    || (exists r :: r in b.ledger.invoices && r.academy == academy && InvoiceDeserves(b, r, f))
    || (exists p :: p in b.ledger.payments && p.academy == academy && PaymentDeserves(b, p, f))
    || CreditsDeserve(b, academy, f)
  }

  /** The audit reports exactly what is deserved, the first fifty of it, and passes when there is nothing. */
  lemma AuditReportsDeserved(b: Books, academy: string)
    ensures var r := AuditOf(b, academy);
      && |r.failures| <= 50
      && (forall f :: f in r.failures ==> Deserved(b, academy, f))
      && (|r.failures| < 50 ==> forall f :: Deserved(b, academy, f) ==> f in r.failures)
      && (r.passed <==> forall f :: !Deserved(b, academy, f))
  {
    var all := AllFailures(b, academy);
    forall f ensures f in all <==> Deserved(b, academy, f) {
      AllInvoicesReport(b, b.ledger.invoices, academy, f);
      AllPaymentsReport(b, b.ledger.payments, academy, f);
      CreditsReport(b, academy, f);
      hide *;
      AllFailuresAre(b, academy, f);
    }
    hide AllFailures, Deserved, CountRows, CreditAudit.CountOf;
    if all != [] {
      assert all[0] in all;
    }
  }

  lemma AllFailuresAre(b: Books, academy: string, f: Failure)
    requires f in AllInvoiceFailures(b, b.ledger.invoices, academy) <==>
      exists r :: r in b.ledger.invoices && r.academy == academy && InvoiceDeserves(b, r, f)
    requires f in AllPaymentFailures(b, b.ledger.payments, academy) <==>
      exists p :: p in b.ledger.payments && p.academy == academy && PaymentDeserves(b, p, f)
    requires f in AllCreditFailures(b.credits, b.applications, academy) <==> CreditsDeserve(b, academy, f)
    ensures f in AllFailures(b, academy) <==> Deserved(b, academy, f)
  {
    hide AllInvoiceFailures, AllPaymentFailures, AllCreditFailures, InvoiceDeserves, PaymentDeserves, CreditsDeserve;
  }

  /** Invoices are reported before payments, these before credits, and projected pairs without a credit last. */
  function Rank(f: Failure): nat {
    match f
    case PaymentAllocationMismatch(_, _, _, _, _) => 1
    case CreditBalanceInvalid(_, _, _) => 2
    case ApplicationAmountUnrecoverable(_) => 2
    case OrphanApplicationRow(_) => 3
    case _ => 0
  }

  ghost predicate InOrderOfRank(failures: seq<Failure>) {
    forall i, j :: 0 <= i < j < |failures| ==> Rank(failures[i]) <= Rank(failures[j])
  }

  lemma RanksConcat(a: seq<Failure>, b: seq<Failure>, r: nat)
    requires InOrderOfRank(a) && InOrderOfRank(b)
    requires (forall f :: f in a ==> Rank(f) <= r) && forall f :: f in b ==> Rank(f) >= r
    ensures InOrderOfRank(a + b)
  {
    hide Rank;
    assert forall i :: 0 <= i < |a| ==> a[i] in a;
    assert forall j :: 0 <= j < |b| ==> b[j] in b;
  }

  lemma SameRank(failures: seq<Failure>, r: nat)
    requires forall f :: f in failures ==> Rank(f) == r
    ensures InOrderOfRank(failures)
  {
    hide Rank;
    assert forall i :: 0 <= i < |failures| ==> failures[i] in failures;
  }

  lemma RanksOfParts(b: Books, academy: string)
    ensures forall f :: f in AllInvoiceFailures(b, b.ledger.invoices, academy) ==> Rank(f) == 0
    ensures forall f :: f in AllPaymentFailures(b, b.ledger.payments, academy) ==> Rank(f) == 1
    ensures forall known, f :: f in EachCreditFailures(b.credits, academy, known) ==> Rank(f) == 2
    ensures forall pairs, f :: f in OrphanFailures(pairs) ==> Rank(f) == 3
  {
    forall f | f in AllInvoiceFailures(b, b.ledger.invoices, academy) ensures Rank(f) == 0 {
      AllInvoicesReport(b, b.ledger.invoices, academy, f);
    }
    forall f | f in AllPaymentFailures(b, b.ledger.payments, academy) ensures Rank(f) == 1 {
      AllPaymentsReport(b, b.ledger.payments, academy, f);
    }
    forall known, f | f in EachCreditFailures(b.credits, academy, known) ensures Rank(f) == 2 {
      EachCreditReports(b.credits, academy, known, f);
    }
    forall pairs, f | f in OrphanFailures(pairs) ensures Rank(f) == 3 {
      OrphanMembers(pairs, f);
    }
  }

  /** The audit's list comes in the order of its passes. */
  lemma ReportsInOrder(b: Books, academy: string)
    ensures InOrderOfRank(AuditOf(b, academy).failures)
  {
    RanksOfParts(b, academy);
    hide AllInvoiceFailures, AllPaymentFailures, EachCreditFailures, OrphanFailures, ProjectedPairs, SpentPairs, Unspent, SortBy;
    hide Rank, CountRows, CreditAudit.CountOf, InOrderOfRank;
    var (x, y) := (AllInvoiceFailures(b, b.ledger.invoices, academy), AllPaymentFailures(b, b.ledger.payments, academy));
    var known := ProjectedPairs(b.applications, academy);
    var c := EachCreditFailures(b.credits, academy, known);
    var o := OrphanFailures(SortBy(PairLeq, Unspent(known, SpentPairs(b.credits, academy))));
    SameRank(x, 0);
    SameRank(y, 1);
    SameRank(c, 2);
    SameRank(o, 3);
    RanksConcat(c, o, 2);
    RanksConcat(x, y, 0);
    RanksConcat(x + y, c + o, 1);
    assert AllFailures(b, academy) == (x + y) + (c + o);
    CappedInOrder(AllFailures(b, academy));
  }

  lemma CappedInOrder(failures: seq<Failure>)
    requires InOrderOfRank(failures)
    ensures InOrderOfRank(Capped(failures))
  {
    hide Rank;
  }

  /** Projected pairs without a credit are reported by credit, then by invoice. */
  lemma OrphansAscend(pairs: seq<Pair>, i: nat, j: nat)
    requires i < j < |SortBy(PairLeq, pairs)|
    ensures var (p, q) := (SortBy(PairLeq, pairs)[i], SortBy(PairLeq, pairs)[j]);
      StringLess(p.creditId, q.creditId) || (p.creditId == q.creditId && (p.invoiceId == q.invoiceId || StringLess(p.invoiceId, q.invoiceId)))
  {
    PairOrderIsTotal();
    SortIsAscending(PairLeq, pairs);
    hide SortBy, StringLess, TotalOrder;
  }

  lemma PairOrderIsTotal()
    ensures TotalOrder(PairLeq)
  {
    forall p, q
      ensures PairLeq(p, q) || PairLeq(q, p)
      ensures PairLeq(p, q) && PairLeq(q, p) ==> p == q
    {
      StringsCompare(p.creditId, q.creditId);
      StringsCompare(p.invoiceId, q.invoiceId);
      hide StringLess;
    }
    forall p, q, r | PairLeq(p, q) && PairLeq(q, r)
      ensures PairLeq(p, r)
    {
      PairLeqIsTransitive(p, q, r);
    }
    hide PairLeq;
  }

  lemma PairLeqIsTransitive(p: Pair, q: Pair, r: Pair)
    requires PairLeq(p, q) && PairLeq(q, r)
    ensures PairLeq(p, r)
  {
    if StringLess(p.creditId, q.creditId) && StringLess(q.creditId, r.creditId) {
      StringLessIsTransitive(p.creditId, q.creditId, r.creditId);
    } else if p.creditId == q.creditId == r.creditId && StringLess(p.invoiceId, q.invoiceId) && StringLess(q.invoiceId, r.invoiceId) {
      StringLessIsTransitive(p.invoiceId, q.invoiceId, r.invoiceId);
    }
    hide StringLess;
  }

  /** An invoice whose figures agree with each other and with what was paid and credited. */
  ghost predicate InvoiceSound(b: Books, r: Row<Invoice>) {
    var i := r.body;
    && (Lined(b, r) == 0 || Lined(b, r) == Subtotal(i))
    && i.total == Max(Subtotal(i) - i.discount, 0)
    && (i.status !in {Void, Waived, Cancelled} ==> i.balance == Due(b, r))
    && (i.status == Paid ==> i.balance == 0)
  }

  /** A settled payment that is allocated, credited or unapplied to its last cent. */
  ghost predicate PaymentSound(b: Books, p: Row<LedgerPayment>) {
    p.body.succeeded ==> p.body.amount == PaidFrom(b, p) + LeftAsCredit(b, p) + p.body.unapplied
  }

  lemma SoundIff(b: Books, r: Row<Invoice>)
    ensures InvoiceFailures(b, r) == [] <==> InvoiceSound(b, r)
  {
    LinesAddUp(b.ledger.lines, r.academy, r.id);
    AllocationsAddUp(b.ledger.allocations, r.academy, r.id);
    ApplicationsAddUp(b.applications, r.academy, r.id);
    hide SumOf, Total, LineFigure, PaidOnFigure, PaidFromFigure, CreditFigure, LineEntries, AllocationsByInvoice, ApplicationsByInvoice, Max;
  }

  lemma PaymentSoundIff(b: Books, p: Row<LedgerPayment>)
    ensures PaymentFailures(b, p) == [] <==> PaymentSound(b, p)
  {
    AllocationsAddUp(b.ledger.allocations, p.academy, p.id);
    OverpaymentsAddUp(b.credits, p.academy, OwnAllocations(b, p));
    assert AllocationIdsOf(b.ledger.allocations, p.academy, p.id) == OwnAllocations(b, p);
    hide SumOf, Total, PaidOnFigure, PaidFromFigure, OverpaidFigure, AllocationsByPayment, OverpaymentsBySource, OwnAllocations, AllocationIdsOf;
  }

  /** The audit passes exactly when every invoice and every payment of the academy is sound and its credits are in order. */
  lemma AuditPassesIff(b: Books, academy: string)
    ensures AuditOf(b, academy).passed <==>
      && (forall r :: r in b.ledger.invoices && r.academy == academy ==> InvoiceSound(b, r))
      && (forall p :: p in b.ledger.payments && p.academy == academy ==> PaymentSound(b, p))
      && InOrder(b.credits, b.applications, academy)
  {
    BackfillPassesAudit.InvoicesPassIff(b, b.ledger.invoices, academy);
    BackfillPassesAudit.PaymentsPassIff(b, b.ledger.payments, academy);
    CreditPassIff(b.credits, b.applications, academy);
    forall r ensures InvoiceFailures(b, r) == [] <==> InvoiceSound(b, r) {
      SoundIff(b, r);
    }
    forall p ensures PaymentFailures(b, p) == [] <==> PaymentSound(b, p) {
      PaymentSoundIff(b, p);
    }
    hide InvoiceFailures, PaymentFailures, InvoiceSound, PaymentSound, AllInvoiceFailures, AllPaymentFailures, AllCreditFailures, InOrder;
    hide CountRows, CreditAudit.CountOf;
  }

  /** The books with one invoice's balance moved. */
  function WithBalance(b: Books, k: nat, balance: int): Books
    requires k < |b.ledger.invoices|
  {
    var r := b.ledger.invoices[k];
    b.(ledger := b.ledger.(invoices := b.ledger.invoices[k := r.(body := r.body.(balance := balance))]))
  }

  /** Detection: moving the correct balance of an invoice that is not exempt, up or down and by any amount, fails the audit. */
  lemma MovedBalanceFails(b: Books, academy: string, k: nat, d: int)
    requires k < |b.ledger.invoices| && b.ledger.invoices[k].academy == academy && d != 0
    requires InvoiceSound(b, b.ledger.invoices[k]) && b.ledger.invoices[k].body.status !in {Void, Waived, Cancelled}
    ensures !AuditOf(WithBalance(b, k, b.ledger.invoices[k].body.balance + d), academy).passed
  {
    var (r, after) := (b.ledger.invoices[k], WithBalance(b, k, b.ledger.invoices[k].body.balance + d));
    var moved := after.ledger.invoices[k];
    assert moved in after.ledger.invoices;
    hide Total, LineFigure, PaidOnFigure, CreditFigure;
    assert Due(after, moved) == Due(b, r);
    AuditPassesIff(after, academy);
    hide AuditOf, PaymentSound, InOrder;
  }
}
