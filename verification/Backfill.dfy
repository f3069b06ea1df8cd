/** The backfill of legacy payments into the ledger: one planning pass over the rows, then four batches of inserts. */
module Backfill {
  import opened Arithmetic
  import opened Wrappers
  import opened Collections
  import opened LegacyPayments

  /** The four ledger collections as a value. */
  datatype Ledger = Ledger(
    invoices: seq<Row<Invoice>>, lines: seq<Row<Line>>,
    payments: seq<Row<LedgerPayment>>, allocations: seq<Row<Allocation>>)

  /** A set of ledger rows to insert. */
  type Batches = Ledger

  const NO_ROWS := Ledger([], [], [], [])

  function PlusRows(a: Ledger, b: Batches): Ledger {
    Ledger(a.invoices + b.invoices, a.lines + b.lines, a.payments + b.payments, a.allocations + b.allocations)
  }

  function Optional<T>(o: Option<T>): seq<T> {
    if o.Some? then [o.value] else []
  }

  /** Everything the backfill wants in the ledger for a list of rows. */
  function Wanted(docs: seq<Payment>): Batches {
    if docs == [] then NO_ROWS else
    var (before, doc) := (Wanted(docs[..|docs| - 1]), docs[|docs| - 1]);
    if Eligible(doc) then PlusRows(before, RowsOf(MappedOf(doc))) else before
  }

  function RowsOf(m: Mapped): Batches {
    Ledger([m.invoice], [m.line], Optional(m.payment), Optional(m.allocation))
  }

  function Missing(l: Ledger, wanted: Batches): Batches {
    Ledger(Absent(l.invoices, wanted.invoices), Absent(l.lines, wanted.lines),
           Absent(l.payments, wanted.payments), Absent(l.allocations, wanted.allocations))
  }

  /** The ledger after an uninterrupted run. */
  function Backfilled(l: Ledger, docs: seq<Payment>): Ledger {
    PlusRows(l, Missing(l, Wanted(docs)))
  }

  function OfAcademy(docs: seq<Payment>, academy: string): seq<Payment> {
    if docs == [] then [] else
    var last := docs[|docs| - 1];
    OfAcademy(docs[..|docs| - 1], academy) + if last.academy == academy then [last] else []
  }

  function LegacyOnly(docs: seq<Payment>): seq<Payment> {
    if docs == [] then [] else
    var last := docs[|docs| - 1];
    LegacyOnly(docs[..|docs| - 1]) + if IsLegacy(last) then [last] else []
  }

  /** The rows one run looks at. */
  function LegacyRows(docs: seq<Payment>, academy: string): seq<Payment> {
    LegacyOnly(OfAcademy(docs, academy))
  }

  predicate AllPresent(l: Ledger, m: Mapped) {
    && Has(l.invoices, m.invoice.academy, m.invoice.id)
    && Has(l.lines, m.line.academy, m.line.id)
    && (m.payment.Some? ==> Has(l.payments, m.payment.value.academy, m.payment.value.id))
    && (m.allocation.Some? ==> Has(l.allocations, m.allocation.value.academy, m.allocation.value.id))
  }

  datatype Counters = Counters(deleted: nat, unknown: nat, errors: nat, mapped: nat, already: nat)

  /** The run's counters over a list of rows; every row lands in exactly one of the first four. */
  function Counted(l: Ledger, docs: seq<Payment>): (c: Counters)
    ensures c.deleted + c.unknown + c.errors + c.mapped == |docs| && c.already <= c.mapped
  {
    if docs == [] then Counters(0, 0, 0, 0, 0) else
    var (c, doc) := (Counted(l, docs[..|docs| - 1]), docs[|docs| - 1]);
    if Truthy(doc.isDeleted) then c.(deleted := c.deleted + 1)
    else if KindOf(doc.status).UnknownKind? then c.(unknown := c.unknown + 1)
    else if FiguresOf(doc).Raised? then c.(errors := c.errors + 1)
    else c.(mapped := c.mapped + 1, already := c.already + if AllPresent(l, MappedOf(doc)) then 1 else 0)
  }

  // ----- reconciliation -----

  function ParentKey(doc: Payment): string {
    if ParentId(doc) == "" then "unknown" else ParentId(doc)
  }

  function DocsOf(docs: seq<Payment>, parent: string): seq<Payment> {
    if docs == [] then [] else
    var last := docs[|docs| - 1];
    DocsOf(docs[..|docs| - 1], parent) + if Eligible(last) && ParentKey(last) == parent then [last] else []
  }

  /** `find_one` by academy and id: the first match. */
  function Lookup<T>(coll: seq<Row<T>>, academy: string, id: string): Option<Row<T>> {
    if coll == [] then None
    else if coll[0].academy == academy && coll[0].id == id then Some(coll[0])
    else Lookup(coll[1..], academy, id)
  }

  lemma {:induction false} LookupIsHas<T>(coll: seq<Row<T>>, academy: string, id: string)
    ensures Lookup(coll, academy, id).Some? <==> Has(coll, academy, id)
  {
    if coll != [] && !(coll[0].academy == academy && coll[0].id == id) {
      LookupIsHas(coll[1..], academy, id);
      if Has(coll, academy, id) {
        var i :| 0 <= i < |coll| && coll[i].academy == academy && coll[i].id == id;
        assert coll[1..][i - 1] == coll[i];
      }
    }
  }

  /** The invoice the report counts for a row: the one already there, or else the new one. */
  function InvoiceFor(l: Ledger, doc: Payment): Row<Invoice>
    requires Eligible(doc)
  {
    var m := MappedOf(doc);
    var existing := Lookup(l.invoices, m.invoice.academy, m.invoice.id);
    if existing.Some? then existing.value else m.invoice
  }

  function InvoicesOf(l: Ledger, docs: seq<Payment>, parent: string): seq<Row<Invoice>> {
    if docs == [] then [] else
    var last := docs[|docs| - 1];
    InvoicesOf(l, docs[..|docs| - 1], parent) +
    if Eligible(last) && ParentKey(last) == parent then [InvoiceFor(l, last)] else []
  }

  function Parents(docs: seq<Payment>): set<string> {
    set d | d in docs && Eligible(d) :: ParentKey(d)
  }

  /** `_legacy_balance_for_parent` on rows that map: only open and partial rows count. */
  function LegacyBalance(docs: seq<Payment>): int {
    if docs == [] then 0 else
    LegacyBalance(docs[..|docs| - 1]) + OwedByLegacy(docs[|docs| - 1])
  }

  function OwedByLegacy(doc: Payment): int {
    var kind := KindOf(doc.status);
    if (kind.OpenKind? || kind.PartialKind?) && FiguresOf(doc).Ok?
    then Max(FiguresOf(doc).value.total - FiguresOf(doc).value.paid, 0) else 0
  }

  function LedgerBalance(invoices: seq<Row<Invoice>>): int {
    if invoices == [] then 0 else
    LedgerBalance(invoices[..|invoices| - 1]) + invoices[|invoices| - 1].body.balance
  }

  predicate Matches(l: Ledger, docs: seq<Payment>, parent: string) {
    LegacyBalance(DocsOf(docs, parent)) == LedgerBalance(InvoicesOf(l, docs, parent))
  }

  function Mismatched(l: Ledger, docs: seq<Payment>): set<string> {
    set p | p in Parents(docs) && !Matches(l, docs, p)
  }

  datatype Report = Report(counters: Counters, toWrite: Batches, mismatches: nat, fatal: nat)

  // ----- the source's mutable form -----

  class Database {
    var payments: seq<Payment>
    var archive: seq<Payment>
    var invoices: seq<Row<Invoice>>
    var lines: seq<Row<Line>>
    var ledgerPayments: seq<Row<LedgerPayment>>
    var allocations: seq<Row<Allocation>>

    function Books(): Ledger
      reads this
    {
      Ledger(invoices, lines, ledgerPayments, allocations)
    }
  }

  method FindOne<T>(coll: seq<Row<T>>, academy: string, id: string) returns (r: Option<Row<T>>)
    ensures r == Lookup(coll, academy, id)
    ensures r.Some? <==> Has(coll, academy, id)
  {
    LookupIsHas(coll, academy, id);
    var i := 0;
    while i < |coll|
      invariant 0 <= i <= |coll|
      invariant Lookup(coll, academy, id) == Lookup(coll[i..], academy, id)
    {
      if coll[i].academy == academy && coll[i].id == id {
        return Some(coll[i]);
      }
      assert coll[i..][1..] == coll[i + 1..];
      i := i + 1;
    }
    r := None;
  }

  method FindLegacyRows(db: Database, academy: string) returns (rows: seq<Payment>)
    ensures rows == LegacyRows(db.payments, academy)
  {
    var own: seq<Payment> := [];
    for i := 0 to |db.payments|
      invariant own == OfAcademy(db.payments[..i], academy)
    {
      assert db.payments[..i + 1][..i] == db.payments[..i];
      if db.payments[i].academy == academy {
        own := own + [db.payments[i]];
      }
    }
    assert db.payments[..|db.payments|] == db.payments;
    rows := [];
    for i := 0 to |own|
      invariant rows == LegacyOnly(own[..i])
    {
      assert own[..i + 1][..i] == own[..i];
      if IsLegacy(own[i]) {
        rows := rows + [own[i]];
      }
    }
    assert own[..|own|] == own;
  }

  /** The per-parent dictionaries list exactly the parents' mapped rows and their invoices. */
  ghost predicate ListsByParent(parentDocs: map<string, seq<Payment>>, parentInvoices: map<string, seq<Row<Invoice>>>,
                                l: Ledger, docs: seq<Payment>) {
    && parentDocs.Keys == parentInvoices.Keys == Parents(docs)
    && (forall p :: p in parentDocs ==> parentDocs[p] == DocsOf(docs, p))
    && (forall p :: p in parentInvoices ==> parentInvoices[p] == InvoicesOf(l, docs, p))
  }

  function Appended<T>(m: map<string, seq<T>>, key: string, item: T): map<string, seq<T>> {
    m[key := (if key in m then m[key] else []) + [item]]
  }

  lemma ListsGrow(parentDocs: map<string, seq<Payment>>, parentInvoices: map<string, seq<Row<Invoice>>>,
                  l: Ledger, before: seq<Payment>, doc: Payment)
    requires Eligible(doc) && ListsByParent(parentDocs, parentInvoices, l, before)
    ensures var p := ParentKey(doc);
      ListsByParent(Appended(parentDocs, p, doc), Appended(parentInvoices, p, InvoiceFor(l, doc)), l, before + [doc])
  {
    hide Parents, DocsOf, InvoicesOf, ParentKey, InvoiceFor, Eligible;
    var (p, after) := (ParentKey(doc), before + [doc]);
    ParentStep(before, doc);
    NoRowsOfOthers(l, before, p);
    forall q | q in Parents(after)
      ensures Appended(parentDocs, p, doc)[q] == DocsOf(after, q)
      ensures Appended(parentInvoices, p, InvoiceFor(l, doc))[q] == InvoicesOf(l, after, q)
    {
      ListStep(l, before, doc, q);
    }
  }

  lemma ListsStay(parentDocs: map<string, seq<Payment>>, parentInvoices: map<string, seq<Row<Invoice>>>,
                  l: Ledger, before: seq<Payment>, doc: Payment)
    requires !Eligible(doc) && ListsByParent(parentDocs, parentInvoices, l, before)
    ensures ListsByParent(parentDocs, parentInvoices, l, before + [doc])
  {
    hide Parents, DocsOf, InvoicesOf, Eligible;
    ParentStep(before, doc);
    forall q | q in Parents(before)
      ensures DocsOf(before + [doc], q) == DocsOf(before, q)
      ensures InvoicesOf(l, before + [doc], q) == InvoicesOf(l, before, q)
    {
      ListStep(l, before, doc, q);
    }
  }

  /** What the planning pass has collected after a list of rows. */
  ghost predicate PlanIs(batches: Batches, counters: Counters, parentDocs: map<string, seq<Payment>>,
                         parentInvoices: map<string, seq<Row<Invoice>>>, l: Ledger, docs: seq<Payment>) {
    && batches == Missing(l, Wanted(docs))
    && counters == Counted(l, docs)
    && ListsByParent(parentDocs, parentInvoices, l, docs)
  }

  /** The write batches and per-parent lists that the planning pass fills. */
  class Plan {
    var batches: Batches
    var counters: Counters
    var parentDocs: map<string, seq<Payment>>
    var parentInvoices: map<string, seq<Row<Invoice>>>

    constructor ()
      ensures batches == NO_ROWS && counters == Counters(0, 0, 0, 0, 0) && parentDocs == map[] && parentInvoices == map[]
    {
      batches, counters, parentDocs, parentInvoices := NO_ROWS, Counters(0, 0, 0, 0, 0), map[], map[];
    }

    /** What the plan holds after a list of rows. */
    ghost predicate Holds(l: Ledger, docs: seq<Payment>)
      reads this
    {
      PlanIs(batches, counters, parentDocs, parentInvoices, l, docs)
    }

    method AddToParent(doc: Payment, invoice: Row<Invoice>)
      modifies this`parentDocs, this`parentInvoices
      ensures parentDocs == Appended(old(parentDocs), ParentKey(doc), doc)
      ensures parentInvoices == Appended(old(parentInvoices), ParentKey(doc), invoice)
    {
      parentDocs := Appended(parentDocs, ParentKey(doc), doc);
      parentInvoices := Appended(parentInvoices, ParentKey(doc), invoice);
    }

    /** Queues the parts of one mapped row that the ledger lacks. */
    method QueueRow(db: Database, doc: Payment, ghost l: Ledger) returns (already: bool)
      requires Eligible(doc) && l == db.Books()
      modifies this`batches, this`parentDocs, this`parentInvoices
      ensures batches == PlusRows(old(batches), Missing(l, RowsOf(MappedOf(doc))))
      ensures already == AllPresent(l, MappedOf(doc))
      ensures parentDocs == Appended(old(parentDocs), ParentKey(doc), doc)
      ensures parentInvoices == Appended(old(parentInvoices), ParentKey(doc), InvoiceFor(l, doc))
    {
      hide Eligible, MappedOf, ParentKey, Has, Absent, Lookup;
      var m := MappedOf(doc);
      var existing, invoiceBatch := QueueIfAbsent(db.invoices, m.invoice);
      AddToParent(doc, if existing.Some? then existing.value else m.invoice);
      var existingLine, lineBatch := QueueIfAbsent(db.lines, m.line);
      var hasPayment, paymentBatch := QueueOptional(db.ledgerPayments, m.payment);
      var hasAllocation, allocationBatch := QueueOptional(db.allocations, m.allocation);
      already := existing.Some? && existingLine.Some? && hasPayment && hasAllocation;
      batches := PlusRows(batches, Ledger(invoiceBatch, lineBatch, paymentBatch, allocationBatch));
    }
  }

  /** One `find_one` and, when nothing is found, one row for the write batch. */
  method QueueIfAbsent<T(!new)>(coll: seq<Row<T>>, r: Row<T>) returns (existing: Option<Row<T>>, batch: seq<Row<T>>)
    ensures existing == Lookup(coll, r.academy, r.id) && batch == Absent(coll, [r])
    ensures existing.Some? <==> Has(coll, r.academy, r.id)
  {
    hide Has;
    AbsentOfOne(coll, r);
    existing := FindOne(coll, r.academy, r.id);
    batch := if existing.None? then [r] else [];
  }

  method QueueOptional<T(!new)>(coll: seq<Row<T>>, o: Option<Row<T>>) returns (present: bool, batch: seq<Row<T>>)
    ensures batch == Absent(coll, Optional(o))
    ensures present <==> (o.Some? ==> Has(coll, o.value.academy, o.value.id))
  {
    hide Has;
    if o.None? {
      return true, [];
    }
    var existing;
    existing, batch := QueueIfAbsent(coll, o.value);
    present := existing.Some?;
  }

  lemma AbsentOfOne<T(!new)>(coll: seq<Row<T>>, r: Row<T>)
    ensures Absent(coll, [r]) == if Has(coll, r.academy, r.id) then [] else [r]
  {
    hide Has;
    assert [r][..0] == [];
  }

  lemma {:induction false} AbsentConcat<T(!new)>(coll: seq<Row<T>>, a: seq<Row<T>>, b: seq<Row<T>>)
    ensures Absent(coll, a + b) == Absent(coll, a) + Absent(coll, b)
  {
    hide Has;
    if b == [] {
      assert a + b == a;
    } else {
      var n := |b| - 1;
      assert (a + b)[..|a| + n] == a + b[..n];
      AbsentConcat(coll, a, b[..n]);
    }
  }

  lemma MissingPlus(l: Ledger, a: Batches, b: Batches)
    ensures Missing(l, PlusRows(a, b)) == PlusRows(Missing(l, a), Missing(l, b))
  {
    AbsentConcat(l.invoices, a.invoices, b.invoices);
    AbsentConcat(l.lines, a.lines, b.lines);
    AbsentConcat(l.payments, a.payments, b.payments);
    AbsentConcat(l.allocations, a.allocations, b.allocations);
  }

  /** How one parent's lists grow by one row. */
  lemma ListStep(l: Ledger, before: seq<Payment>, doc: Payment, q: string)
    ensures var (after, own) := (before + [doc], Eligible(doc) && ParentKey(doc) == q);
      && DocsOf(after, q) == (if own then DocsOf(before, q) + [doc] else DocsOf(before, q))
      && InvoicesOf(l, after, q) == if own then InvoicesOf(l, before, q) + [InvoiceFor(l, doc)] else InvoicesOf(l, before, q)
  {
    hide Eligible, ParentKey, InvoiceFor;
    assert (before + [doc])[..|before|] == before;
  }

  lemma ParentStep(before: seq<Payment>, doc: Payment)
    ensures Parents(before + [doc]) == Parents(before) + if Eligible(doc) then {ParentKey(doc)} else {}
  {
    hide Eligible, ParentKey;
  }

  lemma WantedStep(l: Ledger, before: seq<Payment>, doc: Payment)
    ensures !Eligible(doc) ==> Wanted(before + [doc]) == Wanted(before)
    ensures Eligible(doc) ==>
      Missing(l, Wanted(before + [doc])) == PlusRows(Missing(l, Wanted(before)), Missing(l, RowsOf(MappedOf(doc))))
  {
    hide Eligible, MappedOf, Missing;
    assert (before + [doc])[..|before|] == before;
    if Eligible(doc) {
      MissingPlus(l, Wanted(before), RowsOf(MappedOf(doc)));
    }
  }

  lemma CountStep(l: Ledger, before: seq<Payment>, doc: Payment)
    ensures var (c, after) := (Counted(l, before), Counted(l, before + [doc]));
      after == if Truthy(doc.isDeleted) then c.(deleted := c.deleted + 1)
               else if KindOf(doc.status).UnknownKind? then c.(unknown := c.unknown + 1)
               else if FiguresOf(doc).Raised? then c.(errors := c.errors + 1)
               else c.(mapped := c.mapped + 1, already := c.already + if AllPresent(l, MappedOf(doc)) then 1 else 0)
  {
    hide Truthy, KindOf, FiguresOf, AllPresent, MappedOf;
    assert (before + [doc])[..|before|] == before;
  }

  /** One row of the planning pass. */
  method PlanRow(plan: Plan, db: Database, doc: Payment, ghost before: seq<Payment>)
    requires plan.Holds(db.Books(), before)
    modifies plan
    ensures plan.Holds(db.Books(), before + [doc])
  {
    ghost var l := db.Books();
    CountStep(l, before, doc);
    hide Truthy, KindOf, FiguresOf, AllPresent, MappedOf, Missing, Wanted, Counted, PlusRows;
    hide ListsByParent, Appended, Parents, DocsOf, InvoicesOf, ParentKey, InvoiceFor;
    var c := plan.counters;
    if Truthy(doc.isDeleted) {
      PlanSkip(plan, l, before, doc);
      plan.counters := c.(deleted := c.deleted + 1);
    } else if KindOf(doc.status).UnknownKind? {
      PlanSkip(plan, l, before, doc);
      plan.counters := c.(unknown := c.unknown + 1);
    } else if FiguresOf(doc).Raised? {
      PlanSkip(plan, l, before, doc);
      plan.counters := c.(errors := c.errors + 1);
    } else {
      PlanMappedRow(plan, db, doc, before);
    }
  }

  method PlanMappedRow(plan: Plan, db: Database, doc: Payment, ghost before: seq<Payment>)
    requires plan.Holds(db.Books(), before) && Eligible(doc)
    modifies plan
    ensures plan.Holds(db.Books(), before + [doc])
  {
    hide PlanIs, ListsByParent, Counted, Wanted, AllPresent, MappedOf, Missing, PlusRows, RowsOf, Eligible, Appended, ParentKey, InvoiceFor;
    ghost var l := db.Books();
    PlanGrows(plan.batches, plan.counters, plan.parentDocs, plan.parentInvoices, l, before, doc);
    var c := plan.counters;
    var already := plan.QueueRow(db, doc, l);
    plan.counters := c.(mapped := c.mapped + 1, already := c.already + if already then 1 else 0);
  }

  /** One mapped row added to everything the plan collects. */
  lemma PlanGrows(batches: Batches, c: Counters, parentDocs: map<string, seq<Payment>>, parentInvoices: map<string, seq<Row<Invoice>>>,
                  l: Ledger, before: seq<Payment>, doc: Payment)
    requires PlanIs(batches, c, parentDocs, parentInvoices, l, before) && Eligible(doc)
    ensures PlanIs(PlusRows(batches, Missing(l, RowsOf(MappedOf(doc)))),
                   c.(mapped := c.mapped + 1, already := c.already + if AllPresent(l, MappedOf(doc)) then 1 else 0),
                   Appended(parentDocs, ParentKey(doc), doc), Appended(parentInvoices, ParentKey(doc), InvoiceFor(l, doc)),
                   l, before + [doc])
  {
    PlanParts(batches, c, parentDocs, parentInvoices, l, before);
    hide *;
    CountEligible(l, before, doc);
    WantedStep(l, before, doc);
    ListsGrow(parentDocs, parentInvoices, l, before, doc);
    PlanParts(PlusRows(batches, Missing(l, RowsOf(MappedOf(doc)))),
              c.(mapped := c.mapped + 1, already := c.already + if AllPresent(l, MappedOf(doc)) then 1 else 0),
              Appended(parentDocs, ParentKey(doc), doc), Appended(parentInvoices, ParentKey(doc), InvoiceFor(l, doc)),
              l, before + [doc]);
  }

  lemma PlanParts(batches: Batches, c: Counters, parentDocs: map<string, seq<Payment>>, parentInvoices: map<string, seq<Row<Invoice>>>,
                  l: Ledger, docs: seq<Payment>)
    ensures PlanIs(batches, c, parentDocs, parentInvoices, l, docs) <==>
      batches == Missing(l, Wanted(docs)) && c == Counted(l, docs) && ListsByParent(parentDocs, parentInvoices, l, docs)
  {
  }

  lemma CountEligible(l: Ledger, before: seq<Payment>, doc: Payment)
    requires Eligible(doc)
    ensures var c := Counted(l, before);
      Counted(l, before + [doc])
      == c.(mapped := c.mapped + 1, already := c.already + if AllPresent(l, MappedOf(doc)) then 1 else 0)
  {
    CountStep(l, before, doc);
  }

  lemma PlanSkip(plan: Plan, l: Ledger, before: seq<Payment>, doc: Payment)
    requires plan.Holds(l, before) && !Eligible(doc)
    ensures plan.batches == Missing(l, Wanted(before + [doc]))
    ensures ListsByParent(plan.parentDocs, plan.parentInvoices, l, before + [doc])
  {
    WantedStep(l, before, doc);
    ListsStay(plan.parentDocs, plan.parentInvoices, l, before, doc);
  }

  /** The planning pass. */
  method PlanRun(db: Database, rows: seq<Payment>) returns (plan: Plan)
    ensures fresh(plan) && plan.Holds(db.Books(), rows)
  {
    hide Wanted, Parents, DocsOf, InvoicesOf, Counted;
    plan := new Plan();
    ghost var l := db.Books();
    NothingPlanned(l);
    for i := 0 to |rows|
      invariant fresh(plan) && plan.Holds(l, rows[..i])
    {
      assert rows[..i + 1] == rows[..i] + [rows[i]];
      PlanRow(plan, db, rows[i], rows[..i]);
    }
    assert rows[..|rows|] == rows;
  }

  lemma NothingPlanned(l: Ledger)
    ensures Missing(l, Wanted([])) == NO_ROWS && Counted(l, []) == Counters(0, 0, 0, 0, 0) && Parents([]) == {}
  {
  }

  lemma {:induction false} NoRowsOfOthers(l: Ledger, docs: seq<Payment>, parent: string)
    ensures parent !in Parents(docs) ==> DocsOf(docs, parent) == [] && InvoicesOf(l, docs, parent) == []
  {
    hide Eligible, MapLegacyPayment, ParentKey, InvoiceFor;
    if docs != [] {
      var n := |docs| - 1;
      assert docs == docs[..n] + [docs[n]];
      assert Parents(docs[..n]) <= Parents(docs);
      NoRowsOfOthers(l, docs[..n], parent);
    }
  }

  method LegacyBalanceForParent(docs: seq<Payment>) returns (total: int)
    ensures total == LegacyBalance(docs)
  {
    hide FiguresOf, KindOf;
    total := 0;
    for i := 0 to |docs|
      invariant total == LegacyBalance(docs[..i])
    {
      assert docs[..i + 1][..i] == docs[..i];
      var kind := KindOf(docs[i].status);
      if kind.PaidKind? || kind.VoidKind? {
        continue;
      }
      if !kind.OpenKind? && !kind.PartialKind? {
        continue;
      }
      var figures := FiguresOf(docs[i]);
      if figures.Ok? {
        total := total + Max(figures.value.total - figures.value.paid, 0);
      }
    }
    assert docs[..|docs|] == docs;
  }

  method LedgerBalanceForParent(invoices: seq<Row<Invoice>>) returns (total: int)
    ensures total == LedgerBalance(invoices)
  {
    total := 0;
    for i := 0 to |invoices|
      invariant total == LedgerBalance(invoices[..i])
    {
      assert invoices[..i + 1][..i] == invoices[..i];
      total := total + invoices[i].body.balance;
    }
    assert invoices[..|invoices|] == invoices;
  }

  method Reconcile(plan: Plan, ghost l: Ledger, ghost docs: seq<Payment>) returns (mismatches: nat)
    requires plan.Holds(l, docs)
    ensures mismatches == |Mismatched(l, docs)|
  {
    hide Parents, DocsOf, InvoicesOf, LegacyBalance, LedgerBalance;
    mismatches := 0;
    var todo := plan.parentDocs.Keys;
    ghost var found: set<string> := {};
    while todo != {}
      invariant todo <= Parents(docs)
      invariant found == set p | p in Parents(docs) && p !in todo && !Matches(l, docs, p)
      invariant mismatches == |found|
      decreases todo
    {
      var parent :| parent in todo;
      var legacy := LegacyBalanceForParent(plan.parentDocs[parent]);
      var ledger := LedgerBalanceForParent(plan.parentInvoices[parent]);
      if legacy != ledger {
        mismatches := mismatches + 1;
        found := found + {parent};
      }
      todo := todo - {parent};
    }
    assert found == Mismatched(l, docs);
  }

  /** `backfill_legacy_payments`. */
  method BackfillLegacyPayments(db: Database, academy: string, dryRun: bool) returns (r: Report)
    modifies db
    ensures var (l, rows) := (old(db.Books()), LegacyRows(db.payments, academy));
      && db.Books() == (if dryRun then l else Backfilled(l, rows))
      && r.counters == Counted(l, rows) && r.toWrite == Missing(l, Wanted(rows))
      && r.mismatches == |Mismatched(l, rows)| && r.fatal == r.counters.errors + r.mismatches
    ensures db.payments == old(db.payments) && db.archive == old(db.archive)
  {
    hide Missing, Wanted, Counted, Mismatched, LegacyRows;
    ghost var l := db.Books();
    var rows := FindLegacyRows(db, academy);
    var plan := PlanRun(db, rows);
    if !dryRun {
      db.invoices := db.invoices + plan.batches.invoices;
      db.lines := db.lines + plan.batches.lines;
      db.ledgerPayments := db.ledgerPayments + plan.batches.payments;
      db.allocations := db.allocations + plan.batches.allocations;
    }
    var mismatches := Reconcile(plan, l, rows);
    r := Report(plan.counters, plan.batches, mismatches, plan.counters.errors + mismatches);
  }
}
