/** Archiving and deleting the retired `payments` rows, one insert and one delete per row, and the audit that judges it. */
module Archive {
  import opened Wrappers
  import opened Collections
  import opened LegacyPayments
  import opened Backfill

  datatype Reason = PaymentIdMissing | NoBackfilledInvoice | NotCopiedToLedger

  datatype Blocker = Blocker(paymentId: string, reason: Reason)

  /** The two collections the apply loop writes. */
  datatype State = State(payments: seq<Payment>, archive: seq<Payment>)

  datatype Outcome = DryRun | Blocked | Completed | Crashed | FieldMissing

  // ----- the scan -----

  /** An invoice with the derived id or with the provenance marker. */
  predicate HasInvoice(l: Ledger, academy: string, id: string) {
    exists r :: r in l.invoices && r.academy == academy && (r.id == InvoiceId(id) || r.body.backfillPaymentId == id)
  }

  function BlockerOf(l: Ledger, doc: Payment): Option<Blocker> {
    var id := PaymentId(doc);
    if id == "" then Some(Blocker("", PaymentIdMissing))
    else if IsLegacy(doc) then
      if HasInvoice(l, doc.academy, id) then None else Some(Blocker(id, NoBackfilledInvoice))
    else
      if Has(l.payments, doc.academy, id) then None else Some(Blocker(id, NotCopiedToLedger))
  }

  function Blockers(l: Ledger, rows: seq<Payment>): seq<Blocker> {
    if rows == [] then [] else Blockers(l, rows[..|rows| - 1]) + Optional(BlockerOf(l, rows[|rows| - 1]))
  }

  // ----- the apply loop, write by write -----

  /** Equal under the archive's unique index, which covers every string, blank ones included, and nothing else. */
  predicate SameText(a: Payment, b: Payment) {
    a.academy == b.academy && a.paymentId.StringId? && a.paymentId == b.paymentId
  }

  predicate HasText(docs: seq<Payment>, doc: Payment) {
    exists a :: a in docs && SameText(a, doc)
  }

  /** `insert_one` into the archive, a duplicate being ignored. */
  function InsertRow(archive: seq<Payment>, doc: Payment): seq<Payment> {
    if HasText(archive, doc) then archive else archive + [doc]
  }

  /** The filter of `delete_one` for a row; a query for null also matches an absent field. */
  predicate DeleteMatches(doc: Payment, p: Payment) {
    p.academy == doc.academy &&
    match doc.paymentId
    case StringId(_) => p.paymentId == doc.paymentId
    case NullId => !p.paymentId.StringId?
    case NoId => false
  }

  /** `delete_one`: the first match goes. */
  function Remove(payments: seq<Payment>, doc: Payment): seq<Payment> {
    if payments == [] then []
    else if DeleteMatches(doc, payments[0]) then payments[1..]
    else [payments[0]] + Remove(payments[1..], doc)
  }

  function Insert(s: State, doc: Payment): State {
    s.(archive := InsertRow(s.archive, doc))
  }

  function Delete(s: State, doc: Payment): State {
    s.(payments := Remove(s.payments, doc))
  }

  /** How many writes the loop can make: the delete needs the row's own payment id field. */
  function Reach(rows: seq<Payment>): (n: nat)
    ensures n <= 2 * |rows|
  {
    if rows == [] then 0
    else if rows[0].paymentId.NoId? then 1
    else 2 + Reach(rows[1..])
  }

  /** The collections after the first `k` writes. */
  function AfterWrites(s: State, rows: seq<Payment>, k: nat): State
    decreases k
  {
    if k == 0 || rows == [] then s
    else if k == 1 then Insert(s, rows[0])
    else AfterWrites(Delete(Insert(s, rows[0]), rows[0]), rows[1..], k - 2)
  }

  /** The collections a process leaves that survives for `writes` writes. */
  function AfterCrash(s: State, rows: seq<Payment>, writes: nat): State {
    AfterWrites(s, rows, if writes < Reach(rows) then writes else Reach(rows))
  }

  predicate AllHaveField(rows: seq<Payment>) {
    forall r :: r in rows ==> !r.paymentId.NoId?
  }

  function OutcomeOf(rows: seq<Payment>, writes: nat): Outcome {
    if writes < Reach(rows) then Crashed else if AllHaveField(rows) then Completed else FieldMissing
  }

  // ----- the source's mutable form -----

  method HasBackfilledInvoice(db: Database, academy: string, id: string) returns (found: bool)
    ensures found == HasInvoice(db.Books(), academy, id)
  {
    found := false;
    for i := 0 to |db.invoices|
      invariant found == exists r :: r in db.invoices[..i] && r.academy == academy && (r.id == InvoiceId(id) || r.body.backfillPaymentId == id)
    {
      var r := db.invoices[i];
      assert db.invoices[..i + 1] == db.invoices[..i] + [r];
      if r.academy == academy && (r.id == InvoiceId(id) || r.body.backfillPaymentId == id) {
        found := true;
      }
    }
    assert db.invoices[..|db.invoices|] == db.invoices;
  }

  /** The scan: every row is a blocker or archiveable. */
  method Scan(db: Database, rows: seq<Payment>) returns (blockers: seq<Blocker>, archiveable: seq<Payment>)
    ensures blockers == Blockers(db.Books(), rows)
    ensures blockers == [] ==> archiveable == rows
  {
    hide HasInvoice, Has, PaymentId, IsLegacy;
    blockers, archiveable := [], [];
    for i := 0 to |rows|
      invariant blockers == Blockers(db.Books(), rows[..i])
      invariant blockers == [] ==> archiveable == rows[..i]
    {
      var doc := rows[i];
      assert rows[..i + 1][..i] == rows[..i];
      var id := PaymentId(doc);
      if id == "" {
        blockers := blockers + [Blocker("", PaymentIdMissing)];
        continue;
      }
      if IsLegacy(doc) {
        var invoice := HasBackfilledInvoice(db, doc.academy, id);
        if !invoice {
          blockers := blockers + [Blocker(id, NoBackfilledInvoice)];
          continue;
        }
      } else {
        var copied := FindOne(db.ledgerPayments, doc.academy, id);
        if copied.None? {
          blockers := blockers + [Blocker(id, NotCopiedToLedger)];
          continue;
        }
      }
      archiveable := archiveable + [doc];
    }
    assert rows[..|rows|] == rows;
  }

  ghost function Stored(db: Database): State
    reads db
  {
    State(db.payments, db.archive)
  }

  /** The apply loop of a process that survives for `writes` database writes. */
  method Apply(db: Database, rows: seq<Payment>, writes: nat) returns (outcome: Outcome)
    modifies db`payments, db`archive
    ensures Stored(db) == AfterCrash(old(Stored(db)), rows, writes)
    ensures outcome == OutcomeOf(rows, writes)
    ensures db.Books() == old(db.Books())
  {
    hide AfterCrash, OutcomeOf, SameText, Remove;
    RunOfNothing(Stored(db));
    var left := writes;
    ghost var s := Stored(db);
    for i := 0 to |rows|
      invariant AfterCrash(s, rows, writes) == AfterCrash(Stored(db), rows[i..], left)
      invariant OutcomeOf(rows, writes) == OutcomeOf(rows[i..], left)
      invariant db.Books() == old(db.Books())
    {
      var doc := rows[i];
      assert rows[i..] == [doc] + rows[i + 1..];
      RunStep(Stored(db), doc, rows[i + 1..], left);
      if left == 0 {
        return Crashed;
      }
      var known := exists a :: a in db.archive && SameText(a, doc);
      if !known {
        db.archive := db.archive + [doc];
      }
      if doc.paymentId.NoId? {
        return FieldMissing;
      }
      if left == 1 {
        return Crashed;
      }
      db.payments := Remove(db.payments, doc);
      left := left - 2;
    }
    RunOfNothing(Stored(db));
    outcome := Completed;
  }

  lemma RunOfNothing(s: State)
    ensures forall left: nat :: AfterCrash(s, [], left) == s && OutcomeOf([], left) == Completed
  {
  }

  /** The first row of a run: an insert, then a delete that needs the row's payment id field, then the rest. */
  lemma RunStep(s: State, doc: Payment, rest: seq<Payment>, left: nat)
    ensures AfterCrash(s, [doc] + rest, left)
         == if left == 0 then s else if doc.paymentId.NoId? || left == 1 then Insert(s, doc)
            else AfterCrash(Delete(Insert(s, doc), doc), rest, left - 2)
    ensures OutcomeOf([doc] + rest, left)
         == if left == 0 then Crashed else if doc.paymentId.NoId? then FieldMissing
            else if left == 1 then Crashed else OutcomeOf(rest, left - 2)
  {
    hide Insert, Delete;
    var rows := [doc] + rest;
    assert rows[1..] == rest;
    assert doc in rows;
  }

  /** `archive_legacy_payments`. */
  method ArchiveLegacyPayments(db: Database, academy: string, apply: bool, writes: nat)
    returns (outcome: Outcome, blockers: seq<Blocker>)
    modifies db`payments, db`archive
    ensures var (s, rows) := (old(Stored(db)), OfAcademy(old(db.payments), academy));
      && blockers == Blockers(old(db.Books()), rows)
      && (!apply || blockers != [] ==> Stored(db) == s && outcome in {DryRun, Blocked})
      && (apply && blockers == [] ==>
            Stored(db) == AfterCrash(s, rows, writes) && outcome == OutcomeOf(rows, writes))
    ensures db.Books() == old(db.Books())
  {
    var rows := FindRows(db, academy);
    var archiveable;
    blockers, archiveable := Scan(db, rows);
    if !apply {
      return DryRun, blockers;
    }
    if blockers != [] {
      return Blocked, blockers;
    }
    outcome := Apply(db, archiveable, writes);
  }

  method FindRows(db: Database, academy: string) returns (rows: seq<Payment>)
    ensures rows == OfAcademy(db.payments, academy)
  {
    rows := [];
    for i := 0 to |db.payments|
      invariant rows == OfAcademy(db.payments[..i], academy)
    {
      assert db.payments[..i + 1][..i] == db.payments[..i];
      if db.payments[i].academy == academy {
        rows := rows + [db.payments[i]];
      }
    }
    assert db.payments[..|db.payments|] == db.payments;
  }

  // ----- the retirement audit -----

  datatype Retirement = Retirement(activeLegacy: nat, missingBackfill: nat, ledgerShaped: nat, missingCopy: nat)

  /** The audit skips only rows whose deletion flag is literally true. */
  function CountRow(l: Ledger, c: Retirement, doc: Payment): Retirement {
    if IsLegacy(doc) then
      if doc.isDeleted == Bool(true) then c
      else c.(activeLegacy := c.activeLegacy + 1,
              missingBackfill := c.missingBackfill + if HasInvoice(l, doc.academy, PaymentId(doc)) then 0 else 1)
    else
      c.(ledgerShaped := c.ledgerShaped + 1,
         missingCopy := c.missingCopy + if Has(l.payments, doc.academy, PaymentId(doc)) then 0 else 1)
  }

  function Retired(l: Ledger, rows: seq<Payment>): Retirement {
    if rows == [] then Retirement(0, 0, 0, 0) else CountRow(l, Retired(l, rows[..|rows| - 1]), rows[|rows| - 1])
  }

  method AuditRow(db: Database, before: Retirement, doc: Payment) returns (c: Retirement)
    ensures c == CountRow(db.Books(), before, doc)
  {
    hide HasInvoice, Has, PaymentId, IsLegacy;
    c := before;
    if IsLegacy(doc) {
      if doc.isDeleted == Bool(true) {
        return;
      }
      c := c.(activeLegacy := c.activeLegacy + 1);
      var invoice := HasBackfilledInvoice(db, doc.academy, PaymentId(doc));
      if !invoice {
        c := c.(missingBackfill := c.missingBackfill + 1);
      }
    } else {
      c := c.(ledgerShaped := c.ledgerShaped + 1);
      var copied := FindOne(db.ledgerPayments, doc.academy, PaymentId(doc));
      if copied.None? {
        c := c.(missingCopy := c.missingCopy + 1);
      }
    }
  }

  /** The payment-row counts of `audit_legacy_payment_retirement`. */
  method AuditRetirement(db: Database, academy: string) returns (c: Retirement)
    ensures c == Retired(db.Books(), OfAcademy(db.payments, academy))
  {
    hide CountRow;
    var rows := FindRows(db, academy);
    c := Retirement(0, 0, 0, 0);
    for i := 0 to |rows|
      invariant c == Retired(db.Books(), rows[..i])
    {
      assert rows[..i + 1][..i] == rows[..i];
      c := AuditRow(db, c, rows[i]);
    }
    assert rows[..|rows|] == rows;
  }
}
