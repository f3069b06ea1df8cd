/**
 * The account-credit line repair: monthly invoices whose applied credit lives only in the header get the missing
 * credit line, so that recomputing the invoice from its lines no longer bills the credit again.
 */
module CreditLines {
  import opened Arithmetic

  datatype Source = TuitionDiscount | AccountCredit | OtherSource

  datatype InvoiceLine = InvoiceLine(academy: string, lineId: string, invoiceId: string, source: Source, sourceId: string, amount: int)

  datatype Invoice = Invoice(academy: string, id: string, isVoid: bool, isDeleted: bool, discount: int, total: int, balance: int)

  datatype Application = Application(paymentId: string, amount: int)

  /** One credit of the source-of-truth ledger with its embedded applications. */
  datatype Credit = Credit(academy: string, applications: seq<Application>)

  /** One row of the audit projection. */
  datatype Projected = Projected(academy: string, paymentId: string, amount: int)

  datatype Key = Key(academy: string, paymentId: string)

  const INVOICE_PREFIX := "inv-monthly-"
  const LINE_PREFIX := "line-monthly-"

  function Abs(a: int): nat {
    if a < 0 then -a else a
  }

  // ----- applied credit -----

  function SumApplications(apps: seq<Application>, paymentId: string): int {
    if apps == [] then 0 else
    SumApplications(apps[..|apps| - 1], paymentId) + if apps[|apps| - 1].paymentId == paymentId then apps[|apps| - 1].amount else 0
  }

  function SumCredits(credits: seq<Credit>, key: Key): int {
    if credits == [] then 0 else
    var c := credits[|credits| - 1];
    SumCredits(credits[..|credits| - 1], key) + AppliedOf(c.academy, c.applications, key)
  }

  function AppliedOf(academy: string, apps: seq<Application>, key: Key): int {
    if academy == key.academy then SumApplications(apps, key.paymentId) else 0
  }

  function SumProjected(rows: seq<Projected>, key: Key): int {
    if rows == [] then 0 else
    var r := rows[|rows| - 1];
    SumProjected(rows[..|rows| - 1], key) + if Key(r.academy, r.paymentId) == key then r.amount else 0
  }

  /** The larger of the two sources. */
  function Applied(credits: seq<Credit>, projected: seq<Projected>, key: Key): int {
    Max(SumCredits(credits, key), SumProjected(projected, key))
  }

  function At(m: map<Key, int>, key: Key): int {
    if key in m then m[key] else 0
  }

  // ----- one invoice -----

  function OwnLines(lines: seq<InvoiceLine>, inv: Invoice): seq<InvoiceLine> {
    if lines == [] then [] else
    var l := lines[|lines| - 1];
    OwnLines(lines[..|lines| - 1], inv) + if l.academy == inv.academy && l.invoiceId == inv.id then [l] else []
  }

  predicate IsScanned(inv: Invoice) {
    INVOICE_PREFIX <= inv.id && !inv.isVoid && !inv.isDeleted
  }

  function TuitionLineId(inv: Invoice): string
    requires INVOICE_PREFIX <= inv.id
  {
    LINE_PREFIX + inv.id[|INVOICE_PREFIX|..]
  }

  function CreditLineId(inv: Invoice): string
    requires INVOICE_PREFIX <= inv.id
  {
    TuitionLineId(inv) + "-credit"
  }

  predicate HasCreditLine(own: seq<InvoiceLine>) {
    exists l :: l in own && l.source.AccountCredit?
  }

  /** The source id of the first line with the tuition line's id; empty when there is none. */
  function PaymentIdOf(own: seq<InvoiceLine>, tuitionId: string): string {
    if own == [] then "" else if own[0].lineId == tuitionId then own[0].sourceId else PaymentIdOf(own[1..], tuitionId)
  }

  function Charges(own: seq<InvoiceLine>): int {
    if own == [] then 0 else
    Charges(own[..|own| - 1]) + if own[|own| - 1].source.TuitionDiscount? then 0 else own[|own| - 1].amount
  }

  function DiscountLines(own: seq<InvoiceLine>): nat {
    if own == [] then 0 else
    DiscountLines(own[..|own| - 1]) + if own[|own| - 1].source.TuitionDiscount? then Abs(own[|own| - 1].amount) else 0
  }

  datatype Finding = Finding(inv: Invoice, paymentId: string, applied: int, charges: int, discount: int, expected: int)

  datatype Verdict = NotScanned | WithCreditLine | NoCredit | Found(finding: Finding)

  function Examine(lines: seq<InvoiceLine>, inv: Invoice, applied: map<Key, int>): Verdict {
    if !IsScanned(inv) then NotScanned else
    var own := OwnLines(lines, inv);
    if HasCreditLine(own) then WithCreditLine else
    var paymentId := PaymentIdOf(own, TuitionLineId(inv));
    var credit := if paymentId == "" then 0 else At(applied, Key(inv.academy, paymentId));
    if credit <= 0 then NoCredit else
    var charges := Charges(own);
    var discount := Max(inv.discount, DiscountLines(own));
    Found(Finding(inv, paymentId, credit, charges, discount, Max(charges - discount - credit, 0)))
  }

  predicate AtRisk(f: Finding) {
    f.inv.total == f.expected
  }

  function Overcharge(f: Finding): int {
    f.inv.total - f.expected
  }

  /** How much of an overcharge has been paid. */
  function CollectedExcess(f: Finding): int {
    Max(Max(f.inv.total - f.inv.balance, 0) - f.expected, 0)
  }

  function CreditLine(f: Finding): InvoiceLine
    requires INVOICE_PREFIX <= f.inv.id
  {
    InvoiceLine(f.inv.academy, CreditLineId(f.inv), f.inv.id, AccountCredit, f.paymentId, -f.applied)
  }

  predicate HasLine(lines: seq<InvoiceLine>, academy: string, lineId: string) {
    exists l :: l in lines && l.academy == academy && l.lineId == lineId
  }

  /** `$setOnInsert` keyed by the deterministic line id. */
  function Upsert(lines: seq<InvoiceLine>, line: InvoiceLine): seq<InvoiceLine> {
    if HasLine(lines, line.academy, line.lineId) then lines else lines + [line]
  }

  // ----- the audit -----

  datatype Report = Report(
    scanned: nat, withCreditLine: nat, noCredit: nat,
    atRisk: seq<Finding>, overcharged: seq<Finding>, mismatch: seq<Finding>, inserted: nat)

  datatype State = State(lines: seq<InvoiceLine>, report: Report)

  const NOTHING := Report(0, 0, 0, [], [], [], 0)

  function AuditOne(s: State, inv: Invoice, applied: map<Key, int>, apply: bool): State {
    match Examine(s.lines, inv, applied)
    case NotScanned => s
    case WithCreditLine => s.(report := s.report.(scanned := s.report.scanned + 1, withCreditLine := s.report.withCreditLine + 1))
    case NoCredit => s.(report := s.report.(scanned := s.report.scanned + 1, noCredit := s.report.noCredit + 1))
    case Found(f) =>
      var r := s.report.(scanned := s.report.scanned + 1);
      if AtRisk(f) then
        var after := if apply then Upsert(s.lines, CreditLine(f)) else s.lines;
        State(after, r.(atRisk := r.atRisk + [f], inserted := r.inserted + |after| - |s.lines|))
      else if Overcharge(f) > 0 then s.(report := r.(overcharged := r.overcharged + [f]))
      else s.(report := r.(mismatch := r.mismatch + [f]))
  }

  function AuditAll(lines: seq<InvoiceLine>, invoices: seq<Invoice>, applied: map<Key, int>, apply: bool): State {
    if invoices == [] then State(lines, NOTHING) else
    AuditOne(AuditAll(lines, invoices[..|invoices| - 1], applied, apply), invoices[|invoices| - 1], applied, apply)
  }

  // ----- the source's mutable form -----

  /** `_applied_credit_by_key`. */
  method AppliedCreditByKey(credits: seq<Credit>, projected: seq<Projected>) returns (applied: map<Key, int>)
    ensures forall key :: At(applied, key) == Applied(credits, projected, key)
  {
    var source: map<Key, int> := map[];
    for i := 0 to |credits|
      invariant forall key :: At(source, key) == SumCredits(credits[..i], key)
    {
      assert credits[..i + 1][..i] == credits[..i];
      source := AddApplications(source, credits[i]);
    }
    assert credits[..|credits|] == credits;
    var rows: map<Key, int> := map[];
    for i := 0 to |projected|
      invariant forall key :: At(rows, key) == SumProjected(projected[..i], key)
    {
      assert projected[..i + 1][..i] == projected[..i];
      var key := Key(projected[i].academy, projected[i].paymentId);
      rows := rows[key := At(rows, key) + projected[i].amount];
    }
    assert projected[..|projected|] == projected;
    applied := map key | key in source.Keys + rows.Keys :: Max(At(source, key), At(rows, key));
  }

  method AddApplications(source: map<Key, int>, credit: Credit) returns (after: map<Key, int>)
    ensures forall key :: At(after, key) == At(source, key) + AppliedOf(credit.academy, credit.applications, key)
  {
    after := source;
    var apps := credit.applications;
    for i := 0 to |apps|
      invariant forall key :: At(after, key) == At(source, key) + AppliedOf(credit.academy, apps[..i], key)
    {
      assert apps[..i + 1][..i] == apps[..i];
      var key := Key(credit.academy, apps[i].paymentId);
      after := after[key := At(after, key) + apps[i].amount];
    }
    assert apps[..|apps|] == apps;
  }

  class LineStore {
    var lines: seq<InvoiceLine>

    method FindOwnLines(inv: Invoice) returns (own: seq<InvoiceLine>)
      ensures own == OwnLines(lines, inv)
    {
      own := [];
      for i := 0 to |lines|
        invariant own == OwnLines(lines[..i], inv)
      {
        assert lines[..i + 1][..i] == lines[..i];
        if lines[i].academy == inv.academy && lines[i].invoiceId == inv.id {
          own := own + [lines[i]];
        }
      }
      assert lines[..|lines|] == lines;
    }

    method UpsertLine(line: InvoiceLine) returns (inserted: bool)
      modifies this
      ensures lines == Upsert(old(lines), line)
      ensures inserted <==> lines != old(lines)
    {
      inserted := !exists l :: l in lines && l.academy == line.academy && l.lineId == line.lineId;
      if inserted {
        lines := lines + [line];
      }
    }
  }

  method SumLines(own: seq<InvoiceLine>) returns (charges: int, discounts: nat)
    ensures charges == Charges(own) && discounts == DiscountLines(own)
  {
    charges, discounts := 0, 0;
    for i := 0 to |own|
      invariant charges == Charges(own[..i]) && discounts == DiscountLines(own[..i])
    {
      assert own[..i + 1][..i] == own[..i];
      if own[i].source.TuitionDiscount? {
        discounts := discounts + Abs(own[i].amount);
      } else {
        charges := charges + own[i].amount;
      }
    }
    assert own[..|own|] == own;
  }

  method ExamineInvoice(store: LineStore, inv: Invoice, applied: map<Key, int>) returns (v: Verdict)
    ensures v == Examine(store.lines, inv, applied)
  {
    if !IsScanned(inv) {
      return NotScanned;
    }
    var own := store.FindOwnLines(inv);
    if HasCreditLine(own) {
      return WithCreditLine;
    }
    var paymentId := PaymentIdOf(own, TuitionLineId(inv));
    var credit := if paymentId == "" then 0 else At(applied, Key(inv.academy, paymentId));
    if credit <= 0 {
      return NoCredit;
    }
    var charges, discounts := SumLines(own);
    var discount := Max(inv.discount, discounts);
    v := Found(Finding(inv, paymentId, credit, charges, discount, Max(charges - discount - credit, 0)));
  }

  /** `audit`. */
  method Audit(store: LineStore, invoices: seq<Invoice>, credits: seq<Credit>, projected: seq<Projected>, apply: bool)
    returns (r: Report, ghost applied: map<Key, int>)
    modifies store
    ensures forall key :: At(applied, key) == Applied(credits, projected, key)
    ensures State(store.lines, r) == AuditAll(old(store.lines), invoices, applied, apply)
  {
    hide Applied, AuditOne;
    var byKey := AppliedCreditByKey(credits, projected);
    applied := byKey;
    ghost var lines := store.lines;
    r := NOTHING;
    for i := 0 to |invoices|
      invariant State(store.lines, r) == AuditAll(lines, invoices[..i], byKey, apply)
    {
      assert invoices[..i + 1][..i] == invoices[..i];
      r := AuditOneInvoice(store, invoices[i], byKey, apply, r);
    }
    assert invoices[..|invoices|] == invoices;
  }

  /** The body of the audit loop. */
  method AuditOneInvoice(store: LineStore, inv: Invoice, applied: map<Key, int>, apply: bool, before: Report) returns (r: Report)
    modifies store
    ensures State(store.lines, r) == AuditOne(State(old(store.lines), before), inv, applied, apply)
  {
    hide Examine, CreditLine, Upsert;
    var v := ExamineInvoice(store, inv, applied);
    if v.NotScanned? {
      return before;
    }
    r := before.(scanned := before.scanned + 1);
    if v.WithCreditLine? {
      r := r.(withCreditLine := r.withCreditLine + 1);
    } else if v.NoCredit? {
      r := r.(noCredit := r.noCredit + 1);
    } else if AtRisk(v.finding) {
      r := r.(atRisk := r.atRisk + [v.finding]);
      if apply {
        FoundIsMonthly(store.lines, inv, applied);
        UpsertSize(store.lines, CreditLine(v.finding));
        var inserted := store.UpsertLine(CreditLine(v.finding));
        if inserted {
          r := r.(inserted := r.inserted + 1);
        }
      }
    } else if Overcharge(v.finding) > 0 {
      r := r.(overcharged := r.overcharged + [v.finding]);
    } else {
      r := r.(mismatch := r.mismatch + [v.finding]);
    }
  }

  lemma FoundIsMonthly(lines: seq<InvoiceLine>, inv: Invoice, applied: map<Key, int>)
    ensures Examine(lines, inv, applied).Found? ==>
      INVOICE_PREFIX <= inv.id && Examine(lines, inv, applied).finding.inv == inv
  {
  }

  lemma UpsertSize(lines: seq<InvoiceLine>, line: InvoiceLine)
    ensures |Upsert(lines, line)| == |lines| + if HasLine(lines, line.academy, line.lineId) then 0 else 1
    ensures Upsert(lines, line) == lines <==> HasLine(lines, line.academy, line.lineId)
  {
  }
}
