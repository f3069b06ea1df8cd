/** What the credit-line repair leaves: recomputing a repaired invoice keeps its header, and a second run inserts nothing. */
module CreditLineProperties {
  import opened Arithmetic
  import opened Collections
  import opened CreditLines

  // ----- recomputing an invoice from its lines -----

  function SumAll(own: seq<InvoiceLine>): int {
    if own == [] then 0 else SumAll(own[..|own| - 1]) + own[|own| - 1].amount
  }

  /** The negative lines of one source, as a positive sum. */
  function Reductions(own: seq<InvoiceLine>, source: Source): nat {
    if own == [] then 0 else
    var l := own[|own| - 1];
    Reductions(own[..|own| - 1], source) + if l.source == source && l.amount < 0 then -l.amount else 0
  }

  /** Discount lines with the wrong sign. */
  function PositiveDiscounts(own: seq<InvoiceLine>): nat {
    if own == [] then 0 else
    var l := own[|own| - 1];
    PositiveDiscounts(own[..|own| - 1]) + if l.source.TuitionDiscount? && l.amount > 0 then l.amount else 0
  }

  datatype Header = Header(subtotal: int, total: int, balance: int)

  /** The billing domain's `recompute_totals`, with the allocated amount inferred from the header. */
  function RecomputeTotals(inv: Invoice, own: seq<InvoiceLine>): Header {
    var discountLines := Reductions(own, TuitionDiscount);
    var mirrored := Min(Max(inv.discount, 0), discountLines);
    var credit := Reductions(own, AccountCredit);
    var subtotal := SumAll(own) + mirrored + credit;
    var total := Max(0, subtotal - inv.discount - credit);
    Header(subtotal, total, Max(0, total - (inv.total - inv.balance)))
  }

  lemma {:induction false} LineSums(own: seq<InvoiceLine>)
    ensures SumAll(own) == Charges(own) + PositiveDiscounts(own) - Reductions(own, TuitionDiscount)
    ensures DiscountLines(own) == PositiveDiscounts(own) + Reductions(own, TuitionDiscount)
    ensures !HasCreditLine(own) ==> Reductions(own, AccountCredit) == 0
  {
    if own != [] {
      var n := |own| - 1;
      assert own == own[..n] + [own[n]];
      LineSums(own[..n]);
      assert HasCreditLine(own[..n]) ==> HasCreditLine(own);
      assert own[n] in own;
    }
  }

  lemma SumsSnoc(own: seq<InvoiceLine>, l: InvoiceLine)
    requires l.source.AccountCredit? && l.amount < 0
    ensures SumAll(own + [l]) == SumAll(own) + l.amount
    ensures Reductions(own + [l], TuitionDiscount) == Reductions(own, TuitionDiscount)
    ensures Reductions(own + [l], AccountCredit) == Reductions(own, AccountCredit) - l.amount
  {
    assert (own + [l])[..|own|] == own;
  }

  /** A finding's figures, as `Examine` fills them in. */
  ghost predicate Examined(f: Finding, own: seq<InvoiceLine>) {
    && INVOICE_PREFIX <= f.inv.id && !HasCreditLine(own) && f.applied > 0
    && f.charges == Charges(own) && f.discount == Max(f.inv.discount, DiscountLines(own))
    && f.expected == Max(f.charges - f.discount - f.applied, 0)
  }

  lemma FoundIsExamined(lines: seq<InvoiceLine>, inv: Invoice, applied: map<Key, int>)
    requires Examine(lines, inv, applied).Found?
    ensures Examined(Examine(lines, inv, applied).finding, OwnLines(lines, inv))
    ensures Examine(lines, inv, applied).finding.inv == inv
  {
  }

  /** What a recompute takes off the lines for discounts: the header's figure and what it does not mirror of the lines'. */
  function TakenOff(inv: Invoice, own: seq<InvoiceLine>): int {
    var discountLines := Reductions(own, TuitionDiscount);
    inv.discount + discountLines - Min(Max(inv.discount, 0), discountLines)
  }

  /**
   * Without the line, the next recompute of an at-risk invoice never lowers its total, and raises it, billing
   * credit a second time, exactly when the charges, wrong-signed discount lines included, exceed what is taken off.
   */
  lemma AtRiskOverbillsIff(f: Finding, own: seq<InvoiceLine>)
    requires Examined(f, own) && AtRisk(f)
    ensures RecomputeTotals(f.inv, own).total >= f.inv.total
    ensures RecomputeTotals(f.inv, own).total > f.inv.total <==> f.charges + PositiveDiscounts(own) > TakenOff(f.inv, own)
    ensures f.inv.discount >= 0 && PositiveDiscounts(own) == 0 ==> TakenOff(f.inv, own) == f.discount
  {
    LineSums(own);
    hide SumAll, Charges, DiscountLines, Reductions, PositiveDiscounts;
  }

  /** Every discount has its right sign, or what the others add is swallowed by discount and credit anyway. */
  predicate KeepsTotal(inv: Invoice, own: seq<InvoiceLine>, charges: int, applied: int) {
    || (PositiveDiscounts(own) == 0 && inv.discount >= 0)
    || charges + PositiveDiscounts(own) <= TakenOff(inv, own) + applied
  }

  /** With the line, recomputing an at-risk invoice gives exactly these parts of its header back. */
  lemma RepairedInvoiceKeepsHeaderIff(f: Finding, own: seq<InvoiceLine>)
    requires Examined(f, own) && AtRisk(f)
    ensures var header := RecomputeTotals(f.inv, own + [CreditLine(f)]);
      && (header.total == f.inv.total <==> KeepsTotal(f.inv, own, f.charges, f.applied))
      && (header.total == f.inv.total ==> (header.balance == f.inv.balance <==> f.inv.balance >= 0))
  {
    LineSums(own);
    SumsSnoc(own, CreditLine(f));
    hide SumAll, Charges, DiscountLines, Reductions, PositiveDiscounts, HasCreditLine;
  }

  /** With a balance that is not negative the collected excess never exceeds the overcharge; with a negative one it always does. */
  lemma CollectedWithinOverchargeIff(f: Finding)
    requires f.expected >= 0 && Overcharge(f) > 0
    ensures CollectedExcess(f) <= Overcharge(f) <==> f.inv.balance >= 0
    ensures CollectedExcess(f) >= 0 && (CollectedExcess(f) > 0 <==> f.inv.total - f.inv.balance > f.expected)
    ensures CollectedExcess(f) > 0 ==> f.inv.balance + f.expected + CollectedExcess(f) == f.inv.total
  {
  }

  // ----- the figures of one invoice -----

  function CreditShare(key: Key): Credit -> int {
    (c: Credit) => if c.academy == key.academy then Total(c.applications, ApplicationShare(key)) else 0
  }

  function ApplicationShare(key: Key): Application -> int {
    (a: Application) => if a.paymentId == key.paymentId then a.amount else 0
  }

  function ProjectedShare(key: Key): Projected -> int {
    (r: Projected) => if r.academy == key.academy && r.paymentId == key.paymentId then r.amount else 0
  }

  lemma {:induction false} ApplicationsAddUp(apps: seq<Application>, key: Key)
    ensures SumApplications(apps, key.paymentId) == Total(apps, ApplicationShare(key))
  {
    if apps != [] {
      ApplicationsAddUp(apps[..|apps| - 1], key);
    }
  }

  lemma {:induction false} CreditsAddUp(credits: seq<Credit>, key: Key)
    ensures SumCredits(credits, key) == Total(credits, CreditShare(key))
  {
    if credits != [] {
      CreditsAddUp(credits[..|credits| - 1], key);
      ApplicationsAddUp(credits[|credits| - 1].applications, key);
    }
  }

  lemma {:induction false} ProjectedAddsUp(rows: seq<Projected>, key: Key)
    ensures SumProjected(rows, key) == Total(rows, ProjectedShare(key))
  {
    if rows != [] {
      ProjectedAddsUp(rows[..|rows| - 1], key);
    }
  }

  /** The credit applied to a payment is what either source adds up to, whichever is more: a missing projection hides nothing. */
  lemma AppliedIsTheLarger(credits: seq<Credit>, projected: seq<Projected>, key: Key)
    ensures var (a, c, p) := (Applied(credits, projected, key), Total(credits, CreditShare(key)), Total(projected, ProjectedShare(key)));
      a >= c && a >= p && (a == c || a == p)
  {
    CreditsAddUp(credits, key);
    ProjectedAddsUp(projected, key);
    hide SumCredits, SumProjected, Total;
  }

  function ChargeFigure(): InvoiceLine -> int {
    (l: InvoiceLine) => if l.source.TuitionDiscount? then 0 else l.amount
  }

  function DiscountFigure(): InvoiceLine -> int {
    (l: InvoiceLine) => if !l.source.TuitionDiscount? then 0 else if l.amount < 0 then -l.amount else l.amount
  }

  lemma {:induction false} FiguresAddUp(own: seq<InvoiceLine>)
    ensures Charges(own) == Total(own, ChargeFigure()) && DiscountLines(own) == Total(own, DiscountFigure())
  {
    if own != [] {
      FiguresAddUp(own[..|own| - 1]);
    }
  }

  lemma {:induction false} OwnLinesMembers(lines: seq<InvoiceLine>, inv: Invoice)
    ensures forall l :: l in OwnLines(lines, inv) <==> l in lines && l.academy == inv.academy && l.invoiceId == inv.id
  {
    if lines != [] {
      var n := |lines| - 1;
      assert lines == lines[..n] + [lines[n]];
      OwnLinesMembers(lines[..n], inv);
    }
  }

  /** What is passed over, what has its line already, and the figures of a finding. */
  lemma ExaminedAs(lines: seq<InvoiceLine>, inv: Invoice, applied: map<Key, int>)
    ensures var (v, own) := (Examine(lines, inv, applied), OwnLines(lines, inv));
      && (v == NotScanned <==> !("inv-monthly-" <= inv.id) || inv.isVoid || inv.isDeleted)
      && (v == WithCreditLine <==> v != NotScanned && exists l :: l in lines && l.academy == inv.academy && l.invoiceId == inv.id
                                                                 && l.source.AccountCredit?)
      && (v.Found? ==>
            var f := v.finding;
            && f.inv == inv && f.charges == Total(own, ChargeFigure()) && f.discount == Max(inv.discount, Total(own, DiscountFigure()))
            && f.expected == Max(f.charges - f.discount - f.applied, 0)
            && f.paymentId == PaymentIdOf(own, "line-monthly-" + inv.id[12..])
            && f.paymentId != "" && f.applied > 0 && Key(inv.academy, f.paymentId) in applied
            && f.applied == applied[Key(inv.academy, f.paymentId)])
  {
    OwnLinesMembers(lines, inv);
    FiguresAddUp(OwnLines(lines, inv));
    assert INVOICE_PREFIX <= inv.id ==> TuitionLineId(inv) == "line-monthly-" + inv.id[12..];
    hide OwnLines, Charges, DiscountLines, PaymentIdOf, Total;
  }

  /** The payment behind an invoice: the source of the first of its lines with the derived id. */
  lemma {:induction false} PaymentBehind(own: seq<InvoiceLine>, id: string) returns (i: nat)
    requires PaymentIdOf(own, id) != ""
    ensures i < |own| && own[i].lineId == id && own[i].sourceId == PaymentIdOf(own, id)
    ensures forall j :: 0 <= j < i ==> own[j].lineId != id
  {
    if own[0].lineId == id {
      i := 0;
    } else {
      var k := PaymentBehind(own[1..], id);
      i := k + 1;
      assert forall j :: 1 <= j < i ==> own[j] == own[1..][j - 1];
    }
  }

  /** The line a repair writes. */
  lemma CreditLineMeans(f: Finding)
    requires "inv-monthly-" <= f.inv.id
    ensures CreditLine(f) == InvoiceLine(f.inv.academy, "line-monthly-" + f.inv.id[12..] + "-credit", f.inv.id, AccountCredit, f.paymentId, -f.applied)
  {
  }

  // ----- buckets -----

  function Findings(s: State): nat {
    |s.report.atRisk| + |s.report.overcharged| + |s.report.mismatch|
  }

  /** Every scanned invoice is counted once: as having its line, as having no credit, or in exactly one bucket. */
  lemma {:induction false} EveryScannedInvoiceCountedOnce(lines: seq<InvoiceLine>, invoices: seq<Invoice>, applied: map<Key, int>, apply: bool)
    ensures var s := AuditAll(lines, invoices, applied, apply);
      && s.report.scanned == s.report.withCreditLine + s.report.noCredit + Findings(s)
      && (forall f :: f in s.report.atRisk ==> f.inv.total == f.expected)
      && (forall f :: f in s.report.overcharged ==> f.inv.total > f.expected)
      && (forall f :: f in s.report.mismatch ==> f.inv.total < f.expected)
      && |s.lines| == |lines| + s.report.inserted && (!apply ==> s.lines == lines)
  {
    hide Examine, CreditLine, Upsert;
    if invoices != [] {
      var n := |invoices| - 1;
      EveryScannedInvoiceCountedOnce(lines, invoices[..n], applied, apply);
      var before := AuditAll(lines, invoices[..n], applied, apply);
      FoundIsMonthly(before.lines, invoices[n], applied);
    }
  }

  // ----- convergence -----

  predicate AllCredit(lines: seq<InvoiceLine>) {
    forall i :: 0 <= i < |lines| ==> lines[i].source.AccountCredit?
  }

  /** `b` is `a` with credit lines appended. */
  ghost predicate Extends(a: seq<InvoiceLine>, b: seq<InvoiceLine>) {
    a <= b && AllCredit(b[|a|..])
  }

  lemma ExtendsIsTransitive(a: seq<InvoiceLine>, b: seq<InvoiceLine>, c: seq<InvoiceLine>)
    requires Extends(a, b) && Extends(b, c)
    ensures Extends(a, c)
  {
    assert c[|a|..] == b[|a|..] + c[|b|..];
  }

  lemma OneInvoiceExtends(s: State, inv: Invoice, applied: map<Key, int>)
    ensures Extends(s.lines, AuditOne(s, inv, applied, true).lines)
  {
    FoundIsMonthly(s.lines, inv, applied);
    hide Examine;
  }

  /** What a run adds is credit lines, appended; existing lines stay as they are. */
  lemma {:induction false} RunAppendsCreditLines(lines: seq<InvoiceLine>, invoices: seq<Invoice>, applied: map<Key, int>, i: nat)
    requires i <= |invoices|
    ensures Extends(AuditAll(lines, invoices[..i], applied, true).lines, AuditAll(lines, invoices, applied, true).lines)
    decreases |invoices|
  {
    hide AuditOne;
    if i < |invoices| {
      var n := |invoices| - 1;
      assert invoices[..n][..i] == invoices[..i];
      RunAppendsCreditLines(lines, invoices[..n], applied, i);
      var before := AuditAll(lines, invoices[..n], applied, true);
      OneInvoiceExtends(before, invoices[n], applied);
      ExtendsIsTransitive(AuditAll(lines, invoices[..i], applied, true).lines, before.lines, AuditAll(lines, invoices, applied, true).lines);
    } else {
      assert invoices[..i] == invoices;
    }
  }

  /** Appended credit lines either belong to the invoice, which then has a credit line, or leave its own lines alone. */
  lemma {:induction false} OwnLinesAfterCredits(lines: seq<InvoiceLine>, more: seq<InvoiceLine>, inv: Invoice)
    requires AllCredit(more)
    ensures HasCreditLine(OwnLines(lines + more, inv)) || OwnLines(lines + more, inv) == OwnLines(lines, inv)
  {
    if more == [] {
      assert lines + more == lines;
    } else {
      var n := |more| - 1;
      assert (lines + more)[..|lines| + n] == lines + more[..n];
      OwnLinesAfterCredits(lines, more[..n], inv);
      var own := OwnLines(lines + more[..n], inv);
      assert OwnLines(lines + more, inv)
          == own + if more[n].academy == inv.academy && more[n].invoiceId == inv.id then [more[n]] else [];
    }
  }

  /** After a run, an invoice that is still at risk has its line id taken by another line. */
  ghost predicate Settled(lines: seq<InvoiceLine>, inv: Invoice, applied: map<Key, int>) {
    var v := Examine(lines, inv, applied);
    v.Found? && AtRisk(v.finding) ==> INVOICE_PREFIX <= inv.id && HasLine(lines, inv.academy, CreditLineId(inv))
  }

  lemma RunSettles(lines: seq<InvoiceLine>, invoices: seq<Invoice>, applied: map<Key, int>, i: nat)
    requires i < |invoices|
    ensures Settled(AuditAll(lines, invoices, applied, true).lines, invoices[i], applied)
  {
    var inv := invoices[i];
    var at := AuditAll(lines, invoices[..i], applied, true).lines;
    var next := AuditAll(lines, invoices[..i + 1], applied, true).lines;
    var end := AuditAll(lines, invoices, applied, true).lines;
    assert invoices[..i + 1][..i] == invoices[..i];
    RunAppendsCreditLines(lines, invoices, applied, i);
    RunAppendsCreditLines(lines, invoices, applied, i + 1);
    OwnLinesAfterCredits(at, end[|at|..], inv);
    assert end == at + end[|at|..];
    VerdictDependsOnOwnLines(at, end, inv, applied);
    if Examine(end, inv, applied).Found? && AtRisk(Examine(end, inv, applied).finding) {
      FoundIsMonthly(at, inv, applied);
      StepInserts(lines, invoices, applied, i);
      hide Examine, AuditAll;
      LineStays(next, end, inv.academy, CreditLineId(inv));
    }
  }

  lemma VerdictDependsOnOwnLines(a: seq<InvoiceLine>, b: seq<InvoiceLine>, inv: Invoice, applied: map<Key, int>)
    requires HasCreditLine(OwnLines(b, inv)) || OwnLines(b, inv) == OwnLines(a, inv)
    ensures Examine(b, inv, applied).Found? ==> Examine(a, inv, applied) == Examine(b, inv, applied)
  {
    hide OwnLines, HasCreditLine, PaymentIdOf, Charges, DiscountLines;
  }

  lemma StepInserts(lines: seq<InvoiceLine>, invoices: seq<Invoice>, applied: map<Key, int>, i: nat)
    requires i < |invoices|
    requires var v := Examine(AuditAll(lines, invoices[..i], applied, true).lines, invoices[i], applied);
      v.Found? && AtRisk(v.finding)
    ensures INVOICE_PREFIX <= invoices[i].id
    ensures HasLine(AuditAll(lines, invoices[..i + 1], applied, true).lines, invoices[i].academy, CreditLineId(invoices[i]))
  {
    assert invoices[..i + 1][..i] == invoices[..i];
    var before := AuditAll(lines, invoices[..i], applied, true);
    FoundIsMonthly(before.lines, invoices[i], applied);
    hide Examine;
    var line := CreditLine(Examine(before.lines, invoices[i], applied).finding);
    if !HasLine(before.lines, line.academy, line.lineId) {
      assert line in before.lines + [line];
    }
  }

  lemma LineStays(a: seq<InvoiceLine>, b: seq<InvoiceLine>, academy: string, lineId: string)
    requires a <= b && HasLine(a, academy, lineId)
    ensures HasLine(b, academy, lineId)
  {
    var l :| l in a && l.academy == academy && l.lineId == lineId;
    assert l in b;
  }

  lemma {:induction false} SettledRunInsertsNothing(lines: seq<InvoiceLine>, invoices: seq<Invoice>, applied: map<Key, int>)
    requires forall i :: 0 <= i < |invoices| ==> Settled(lines, invoices[i], applied)
    ensures AuditAll(lines, invoices, applied, true).lines == lines
    ensures AuditAll(lines, invoices, applied, true).report.inserted == 0
  {
    hide Examine;
    if invoices != [] {
      var n := |invoices| - 1;
      SettledRunInsertsNothing(lines, invoices[..n], applied);
      assert Settled(lines, invoices[n], applied);
      FoundIsMonthly(lines, invoices[n], applied);
    }
  }

  /** A second apply inserts nothing, whatever the invoices, lines and credits are. */
  lemma SecondApplyInsertsNothing(lines: seq<InvoiceLine>, invoices: seq<Invoice>, applied: map<Key, int>)
    ensures var first := AuditAll(lines, invoices, applied, true);
      var second := AuditAll(first.lines, invoices, applied, true);
      second.lines == first.lines && second.report.inserted == 0
  {
    hide AuditAll, Settled;
    var first := AuditAll(lines, invoices, applied, true);
    forall i | 0 <= i < |invoices|
      ensures Settled(first.lines, invoices[i], applied)
    {
      RunSettles(lines, invoices, applied, i);
    }
    SettledRunInsertsNothing(first.lines, invoices, applied);
  }

  // ----- the repair itself -----

  predicate SameInvoice(a: Invoice, b: Invoice) {
    a.academy == b.academy && a.id == b.id
  }

  ghost predicate DistinctInvoices(invoices: seq<Invoice>) {
    forall i, j :: 0 <= i < j < |invoices| ==> !SameInvoice(invoices[i], invoices[j])
  }

  lemma CreditLineIdIsInjective(a: Invoice, b: Invoice)
    requires INVOICE_PREFIX <= a.id && INVOICE_PREFIX <= b.id && CreditLineId(a) == CreditLineId(b)
    ensures a.id == b.id
  {
    var n := |INVOICE_PREFIX|;
    var (x, y) := (a.id[n..], b.id[n..]);
    assert (LINE_PREFIX + x + "-credit")[|LINE_PREFIX|..|LINE_PREFIX| + |x|] == x;
    assert (LINE_PREFIX + y + "-credit")[|LINE_PREFIX|..|LINE_PREFIX| + |y|] == y;
    assert a.id == a.id[..n] + x && b.id == b.id[..n] + y;
  }

  /** Examining one invoice leaves another's own lines, and whether its line id is taken, alone. */
  lemma StepLeavesOther(s: State, other: Invoice, inv: Invoice, applied: map<Key, int>)
    requires !SameInvoice(other, inv) && INVOICE_PREFIX <= inv.id
    ensures var after := AuditOne(s, other, applied, true).lines;
      && OwnLines(after, inv) == OwnLines(s.lines, inv)
      && (HasLine(after, inv.academy, CreditLineId(inv)) <==> HasLine(s.lines, inv.academy, CreditLineId(inv)))
  {
    FoundIsMonthly(s.lines, other, applied);
    hide Examine;
    var v := Examine(s.lines, other, applied);
    if v.Found? && AtRisk(v.finding) {
      var line := CreditLine(v.finding);
      assert (s.lines + [line])[..|s.lines|] == s.lines;
      if line.academy == inv.academy && line.lineId == CreditLineId(inv) {
        CreditLineIdIsInjective(other, inv);
      }
    }
  }

  lemma {:induction false} RunLeavesOther(lines: seq<InvoiceLine>, invoices: seq<Invoice>, inv: Invoice, applied: map<Key, int>)
    requires INVOICE_PREFIX <= inv.id && forall i :: 0 <= i < |invoices| ==> !SameInvoice(invoices[i], inv)
    ensures var after := AuditAll(lines, invoices, applied, true).lines;
      && OwnLines(after, inv) == OwnLines(lines, inv)
      && (HasLine(after, inv.academy, CreditLineId(inv)) <==> HasLine(lines, inv.academy, CreditLineId(inv)))
  {
    hide AuditOne, OwnLines, HasLine, CreditLineId;
    if invoices != [] {
      var n := |invoices| - 1;
      RunLeavesOther(lines, invoices[..n], inv, applied);
      StepLeavesOther(AuditAll(lines, invoices[..n], applied, true), invoices[n], inv, applied);
    }
  }

  /** An at-risk invoice of the list whose line id is free. */
  ghost predicate Repairable(lines: seq<InvoiceLine>, inv: Invoice, applied: map<Key, int>) {
    && Examine(lines, inv, applied).Found? && AtRisk(Examine(lines, inv, applied).finding)
    && INVOICE_PREFIX <= inv.id && !HasLine(lines, inv.academy, CreditLineId(inv))
  }

  lemma {:induction false} RunAddsOwnLine(lines: seq<InvoiceLine>, invoices: seq<Invoice>, applied: map<Key, int>, i: nat)
    requires DistinctInvoices(invoices) && i < |invoices| && Repairable(lines, invoices[i], applied)
    requires Examine(lines, invoices[i], applied).finding.inv == invoices[i]
    ensures OwnLines(AuditAll(lines, invoices, applied, true).lines, invoices[i])
         == OwnLines(lines, invoices[i]) + [CreditLine(Examine(lines, invoices[i], applied).finding)]
  {
    hide Examine, AuditOne, OwnLines, HasLine, CreditLineId, AuditAll, CreditLine;
    var (n, inv) := (|invoices| - 1, invoices[i]);
    var before := AuditAll(lines, invoices[..n], applied, true);
    AuditSnoc(lines, invoices, applied);
    if i < n {
      RunAddsOwnLine(lines, invoices[..n], applied, i);
      StepLeavesOther(before, invoices[n], inv, applied);
    } else {
      RunLeavesOther(lines, invoices[..n], inv, applied);
      VerdictDependsOnOwnLines(lines, before.lines, inv, applied);
      VerdictDependsOnOwnLines(before.lines, lines, inv, applied);
      StepAddsLine(before, inv, applied);
    }
  }

  lemma AuditSnoc(lines: seq<InvoiceLine>, invoices: seq<Invoice>, applied: map<Key, int>)
    requires invoices != []
    ensures var n := |invoices| - 1;
      AuditAll(lines, invoices, applied, true) == AuditOne(AuditAll(lines, invoices[..n], applied, true), invoices[n], applied, true)
  {
  }

  lemma StepAddsLine(s: State, inv: Invoice, applied: map<Key, int>)
    requires Repairable(s.lines, inv, applied)
    requires Examine(s.lines, inv, applied).finding.inv == inv
    ensures var line := CreditLine(Examine(s.lines, inv, applied).finding);
      OwnLines(AuditOne(s, inv, applied, true).lines, inv) == OwnLines(s.lines, inv) + [line]
  {
    hide Examine;
    OwnLinesWithCredit(s.lines, inv, CreditLine(Examine(s.lines, inv, applied).finding));
  }

  /**
   * One apply over any list of distinct invoices gives every at-risk invoice whose line id is free its credit line,
   * after which it counts as having one. Recomputing it from its lines then keeps the stored total, and with a
   * balance that is not negative the stored balance too, under exactly the condition above.
   */
  lemma ApplyRepairs(lines: seq<InvoiceLine>, invoices: seq<Invoice>, applied: map<Key, int>, i: nat)
    requires DistinctInvoices(invoices) && i < |invoices| && Repairable(lines, invoices[i], applied)
    ensures var (inv, after, own) := (invoices[i], AuditAll(lines, invoices, applied, true).lines, OwnLines(lines, invoices[i]));
      var (f, header) := (Examine(lines, inv, applied).finding, RecomputeTotals(inv, OwnLines(after, inv)));
      && OwnLines(after, inv) == own + [CreditLine(f)]
      && Examine(after, inv, applied) == WithCreditLine
      && (header.total == inv.total <==> KeepsTotal(inv, own, f.charges, f.applied))
      && (header.total == inv.total ==> (header.balance == inv.balance <==> inv.balance >= 0))
  {
    var inv := invoices[i];
    var (f, own) := (Examine(lines, inv, applied).finding, OwnLines(lines, inv));
    FoundIsExamined(lines, inv, applied);
    RepairedInvoiceKeepsHeaderIff(f, own);
    RunAddsOwnLine(lines, invoices, applied, i);
    assert CreditLine(f) in own + [CreditLine(f)];
    hide RecomputeTotals, OwnLines, PositiveDiscounts, Charges, DiscountLines, AuditAll, KeepsTotal, CreditLine;
  }

  lemma OwnLinesWithCredit(lines: seq<InvoiceLine>, inv: Invoice, line: InvoiceLine)
    requires line.academy == inv.academy && line.invoiceId == inv.id
    ensures OwnLines(lines + [line], inv) == OwnLines(lines, inv) + [line]
  {
    assert (lines + [line])[..|lines|] == lines;
  }
}
