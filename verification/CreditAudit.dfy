/**
 * The credit pass of the billing-consistency audit: the source-of-truth ledger of account credits against the
 * projection of their applications, with drift reported in either direction.
 */
module CreditAudit {
  import opened AuditReport
  import opened Reordering
  import opened Text
  import opened Wrappers

  datatype Application = Application(invoiceId: string, amount: int)

  /**
   * One document of `account_credit_ledger`. An `embedded` entry that is not a document is `None`; `isApplication`
   * marks a credit-applied bookkeeping row, `overpayment` a credit whose source is an overpaid allocation.
   */
  datatype Credit = Credit(
    academy: string, id: string, overpayment: bool, sourceId: string, amount: int, remaining: int, isApplication: bool,
    embedded: seq<Option<Application>>, appliedTo: seq<string>)

  /** One row of the projection `credit_applications`. */
  datatype Projected = Projected(academy: string, pair: Pair, amount: int)

  /** The projected pairs of an academy, each once. */
  function ProjectedPairs(rows: seq<Projected>, academy: string): seq<Pair> {
    if rows == [] then [] else
    var (before, r) := (ProjectedPairs(rows[..|rows| - 1], academy), rows[|rows| - 1]);
    if r.academy == academy && r.pair !in before then before + [r.pair] else before
  }

  predicate BalanceOk(c: Credit) {
    0 <= c.remaining <= c.amount
  }

  /** The amount the credit's own record holds for an invoice, when it names it at all. */
  function EmbeddedAmount(entries: seq<Option<Application>>, invoiceId: string): Option<int> {
    if entries == [] then None else
    var (before, e) := (EmbeddedAmount(entries[..|entries| - 1], invoiceId), entries[|entries| - 1]);
    if e.None? || e.value.invoiceId != invoiceId then before
    else Some((if before.Some? then before.value else 0) + e.value.amount)
  }

  predicate Embeds(c: Credit, invoiceId: string) {
    EmbeddedAmount(c.embedded, invoiceId).Some?
  }

  function ApplicationFailures(c: Credit, appliedTo: seq<string>, known: seq<Pair>): seq<Failure> {
    if appliedTo == [] then [] else
    var pair := Pair(c.id, appliedTo[|appliedTo| - 1]);
    ApplicationFailures(c, appliedTo[..|appliedTo| - 1], known) +
    if Embeds(c, pair.invoiceId) || pair in known then [] else [ApplicationAmountUnrecoverable(pair)]
  }

  function CreditFailures(c: Credit, known: seq<Pair>): seq<Failure> {
    (if BalanceOk(c) then [] else [CreditBalanceInvalid(c.id, c.amount, c.remaining)]) +
    (if c.isApplication then [] else ApplicationFailures(c, c.appliedTo, known))
  }

  function EachCreditFailures(credits: seq<Credit>, academy: string, known: seq<Pair>): seq<Failure> {
    if credits == [] then [] else
    var c := credits[|credits| - 1];
    EachCreditFailures(credits[..|credits| - 1], academy, known) + if c.academy == academy then CreditFailures(c, known) else []
  }

  function PairSet(creditId: string, invoiceIds: seq<string>): set<Pair> {
    set i | i in invoiceIds :: Pair(creditId, i)
  }

  function PairsOf(c: Credit): set<Pair> {
    if c.isApplication then {} else PairSet(c.id, c.appliedTo)
  }

  /** The pairs the credits themselves say they were applied to. */
  function SpentPairs(credits: seq<Credit>, academy: string): set<Pair> {
    set c, p | c in credits && c.academy == academy && p in PairsOf(c) :: p
  }

  function Unspent(pairs: seq<Pair>, spent: set<Pair>): seq<Pair> {
    if pairs == [] then [] else
    var last := pairs[|pairs| - 1];
    Unspent(pairs[..|pairs| - 1], spent) + if last in spent then [] else [last]
  }

  /** The order of pairs: by credit, then by invoice. */
  predicate PairLeq(p: Pair, q: Pair) {
    StringLess(p.creditId, q.creditId) || (p.creditId == q.creditId && StringLeq(p.invoiceId, q.invoiceId))
  }

  function OrphanFailures(pairs: seq<Pair>): seq<Failure> {
    Mapped((p: Pair) => OrphanApplicationRow(p), pairs)
  }

  /** Everything the credit pass reports, in order. */
  function AllCreditFailures(credits: seq<Credit>, rows: seq<Projected>, academy: string): seq<Failure> {
    var known := ProjectedPairs(rows, academy);
    EachCreditFailures(credits, academy, known) + OrphanFailures(SortBy(PairLeq, Unspent(known, SpentPairs(credits, academy))))
  }

  function CountOf(credits: seq<Credit>, academy: string): nat {
    if credits == [] then 0 else CountOf(credits[..|credits| - 1], academy) + if credits[|credits| - 1].academy == academy then 1 else 0
  }

  // ----- the source's mutable form -----

  method ReadProjection(rows: seq<Projected>, academy: string) returns (known: seq<Pair>)
    ensures known == ProjectedPairs(rows, academy)
  {
    known := [];
    for k := 0 to |rows|
      invariant known == ProjectedPairs(rows[..k], academy)
    {
      assert rows[..k + 1][..k] == rows[..k];
      if rows[k].academy == academy && rows[k].pair !in known {
        known := known + [rows[k].pair];
      }
    }
    assert rows[..|rows|] == rows;
  }

  function AmountAt(m: map<string, int>, i: string): Option<int> {
    if i in m then Some(m[i]) else None
  }

  /** The amounts a credit embeds, per invoice. */
  method EmbeddedAmounts(c: Credit) returns (embedded: map<string, int>)
    ensures forall i :: AmountAt(embedded, i) == EmbeddedAmount(c.embedded, i)
  {
    embedded := map[];
    for k := 0 to |c.embedded|
      invariant forall i :: AmountAt(embedded, i) == EmbeddedAmount(c.embedded[..k], i)
    {
      var e := c.embedded[k];
      assert c.embedded[..k + 1][..k] == c.embedded[..k];
      if e.None? {
        continue;
      }
      var id := e.value.invoiceId;
      assert AmountAt(embedded, id) == EmbeddedAmount(c.embedded[..k], id);
      embedded := embedded[id := (if id in embedded then embedded[id] else 0) + e.value.amount];
    }
    assert c.embedded[..|c.embedded|] == c.embedded;
  }

  /** One credit: reports its failures and returns the pairs it was applied to. */
  method AuditCredit(c: Credit, known: seq<Pair>, report: FailureList) returns (seen: set<Pair>)
    requires report.Valid()
    modifies report
    ensures report.Valid() && report.reported == old(report.reported) + CreditFailures(c, known)
    ensures seen == PairsOf(c)
  {
    hide ApplicationFailures;
    seen := {};
    ghost var before := report.reported;
    var invalid := c.amount < 0 || c.remaining < 0 || c.remaining > c.amount;
    Check(report, invalid, CreditBalanceInvalid(c.id, c.amount, c.remaining));
    if c.isApplication {
      return;
    }
    seen := AuditApplications(c, known, report);
    Associative(before, if invalid then [CreditBalanceInvalid(c.id, c.amount, c.remaining)] else [], ApplicationFailures(c, c.appliedTo, known));
  }

  lemma Associative(a: seq<Failure>, b: seq<Failure>, c: seq<Failure>)
    ensures a + b + c == a + (b + c)
  {
  }

  method AuditApplications(c: Credit, known: seq<Pair>, report: FailureList) returns (seen: set<Pair>)
    requires report.Valid()
    modifies report
    ensures report.Valid() && report.reported == old(report.reported) + ApplicationFailures(c, c.appliedTo, known)
    ensures seen == PairSet(c.id, c.appliedTo)
  {
    hide EmbeddedAmount, Capped, PairSet;
    NoPairs(c.id);
    var embedded := EmbeddedAmounts(c);
    seen := {};
    ghost var before := report.reported;
    for k := 0 to |c.appliedTo|
      invariant report.Valid() && report.reported == before + ApplicationFailures(c, c.appliedTo[..k], known)
      invariant seen == PairSet(c.id, c.appliedTo[..k])
    {
      var pair := Pair(c.id, c.appliedTo[k]);
      assert c.appliedTo[..k + 1][..k] == c.appliedTo[..k];
      assert c.appliedTo[..k + 1] == c.appliedTo[..k] + [c.appliedTo[k]];
      PairSetSnoc(c.id, c.appliedTo[..k], c.appliedTo[k]);
      assert AmountAt(embedded, pair.invoiceId).Some? <==> Embeds(c, pair.invoiceId);
      seen := seen + {pair};
      if c.appliedTo[k] in embedded || pair in known {
        continue;
      }
      report.Append(ApplicationAmountUnrecoverable(pair));
    }
    assert c.appliedTo[..|c.appliedTo|] == c.appliedTo;
  }

  lemma NoPairs(id: string)
    ensures PairSet(id, []) == {}
  {
  }

  lemma PairSetSnoc(id: string, before: seq<string>, last: string)
    ensures PairSet(id, before + [last]) == PairSet(id, before) + {Pair(id, last)}
  {
  }

  /** The credit pass over the shared report. */
  method AuditCredits(credits: seq<Credit>, rows: seq<Projected>, academy: string, report: FailureList) returns (count: nat)
    requires report.Valid()
    modifies report
    ensures report.Valid() && report.reported == old(report.reported) + AllCreditFailures(credits, rows, academy)
    ensures count == CountOf(credits, academy)
  {
    hide CreditFailures, Capped, ProjectedPairs, Unspent, SortBy, OrphanFailures, SpentPairs;
    var known := ReadProjection(rows, academy);
    var seen;
    ghost var before := report.reported;
    seen, count := AuditEachCredit(credits, known, academy, report);
    var unspent := ListUnspent(known, seen);
    ReportOrphans(SortBy(PairLeq, unspent), report);
    Associative(before, EachCreditFailures(credits, academy, known), OrphanFailures(SortBy(PairLeq, unspent)));
  }

  method AuditEachCredit(credits: seq<Credit>, known: seq<Pair>, academy: string, report: FailureList)
    returns (seen: set<Pair>, count: nat)
    requires report.Valid()
    modifies report
    ensures report.Valid() && report.reported == old(report.reported) + EachCreditFailures(credits, academy, known)
    ensures seen == SpentPairs(credits, academy) && count == CountOf(credits, academy)
  {
    hide CreditFailures, PairsOf, Capped, SpentPairs;
    NothingSpent(academy);
    seen, count := {}, 0;
    ghost var before := report.reported;
    for k := 0 to |credits|
      invariant report.Valid() && report.reported == before + EachCreditFailures(credits[..k], academy, known)
      invariant seen == SpentPairs(credits[..k], academy) && count == CountOf(credits[..k], academy)
    {
      var c := credits[k];
      assert credits[..k + 1] == credits[..k] + [c];
      assert credits[..k + 1][..k] == credits[..k];
      SpentSnoc(credits[..k], c, academy);
      if c.academy == academy {
        var applied := AuditCredit(c, known, report);
        seen, count := seen + applied, count + 1;
      }
    }
    assert credits[..|credits|] == credits;
  }

  method ListUnspent(pairs: seq<Pair>, spent: set<Pair>) returns (unspent: seq<Pair>)
    ensures unspent == Unspent(pairs, spent)
  {
    unspent := [];
    for k := 0 to |pairs|
      invariant unspent == Unspent(pairs[..k], spent)
    {
      assert pairs[..k + 1][..k] == pairs[..k];
      if pairs[k] !in spent {
        unspent := unspent + [pairs[k]];
      }
    }
    assert pairs[..|pairs|] == pairs;
  }

  method ReportOrphans(pairs: seq<Pair>, report: FailureList)
    requires report.Valid()
    modifies report
    ensures report.Valid() && report.reported == old(report.reported) + OrphanFailures(pairs)
  {
    hide Capped;
    ghost var before := report.reported;
    for k := 0 to |pairs|
      invariant report.Valid() && report.reported == before + OrphanFailures(pairs[..k])
    {
      assert OrphanFailures(pairs[..k + 1]) == OrphanFailures(pairs[..k]) + [OrphanApplicationRow(pairs[k])];
      report.Append(OrphanApplicationRow(pairs[k]));
    }
    assert pairs[..|pairs|] == pairs;
  }

  lemma NothingSpent(academy: string)
    ensures SpentPairs([], academy) == {}
  {
  }

  lemma SpentSnoc(before: seq<Credit>, c: Credit, academy: string)
    ensures SpentPairs(before + [c], academy) == SpentPairs(before, academy) + if c.academy == academy then PairsOf(c) else {}
  {
    hide PairsOf;
  }

  // ----- what a clean pass means -----

  /** Every application of the credit has an amount on record somewhere. */
  ghost predicate CanReprice(c: Credit, rows: seq<Projected>, academy: string) {
    forall i :: i in c.appliedTo ==> NamedIn(c, i) || exists r :: r in rows && r.academy == academy && r.pair == Pair(c.id, i)
  }

  /** The credit's own record has an entry for the invoice. */
  ghost predicate NamedIn(c: Credit, invoiceId: string) {
    exists e :: e in c.embedded && e.Some? && e.value.invoiceId == invoiceId
  }

  lemma {:induction false} EmbedsIff(entries: seq<Option<Application>>, invoiceId: string)
    ensures EmbeddedAmount(entries, invoiceId).Some? <==> exists e :: e in entries && e.Some? && e.value.invoiceId == invoiceId
  {
    if entries != [] {
      var n := |entries| - 1;
      assert entries == entries[..n] + [entries[n]];
      EmbedsIff(entries[..n], invoiceId);
    }
  }

  lemma EmbedsMeansNamed(c: Credit)
    ensures forall i :: Embeds(c, i) <==> NamedIn(c, i)
  {
    forall i ensures Embeds(c, i) <==> NamedIn(c, i) {
      EmbedsIff(c.embedded, i);
    }
  }

  /** The credit itself says it was applied to the invoice. */
  predicate Made(c: Credit, p: Pair) {
    !c.isApplication && c.id == p.creditId && p.invoiceId in c.appliedTo
  }

  /**
   * Credits in order: balances between zero and the amount, every spent invoice can be repriced from the credit or from
   * the projection, and every projected application was really made.
   */
  ghost predicate InOrder(credits: seq<Credit>, rows: seq<Projected>, academy: string) {
    && (forall c :: c in credits && c.academy == academy ==>
          0 <= c.remaining <= c.amount && (c.isApplication || CanReprice(c, rows, academy)))
    && (forall r :: r in rows && r.academy == academy ==> exists c :: c in credits && c.academy == academy && Made(c, r.pair))
  }

  lemma {:induction false} ProjectedMembers(rows: seq<Projected>, academy: string)
    ensures forall p :: p in ProjectedPairs(rows, academy) <==> exists r :: r in rows && r.academy == academy && r.pair == p
  {
    if rows != [] {
      var n := |rows| - 1;
      assert rows == rows[..n] + [rows[n]];
      ProjectedMembers(rows[..n], academy);
    }
  }

  lemma {:induction false} NoApplicationFailureIff(c: Credit, appliedTo: seq<string>, known: seq<Pair>)
    ensures ApplicationFailures(c, appliedTo, known) == [] <==>
      forall i :: i in appliedTo ==> Embeds(c, i) || Pair(c.id, i) in known
  {
    hide Embeds;
    if appliedTo != [] {
      var n := |appliedTo| - 1;
      assert appliedTo == appliedTo[..n] + [appliedTo[n]];
      NoApplicationFailureIff(c, appliedTo[..n], known);
    }
  }

  lemma NoCreditFailureIff(c: Credit, rows: seq<Projected>, academy: string)
    ensures CreditFailures(c, ProjectedPairs(rows, academy)) == [] <==> 0 <= c.remaining <= c.amount && (c.isApplication || CanReprice(c, rows, academy))
  {
    ProjectedMembers(rows, academy);
    NoApplicationFailureIff(c, c.appliedTo, ProjectedPairs(rows, academy));
    EmbedsMeansNamed(c);
    hide ApplicationFailures, Embeds, NamedIn, ProjectedPairs;
  }

  lemma {:induction false} EachCreditPassesIff(credits: seq<Credit>, academy: string, known: seq<Pair>)
    ensures EachCreditFailures(credits, academy, known) == [] <==>
      forall c :: c in credits && c.academy == academy ==> CreditFailures(c, known) == []
  {
    hide CreditFailures;
    if credits != [] {
      var n := |credits| - 1;
      assert credits == credits[..n] + [credits[n]];
      EachCreditPassesIff(credits[..n], academy, known);
    }
  }

  lemma {:induction false} NothingUnspentIff(pairs: seq<Pair>, spent: set<Pair>)
    ensures Unspent(pairs, spent) == [] <==> forall p :: p in pairs ==> p in spent
  {
    if pairs != [] {
      var n := |pairs| - 1;
      assert pairs == pairs[..n] + [pairs[n]];
      NothingUnspentIff(pairs[..n], spent);
    }
  }

  lemma SpentMeansMade(credits: seq<Credit>, academy: string)
    ensures forall p :: p in SpentPairs(credits, academy) <==> exists c :: c in credits && c.academy == academy && Made(c, p)
  {
    forall c: Credit, p: Pair
      ensures p in PairsOf(c) <==> Made(c, p)
    {
    }
    hide PairsOf, Made;
  }

  /** The credit pass reports nothing exactly when the credits are in order. */
  lemma CreditPassIff(credits: seq<Credit>, rows: seq<Projected>, academy: string)
    ensures AllCreditFailures(credits, rows, academy) == [] <==> InOrder(credits, rows, academy)
  {
    var known := ProjectedPairs(rows, academy);
    EachCreditPassesIff(credits, academy, known);
    forall c | c in credits
      ensures CreditFailures(c, known) == [] <==> 0 <= c.remaining <= c.amount && (c.isApplication || CanReprice(c, rows, academy))
    {
      NoCreditFailureIff(c, rows, academy);
    }
    NoOrphansIff(credits, rows, academy);
    hide EachCreditFailures, CreditFailures, ProjectedPairs, SpentPairs, Unspent, Made, CanReprice, SortBy, OrphanFailures;
  }

  lemma NoOrphansIff(credits: seq<Credit>, rows: seq<Projected>, academy: string)
    ensures OrphanFailures(SortBy(PairLeq, Unspent(ProjectedPairs(rows, academy), SpentPairs(credits, academy)))) == [] <==>
      forall r :: r in rows && r.academy == academy ==> exists c :: c in credits && c.academy == academy && Made(c, r.pair)
  {
    var known, spent := ProjectedPairs(rows, academy), SpentPairs(credits, academy);
    NothingUnspentIff(known, spent);
    SpentMeansMade(credits, academy);
    ProjectedMembers(rows, academy);
    SortedLength(Unspent(known, spent));
    hide ProjectedPairs, SpentPairs, Unspent, Made, SortBy, OrphanFailures;
    assert (forall p :: p in known ==> p in spent) <==> forall r :: r in rows && r.academy == academy ==> r.pair in spent;
  }

  lemma SortedLength(pairs: seq<Pair>)
    ensures |OrphanFailures(SortBy(PairLeq, pairs))| == |pairs|
  {
    ReorderingKeepsLength(SortBy(PairLeq, pairs), pairs);
  }
}
