/**
 * The monthly invoice generation tick.
 *
 * The run records of `billing_generation_runs` are a set of (academy, period) keys. Everything the tick
 * calls but does not contain (reads that may fail, `generate`, the record write, `send_invoices`) is an
 * outcome handed in with the step, so a claim about all steps is a claim about all failure patterns.
 */
module Scheduler {
  import opened Periods
  import opened Text
  import opened Wrappers

  datatype Key = Key(academy: string, period: string)

  datatype GenCounts = GenCounts(
    created: int, skippedExisting: int, skippedNoCharge: int, skippedAutopay: int, skippedPaused: int,
    repairedOrphanKeys: int, repairedPartialInvoices: int, failedRepair: int, skippedReviewed: int)

  datatype GenOutcome = GenRaised | GenReturned(counts: GenCounts)

  /** `WriteFailed(true)` is an error reported after the server had stored the record. */
  datatype WriteOutcome = Acknowledged | DuplicateKey | WriteFailed(stored: bool)

  datatype SendOutcome = SendRaised | Sent(emailed: int, failed: int, skippedAutopay: int, autopayNotified: int)

  datatype PeriodEnv = PeriodEnv(generate: GenOutcome, write: WriteOutcome, send: SendOutcome)

  /** One academy's outcomes in one tick; `billingDay` is `None` when the settings are unreadable. */
  datatype AcademyEnv = AcademyEnv(
    priorReadOk: bool, historyReadOk: bool, currentReadOk: bool, billingDay: Option<int>,
    prior: PeriodEnv, current: PeriodEnv)

  datatype Clock = Clock(month: Month, day: int)

  datatype Job = Job(academy: string, env: AcademyEnv)

  /** One academy served at one (academy-local) time. */
  datatype Step = Step(academy: string, now: Clock, env: AcademyEnv)

  datatype Due = Due(period: string, catchUp: bool)

  datatype Call =
    | Generate(key: Key, outcome: GenOutcome, write: Option<WriteOutcome>)
    | Email(key: Key)

  datatype Totals = Totals(
    academyCount: int, periodRunCount: int, catchUpRunCount: int, partialRunCount: int,
    generated: GenCounts,
    invoicesEmailed: int, invoiceEmailsFailed: int, invoiceEmailsSkippedAutopay: int, autopayNoticesSent: int)

  const ZERO_COUNTS := GenCounts(0, 0, 0, 0, 0, 0, 0, 0, 0)
  const ZERO := Totals(0, 0, 0, 0, ZERO_COUNTS, 0, 0, 0, 0)
  const DEFAULT_BILLING_DAY := 1

  function PlusCounts(a: GenCounts, b: GenCounts): GenCounts {
    GenCounts(a.created + b.created, a.skippedExisting + b.skippedExisting, a.skippedNoCharge + b.skippedNoCharge,
              a.skippedAutopay + b.skippedAutopay, a.skippedPaused + b.skippedPaused,
              a.repairedOrphanKeys + b.repairedOrphanKeys, a.repairedPartialInvoices + b.repairedPartialInvoices,
              a.failedRepair + b.failedRepair, a.skippedReviewed + b.skippedReviewed)
  }

  /** Key-wise sum of two totals dictionaries. */
  function Plus(a: Totals, b: Totals): Totals {
    Totals(a.academyCount + b.academyCount, a.periodRunCount + b.periodRunCount,
           a.catchUpRunCount + b.catchUpRunCount, a.partialRunCount + b.partialRunCount,
           PlusCounts(a.generated, b.generated),
           a.invoicesEmailed + b.invoicesEmailed, a.invoiceEmailsFailed + b.invoiceEmailsFailed,
           a.invoiceEmailsSkippedAutopay + b.invoiceEmailsSkippedAutopay, a.autopayNoticesSent + b.autopayNoticesSent)
  }

  lemma PlusAssociative(a: Totals, b: Totals, c: Totals)
    ensures Plus(Plus(a, b), c) == Plus(a, Plus(b, c))
  {
  }

  lemma PlusSwap(a: Totals, b: Totals, c: Totals)
    ensures Plus(Plus(a, b), c) == Plus(Plus(a, c), b)
  {
  }

  lemma PlusZero(a: Totals)
    ensures Plus(a, ZERO) == a && Plus(ZERO, a) == a
  {
  }

  // ----- one step, as a function of the records it starts from -----

  function Period(s: Step): string {
    PeriodOf(s.now.month)
  }

  function Prior(s: Step): string {
    PeriodOf(s.now.month - 1)
  }

  function EnvFor(s: Step, period: string): PeriodEnv {
    if period == Period(s) then s.env.current else s.env.prior
  }

  predicate HasHistory(records: set<Key>, academy: string) {
    exists k :: k in records && k.academy == academy
  }

  function BillingDay(env: AcademyEnv): int {
    if env.billingDay.Some? then env.billingDay.value else DEFAULT_BILLING_DAY
  }

  predicate PriorIsDue(records: set<Key>, s: Step) {
    Key(s.academy, Prior(s)) !in records && HasHistory(records, s.academy)
  }

  predicate CurrentIsDue(records: set<Key>, s: Step) {
    Key(s.academy, Period(s)) !in records && s.now.day >= BillingDay(s.env)
  }

  /** True when every read the gate actually makes succeeds. */
  predicate GateReads(records: set<Key>, s: Step) {
    && s.env.priorReadOk
    && (Key(s.academy, Prior(s)) in records || s.env.historyReadOk)
    && s.env.currentReadOk
  }

  /** The periods a step owes, oldest first. */
  function DueOf(records: set<Key>, s: Step): seq<Due> {
    (if PriorIsDue(records, s) then [Due(Prior(s), true)] else []) +
    (if CurrentIsDue(records, s) then [Due(Period(s), s.now.day > BillingDay(s.env))] else [])
  }

  /** The current period in terms of the academy's own billing day, or of the first of the month without one. */
  lemma CurrentIsDueFrom(records: set<Key>, s: Step)
    requires Key(s.academy, Period(s)) !in records
    ensures forall flag :: Due(Period(s), flag) in DueOf(records, s) <==>
      match s.env.billingDay
      case Some(day) => s.now.day >= day && flag == (s.now.day > day)
      case None => s.now.day >= 1 && flag == (s.now.day > 1)
  {
    if Prior(s) == Period(s) {
      PeriodInjective(s.now.month - 1, s.now.month);
    }
    hide PeriodOf;
  }

  predicate Stores(w: WriteOutcome) {
    w.Acknowledged? || w.DuplicateKey? || w.stored
  }

  /** A generation run after which the period is on record. */
  predicate LeavesRecord(env: PeriodEnv) {
    env.generate.GenReturned? && env.generate.counts.failedRepair == 0 && Stores(env.write)
  }

  datatype Effect = Effect(records: set<Key>, calls: seq<Call>, totals: Totals, generated: seq<string>)

  function GenerateCall(s: Step, period: string): Call {
    var env := EnvFor(s, period);
    var clean := env.generate.GenReturned? && env.generate.counts.failedRepair == 0;
    Generate(Key(s.academy, period), env.generate, if clean then Some(env.write) else None)
  }

  function RunTotals(g: GenCounts, catchUp: bool): Totals {
    ZERO.(periodRunCount := 1,
          partialRunCount := if g.failedRepair != 0 then 1 else 0,
          catchUpRunCount := if catchUp then 1 else 0,
          generated := g)
  }

  /** Generating one due period: a raise leaves only the call, a partial run leaves no record. */
  function PeriodEffect(records: set<Key>, s: Step, d: Due): Effect {
    var env := EnvFor(s, d.period);
    if env.generate.GenRaised? then
      Effect(records, [GenerateCall(s, d.period)], ZERO, [])
    else
      Effect(if LeavesRecord(env) then records + {Key(s.academy, d.period)} else records,
             [GenerateCall(s, d.period)],
             RunTotals(env.generate.counts, d.catchUp),
             [d.period])
  }

  /** The effect of `a` followed by `b`, where `b` starts from the records `a` leaves. */
  function Then(a: Effect, b: Effect): Effect {
    Effect(b.records, a.calls + b.calls, Plus(a.totals, b.totals), a.generated + b.generated)
  }

  function Nothing(records: set<Key>): Effect {
    Effect(records, [], ZERO, [])
  }

  /** Generates the due periods in order. */
  function RunDue(records: set<Key>, s: Step, due: seq<Due>): Effect {
    if due == [] then Nothing(records) else
    var before := RunDue(records, s, due[..|due| - 1]);
    Then(before, PeriodEffect(before.records, s, due[|due| - 1]))
  }

  function InsertPeriod(p: string, sorted: seq<string>): seq<string> {
    if sorted == [] then [p]
    else if p == sorted[0] then sorted
    else if StringLess(p, sorted[0]) then [p] + sorted
    else [sorted[0]] + InsertPeriod(p, sorted[1..])
  }

  /** `sorted({...})`: the distinct strings of `ps` in ascending order. */
  function SortedSet(ps: seq<string>): seq<string> {
    if ps == [] then [] else InsertPeriod(ps[|ps| - 1], SortedSet(ps[..|ps| - 1]))
  }

  function SendTotals(o: SendOutcome): Totals {
    if o.SendRaised? then ZERO
    else ZERO.(invoicesEmailed := o.emailed, invoiceEmailsFailed := o.failed,
               invoiceEmailsSkippedAutopay := o.skippedAutopay, autopayNoticesSent := o.autopayNotified)
  }

  function EmailEffect(records: set<Key>, s: Step, period: string): Effect {
    Effect(records, [Email(Key(s.academy, period))], SendTotals(EnvFor(s, period).send), [])
  }

  function EmailAll(records: set<Key>, s: Step, periods: seq<string>): Effect {
    if periods == [] then Nothing(records) else
    Then(EmailAll(records, s, periods[..|periods| - 1]), EmailEffect(records, s, periods[|periods| - 1]))
  }

  /** The current period and every period generated in this step, oldest first. */
  function Swept(s: Step, generated: seq<string>): seq<string> {
    SortedSet([Period(s)] + generated)
  }

  function StepEffect(records: set<Key>, s: Step, sends: bool): Effect {
    if !GateReads(records, s) then Nothing(records) else
    var run := RunDue(records, s, DueOf(records, s));
    var counted := run.(totals := Plus(run.totals, ZERO.(academyCount := if run.generated != [] then 1 else 0)));
    if sends then Then(counted, EmailAll(run.records, s, Swept(s, run.generated))) else counted
  }

  /** A whole list of steps: records and calls accumulate, totals are summed. */
  function RunEffect(records: set<Key>, steps: seq<Step>, sends: bool): Effect {
    if steps == [] then Nothing(records) else
    var before := RunEffect(records, steps[..|steps| - 1], sends);
    Then(before, StepEffect(before.records, steps[|steps| - 1], sends))
  }

  /** What a tick writes to: the run records, the calls made so far and the totals dictionary. */
  datatype World = World(records: set<Key>, calls: seq<Call>, totals: Totals)

  function After(w: World, e: Effect): World {
    World(e.records, w.calls + e.calls, Plus(w.totals, e.totals))
  }

  lemma AfterThen(w: World, a: Effect, b: Effect)
    ensures After(After(w, a), b) == After(w, Then(a, b))
  {
    assert w.calls + a.calls + b.calls == w.calls + (a.calls + b.calls);
  }

  lemma AfterNothing(w: World)
    ensures After(w, Nothing(w.records)) == w
  {
    assert w.calls + [] == w.calls;
  }

  function StepsAt(jobs: seq<Job>, now: Clock): (steps: seq<Step>)
    ensures |steps| == |jobs|
    ensures forall i :: 0 <= i < |jobs| ==> steps[i] == Step(jobs[i].academy, now, jobs[i].env)
  {
    seq(|jobs|, i requires 0 <= i < |jobs| => Step(jobs[i].academy, now, jobs[i].env))
  }

  // ----- the source's mutable form -----

  /** The run-record collection, and the log of calls made to the injected callables. */
  class GenerationDb {
    var records: set<Key>
    var calls: seq<Call>

    constructor (records: set<Key>)
      ensures this.records == records && calls == []
    {
      this.records, calls := records, [];
    }

    method Recorded(academy: string, period: string) returns (found: bool)
      ensures found == (Key(academy, period) in records)
    {
      found := Key(academy, period) in records;
    }

    method HasGenerationHistory(academy: string) returns (found: bool)
      ensures found == HasHistory(records, academy)
    {
      found := exists k :: k in records && k.academy == academy;
    }

    /** `_record_monthly_generation`: never raises, reports whether the record is known to be there. */
    method RecordGeneration(key: Key, outcome: WriteOutcome) returns (known: bool)
      modifies this`records
      ensures records == if Stores(outcome) then old(records) + {key} else old(records)
      ensures known ==> key in records
      ensures known <==> !outcome.WriteFailed?
    {
      if Stores(outcome) {
        records := records + {key};
      }
      known := !outcome.WriteFailed?;
    }

    /** `_due_periods`; `None` when a gate read raises. */
    method DuePeriods(s: Step, period: string, priorPeriod: string) returns (r: Option<seq<Due>>)
      requires period == Period(s) && priorPeriod == Prior(s)
      ensures r == if GateReads(records, s) then Some(DueOf(records, s)) else None
      ensures r.Some? && Key(s.academy, period) !in records ==>
        forall flag :: Due(period, flag) in r.value <==>
          match s.env.billingDay
          case Some(day) => s.now.day >= day && flag == (s.now.day > day)
          case None => s.now.day >= 1 && flag == (s.now.day > 1)
    {
      var due: seq<Due> := [];
      if !s.env.priorReadOk {
        return None;
      }
      var priorRecorded := Recorded(s.academy, priorPeriod);
      if !priorRecorded {
        if !s.env.historyReadOk {
          return None;
        }
        var history := HasGenerationHistory(s.academy);
        if history {
          due := [Due(priorPeriod, true)];
        }
      }
      if !s.env.currentReadOk {
        return None;
      }
      var recorded := Recorded(s.academy, period);
      if !recorded {
        var billingDay := BillingDay(s.env);
        if s.now.day >= billingDay {
          due := due + [Due(period, s.now.day > billingDay)];
        }
      }
      assert due == DueOf(records, s);
      r := Some(due);
      if !recorded {
        CurrentIsDueFrom(records, s);
      }
    }
  }

  /** The `totals` dictionary that the tick and its email pass both write into. */
  class TotalsDict {
    var counts: Totals

    constructor ()
      ensures counts == ZERO
    {
      counts := ZERO;
    }

    method Add(more: Totals)
      modifies this
      ensures counts == Plus(old(counts), more)
    {
      counts := Plus(counts, more);
    }
  }

  ghost function Seen(db: GenerationDb, totals: TotalsDict): World
    reads db, totals
  {
    World(db.records, db.calls, totals.counts)
  }

  /** `_email_generated_invoices`: one send attempt whose failure is swallowed. */
  method EmailGeneratedInvoices(db: GenerationDb, totals: TotalsDict, s: Step, period: string)
    modifies db`calls, totals
    ensures Seen(db, totals) == After(old(Seen(db, totals)), EmailEffect(db.records, s, period))
  {
    db.calls := db.calls + [Email(Key(s.academy, period))];
    var outcome := EnvFor(s, period).send;
    if outcome.Sent? {
      totals.Add(SendTotals(outcome));
    }
  }

  /** The body of the due loop. */
  method GeneratePeriod(db: GenerationDb, totals: TotalsDict, s: Step, d: Due) returns (ran: bool)
    modifies db, totals
    ensures Seen(db, totals) == After(old(Seen(db, totals)), PeriodEffect(old(db.records), s, d))
    ensures ran <==> PeriodEffect(old(db.records), s, d).generated == [d.period]
    ensures !ran <==> PeriodEffect(old(db.records), s, d).generated == []
  {
    hide EnvFor, PeriodOf;
    var env := EnvFor(s, d.period);
    db.calls := db.calls + [GenerateCall(s, d.period)];
    if env.generate.GenRaised? {
      return false;
    }
    ran := true;
    var counts := env.generate.counts;
    totals.Add(ZERO.(periodRunCount := 1));
    if counts.failedRepair != 0 {
      totals.Add(ZERO.(partialRunCount := 1));
    } else {
      var _ := db.RecordGeneration(Key(s.academy, d.period), env.write);
    }
    if d.catchUp {
      totals.Add(ZERO.(catchUpRunCount := 1));
    }
    totals.Add(ZERO.(generated := counts));
  }

  /** The due loop: generates each due period, keeping the ones that ran. */
  method GenerateDuePeriods(db: GenerationDb, totals: TotalsDict, s: Step, due: seq<Due>) returns (ranAny: bool, generated: seq<string>)
    modifies db, totals
    ensures Seen(db, totals) == After(old(Seen(db, totals)), RunDue(old(db.records), s, due))
    ensures generated == RunDue(old(db.records), s, due).generated
    ensures ranAny == (generated != [])
  {
    hide Plus, PeriodEffect, PeriodOf;
    ghost var records0, w := db.records, Seen(db, totals);
    AfterNothing(w);
    ranAny, generated := false, [];
    for i := 0 to |due|
      invariant Seen(db, totals) == After(w, RunDue(records0, s, due[..i]))
      invariant generated == RunDue(records0, s, due[..i]).generated
      invariant ranAny == (generated != [])
    {
      assert due[..i + 1][..i] == due[..i];
      AfterThen(w, RunDue(records0, s, due[..i]), PeriodEffect(db.records, s, due[i]));
      var ran := GeneratePeriod(db, totals, s, due[i]);
      if ran {
        ranAny := true;
        generated := generated + [due[i].period];
      }
    }
    assert due[..|due|] == due;
  }

  /** The body of the academy loop: one academy inside its tenant scope. */
  method ServeAcademy(db: GenerationDb, totals: TotalsDict, s: Step, period: string, priorPeriod: string, sends: bool)
    requires period == Period(s) && priorPeriod == Prior(s)
    modifies db, totals
    ensures Seen(db, totals) == After(old(Seen(db, totals)), StepEffect(old(db.records), s, sends))
  {
    hide Plus, RunDue, DueOf, PeriodOf, EmailAll, SortedSet;
    ghost var records0, w := db.records, Seen(db, totals);
    AfterNothing(w);
    var gate := db.DuePeriods(s, period, priorPeriod);
    if gate.None? {
      return;
    }
    var ranAny, generated := GenerateDuePeriods(db, totals, s, gate.value);
    ghost var run := RunDue(records0, s, gate.value);
    if ranAny {
      totals.Add(ZERO.(academyCount := 1));
    }
    ghost var counted := run.(totals := Plus(run.totals, ZERO.(academyCount := if run.generated != [] then 1 else 0)));
    PlusZero(run.totals);
    PlusAssociative(w.totals, run.totals, ZERO.(academyCount := 1));
    assert Seen(db, totals) == After(w, counted);
    if sends {
      SweepEmails(db, totals, s, SortedSet([period] + generated));
      AfterThen(w, counted, EmailAll(run.records, s, Swept(s, generated)));
    }
  }

  /** Sends every swept period's invoices. */
  method SweepEmails(db: GenerationDb, totals: TotalsDict, s: Step, swept: seq<string>)
    modifies db`calls, totals
    ensures Seen(db, totals) == After(old(Seen(db, totals)), EmailAll(db.records, s, swept))
  {
    ghost var w := Seen(db, totals);
    AfterNothing(w);
    for i := 0 to |swept|
      invariant Seen(db, totals) == After(w, EmailAll(db.records, s, swept[..i]))
    {
      assert swept[..i + 1][..i] == swept[..i];
      AfterThen(w, EmailAll(db.records, s, swept[..i]), EmailEffect(db.records, s, swept[i]));
      EmailGeneratedInvoices(db, totals, s, swept[i]);
    }
    assert swept[..|swept|] == swept;
  }

  /** `_run_monthly_invoice_generation`: one tick over a list of academies. */
  method RunMonthlyInvoiceGeneration(db: GenerationDb, jobs: seq<Job>, now: Clock, sends: bool) returns (totals: Totals)
    modifies db
    ensures World(db.records, db.calls, totals)
         == After(World(old(db.records), old(db.calls), ZERO), RunEffect(old(db.records), StepsAt(jobs, now), sends))
  {
    hide StepEffect, Plus, PeriodOf, IsPeriod, PreviousPeriod;
    var period := PeriodOf(now.month);
    PreviousPeriodIsPriorMonth(now.month);
    var priorPeriod := PreviousPeriod(period);
    var dict := new TotalsDict();
    ghost var records0, w := db.records, Seen(db, dict);
    ghost var steps := StepsAt(jobs, now);
    AfterNothing(w);
    for i := 0 to |jobs|
      invariant Seen(db, dict) == After(w, RunEffect(records0, steps[..i], sends))
    {
      assert steps[..i + 1][..i] == steps[..i];
      AfterThen(w, RunEffect(records0, steps[..i], sends), StepEffect(db.records, steps[i], sends));
      ServeAcademy(db, dict, Step(jobs[i].academy, now, jobs[i].env), period, priorPeriod, sends);
    }
    assert steps[..|jobs|] == steps;
    totals := dict.counts;
  }

  lemma OneStepRun(records: set<Key>, s: Step, sends: bool)
    ensures RunEffect(records, [s], sends) == Then(Nothing(records), StepEffect(records, s, sends))
  {
    assert [s][..0] == [];
  }

  /** The local-clock job: one single-academy tick at each academy's own time, totals added up key by key. */
  method RunEachAcademyLocally(db: GenerationDb, steps: seq<Step>, sends: bool) returns (totals: Totals)
    modifies db
    ensures World(db.records, db.calls, totals)
         == After(World(old(db.records), old(db.calls), ZERO), RunEffect(old(db.records), steps, sends))
  {
    hide StepEffect, Plus;
    totals := ZERO;
    ghost var records0, w := db.records, World(db.records, db.calls, ZERO);
    AfterNothing(w);
    for i := 0 to |steps|
      invariant World(db.records, db.calls, totals) == After(w, RunEffect(records0, steps[..i], sends))
    {
      assert steps[..i + 1][..i] == steps[..i];
      var s := steps[i];
      OneStepRun(db.records, s, sends);
      assert StepsAt([Job(s.academy, s.env)], s.now) == [s];
      ghost var e := StepEffect(db.records, s, sends);
      AfterThen(w, RunEffect(records0, steps[..i], sends), e);
      PlusZero(e.totals);
      PlusZero(Plus(ZERO, e.totals));
      ghost var calls := db.calls;
      var academyTotals := RunMonthlyInvoiceGeneration(db, [Job(s.academy, s.env)], s.now, sends);
      assert db.calls == calls + e.calls;
      assert academyTotals == e.totals;
      totals := Plus(totals, academyTotals);
    }
    assert steps[..|steps|] == steps;
  }

  /** The non-blank strings of a list, each where it first comes. */
  function FirstOccurrences(listed: seq<string>): seq<string> {
    if listed == [] then [] else
    var (before, last) := (FirstOccurrences(listed[..|listed| - 1]), listed[|listed| - 1]);
    if last == "" || last in before then before else before + [last]
  }

  lemma {:induction false} FirstOccurrencesMembers(listed: seq<string>)
    ensures forall i, j :: 0 <= i < j < |FirstOccurrences(listed)| ==> FirstOccurrences(listed)[i] != FirstOccurrences(listed)[j]
    ensures forall a :: a in FirstOccurrences(listed) <==> a != "" && a in listed
  {
    if listed != [] {
      var n := |listed| - 1;
      assert listed == listed[..n] + [listed[n]];
      FirstOccurrencesMembers(listed[..n]);
    }
  }

  /** `_scheduler_academy_ids`: first occurrences only, blanks dropped, the default last unless present. */
  method SchedulerAcademyIds(listed: seq<string>, fallback: string) returns (ids: seq<string>)
    ensures ids == FirstOccurrences(listed) + if fallback == "" || fallback in listed then [] else [fallback]
    ensures forall i, j :: 0 <= i < j < |ids| ==> ids[i] != ids[j]
    ensures forall a :: a in ids <==> a != "" && (a in listed || a == fallback)
  {
    FirstOccurrencesMembers(listed);
    ids := [];
    var seen: set<string> := {};
    for i := 0 to |listed|
      invariant ids == FirstOccurrences(listed[..i])
      invariant forall a :: a in seen <==> a in ids
    {
      var academy := listed[i];
      assert listed[..i + 1][..i] == listed[..i];
      if academy != "" && academy !in seen {
        ids := ids + [academy];
        seen := seen + {academy};
      }
    }
    assert listed[..|listed|] == listed;
    if fallback != "" && fallback !in seen {
      ids := ids + [fallback];
    }
  }
}
