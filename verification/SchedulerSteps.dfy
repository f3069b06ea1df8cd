/**
 * One scheduler step in closed form: which records it adds, what it calls and in which order, and what its
 * totals count.
 */
module SchedulerSteps {
  import opened Periods
  import opened Text
  import opened Scheduler
  import opened Wrappers

  /** The generation calls of one step, oldest period first. */
  function Generations(records: set<Key>, s: Step): seq<Call> {
    if !GateReads(records, s) then [] else
    (if PriorIsDue(records, s) then [GenerateCall(s, Prior(s))] else []) +
    (if CurrentIsDue(records, s) then [GenerateCall(s, Period(s))] else [])
  }

  function Added(records: set<Key>, s: Step): set<Key> {
    if !GateReads(records, s) then {} else
    (if PriorIsDue(records, s) && LeavesRecord(s.env.prior) then {Key(s.academy, Prior(s))} else {}) +
    (if CurrentIsDue(records, s) && LeavesRecord(s.env.current) then {Key(s.academy, Period(s))} else {})
  }

  /** True for a generation call whose `generate` returned. */
  predicate Returned(c: Call) {
    c.Generate? && c.outcome.GenReturned?
  }

  predicate IsPartial(c: Call) {
    Returned(c) && c.outcome.counts.failedRepair != 0
  }

  /** A clean run whose record is known to be stored. */
  predicate IsRecorded(c: Call) {
    Returned(c) && c.write.Some? && !c.write.value.WriteFailed?
  }

  /** A clean run whose record write was reported lost. */
  predicate IsLostRecord(c: Call) {
    Returned(c) && c.write.Some? && c.write.value.WriteFailed?
  }

  /** A generation call after which the period is on record. */
  predicate Leaves(c: Call) {
    c.Generate? && c.write.Some? && Stores(c.write.value)
  }

  predicate Fruitless(c: Call) {
    c.Generate? && (c.outcome.GenRaised? || c.outcome.counts.failedRepair != 0 || c.write == Some(WriteFailed(false)))
  }

  function Count(calls: seq<Call>, p: Call -> bool): nat {
    if calls == [] then 0 else Count(calls[..|calls| - 1], p) + if p(calls[|calls| - 1]) then 1 else 0
  }

  lemma PeriodsDiffer(s: Step)
    ensures StringLess(Prior(s), Period(s)) && !StringLess(Period(s), Prior(s)) && Prior(s) != Period(s)
  {
    PeriodOrderIsMonthOrder(s.now.month - 1, s.now.month);
    PeriodOrderIsMonthOrder(s.now.month, s.now.month - 1);
  }

  lemma EnvOfPeriods(s: Step)
    ensures EnvFor(s, Period(s)) == s.env.current && EnvFor(s, Prior(s)) == s.env.prior
  {
    PeriodsDiffer(s);
  }

  /** What generating one period does: the call, the record if healthy, the period if it returned. */
  ghost predicate Does(e: Effect, records: set<Key>, s: Step, period: string) {
    && e.calls == [GenerateCall(s, period)]
    && e.records == (if LeavesRecord(EnvFor(s, period)) then records + {Key(s.academy, period)} else records)
    && e.generated == if EnvFor(s, period).generate.GenReturned? then [period] else []
  }

  lemma RunDueOfNone(records: set<Key>, s: Step)
    ensures RunDue(records, s, []) == Nothing(records)
  {
  }

  lemma RunDueOfOne(records: set<Key>, s: Step, d: Due)
    ensures Does(RunDue(records, s, [d]), records, s, d.period)
  {
    hide Plus, PeriodOf, RunTotals;
    assert [d][..0] == [];
    var e := PeriodEffect(records, s, d);
    assert [] + e.calls == e.calls && [] + e.generated == e.generated;
  }

  lemma RunDueOfTwo(records: set<Key>, s: Step, d: Due, e: Due)
    ensures var one, two := RunDue(records, s, [d]), RunDue(records, s, [d, e]);
      && two.calls == one.calls + [GenerateCall(s, e.period)]
      && two.records == (if LeavesRecord(EnvFor(s, e.period)) then one.records + {Key(s.academy, e.period)} else one.records)
      && two.generated == one.generated + if EnvFor(s, e.period).generate.GenReturned? then [e.period] else []
  {
    hide Plus, PeriodOf, RunTotals;
    assert [d, e][..1] == [d];
  }

  /** The periods whose generation returned in this step. */
  function Ran(records: set<Key>, s: Step): seq<string> {
    if !GateReads(records, s) then [] else
    (if PriorIsDue(records, s) && s.env.prior.generate.GenReturned? then [Prior(s)] else []) +
    (if CurrentIsDue(records, s) && s.env.current.generate.GenReturned? then [Period(s)] else [])
  }

  /** The due loop makes exactly the generation calls, adds exactly the healthy periods and runs each due period once. */
  lemma DueLoopIsClosedForm(records: set<Key>, s: Step, due: seq<Due>)
    requires GateReads(records, s) && due == DueOf(records, s)
    ensures var run := RunDue(records, s, due);
      && run.calls == Generations(records, s)
      && (forall k :: k in run.records <==> k in records || k in Added(records, s))
      && run.generated == Ran(records, s)
  {
    EnvOfPeriods(s);
    hide Plus, PeriodOf, RunDue, GenerateCall, LeavesRecord, BillingDay, EnvFor, PriorIsDue, CurrentIsDue, GateReads;
    var prior, current := Due(Prior(s), true), Due(Period(s), s.now.day > BillingDay(s.env));
    if PriorIsDue(records, s) && CurrentIsDue(records, s) {
      DueLoopOfBoth(records, s, due);
    } else if PriorIsDue(records, s) {
      assert due == [prior];
      RunDueOfOne(records, s, prior);
    } else if CurrentIsDue(records, s) {
      assert due == [current];
      RunDueOfOne(records, s, current);
    } else {
      assert due == [];
      RunDueOfNone(records, s);
    }
  }

  lemma DueLoopOfBoth(records: set<Key>, s: Step, due: seq<Due>)
    requires GateReads(records, s) && PriorIsDue(records, s) && CurrentIsDue(records, s) && due == DueOf(records, s)
    ensures var run := RunDue(records, s, due);
      && run.calls == Generations(records, s)
      && (forall k :: k in run.records <==> k in records || k in Added(records, s))
      && run.generated == Ran(records, s)
  {
    EnvOfPeriods(s);
    hide Plus, PeriodOf, RunDue, GenerateCall, LeavesRecord, BillingDay, EnvFor, PriorIsDue, CurrentIsDue, GateReads;
    var prior, current := Due(Prior(s), true), Due(Period(s), s.now.day > BillingDay(s.env));
    assert due == [prior, current];
    RunDueOfOne(records, s, prior);
    RunDueOfTwo(records, s, prior, current);
  }

  lemma SortedSetOfPair(p: string, q: string)
    requires StringLess(p, q) && p != q && !StringLess(q, p)
    ensures SortedSet([q]) == [q]
    ensures SortedSet([q, p]) == [p, q]
    ensures SortedSet([q, q]) == [q]
    ensures SortedSet([q, p, q]) == [p, q]
  {
    hide StringLess;
    assert [q][..0] == [];
    assert [q, p][..1] == [q];
    assert [q, q][..1] == [q];
    assert [q, p, q][..2] == [q, p];
    assert SortedSet([q, p]) == InsertPeriod(p, SortedSet([q]));
    assert InsertPeriod(q, [p, q]) == [p] + InsertPeriod(q, [q]) by { assert [p, q][1..] == [q]; }
  }

  /**
   * The email sweep visits the current period once, and the prior period once exactly when this very step
   * generated it, oldest first.
   */
  lemma SweepIsOldestFirst(records: set<Key>, s: Step)
    ensures Swept(s, Ran(records, s)) == (if Prior(s) in Ran(records, s) then [Prior(s)] else []) + [Period(s)]
  {
    hide PeriodOf;
    PeriodsDiffer(s);
    var p, q := Prior(s), Period(s);
    SortedSetOfPair(p, q);
    var ran := Ran(records, s);
    if p in ran && q in ran {
      assert [q] + ran == [q, p, q];
    } else if p in ran {
      assert [q] + ran == [q, p];
    } else if q in ran {
      assert [q] + ran == [q, q];
    } else {
      assert [q] + ran == [q];
    }
  }

  lemma EmailAllIsEmails(records: set<Key>, s: Step, periods: seq<string>)
    ensures var e := EmailAll(records, s, periods);
      && e.records == records && e.generated == []
      && |e.calls| == |periods|
      && (forall i :: 0 <= i < |periods| ==> e.calls[i] == Email(Key(s.academy, periods[i])))
  {
    hide Plus, SendTotals;
  }

  function SweepCalls(records: set<Key>, s: Step, sends: bool): seq<Call> {
    if !sends || !GateReads(records, s) then [] else
    (if Prior(s) in Ran(records, s) then [Email(Key(s.academy, Prior(s)))] else []) + [Email(Key(s.academy, Period(s)))]
  }

  /**
   * A step in closed form. Its calls are the due generations, oldest first, then the sweep; it adds exactly the
   * due periods whose generation was clean and whose record reached the store.
   */
  lemma StepIsClosedForm(records: set<Key>, s: Step, sends: bool)
    ensures forall k :: k in StepEffect(records, s, sends).records <==> k in records || k in Added(records, s)
    ensures StepEffect(records, s, sends).calls == Generations(records, s) + SweepCalls(records, s, sends)
  {
    hide Plus, PeriodOf, RunDue, EmailAll, Swept;
    if GateReads(records, s) {
      DueLoopIsClosedForm(records, s, DueOf(records, s));
      SweepIsOldestFirst(records, s);
      var run := RunDue(records, s, DueOf(records, s));
      EmailAllIsEmails(run.records, s, Swept(s, run.generated));
      if sends {
        assert EmailAll(run.records, s, Swept(s, run.generated)).calls == SweepCalls(records, s, sends);
      }
    }
  }

  // ----- accounting -----

  lemma {:induction false} CountConcat(a: seq<Call>, b: seq<Call>, p: Call -> bool)
    ensures Count(a + b, p) == Count(a, p) + Count(b, p)
  {
    if b == [] {
      assert a + b == a;
    } else {
      var n := |b| - 1;
      assert (a + b)[..|a| + n] == a + b[..n];
      CountConcat(a, b[..n], p);
    }
  }

  /** What every list of steps keeps true between its totals and its calls. */
  ghost predicate Accounted(e: Effect) {
    && e.totals.periodRunCount == Count(e.calls, IsRecorded) + Count(e.calls, IsPartial) + Count(e.calls, IsLostRecord)
    && e.totals.partialRunCount == Count(e.calls, IsPartial)
    && e.totals.catchUpRunCount <= e.totals.periodRunCount
    && 0 <= e.totals.academyCount <= e.totals.periodRunCount <= 2 * e.totals.academyCount
  }

  lemma AccountedThen(a: Effect, b: Effect)
    requires Accounted(a) && Accounted(b)
    ensures Accounted(Then(a, b))
  {
    CountConcat(a.calls, b.calls, IsRecorded);
    CountConcat(a.calls, b.calls, IsPartial);
    CountConcat(a.calls, b.calls, IsLostRecord);
  }

  /** The part of the accounting that one due period contributes. */
  ghost predicate PeriodAccounted(e: Effect) {
    && e.totals.periodRunCount == |e.generated|
    && e.totals.periodRunCount == Count(e.calls, IsRecorded) + Count(e.calls, IsPartial) + Count(e.calls, IsLostRecord)
    && e.totals.partialRunCount == Count(e.calls, IsPartial)
    && e.totals.catchUpRunCount <= e.totals.periodRunCount
    && e.totals.academyCount == 0
  }

  lemma PeriodIsAccounted(records: set<Key>, s: Step, d: Due)
    ensures PeriodAccounted(PeriodEffect(records, s, d))
  {
    hide PeriodOf;
    var c := GenerateCall(s, d.period);
    assert [c][..0] == [];
    assert Count([c], IsRecorded) == if IsRecorded(c) then 1 else 0;
    assert Count([c], IsPartial) == if IsPartial(c) then 1 else 0;
    assert Count([c], IsLostRecord) == if IsLostRecord(c) then 1 else 0;
  }

  lemma {:induction false} DueLoopIsAccounted(records: set<Key>, s: Step, due: seq<Due>)
    ensures PeriodAccounted(RunDue(records, s, due)) && |RunDue(records, s, due).generated| <= |due|
  {
    hide PeriodEffect;
    if due != [] {
      var before := RunDue(records, s, due[..|due| - 1]);
      var last := PeriodEffect(before.records, s, due[|due| - 1]);
      DueLoopIsAccounted(records, s, due[..|due| - 1]);
      PeriodIsAccounted(before.records, s, due[|due| - 1]);
      PeriodGeneratesAtMostOne(before.records, s, due[|due| - 1]);
      CountConcat(before.calls, last.calls, IsRecorded);
      CountConcat(before.calls, last.calls, IsPartial);
      CountConcat(before.calls, last.calls, IsLostRecord);
    }
  }

  lemma PeriodGeneratesAtMostOne(records: set<Key>, s: Step, d: Due)
    ensures |PeriodEffect(records, s, d).generated| <= 1
  {
  }

  lemma {:induction false} SweepCountsNothing(records: set<Key>, s: Step, periods: seq<string>)
    ensures Accounted(EmailAll(records, s, periods)) && EmailAll(records, s, periods).totals.academyCount == 0
  {
    if periods != [] {
      var n := |periods| - 1;
      SweepCountsNothing(records, s, periods[..n]);
      var e := EmailEffect(records, s, periods[n]);
      assert [Email(Key(s.academy, periods[n]))][..0] == [];
      assert Accounted(e);
      AccountedThen(EmailAll(records, s, periods[..n]), e);
    }
  }

  lemma StepIsAccounted(records: set<Key>, s: Step, sends: bool)
    ensures Accounted(StepEffect(records, s, sends))
  {
    hide RunDue, EmailAll, Swept, PeriodOf;
    if GateReads(records, s) {
      var due := DueOf(records, s);
      DueLoopIsAccounted(records, s, due);
      var run := RunDue(records, s, due);
      var counted := run.(totals := Plus(run.totals, ZERO.(academyCount := if run.generated != [] then 1 else 0)));
      assert Accounted(counted);
      SweepCountsNothing(run.records, s, Swept(s, run.generated));
      if sends {
        AccountedThen(counted, EmailAll(run.records, s, Swept(s, run.generated)));
      }
    }
  }

  /**
   * Tick accounting, over any list of academies: every counted run is recorded, partial or lost its record, and
   * every counted academy ran one or two periods.
   */
  lemma {:induction false} RunIsAccounted(records: set<Key>, steps: seq<Step>, sends: bool)
    ensures Accounted(RunEffect(records, steps, sends))
  {
    hide StepEffect;
    if steps != [] {
      var before := RunEffect(records, steps[..|steps| - 1], sends);
      RunIsAccounted(records, steps[..|steps| - 1], sends);
      StepIsAccounted(before.records, steps[|steps| - 1], sends);
      AccountedThen(before, StepEffect(before.records, steps[|steps| - 1], sends));
    }
  }
}
