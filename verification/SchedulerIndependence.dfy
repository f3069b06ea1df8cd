/**
 * Academies do not affect each other: the local-clock caller may serve them one at a time, in any order and each
 * at its own time, and sum the totals.
 */
module SchedulerIndependence {
  import opened Periods
  import opened Reordering
  import opened Scheduler
  import opened SchedulerSteps

  ghost predicate DistinctAcademies(steps: seq<Step>) {
    forall i, j :: 0 <= i < j < |steps| ==> steps[i].academy != steps[j].academy
  }

  /** The two record sets agree about one academy. */
  ghost predicate AgreeOn(r1: set<Key>, r2: set<Key>, academy: string) {
    forall k: Key :: k.academy == academy ==> (k in r1 <==> k in r2)
  }

  function CallsOf(calls: seq<Call>, academy: string): seq<Call> {
    if calls == [] then [] else
    CallsOf(calls[..|calls| - 1], academy) +
    if calls[|calls| - 1].key.academy == academy then [calls[|calls| - 1]] else []
  }

  function SumTotals(records: set<Key>, steps: seq<Step>, sends: bool): Totals {
    if steps == [] then ZERO else
    Plus(SumTotals(records, steps[..|steps| - 1], sends), StepEffect(records, steps[|steps| - 1], sends).totals)
  }

  function AllAdded(records: set<Key>, steps: seq<Step>): set<Key> {
    set s, k | s in steps && k in Added(records, s) :: k
  }

  // ----- a step reads and writes only its own academy's records -----

  lemma {:induction false} DueLoopIsLocal(r1: set<Key>, r2: set<Key>, s: Step, due: seq<Due>)
    ensures RunDue(r1, s, due).totals == RunDue(r2, s, due).totals
    ensures RunDue(r1, s, due).generated == RunDue(r2, s, due).generated
  {
    hide Plus, PeriodOf, RunTotals;
    if due != [] {
      DueLoopIsLocal(r1, r2, s, due[..|due| - 1]);
    }
  }

  lemma {:induction false} SweepIsLocal(r1: set<Key>, r2: set<Key>, s: Step, periods: seq<string>)
    ensures EmailAll(r1, s, periods).totals == EmailAll(r2, s, periods).totals
  {
    hide Plus, PeriodOf, SendTotals;
    if periods != [] {
      SweepIsLocal(r1, r2, s, periods[..|periods| - 1]);
    }
  }

  lemma GateIsLocal(r1: set<Key>, r2: set<Key>, s: Step)
    requires AgreeOn(r1, r2, s.academy)
    ensures GateReads(r1, s) == GateReads(r2, s) && DueOf(r1, s) == DueOf(r2, s)
    ensures Generations(r1, s) == Generations(r2, s) && Added(r1, s) == Added(r2, s)
    ensures Ran(r1, s) == Ran(r2, s)
  {
    hide PeriodOf, GenerateCall, LeavesRecord, BillingDay;
    assert HasHistory(r1, s.academy) ==> HasHistory(r2, s.academy) by {
      if HasHistory(r1, s.academy) {
        var k :| k in r1 && k.academy == s.academy;
        assert k in r2;
      }
    }
    assert HasHistory(r2, s.academy) ==> HasHistory(r1, s.academy) by {
      if HasHistory(r2, s.academy) {
        var k :| k in r2 && k.academy == s.academy;
        assert k in r1;
      }
    }
  }

  /** A step does the same from any two record sets that agree about its academy. */
  lemma StepIsLocal(r1: set<Key>, r2: set<Key>, s: Step, sends: bool)
    requires AgreeOn(r1, r2, s.academy)
    ensures StepEffect(r1, s, sends).totals == StepEffect(r2, s, sends).totals
    ensures StepEffect(r1, s, sends).calls == StepEffect(r2, s, sends).calls
    ensures Added(r1, s) == Added(r2, s)
    ensures forall k :: k in Added(r1, s) ==> k.academy == s.academy
  {
    GateIsLocal(r1, r2, s);
    StepIsClosedForm(r1, s, sends);
    StepIsClosedForm(r2, s, sends);
    hide Plus, PeriodOf, RunDue, EmailAll, Swept, DueOf, GateReads;
    if GateReads(r1, s) {
      var d1, d2 := RunDue(r1, s, DueOf(r1, s)), RunDue(r2, s, DueOf(r2, s));
      DueLoopIsLocal(r1, r2, s, DueOf(r1, s));
      SweepIsLocal(d1.records, d2.records, s, Swept(s, d1.generated));
    }
  }

  lemma {:induction false} CallsOfConcat(a: seq<Call>, b: seq<Call>, academy: string)
    ensures CallsOf(a + b, academy) == CallsOf(a, academy) + CallsOf(b, academy)
  {
    if b == [] {
      assert a + b == a;
    } else {
      var n := |b| - 1;
      assert (a + b)[..|a| + n] == a + b[..n];
      CallsOfConcat(a, b[..n], academy);
    }
  }

  lemma {:induction false} CallsOfOne(calls: seq<Call>, own: string, academy: string)
    requires forall c :: c in calls ==> c.key.academy == own
    ensures CallsOf(calls, academy) == if academy == own then calls else []
  {
    if calls != [] {
      var n := |calls| - 1;
      CallsOfOne(calls[..n], own, academy);
      assert calls[n].key.academy == own;
      assert calls == calls[..n] + [calls[n]];
    }
  }

  lemma StepCallsAreOwn(records: set<Key>, s: Step, sends: bool)
    ensures forall c :: c in Generations(records, s) + SweepCalls(records, s, sends) ==> c.key.academy == s.academy
  {
    hide PeriodOf, GateReads;
  }

  // ----- a run over distinct academies is the sum of its steps -----

  /** What every prefix of a run over distinct academies looks like, measured from the initial records alone. */
  ghost predicate IsSumOfSteps(records: set<Key>, steps: seq<Step>, sends: bool) {
    var run := RunEffect(records, steps, sends);
    && run.records == records + AllAdded(records, steps)
    && run.totals == SumTotals(records, steps, sends)
    && OwnCalls(records, steps, sends, run.calls)
  }

  /** Every academy of the steps has exactly the calls it would make alone, every other academy none. */
  ghost predicate OwnCalls(records: set<Key>, steps: seq<Step>, sends: bool, calls: seq<Call>) {
    && (forall s :: s in steps ==> CallsOf(calls, s.academy) == StepEffect(records, s, sends).calls)
    && (forall a :: (forall s :: s in steps ==> s.academy != a) ==> CallsOf(calls, a) == [])
  }

  lemma {:induction false} RunIsSumOfSteps(records: set<Key>, steps: seq<Step>, sends: bool)
    requires DistinctAcademies(steps)
    ensures IsSumOfSteps(records, steps, sends)
  {
    if steps != [] {
      var n := |steps| - 1;
      RunIsSumOfSteps(records, steps[..n], sends);
      SumOfStepsExtends(records, steps, sends);
    } else {
      assert AllAdded(records, steps) == {};
    }
  }

  lemma SumOfStepsExtends(records: set<Key>, steps: seq<Step>, sends: bool)
    requires DistinctAcademies(steps) && steps != []
    requires IsSumOfSteps(records, steps[..|steps| - 1], sends)
    ensures IsSumOfSteps(records, steps, sends)
  {
    hide StepEffect, Plus, Added, AllAdded, PeriodOf, OwnCalls, CallsOf, DistinctAcademies, AgreeOn;
    var n := |steps| - 1;
    var before, s := RunEffect(records, steps[..n], sends), steps[n];
    AgreeAfterOthers(records, steps, sends);
    StepIsLocal(before.records, records, s, sends);
    StepRecords(before.records, s, sends);
    AddedSnoc(records, steps);
    OwnCallsGrow(records, steps, sends, before.calls, StepEffect(records, s, sends).calls);
  }

  lemma StepRecords(records: set<Key>, s: Step, sends: bool)
    ensures StepEffect(records, s, sends).records == records + Added(records, s)
  {
    StepIsClosedForm(records, s, sends);
    hide StepEffect, Added, Generations, SweepCalls;
  }

  /** The steps of other academies leave this academy's records as they were. */
  lemma AgreeAfterOthers(records: set<Key>, steps: seq<Step>, sends: bool)
    requires DistinctAcademies(steps) && steps != []
    requires RunEffect(records, steps[..|steps| - 1], sends).records == records + AllAdded(records, steps[..|steps| - 1])
    ensures AgreeOn(RunEffect(records, steps[..|steps| - 1], sends).records, records, steps[|steps| - 1].academy)
  {
    hide StepEffect, Plus, Added, PeriodOf, RunEffect;
    var n := |steps| - 1;
    forall p | p in steps[..n]
      ensures forall k :: k in Added(records, p) ==> k.academy == p.academy != steps[n].academy
    {
      StepIsLocal(records, records, p, sends);
    }
  }

  lemma OwnCallsGrow(records: set<Key>, steps: seq<Step>, sends: bool, calls: seq<Call>, last: seq<Call>)
    requires DistinctAcademies(steps) && steps != []
    requires OwnCalls(records, steps[..|steps| - 1], sends, calls)
    requires last == StepEffect(records, steps[|steps| - 1], sends).calls
    ensures OwnCalls(records, steps, sends, calls + last)
  {
    var (before, own) := (steps[..|steps| - 1], steps[|steps| - 1]);
    StepCallsAreOwn(records, own, sends);
    StepIsClosedForm(records, own, sends);
    OthersDiffer(steps);
    hide StepEffect, Generations, SweepCalls, CallsOf, DistinctAcademies;
    assert steps == before + [own];
    forall a
      ensures CallsOf(calls + last, a) == CallsOf(calls, a) + if a == own.academy then last else []
    {
      CallsOfConcat(calls, last, a);
      CallsOfOne(last, own.academy, a);
    }
    OwnCallsSnoc(records, before, own, sends, calls, calls + last, last);
  }

  lemma OwnCallsSnoc(records: set<Key>, before: seq<Step>, own: Step, sends: bool, calls: seq<Call>, after: seq<Call>, last: seq<Call>)
    requires OwnCalls(records, before, sends, calls) && last == StepEffect(records, own, sends).calls
    requires forall s :: s in before ==> s.academy != own.academy
    requires forall a :: CallsOf(after, a) == CallsOf(calls, a) + if a == own.academy then last else []
    ensures OwnCalls(records, before + [own], sends, after)
  {
    hide StepEffect, CallsOf;
    var steps := before + [own];
    assert CallsOf(calls, own.academy) == [];
    forall s | s in steps
      ensures CallsOf(after, s.academy) == StepEffect(records, s, sends).calls
    {
      if s != own {
        assert s in before;
      }
    }
    forall a | forall s :: s in steps ==> s.academy != a
      ensures CallsOf(after, a) == []
    {
      assert own in steps && forall s :: s in before ==> s in steps;
    }
  }

  lemma OthersDiffer(steps: seq<Step>)
    requires DistinctAcademies(steps) && steps != []
    ensures forall s :: s in steps[..|steps| - 1] ==> s.academy != steps[|steps| - 1].academy
  {
  }

  lemma AddedSnoc(records: set<Key>, steps: seq<Step>)
    requires steps != []
    ensures AllAdded(records, steps) == AllAdded(records, steps[..|steps| - 1]) + Added(records, steps[|steps| - 1])
  {
    hide Added;
    var n := |steps| - 1;
    assert steps == steps[..n] + [steps[n]];
  }

  // ----- order does not matter -----

  lemma {:induction false} SumWithout(records: set<Key>, steps: seq<Step>, sends: bool, i: nat)
    requires i < |steps|
    ensures SumTotals(records, steps, sends)
         == Plus(SumTotals(records, Without(steps, i), sends), StepEffect(records, steps[i], sends).totals)
  {
    hide StepEffect, PeriodOf, Plus;
    var n := |steps| - 1;
    var rest := Without(steps, i);
    if i == n {
      assert rest == steps[..n];
    } else {
      assert rest[..n - 1] == Without(steps[..n], i);
      assert rest[n - 1] == steps[n];
      SumWithout(records, steps[..n], sends, i);
      PlusSwap(SumTotals(records, rest[..n - 1], sends), StepEffect(records, steps[i], sends).totals,
               StepEffect(records, steps[n], sends).totals);
    }
  }

  lemma {:induction false} SumIsOrderFree(records: set<Key>, a: seq<Step>, b: seq<Step>, sends: bool)
    requires multiset(a) == multiset(b)
    ensures SumTotals(records, a, sends) == SumTotals(records, b, sends)
    decreases |a|
  {
    hide StepEffect, Plus, PeriodOf, Without;
    if a != [] {
      var i := MatchLast(a, b);
      SumIsOrderFree(records, a[..|a| - 1], Without(b, i), sends);
      SumWithout(records, b, sends, i);
    } else {
      assert |multiset(b)| == 0;
    }
  }

  /**
   * Academy independence. Serving the same academies, each at its own time, in any order has the same effect on
   * the records and the same summed totals, and every academy sees exactly the calls it would see alone,
   * whichever of the others raise.
   */
  lemma AcademiesAreIndependent(records: set<Key>, a: seq<Step>, b: seq<Step>, sends: bool)
    requires DistinctAcademies(a) && multiset(a) == multiset(b)
    ensures RunEffect(records, a, sends).records == RunEffect(records, b, sends).records
    ensures RunEffect(records, a, sends).totals == RunEffect(records, b, sends).totals
    ensures forall s :: s in b ==>
      CallsOf(RunEffect(records, b, sends).calls, s.academy) == StepEffect(records, s, sends).calls
  {
    hide StepEffect, Plus, PeriodOf, Added, RunEffect;
    DistinctInAnyOrder(a, b);
    RunIsSumOfSteps(records, a, sends);
    RunIsSumOfSteps(records, b, sends);
    SumIsOrderFree(records, a, b, sends);
    forall s ensures s in a <==> s in b {
      assert s in a <==> s in multiset(a);
      assert s in b <==> s in multiset(b);
    }
  }

  lemma DistinctInAnyOrder(a: seq<Step>, b: seq<Step>)
    requires DistinctAcademies(a) && multiset(a) == multiset(b)
    ensures DistinctAcademies(b)
  {
    ReorderingKeepsNoDuplicates(a, b);
    forall i, j | 0 <= i < j < |b|
      ensures b[i].academy != b[j].academy
    {
      assert b[i] in multiset(a) && b[j] in multiset(a);
    }
  }
}
