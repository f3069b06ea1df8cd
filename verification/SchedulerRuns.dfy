/**
 * Whole runs of the scheduler. A run is any list of steps: ticks of any size, by any number of schedulers, one
 * after the other. Only the clock of the academy a claim is about has to be non-decreasing.
 */
module SchedulerRuns {
  import opened Periods
  import opened Scheduler
  import opened SchedulerSteps

  function RecordsAfter(records: set<Key>, steps: seq<Step>): set<Key> {
    if steps == [] then records else
    var before := RecordsAfter(records, steps[..|steps| - 1]);
    before + Added(before, steps[|steps| - 1])
  }

  /** The generation calls of step `j`, made from the records the steps before it left. */
  function GenerationsAt(records: set<Key>, steps: seq<Step>, j: nat): seq<Call>
    requires j < |steps|
  {
    Generations(RecordsAfter(records, steps[..j]), steps[j])
  }

  function RunGenerations(records: set<Key>, steps: seq<Step>): seq<Call> {
    if steps == [] then [] else
    RunGenerations(records, steps[..|steps| - 1]) +
    Generations(RecordsAfter(records, steps[..|steps| - 1]), steps[|steps| - 1])
  }

  function OnlyGenerations(calls: seq<Call>): seq<Call> {
    if calls == [] then [] else
    OnlyGenerations(calls[..|calls| - 1]) + if calls[|calls| - 1].Generate? then [calls[|calls| - 1]] else []
  }

  lemma {:induction false} OnlyGenerationsConcat(a: seq<Call>, b: seq<Call>)
    ensures OnlyGenerations(a + b) == OnlyGenerations(a) + OnlyGenerations(b)
  {
    if b == [] {
      assert a + b == a;
    } else {
      var n := |b| - 1;
      assert (a + b)[..|a| + n] == a + b[..n];
      OnlyGenerationsConcat(a, b[..n]);
    }
  }

  lemma {:induction false} OnlyGenerationsKeepsAll(calls: seq<Call>)
    requires forall c :: c in calls ==> c.Generate?
    ensures OnlyGenerations(calls) == calls
  {
    if calls != [] {
      var n := |calls| - 1;
      OnlyGenerationsKeepsAll(calls[..n]);
      assert calls == calls[..n] + [calls[n]];
    }
  }

  lemma {:induction false} OnlyGenerationsDropsAll(calls: seq<Call>)
    requires forall c :: c in calls ==> c.Email?
    ensures OnlyGenerations(calls) == []
  {
    if calls != [] {
      OnlyGenerationsDropsAll(calls[..|calls| - 1]);
      assert calls[|calls| - 1].Email?;
    }
  }

  /** The generation calls of one step are its due generations. */
  lemma StepGenerations(records: set<Key>, s: Step, sends: bool)
    ensures OnlyGenerations(StepEffect(records, s, sends).calls) == Generations(records, s)
  {
    StepIsClosedForm(records, s, sends);
    GenerationsAreGenerations(records, s, sends);
    hide StepEffect, Generations, SweepCalls, OnlyGenerations, PeriodOf;
    var gens, sweep := Generations(records, s), SweepCalls(records, s, sends);
    OnlyGenerationsConcat(gens, sweep);
    OnlyGenerationsKeepsAll(gens);
    OnlyGenerationsDropsAll(sweep);
  }

  /** The records and the generation calls of the scheduler's run are the ones this module reasons about. */
  lemma {:induction false} RunIsClosedForm(records: set<Key>, steps: seq<Step>, sends: bool)
    ensures RunEffect(records, steps, sends).records == RecordsAfter(records, steps)
    ensures OnlyGenerations(RunEffect(records, steps, sends).calls) == RunGenerations(records, steps)
  {
    hide StepEffect, Plus, PeriodOf, Generations, SweepCalls, Added;
    if steps != [] {
      var n := |steps| - 1;
      var before, s := RunEffect(records, steps[..n], sends), steps[n];
      RunIsClosedForm(records, steps[..n], sends);
      StepIsClosedForm(before.records, s, sends);
      StepGenerations(before.records, s, sends);
      hide OnlyGenerations;
      OnlyGenerationsConcat(before.calls, StepEffect(before.records, s, sends).calls);
    }
  }

  lemma GenerationsAreGenerations(records: set<Key>, s: Step, sends: bool)
    ensures forall c :: c in Generations(records, s) ==> c.Generate?
    ensures forall c :: c in SweepCalls(records, s, sends) ==> c.Email?
  {
  }

  // ----- the record set -----

  lemma {:induction false} RecordsOnlyGrow(records: set<Key>, steps: seq<Step>, i: nat, j: nat)
    requires i <= j <= |steps|
    ensures records <= RecordsAfter(records, steps[..i]) <= RecordsAfter(records, steps[..j])
    decreases j
  {
    if i < j {
      assert steps[..j][..j - 1] == steps[..j - 1];
      RecordsOnlyGrow(records, steps, i, j - 1);
    } else if j > 0 {
      assert steps[..j][..j - 1] == steps[..j - 1];
      RecordsOnlyGrow(records, steps, j - 1, j - 1);
    }
  }

  /** A generation call leaves the record exactly when it is not fruitless. */
  lemma CallOutcome(s: Step, period: string)
    ensures var c := GenerateCall(s, period);
      && c.Generate? && c.key == Key(s.academy, period)
      && (Leaves(c) <==> LeavesRecord(EnvFor(s, period))) && (Leaves(c) <==> !Fruitless(c))
  {
    hide PeriodOf;
  }

  /**
   * `g` is a list of generation calls that explains how `records` became `after`: no call is for an initial
   * record, a call that is not the last for its period achieved nothing, and the new records are exactly the
   * periods of the calls that left one.
   */
  ghost predicate Explains(records: set<Key>, g: seq<Call>, after: set<Key>) {
    && (forall i :: 0 <= i < |g| ==> g[i].Generate? && g[i].key !in records && (Leaves(g[i]) <==> !Fruitless(g[i])))
    && (forall i, j :: 0 <= i < j < |g| && g[i].key == g[j].key ==> Fruitless(g[i]))
    && (forall k :: k in after <==> k in records || exists i :: 0 <= i < |g| && Leaves(g[i]) && g[i].key == k)
  }

  /** One call for a period that is not on record yet. */
  lemma CallExplains(records: set<Key>, s: Step, period: string)
    requires Key(s.academy, period) !in records
    ensures var c := GenerateCall(s, period);
      Explains(records, [c], if LeavesRecord(EnvFor(s, period)) then records + {c.key} else records)
  {
    CallOutcome(s, period);
    hide GenerateCall, LeavesRecord, EnvFor, Leaves, Fruitless, PeriodOf;
    var c := GenerateCall(s, period);
    assert [c][0] == c;
  }

  lemma ExplainsExtends(records: set<Key>, g: seq<Call>, mid: set<Key>, h: seq<Call>, after: set<Key>)
    requires Explains(records, g, mid) && Explains(mid, h, after)
    ensures Explains(records, g + h, after)
  {
    hide Leaves, Fruitless;
    var all := g + h;
    forall k | k in after && k !in records
      ensures exists i :: 0 <= i < |all| && Leaves(all[i]) && all[i].key == k
    {
      if k in mid {
        var i :| 0 <= i < |g| && Leaves(g[i]) && g[i].key == k;
        assert all[i] == g[i];
      } else {
        var i :| 0 <= i < |h| && Leaves(h[i]) && h[i].key == k;
        assert all[|g| + i] == h[i];
      }
    }
  }

  /** What one step calls `generate` for: never a recorded period, each period once, and the records it leaves. */
  lemma StepGenerationFacts(records: set<Key>, s: Step)
    ensures Explains(records, Generations(records, s), records + Added(records, s))
    ensures var g := Generations(records, s); forall i, j :: 0 <= i < j < |g| ==> g[i].key != g[j].key
  {
    EnvOfPeriods(s);
    PeriodsDiffer(s);
    CallOutcome(s, Prior(s));
    CallOutcome(s, Period(s));
    ExplainsNothing(records);
    hide PeriodOf, Leaves, Fruitless, LeavesRecord, GenerateCall, GateReads, HasHistory, BillingDay, Explains, EnvFor;
    var prior, current := GenerateCall(s, Prior(s)), GenerateCall(s, Period(s));
    var mid := if LeavesRecord(s.env.prior) then records + {prior.key} else records;
    if GateReads(records, s) && PriorIsDue(records, s) {
      CallExplains(records, s, Prior(s));
      if CurrentIsDue(records, s) {
        CallExplains(mid, s, Period(s));
        assert records + Added(records, s) == if LeavesRecord(s.env.current) then mid + {current.key} else mid;
        assert Generations(records, s) == [prior] + [current];
        ExplainsExtends(records, [prior], mid, [current], records + Added(records, s));
      } else {
        assert Generations(records, s) == [prior] && records + Added(records, s) == mid;
      }
    } else if GateReads(records, s) && CurrentIsDue(records, s) {
      CallExplains(records, s, Period(s));
      assert records + Added(records, s) == if LeavesRecord(s.env.current) then records + {current.key} else records;
      assert Generations(records, s) == [current];
    } else {
      assert Generations(records, s) == [] && records + Added(records, s) == records;
    }
  }

  /**
   * Generation stops at the record, over any run. A recorded period is never generated; every call for a period
   * except possibly the last one raised, was partial or lost its record write; and the final records are the
   * initial ones plus exactly the periods of the calls that left one.
   */
  lemma {:induction false} GenerationStopsAtRecord(records: set<Key>, steps: seq<Step>)
    ensures Explains(records, RunGenerations(records, steps), RecordsAfter(records, steps))
  {
    hide Generations, Added, Explains;
    if steps == [] {
      ExplainsNothing(records);
    } else {
      var n := |steps| - 1;
      GenerationStopsAtRecord(records, steps[..n]);
      var mid := RecordsAfter(records, steps[..n]);
      StepGenerationFacts(mid, steps[n]);
      ExplainsExtends(records, RunGenerations(records, steps[..n]), mid, Generations(mid, steps[n]),
                      mid + Added(mid, steps[n]));
    }
  }

  lemma ExplainsNothing(records: set<Key>)
    ensures Explains(records, [], records)
  {
  }
}
