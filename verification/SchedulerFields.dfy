/** One scheduler step, read off the outcomes and settings it is handed. */
module SchedulerFields {
  import opened Periods
  import opened Scheduler
  import opened SchedulerSteps

  function ThisMonth(s: Step): Key {
    Key(s.academy, PeriodOf(s.now.month))
  }

  function MonthBefore(s: Step): Key {
    Key(s.academy, PeriodOf(s.now.month - 1))
  }

  /** Every read that the gate comes to succeeds; the history is read only for an unrecorded month. */
  ghost predicate PastGate(records: set<Key>, s: Step) {
    && s.env.priorReadOk && s.env.currentReadOk
    && (MonthBefore(s) !in records ==> s.env.historyReadOk)
  }

  /** The month before is owed once the academy has any record. */
  ghost predicate OwesMonthBefore(records: set<Key>, s: Step) {
    PastGate(records, s) && MonthBefore(s) !in records && exists k :: k in records && k.academy == s.academy
  }

  /** The current month is owed from the academy's own billing day on, or from the first when that cannot be read. */
  ghost predicate OwesThisMonth(records: set<Key>, s: Step) {
    && PastGate(records, s) && ThisMonth(s) !in records
    && match s.env.billingDay { case Some(day) => day <= s.now.day case None => 1 <= s.now.day }
  }

  /** Generating the current month now is a catch-up. */
  ghost predicate IsLate(s: Step) {
    match s.env.billingDay { case Some(day) => day < s.now.day case None => 1 < s.now.day }
  }

  /** A run that returned, repaired everything it had to, and reached the record collection. */
  ghost predicate EndsRecorded(env: PeriodEnv) {
    && env.generate.GenReturned? && env.generate.counts.failedRepair == 0
    && (env.write == Acknowledged || env.write == DuplicateKey || env.write == WriteFailed(true))
  }

  lemma FieldsDecideDue(records: set<Key>, s: Step)
    ensures GateReads(records, s) <==> PastGate(records, s)
    ensures GateReads(records, s) && PriorIsDue(records, s) <==> OwesMonthBefore(records, s)
    ensures GateReads(records, s) && CurrentIsDue(records, s) <==> OwesThisMonth(records, s)
    ensures s.now.day > BillingDay(s.env) <==> IsLate(s)
    ensures LeavesRecord(s.env.prior) <==> EndsRecorded(s.env.prior)
    ensures LeavesRecord(s.env.current) <==> EndsRecorded(s.env.current)
  {
    hide PeriodOf;
  }

  lemma GenerationKeys(records: set<Key>, s: Step)
    ensures var g := Generations(records, s);
      && (forall c :: c in g ==> c.Generate? && (c.key == ThisMonth(s) || c.key == MonthBefore(s)))
      && (GateReads(records, s) && CurrentIsDue(records, s) ==> GenerateCall(s, Period(s)) in g)
      && (GateReads(records, s) && PriorIsDue(records, s) ==> GenerateCall(s, Prior(s)) in g)
      && (forall c :: c in g && c.key == ThisMonth(s) ==> GateReads(records, s) && CurrentIsDue(records, s))
      && (forall c :: c in g && c.key == MonthBefore(s) ==> GateReads(records, s) && PriorIsDue(records, s))
  {
    PeriodsDiffer(s);
    hide PeriodOf, GateReads, CurrentIsDue, PriorIsDue, EnvFor;
    var g := Generations(records, s);
    if GateReads(records, s) && CurrentIsDue(records, s) {
      assert g[|g| - 1] == GenerateCall(s, Period(s));
    }
    if GateReads(records, s) && PriorIsDue(records, s) {
      assert g[0] == GenerateCall(s, Prior(s));
    }
  }

  lemma CallKeys(s: Step)
    ensures GenerateCall(s, Period(s)).key == ThisMonth(s) && GenerateCall(s, Period(s)).Generate?
    ensures GenerateCall(s, Prior(s)).key == MonthBefore(s) && GenerateCall(s, Prior(s)).Generate?
  {
  }

  lemma SweepGeneratesNothing(records: set<Key>, s: Step, sends: bool)
    ensures forall c :: c in SweepCalls(records, s, sends) ==> !c.Generate?
  {
    hide PeriodOf, Ran, GateReads;
  }

  /** Exactly the owed periods are generated. */
  lemma StepGenerates(records: set<Key>, s: Step, sends: bool)
    ensures var calls := StepEffect(records, s, sends).calls;
      && ((exists c :: c in calls && c.Generate? && c.key == ThisMonth(s)) <==> OwesThisMonth(records, s))
      && ((exists c :: c in calls && c.Generate? && c.key == MonthBefore(s)) <==> OwesMonthBefore(records, s))
      && (forall c :: c in calls && c.Generate? ==> c.key == ThisMonth(s) || c.key == MonthBefore(s))
  {
    StepIsClosedForm(records, s, sends);
    FieldsDecideDue(records, s);
    GenerationKeys(records, s);
    SweepGeneratesNothing(records, s, sends);
    CallKeys(s);
    hide *;
    var (g, w) := (Generations(records, s), SweepCalls(records, s, sends));
    assert forall c :: c in g + w <==> c in g || c in w;
  }

  /** Exactly the owed periods whose run ends recorded are added. */
  lemma StepRecords(records: set<Key>, s: Step, sends: bool)
    ensures forall k :: k in StepEffect(records, s, sends).records <==>
      || k in records
      || (k == ThisMonth(s) && OwesThisMonth(records, s) && EndsRecorded(s.env.current))
      || (k == MonthBefore(s) && OwesMonthBefore(records, s) && EndsRecorded(s.env.prior))
  {
    StepIsClosedForm(records, s, sends);
    FieldsDecideDue(records, s);
    hide PeriodOf, GateReads, PriorIsDue, CurrentIsDue, PastGate, OwesMonthBefore, OwesThisMonth, IsLate, StepEffect, EndsRecorded, LeavesRecord;
  }

  // ----- what is counted -----

  /** One owed period's run: counted once it returned, as late or partial where it was. */
  function RunPart(owed: bool, env: PeriodEnv, late: bool): Totals {
    if owed && env.generate.GenReturned? then
      Totals(0, 1, if late then 1 else 0, if env.generate.counts.failedRepair != 0 then 1 else 0, env.generate.counts, 0, 0, 0, 0)
    else Totals(0, 0, 0, 0, ZERO_COUNTS, 0, 0, 0, 0)
  }

  /** One swept period's send. */
  function SendPart(swept: bool, env: PeriodEnv): Totals {
    if swept && env.send.Sent? then
      Totals(0, 0, 0, 0, ZERO_COUNTS, env.send.emailed, env.send.failed, env.send.skippedAutopay, env.send.autopayNotified)
    else Totals(0, 0, 0, 0, ZERO_COUNTS, 0, 0, 0, 0)
  }

  /** The academy is counted once when any of its runs returned. */
  function AcademyPart(ran: bool): Totals {
    Totals(if ran then 1 else 0, 0, 0, 0, ZERO_COUNTS, 0, 0, 0, 0)
  }

  lemma PeriodTotals(records: set<Key>, s: Step, d: Due)
    ensures PeriodEffect(records, s, d).totals == RunPart(true, EnvFor(s, d.period), d.catchUp)
  {
  }

  lemma DueLoopTotals(records: set<Key>, s: Step)
    ensures RunDue(records, s, DueOf(records, s)).totals
         == Plus(RunPart(PriorIsDue(records, s), s.env.prior, true), RunPart(CurrentIsDue(records, s), s.env.current, s.now.day > BillingDay(s.env)))
  {
    EnvOfPeriods(s);
    var (prior, current) := (Due(Prior(s), true), Due(Period(s), s.now.day > BillingDay(s.env)));
    hide Plus, PeriodOf, PeriodEffect, RunPart, BillingDay, PriorIsDue, CurrentIsDue, EnvFor;
    var due := DueOf(records, s);
    RunPartOfNone(s);
    if |due| == 2 {
      assert due == [prior, current] && due[..1] == [prior] && [prior][..0] == [];
      PeriodTotals(records, s, prior);
      PeriodTotals(RunDue(records, s, [prior]).records, s, current);
      PlusZero(RunPart(true, s.env.prior, true));
      assert RunDue(records, s, [prior]).totals == Plus(ZERO, RunPart(true, s.env.prior, true));
    } else if |due| == 1 {
      assert due[..0] == [];
      PeriodTotals(records, s, due[0]);
      PlusZero(RunPart(true, EnvFor(s, due[0].period), due[0].catchUp));
    } else {
      PlusZero(ZERO);
    }
  }

  lemma RunPartOfNone(s: Step)
    ensures forall env, late :: RunPart(false, env, late) == ZERO
  {
  }

  lemma SendPartIs(swept: bool, env: PeriodEnv)
    ensures SendPart(swept, env) == if swept then SendTotals(env.send) else ZERO
  {
  }

  lemma SweepTotals(records: set<Key>, s: Step, before: bool)
    ensures EmailAll(records, s, (if before then [Prior(s)] else []) + [Period(s)]).totals
         == Plus(SendPart(before, s.env.prior), SendPart(true, s.env.current))
  {
    EnvOfPeriods(s);
    SendPartIs(before, s.env.prior);
    SendPartIs(true, s.env.current);
    hide Plus, PeriodOf, SendTotals, EnvFor, SendPart;
    var (p, q) := (Prior(s), Period(s));
    assert [q][..0] == [] && [p][..0] == [] && [p, q][..1] == [p];
    PlusZero(SendTotals(s.env.prior.send));
    PlusZero(SendTotals(s.env.current.send));
    if before {
      assert [p] + [q] == [p, q];
      assert EmailAll(records, s, [p]).totals == Plus(ZERO, SendTotals(s.env.prior.send));
    } else {
      assert [] + [q] == [q];
    }
  }

  /**
   * A step's totals are the sums of what its runs and its sends report: the current month is swept on every step past
   * the gate, the month before when it ran just now.
   */
  lemma StepTotals(records: set<Key>, s: Step, sends: bool)
    ensures var (owesPrior, owesNow) := (OwesMonthBefore(records, s), OwesThisMonth(records, s));
      var ranPrior := owesPrior && s.env.prior.generate.GenReturned?;
      var ranNow := owesNow && s.env.current.generate.GenReturned?;
      var sweeps := sends && PastGate(records, s);
      StepEffect(records, s, sends).totals
      == Plus(Plus(Plus(RunPart(owesPrior, s.env.prior, true), RunPart(owesNow, s.env.current, IsLate(s))), AcademyPart(ranPrior || ranNow)),
              Plus(SendPart(sweeps && ranPrior, s.env.prior), SendPart(sweeps, s.env.current)))
  {
    FieldsDecideDue(records, s);
    hide *;
    if GateReads(records, s) {
      TotalsPastGate(records, s, sends);
    } else {
      TotalsAtGate(records, s, sends);
    }
  }

  lemma TotalsAtGate(records: set<Key>, s: Step, sends: bool)
    requires !GateReads(records, s)
    ensures StepEffect(records, s, sends).totals
         == Plus(Plus(Plus(RunPart(false, s.env.prior, true), RunPart(false, s.env.current, IsLate(s))), AcademyPart(false)),
                 Plus(SendPart(false, s.env.prior), SendPart(false, s.env.current)))
  {
    PlusZero(ZERO);
    hide PeriodOf, Plus, GateReads;
  }

  lemma TotalsPastGate(records: set<Key>, s: Step, sends: bool)
    requires GateReads(records, s)
    ensures var ranPrior := PriorIsDue(records, s) && s.env.prior.generate.GenReturned?;
      var ranNow := CurrentIsDue(records, s) && s.env.current.generate.GenReturned?;
      StepEffect(records, s, sends).totals
      == Plus(Plus(Plus(RunPart(PriorIsDue(records, s), s.env.prior, true),
                        RunPart(CurrentIsDue(records, s), s.env.current, s.now.day > BillingDay(s.env))), AcademyPart(ranPrior || ranNow)),
              Plus(SendPart(sends && ranPrior, s.env.prior), SendPart(sends, s.env.current)))
  {
    var run := RunDue(records, s, DueOf(records, s));
    NothingSwept(s);
    assert AcademyPart(true) == ZERO.(academyCount := 1) && AcademyPart(false) == ZERO;
    hide Plus, PeriodOf, RunDue, EmailAll, Swept, PriorIsDue, CurrentIsDue, BillingDay, SendPart, RunPart, AcademyPart, DueOf, GateReads;
    PlusZero(ZERO);
    DueLoopIsClosedForm(records, s, DueOf(records, s));
    DueLoopTotals(records, s);
    SweepIsOldestFirst(records, s);
    PeriodsDiffer(s);
    SweepTotals(run.records, s, Prior(s) in run.generated);
    PlusZero(Plus(run.totals, AcademyPart(run.generated != [])));
  }

  lemma NothingSwept(s: Step)
    ensures forall env :: SendPart(false, env) == ZERO
  {
  }

  lemma CatchUpSum(a: Totals, b: Totals, c: Totals, d: Totals, e: Totals)
    ensures Plus(Plus(Plus(a, b), c), Plus(d, e)).catchUpRunCount
         == a.catchUpRunCount + b.catchUpRunCount + c.catchUpRunCount + d.catchUpRunCount + e.catchUpRunCount
  {
    hide PlusCounts;
  }

  /** A catch-up is counted for the month before, and for the current month after its billing day. */
  lemma StepCatchUps(records: set<Key>, s: Step, sends: bool)
    ensures StepEffect(records, s, sends).totals.catchUpRunCount
         == (if OwesMonthBefore(records, s) && s.env.prior.generate.GenReturned? then 1 else 0)
            + (if OwesThisMonth(records, s) && IsLate(s) && s.env.current.generate.GenReturned? then 1 else 0)
  {
    var (owesPrior, owesNow) := (OwesMonthBefore(records, s), OwesThisMonth(records, s));
    var ran := (owesPrior && s.env.prior.generate.GenReturned?) || (owesNow && s.env.current.generate.GenReturned?);
    var sweeps := sends && PastGate(records, s);
    StepTotals(records, s, sends);
    hide OwesMonthBefore, OwesThisMonth, IsLate, PastGate, StepEffect, Plus;
    CatchUpSum(RunPart(owesPrior, s.env.prior, true), RunPart(owesNow, s.env.current, IsLate(s)), AcademyPart(ran),
               SendPart(sweeps && owesPrior && s.env.prior.generate.GenReturned?, s.env.prior), SendPart(sweeps, s.env.current));
  }

  /**
   * The academy's own billing day decides. Past the gate with the current month unrecorded, a day that is set generates
   * the month from that day on and counts it as a catch-up after it; without one, the first of the month does.
   */
  lemma BillingDayDecides(records: set<Key>, s: Step, sends: bool)
    requires s.env.priorReadOk && s.env.historyReadOk && s.env.currentReadOk
    requires Key(s.academy, PeriodOf(s.now.month)) !in records && Key(s.academy, PeriodOf(s.now.month - 1)) in records
    ensures var e := StepEffect(records, s, sends);
      var generated := exists c :: c in e.calls && c.Generate? && c.key == Key(s.academy, PeriodOf(s.now.month));
      var late := e.totals.catchUpRunCount == 1;
      var returned := s.env.current.generate.GenReturned?;
      match s.env.billingDay
      case Some(day) => (generated <==> s.now.day >= day) && (late <==> s.now.day > day && returned)
      case None => (generated <==> s.now.day >= 1) && (late <==> s.now.day > 1 && returned)
  {
    StepGenerates(records, s, sends);
    StepCatchUps(records, s, sends);
    hide StepEffect, PeriodOf;
  }
}
