/**
 * Which months a run records: how far back it can reach, and that no month is lost inside its retry window.
 */
module SchedulerMonths {
  import opened Periods
  import opened Scheduler
  import opened SchedulerSteps
  import opened SchedulerFields
  import opened SchedulerRuns

  predicate Recorded(records: set<Key>, academy: string, m: int) {
    FourDigitYear(m) && Key(academy, PeriodOf(m)) in records
  }

  predicate Generated(calls: seq<Call>, academy: string, m: int) {
    FourDigitYear(m) && exists c :: c in calls && c.Generate? && c.key == Key(academy, PeriodOf(m))
  }

  /** The clock of one academy never runs backwards; the other academies' clocks are unconstrained. */
  ghost predicate OwnClockRuns(steps: seq<Step>, academy: string) {
    forall i, j :: 0 <= i < j < |steps| && steps[i].academy == steps[j].academy == academy
      ==> steps[i].now.month <= steps[j].now.month
  }

  /** Step `i` leaves the first record the academy ever has. */
  ghost predicate FirstRecordedAt(records: set<Key>, steps: seq<Step>, academy: string, i: nat) {
    && i < |steps|
    && !HasHistory(RecordsAfter(records, steps[..i]), academy)
    && HasHistory(RecordsAfter(records, steps[..i + 1]), academy)
  }

  /** What a step can add, by month. */
  lemma AddedByMonth(records: set<Key>, s: Step, k: Key)
    requires k in Added(records, s)
    ensures k.academy == s.academy
    ensures || (k.period == Period(s) && CurrentIsDue(records, s) && LeavesRecord(s.env.current))
            || (k.period == Prior(s) && PriorIsDue(records, s) && LeavesRecord(s.env.prior))
    ensures GateReads(records, s)
  {
    hide PeriodOf, LeavesRecord;
  }

  /** Exactly which months a step records. */
  lemma RecordedByMonth(records: set<Key>, s: Step, academy: string, m: int)
    requires FourDigitYear(m)
    ensures Key(academy, PeriodOf(m)) in Added(records, s) <==>
      && academy == s.academy && GateReads(records, s)
      && ((m == s.now.month && CurrentIsDue(records, s) && LeavesRecord(s.env.current))
          || (m == s.now.month - 1 && PriorIsDue(records, s) && LeavesRecord(s.env.prior)))
  {
    if PeriodOf(m) == Period(s) { PeriodInjective(m, s.now.month); }
    if PeriodOf(m) == Prior(s) { PeriodInjective(m, s.now.month - 1); }
    hide PeriodOf, CurrentIsDue, PriorIsDue, GateReads, LeavesRecord;
  }

  /** What a step calls `generate` for, by month. */
  lemma GeneratedByMonth(records: set<Key>, s: Step, academy: string, m: int)
    requires FourDigitYear(m)
    ensures Generated(Generations(records, s), academy, m) <==>
      && academy == s.academy && GateReads(records, s)
      && ((m == s.now.month && CurrentIsDue(records, s)) || (m == s.now.month - 1 && PriorIsDue(records, s)))
  {
    EnvOfPeriods(s);
    CallOutcome(s, Prior(s));
    CallOutcome(s, Period(s));
    if PeriodOf(m) == Period(s) { PeriodInjective(m, s.now.month); }
    if PeriodOf(m) == Prior(s) { PeriodInjective(m, s.now.month - 1); }
    hide PeriodOf, GenerateCall, CurrentIsDue, PriorIsDue, GateReads;
    var g := Generations(records, s);
    if GateReads(records, s) && CurrentIsDue(records, s) {
      assert g[|g| - 1] == GenerateCall(s, Period(s));
    }
    if GateReads(records, s) && PriorIsDue(records, s) {
      assert g[0] == GenerateCall(s, Prior(s));
    }
  }

  /** `RecordsAfter` unrolled at a prefix. */
  lemma PrefixStep(records: set<Key>, steps: seq<Step>, j: nat)
    requires j < |steps|
    ensures var before := RecordsAfter(records, steps[..j]);
      RecordsAfter(records, steps[..j + 1]) == before + Added(before, steps[j])
  {
    assert steps[..j + 1][..j] == steps[..j];
  }

  /**
   * The academy's first record is made by a tick that finds none, and is the tick's own month: nothing else is
   * recorded for it then.
   */
  lemma FirstRecordIsOwnMonth(records: set<Key>, steps: seq<Step>, academy: string, i: nat)
    requires FirstRecordedAt(records, steps, academy, i)
    ensures steps[i].academy == academy
    ensures forall k :: k in RecordsAfter(records, steps[..i + 1]) && k.academy == academy ==> k.period == Period(steps[i])
    ensures Recorded(RecordsAfter(records, steps[..i + 1]), academy, steps[i].now.month)
  {
    hide PeriodOf, Added;
    PrefixStep(records, steps, i);
    var before := RecordsAfter(records, steps[..i]);
    forall k | k in RecordsAfter(records, steps[..i + 1]) && k.academy == academy
      ensures steps[i].academy == academy && k.period == Period(steps[i])
    {
      AddedByMonth(before, steps[i], k);
    }
  }

  /** A tick that finds no record for its academy generates at most the current month. */
  lemma NoHistoryNoCatchUp(records: set<Key>, s: Step, m: int)
    requires !HasHistory(records, s.academy)
    requires Generated(Generations(records, s), s.academy, m)
    ensures m == s.now.month
  {
    GeneratedByMonth(records, s, s.academy, m);
  }

  /** Every record of the academy is of a month no earlier than one before `first`. */
  ghost predicate NoneBefore(records: set<Key>, academy: string, first: int) {
    forall k :: k in records && k.academy == academy ==>
      exists m :: first - 1 <= m && FourDigitYear(m) && k.period == PeriodOf(m)
  }

  /** Bounded reach-back: no recorded month is ever more than one month before the first recorded one. */
  lemma {:induction false} ReachBackIsOneMonth(records: set<Key>, steps: seq<Step>, academy: string, i: nat, n: nat)
    requires FirstRecordedAt(records, steps, academy, i)
    requires OwnClockRuns(steps, academy)
    requires i < n <= |steps|
    ensures NoneBefore(RecordsAfter(records, steps[..n]), academy, steps[i].now.month)
    decreases n
  {
    hide PeriodOf, Added;
    FirstRecordIsOwnMonth(records, steps, academy, i);
    if n > i + 1 {
      var s := steps[n - 1];
      ReachBackIsOneMonth(records, steps, academy, i, n - 1);
      PrefixStep(records, steps, n - 1);
      var before := RecordsAfter(records, steps[..n - 1]);
      forall k | k in Added(before, s) && k.academy == academy
        ensures exists m :: steps[i].now.month - 1 <= m && FourDigitYear(m) && k.period == PeriodOf(m)
      {
        AddedByMonth(before, s, k);
        if k.period == Period(s) {
          assert k.period == PeriodOf(s.now.month);
        } else {
          assert k.period == PeriodOf(s.now.month - 1);
        }
      }
    }
  }

  /**
   * The history test at work in one tick. `first` is the earliest recorded month. The tick generates the month
   * before it exactly when the gate reads succeed and the tick still runs in month `first`.
   */
  lemma TickReachesBackIff(records: set<Key>, s: Step, first: int)
    requires FourDigitYear(first - 1) && FourDigitYear(first) && first <= s.now.month
    requires Recorded(records, s.academy, first) && !Recorded(records, s.academy, first - 1)
    ensures Generated(Generations(records, s), s.academy, first - 1) <==> PastGate(records, s) && s.now.month == first
  {
    FieldsDecideDue(records, s);
    hide PeriodOf;
    assert HasHistory(records, s.academy) by {
      assert Key(s.academy, PeriodOf(first)) in records && Key(s.academy, PeriodOf(first)).academy == s.academy;
    }
    GeneratedByMonth(records, s, s.academy, first - 1);
  }

  ghost predicate BillsBeforeFirst(records: set<Key>, steps: seq<Step>, academy: string, i: nat) {
    i < |steps| &&
    exists j :: i < j < |steps| && Generated(GenerationsAt(records, steps, j), academy, steps[i].now.month - 1)
  }

  /** A later tick of the academy, still in the month of step `i`, whose gate reads succeed. */
  ghost predicate SecondTickInMonth(records: set<Key>, steps: seq<Step>, academy: string, i: nat) {
    i < |steps| &&
    exists j :: i < j < |steps| && steps[j].academy == academy && steps[j].now.month == steps[i].now.month
                && PastGate(RecordsAfter(records, steps[..j]), steps[j])
  }

  /** A record that appears between two prefixes was generated by a step in between. */
  lemma {:induction false} RecordWasGenerated(records: set<Key>, steps: seq<Step>, academy: string, m: int, i: nat, n: nat)
    returns (j: nat)
    requires i <= n <= |steps|
    requires !Recorded(RecordsAfter(records, steps[..i]), academy, m) && Recorded(RecordsAfter(records, steps[..n]), academy, m)
    ensures i <= j < n && steps[j].academy == academy && Generated(GenerationsAt(records, steps, j), academy, m)
    ensures Key(academy, PeriodOf(m)) in Added(RecordsAfter(records, steps[..j]), steps[j])
    decreases n
  {
    hide PeriodOf, Added, Generations;
    assert i < n;
    PrefixStep(records, steps, n - 1);
    if Recorded(RecordsAfter(records, steps[..n - 1]), academy, m) {
      j := RecordWasGenerated(records, steps, academy, m, i, n - 1);
    } else {
      j := n - 1;
      var before, s := RecordsAfter(records, steps[..j]), steps[j];
      RecordedByMonth(before, s, academy, m);
      GeneratedByMonth(before, s, academy, m);
    }
  }

  /**
   * "Never bill before the first month" is false of the history test, which also counts the current month's own
   * record. Over a whole run the month before the first recorded one is generated exactly when some later tick
   * of the academy gets past its gate in the first recorded month.
   */
  lemma BillsBeforeFirstIff(records: set<Key>, steps: seq<Step>, academy: string, i: nat)
    requires FirstRecordedAt(records, steps, academy, i)
    requires OwnClockRuns(steps, academy)
    ensures BillsBeforeFirst(records, steps, academy, i) <==> SecondTickInMonth(records, steps, academy, i)
  {
    var first: int := steps[i].now.month;
    FirstRecordIsOwnMonth(records, steps, academy, i);
    if BillsBeforeFirst(records, steps, academy, i) {
      var j :| i < j < |steps| && Generated(GenerationsAt(records, steps, j), academy, first - 1);
      hide PeriodOf, Added, Generations, GateReads, PastGate, RecordsAfter;
      GeneratedByMonth(RecordsAfter(records, steps[..j]), steps[j], academy, first - 1);
      FieldsDecideDue(RecordsAfter(records, steps[..j]), steps[j]);
    }
    if SecondTickInMonth(records, steps, academy, i) {
      var j :| i < j < |steps| && steps[j].academy == academy && steps[j].now.month == first
               && PastGate(RecordsAfter(records, steps[..j]), steps[j]);
      SecondTickBillsBeforeFirst(records, steps, academy, i, j);
    }
  }

  lemma SecondTickBillsBeforeFirst(records: set<Key>, steps: seq<Step>, academy: string, i: nat, j: nat)
    requires FirstRecordedAt(records, steps, academy, i)
    requires i < j < |steps| && steps[j].academy == academy && steps[j].now.month == steps[i].now.month
    requires PastGate(RecordsAfter(records, steps[..j]), steps[j])
    ensures BillsBeforeFirst(records, steps, academy, i)
  {
    hide PeriodOf, Added, Generations, PastGate, RecordsAfter;
    var first: int := steps[i].now.month;
    var at := RecordsAfter(records, steps[..j]);
    FirstRecordIsOwnMonth(records, steps, academy, i);
    RecordsOnlyGrow(records, steps, i + 1, j);
    if Recorded(at, academy, first - 1) {
      assert !Recorded(RecordsAfter(records, steps[..i + 1]), academy, first - 1) by {
        if PeriodOf(first - 1) == PeriodOf(first) { PeriodInjective(first - 1, first); }
      }
      var g := RecordWasGenerated(records, steps, academy, first - 1, i + 1, j);
    } else {
      TickReachesBackIff(at, steps[j], first);
      assert Generated(GenerationsAt(records, steps, j), academy, first - 1);
    }
  }

  /** The reach-back bound is attained, in every month: two healthy ticks in an academy's first month record both months. */
  lemma TwoTicksReachBack(academy: string, month: Month, day: int, env: AcademyEnv)
    requires env.priorReadOk && env.historyReadOk && env.currentReadOk
    requires EndsRecorded(env.prior) && EndsRecorded(env.current) && day >= if env.billingDay.Some? then env.billingDay.value else 1
    ensures var one, two := Step(academy, Clock(month, day), env), Step(academy, Clock(month, day + 1), env);
      && RecordsAfter({}, [one]) == {Key(academy, PeriodOf(month))}
      && RecordsAfter({}, [one, two]) == {Key(academy, PeriodOf(month)), Key(academy, PeriodOf(month - 1))}
  {
    hide PeriodOf;
    var one, two := Step(academy, Clock(month, day), env), Step(academy, Clock(month, day + 1), env);
    assert [one][..0] == [] && [one, two][..1] == [one];
    PeriodsDiffer(one);
    var k := Key(academy, Period(one));
    assert Added({}, one) == {k};
    assert k in {k} && k.academy == academy;
    assert Added({k}, two) == {Key(academy, Prior(two))};
  }

  // ----- no lost month -----

  /** A tick that serves month `m`: on or after billing day in `m`, or any day of the month after, and clean for `m`. */
  ghost predicate HealthyFor(records: set<Key>, s: Step, m: int) {
    && PastGate(records, s)
    && ((s.now.month == m && s.now.day >= (if s.env.billingDay.Some? then s.env.billingDay.value else 1) && EndsRecorded(s.env.current))
        || (s.now.month == m + 1 && EndsRecorded(s.env.prior)))
  }

  ghost predicate ServedHealthily(records: set<Key>, steps: seq<Step>, academy: string, m: int) {
    exists j :: 0 <= j < |steps| && steps[j].academy == academy && HealthyFor(RecordsAfter(records, steps[..j]), steps[j], m)
  }

  /** One healthy tick records its month, whatever happens to the other due period. */
  lemma HealthyTickRecords(records: set<Key>, s: Step, m: int)
    requires FourDigitYear(m) && HealthyFor(records, s, m)
    requires s.now.month == m + 1 ==> HasHistory(records, s.academy)
    ensures Recorded(records + Added(records, s), s.academy, m)
  {
    FieldsDecideDue(records, s);
    hide PeriodOf, LeavesRecord, GateReads, EndsRecorded, PastGate;
  }

  /**
   * No lost month. For every month after the academy's first recorded one, in any run: the month ends up
   * recorded if and only if some tick inside its retry window serves it healthily.
   */
  lemma NoLostMonth(records: set<Key>, steps: seq<Step>, academy: string, i: nat, m: int)
    requires FirstRecordedAt(records, steps, academy, i)
    requires OwnClockRuns(steps, academy)
    requires FourDigitYear(m) && m > steps[i].now.month
    ensures Recorded(RecordsAfter(records, steps), academy, m) <==> ServedHealthily(records, steps, academy, m)
  {
    if ServedHealthily(records, steps, academy, m) {
      HealthyServiceRecords(records, steps, academy, i, m);
    }
    if Recorded(RecordsAfter(records, steps), academy, m) {
      RecordedMeansHealthyService(records, steps, academy, i, m);
    }
  }

  lemma HealthyServiceRecords(records: set<Key>, steps: seq<Step>, academy: string, i: nat, m: int)
    requires FirstRecordedAt(records, steps, academy, i)
    requires OwnClockRuns(steps, academy)
    requires FourDigitYear(m) && m > steps[i].now.month
    requires ServedHealthily(records, steps, academy, m)
    ensures Recorded(RecordsAfter(records, steps), academy, m)
  {
    hide PeriodOf, Added, PastGate, EndsRecorded, RecordsAfter, Recorded, HasHistory;
    FirstRecordIsOwnMonth(records, steps, academy, i);
    var j :| 0 <= j < |steps| && steps[j].academy == academy && HealthyFor(RecordsAfter(records, steps[..j]), steps[j], m);
    assert j > i;
    hide HealthyFor, OwnClockRuns;
    HistoryStays(records, steps, academy, i, j);
    HealthyTickRecords(RecordsAfter(records, steps[..j]), steps[j], m);
    RecordStays(records, steps, academy, j, m);
  }

  lemma HistoryStays(records: set<Key>, steps: seq<Step>, academy: string, i: nat, j: nat)
    requires FirstRecordedAt(records, steps, academy, i) && i < j <= |steps|
    ensures HasHistory(RecordsAfter(records, steps[..j]), academy)
  {
    hide RecordsAfter;
    RecordsOnlyGrow(records, steps, i + 1, j);
  }

  lemma RecordStays(records: set<Key>, steps: seq<Step>, academy: string, j: nat, m: int)
    requires j < |steps|
    requires var before := RecordsAfter(records, steps[..j]); Recorded(before + Added(before, steps[j]), academy, m)
    ensures Recorded(RecordsAfter(records, steps), academy, m)
  {
    PrefixStep(records, steps, j);
    RecordsOnlyGrow(records, steps, j + 1, |steps|);
    hide RecordsAfter, Added, PeriodOf;
    assert steps[..|steps|] == steps;
  }

  lemma RecordedMeansHealthyService(records: set<Key>, steps: seq<Step>, academy: string, i: nat, m: int)
    requires FirstRecordedAt(records, steps, academy, i)
    requires FourDigitYear(m) && m > steps[i].now.month
    requires Recorded(RecordsAfter(records, steps), academy, m)
    ensures ServedHealthily(records, steps, academy, m)
  {
    hide PeriodOf, Added, LeavesRecord, GateReads, RecordsAfter;
    assert steps[..|steps|] == steps;
    NotYetRecorded(records, steps, academy, i, m);
    var j := RecordWasGenerated(records, steps, academy, m, i + 1, |steps|);
    RecordedByMonth(RecordsAfter(records, steps[..j]), steps[j], academy, m);
    FieldsDecideDue(RecordsAfter(records, steps[..j]), steps[j]);
    hide EndsRecorded, PastGate, IsLate, OwesThisMonth, OwesMonthBefore;
    assert HealthyFor(RecordsAfter(records, steps[..j]), steps[j], m);
  }

  lemma NotYetRecorded(records: set<Key>, steps: seq<Step>, academy: string, i: nat, m: int)
    requires FirstRecordedAt(records, steps, academy, i)
    requires FourDigitYear(m) && m > steps[i].now.month
    ensures !Recorded(RecordsAfter(records, steps[..i + 1]), academy, m)
  {
    hide PeriodOf, Added;
    FirstRecordIsOwnMonth(records, steps, academy, i);
    if PeriodOf(m) == Period(steps[i]) { PeriodInjective(m, steps[i].now.month); }
  }

  /** A closed month stays closed: once `m + 1` is over, no later tick of the academy generates `m`. */
  lemma ClosedMonthIsNeverGenerated(records: set<Key>, steps: seq<Step>, academy: string, m: int, i: nat, j: nat)
    requires OwnClockRuns(steps, academy)
    requires i <= j < |steps| && steps[i].academy == academy && steps[i].now.month > m + 1
    ensures !Generated(GenerationsAt(records, steps, j), academy, m)
  {
    hide PeriodOf, Generations;
    if FourDigitYear(m) {
      GeneratedByMonth(RecordsAfter(records, steps[..j]), steps[j], academy, m);
    }
  }
}
