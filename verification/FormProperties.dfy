/** An untouched billing rules form is silent, and saving one converges. */
module FormProperties {
  import opened Wrappers
  import opened Decimal
  import opened Text
  import opened Money
  import opened DayLists
  import opened BillingRulesForm

  /** Editable rows have distinct keys, and none is called like one of the two ACH inputs. */
  ghost predicate DistinctKeys(rows: seq<RuleRow>) {
    && (forall i, j :: 0 <= i < j < |rows| ==> rows[i].key != rows[j].key)
    && (forall i :: 0 <= i < |rows| ==> rows[i].key != ACH_ENABLED_FIELD && rows[i].key != ACH_PERCENT_FIELD)
  }

  // ----- one untouched row -----

  /** The stored value survives being printed and read back. */
  predicate RoundTrips(row: RuleRow) {
    if row.key == ACH_KEY then PercentOf(row) >= 0
    else if row.values.Some? then Increasing(row.values.value) && NonNegative(row.values.value)
    else row.isChoice || row.value.None? || !row.cents || row.value.value >= 0
  }

  lemma IntRoundTrip(n: int)
    ensures Trim(PrintInt(n)) == PrintInt(n) != "" && ParseInt(PrintInt(n)) == Some(n)
  {
    PrintIntIsUntrimmed(n);
    TrimKeepsUnspaced(PrintInt(n));
    hide Trim, Value, Print;
    if n < 0 {
      ValueOfPrint(-n);
      assert PrintInt(n)[1..] == Print(-n);
    } else {
      ValueOfPrint(n);
      assert IsDigit(Print(n)[0]);
    }
  }

  lemma PercentTextRoundTrip(p: int)
    requires p != 0
    ensures Trim(PrintShort(p)) == PrintShort(p) != ""
    ensures ParseHundredths(PrintShort(p)) == if p > 0 then Some(p as nat) else None
  {
    hide ParseHundredths, PrintShortNat, Trim;
    if p > 0 {
      ShortRoundTrip(p);
      PlainIsUntrimmed(PrintShortNat(p));
    } else {
      ShortRoundTrip(-p);
      NegativeIsRefused(PrintShortNat(-p));
    }
  }

  predicate Carries(form: Form, row: RuleRow) {
    forall k :: k in RowFields(row) ==> k in form && form[k] == RowFields(row)[k]
  }

  lemma AchFields(row: RuleRow, form: Form)
    requires row.key == ACH_KEY && Carries(form, row)
    ensures FieldOr(form, ACH_ENABLED_FIELD, BoolText(row.enabled)) == BoolText(row.enabled)
    ensures Get(form, ACH_PERCENT_FIELD) == PercentText(row)
  {
    hide BoolText, PercentText;
    var fields := RowFields(row);
    assert ACH_ENABLED_FIELD[13] != ACH_PERCENT_FIELD[13];
    assert ACH_ENABLED_FIELD in fields && ACH_PERCENT_FIELD in fields;
  }

  lemma UntouchedAchRow(row: RuleRow, form: Form)
    requires row.key == ACH_KEY && Carries(form, row)
    ensures AchVerdict(row, form) == Silent <==> PercentOf(row) >= 0
  {
    AchFields(row, form);
    assert BoolText(true) == "true" && BoolText(false) != "true";
    hide ParseHundredths, PrintShort, Carries, RowFields;
    if PercentOf(row) != 0 {
      PercentTextRoundTrip(PercentOf(row));
    } else {
      TrimKeepsUnspaced("");
    }
  }

  lemma UntouchedNumberRow(row: RuleRow)
    requires row.values.None? && !row.isChoice
    ensures NumberVerdict(row, RowToInput(row)) == Silent <==> row.value.None? || !row.cents || row.value.value >= 0
  {
    hide Trim, PrintFixed, PrintInt, ParseInt, ParseDollarsToCents;
    TrimKeepsUnspaced("");
    if row.value.Some? && row.cents {
      CentsRoundTrip(row.value.value);
    } else if row.value.Some? {
      IntRoundTrip(row.value.value);
    }
  }

  lemma UntouchedListRow(row: RuleRow)
    requires row.values.Some?
    ensures ListVerdict(row, Join(row.values.value)) == Silent <==>
      Increasing(row.values.value) && NonNegative(row.values.value)
  {
    DayListRoundTripIff(row.values.value);
    hide DaysOf, Join, Increasing, NonNegative, AllWithinBounds;
  }

  /** A row whose inputs show what is stored is silent exactly when its stored value survives the round trip. */
  lemma UntouchedRow(row: RuleRow, form: Form)
    requires Carries(form, row)
    ensures RowVerdict(row, form) == Silent <==> RoundTrips(row)
  {
    hide AchVerdict, ListVerdict, NumberVerdict, Join, Trim, PercentOf;
    if row.key == ACH_KEY {
      UntouchedAchRow(row, form);
    } else {
      assert row.key in RowFields(row);
      if row.values.Some? {
        UntouchedListRow(row);
      } else if !row.isChoice {
        UntouchedNumberRow(row);
      }
    }
  }

  // ----- the whole form -----

  lemma FieldsAreDisjoint(a: RuleRow, b: RuleRow)
    requires DistinctKeys([a, b])
    ensures RowFields(a).Keys !! RowFields(b).Keys
  {
    hide RowToInput, PercentText, BoolText;
    assert [a, b][0] == a && [a, b][1] == b;
  }

  lemma {:induction false} FormCarriesRows(rows: seq<RuleRow>)
    requires DistinctKeys(rows)
    ensures forall i :: 0 <= i < |rows| ==> Carries(FormOf(rows), rows[i])
  {
    hide RowFields;
    if rows != [] {
      var n := |rows| - 1;
      FormCarriesRows(rows[..n]);
      forall i | 0 <= i < n
        ensures Carries(FormOf(rows), rows[i])
      {
        assert Carries(FormOf(rows[..n]), rows[..n][i]);
        assert [rows[i], rows[n]][0] == rows[i] && [rows[i], rows[n]][1] == rows[n];
        FieldsAreDisjoint(rows[i], rows[n]);
      }
    }
  }

  ghost predicate IsSilent(d: Diff) {
    d.changed == [] && d.payload == map[] && d.errors == {}
  }

  lemma {:induction false} SilentIff(rows: seq<RuleRow>, form: Form)
    ensures IsSilent(DiffRows(rows, form)) <==> forall i :: 0 <= i < |rows| ==> RowVerdict(rows[i], form) == Silent
  {
    hide RowVerdict;
    if rows != [] {
      var n := |rows| - 1;
      SilentIff(rows[..n], form);
      var before := DiffRows(rows[..n], form);
      match RowVerdict(rows[n], form)
      case Silent =>
      case Invalid =>
        assert rows[n].key in DiffRows(rows, form).errors;
      case Changed(c) =>
        assert |DiffRows(rows, form).changed| > 0;
    }
  }

  /**
   * An untouched form is silent, even where stored values are out of bounds, exactly when every editable row's
   * stored value survives printing and parsing: cents and percents not negative, day lists strictly increasing.
   */
  lemma UntouchedFormSilentIff(view: View)
    requires DistinctKeys(EditableRows(view))
    ensures IsSilent(DiffOf(view, ToForm(view))) <==>
      var rows := EditableRows(view);
      forall i :: 0 <= i < |rows| ==> RoundTrips(rows[i])
  {
    hide RowVerdict, RoundTrips, Carries, FormOf, DiffRows;
    var rows := EditableRows(view);
    var form := ToForm(view);
    FormCarriesRows(rows);
    SilentIff(rows, form);
    forall i | 0 <= i < |rows|
      ensures RowVerdict(rows[i], form) == Silent <==> RoundTrips(rows[i])
    {
      UntouchedRow(rows[i], form);
    }
  }

  // ----- saving -----

  /** The stored row after the server took one change. */
  function Updated(row: RuleRow, change: Change): RuleRow {
    match change
    case NumberChange(n) => row.(value := Some(n))
    case DaysChange(days) => row.(values := Some(days))
    case ChoiceChange(choice) => row.(choice := Some(choice))
    case AchChange(enabled, percent) =>
      row.(enabled := if enabled.Some? then enabled.value else row.enabled,
           percent := if percent.Some? then percent else row.percent)
  }

  function SavedRow(row: RuleRow, payload: map<string, Change>): RuleRow {
    if row.editable && row.key in payload then Updated(row, payload[row.key]) else row
  }

  function SavedView(view: View, payload: map<string, Change>): (saved: View)
    ensures |saved| == |view| && forall i :: 0 <= i < |view| ==> saved[i] == SavedRow(view[i], payload)
  {
    seq(|view|, i requires 0 <= i < |view| => SavedRow(view[i], payload))
  }

  /** A row that was sent is silent for the same form once it is stored. */
  lemma SentRowBecomesSilent(row: RuleRow, form: Form)
    requires RowVerdict(row, form).Changed?
    ensures RowVerdict(Updated(row, RowVerdict(row, form).change), form) == Silent
  {
    if row.key == ACH_KEY {
      SentAchBecomesSilent(row, form);
    } else if row.values.Some? {
      SentDaysBecomeSilent(row, Get(form, row.key));
    } else if !row.isChoice {
      SentNumberBecomesSilent(row, Get(form, row.key));
    } else {
      SentChoiceBecomesSilent(row, Get(form, row.key));
    }
    hide AchVerdict, ListVerdict, ChoiceVerdict, NumberVerdict, Get;
  }

  lemma SentChoiceBecomesSilent(row: RuleRow, raw: string)
    requires ChoiceVerdict(row, raw).Changed?
    ensures ChoiceVerdict(Updated(row, ChoiceVerdict(row, raw).change), raw) == Silent
  {
    hide Trim;
  }

  lemma SentAchBecomesSilent(row: RuleRow, form: Form)
    requires AchVerdict(row, form).Changed?
    ensures AchVerdict(Updated(row, AchVerdict(row, form).change), form) == Silent
  {
    hide Trim, ParseHundredths, Get;
  }

  lemma SentDaysBecomeSilent(row: RuleRow, raw: string)
    requires row.values.Some? && ListVerdict(row, raw).Changed?
    ensures ListVerdict(Updated(row, ListVerdict(row, raw).change), raw) == Silent
  {
    hide DaysOf;
  }

  lemma SentNumberBecomesSilent(row: RuleRow, raw: string)
    requires NumberVerdict(row, raw).Changed?
    ensures NumberVerdict(Updated(row, NumberVerdict(row, raw).change), raw) == Silent
  {
    hide Trim, ParseDollarsToCents, ParseInt;
  }

  /** Whatever is sent is legal: numbers and days within bounds, and an enabled ACH discount has a percent in range. */
  ghost predicate IsLegal(row: RuleRow, change: Change) {
    var after := Updated(row, change);
    && (change.NumberChange? ==> WithinBounds(row, change.number))
    && (change.DaysChange? ==> AllWithinBounds(row, change.days) && Increasing(change.days))
    && (change.AchChange? ==> (after.enabled ==> PercentAllowed(row, PercentOf(after)))
                              && (change.percent.Some? ==> PercentAllowed(row, change.percent.value)))
  }

  lemma SentChangeIsLegal(row: RuleRow, form: Form)
    requires RowVerdict(row, form).Changed?
    ensures IsLegal(row, RowVerdict(row, form).change)
  {
    hide DaysOf, Trim, ParseHundredths, ParseDollarsToCents, ParseInt, Increasing;
    if row.key != ACH_KEY && row.values.Some? {
      AcceptedDaysAreIncreasing(Get(form, row.key));
    }
  }

  /** The diff row by row: what is sent, what is an error, and that nothing else is. */
  ghost predicate Explained(d: Diff, rows: seq<RuleRow>, form: Form) {
    && (forall k :: k in d.changed <==> k in d.payload)
    && (forall k :: k in d.payload ==> k !in d.errors)
    && (forall i :: 0 <= i < |rows| ==> RowExplained(d, rows[i], form))
    && (forall k :: k in d.payload || k in d.errors ==> exists i :: 0 <= i < |rows| && rows[i].key == k)
  }

  ghost predicate RowExplained(d: Diff, row: RuleRow, form: Form) {
    match RowVerdict(row, form)
    case Silent => row.key !in d.payload && row.key !in d.errors
    case Invalid => row.key in d.errors && row.key !in d.payload
    case Changed(c) => row.key in d.payload && d.payload[row.key] == c
  }

  lemma {:induction false} DiffIsExplained(rows: seq<RuleRow>, form: Form)
    requires forall i, j :: 0 <= i < j < |rows| ==> rows[i].key != rows[j].key
    ensures Explained(DiffRows(rows, form), rows, form)
  {
    hide RowVerdict;
    if rows != [] {
      var n := |rows| - 1;
      DiffIsExplained(rows[..n], form);
      ExplainedExtends(DiffRows(rows[..n], form), rows, form);
    }
  }

  lemma ExplainedExtends(d: Diff, rows: seq<RuleRow>, form: Form)
    requires rows != [] && Explained(d, rows[..|rows| - 1], form)
    requires forall i, j :: 0 <= i < j < |rows| ==> rows[i].key != rows[j].key
    ensures Explained(AddVerdict(d, rows[|rows| - 1], RowVerdict(rows[|rows| - 1], form)), rows, form)
  {
    hide RowVerdict, RowExplained, AddVerdict;
    var (n, last) := (|rows| - 1, rows[|rows| - 1]);
    var (before, after) := (rows[..n], AddVerdict(d, last, RowVerdict(last, form)));
    AddVerdictTouchesOne(d, last, RowVerdict(last, form));
    assert forall i :: 0 <= i < n ==> before[i] == rows[i] && rows[i].key != last.key;
    forall i | 0 <= i < |rows|
      ensures RowExplained(after, rows[i], form)
    {
      if i < n {
        assert RowExplained(d, before[i], form);
        OtherRowStaysExplained(d, after, rows[i], form);
      } else {
        NewRowIsExplained(d, last, form);
      }
    }
    forall k | k in after.payload || k in after.errors
      ensures exists i :: 0 <= i < |rows| && rows[i].key == k
    {
      if k != last.key {
        var i :| 0 <= i < |before| && before[i].key == k;
        assert rows[i].key == k;
      }
    }
  }

  lemma AddVerdictTouchesOne(d: Diff, row: RuleRow, v: Verdict)
    requires row.key !in d.payload && row.key !in d.errors
    requires (forall k :: k in d.changed <==> k in d.payload) && forall k :: k in d.payload ==> k !in d.errors
    ensures var after := AddVerdict(d, row, v);
      && (forall k :: k != row.key ==> (k in after.payload <==> k in d.payload) && (k in after.errors <==> k in d.errors))
      && (forall k :: k != row.key && k in d.payload ==> after.payload[k] == d.payload[k])
      && (forall k :: k in after.changed <==> k in after.payload) && forall k :: k in after.payload ==> k !in after.errors
  {
  }

  lemma OtherRowStaysExplained(d: Diff, after: Diff, row: RuleRow, form: Form)
    requires RowExplained(d, row, form)
    requires row.key in after.payload <==> row.key in d.payload
    requires row.key in after.errors <==> row.key in d.errors
    requires row.key in d.payload ==> after.payload[row.key] == d.payload[row.key]
    ensures RowExplained(after, row, form)
  {
    hide RowVerdict;
  }

  lemma NewRowIsExplained(d: Diff, row: RuleRow, form: Form)
    requires row.key !in d.payload && row.key !in d.errors
    ensures RowExplained(AddVerdict(d, row, RowVerdict(row, form)), row, form)
  {
    hide RowVerdict;
  }

  lemma {:induction false} EditableOfSaved(view: View, payload: map<string, Change>)
    ensures var (before, after) := (EditableRows(view), EditableRows(SavedView(view, payload)));
      && |after| == |before|
      && forall i :: 0 <= i < |before| ==> before[i].editable && after[i] == SavedRow(before[i], payload)
  {
    hide SavedRow;
    if view != [] {
      var n := |view| - 1;
      EditableOfSaved(view[..n], payload);
      assert SavedView(view, payload)[..n] == SavedView(view[..n], payload);
      SavingKeepsEditable(view[n], payload);
    }
  }

  lemma SavingKeepsEditable(row: RuleRow, payload: map<string, Change>)
    ensures SavedRow(row, payload).editable == row.editable && SavedRow(row, payload).key == row.key
  {
  }

  /**
   * Saving converges. When the diff can be saved, writing the payload into the view and diffing the same form again
   * finds no change and no error.
   */
  lemma SavingConverges(view: View, form: Form)
    requires DistinctKeys(EditableRows(view))
    requires CanSave(DiffOf(view, form))
    ensures IsSilent(DiffOf(SavedView(view, DiffOf(view, form).payload), form))
  {
    hide RowVerdict, Updated, DiffRows;
    var (rows, d) := (EditableRows(view), DiffOf(view, form));
    DiffIsExplained(rows, form);
    EditableOfSaved(view, d.payload);
    var saved := EditableRows(SavedView(view, d.payload));
    forall i | 0 <= i < |saved|
      ensures RowVerdict(saved[i], form) == Silent
    {
      if RowVerdict(rows[i], form).Changed? {
        SentRowBecomesSilent(rows[i], form);
      } else {
        assert rows[i].key !in d.payload;
      }
    }
    SilentIff(saved, form);
  }

  /** What a diff sends: exactly the changed keys, none of them in error, every change legal for its row. */
  lemma PayloadIsLegal(view: View, form: Form)
    requires DistinctKeys(EditableRows(view))
    ensures var (rows, d) := (EditableRows(view), DiffOf(view, form));
      && (forall k :: k in d.changed <==> k in d.payload)
      && (forall k :: k in d.payload ==> k !in d.errors)
      && (forall i :: 0 <= i < |rows| && rows[i].key in d.payload ==> IsLegal(rows[i], d.payload[rows[i].key]))
  {
    hide RowVerdict, DiffRows, IsLegal;
    var (rows, d) := (EditableRows(view), DiffOf(view, form));
    DiffIsExplained(rows, form);
    forall i | 0 <= i < |rows| && rows[i].key in d.payload
      ensures IsLegal(rows[i], d.payload[rows[i].key])
    {
      if RowVerdict(rows[i], form).Changed? {
        SentChangeIsLegal(rows[i], form);
      }
    }
  }
}
