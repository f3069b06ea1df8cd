/**
 * The billing rules form: stored rows become the strings of the inputs, the inputs are diffed against the rows,
 * and only the changed fields are sent. Amounts are whole cents, percents are hundredths.
 */
module BillingRulesForm {
  import opened Wrappers
  import opened Decimal
  import opened Text
  import opened Money
  import opened DayLists

  /** `values` and `choices` mark a list row and a choice row; a missing bound is `None`. */
  datatype RuleRow = RuleRow(
    key: string, caption: string, editable: bool, cents: bool, value: Option<int>, values: Option<seq<int>>,
    isChoice: bool, choice: Option<string>, minValue: Option<int>, maxValue: Option<int>,
    enabled: bool, percent: Option<int>, maxPercent: Option<int>)

  type View = seq<RuleRow>

  type Form = map<string, string>

  datatype Change =
    | NumberChange(number: int)
    | DaysChange(days: seq<int>)
    | ChoiceChange(choice: string)
    | AchChange(enabled: Option<bool>, percent: Option<int>)

  /** What one row contributes to the diff. */
  datatype Verdict = Silent | Invalid | Changed(change: Change)

  const ACH_KEY := "ach_discount"
  const ACH_ENABLED_FIELD := "ach_discount_enabled"
  const ACH_PERCENT_FIELD := "ach_discount_percent"

  function EditableRows(view: View): seq<RuleRow> {
    if view == [] then [] else
    EditableRows(view[..|view| - 1]) + if view[|view| - 1].editable then [view[|view| - 1]] else []
  }

  function Get(form: Form, field: string): string {
    if field in form then form[field] else ""
  }

  function FieldOr(form: Form, field: string, default: string): string {
    if field in form then form[field] else default
  }

  function BoolText(b: bool): string {
    if b then "true" else "false"
  }

  function PercentOf(row: RuleRow): int {
    if row.percent.Some? then row.percent.value else 0
  }

  function ChoiceOf(row: RuleRow): string {
    if row.choice.Some? then row.choice.value else ""
  }

  /** `rowToInput`. */
  function RowToInput(row: RuleRow): string {
    if row.values.Some? then Join(row.values.value)
    else if row.isChoice then ChoiceOf(row)
    else if row.value.None? then ""
    else if row.cents then PrintFixed(row.value.value)
    else PrintInt(row.value.value)
  }

  function PercentText(row: RuleRow): string {
    if PercentOf(row) != 0 then PrintShort(PercentOf(row)) else ""
  }

  /** The fields one row writes into the form. */
  function RowFields(row: RuleRow): Form {
    if row.key == ACH_KEY
    then map[ACH_ENABLED_FIELD := BoolText(row.enabled), ACH_PERCENT_FIELD := PercentText(row)]
    else map[row.key := RowToInput(row)]
  }

  function FormOf(rows: seq<RuleRow>): Form {
    if rows == [] then map[] else FormOf(rows[..|rows| - 1]) + RowFields(rows[|rows| - 1])
  }

  /** `toForm`. */
  function ToForm(view: View): Form {
    FormOf(EditableRows(view))
  }

  /** Matches `-?\d+` and reads it. */
  function ParseInt(s: string): Option<int> {
    var negative := s != "" && s[0] == '-';
    var digits := if negative then s[1..] else s;
    if digits == "" || !AllDigits(digits) then None
    else
      var n: int := Value(digits);
      Some(if negative then -n else n)
  }

  /** `inputToValue`. */
  function InputToValue(row: RuleRow, raw: string): Option<int> {
    var trimmed := Trim(raw);
    if trimmed == "" then None
    else if row.cents then
      var cents := ParseDollarsToCents(trimmed);
      if cents < 0 then None else Some(cents)
    else ParseInt(trimmed)
  }

  predicate WithinBounds(row: RuleRow, n: int) {
    (row.minValue.Some? ==> n >= row.minValue.value) && (row.maxValue.Some? ==> n <= row.maxValue.value)
  }

  predicate AllWithinBounds(row: RuleRow, days: seq<int>) {
    forall i :: 0 <= i < |days| ==> WithinBounds(row, days[i])
  }

  predicate PercentAllowed(row: RuleRow, percent: int) {
    percent > 0 && (row.maxPercent.Some? ==> percent <= row.maxPercent.value)
  }

  /** `diffAchRow`, by its outcome. */
  function AchVerdict(row: RuleRow, form: Form): Verdict {
    var stored := PercentOf(row);
    var enabled := FieldOr(form, ACH_ENABLED_FIELD, BoolText(row.enabled)) == "true";
    var raw := Trim(Get(form, ACH_PERCENT_FIELD));
    var parsed := if raw == "" then None else ParseHundredths(raw);
    var enabledChanged := enabled != row.enabled;
    if enabled && raw == "" && (stored > 0 || enabledChanged) then Invalid else
    var percentEdited := raw != "" && parsed != Some(stored);
    if !enabledChanged && !percentEdited then Silent else
    if percentEdited && (parsed.None? || !PercentAllowed(row, parsed.value)) then Invalid
    else if enabled && !PercentAllowed(row, if percentEdited then parsed.value else stored) then Invalid
    else Changed(AchChange(if enabledChanged then Some(enabled) else None, if percentEdited then Some(parsed.value) else None))
  }

  function ListVerdict(row: RuleRow, raw: string): Verdict
    requires row.values.Some?
  {
    var days := DaysOf(raw);
    if days == Some(row.values.value) then Silent
    else if days.None? || !AllWithinBounds(row, days.value) then Invalid
    else Changed(DaysChange(days.value))
  }

  function ChoiceVerdict(row: RuleRow, raw: string): Verdict {
    if Trim(raw) == "" || raw == ChoiceOf(row) then Silent else Changed(ChoiceChange(raw))
  }

  function NumberVerdict(row: RuleRow, raw: string): Verdict {
    if Trim(raw) == "" then Silent else
    var parsed := InputToValue(row, raw);
    if parsed.None? then Invalid
    else if parsed == row.value then Silent
    else if !WithinBounds(row, parsed.value) then Invalid
    else Changed(NumberChange(parsed.value))
  }

  function RowVerdict(row: RuleRow, form: Form): Verdict {
    if row.key == ACH_KEY then AchVerdict(row, form)
    else if row.values.Some? then ListVerdict(row, Get(form, row.key))
    else if row.isChoice then ChoiceVerdict(row, Get(form, row.key))
    else NumberVerdict(row, Get(form, row.key))
  }

  /** The messages of the errors are left out; `errors` holds the keys. */
  datatype Diff = Diff(changed: seq<string>, labels: seq<string>, payload: map<string, Change>, errors: set<string>)

  function AddVerdict(d: Diff, row: RuleRow, v: Verdict): Diff {
    match v
    case Silent => d
    case Invalid => d.(errors := d.errors + {row.key})
    case Changed(change) =>
      Diff(d.changed + [row.key], d.labels + [row.caption], d.payload[row.key := change], d.errors)
  }

  function DiffRows(rows: seq<RuleRow>, form: Form): Diff {
    if rows == [] then Diff([], [], map[], {}) else
    AddVerdict(DiffRows(rows[..|rows| - 1], form), rows[|rows| - 1], RowVerdict(rows[|rows| - 1], form))
  }

  /** `diffForm`. */
  function DiffOf(view: View, form: Form): Diff {
    DiffRows(EditableRows(view), form)
  }

  predicate CanSave(d: Diff) {
    |d.changed| > 0 && d.errors == {}
  }

  // ----- the source's mutable form -----

  method FindEditableRows(view: View) returns (rows: seq<RuleRow>)
    ensures rows == EditableRows(view)
  {
    rows := [];
    for i := 0 to |view|
      invariant rows == EditableRows(view[..i])
    {
      assert view[..i + 1][..i] == view[..i];
      if view[i].editable {
        rows := rows + [view[i]];
      }
    }
    assert view[..|view|] == view;
  }

  method BuildForm(view: View) returns (form: Form)
    ensures form == ToForm(view)
  {
    hide RowFields, RowToInput, PercentText, BoolText;
    var rows := FindEditableRows(view);
    form := map[];
    for i := 0 to |rows|
      invariant form == FormOf(rows[..i])
    {
      var row := rows[i];
      assert rows[..i + 1][..i] == rows[..i];
      WrittenFields(form, row);
      if row.key == ACH_KEY {
        form := form[ACH_ENABLED_FIELD := BoolText(row.enabled)];
        form := form[ACH_PERCENT_FIELD := PercentText(row)];
        continue;
      }
      form := form[row.key := RowToInput(row)];
    }
    assert rows[..|rows|] == rows;
  }

  lemma WrittenFields(form: Form, row: RuleRow)
    ensures row.key == ACH_KEY ==>
      form[ACH_ENABLED_FIELD := BoolText(row.enabled)][ACH_PERCENT_FIELD := PercentText(row)] == form + RowFields(row)
    ensures row.key != ACH_KEY ==> form[row.key := RowToInput(row)] == form + RowFields(row)
  {
    hide RowToInput, PercentText, BoolText;
  }

  /** The arrays and records that the diff fills while it walks the rows. */
  class DiffBuilder {
    var diff: Diff

    constructor ()
      ensures diff == Diff([], [], map[], {})
    {
      diff := Diff([], [], map[], {});
    }

    method Fail(row: RuleRow)
      modifies this
      ensures diff == AddVerdict(old(diff), row, Invalid)
    {
      diff := diff.(errors := diff.errors + {row.key});
    }

    method Send(row: RuleRow, change: Change)
      modifies this
      ensures diff == AddVerdict(old(diff), row, Changed(change))
    {
      diff := Diff(diff.changed + [row.key], diff.labels + [row.caption], diff.payload[row.key := change], diff.errors);
    }

    method DiffAchRow(row: RuleRow, form: Form)
      modifies this
      ensures diff == AddVerdict(old(diff), row, AchVerdict(row, form))
    {
      var stored := PercentOf(row);
      var enabled := FieldOr(form, ACH_ENABLED_FIELD, BoolText(row.enabled)) == "true";
      var raw := Trim(Get(form, ACH_PERCENT_FIELD));
      var parsed := if raw == "" then None else ParseHundredths(raw);
      var enabledChanged := enabled != row.enabled;
      if enabled && raw == "" && (stored > 0 || enabledChanged) {
        Fail(row);
        return;
      }
      var percentEdited := raw != "" && parsed != Some(stored);
      if !enabledChanged && !percentEdited {
        return;
      }
      if percentEdited && (parsed.None? || !PercentAllowed(row, parsed.value)) {
        Fail(row);
        return;
      }
      if enabled && !PercentAllowed(row, if percentEdited then parsed.value else stored) {
        Fail(row);
        return;
      }
      Send(row, AchChange(if enabledChanged then Some(enabled) else None, if percentEdited then Some(parsed.value) else None));
    }

    method DiffListRow(row: RuleRow, raw: string)
      requires row.values.Some?
      modifies this
      ensures diff == AddVerdict(old(diff), row, ListVerdict(row, raw))
    {
      var days := InputToDays(raw);
      if days == Some(row.values.value) {
        return;
      }
      if days.None? || !AllWithinBounds(row, days.value) {
        Fail(row);
        return;
      }
      Send(row, DaysChange(days.value));
    }

    method DiffNumberRow(row: RuleRow, raw: string)
      modifies this
      ensures diff == AddVerdict(old(diff), row, NumberVerdict(row, raw))
    {
      if Trim(raw) == "" {
        return;
      }
      var parsed := InputToValue(row, raw);
      if parsed.None? {
        Fail(row);
        return;
      }
      if parsed == row.value {
        return;
      }
      if !WithinBounds(row, parsed.value) {
        Fail(row);
        return;
      }
      Send(row, NumberChange(parsed.value));
    }
  }

  method DiffForm(view: View, form: Form) returns (d: Diff)
    ensures d == DiffOf(view, form)
  {
    hide AchVerdict, ListVerdict, NumberVerdict, Trim;
    var rows := FindEditableRows(view);
    var out := new DiffBuilder();
    for i := 0 to |rows|
      invariant fresh(out) && out.diff == DiffRows(rows[..i], form)
    {
      var row := rows[i];
      assert rows[..i + 1][..i] == rows[..i];
      if row.key == ACH_KEY {
        out.DiffAchRow(row, form);
        continue;
      }
      var raw := Get(form, row.key);
      if row.values.Some? {
        out.DiffListRow(row, raw);
        continue;
      }
      if row.isChoice {
        if Trim(raw) == "" || raw == ChoiceOf(row) {
          continue;
        }
        out.Send(row, ChoiceChange(raw));
        continue;
      }
      out.DiffNumberRow(row, raw);
    }
    assert rows[..|rows|] == rows;
    d := out.diff;
  }
}
