/** Any legal edit gets through the billing rules form, and anything else typed into it is refused. */
module FormEdits {
  import opened Wrappers
  import opened Decimal
  import opened Text
  import opened Money
  import opened DayLists
  import opened BillingRulesForm
  import opened FormProperties

  // ----- what may be asked for -----

  /** Within the bounds that the row states. */
  predicate InBounds(row: RuleRow, n: int) {
    && (match row.minValue { case Some(low) => low <= n case None => true })
    && (match row.maxValue { case Some(high) => n <= high case None => true })
  }

  /** A percent the ACH discount may be set to. */
  predicate IsRate(row: RuleRow, percent: Option<int>) {
    && percent.Some? && 0 < percent.value
    && (match row.maxPercent { case Some(high) => percent.value <= high case None => true })
  }

  predicate Ascend(days: seq<int>) {
    forall i, j :: 0 <= i < j < |days| ==> 0 <= days[i] < days[j]
  }

  /**
   * `t` is the row with another legal value: a number or a list within bounds, a choice, or the ACH discount switched
   * or set to a rate. Values that stay as they are need only be printable.
   */
  ghost predicate LegalTarget(row: RuleRow, t: RuleRow) {
    if row.key == ACH_KEY then
      && t == row.(enabled := t.enabled, percent := t.percent)
      && (t.percent == row.percent || IsRate(row, t.percent))
      && (t.percent.Some? ==> t.percent.value >= 0)
      && (t != row && t.enabled ==> IsRate(row, t.percent))
    else if row.values.Some? then
      && t.values.Some? && t == row.(values := t.values)
      && Ascend(t.values.value) && (t.values.value != [] ==> t.values.value[0] >= 0)
      && (t != row ==> forall d :: d in t.values.value ==> InBounds(row, d))
    else if row.isChoice then
      t == row.(choice := t.choice) && (t != row ==> t.choice.Some? && Trim(t.choice.value) != "")
    else
      && t == row.(value := t.value)
      && (t != row ==> t.value.Some? && InBounds(row, t.value.value))
      && (row.cents && t.value.Some? ==> t.value.value >= 0)
  }

  /** What has to be sent to turn one row into the other: only what differs. */
  function EditOf(row: RuleRow, t: RuleRow): Change {
    if row.key == ACH_KEY then
      AchChange(if t.enabled != row.enabled then Some(t.enabled) else None, if t.percent != row.percent then t.percent else None)
    else if row.values.Some? then DaysChange(if t.values.Some? then t.values.value else [])
    else if row.isChoice then ChoiceChange(if t.choice.Some? then t.choice.value else "")
    else NumberChange(if t.value.Some? then t.value.value else 0)
  }

  // ----- one row -----

  ghost predicate Decides(row: RuleRow, form: Form, t: RuleRow) {
    RowVerdict(row, form) == if t == row then Silent else Changed(EditOf(row, t))
  }

  lemma AchTarget(row: RuleRow, t: RuleRow, form: Form)
    requires row.key == ACH_KEY && LegalTarget(row, t) && Carries(form, t)
    ensures Decides(row, form, t)
  {
    AchFields(t, form);
    assert ACH_ENABLED_FIELD in RowFields(t);
    assert FieldOr(form, ACH_ENABLED_FIELD, BoolText(row.enabled)) == BoolText(t.enabled);
    assert BoolText(true) == "true" && BoolText(false) != "true";
    hide ParseHundredths, PrintShort, Carries, RowFields, Trim;
    if PercentOf(t) != 0 {
      PercentTextRoundTrip(PercentOf(t));
    } else {
      TrimKeepsUnspaced("");
    }
  }

  lemma NumberTarget(row: RuleRow, t: RuleRow)
    requires row.key != ACH_KEY && row.values.None? && !row.isChoice && LegalTarget(row, t)
    ensures NumberVerdict(row, RowToInput(t)) == if t == row then Silent else Changed(EditOf(row, t))
  {
    hide Trim, PrintFixed, PrintInt, ParseInt, ParseDollarsToCents;
    TrimKeepsUnspaced("");
    if t.value.Some? && row.cents {
      CentsRoundTrip(t.value.value);
    } else if t.value.Some? {
      IntRoundTrip(t.value.value);
    }
  }

  lemma ListTarget(row: RuleRow, t: RuleRow)
    requires row.key != ACH_KEY && row.values.Some? && LegalTarget(row, t)
    ensures t.values.Some? && ListVerdict(row, Join(t.values.value)) == if t == row then Silent else Changed(EditOf(row, t))
  {
    var days := t.values.value;
    AscendIsIncreasing(days);
    DayListRoundTripIff(days);
    assert t != row ==> forall i :: 0 <= i < |days| ==> days[i] in days;
    hide DaysOf, Join, Increasing, NonNegative, Ascend;
  }

  lemma AscendIsIncreasing(days: seq<int>)
    requires Ascend(days) && (days != [] ==> days[0] >= 0)
    ensures Increasing(days) && NonNegative(days)
  {
    forall i | 0 <= i < |days| ensures days[i] >= 0 {
      if i > 0 { assert days[0] < days[i]; }
    }
  }

  lemma ChoiceTarget(row: RuleRow, t: RuleRow)
    requires row.key != ACH_KEY && row.values.None? && row.isChoice && LegalTarget(row, t)
    ensures ChoiceVerdict(row, ChoiceOf(t)) == if t == row then Silent else Changed(EditOf(row, t))
  {
    TrimKeepsUnspaced("");
    hide Trim;
  }

  /** A row shown its target sends just the difference. */
  lemma RowTarget(row: RuleRow, t: RuleRow, form: Form)
    requires LegalTarget(row, t) && Carries(form, t)
    ensures Decides(row, form, t)
  {
    if row.key == ACH_KEY {
      AchTarget(row, t, form);
    } else {
      assert t.key == row.key && row.key in RowFields(t);
      assert Get(form, row.key) == RowToInput(t);
      if row.values.Some? {
        ListTarget(row, t);
      } else if row.isChoice {
        ChoiceTarget(row, t);
      } else {
        NumberTarget(row, t);
      }
      hide LegalTarget, AchVerdict, ListVerdict, NumberVerdict, ChoiceVerdict, EditOf, Join, PrintFixed, PrintInt, Carries;
    }
  }

  lemma EditReaches(row: RuleRow, t: RuleRow)
    requires LegalTarget(row, t) && t != row
    ensures Updated(row, EditOf(row, t)) == t
  {
    if row.key == ACH_KEY {
      assert Updated(row, EditOf(row, t)).percent == t.percent;
    } else if row.values.Some? {
      assert EditOf(row, t) == DaysChange(t.values.value);
    } else if row.isChoice {
      assert EditOf(row, t) == ChoiceChange(t.choice.value);
    } else {
      assert EditOf(row, t) == NumberChange(t.value.value);
    }
    hide InBounds, IsRate, Ascend, Trim;
  }

  // ----- the whole form -----

  /** The target view: editable rows at legal values, the others as they are. */
  ghost predicate LegalView(view: View, target: View) {
    |target| == |view| && forall i :: 0 <= i < |view| ==>
      if view[i].editable then LegalTarget(view[i], target[i]) else target[i] == view[i]
  }

  lemma TargetKeepsRow(row: RuleRow, t: RuleRow)
    requires LegalTarget(row, t)
    ensures t.key == row.key && t.editable == row.editable && t.caption == row.caption
  {
  }

  /** The editable rows next to their targets. */
  function EditablePairs(view: View, target: View): seq<(RuleRow, RuleRow)>
    requires |target| == |view|
  {
    if view == [] then [] else
    var n := |view| - 1;
    EditablePairs(view[..n], target[..n]) + if view[n].editable then [(view[n], target[n])] else []
  }

  lemma {:induction false} PairMembers(view: View, target: View, p: (RuleRow, RuleRow))
    requires |target| == |view|
    ensures p in EditablePairs(view, target) <==> exists j :: 0 <= j < |view| && view[j].editable && p == (view[j], target[j])
  {
    if view != [] {
      var n := |view| - 1;
      PairMembers(view[..n], target[..n], p);
      if j :| 0 <= j < |view| && view[j].editable && p == (view[j], target[j]) {
        if j < n {
          assert view[..n][j] == view[j] && target[..n][j] == target[j];
        }
      }
      if p in EditablePairs(view[..n], target[..n]) {
        var j :| 0 <= j < n && view[..n][j].editable && p == (view[..n][j], target[..n][j]);
        assert p == (view[j], target[j]);
      }
    }
  }

  lemma {:induction false} PairsAreRows(view: View, target: View)
    requires |target| == |view| && forall i :: 0 <= i < |view| ==> target[i].editable == view[i].editable
    ensures var (rows, wanted, pairs) := (EditableRows(view), EditableRows(target), EditablePairs(view, target));
      |rows| == |wanted| == |pairs| && forall i :: 0 <= i < |pairs| ==> pairs[i] == (rows[i], wanted[i])
  {
    if view != [] {
      var n := |view| - 1;
      PairsAreRows(view[..n], target[..n]);
    }
  }

  lemma LegalKeepsEditable(view: View, target: View)
    requires LegalView(view, target)
    ensures forall i :: 0 <= i < |view| ==> target[i].editable == view[i].editable
  {
    hide LegalTarget;
    forall i | 0 <= i < |view| ensures target[i].editable == view[i].editable {
      if view[i].editable {
        TargetKeepsRow(view[i], target[i]);
      }
    }
  }

  lemma EditableTargets(view: View, target: View)
    requires LegalView(view, target)
    ensures var (rows, wanted) := (EditableRows(view), EditableRows(target));
      |wanted| == |rows| && forall i :: 0 <= i < |rows| ==> LegalTarget(rows[i], wanted[i]) && wanted[i].key == rows[i].key
  {
    var (rows, wanted, pairs) := (EditableRows(view), EditableRows(target), EditablePairs(view, target));
    LegalKeepsEditable(view, target);
    PairsAreRows(view, target);
    hide LegalTarget, EditableRows, EditablePairs;
    forall i | 0 <= i < |rows|
      ensures LegalTarget(rows[i], wanted[i]) && wanted[i].key == rows[i].key
    {
      assert pairs[i] in pairs && pairs[i].0 == rows[i] && pairs[i].1 == wanted[i];
      PairMembers(view, target, pairs[i]);
      TargetKeepsRow(rows[i], wanted[i]);
    }
  }

  lemma PairOf(view: View, target: View, j: nat) returns (i: nat)
    requires LegalView(view, target) && j < |view| && view[j].editable
    ensures i < |EditableRows(view)| == |EditableRows(target)|
    ensures EditableRows(view)[i] == view[j] && EditableRows(target)[i] == target[j]
  {
    var pairs := EditablePairs(view, target);
    LegalKeepsEditable(view, target);
    PairsAreRows(view, target);
    PairMembers(view, target, (view[j], target[j]));
    hide LegalTarget, EditableRows, EditablePairs;
    i :| 0 <= i < |pairs| && pairs[i] == (view[j], target[j]);
  }

  /** The rows whose value differs, in order. */
  function Edited(rows: seq<RuleRow>, wanted: seq<RuleRow>): seq<RuleRow>
    requires |rows| == |wanted|
  {
    if rows == [] then [] else
    var n := |rows| - 1;
    Edited(rows[..n], wanted[..n]) + if wanted[n] != rows[n] then [rows[n]] else []
  }

  function KeysOf(rows: seq<RuleRow>): (keys: seq<string>)
    ensures |keys| == |rows| && forall i :: 0 <= i < |rows| ==> keys[i] == rows[i].key
  {
    seq(|rows|, i requires 0 <= i < |rows| => rows[i].key)
  }

  function CaptionsOf(rows: seq<RuleRow>): (captions: seq<string>)
    ensures |captions| == |rows| && forall i :: 0 <= i < |rows| ==> captions[i] == rows[i].caption
  {
    seq(|rows|, i requires 0 <= i < |rows| => rows[i].caption)
  }

  lemma {:induction false} EditedRowsAreSent(rows: seq<RuleRow>, wanted: seq<RuleRow>, form: Form)
    requires |wanted| == |rows| && forall i :: 0 <= i < |rows| ==> Decides(rows[i], form, wanted[i])
    ensures var d := DiffRows(rows, form);
      d.errors == {} && d.changed == KeysOf(Edited(rows, wanted)) && d.labels == CaptionsOf(Edited(rows, wanted))
  {
    hide RowVerdict, EditOf;
    if rows != [] {
      var n := |rows| - 1;
      EditedRowsAreSent(rows[..n], wanted[..n], form);
      var before := Edited(rows[..n], wanted[..n]);
      assert Decides(rows[n], form, wanted[n]);
      assert KeysOf(before + [rows[n]]) == KeysOf(before) + [rows[n].key];
      assert CaptionsOf(before + [rows[n]]) == CaptionsOf(before) + [rows[n].caption];
      assert before + [] == before;
    }
  }

  /**
   * Every legal edit goes through. For a view with distinct keys and any legal target, diffing the target's printed form
   * finds no error, sends exactly the rows whose value differs, each with just its difference, names them in order, and
   * saving the payload gives exactly the target.
   */
  lemma EditsGoThrough(view: View, target: View)
    requires DistinctKeys(EditableRows(view)) && LegalView(view, target)
    ensures var (d, rows, wanted) := (DiffOf(view, ToForm(target)), EditableRows(view), EditableRows(target));
      && |wanted| == |rows| && d.errors == {}
      && d.changed == KeysOf(Edited(rows, wanted)) && d.labels == CaptionsOf(Edited(rows, wanted))
      && (forall i :: 0 <= i < |view| && view[i].editable ==>
            && (view[i].key in d.payload <==> target[i] != view[i])
            && (target[i] != view[i] ==> d.payload[view[i].key] == EditOf(view[i], target[i])))
      && SavedView(view, d.payload) == target
  {
    var (rows, wanted, form) := (EditableRows(view), EditableRows(target), ToForm(target));
    EditableTargets(view, target);
    hide LegalTarget, Decides, DiffRows, EditableRows, FormOf, Edited;
    TargetsDecide(rows, wanted);
    EditedRowsAreSent(rows, wanted, form);
    DiffIsExplained(rows, form);
    forall i | 0 <= i < |view|
      ensures RowReached(view[i], target[i], DiffOf(view, form))
    {
      ViewRowReached(view, target, i);
    }
    hide SavedRow, EditOf;
  }

  /** Save is offered for a legal target exactly when it changes something. */
  lemma EditsEnableSave(view: View, target: View)
    requires DistinctKeys(EditableRows(view)) && LegalView(view, target)
    ensures CanSave(DiffOf(view, ToForm(target))) <==> target != view
  {
    EditsGoThrough(view, target);
    hide DiffOf, LegalTarget, EditableRows, FormOf, SavedView, EditOf, Edited;
    var d := DiffOf(view, ToForm(target));
    if target == view {
      NoneDiffer(EditableRows(view));
    } else {
      var i :| 0 <= i < |view| && target[i] != view[i];
      PayloadIsLegal(view, ToForm(target));
      assert view[i].key in d.payload;
    }
  }

  lemma {:induction false} NoneDiffer(rows: seq<RuleRow>)
    ensures Edited(rows, rows) == []
  {
    if rows != [] {
      NoneDiffer(rows[..|rows| - 1]);
    }
  }

  /** What the payload does to one row. */
  ghost predicate RowReached(row: RuleRow, t: RuleRow, d: Diff) {
    && (row.editable ==> (row.key in d.payload <==> t != row) && (t != row ==> d.payload[row.key] == EditOf(row, t)))
    && SavedRow(row, d.payload) == t
  }

  lemma ViewRowReached(view: View, target: View, i: nat)
    requires DistinctKeys(EditableRows(view)) && LegalView(view, target) && i < |view|
    ensures RowReached(view[i], target[i], DiffOf(view, ToForm(target)))
  {
    var (rows, wanted, form) := (EditableRows(view), EditableRows(target), ToForm(target));
    EditableTargets(view, target);
    hide LegalTarget, Decides, DiffRows, EditableRows, FormOf, RowExplained, EditOf;
    if view[i].editable {
      var j := PairOf(view, target, i);
      TargetsDecide(rows, wanted);
      DiffIsExplained(rows, form);
      RowIsSaved(rows[j], wanted[j], DiffOf(view, form), form);
    }
  }

  lemma RowIsSaved(row: RuleRow, t: RuleRow, d: Diff, form: Form)
    requires row.editable && LegalTarget(row, t) && Decides(row, form, t) && RowExplained(d, row, form)
    ensures row.key in d.payload <==> t != row
    ensures t != row ==> d.payload[row.key] == EditOf(row, t)
    ensures SavedRow(row, d.payload) == t
  {
    if t != row {
      EditReaches(row, t);
    }
    hide RowVerdict, LegalTarget, EditOf, Updated;
  }

  lemma TargetsDecide(rows: seq<RuleRow>, wanted: seq<RuleRow>)
    requires |wanted| == |rows| && DistinctKeys(rows)
    requires forall i :: 0 <= i < |rows| ==> LegalTarget(rows[i], wanted[i]) && wanted[i].key == rows[i].key
    ensures forall i :: 0 <= i < |rows| ==> Decides(rows[i], FormOf(wanted), wanted[i])
  {
    hide LegalTarget, Carries, Decides, FormOf;
    assert DistinctKeys(wanted);
    FormCarriesRows(wanted);
    forall i | 0 <= i < |rows|
      ensures Decides(rows[i], FormOf(wanted), wanted[i])
    {
      RowTarget(rows[i], wanted[i], FormOf(wanted));
    }
  }

  /** What the inputs of an editable row show. */
  lemma FormShows(view: View, i: nat)
    requires DistinctKeys(EditableRows(view)) && i < |EditableRows(view)|
    ensures var (form, row) := (ToForm(view), EditableRows(view)[i]);
      if row.key == "ach_discount" then
        && "ach_discount_enabled" in form && form["ach_discount_enabled"] == (if row.enabled then "true" else "false")
        && "ach_discount_percent" in form
        && form["ach_discount_percent"] == match row.percent { case Some(p) => if p == 0 then "" else PrintShort(p) case None => "" }
      else
        && row.key in form
        && form[row.key] == match row.values {
             case Some(days) => Join(days)
             case None =>
               if row.isChoice then match row.choice { case Some(c) => c case None => "" }
               else match row.value { case Some(n) => if row.cents then PrintFixed(n) else PrintInt(n) case None => "" }
           }
  {
    var row := EditableRows(view)[i];
    FormCarriesRows(EditableRows(view));
    assert Carries(ToForm(view), row);
    assert ACH_ENABLED_FIELD[13] != ACH_PERCENT_FIELD[13];
    assert forall k :: k in RowFields(row) ==> k in ToForm(view) && ToForm(view)[k] == RowFields(row)[k];
    hide FormOf, EditableRows, PrintShort, PrintFixed, PrintInt, Join;
  }

  // ----- what is typed -----

  /** A whole-number input reads as its digits, with a minus sign in front for a negative number. */
  lemma WholeNumberReads(row: RuleRow, raw: string, n: int)
    requires !row.cents
    ensures InputToValue(row, raw) == Some(n) <==>
      var t := Trim(raw);
      || (t != "" && AllDigits(t) && n == Value(t))
      || (|t| > 1 && t[0] == '-' && AllDigits(t[1..]) && n == -(Value(t[1..]) as int))
  {
    hide Trim, Value;
    var t := Trim(raw);
    if t != "" && t[0] == '-' {
      assert !IsDigit(t[0]);
    }
  }

  /** The typed text without the spaces around it, one dollar sign in front and the commas. */
  function Bare(raw: string): string {
    var t := Trim(raw);
    WithoutCommas(if t != "" && t[0] == '$' then t[1..] else t)
  }

  /** `s` is an amount: digits, then at most a dot with one or two more; `n` is its value in hundredths. */
  ghost predicate IsAmount(s: string, n: int) {
    || (s != "" && AllDigits(s) && n == 100 * Value(s))
    || (exists dot :: 0 < dot < |s| && s[dot] == '.' && AllDigits(s[..dot]) && AllDigits(s[dot + 1..]) && 1 <= |s| - dot - 1 <= 2
          && n == 100 * Value(s[..dot]) + (if |s| - dot - 1 == 1 then 10 else 1) * Value(s[dot + 1..]))
  }

  lemma HundredthsMean(s: string, n: nat)
    ensures ParseHundredths(s) == Some(n) <==> IsAmount(s, n)
  {
    var dot := IndexOf(s, '.');
    hide IsAmount, ParseSplit;
    if dot == |s| {
      assert s[..dot] == s && s[dot..] == "";
      WholeMeans(s, n);
    } else {
      FractionMeans(s, dot, n);
    }
  }

  lemma WholeMeans(s: string, n: nat)
    requires forall k :: 0 <= k < |s| ==> s[k] != '.'
    ensures ParseSplit(s, "") == Some(n) <==> IsAmount(s, n)
  {
    hide Value;
  }

  lemma FractionMeans(s: string, dot: nat, n: nat)
    requires dot < |s| && s[dot] == '.' && forall k :: 0 <= k < dot ==> s[k] != '.'
    ensures ParseSplit(s[..dot], s[dot..]) == Some(n) <==> IsAmount(s, n)
  {
    hide Value;
    assert !AllDigits(s) by { assert !IsDigit(s[dot]); }
    assert s[dot..][1..] == s[dot + 1..];
    forall k | 0 < k < |s| && s[k] == '.' && AllDigits(s[..k])
      ensures k == dot
    {
      OnlyDot(s, dot, k);
    }
    hide AllDigits;
  }

  lemma OnlyDot(s: string, dot: nat, k: nat)
    requires dot < |s| && s[dot] == '.' && forall j :: 0 <= j < dot ==> s[j] != '.'
    requires k < |s| && s[k] == '.' && AllDigits(s[..k])
    ensures k == dot
  {
  }

  /** A cents input reads as the amount it spells, and as nothing otherwise. */
  lemma CentsRead(row: RuleRow, raw: string, n: nat)
    requires row.cents
    ensures InputToValue(row, raw) == Some(n) <==> Trim(raw) != "" && IsAmount(Bare(raw), n)
  {
    var t := Trim(raw);
    TrimKeepsUnspaced(t);
    HundredthsMean(Bare(raw), n);
    hide Trim, IsAmount, ParseHundredths, WithoutCommas;
  }

  lemma {:induction false} DistinctDaysMean(tokens: seq<string>)
    ensures DistinctDays(tokens).Some? <==> forall t :: t in tokens ==> t != "" && AllDigits(t)
    ensures DistinctDays(tokens).Some? ==>
      forall d :: d in DistinctDays(tokens).value <==> exists t :: t in tokens && AllDigits(t) && Value(t) == d
  {
    hide Value, AllDigits;
    if tokens != [] {
      var n := |tokens| - 1;
      assert forall t :: t in tokens <==> t in tokens[..n] || t == tokens[n] by {
        assert tokens == tokens[..n] + [tokens[n]];
      }
      DistinctDaysMean(tokens[..n]);
    }
  }

  /** A list input reads as the whole numbers between its separators, each once and in order, or as nothing. */
  lemma DaysRead(raw: string)
    ensures var (tokens, days) := (Tokens(Trim(raw)), DaysOf(raw));
      && (days.Some? <==> forall t :: t in tokens ==> t != "" && AllDigits(t))
      && (days.Some? ==> Increasing(days.value)
                         && forall d :: d in days.value <==> exists t :: t in tokens && AllDigits(t) && Value(t) == d)
  {
    var tokens := Tokens(Trim(raw));
    DistinctDaysMean(tokens);
    hide Tokens, Trim, Value;
    if DistinctDays(tokens).Some? {
      DistinctDaysAreDistinct(tokens);
      SortedDays(DistinctDays(tokens).value);
    }
    hide DistinctDays, Increasing;
  }

  /** Separators are commas and white space; what is between two of them is one token. */
  lemma TokensMean(t: string, separator: char, rest: string)
    requires t != "" && AllDigits(t) && (separator == ',' || separator == ' ' || separator == '\t' || separator == '\n')
    ensures Tokens(t + [separator] + rest) == [t] + Tokens(rest)
  {
    assert t + [separator] + rest == t + ([separator] + rest);
    TokensOf(t, [separator] + rest);
    assert ([separator] + rest)[1..] == rest;
  }

  // ----- what is decided -----

  /** A number row: blank is left alone, what is not a number is refused, the stored number is silent, a legal one is sent. */
  lemma NumberDecides(view: View, form: Form, i: nat)
    requires DistinctKeys(EditableRows(view)) && i < |EditableRows(view)|
    requires var row := EditableRows(view)[i]; row.key != "ach_discount" && row.values.None? && !row.isChoice
    ensures var (d, row) := (DiffOf(view, form), EditableRows(view)[i]);
      var (raw, read) := (Get(form, row.key), InputToValue(row, Get(form, row.key)));
      && (row.key in d.errors <==> Trim(raw) != "" && (read.None? || (read != row.value && !InBounds(row, read.value))))
      && (row.key in d.payload <==> Trim(raw) != "" && read.Some? && read != row.value && InBounds(row, read.value))
      && (row.key in d.payload ==> d.payload[row.key] == NumberChange(read.value))
  {
    var (rows, row) := (EditableRows(view), EditableRows(view)[i]);
    DiffIsExplained(rows, form);
    assert RowExplained(DiffOf(view, form), row, form);
    hide DiffRows, EditableRows, DistinctKeys, Explained, InputToValue, Trim, Get;
  }

  /** A list row, where blank is the empty list. */
  lemma ListDecides(view: View, form: Form, i: nat)
    requires DistinctKeys(EditableRows(view)) && i < |EditableRows(view)|
    requires var row := EditableRows(view)[i]; row.key != "ach_discount" && row.values.Some?
    ensures var (d, row) := (DiffOf(view, form), EditableRows(view)[i]);
      var read := DaysOf(Get(form, row.key));
      && (row.key in d.errors <==> read.None? || (read != row.values && exists day :: day in read.value && !InBounds(row, day)))
      && (row.key in d.payload <==> read.Some? && read != row.values && forall day :: day in read.value ==> InBounds(row, day))
      && (row.key in d.payload ==> d.payload[row.key] == DaysChange(read.value))
  {
    var (rows, row) := (EditableRows(view), EditableRows(view)[i]);
    DiffIsExplained(rows, form);
    assert RowExplained(DiffOf(view, form), row, form);
    hide DiffRows, EditableRows, DistinctKeys, Explained, DaysOf, Get;
    var read := DaysOf(Get(form, row.key));
    if read.Some? {
      AllInBounds(row, read.value);
    }
  }

  lemma AllInBounds(row: RuleRow, days: seq<int>)
    ensures AllWithinBounds(row, days) <==> forall day :: day in days ==> InBounds(row, day)
  {
    forall n: int ensures WithinBounds(row, n) <==> InBounds(row, n) {
    }
    if AllWithinBounds(row, days) {
      forall day | day in days ensures InBounds(row, day) {
        var k :| 0 <= k < |days| && days[k] == day;
      }
    }
  }

  /** A choice row: any other choice that is not blank is sent, and none is an error. */
  lemma ChoiceDecides(view: View, form: Form, i: nat)
    requires DistinctKeys(EditableRows(view)) && i < |EditableRows(view)|
    requires var row := EditableRows(view)[i]; row.key != "ach_discount" && row.values.None? && row.isChoice
    ensures var (d, row) := (DiffOf(view, form), EditableRows(view)[i]);
      var raw := Get(form, row.key);
      && row.key !in d.errors
      && (row.key in d.payload <==> Trim(raw) != "" && raw != match row.choice { case Some(c) => c case None => "" })
      && (row.key in d.payload ==> d.payload[row.key] == ChoiceChange(raw))
  {
    var (rows, row) := (EditableRows(view), EditableRows(view)[i]);
    DiffIsExplained(rows, form);
    assert RowExplained(DiffOf(view, form), row, form);
    hide DiffRows, EditableRows, DistinctKeys, Explained, Trim, Get;
  }

  /**
   * The ACH row. A typed percent that is neither a rate nor the stored percent is an error, and so is a blank one that
   * would hide a stored percent or switch the discount on, and any change that leaves it on without a rate; every other
   * change is sent, and only what changed of it.
   */
  lemma AchDecides(view: View, form: Form, i: nat)
    requires DistinctKeys(EditableRows(view)) && i < |EditableRows(view)| && EditableRows(view)[i].key == "ach_discount"
    ensures var (d, row) := (DiffOf(view, form), EditableRows(view)[i]);
      var on := if "ach_discount_enabled" in form then form["ach_discount_enabled"] == "true" else row.enabled;
      var typed := Trim(if "ach_discount_percent" in form then form["ach_discount_percent"] else "");
      var stored := if row.percent.Some? then row.percent.value else 0;
      var read := if typed == "" then None else AsInt(ParseHundredths(typed));
      var edited := typed != "" && read != Some(stored);
      var refused := || (edited && !IsRate(row, read))
                     || (on && typed == "" && (stored > 0 || on != row.enabled))
                     || (on && (edited || on != row.enabled) && !IsRate(row, if edited then read else Some(stored)));
      && (row.key in d.errors <==> refused)
      && (row.key in d.payload <==> !refused && (edited || on != row.enabled))
      && (row.key in d.payload ==>
            d.payload[row.key] == AchChange(if on != row.enabled then Some(on) else None, if edited then read else None))
  {
    var (rows, row) := (EditableRows(view), EditableRows(view)[i]);
    DiffIsExplained(rows, form);
    assert RowExplained(DiffOf(view, form), row, form);
    hide DiffRows, EditableRows, DistinctKeys, Explained, Trim, ParseHundredths;
    assert BoolText(true) == "true" && BoolText(false) != "true";
    hide BoolText;
  }

  function AsInt(n: Option<nat>): Option<int> {
    if n.Some? then Some(n.value) else None
  }
}
