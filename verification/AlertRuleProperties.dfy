/** What reconciling the alert rules converges to, and which rules it can never touch. */
module AlertRuleProperties {
  import opened Decimal
  import opened Wrappers
  import opened Reordering
  import opened AlertRules
  import opened Text

  // ----- the field diff -----

  /** The managed fields agree: item lists as multisets of what is compared at each position. */
  ghost predicate Agree(cur: Fields, want: Fields) {
    && cur.name == want.name
    && cur.environment == want.environment
    && cur.actionMatch == want.actionMatch
    && cur.filterMatch == want.filterMatch
    && ReadInt(cur.frequency).Ok?
    && ReadInt(cur.frequency) == ReadInt(want.frequency)
    && SameItems(cur.conditions, want.conditions)
    && SameItems(cur.filters, want.filters)
    && SameItems(cur.actions, want.actions)
  }

  ghost predicate SameItems(items: seq<Item>, wanted: seq<Item>) {
    multiset(NormalItems(items, wanted)) == multiset(NormalItems(wanted, wanted))
  }

  /** The diff is empty exactly when the managed fields agree, whatever total order the sort uses. */
  lemma DiffIsEmptyIff(leq: ItemOrder, cur: Fields, want: Fields)
    requires TotalOrder(leq)
    ensures DiffRule(leq, cur, want) == Ok(map[]) <==> Agree(cur, want)
  {
    SortedFormsAgreeIff(leq, cur.conditions, want.conditions);
    SortedFormsAgreeIff(leq, cur.filters, want.filters);
    SortedFormsAgreeIff(leq, cur.actions, want.actions);
    hide TotalOrder, SortBy, NormalItems, SameItems, ReadInt, Differing;
    if ReadInt(cur.frequency).Ok? && ReadInt(want.frequency).Ok? {
      DifferingIsEmptyIff(Normalize(leq, cur, want).value, Normalize(leq, want, want).value);
    }
  }

  lemma SortedFormsAgreeIff(leq: ItemOrder, items: seq<Item>, wanted: seq<Item>)
    requires TotalOrder(leq)
    ensures SortBy(leq, NormalItems(items, wanted)) == SortBy(leq, NormalItems(wanted, wanted)) <==> SameItems(items, wanted)
  {
    SortsAgreeIff(leq, NormalItems(items, wanted), NormalItems(wanted, wanted));
  }

  lemma DifferingIsEmptyIff(a: Normal, b: Normal)
    ensures Differing(a, b) == map[] <==> a == b
  {
    var d := Differing(a, b);
    if d == map[] {
      assert forall f :: f in MANAGED_FIELDS ==> f !in d;
      assert Name in MANAGED_FIELDS && Environment in MANAGED_FIELDS && ActionMatch in MANAGED_FIELDS && FilterMatch in MANAGED_FIELDS;
      assert Frequency in MANAGED_FIELDS && Conditions in MANAGED_FIELDS && Filters in MANAGED_FIELDS && Actions in MANAGED_FIELDS;
    }
  }

  /** What an item is compared by: the wanted keys at its position, all of them past the wanted items, never a display key. */
  lemma ComparedItem(items: seq<Item>, wanted: seq<Item>, i: nat, k: string)
    requires i < |items|
    ensures var compared := NormalItems(items, wanted)[i];
      && (k in compared <==> k in items[i] && k != "name" && k != "label" && (i < |wanted| ==> k in wanted[i]))
      && (k in compared ==> compared[k] == if items[i][k] == Null then None else Some(PyStr(items[i][k])))
  {
    hide PyStr;
  }

  /** The texts of the values Sentry may turn into strings. */
  lemma TextOf(n: int, t: string)
    requires n >= 0
    ensures PyStr(Str(t)) == t && PyStr(Num(n)) == Print(n) && (n > 0 ==> PyStr(Num(-n)) == "-" + Print(n))
    ensures PyStr(Bool(true)) == "True" && PyStr(Bool(false)) == "False" && PyStr(Null) == "None"
  {
  }

  /** A frequency reads the same as a number and as its numeral. */
  lemma FrequencyRead(n: int)
    requires n >= 0
    ensures ReadInt(Num(n)) == ReadInt(Str(Print(n))) == Ok(Some(n)) && ReadInt(Num(-n)) == Ok(Some(-n))
    ensures ReadInt(Null) == Ok(None) && ReadInt(Bool(true)) == Ok(Some(1)) && ReadInt(Bool(false)) == Ok(Some(0))
  {
    ValueOfPrint(n);
    var t := Print(n);
    assert IsDigit(t[0]) && IsDigit(t[|t| - 1]);
    TrimKeepsUnspaced(t);
    hide Print, Value, Trim;
  }

  lemma NegativeFrequencyRead(n: int)
    requires n >= 0
    ensures ReadInt(Str("-" + Print(n))) == Ok(Some(-n))
  {
    ValueOfPrint(n);
    var t := "-" + Print(n);
    assert t[|t| - 1] == Print(n)[|Print(n)| - 1];
    assert t[1..] == Print(n);
    TrimKeepsUnspaced(t);
    NegativeNumeral(t);
    hide *;
  }

  lemma NegativeNumeral(t: string)
    requires t != "" && Trim(t) == t && t[0] == '-' && t[1..] != "" && AllDigits(t[1..])
    ensures ReadInt(Str(t)) == Ok(Some(-(Value(t[1..]) as int)))
  {
    assert "+-"[1] == '-';
    hide Trim, Value, AllDigits;
  }

  /** The diff's entries, field by field: there exactly when the two values differ, with the current one first. */
  lemma DiffMeans(leq: ItemOrder, cur: Fields, want: Fields)
    requires DiffRule(leq, cur, want).Ok?
    ensures ReadInt(cur.frequency).Ok? && ReadInt(want.frequency).Ok?
    ensures var d := DiffRule(leq, cur, want).value;
      && (Name in d <==> cur.name != want.name) && (Name in d ==> d[Name] == (Scalar(cur.name), Scalar(want.name)))
      && (Environment in d <==> cur.environment != want.environment)
      && (Environment in d ==> d[Environment] == (Scalar(cur.environment), Scalar(want.environment)))
      && (ActionMatch in d <==> cur.actionMatch != want.actionMatch)
      && (ActionMatch in d ==> d[ActionMatch] == (Scalar(cur.actionMatch), Scalar(want.actionMatch)))
      && (FilterMatch in d <==> cur.filterMatch != want.filterMatch)
      && (FilterMatch in d ==> d[FilterMatch] == (Scalar(cur.filterMatch), Scalar(want.filterMatch)))
      && (Frequency in d <==> ReadInt(cur.frequency) != ReadInt(want.frequency))
      && (Frequency in d ==> d[Frequency] == (Whole(ReadInt(cur.frequency).value), Whole(ReadInt(want.frequency).value)))
  {
    hide ReadInt, SortBy, NormalItems;
  }

  /** The item lists of a diff, sorted. */
  lemma DiffItemsMean(leq: ItemOrder, cur: Fields, want: Fields)
    requires DiffRule(leq, cur, want).Ok?
    ensures var d := DiffRule(leq, cur, want).value;
      && (Conditions in d ==> d[Conditions] == (Items(SortBy(leq, NormalItems(cur.conditions, want.conditions))),
                                                Items(SortBy(leq, NormalItems(want.conditions, want.conditions)))))
      && (Filters in d ==> d[Filters] == (Items(SortBy(leq, NormalItems(cur.filters, want.filters))),
                                          Items(SortBy(leq, NormalItems(want.filters, want.filters)))))
      && (Actions in d ==> d[Actions] == (Items(SortBy(leq, NormalItems(cur.actions, want.actions))),
                                          Items(SortBy(leq, NormalItems(want.actions, want.actions)))))
  {
    DiffIs(leq, cur, want);
    hide *;
    var (a, b) := (Normalize(leq, cur, want).value, Normalize(leq, want, want).value);
    ItemEntries(a, b);
  }

  lemma ItemEntries(a: Normal, b: Normal)
    ensures var d := Differing(a, b);
      && (Conditions in d ==> d[Conditions] == (Items(a.conditions), Items(b.conditions)))
      && (Filters in d ==> d[Filters] == (Items(a.filters), Items(b.filters)))
      && (Actions in d ==> d[Actions] == (Items(a.actions), Items(b.actions)))
  {
  }

  lemma DiffIs(leq: ItemOrder, cur: Fields, want: Fields)
    requires DiffRule(leq, cur, want).Ok?
    ensures Normalize(leq, cur, want).Ok? && Normalize(leq, want, want).Ok?
    ensures DiffRule(leq, cur, want).value == Differing(Normalize(leq, cur, want).value, Normalize(leq, want, want).value)
    ensures var n := Normalize(leq, cur, want).value;
      && n.conditions == SortBy(leq, NormalItems(cur.conditions, want.conditions))
      && n.filters == SortBy(leq, NormalItems(cur.filters, want.filters))
      && n.actions == SortBy(leq, NormalItems(cur.actions, want.actions))
    ensures var n := Normalize(leq, want, want).value;
      && n.conditions == SortBy(leq, NormalItems(want.conditions, want.conditions))
      && n.filters == SortBy(leq, NormalItems(want.filters, want.filters))
      && n.actions == SortBy(leq, NormalItems(want.actions, want.actions))
  {
    hide SortBy, NormalItems, ReadInt, Differing;
  }

  // ----- what the server may do to a payload -----

  /** Every key sent comes back, unchanged or as a string; the server adds and relabels as it likes. */
  ghost predicate EchoesItem(echo: Item, sent: Item) {
    forall k :: k in sent && k !in DISPLAY_KEYS ==>
      k in echo && (echo[k] == sent[k] || (!sent[k].Null? && echo[k] == Str(PyStr(sent[k]))))
  }

  /** Items come back in the order they were sent. */
  ghost predicate EchoesItems(echo: seq<Item>, sent: seq<Item>) {
    |echo| == |sent| && forall i :: 0 <= i < |sent| ==> EchoesItem(echo[i], sent[i])
  }

  ghost predicate EchoesFields(echo: Fields, sent: Fields) {
    && echo.name == sent.name
    && echo.environment == sent.environment
    && echo.actionMatch == sent.actionMatch
    && echo.filterMatch == sent.filterMatch
    && ReadInt(echo.frequency) == ReadInt(sent.frequency)
    && EchoesItems(echo.conditions, sent.conditions)
    && EchoesItems(echo.filters, sent.filters)
    && EchoesItems(echo.actions, sent.actions)
  }

  lemma EchoNormalizesSame(echo: seq<Item>, sent: seq<Item>)
    requires EchoesItems(echo, sent)
    ensures NormalItems(echo, sent) == NormalItems(sent, sent)
  {
    forall i | 0 <= i < |sent|
      ensures NormalizeItem(Kept(echo[i], sent, i)) == NormalizeItem(Kept(sent[i], sent, i))
    {
      assert EchoesItem(echo[i], sent[i]);
    }
  }

  /** A rule the server echoes is not planned for an update again. */
  lemma EchoIsAccepted(leq: ItemOrder, echo: Fields, rule: AlertRule)
    requires EchoesFields(echo, Payload(rule))
    ensures DiffRule(leq, echo, Payload(rule)) == Ok(map[])
  {
    var sent := Payload(rule);
    EchoNormalizesSame(echo.conditions, sent.conditions);
    EchoNormalizesSame(echo.filters, sent.filters);
    EchoNormalizesSame(echo.actions, sent.actions);
    hide NormalItems, SortBy, Differing;
    assert Normalize(leq, echo, sent) == Normalize(leq, sent, sent);
    DifferingIsEmptyIff(Normalize(leq, sent, sent).value, Normalize(leq, sent, sent).value);
  }

  function ComparedKeys(item: Item): set<string> {
    item.Keys - DISPLAY_KEYS
  }

  /**
   * Sorting forgives a reordered answer only between items with the same compared keys: keys are kept by position
   * before the sort, so items that come back in any other order agree with what was sent exactly when at every
   * position the compared keys are those of the item sent there.
   */
  lemma ReorderedItemsAgreeIff(items: seq<Item>, wanted: seq<Item>)
    requires multiset(items) == multiset(wanted)
    ensures |items| == |wanted|
    ensures SameItems(items, wanted) <==> forall i :: 0 <= i < |items| ==> ComparedKeys(items[i]) == ComparedKeys(wanted[i])
  {
    ReorderingKeepsLength(items, wanted);
    hide NormalizeItem, Kept, ComparedKeys;
    if SameItems(items, wanted) {
      AgreeingKeysCount(items, wanted);
    }
    if forall i :: 0 <= i < |items| ==> ComparedKeys(items[i]) == ComparedKeys(wanted[i]) {
      SameKeysKeepForms(items, wanted);
      hide NormalItems;
      MapKeepsReordering(NormalizeItem, items, wanted);
    }
  }

  /** Where every position has the wanted keys, nothing is cut off before the sort. */
  lemma SameKeysKeepForms(items: seq<Item>, wanted: seq<Item>)
    requires |items| == |wanted| && forall i :: 0 <= i < |items| ==> ComparedKeys(items[i]) == ComparedKeys(wanted[i])
    ensures NormalItems(items, wanted) == Mapped(NormalizeItem, items)
    ensures NormalItems(wanted, wanted) == Mapped(NormalizeItem, wanted)
  {
    hide NormalizeItem, ComparedKeys;
    forall i | 0 <= i < |items|
      ensures NormalizeItem(Kept(items[i], wanted, i)) == NormalizeItem(items[i])
      ensures NormalizeItem(Kept(wanted[i], wanted, i)) == NormalizeItem(wanted[i])
    {
      RestrictedKeepsItem(items[i], wanted[i]);
      RestrictedKeepsItem(wanted[i], wanted[i]);
    }
  }

  function KeyCount(item: NormalItem): nat {
    |item.Keys|
  }

  function ComparedCount(item: Item): nat {
    |ComparedKeys(item)|
  }

  /** Agreement leaves no room: the kept keys are counted by both sides, so nothing is cut off and nothing is extra. */
  lemma AgreeingKeysCount(items: seq<Item>, wanted: seq<Item>)
    requires multiset(items) == multiset(wanted) && |items| == |wanted| && SameItems(items, wanted)
    ensures forall i :: 0 <= i < |items| ==> ComparedKeys(items[i]) == ComparedKeys(wanted[i])
  {
    hide NormalizeItem, Kept, ComparedKeys;
    var kept, sent := Mapped(KeyCount, NormalItems(items, wanted)), Mapped(ComparedCount, wanted);
    var got := Mapped(ComparedCount, items);
    MapKeepsReordering(KeyCount, NormalItems(items, wanted), NormalItems(wanted, wanted));
    SumKeepsReordering(kept, Mapped(KeyCount, NormalItems(wanted, wanted)));
    MapKeepsReordering(ComparedCount, items, wanted);
    SumKeepsReordering(got, sent);
    KeptKeys(items, wanted);
    KeptKeys(wanted, wanted);
    forall i | 0 <= i < |items|
      ensures kept[i] <= sent[i] && kept[i] <= got[i]
      ensures kept[i] == sent[i] == got[i] ==> ComparedKeys(items[i]) == ComparedKeys(wanted[i])
    {
      CommonKeysCount(ComparedKeys(items[i]), ComparedKeys(wanted[i]));
    }
    assert Mapped(KeyCount, NormalItems(wanted, wanted)) == sent by {
      forall i | 0 <= i < |wanted|
        ensures KeyCount(NormalItems(wanted, wanted)[i]) == ComparedCount(wanted[i])
      {
        assert ComparedKeys(wanted[i]) * ComparedKeys(wanted[i]) == ComparedKeys(wanted[i]);
      }
    }
    hide NormalItems, KeyCount, ComparedCount;
    SumIsTermwise(kept, sent);
    SumIsTermwise(kept, got);
  }

  lemma KeptKeys(items: seq<Item>, wanted: seq<Item>)
    requires |items| == |wanted|
    ensures forall i :: 0 <= i < |items| ==> NormalItems(items, wanted)[i].Keys == ComparedKeys(items[i]) * ComparedKeys(wanted[i])
  {
    hide NormalizeItem, ComparedKeys;
    forall i | 0 <= i < |items|
      ensures NormalizeItem(Kept(items[i], wanted, i)).Keys == ComparedKeys(items[i]) * ComparedKeys(wanted[i])
    {
      RestrictedKeys(items[i], wanted[i]);
    }
  }

  lemma CommonKeysCount(a: set<string>, b: set<string>)
    ensures |a * b| <= |a| && |a * b| <= |b|
    ensures |a * b| == |a| == |b| ==> a == b
  {
    SubsetCount(a * b, a);
    SubsetCount(a * b, b);
  }

  lemma SubsetCount(a: set<string>, b: set<string>)
    requires a <= b
    ensures |a| <= |b| && (|a| == |b| ==> a == b)
  {
    assert b == a + (b - a);
    assert |b| == |a| + |b - a|;
  }

  lemma NormalKeys(item: Item)
    ensures NormalizeItem(item).Keys == ComparedKeys(item)
  {
  }

  lemma RestrictedKeys(item: Item, other: Item)
    ensures NormalizeItem(Restricted(item, other.Keys)).Keys == ComparedKeys(item) * ComparedKeys(other)
  {
    NormalKeys(Restricted(item, other.Keys));
  }

  lemma RestrictedKeepsItem(item: Item, other: Item)
    requires ComparedKeys(item) == ComparedKeys(other)
    ensures NormalizeItem(Restricted(item, other.Keys)) == NormalizeItem(item)
  {
    assert forall k :: k in item && k !in DISPLAY_KEYS ==> k in ComparedKeys(other);
  }

  // ----- one stored change -----

  /** Within a project no two rules share an id, and none is empty. */
  ghost predicate WellFormed(rules: seq<Stored>) {
    && (forall i, j :: 0 <= i < j < |rules| ==> rules[i].id != rules[j].id)
    && (forall i :: 0 <= i < |rules| ==> rules[i].id != "")
  }

  ghost predicate ServerOk(server: Server) {
    forall p :: WellFormed(Listing(server, p))
  }

  ghost predicate HasId(rules: seq<Stored>, id: string) {
    exists i :: 0 <= i < |rules| && rules[i].id == id
  }

  /** The server's echo of one write: the payload comes back, and a created rule gets a new id. */
  ghost predicate EchoFits(server: Server, c: Change, e: Echo) {
    && EchoesFields(e.fields, c.payload)
    && (c.action.Create? ==> e.id != "" && !HasId(Listing(server, c.project), e.id))
  }

  function Current(server: Server, project: string, name: string): Option<Stored> {
    FirstNamed(Listing(server, project), name)
  }

  /** A planned change as the plan leaves it: creates have no current rule, the others carry its id. */
  predicate Planned(server: Server, c: Change) {
    && c.payload.name == Str(c.name)
    && (c.action.Create? <==> Current(server, c.project, c.name).None?)
    && (!c.action.Create? ==> c.ruleId == Some(Current(server, c.project, c.name).value.id))
  }

  lemma {:induction false} FirstNamedIsListed(rules: seq<Stored>, name: string)
    ensures FirstNamed(rules, name).Some? ==> FirstNamed(rules, name).value in rules && NameOf(FirstNamed(rules, name).value) == name
  {
    if rules != [] {
      FirstNamedIsListed(rules[..|rules| - 1], name);
    }
  }

  /** Replacing a rule by one of the same name keeps who comes first under each name. */
  lemma {:induction false} FirstNamedReplaced(rules: seq<Stored>, id: string, fields: Fields, name: string)
    requires forall i :: 0 <= i < |rules| && rules[i].id == id ==> NameOf(rules[i]) == NameOf(Stored(id, fields))
    ensures var first := FirstNamed(rules, name);
      FirstNamed(Replaced(rules, id, fields), name)
      == if first.Some? && first.value.id == id then Some(Stored(id, fields)) else first
  {
    hide NameOf;
    if rules != [] {
      var n := |rules| - 1;
      assert Replaced(rules, id, fields)[..n] == Replaced(rules[..n], id, fields);
      FirstNamedReplaced(rules[..n], id, fields, name);
    }
  }

  lemma FirstNamedAppended(rules: seq<Stored>, s: Stored, name: string)
    ensures FirstNamed(rules + [s], name)
         == if FirstNamed(rules, name).None? && NameOf(s) == name then Some(s) else FirstNamed(rules, name)
  {
    assert (rules + [s])[..|rules|] == rules;
  }

  /** What a change leaves under its own name: a created rule stands there only if nothing stood there before it. */
  function Landing(before: Option<Stored>, c: Change, e: Echo): Option<Stored> {
    if !Writes(c) then before
    else if c.action.Update? then Some(Stored(c.ruleId.value, e.fields))
    else if before.Some? then before
    else Some(Stored(e.id, e.fields))
  }

  /** A change that an apply can come to: an update still addresses the rule its name stands for. */
  predicate Addressed(server: Server, c: Change) {
    && c.payload.name == Str(c.name)
    && (c.action.Update? ==>
          Current(server, c.project, c.name).Some? && c.ruleId == Some(Current(server, c.project, c.name).value.id))
  }

  /** A stored change settles what its name stands for and touches no other name. */
  lemma StepChangesOneName(server: Server, c: Change, e: Echo)
    requires ServerOk(server) && Addressed(server, c) && (Writes(c) ==> EchoFits(server, c, e))
    ensures ServerOk(ApplyChange(server, c, e))
    ensures forall p, n ::
      Current(ApplyChange(server, c, e), p, n)
      == if p == c.project && n == c.name then Landing(Current(server, p, n), c, e) else Current(server, p, n)
  {
    var (rules, after) := (Listing(server, c.project), ApplyChange(server, c, e));
    hide FirstNamed, EchoesFields;
    FirstNamedIsListed(rules, c.name);
    assert WellFormed(rules);
    if Writes(c) {
      assert EchoesFields(e.fields, c.payload);
      EchoKeepsName(e.fields, c);
      forall p | p != c.project
        ensures Listing(after, p) == Listing(server, p)
      {
      }
      if c.action.Create? {
        CreateKeepsOthers(rules, Stored(e.id, e.fields));
      } else {
        UpdateKeepsOthers(server, c, e);
      }
      assert WellFormed(Listing(after, c.project));
      forall p ensures WellFormed(Listing(after, p)) {
        if p != c.project { assert WellFormed(Listing(server, p)); }
      }
    }
  }

  lemma EchoKeepsName(echo: Fields, c: Change)
    requires EchoesFields(echo, c.payload) && c.payload.name == Str(c.name)
    ensures forall id :: NameOf(Stored(id, echo)) == c.name
  {
  }

  lemma CreateKeepsOthers(rules: seq<Stored>, s: Stored)
    requires WellFormed(rules) && s.id != "" && !HasId(rules, s.id)
    ensures WellFormed(rules + [s])
    ensures forall n ::
      FirstNamed(rules + [s], n) == if n == NameOf(s) && FirstNamed(rules, n).None? then Some(s) else FirstNamed(rules, n)
  {
    forall n
      ensures FirstNamed(rules + [s], n) == if n == NameOf(s) && FirstNamed(rules, n).None? then Some(s) else FirstNamed(rules, n)
    {
      FirstNamedAppended(rules, s, n);
    }
  }

  lemma UpdateKeepsOthers(server: Server, c: Change, e: Echo)
    requires c.action.Update? && Writes(c) && NameOf(Stored(c.ruleId.value, e.fields)) == c.name
    requires WellFormed(Listing(server, c.project))
    requires Current(server, c.project, c.name).Some? && Current(server, c.project, c.name).value.id == c.ruleId.value
    ensures var rules := Listing(ApplyChange(server, c, e), c.project);
      && WellFormed(rules)
      && forall n :: FirstNamed(rules, n) == if n == c.name then Some(Stored(c.ruleId.value, e.fields)) else Current(server, c.project, n)
  {
    var (rules, id) := (Listing(server, c.project), c.ruleId.value);
    FirstNamedIsListed(rules, c.name);
    hide NameOf, FirstNamed;
    var i :| 0 <= i < |rules| && rules[i] == FirstNamed(rules, c.name).value;
    forall n
      ensures FirstNamed(Replaced(rules, id, e.fields), n) == if n == c.name then Some(Stored(id, e.fields)) else FirstNamed(rules, n)
    {
      FirstNamedReplaced(rules, id, e.fields, n);
      FirstNamedIsListed(rules, n);
    }
  }

  // ----- a whole plan -----

  /** No project has two declared rules of one name. */
  ghost predicate DistinctNames(rules: seq<AlertRule>) {
    forall i, j :: 0 <= i < j < |rules| ==> rules[i].project != rules[j].project || rules[i].name != rules[j].name
  }

  lemma {:induction false} PlanIsPointwise(leq: ItemOrder, server: Server, rules: seq<AlertRule>)
    ensures PlanRules(leq, server, rules).Ok?
      <==> forall j :: 0 <= j < |rules| ==> PlanRule(leq, Listing(server, rules[j].project), rules[j]).Ok?
    ensures var plan := PlanRules(leq, server, rules);
      plan.Ok? ==>
        && |plan.value| == |rules|
        && forall j :: 0 <= j < |rules| ==> PlanRule(leq, Listing(server, rules[j].project), rules[j]) == Ok(plan.value[j])
  {
    hide PlanRule, Listing;
    if rules != [] {
      PlanIsPointwise(leq, server, rules[..|rules| - 1]);
    }
  }

  lemma PlanRuleIsPlanned(leq: ItemOrder, server: Server, r: AlertRule)
    requires PlanRule(leq, Listing(server, r.project), r).Ok?
    ensures var c := PlanRule(leq, Listing(server, r.project), r).value;
      && Planned(server, c) && c.project == r.project && c.name == r.name && c.payload == Payload(r)
      && (c.action.Noop? ==> DiffRule(leq, Current(server, r.project, r.name).value.fields, Payload(r)) == Ok(map[]))
  {
    hide DiffRule, FirstNamed;
  }

  /** The server's echoes of a plan's writes, each judged in the state its write finds. */
  ghost predicate EchoesFit(server: Server, changes: seq<Change>, echoes: seq<Echo>)
    requires |changes| == |echoes|
  {
    forall j :: 0 <= j < |changes| && Writes(changes[j]) ==>
      EchoFits(AppliedUpTo(server, changes, echoes, j), changes[j], echoes[j])
  }

  /** The rule a name stands for once the first `k` changes are stored, from what it stood for and the changes alone. */
  function Standing(server: Server, changes: seq<Change>, echoes: seq<Echo>, k: nat, p: string, n: string): Option<Stored>
    requires k <= |changes| == |echoes|
  {
    if k == 0 then Current(server, p, n) else
    var (before, c) := (Standing(server, changes, echoes, k - 1, p, n), changes[k - 1]);
    if p == c.project && n == c.name then Landing(before, c, echoes[k - 1]) else before
  }

  /** The changes are those of a plan. */
  ghost predicate AllPlanned(server: Server, changes: seq<Change>) {
    forall c :: c in changes ==> Planned(server, c)
  }

  /** A rule that was there when the plan was made keeps its id. */
  lemma {:induction false} StandingKeepsId(server: Server, changes: seq<Change>, echoes: seq<Echo>, k: nat, p: string, n: string)
    requires k <= |changes| == |echoes| && AllPlanned(server, changes)
    ensures var (was, now) := (Current(server, p, n), Standing(server, changes, echoes, k, p, n));
      was.Some? ==> now.Some? && now.value.id == was.value.id
  {
    hide Current, Writes;
    if k > 0 {
      StandingKeepsId(server, changes, echoes, k - 1, p, n);
      assert Planned(server, changes[k - 1]);
    }
  }

  ghost predicate StandsUpTo(server: Server, now: Server, changes: seq<Change>, echoes: seq<Echo>, k: nat)
    requires k <= |changes| == |echoes|
  {
    forall p, n :: Current(now, p, n) == Standing(server, changes, echoes, k, p, n)
  }

  lemma {:induction false} StateAfter(server: Server, changes: seq<Change>, echoes: seq<Echo>, k: nat)
    requires ServerOk(server) && k <= |changes| == |echoes| && AllPlanned(server, changes) && EchoesFit(server, changes, echoes)
    ensures var now := AppliedUpTo(server, changes, echoes, k); ServerOk(now) && StandsUpTo(server, now, changes, echoes, k)
  {
    hide *;
    AppliedStep(server, changes, echoes, k);
    if k == 0 {
      NothingLanded(server, changes, echoes);
    } else {
      StateAfter(server, changes, echoes, k - 1);
      EchoOfStep(server, changes, echoes, k - 1);
      StateStep(server, AppliedUpTo(server, changes, echoes, k - 1), changes, echoes, k - 1);
    }
  }

  lemma AppliedStep(server: Server, changes: seq<Change>, echoes: seq<Echo>, k: nat)
    requires k <= |changes| == |echoes|
    ensures AppliedUpTo(server, changes, echoes, k)
         == if k == 0 then server else ApplyChange(AppliedUpTo(server, changes, echoes, k - 1), changes[k - 1], echoes[k - 1])
  {
  }

  lemma NothingLanded(server: Server, changes: seq<Change>, echoes: seq<Echo>)
    requires |changes| == |echoes|
    ensures StandsUpTo(server, server, changes, echoes, 0)
  {
  }

  lemma EchoOfStep(server: Server, changes: seq<Change>, echoes: seq<Echo>, k: nat)
    requires k < |changes| == |echoes| && EchoesFit(server, changes, echoes)
    ensures Writes(changes[k]) ==> EchoFits(AppliedUpTo(server, changes, echoes, k), changes[k], echoes[k])
  {
  }

  lemma StepIsAddressed(server: Server, before: Server, changes: seq<Change>, echoes: seq<Echo>, k: nat)
    requires k < |changes| == |echoes| && AllPlanned(server, changes) && StandsUpTo(server, before, changes, echoes, k)
    ensures Addressed(before, changes[k])
  {
    var c := changes[k];
    hide Current, Standing, Writes;
    assert Planned(server, c);
    StandingKeepsId(server, changes, echoes, k, c.project, c.name);
    assert Current(before, c.project, c.name) == Standing(server, changes, echoes, k, c.project, c.name);
  }

  lemma StateStep(server: Server, before: Server, changes: seq<Change>, echoes: seq<Echo>, k: nat)
    requires k < |changes| == |echoes| && AllPlanned(server, changes)
    requires ServerOk(before) && StandsUpTo(server, before, changes, echoes, k)
    requires Writes(changes[k]) ==> EchoFits(before, changes[k], echoes[k])
    ensures var now := ApplyChange(before, changes[k], echoes[k]);
      ServerOk(now) && StandsUpTo(server, now, changes, echoes, k + 1)
  {
    hide Current, EchoFits, ApplyChange, ServerOk, Landing, Addressed, Planned, AllPlanned, Writes;
    StepIsAddressed(server, before, changes, echoes, k);
    StepChangesOneName(before, changes[k], echoes[k]);
  }

  /** The changes name the declared rules one by one. */
  ghost predicate NamesMatch(rules: seq<AlertRule>, changes: seq<Change>) {
    |rules| == |changes| && forall j :: 0 <= j < |rules| ==> changes[j].project == rules[j].project && changes[j].name == rules[j].name
  }

  /** With distinct names each stands for what its own change left, or for what it did. */
  lemma {:induction false} DistinctStanding(server: Server, rules: seq<AlertRule>, changes: seq<Change>, echoes: seq<Echo>, k: nat, j: nat)
    requires DistinctNames(rules) && NamesMatch(rules, changes) && k <= |changes| == |echoes| && j < |rules|
    ensures var (r, was) := (rules[j], Current(server, rules[j].project, rules[j].name));
      Standing(server, changes, echoes, k, r.project, r.name) == if j < k then Landing(was, changes[j], echoes[j]) else was
  {
    hide Current, Landing;
    if k > 0 {
      DistinctStanding(server, rules, changes, echoes, k - 1, j);
    }
  }

  /** A plan's changes, as the apply finds them. */
  lemma PlanIsAddressed(leq: ItemOrder, server: Server, rules: seq<AlertRule>)
    requires PlanRules(leq, server, rules).Ok?
    ensures var changes := PlanRules(leq, server, rules).value; AllPlanned(server, changes) && NamesMatch(rules, changes)
  {
    PlanIsPointwise(leq, server, rules);
    hide PlanRules, PlanRule, Planned, Listing;
    var changes := PlanRules(leq, server, rules).value;
    forall j | 0 <= j < |rules|
      ensures Planned(server, changes[j]) && changes[j].project == rules[j].project && changes[j].name == rules[j].name
    {
      PlanRuleIsPlanned(leq, server, rules[j]);
    }
  }

  /** Planning the same declared rule against what its change left behind. */
  lemma ReplanRule(leq: ItemOrder, server: Server, now: Server, r: AlertRule, e: Echo)
    requires PlanRule(leq, Listing(server, r.project), r).Ok?
    requires var c := PlanRule(leq, Listing(server, r.project), r).value;
      && (Writes(c) ==> EchoesFields(e.fields, Payload(r)))
      && (c.action.Update? ==> Writes(c))
      && Current(now, r.project, r.name) == Landing(Current(server, r.project, r.name), c, e)
    ensures var again := PlanRule(leq, Listing(now, r.project), r); again.Ok? && again.value.action.Noop?
  {
    var c := PlanRule(leq, Listing(server, r.project), r).value;
    PlanRuleIsPlanned(leq, server, r);
    hide DiffRule, EchoesFields;
    if !c.action.Noop? {
      EchoIsAccepted(leq, e.fields, r);
    }
  }

  /** A replanned list after `k` stored changes: those are settled, the rest are still to do. */
  ghost predicate SettledUpTo(changes: seq<Change>, again: Result<seq<Change>>, k: nat) {
    && again.Ok?
    && |again.value| == |changes|
    && forall j :: 0 <= j < |changes| ==> if j < k then again.value[j].action.Noop? else again.value[j] == changes[j]
  }

  lemma ReplanAfterPrefix(leq: ItemOrder, server: Server, rules: seq<AlertRule>, echoes: seq<Echo>, k: nat)
    requires ServerOk(server) && DistinctNames(rules) && PlanRules(leq, server, rules).Ok?
    requires k <= |rules| == |PlanRules(leq, server, rules).value| == |echoes|
    requires EchoesFit(server, PlanRules(leq, server, rules).value, echoes)
    ensures var changes := PlanRules(leq, server, rules).value;
      var now := AppliedUpTo(server, changes, echoes, k);
      ServerOk(now) && SettledUpTo(changes, PlanRules(leq, now, rules), k)
  {
    var changes := PlanRules(leq, server, rules).value;
    var now := AppliedUpTo(server, changes, echoes, k);
    PlanIsAddressed(leq, server, rules);
    StateAfter(server, changes, echoes, k);
    PlanIsPointwise(leq, server, rules);
    hide PlanRules, PlanRule, AppliedUpTo, Landing, Standing, Current, ServerOk, EchoesFit, DistinctNames, NamesMatch, AllPlanned, Listing;
    forall j | 0 <= j < |rules|
      ensures Replans(leq, now, rules[j], changes[j], j < k)
    {
      DistinctStanding(server, rules, changes, echoes, k, j);
      ReplanOne(leq, server, now, rules, echoes, k, j);
    }
    ReplansMeanSettled(leq, now, rules, changes, k);
  }

  /** One declared rule planned again: settled, or exactly as before. */
  ghost predicate Replans(leq: ItemOrder, now: Server, r: AlertRule, c: Change, settled: bool) {
    var again := PlanRule(leq, Listing(now, r.project), r);
    again.Ok? && if settled then again.value.action.Noop? else again.value == c
  }

  lemma ReplansMeanSettled(leq: ItemOrder, now: Server, rules: seq<AlertRule>, changes: seq<Change>, k: nat)
    requires |rules| == |changes| && forall j :: 0 <= j < |rules| ==> Replans(leq, now, rules[j], changes[j], j < k)
    ensures SettledUpTo(changes, PlanRules(leq, now, rules), k)
  {
    PlanIsPointwise(leq, now, rules);
    hide PlanRules, PlanRule, Listing;
  }

  lemma ReplanOne(leq: ItemOrder, server: Server, now: Server, rules: seq<AlertRule>, echoes: seq<Echo>, k: nat, j: nat)
    requires ServerOk(server) && PlanRules(leq, server, rules).Ok? && j < |rules| == |PlanRules(leq, server, rules).value| == |echoes|
    requires EchoesFit(server, PlanRules(leq, server, rules).value, echoes)
    requires var r := rules[j];
      Current(now, r.project, r.name)
      == if j < k then Landing(Current(server, r.project, r.name), PlanRules(leq, server, rules).value[j], echoes[j])
         else Current(server, r.project, r.name)
    ensures Replans(leq, now, rules[j], PlanRules(leq, server, rules).value[j], j < k)
  {
    var (changes, r) := (PlanRules(leq, server, rules).value, rules[j]);
    PlanIsPointwise(leq, server, rules);
    PlanRuleIsPlanned(leq, server, r);
    hide PlanRules, AppliedUpTo, DiffRule, EchoesFields;
    if j < k {
      FirstNamedIsListed(Listing(server, r.project), r.name);
      assert WellFormed(Listing(server, r.project));
      hide FirstNamed;
      assert changes[j].action.Update? ==> Writes(changes[j]);
      assert Writes(changes[j]) ==> EchoFits(AppliedUpTo(server, changes, echoes, j), changes[j], echoes[j]);
      hide PlanRule;
      ReplanRule(leq, server, now, r, echoes[j]);
    }
  }

  // ----- the declared list as `plan` goes through it -----

  lemma {:induction false} ProjectsAreDistinct(rules: seq<AlertRule>)
    ensures NoDuplicates(Projects(rules))
    ensures forall p :: p in Projects(rules) <==> exists r :: r in rules && r.project == p
  {
    if rules != [] {
      var n := |rules| - 1;
      assert rules == rules[..n] + [rules[n]];
      ProjectsAreDistinct(rules[..n]);
      forall p
        ensures p in Projects(rules) <==> exists r :: r in rules && r.project == p
      {
        if p in Projects(rules) && p != rules[n].project {
          var r :| r in rules[..n] && r.project == p;
          assert r in rules;
        } else if p in Projects(rules) {
          assert rules[n] in rules;
        }
      }
    }
  }

  lemma {:induction false} OfProjectKeepsDistinct(rules: seq<AlertRule>, project: string)
    requires DistinctNames(rules)
    ensures DistinctNames(OfProject(rules, project))
  {
    if rules != [] {
      var n := |rules| - 1;
      OfProjectKeepsDistinct(rules[..n], project);
      OfProjectMembers(rules[..n], project);
    }
  }

  lemma {:induction false} GroupedMembers(rules: seq<AlertRule>, projects: seq<string>)
    ensures forall r :: r in Grouped(rules, projects) <==> r in rules && r.project in projects
  {
    if projects != [] {
      var n := |projects| - 1;
      GroupedMembers(rules, projects[..n]);
      OfProjectMembers(rules, projects[n]);
    }
  }

  lemma {:induction false} GroupedKeepsDistinct(rules: seq<AlertRule>, projects: seq<string>)
    requires DistinctNames(rules) && NoDuplicates(projects)
    ensures DistinctNames(Grouped(rules, projects))
  {
    if projects != [] {
      var n := |projects| - 1;
      GroupedKeepsDistinct(rules, projects[..n]);
      GroupedMembers(rules, projects[..n]);
      OfProjectKeepsDistinct(rules, projects[n]);
      OfProjectMembers(rules, projects[n]);
      var a: seq<AlertRule>, b := Grouped(rules, projects[..n]), OfProject(rules, projects[n]);
      forall i, j | 0 <= i < |a| && 0 <= j < |b|
        ensures a[i].project != b[j].project
      {
        assert a[i] in a && b[j] in b;
      }
    }
  }

  /** Plan order loses and invents no rule, and keeps names distinct. */
  lemma PlanOrder(rules: seq<AlertRule>)
    ensures forall r :: r in InPlanOrder(rules) <==> r in rules
    ensures DistinctNames(rules) ==> DistinctNames(InPlanOrder(rules))
  {
    ProjectsAreDistinct(rules);
    GroupedMembers(rules, Projects(rules));
    if DistinctNames(rules) {
      GroupedKeepsDistinct(rules, Projects(rules));
    }
  }

  // ----- main results -----

  /** A plan, the server's replies to it, and what ends up stored. */
  ghost predicate Run(leq: ItemOrder, server: Server, rules: seq<AlertRule>, replies: seq<Reply>) {
    && ServerOk(server)
    && Plan(leq, server, rules).Ok?
    && |Plan(leq, server, rules).value| == |replies|
    && EchoesFit(server, Plan(leq, server, rules).value, Echoes(replies))
  }

  function ServerAfter(leq: ItemOrder, server: Server, rules: seq<AlertRule>, replies: seq<Reply>): Server
    requires Plan(leq, server, rules).Ok? && |Plan(leq, server, rules).value| == |replies|
  {
    var changes := Plan(leq, server, rules).value;
    AppliedUpTo(server, changes, Echoes(replies), StoredCount(changes, replies, 0))
  }

  /**
   * Reconciliation converges. With no name declared twice for a project, and a server that keeps item order and
   * echoes payloads with extra or stringified values, planning after an apply finds every stored change settled and
   * every other change exactly as planned before. So a completed apply leaves only no-ops, and one cut short by a
   * failure, stored or not, leaves just the rest to do.
   */
  lemma ApplyConverges(leq: ItemOrder, server: Server, rules: seq<AlertRule>, replies: seq<Reply>)
    requires DistinctNames(rules) && Run(leq, server, rules, replies)
    ensures var changes := Plan(leq, server, rules).value;
      var after := ServerAfter(leq, server, rules, replies);
      ServerOk(after) && SettledUpTo(changes, Plan(leq, after, rules), StoredCount(changes, replies, 0))
  {
    var declared := InPlanOrder(rules);
    PlanOrder(rules);
    PlanIsPointwise(leq, server, declared);
    hide InPlanOrder, PlanRules, PlanRule, AppliedUpTo, DistinctNames, StoredCount;
    ReplanAfterPrefix(leq, server, declared, Echoes(replies), StoredCount(Plan(leq, server, rules).value, replies, 0));
  }

  /** The one rule a declared name manages: the first listed under it. */
  ghost predicate Managed(server: Server, rules: seq<AlertRule>, project: string, s: Stored) {
    Declares(rules, project, NameOf(s)) && Current(server, project, NameOf(s)) == Some(s)
  }

  /** `now` keeps every listed rule in place, unmanaged ones untouched, and adds only rules of declared names. */
  ghost predicate OnlyManagedChange(server: Server, rules: seq<AlertRule>, now: Server) {
    forall p :: ListingKept(server, rules, p, Listing(now, p))
  }

  ghost predicate ListingKept(server: Server, rules: seq<AlertRule>, p: string, now: seq<Stored>) {
    var was := Listing(server, p);
    && |was| <= |now|
    && (forall i :: 0 <= i < |was| ==> now[i].id == was[i].id && (!Managed(server, rules, p, was[i]) ==> now[i] == was[i]))
    && (forall i :: |was| <= i < |now| ==> Declares(rules, p, NameOf(now[i])) && !HasId(was, now[i].id))
  }

  /**
   * An apply, however it ends and whatever the declared list, changes no rule with an undeclared name, none that
   * merely shares a declared name with an earlier one, none of another project, and removes none.
   */
  lemma UnmanagedIsUntouched(leq: ItemOrder, server: Server, rules: seq<AlertRule>, replies: seq<Reply>)
    requires Run(leq, server, rules, replies)
    ensures OnlyManagedChange(server, rules, ServerAfter(leq, server, rules, replies))
  {
    var changes := Plan(leq, server, rules).value;
    PlanOrder(rules);
    PlanIsPointwise(leq, server, InPlanOrder(rules));
    forall j | 0 <= j < |changes|
      ensures Planned(server, changes[j]) && Declares(rules, changes[j].project, changes[j].name)
    {
      var r := InPlanOrder(rules)[j];
      assert r in InPlanOrder(rules);
      PlanRuleIsPlanned(leq, server, r);
    }
    hide InPlanOrder, PlanRules, PlanRule, FirstNamed, Declares;
    PrefixKeepsUnmanaged(server, rules, changes, Echoes(replies), StoredCount(changes, replies, 0));
  }

  lemma {:induction false} PrefixKeepsUnmanaged(server: Server, rules: seq<AlertRule>, changes: seq<Change>, echoes: seq<Echo>, k: nat)
    requires ServerOk(server) && k <= |changes| == |echoes| && EchoesFit(server, changes, echoes)
    requires forall j :: 0 <= j < |changes| ==> Planned(server, changes[j]) && Declares(rules, changes[j].project, changes[j].name)
    ensures OnlyManagedChange(server, rules, AppliedUpTo(server, changes, echoes, k))
  {
    hide FirstNamed, Declares, EchoFits, ApplyChange, Planned, Listing;
    if k > 0 {
      PrefixKeepsUnmanaged(server, rules, changes, echoes, k - 1);
      hide OnlyManagedChange;
      StepKeepsUnmanaged(server, rules, AppliedUpTo(server, changes, echoes, k - 1), changes[k - 1], echoes[k - 1]);
    } else {
      forall p ensures ListingKept(server, rules, p, Listing(server, p)) {
      }
    }
  }

  lemma StepKeepsUnmanaged(server: Server, rules: seq<AlertRule>, now: Server, c: Change, e: Echo)
    requires ServerOk(server) && OnlyManagedChange(server, rules, now)
    requires Planned(server, c) && Declares(rules, c.project, c.name) && (Writes(c) ==> EchoFits(now, c, e))
    ensures OnlyManagedChange(server, rules, ApplyChange(now, c, e))
  {
    hide FirstNamed, Declares, EchoesFields;
    var after := ApplyChange(now, c, e);
    forall p
      ensures ListingKept(server, rules, p, Listing(after, p))
    {
      assert ListingKept(server, rules, p, Listing(now, p));
      if Writes(c) && p == c.project {
        EchoKeepsName(e.fields, c);
        if c.action.Create? {
          CreatedIsNew(server, rules, now, c, e);
        } else {
          FirstNamedIsListed(Listing(server, p), c.name);
          ReplacedIsManaged(server, rules, Listing(now, p), c, e);
        }
      }
    }
  }

  lemma CreatedIsNew(server: Server, rules: seq<AlertRule>, now: Server, c: Change, e: Echo)
    requires ListingKept(server, rules, c.project, Listing(now, c.project))
    requires Declares(rules, c.project, c.name) && NameOf(Stored(e.id, e.fields)) == c.name
    requires !HasId(Listing(now, c.project), e.id)
    ensures ListingKept(server, rules, c.project, Listing(now, c.project) + [Stored(e.id, e.fields)])
  {
    hide FirstNamed, Declares, NameOf;
  }

  lemma ReplacedIsManaged(server: Server, rules: seq<AlertRule>, listed: seq<Stored>, c: Change, e: Echo)
    requires ListingKept(server, rules, c.project, listed) && WellFormed(Listing(server, c.project))
    requires c.ruleId.Some? && Declares(rules, c.project, c.name)
    requires var current := Current(server, c.project, c.name);
      current.Some? && current.value.id == c.ruleId.value && current.value in Listing(server, c.project) && NameOf(current.value) == c.name
    ensures ListingKept(server, rules, c.project, Replaced(listed, c.ruleId.value, e.fields))
  {
    hide FirstNamed, Declares, NameOf;
    var was := Listing(server, c.project);
    var i :| 0 <= i < |was| && was[i] == Current(server, c.project, c.name).value;
    assert Managed(server, rules, c.project, was[i]);
    assert HasId(was, c.ruleId.value);
  }

  lemma {:induction false} NamesMembers(rules: seq<Stored>)
    ensures forall n :: n in Names(rules) <==> exists s :: s in rules && NameOf(s) == n
    ensures NoDuplicates(Names(rules))
  {
    hide NameOf;
    if rules != [] {
      var n := |rules| - 1;
      assert rules == rules[..n] + [rules[n]];
      NamesMembers(rules[..n]);
    }
  }

  lemma {:induction false} UndeclaredMembers(rules: seq<AlertRule>, p: string, names: seq<string>)
    ensures forall q, n :: (q, n) in Undeclared(rules, p, names) <==> q == p && n in names && !Declares(rules, p, n)
  {
    hide Declares;
    if names != [] {
      var k := |names| - 1;
      assert names == names[..k] + [names[k]];
      UndeclaredMembers(rules, p, names[..k]);
    }
  }

  /** The unmanaged list holds exactly the listed names that nobody declares, of projects with declared rules. */
  lemma {:induction false} UnmanagedMembers(server: Server, rules: seq<AlertRule>, projects: seq<string>)
    ensures forall p, n :: (p, n) in Unmanaged(server, rules, projects) <==>
      p in projects && !Declares(rules, p, n) && exists s :: s in Listing(server, p) && NameOf(s) == n
  {
    hide Declares, NameOf, Listing, SortBy, Names, Undeclared;
    if projects != [] {
      var k := |projects| - 1;
      assert projects == projects[..k] + [projects[k]];
      UnmanagedMembers(server, rules, projects[..k]);
      var names := Names(Listing(server, projects[k]));
      NamesMembers(Listing(server, projects[k]));
      UndeclaredMembers(rules, projects[k], SortBy(StringLeq, names));
      assert forall n :: n in SortBy(StringLeq, names) <==> n in multiset(SortBy(StringLeq, names));
      assert forall n :: n in names <==> n in multiset(names);
    }
  }

  /** Within one project they are listed in the order of strings, each once. */
  lemma UndeclaredAscend(rules: seq<AlertRule>, p: string, listed: seq<Stored>)
    ensures Ascends(Undeclared(rules, p, SortBy(StringLeq, Names(listed))))
  {
    StringOrderIsTotal();
    SortIsAscending(StringLeq, Names(listed));
    NamesMembers(listed);
    ReorderingKeepsNoDuplicates(Names(listed), SortBy(StringLeq, Names(listed)));
    hide SortBy, Names, Undeclared, TotalOrder;
    FilterAscends(rules, p, SortBy(StringLeq, Names(listed)));
  }

  ghost predicate Ascends(labels: seq<(string, string)>) {
    forall i, j :: 0 <= i < j < |labels| ==> StringLess(labels[i].1, labels[j].1)
  }

  lemma {:induction false} FilterAscends(rules: seq<AlertRule>, p: string, names: seq<string>)
    requires Ascending(StringLeq, names) && NoDuplicates(names)
    ensures Ascends(Undeclared(rules, p, names))
  {
    hide Declares, StringLess;
    if names != [] {
      var n := |names| - 1;
      FilterAscends(rules, p, names[..n]);
      UndeclaredMembers(rules, p, names[..n]);
      var before := Undeclared(rules, p, names[..n]);
      forall i | 0 <= i < |before|
        ensures StringLess(before[i].1, names[n])
      {
        assert before[i] in before && before[i] == (before[i].0, before[i].1);
        var k :| 0 <= k < n && names[k] == before[i].1;
        assert StringLeq(names[k], names[n]);
      }
    }
  }
}
