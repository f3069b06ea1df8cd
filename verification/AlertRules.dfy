/**
 * Sentry issue-alert rules kept as code: the field diff between a declared rule and a stored one, the plan that
 * reconciles every declared rule, and its application to the server.
 */
module AlertRules {
  import opened Wrappers
  import opened Decimal
  import opened Reordering
  import opened Text

  datatype Json = Null | Str(text: string) | Num(number: int) | Bool(truth: bool)

  type Item = map<string, Json>

  /** The managed fields of a rule; a missing field is `Null` or an empty list. */
  datatype Fields = Fields(
    name: Json, environment: Json, actionMatch: Json, filterMatch: Json, frequency: Json,
    conditions: seq<Item>, filters: seq<Item>, actions: seq<Item>)

  datatype AlertRule = AlertRule(
    project: string, name: string, environment: Option<string>, actionMatch: string, filterMatch: string, frequency: int,
    conditions: seq<Item>, filters: seq<Item>, actions: seq<Item>)

  datatype Stored = Stored(id: string, fields: Fields)

  /** Per project, the rules in the order the server lists them. */
  type Server = map<string, seq<Stored>>

  type NormalItem = map<string, Option<string>>

  type ItemOrder = (NormalItem, NormalItem) -> bool

  datatype Normal = Normal(
    name: Json, environment: Json, actionMatch: Json, filterMatch: Json, frequency: Option<int>,
    conditions: seq<NormalItem>, filters: seq<NormalItem>, actions: seq<NormalItem>)

  datatype Field = Name | Environment | ActionMatch | FilterMatch | Frequency | Conditions | Filters | Actions

  /** The compared value of one managed field. */
  datatype FieldValue = Scalar(json: Json) | Whole(number: Option<int>) | Items(items: seq<NormalItem>)

  /** `diff_rule`'s answer: the current and the wanted value of every field that differs. */
  type FieldDiff = map<Field, (FieldValue, FieldValue)>

  datatype Action = Create | Update | Noop

  datatype Change = Change(action: Action, project: string, name: string, ruleId: Option<string>, payload: Fields, diff: FieldDiff)

  const DISPLAY_KEYS := {"name", "label"}

  // ----- the field diff -----

  /** Python's `str`. */
  function PyStr(v: Json): string {
    match v
    case Null => "None"
    case Str(text) => text
    case Num(n) => if n < 0 then "-" + Print(-n) else Print(n)
    case Bool(b) => if b then "True" else "False"
  }

  /** Python's `int` on a JSON value; `None` stays `None`. */
  function ReadInt(v: Json): Result<Option<int>> {
    match v
    case Null => Ok(None)
    case Num(n) => Ok(Some(n))
    case Bool(b) => Ok(Some(if b then 1 else 0))
    case Str(text) =>
      var t := Trim(text);
      var digits := if t != "" && t[0] in "+-" then t[1..] else t;
      if digits == "" || !AllDigits(digits) then Raised
      else
        var n: int := Value(digits);
        Ok(Some(if t[0] == '-' then -n else n))
  }

  /** `_normalize_item`. */
  function NormalizeItem(item: Item): NormalItem {
    map k | k in item && k !in DISPLAY_KEYS :: if item[k].Null? then None else Some(PyStr(item[k]))
  }

  function Restricted(item: Item, keep: set<string>): Item {
    map k | k in item && k in keep :: item[k]
  }

  /** The part of an item the comparison looks at: the keys wanted at that position, or all past the wanted ones. */
  function Kept(item: Item, wanted: seq<Item>, idx: nat): Item {
    Restricted(item, if idx < |wanted| then wanted[idx].Keys else item.Keys)
  }

  function NormalItems(items: seq<Item>, wanted: seq<Item>): (r: seq<NormalItem>)
    ensures |r| == |items|
    ensures forall i :: 0 <= i < |items| ==> r[i] == NormalizeItem(Kept(items[i], wanted, i))
  {
    seq(|items|, i requires 0 <= i < |items| => NormalizeItem(Kept(items[i], wanted, i)))
  }

  function Normalize(leq: ItemOrder, rule: Fields, desired: Fields): Result<Normal> {
    var frequency :- ReadInt(rule.frequency);
    Ok(Normal(rule.name, rule.environment, rule.actionMatch, rule.filterMatch, frequency,
              SortBy(leq, NormalItems(rule.conditions, desired.conditions)),
              SortBy(leq, NormalItems(rule.filters, desired.filters)),
              SortBy(leq, NormalItems(rule.actions, desired.actions))))
  }

  const MANAGED_FIELDS := {Name, Environment, ActionMatch, FilterMatch, Frequency, Conditions, Filters, Actions}

  function ValueOf(n: Normal, f: Field): FieldValue {
    match f
    case Name => Scalar(n.name)
    case Environment => Scalar(n.environment)
    case ActionMatch => Scalar(n.actionMatch)
    case FilterMatch => Scalar(n.filterMatch)
    case Frequency => Whole(n.frequency)
    case Conditions => Items(n.conditions)
    case Filters => Items(n.filters)
    case Actions => Items(n.actions)
  }

  function Differing(cur: Normal, want: Normal): FieldDiff {
    map f | f in MANAGED_FIELDS && ValueOf(cur, f) != ValueOf(want, f) :: (ValueOf(cur, f), ValueOf(want, f))
  }

  /** The managed fields of the stored rule that differ from the declared ones. */
  function DiffRule(leq: ItemOrder, current: Fields, desired: Fields): Result<FieldDiff> {
    var cur :- Normalize(leq, current, desired);
    var want :- Normalize(leq, desired, desired);
    Ok(Differing(cur, want))
  }

  function Payload(r: AlertRule): Fields {
    Fields(Str(r.name), if r.environment.Some? then Str(r.environment.value) else Null, Str(r.actionMatch),
           Str(r.filterMatch), Num(r.frequency), r.conditions, r.filters, r.actions)
  }

  // ----- the plan -----

  function Listing(server: Server, project: string): seq<Stored> {
    if project in server then server[project] else []
  }

  function NameOf(s: Stored): string {
    PyStr(s.fields.name)
  }

  /** The rule a name stands for: the first one listed under it. */
  function FirstNamed(rules: seq<Stored>, name: string): Option<Stored> {
    if rules == [] then None else
    var (before, last) := (FirstNamed(rules[..|rules| - 1], name), rules[|rules| - 1]);
    if before.None? && NameOf(last) == name then Some(last) else before
  }

  function PlanRule(leq: ItemOrder, rules: seq<Stored>, r: AlertRule): Result<Change> {
    var current := FirstNamed(rules, r.name);
    if current.None? then Ok(Change(Create, r.project, r.name, None, Payload(r), map[])) else
    var delta :- DiffRule(leq, current.value.fields, Payload(r));
    Ok(Change(if delta != map[] then Update else Noop, r.project, r.name, Some(current.value.id), Payload(r), delta))
  }

  function PlanRules(leq: ItemOrder, server: Server, rules: seq<AlertRule>): Result<seq<Change>> {
    if rules == [] then Ok([]) else
    var last := rules[|rules| - 1];
    var before :- PlanRules(leq, server, rules[..|rules| - 1]);
    var change :- PlanRule(leq, Listing(server, last.project), last);
    Ok(before + [change])
  }

  /** The projects with declared rules, in order of first mention. */
  function Projects(rules: seq<AlertRule>): seq<string> {
    if rules == [] then [] else
    var (before, p) := (Projects(rules[..|rules| - 1]), rules[|rules| - 1].project);
    if p in before then before else before + [p]
  }

  function OfProject(rules: seq<AlertRule>, project: string): seq<AlertRule> {
    if rules == [] then [] else
    var (before, last) := (OfProject(rules[..|rules| - 1], project), rules[|rules| - 1]);
    if last.project == project then before + [last] else before
  }

  function Grouped(rules: seq<AlertRule>, projects: seq<string>): seq<AlertRule> {
    if projects == [] then [] else
    Grouped(rules, projects[..|projects| - 1]) + OfProject(rules, projects[|projects| - 1])
  }

  /** The declared rules in the order `plan` goes through them: project by project. */
  function InPlanOrder(rules: seq<AlertRule>): seq<AlertRule> {
    Grouped(rules, Projects(rules))
  }

  function Plan(leq: ItemOrder, server: Server, rules: seq<AlertRule>): Result<seq<Change>> {
    PlanRules(leq, server, InPlanOrder(rules))
  }

  predicate Declares(rules: seq<AlertRule>, project: string, name: string) {
    exists r :: r in rules && r.project == project && r.name == name
  }

  /** The names of a listing, each once, in order of first mention. */
  function Names(rules: seq<Stored>): seq<string> {
    if rules == [] then [] else
    var (before, n) := (Names(rules[..|rules| - 1]), NameOf(rules[|rules| - 1]));
    if n in before then before else before + [n]
  }

  function Undeclared(rules: seq<AlertRule>, project: string, names: seq<string>): seq<(string, string)> {
    if names == [] then [] else
    var last := names[|names| - 1];
    Undeclared(rules, project, names[..|names| - 1]) + if Declares(rules, project, last) then [] else [(project, last)]
  }

  /** Per project, the listed names that nobody declares there, sorted. */
  function Unmanaged(server: Server, rules: seq<AlertRule>, projects: seq<string>): seq<(string, string)> {
    if projects == [] then [] else
    var last := projects[|projects| - 1];
    Unmanaged(server, rules, projects[..|projects| - 1]) + Undeclared(rules, last, SortBy(StringLeq, Names(Listing(server, last))))
  }

  // ----- applying it -----

  /** What the server stores for one write: an id for a created rule, and the rule it will list from then on. */
  datatype Echo = Echo(id: string, fields: Fields)

  /** How a write ends: `Lost` stores it but reports a failure. */
  datatype Outcome = Accepted | Refused | Lost

  datatype Reply = Reply(echo: Echo, outcome: Outcome)

  function Replaced(rules: seq<Stored>, id: string, fields: Fields): (r: seq<Stored>)
    ensures |r| == |rules|
    ensures forall i :: 0 <= i < |rules| ==> r[i] == if rules[i].id == id then Stored(id, fields) else rules[i]
  {
    seq(|rules|, i requires 0 <= i < |rules| => if rules[i].id == id then Stored(id, fields) else rules[i])
  }

  predicate Writes(c: Change) {
    c.action.Create? || (c.action.Update? && c.ruleId.Some? && c.ruleId.value != "")
  }

  function ApplyChange(server: Server, c: Change, e: Echo): Server {
    if !Writes(c) then server
    else if c.action.Create? then server[c.project := Listing(server, c.project) + [Stored(e.id, e.fields)]]
    else server[c.project := Replaced(Listing(server, c.project), c.ruleId.value, e.fields)]
  }

  /** The server once the first `k` changes are stored. */
  function AppliedUpTo(server: Server, changes: seq<Change>, echoes: seq<Echo>, k: nat): Server
    requires k <= |changes| == |echoes|
  {
    if k == 0 then server else ApplyChange(AppliedUpTo(server, changes, echoes, k - 1), changes[k - 1], echoes[k - 1])
  }

  /** How many changes get stored before the first reported failure ends the run. */
  function StoredCount(changes: seq<Change>, replies: seq<Reply>, from: nat): (k: nat)
    requires from <= |changes| == |replies|
    ensures from <= k <= |changes|
    decreases |changes| - from
  {
    if from == |changes| then from
    else if Writes(changes[from]) && replies[from].outcome.Lost? then from + 1
    else if Writes(changes[from]) && replies[from].outcome.Refused? then from
    else StoredCount(changes, replies, from + 1)
  }

  function Echoes(replies: seq<Reply>): (r: seq<Echo>)
    ensures |r| == |replies|
    ensures forall i :: 0 <= i < |replies| ==> r[i] == replies[i].echo
  {
    seq(|replies|, i requires 0 <= i < |replies| => replies[i].echo)
  }

  // ----- the source's mutable form -----

  /** The item loop of `_normalize`. */
  method NormalizeItems(leq: ItemOrder, items: seq<Item>, wanted: seq<Item>) returns (sorted: seq<NormalItem>)
    ensures sorted == SortBy(leq, NormalItems(items, wanted))
  {
    var normalized: seq<NormalItem> := [];
    for idx := 0 to |items|
      invariant |normalized| == idx
      invariant forall i :: 0 <= i < idx ==> normalized[i] == NormalizeItem(Kept(items[i], wanted, i))
    {
      var item := items[idx];
      var keep := if idx < |wanted| then wanted[idx].Keys else item.Keys;
      normalized := normalized + [NormalizeItem(Restricted(item, keep))];
    }
    assert normalized == NormalItems(items, wanted);
    sorted := SortBy(leq, normalized);
  }

  method NormalizeRule(leq: ItemOrder, rule: Fields, desired: Fields) returns (r: Result<Normal>)
    ensures r == Normalize(leq, rule, desired)
  {
    var frequency :- ReadInt(rule.frequency);
    var conditions := NormalizeItems(leq, rule.conditions, desired.conditions);
    var filters := NormalizeItems(leq, rule.filters, desired.filters);
    var actions := NormalizeItems(leq, rule.actions, desired.actions);
    r := Ok(Normal(rule.name, rule.environment, rule.actionMatch, rule.filterMatch, frequency, conditions, filters, actions));
  }

  /** `diff_rule`. */
  method Diff(leq: ItemOrder, current: Fields, desired: Fields) returns (r: Result<FieldDiff>)
    ensures r == DiffRule(leq, current, desired)
  {
    var cur :- NormalizeRule(leq, current, desired);
    var want :- NormalizeRule(leq, desired, desired);
    r := Ok(Differing(cur, want));
  }

  function Lookup<V>(m: map<string, V>, k: string): Option<V> {
    if k in m then Some(m[k]) else None
  }

  /** `by_project`: the declared rules of each project, and the projects in order. */
  method GroupByProject(rules: seq<AlertRule>) returns (projects: seq<string>, byProject: map<string, seq<AlertRule>>)
    ensures projects == Projects(rules)
    ensures forall p :: p in projects ==> p in byProject && byProject[p] == OfProject(rules, p)
  {
    projects, byProject := [], map[];
    for i := 0 to |rules|
      invariant projects == Projects(rules[..i])
      invariant forall p :: p in projects <==> p in byProject
      invariant forall p :: OfProject(rules[..i], p) == if p in byProject then byProject[p] else []
    {
      var r := rules[i];
      assert rules[..i + 1][..i] == rules[..i];
      if r.project !in byProject {
        projects := projects + [r.project];
        byProject := byProject[r.project := []];
      }
      byProject := byProject[r.project := byProject[r.project] + [r]];
    }
    assert rules[..|rules|] == rules;
  }

  /** `by_name`: the first listed rule under each name, and the names in order. */
  method IndexByName(listed: seq<Stored>) returns (byName: map<string, Stored>, names: seq<string>)
    ensures forall n :: Lookup(byName, n) == FirstNamed(listed, n)
    ensures names == Names(listed)
  {
    byName, names := map[], [];
    for i := 0 to |listed|
      invariant forall n :: Lookup(byName, n) == FirstNamed(listed[..i], n)
      invariant names == Names(listed[..i]) && forall n :: n in names <==> n in byName
    {
      assert listed[..i + 1][..i] == listed[..i];
      var n := NameOf(listed[i]);
      if n !in byName {
        assert Lookup(byName, n) == None;
        byName := byName[n := listed[i]];
        names := names + [n];
      } else {
        assert Lookup(byName, n).Some?;
      }
    }
    assert listed[..|listed|] == listed;
  }

  /** The undeclared ones of a project's sorted names. */
  method ListUndeclared(rules: seq<AlertRule>, project: string, names: seq<string>, declared: set<string>)
    returns (labels: seq<(string, string)>)
    requires forall n :: n in declared <==> Declares(rules, project, n)
    ensures labels == Undeclared(rules, project, names)
  {
    hide Declares;
    labels := [];
    for i := 0 to |names|
      invariant labels == Undeclared(rules, project, names[..i])
    {
      assert names[..i + 1][..i] == names[..i];
      if names[i] !in declared {
        labels := labels + [(project, names[i])];
      }
    }
    assert names[..|names|] == names;
  }

  class SentryClient {
    var server: Server

    method ListRules(project: string) returns (rules: seq<Stored>)
      ensures rules == Listing(server, project)
    {
      rules := if project in server then server[project] else [];
    }

    /** Either write call; `ok` is false when the response reports a failure. */
    method Send(c: Change, reply: Reply) returns (ok: bool)
      requires Writes(c)
      modifies this
      ensures server == if reply.outcome.Refused? then old(server) else ApplyChange(old(server), c, reply.echo)
      ensures ok == reply.outcome.Accepted?
    {
      if !reply.outcome.Refused? {
        var listed := ListRules(c.project);
        if c.action.Create? {
          server := server[c.project := listed + [Stored(reply.echo.id, reply.echo.fields)]];
        } else {
          server := server[c.project := Replaced(listed, c.ruleId.value, reply.echo.fields)];
        }
      }
      ok := reply.outcome.Accepted?;
    }

    /** The loop of `plan` over one project's declared rules. */
    method PlanProject(leq: ItemOrder, project: string, projectRules: seq<AlertRule>, ghost done: seq<AlertRule>, before: seq<Change>)
      returns (r: Result<seq<Change>>, names: seq<string>)
      requires forall d :: d in projectRules ==> d.project == project
      requires PlanRules(leq, server, done) == Ok(before)
      ensures r == PlanRules(leq, server, done + projectRules)
      ensures names == Names(Listing(server, project))
    {
      hide DiffRule, Payload, FirstNamed, Listing, PlanRules, Names;
      var existing := ListRules(project);
      var byName;
      byName, names := IndexByName(existing);
      var changes := before;
      assert done + projectRules[..0] == done;
      for i := 0 to |projectRules|
        invariant PlanRules(leq, server, done + projectRules[..i]) == Ok(changes)
      {
        var d := projectRules[i];
        PlanSnoc(leq, server, done + projectRules[..i], d);
        assert (done + projectRules[..i]) + [d] == done + projectRules[..i + 1];
        assert Lookup(byName, d.name) == FirstNamed(existing, d.name);
        if d.name !in byName {
          changes := changes + [Change(Create, project, d.name, None, Payload(d), map[])];
        } else {
          var current := byName[d.name];
          var delta := Diff(leq, current.fields, Payload(d));
          if delta.Raised? {
            PlanRaises(leq, server, done + projectRules[..i + 1], done + projectRules);
            return Raised, names;
          }
          var action := if delta.value != map[] then Update else Noop;
          changes := changes + [Change(action, project, d.name, Some(current.id), Payload(d), delta.value)];
        }
      }
      assert done + projectRules[..|projectRules|] == done + projectRules;
      r := Ok(changes);
    }

    /** `plan`. */
    method MakePlan(leq: ItemOrder, rules: seq<AlertRule>) returns (r: Result<seq<Change>>, unmanaged: seq<(string, string)>)
      ensures r == Plan(leq, server, rules)
      ensures r.Ok? ==> unmanaged == Unmanaged(server, rules, Projects(rules))
    {
      hide PlanRules, Unmanaged, Undeclared, OfProject, Listing, Projects, Declares, Names, SortBy;
      var projects, byProject := GroupByProject(rules);
      var changes: seq<Change> := [];
      unmanaged := [];
      UnmanagedOfNone(server, rules);
      PlanOfNone(leq, server);
      for i := 0 to |projects|
        invariant PlanRules(leq, server, Grouped(rules, projects[..i])) == Ok(changes)
        invariant unmanaged == Unmanaged(server, rules, projects[..i])
      {
        var p := projects[i];
        assert projects[..i + 1][..i] == projects[..i];
        OfProjectMembers(rules, p);
        var planned, names := PlanProject(leq, p, byProject[p], Grouped(rules, projects[..i]), changes);
        if planned.Raised? {
          GroupedPrefix(rules, projects, i + 1);
          PlanRaises(leq, server, Grouped(rules, projects[..i + 1]), InPlanOrder(rules));
          return Raised, unmanaged;
        }
        changes := planned.value;
        var declared := set d: AlertRule | d in byProject[p] :: d.name;
        DeclaredNames(rules, p, declared);
        UnmanagedSnoc(server, rules, projects[..i], p);
        assert projects[..i] + [p] == projects[..i + 1];
        var labels := ListUndeclared(rules, p, SortBy(StringLeq, names), declared);
        unmanaged := unmanaged + labels;
      }
      assert projects[..|projects|] == projects;
      r := Ok(changes);
    }

    /** `apply`: stops at the first reported failure. */
    method Apply(changes: seq<Change>, replies: seq<Reply>) returns (ok: bool)
      requires |replies| == |changes|
      modifies this
      ensures server == AppliedUpTo(old(server), changes, Echoes(replies), StoredCount(changes, replies, 0))
      ensures ok ==> StoredCount(changes, replies, 0) == |changes|
    {
      ghost var (before, echoes) := (server, Echoes(replies));
      for i := 0 to |changes|
        invariant server == AppliedUpTo(before, changes, echoes, i)
        invariant StoredCount(changes, replies, 0) == StoredCount(changes, replies, i)
      {
        if Writes(changes[i]) {
          var sent := Send(changes[i], replies[i]);
          if !sent {
            return false;
          }
        }
      }
      ok := true;
    }
  }

  lemma PlanOfNone(leq: ItemOrder, server: Server)
    ensures PlanRules(leq, server, []) == Ok([])
  {
  }

  lemma PlanSnoc(leq: ItemOrder, server: Server, rules: seq<AlertRule>, r: AlertRule)
    requires PlanRules(leq, server, rules).Ok?
    ensures var change := PlanRule(leq, Listing(server, r.project), r);
      PlanRules(leq, server, rules + [r]) ==
      if change.Raised? then Raised else Ok(PlanRules(leq, server, rules).value + [change.value])
  {
    hide PlanRule;
    assert (rules + [r])[..|rules|] == rules;
  }

  lemma UnmanagedOfNone(server: Server, rules: seq<AlertRule>)
    ensures Unmanaged(server, rules, []) == []
  {
  }

  lemma UnmanagedSnoc(server: Server, rules: seq<AlertRule>, projects: seq<string>, p: string)
    ensures Unmanaged(server, rules, projects + [p])
         == Unmanaged(server, rules, projects) + Undeclared(rules, p, SortBy(StringLeq, Names(Listing(server, p))))
  {
    hide Listing, Names, SortBy, Undeclared;
    assert (projects + [p])[..|projects|] == projects;
  }

  lemma DeclaredNames(rules: seq<AlertRule>, p: string, declared: set<string>)
    requires declared == set d: AlertRule | d in OfProject(rules, p) :: d.name
    ensures forall n :: n in declared <==> Declares(rules, p, n)
  {
    OfProjectMembers(rules, p);
  }

  /** A plan that raises on a prefix raises as a whole. */
  lemma {:induction false} PlanRaises(leq: ItemOrder, server: Server, prefix: seq<AlertRule>, rules: seq<AlertRule>)
    requires prefix <= rules && PlanRules(leq, server, prefix).Raised?
    ensures PlanRules(leq, server, rules).Raised?
  {
    hide PlanRule;
    if |prefix| < |rules| {
      PlanRaises(leq, server, prefix, rules[..|rules| - 1]);
    } else {
      assert prefix == rules;
    }
  }

  lemma {:induction false} OfProjectMembers(rules: seq<AlertRule>, project: string)
    ensures forall r :: r in OfProject(rules, project) <==> r in rules && r.project == project
  {
    if rules != [] {
      var n := |rules| - 1;
      assert rules == rules[..n] + [rules[n]];
      OfProjectMembers(rules[..n], project);
    }
  }

  lemma {:induction false} GroupedPrefix(rules: seq<AlertRule>, projects: seq<string>, k: nat)
    requires k <= |projects|
    ensures Grouped(rules, projects[..k]) <= Grouped(rules, projects)
    decreases |projects| - k
  {
    if k < |projects| {
      assert projects[..k + 1][..k] == projects[..k];
      GroupedPrefix(rules, projects, k + 1);
    } else {
      assert projects[..k] == projects;
    }
  }
}
