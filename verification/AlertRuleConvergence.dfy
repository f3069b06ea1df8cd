/** When an apply settles every declared rule, whatever the list, and where repeated applies end up. */
module AlertRuleConvergence {
  import opened Wrappers
  import opened Reordering
  import opened AlertRules
  import opened AlertRuleProperties

  ghost predicate AllSettled(plan: Result<seq<Change>>) {
    plan.Ok? && forall c :: c in plan.value ==> c.action.Noop?
  }

  /** What a name stands for agrees with the payload of a rule declared under it. */
  ghost predicate Serves(standing: Option<Stored>, r: AlertRule) {
    standing.Some? && Agree(standing.value.fields, Payload(r))
  }

  // ----- one apply -----

  lemma SettledAgrees(leq: ItemOrder, server: Server, rules: seq<AlertRule>, r: AlertRule)
    requires TotalOrder(leq) && r in rules && AllSettled(Plan(leq, server, rules))
    ensures Serves(Current(server, r.project, r.name), r)
  {
    var (declared, changes) := (InPlanOrder(rules), Plan(leq, server, rules).value);
    PlanOrder(rules);
    PlanIsPointwise(leq, server, declared);
    var i :| 0 <= i < |declared| && declared[i] == r;
    assert changes[i] in changes;
    PlanRuleIsPlanned(leq, server, r);
    DiffIsEmptyIff(leq, Current(server, r.project, r.name).value.fields, Payload(r));
    hide *;
  }

  lemma ServedIsNoop(leq: ItemOrder, server: Server, r: AlertRule)
    requires TotalOrder(leq) && Serves(Current(server, r.project, r.name), r)
    ensures var c := PlanRule(leq, Listing(server, r.project), r); c.Ok? && c.value.action.Noop?
  {
    DiffIsEmptyIff(leq, Current(server, r.project, r.name).value.fields, Payload(r));
    hide DiffRule, TotalOrder, Agree, FirstNamed, Payload, Listing;
  }

  /** A plan has only no-ops exactly when every declared name stands for a rule that agrees with its payload. */
  lemma SettledIff(leq: ItemOrder, server: Server, rules: seq<AlertRule>)
    requires TotalOrder(leq)
    ensures AllSettled(Plan(leq, server, rules)) <==> forall r :: r in rules ==> Serves(Current(server, r.project, r.name), r)
  {
    hide TotalOrder, Serves, Current, Plan, PlanRules, PlanRule, InPlanOrder, Listing;
    if AllSettled(Plan(leq, server, rules)) {
      forall r | r in rules ensures Serves(Current(server, r.project, r.name), r) {
        SettledAgrees(leq, server, rules, r);
      }
    }
    if forall r :: r in rules ==> Serves(Current(server, r.project, r.name), r) {
      var declared := InPlanOrder(rules);
      PlanOrder(rules);
      PlanIsPointwise(leq, server, declared);
      forall j | 0 <= j < |declared|
        ensures var c := PlanRule(leq, Listing(server, declared[j].project), declared[j]); c.Ok? && c.value.action.Noop?
      {
        assert declared[j] in declared;
        ServedIsNoop(leq, server, declared[j]);
      }
      PlanOfServed(leq, server, rules);
    }
  }

  lemma PlanOfServed(leq: ItemOrder, server: Server, rules: seq<AlertRule>)
    requires forall j :: 0 <= j < |InPlanOrder(rules)| ==>
      var c := PlanRule(leq, Listing(server, InPlanOrder(rules)[j].project), InPlanOrder(rules)[j]); c.Ok? && c.value.action.Noop?
    ensures AllSettled(Plan(leq, server, rules))
  {
    PlanIsPointwise(leq, server, InPlanOrder(rules));
    hide PlanRules, PlanRule, InPlanOrder, Listing;
  }

  /** What a declared name stands for after a run, from the first rule listed under it and the stored changes alone. */
  function StandingAfter(leq: ItemOrder, server: Server, rules: seq<AlertRule>, replies: seq<Reply>, p: string, n: string): Option<Stored>
    requires Plan(leq, server, rules).Ok? && |Plan(leq, server, rules).value| == |replies|
  {
    var changes := Plan(leq, server, rules).value;
    Standing(server, changes, Echoes(replies), StoredCount(changes, replies, 0), p, n)
  }

  lemma RunStands(leq: ItemOrder, server: Server, rules: seq<AlertRule>, replies: seq<Reply>)
    requires Run(leq, server, rules, replies)
    ensures var after := ServerAfter(leq, server, rules, replies);
      ServerOk(after) && forall p, n :: Current(after, p, n) == StandingAfter(leq, server, rules, replies, p, n)
  {
    var changes := Plan(leq, server, rules).value;
    PlanIsAddressed(leq, server, InPlanOrder(rules));
    hide PlanRules, InPlanOrder, AppliedUpTo, StoredCount, Standing, Current, AllPlanned, NamesMatch, EchoesFit, ServerOk;
    StateAfter(server, changes, Echoes(replies), StoredCount(changes, replies, 0));
  }

  /**
   * An apply settles a declared list, names given twice included and however the apply ends, exactly when every
   * declared rule agrees with the rule that is left standing under its project and name.
   */
  lemma ApplySettlesIff(leq: ItemOrder, server: Server, rules: seq<AlertRule>, replies: seq<Reply>)
    requires TotalOrder(leq) && Run(leq, server, rules, replies)
    ensures AllSettled(Plan(leq, ServerAfter(leq, server, rules, replies), rules)) <==>
      forall r :: r in rules ==> Serves(StandingAfter(leq, server, rules, replies, r.project, r.name), r)
  {
    RunStands(leq, server, rules, replies);
    SettledIff(leq, ServerAfter(leq, server, rules, replies), rules);
    hide *;
  }

  // ----- a server that echoes exactly -----

  /** The rules declared under one name of a project, in order. */
  function Namesakes(rules: seq<AlertRule>, p: string, n: string): seq<AlertRule> {
    if rules == [] then [] else
    var (before, last) := (Namesakes(rules[..|rules| - 1], p, n), rules[|rules| - 1]);
    if last.project == p && last.name == n then before + [last] else before
  }

  /**
   * What is left of the rules declared under one name: the first one when there was no rule yet, else the last one the
   * rule there disagrees with, else that rule.
   */
  ghost function Survivor(current: Option<Fields>, same: seq<AlertRule>): Option<Fields> {
    if same == [] then current
    else if current.None? then Some(Payload(same[0]))
    else if !Agree(current.value, Payload(same[|same| - 1])) then Some(Payload(same[|same| - 1]))
    else Survivor(current, same[..|same| - 1])
  }

  function FieldsOf(s: Option<Stored>): Option<Fields> {
    if s.Some? then Some(s.value.fields) else None
  }

  /** Every write stores just the payload. */
  ghost predicate Exact(changes: seq<Change>, echoes: seq<Echo>)
    requires |changes| == |echoes|
  {
    forall j :: 0 <= j < |changes| && Writes(changes[j]) ==> echoes[j].fields == changes[j].payload
  }

  /** Which change a declared rule is planned to, and that it can be written. */
  lemma PlannedAction(leq: ItemOrder, server: Server, r: AlertRule)
    requires TotalOrder(leq) && ServerOk(server) && PlanRule(leq, Listing(server, r.project), r).Ok?
    ensures var (was, c) := (Current(server, r.project, r.name), PlanRule(leq, Listing(server, r.project), r).value);
      && c.payload == Payload(r)
      && (was.None? ==> c.action.Create?)
      && (was.Some? ==> c.action == (if Agree(was.value.fields, Payload(r)) then Noop else Update))
      && (Writes(c) <==> !c.action.Noop?)
  {
    var was := Current(server, r.project, r.name);
    FirstNamedIsListed(Listing(server, r.project), r.name);
    assert WellFormed(Listing(server, r.project));
    if was.Some? {
      DiffIsEmptyIff(leq, was.value.fields, Payload(r));
    }
    hide DiffRule, TotalOrder, Agree, FirstNamed, Payload, Listing;
  }

  /** What one planned change of a name leaves, in terms of the rule the plan saw there. */
  lemma LandsExactly(leq: ItemOrder, server: Server, before: Option<Stored>, r: AlertRule, e: Echo)
    requires TotalOrder(leq) && ServerOk(server) && PlanRule(leq, Listing(server, r.project), r).Ok?
    requires var c := PlanRule(leq, Listing(server, r.project), r).value; Writes(c) ==> e.fields == c.payload
    ensures var (was, c) := (Current(server, r.project, r.name), PlanRule(leq, Listing(server, r.project), r).value);
      FieldsOf(Landing(before, c, e))
      == if was.None? then (if before.None? then Some(Payload(r)) else FieldsOf(before))
         else if !Agree(was.value.fields, Payload(r)) then Some(Payload(r)) else FieldsOf(before)
  {
    PlannedAction(leq, server, r);
    hide PlanRule, TotalOrder, ServerOk, Agree, Current, Payload, Listing;
  }

  /** The fold over a plan's changes, name by name, is the survivor of its namesakes. */
  lemma {:induction false} StandingIsSurvivor(leq: ItemOrder, server: Server, rules: seq<AlertRule>, changes: seq<Change>, echoes: seq<Echo>,
                                              k: nat, p: string, n: string)
    requires TotalOrder(leq) && ServerOk(server) && k <= |rules| == |changes| == |echoes| && Exact(changes, echoes)
    requires forall j :: 0 <= j < |rules| ==> PlanRule(leq, Listing(server, rules[j].project), rules[j]) == Ok(changes[j])
    ensures FieldsOf(Standing(server, changes, echoes, k, p, n))
         == Survivor(FieldsOf(Current(server, p, n)), Namesakes(rules[..k], p, n))
  {
    hide TotalOrder, ServerOk, PlanRule, Listing, Current, Landing, Agree, Payload;
    if k > 0 {
      var r := rules[k - 1];
      StandingIsSurvivor(leq, server, rules, changes, echoes, k - 1, p, n);
      assert rules[..k][..k - 1] == rules[..k - 1];
      PlanRuleIsPlanned(leq, server, r);
      if r.project == p && r.name == n {
        LandsExactly(leq, server, Standing(server, changes, echoes, k - 1, p, n), r, echoes[k - 1]);
        SurvivorSnoc(FieldsOf(Current(server, p, n)), Namesakes(rules[..k - 1], p, n), r);
      }
    }
  }

  lemma SurvivorSnoc(current: Option<Fields>, same: seq<AlertRule>, r: AlertRule)
    ensures var before := Survivor(current, same);
      Survivor(current, same + [r])
      == if current.None? then (if before.None? then Some(Payload(r)) else before)
         else if !Agree(current.value, Payload(r)) then Some(Payload(r)) else before
  {
    hide Agree, Payload;
    assert (same + [r])[..|same|] == same;
  }

  lemma {:induction false} NamesakesConcat(a: seq<AlertRule>, b: seq<AlertRule>, p: string, n: string)
    ensures Namesakes(a + b, p, n) == Namesakes(a, p, n) + Namesakes(b, p, n)
  {
    if b == [] {
      assert a + b == a;
    } else {
      var m := |b| - 1;
      assert (a + b)[..|a| + m] == a + b[..m];
      NamesakesConcat(a, b[..m], p, n);
    }
  }

  lemma {:induction false} NamesakesOfProject(rules: seq<AlertRule>, q: string, p: string, n: string)
    ensures Namesakes(OfProject(rules, q), p, n) == if q == p then Namesakes(rules, p, n) else []
  {
    if rules != [] {
      var (m, last) := (|rules| - 1, rules[|rules| - 1]);
      NamesakesOfProject(rules[..m], q, p, n);
      NamesakesConcat(OfProject(rules[..m], q), [last], p, n);
      assert [last][..0] == [];
    }
  }

  lemma {:induction false} NamesakesGrouped(rules: seq<AlertRule>, projects: seq<string>, p: string, n: string)
    requires NoDuplicates(projects)
    ensures Namesakes(Grouped(rules, projects), p, n) == if p in projects then Namesakes(rules, p, n) else []
  {
    hide OfProject;
    if projects != [] {
      var m := |projects| - 1;
      var (before, last) := (projects[..m], projects[m]);
      NamesakesGrouped(rules, before, p, n);
      NamesakesOfProject(rules, last, p, n);
      NamesakesConcat(Grouped(rules, before), OfProject(rules, last), p, n);
      hide Namesakes;
      assert p in projects <==> p in before || p == last;
      assert !(p in before && p == last);
    }
  }

  lemma {:induction false} NamesakesMembers(rules: seq<AlertRule>, p: string, n: string)
    ensures forall r :: r in Namesakes(rules, p, n) <==> r in rules && r.project == p && r.name == n
  {
    if rules != [] {
      var m := |rules| - 1;
      assert rules == rules[..m] + [rules[m]];
      NamesakesMembers(rules[..m], p, n);
    }
  }

  /** Planning project by project keeps the order of the rules under one name. */
  lemma NamesakesInPlanOrder(rules: seq<AlertRule>, p: string, n: string)
    ensures Namesakes(InPlanOrder(rules), p, n) == Namesakes(rules, p, n)
  {
    ProjectsAreDistinct(rules);
    NamesakesGrouped(rules, Projects(rules), p, n);
    NamesakesMembers(rules, p, n);
    hide Namesakes, Grouped, Projects;
    if p !in Projects(rules) {
      assert forall r :: r in Namesakes(rules, p, n) ==> r in rules && r.project == p;
      if Namesakes(rules, p, n) != [] {
        assert Namesakes(rules, p, n)[0] in Namesakes(rules, p, n);
      }
    }
  }

  /** A completed apply on a server that stores just what it is sent. */
  ghost predicate ExactRun(leq: ItemOrder, server: Server, rules: seq<AlertRule>, replies: seq<Reply>) {
    && Run(leq, server, rules, replies)
    && StoredCount(Plan(leq, server, rules).value, replies, 0) == |replies|
    && Exact(Plan(leq, server, rules).value, Echoes(replies))
  }

  lemma ExactRunLeaves(leq: ItemOrder, server: Server, rules: seq<AlertRule>, replies: seq<Reply>, p: string, n: string)
    requires TotalOrder(leq) && ExactRun(leq, server, rules, replies)
    ensures var after := ServerAfter(leq, server, rules, replies);
      && ServerOk(after)
      && FieldsOf(Current(after, p, n)) == Survivor(FieldsOf(Current(server, p, n)), Namesakes(rules, p, n))
  {
    var (declared, changes) := (InPlanOrder(rules), Plan(leq, server, rules).value);
    RunStands(leq, server, rules, replies);
    PlanIsPointwise(leq, server, declared);
    NamesakesInPlanOrder(rules, p, n);
    hide PlanRules, PlanRule, InPlanOrder, StoredCount, Standing, Current, Survivor, Namesakes, TotalOrder, ServerOk, EchoesFit, Listing;
    StandingIsSurvivor(leq, server, declared, changes, Echoes(replies), |changes|, p, n);
    assert declared[..|changes|] == declared;
  }

  /**
   * With a server that echoes exactly, a completed apply settles a declared list exactly when under every name the
   * survivor, which the payloads and the rule listed before decide alone, agrees with all that is declared there.
   */
  lemma ExactApplySettlesIff(leq: ItemOrder, server: Server, rules: seq<AlertRule>, replies: seq<Reply>)
    requires TotalOrder(leq) && ExactRun(leq, server, rules, replies)
    ensures AllSettled(Plan(leq, ServerAfter(leq, server, rules, replies), rules)) <==>
      forall r :: r in rules ==>
        var left := Survivor(FieldsOf(Current(server, r.project, r.name)), Namesakes(rules, r.project, r.name));
        left.Some? && Agree(left.value, Payload(r))
  {
    var after := ServerAfter(leq, server, rules, replies);
    SettledIff(leq, after, rules);
    hide ServerAfter, ExactRun, Plan, AllSettled, TotalOrder, Current, Survivor, Namesakes, Agree, Payload;
    forall r | r in rules
      ensures FieldsOf(Current(after, r.project, r.name))
           == Survivor(FieldsOf(Current(server, r.project, r.name)), Namesakes(rules, r.project, r.name))
    {
      ExactRunLeaves(leq, server, rules, replies, r.project, r.name);
    }
  }

  // ----- what is declared is what is installed -----

  /** The fields are the declared ones; an environment that is not declared is null. */
  ghost predicate CarriesRule(f: Fields, r: AlertRule) {
    && f.name == Str(r.name)
    && f.environment == (match r.environment case Some(e) => Str(e) case None => Null)
    && f.actionMatch == Str(r.actionMatch) && f.filterMatch == Str(r.filterMatch)
    && f.frequency == Num(r.frequency)
    && f.conditions == r.conditions && f.filters == r.filters && f.actions == r.actions
  }

  /** The stored fields do what the rule declares; items count up to order and by the compared keys only. */
  ghost predicate Installs(f: Fields, r: AlertRule) {
    && f.name == Str(r.name)
    && f.environment == (match r.environment case Some(e) => Str(e) case None => Null)
    && f.actionMatch == Str(r.actionMatch) && f.filterMatch == Str(r.filterMatch)
    && ReadInt(f.frequency) == Ok(Some(r.frequency))
    && multiset(NormalItems(f.conditions, r.conditions)) == multiset(NormalItems(r.conditions, r.conditions))
    && multiset(NormalItems(f.filters, r.filters)) == multiset(NormalItems(r.filters, r.filters))
    && multiset(NormalItems(f.actions, r.actions)) == multiset(NormalItems(r.actions, r.actions))
  }

  /** Every declared rule is planned with just its own fields, under its own project and name, and nothing else is. */
  lemma PlanCarriesDeclared(leq: ItemOrder, server: Server, rules: seq<AlertRule>)
    requires Plan(leq, server, rules).Ok?
    ensures var (declared, changes) := (InPlanOrder(rules), Plan(leq, server, rules).value);
      && |changes| == |declared|
      && (forall j :: 0 <= j < |declared| ==>
            changes[j].project == declared[j].project && changes[j].name == declared[j].name && CarriesRule(changes[j].payload, declared[j]))
    ensures forall r :: r in rules <==> r in InPlanOrder(rules)
  {
    var declared := InPlanOrder(rules);
    PlanOrder(rules);
    PlanIsPointwise(leq, server, declared);
    forall j | 0 <= j < |declared|
      ensures CarriesRule(Payload(declared[j]), declared[j])
      ensures var c := Plan(leq, server, rules).value[j];
        c.project == declared[j].project && c.name == declared[j].name && c.payload == Payload(declared[j])
    {
      PlanRuleIsPlanned(leq, server, declared[j]);
    }
    hide InPlanOrder, PlanRules, PlanRule, Payload, CarriesRule, Planned, Listing;
  }

  lemma AgreeingInstalls(f: Fields, r: AlertRule)
    ensures Agree(f, Payload(r)) <==> Installs(f, r)
  {
    hide NormalItems;
  }

  /** A plan of no-ops means, under every declared name, that the first listed rule does what is declared there. */
  lemma SettledMeansInstalled(leq: ItemOrder, server: Server, rules: seq<AlertRule>)
    requires TotalOrder(leq)
    ensures AllSettled(Plan(leq, server, rules)) <==>
      forall r :: r in rules ==>
        var current := Current(server, r.project, r.name); current.Some? && Installs(current.value.fields, r)
  {
    SettledIff(leq, server, rules);
    forall f: Fields, r: AlertRule ensures Agree(f, Payload(r)) <==> Installs(f, r) {
      AgreeingInstalls(f, r);
    }
    hide Plan, AllSettled, Agree, Installs, Payload, TotalOrder, Current;
  }

  lemma AllStoredIsSettled(changes: seq<Change>, again: Result<seq<Change>>)
    requires SettledUpTo(changes, again, |changes|)
    ensures AllSettled(again)
  {
  }

  /**
   * Installation. With names declared once, a completed apply leaves every declared rule installed: the first rule
   * listed under its name has the declared environment, match modes and frequency and, compared by key, the declared items.
   */
  lemma ApplyInstallsDeclared(leq: ItemOrder, server: Server, rules: seq<AlertRule>, replies: seq<Reply>, r: AlertRule)
    requires TotalOrder(leq) && DistinctNames(rules) && Run(leq, server, rules, replies) && r in rules
    requires StoredCount(Plan(leq, server, rules).value, replies, 0) == |replies|
    ensures var current := Current(ServerAfter(leq, server, rules, replies), r.project, r.name);
      current.Some? && Installs(current.value.fields, r)
  {
    var after := ServerAfter(leq, server, rules, replies);
    ApplyConverges(leq, server, rules, replies);
    SettledMeansInstalled(leq, after, rules);
    AllStoredIsSettled(Plan(leq, server, rules).value, Plan(leq, after, rules));
    hide *;
  }

  // ----- applying again and again -----

  /** Completed applies one after the other, each planned anew, with nobody else writing in between. */
  ghost predicate Rounds(leq: ItemOrder, rules: seq<AlertRule>, servers: seq<Server>, replies: seq<seq<Reply>>) {
    && |servers| == |replies| + 1
    && forall i :: 0 <= i < |replies| ==> Round(leq, rules, servers[i], replies[i], servers[i + 1])
  }

  ghost predicate Round(leq: ItemOrder, rules: seq<AlertRule>, server: Server, replies: seq<Reply>, next: Server) {
    ExactRun(leq, server, rules, replies) && next == ServerAfter(leq, server, rules, replies)
  }

  /** The fields a name stands for in one state. */
  function Held(server: Server, p: string, n: string): Option<Fields> {
    FieldsOf(Current(server, p, n))
  }

  lemma RoundLeaves(leq: ItemOrder, rules: seq<AlertRule>, servers: seq<Server>, replies: seq<seq<Reply>>, i: nat, p: string, n: string)
    requires TotalOrder(leq) && Rounds(leq, rules, servers, replies) && i < |replies|
    ensures Held(servers[i + 1], p, n) == Survivor(Held(servers[i], p, n), Namesakes(rules, p, n))
  {
    hide TotalOrder, ExactRun, ServerAfter, Current, Survivor, Namesakes;
    assert Round(leq, rules, servers[i], replies[i], servers[i + 1]);
    ExactRunLeaves(leq, servers[i], rules, replies[i], p, n);
  }

  ghost predicate ServesAll(held: Option<Fields>, same: seq<AlertRule>) {
    held.Some? && forall r :: r in same ==> Agree(held.value, Payload(r))
  }

  lemma {:induction false} SurvivorIsHeldOrDeclared(current: Option<Fields>, same: seq<AlertRule>)
    ensures var left := Survivor(current, same); left == current || exists d :: d in same && left == Some(Payload(d))
  {
    hide Agree, Payload;
    if same != [] {
      var m := |same| - 1;
      assert same[0] in same && same[m] in same;
      SurvivorIsHeldOrDeclared(current, same[..m]);
    }
  }

  /** However many rules share a name: what it ever stands for is what it stood for, or one of their payloads. */
  lemma {:induction false} RoundsHoldDeclared(leq: ItemOrder, rules: seq<AlertRule>, servers: seq<Server>, replies: seq<seq<Reply>>, i: nat,
                                              p: string, n: string)
    requires TotalOrder(leq) && Rounds(leq, rules, servers, replies) && i < |servers|
    ensures Held(servers[i], p, n) == Held(servers[0], p, n)
      || exists d :: d in Namesakes(rules, p, n) && Held(servers[i], p, n) == Some(Payload(d))
  {
    hide TotalOrder, Round, Held, Survivor, Namesakes, Payload;
    if i > 0 {
      RoundsHoldDeclared(leq, rules, servers, replies, i - 1, p, n);
      assert i - 1 < |replies| && servers[i - 1 + 1] == servers[i];
      RoundLeaves(leq, rules, servers, replies, i - 1, p, n);
      SurvivorIsHeldOrDeclared(Held(servers[i - 1], p, n), Namesakes(rules, p, n));
    }
  }

  /** So no number of applies settles a name unless the rule there already does, or one of its payloads agrees with all. */
  lemma RoundsSettleOnlyIf(leq: ItemOrder, rules: seq<AlertRule>, servers: seq<Server>, replies: seq<seq<Reply>>, i: nat, p: string, n: string)
    requires TotalOrder(leq) && Rounds(leq, rules, servers, replies) && i < |servers|
    ensures var same := Namesakes(rules, p, n);
      ServesAll(Held(servers[i], p, n), same) ==>
        ServesAll(Held(servers[0], p, n), same) || exists d :: d in same && ServesAll(Some(Payload(d)), same)
  {
    RoundsHoldDeclared(leq, rules, servers, replies, i, p, n);
    hide *;
  }

  /** One round of two rules under one name. */
  lemma PairStep(held: Option<Fields>, a: AlertRule, b: AlertRule)
    ensures Survivor(held, [a, b])
         == if held.None? then Some(Payload(a))
            else if !Agree(held.value, Payload(b)) then Some(Payload(b))
            else if !Agree(held.value, Payload(a)) then Some(Payload(a)) else held
  {
    hide Agree, Payload;
    assert [a, b][..1] == [a] && [a][..0] == [];
    assert Survivor(held, [a]) == if held.Some? && Agree(held.value, Payload(a)) then held else Some(Payload(a));
  }

  lemma AgreesWithItself(r: AlertRule)
    ensures Agree(Payload(r), Payload(r))
  {
  }

  /** The condition below, for any state: it is met before a round exactly when it is met after it. */
  ghost predicate CanSettle(held: Option<Fields>, a: AlertRule, b: AlertRule) {
    ServesAll(held, [a, b]) || Agree(Payload(a), Payload(b)) || Agree(Payload(b), Payload(a))
  }

  lemma PairRounds(held: Option<Fields>, a: AlertRule, b: AlertRule)
    ensures var once := Survivor(held, [a, b]);
      && (CanSettle(once, a, b) <==> CanSettle(held, a, b))
      && (ServesAll(Survivor(once, [a, b]), [a, b]) <==> CanSettle(held, a, b))
  {
    AgreesWithItself(a);
    AgreesWithItself(b);
    PairStep(held, a, b);
    PairStep(Survivor(held, [a, b]), a, b);
    hide Agree, Payload, Survivor;
    forall x: Option<Fields>
      ensures ServesAll(x, [a, b]) <==> x.Some? && Agree(x.value, Payload(a)) && Agree(x.value, Payload(b))
    {
      assert a in [a, b] && b in [a, b];
    }
  }

  /**
   * Two rules declared under one name settle after two rounds, or after any later one, exactly when the rule listed
   * at first agrees with both or one payload agrees with the other; else every plan, for ever, has a pending change.
   */
  lemma PairSettlesIff(leq: ItemOrder, rules: seq<AlertRule>, a: AlertRule, b: AlertRule,
                       servers: seq<Server>, replies: seq<seq<Reply>>, i: nat)
    requires TotalOrder(leq) && Rounds(leq, rules, servers, replies) && 2 <= i < |servers|
    requires Namesakes(rules, a.project, a.name) == [a, b]
    ensures ServesAll(Held(servers[i], a.project, a.name), [a, b]) <==> CanSettle(Held(servers[0], a.project, a.name), a, b)
  {
    hide *;
    var (p, n) := (a.project, a.name);
    assert i - 2 + 2 == i;
    PairConditionStays(leq, rules, a, b, servers, replies, i - 2);
    TwoRounds(leq, rules, servers, replies, i - 2, p, n);
    PairRounds(Held(servers[i - 2], p, n), a, b);
  }

  lemma TwoRounds(leq: ItemOrder, rules: seq<AlertRule>, servers: seq<Server>, replies: seq<seq<Reply>>, i: nat, p: string, n: string)
    requires TotalOrder(leq) && Rounds(leq, rules, servers, replies) && i + 2 < |servers|
    ensures var same := Namesakes(rules, p, n);
      Held(servers[i + 2], p, n) == Survivor(Survivor(Held(servers[i], p, n), same), same)
  {
    hide TotalOrder, Round, Held, Survivor, Namesakes;
    assert i + 1 < |replies| && i + 1 + 1 == i + 2;
    RoundLeaves(leq, rules, servers, replies, i, p, n);
    RoundLeaves(leq, rules, servers, replies, i + 1, p, n);
  }

  lemma {:induction false} PairConditionStays(leq: ItemOrder, rules: seq<AlertRule>, a: AlertRule, b: AlertRule,
                                              servers: seq<Server>, replies: seq<seq<Reply>>, i: nat)
    requires TotalOrder(leq) && Rounds(leq, rules, servers, replies) && i < |servers|
    requires Namesakes(rules, a.project, a.name) == [a, b]
    ensures CanSettle(Held(servers[i], a.project, a.name), a, b) <==> CanSettle(Held(servers[0], a.project, a.name), a, b)
  {
    hide TotalOrder, Round, Held, Survivor, Namesakes, CanSettle;
    if i > 0 {
      PairConditionStays(leq, rules, a, b, servers, replies, i - 1);
      assert i - 1 < |replies| && servers[i - 1 + 1] == servers[i];
      RoundLeaves(leq, rules, servers, replies, i - 1, a.project, a.name);
      PairRounds(Held(servers[i - 1], a.project, a.name), a, b);
    }
  }

  const ONLY_V: Item := map["id" := Str("x"), "v" := Num(1)]
  const ONLY_W: Item := map["id" := Str("x"), "w" := Num(1)]
  const BOTH: Item := map["id" := Str("x"), "v" := Num(1), "w" := Num(1)]

  function WithCondition(p: string, n: string, condition: Item): AlertRule {
    AlertRule(p, n, None, "all", "all", 30, [condition], [], [])
  }

  lemma SameSingleItem(item: Item, wanted: Item)
    ensures SameItems([item], [wanted]) <==> NormalizeItem(Restricted(item, wanted.Keys)) == NormalizeItem(wanted)
  {
    assert Restricted(wanted, wanted.Keys) == wanted;
    var (x, y) := (NormalizeItem(Restricted(item, wanted.Keys)), NormalizeItem(wanted));
    assert NormalItems([wanted], [wanted]) == [y] && NormalItems([item], [wanted]) == [x];
    hide NormalizeItem, Restricted;
    assert multiset([x]) == multiset{x} && multiset([y]) == multiset{y};
    if multiset{x} == multiset{y} {
      assert x in multiset{y};
    }
  }

  lemma BothCompared()
    ensures SameItems([BOTH], [ONLY_V]) && SameItems([BOTH], [ONLY_W])
  {
    assert Restricted(BOTH, ONLY_V.Keys) == ONLY_V && Restricted(BOTH, ONLY_W.Keys) == ONLY_W;
    SameSingleItem(BOTH, ONLY_V);
    SameSingleItem(BOTH, ONLY_W);
    hide *;
  }

  lemma OnlyCompared()
    ensures !SameItems([ONLY_V], [ONLY_W]) && !SameItems([ONLY_W], [ONLY_V])
  {
    assert "v" in NormalizeItem(ONLY_V) && "v" !in NormalizeItem(Restricted(ONLY_W, ONLY_V.Keys));
    assert "w" in NormalizeItem(ONLY_W) && "w" !in NormalizeItem(Restricted(ONLY_V, ONLY_W.Keys));
    SameSingleItem(ONLY_V, ONLY_W);
    SameSingleItem(ONLY_W, ONLY_V);
    hide *;
  }

  lemma AgreeByCondition(p: string, n: string, x: Item, y: Item)
    ensures Agree(Payload(WithCondition(p, n, x)), Payload(WithCondition(p, n, y))) <==> SameItems([x], [y])
  {
    hide NormalItems;
  }

  /** Two payloads that one stored rule could agree with, while neither agrees with the other: applies never get there. */
  lemma AgreeableYetUnreachable(p: string, n: string)
    ensures var (a, b) := (WithCondition(p, n, ONLY_V), WithCondition(p, n, ONLY_W));
      var both := Payload(WithCondition(p, n, BOTH));
      Agree(both, Payload(a)) && Agree(both, Payload(b)) && !CanSettle(None, a, b)
  {
    BothCompared();
    OnlyCompared();
    AgreeByCondition(p, n, BOTH, ONLY_V);
    AgreeByCondition(p, n, BOTH, ONLY_W);
    AgreeByCondition(p, n, ONLY_V, ONLY_W);
    AgreeByCondition(p, n, ONLY_W, ONLY_V);
    hide Agree, SameItems, Payload, WithCondition, ONLY_V, ONLY_W, BOTH;
  }

  // ----- rules that share a name -----

  /** Two declared rules of one name are only both settled in a state whose first rule of that name agrees with both. */
  lemma SettledTogetherAgree(leq: ItemOrder, server: Server, rules: seq<AlertRule>, a: AlertRule, b: AlertRule)
    requires TotalOrder(leq)
    requires a in rules && b in rules && a.project == b.project && a.name == b.name
    requires AllSettled(Plan(leq, server, rules))
    ensures var current := Current(server, a.project, a.name); Serves(current, a) && Serves(current, b)
  {
    SettledIff(leq, server, rules);
    hide *;
  }

  /**
   * Some state of the server settles two rules declared under one name exactly when one stored rule can agree with
   * both payloads. Whether applies ever reach such a state is another matter, which `PairSettlesIff` decides.
   */
  lemma SameNameSettlesIff(leq: ItemOrder, a: AlertRule, b: AlertRule)
    requires TotalOrder(leq) && a.project == b.project && a.name == b.name
    ensures (exists server :: AllSettled(Plan(leq, server, [a, b]))) <==>
      (exists stored :: Agree(stored, Payload(a)) && Agree(stored, Payload(b)))
  {
    hide Plan, AllSettled, TotalOrder, Agree, Current, Payload;
    if server :| AllSettled(Plan(leq, server, [a, b])) {
      SettledTogetherAgree(leq, server, [a, b], a, b);
    }
    if stored :| Agree(stored, Payload(a)) && Agree(stored, Payload(b)) {
      CommonRuleSettles(leq, a, b, stored);
    }
  }

  /** A server whose only rule agrees with both. */
  lemma CommonRuleSettles(leq: ItemOrder, a: AlertRule, b: AlertRule, stored: Fields)
    requires TotalOrder(leq) && a.project == b.project && a.name == b.name
    requires Agree(stored, Payload(a)) && Agree(stored, Payload(b))
    ensures AllSettled(Plan(leq, map[a.project := [Stored("1", stored)]], [a, b]))
  {
    var server := map[a.project := [Stored("1", stored)]];
    AgreeingName(stored, a);
    OnlyRuleNamed(stored, a.name);
    SettledIff(leq, server, [a, b]);
    hide Plan, AllSettled, Agree, TotalOrder, Payload, FirstNamed;
  }

  lemma AgreeingName(stored: Fields, r: AlertRule)
    requires Agree(stored, Payload(r))
    ensures NameOf(Stored("1", stored)) == r.name
  {
    hide SameItems, ReadInt;
  }

  lemma OnlyRuleNamed(stored: Fields, name: string)
    requires NameOf(Stored("1", stored)) == name
    ensures FirstNamed([Stored("1", stored)], name) == Some(Stored("1", stored))
  {
    hide NameOf;
    assert [Stored("1", stored)][..0] == [];
  }

  /** In particular two different frequencies of one name never settle. */
  lemma DifferentFrequenciesNeverSettle(leq: ItemOrder, server: Server, rules: seq<AlertRule>, a: AlertRule, b: AlertRule)
    requires TotalOrder(leq)
    requires a in rules && b in rules && a.project == b.project && a.name == b.name && a.frequency != b.frequency
    ensures !AllSettled(Plan(leq, server, rules))
  {
    hide Plan, AllSettled, TotalOrder;
    if AllSettled(Plan(leq, server, rules)) {
      SettledTogetherAgree(leq, server, rules, a, b);
    }
  }
}
