/** What the membership backfill changes, never changes, and converges to. */
module MembershipProperties {
  import opened Wrappers
  import opened Text
  import opened Memberships

  // ----- what is inserted -----

  lemma {:induction false} PlannedIsFilter(missing: seq<MissingRow>, includePrivileged: bool)
    ensures forall r :: r in Planned(missing, includePrivileged) <==> r in missing && IsPlanned(r, includePrivileged)
    ensures forall r :: r in Skipped(missing, includePrivileged) <==> r in missing && !IsPlanned(r, includePrivileged)
    ensures |Planned(missing, includePrivileged)| + |Skipped(missing, includePrivileged)| == |missing|
  {
    hide IsPlanned;
    if missing != [] {
      var n := |missing| - 1;
      assert missing == missing[..n] + [missing[n]];
      PlannedIsFilter(missing[..n], includePrivileged);
    }
  }

  lemma PrivilegedMeans(row: MissingRow)
    ensures Privileged(row) <==> "owner" in row.roles || "admin" in row.roles || "billing" in row.roles
  {
    var held := row.roles * PRIVILEGED_ROLES;
    assert "owner" in row.roles ==> "owner" in held;
    assert "admin" in row.roles ==> "admin" in held;
    assert "billing" in row.roles ==> "billing" in held;
    if held != {} {
      var r :| r in held;
    }
  }

  /** Existing memberships stay as they are; each new one comes from a row under whose ids there was none at all. */
  ghost predicate OnlyAddsBesideNone(before: seq<Membership>, rows: seq<MissingRow>, after: seq<Membership>) {
    before <= after && forall i :: |before| <= i < |after| ==> AddedFor(before, rows, after[i])
  }

  ghost predicate AddedFor(before: seq<Membership>, rows: seq<MissingRow>, m: Membership) {
    exists r :: r in rows && m == Membership(r.academy, r.userId, "active", r.roles) && !HasAny(before, r.academy, r.aliases)
  }

  lemma {:induction false} UpsertsOnlyAdd(before: seq<Membership>, rows: seq<MissingRow>)
    ensures OnlyAddsBesideNone(before, rows, UpsertAll(before, rows))
  {
    if rows != [] {
      var n := |rows| - 1;
      assert rows == rows[..n] + [rows[n]];
      UpsertsOnlyAdd(before, rows[..n]);
      var (mid, after) := (UpsertAll(before, rows[..n]), UpsertAll(before, rows));
      if HasAny(before, rows[n].academy, rows[n].aliases) {
        var m :| m in before && m.academy == rows[n].academy && m.userId in rows[n].aliases;
        assert m in mid;
      }
      hide HasAny;
      forall i | |before| <= i < |after|
        ensures AddedFor(before, rows, after[i])
      {
        if i == |mid| {
          assert rows[n] in rows;
        } else {
          assert AddedFor(before, rows[..n], mid[i]);
        }
      }
    }
  }

  /**
   * Applying the backfill changes no existing membership, never inserts beside one (active or not) under any of the
   * user's ids, and grants a privileged role only with the flag.
   */
  lemma BackfillIsCautious(memberships: seq<Membership>, academies: set<string>, users: seq<User>, includePrivileged: bool)
    ensures var after := AfterApply(memberships, academies, users, includePrivileged);
      && OnlyAddsBesideNone(memberships, Planned(MissingRows(memberships, academies, users), includePrivileged), after)
      && (!includePrivileged ==> forall i :: |memberships| <= i < |after| ==>
            "owner" !in after[i].roles && "admin" !in after[i].roles && "billing" !in after[i].roles)
      && (forall i :: |memberships| <= i < |after| ==> after[i].status == "active" && after[i].academy in academies)
  {
    var missing := MissingRows(memberships, academies, users);
    var planned := Planned(missing, includePrivileged);
    UpsertsOnlyAdd(memberships, planned);
    PlannedIsFilter(missing, includePrivileged);
    MissingRowsKnowTheirAcademy(memberships, academies, users);
    forall r: MissingRow
      ensures Privileged(r) <==> "owner" in r.roles || "admin" in r.roles || "billing" in r.roles
    {
      PrivilegedMeans(r);
    }
    hide MissingRows, Planned, UpsertAll, HasAny, Privileged;
  }

  lemma {:induction false} MissingRowsKnowTheirAcademy(memberships: seq<Membership>, academies: set<string>, users: seq<User>)
    ensures forall r :: r in MissingRows(memberships, academies, users) ==> (r.academyExists <==> r.academy in academies)
  {
    hide IsActive, Existing, Aliases, Roles, MemberId;
    if users != [] {
      MissingRowsKnowTheirAcademy(memberships, academies, users[..|users| - 1]);
    }
  }

  /** The rows an apply writes: of a known academy, with roles, and with one of the three privileged ones only by the flag. */
  lemma PlannedMeans(missing: seq<MissingRow>, includePrivileged: bool, r: MissingRow)
    ensures r in Planned(missing, includePrivileged) <==>
      && r in missing && r.academyExists && r.roles != {}
      && (includePrivileged || ("owner" !in r.roles && "admin" !in r.roles && "billing" !in r.roles))
  {
    PlannedIsFilter(missing, includePrivileged);
    PrivilegedMeans(r);
    hide Planned, Privileged;
  }

  /** Who is active: an explicit global status decides first, then a disabling status, then the flag. */
  ghost predicate Active(u: User) {
    && (u.globalStatus.Some? ==> Lower(u.globalStatus.value) == "active")
    && (u.status.Some? ==> Lower(u.status.value) !in {"disabled", "inactive", "suspended", "deleted"})
    && u.isActive
  }

  /** Some membership under one of the user's three ids, as the audit reads them: the last one listed for an id counts. */
  ghost predicate Holds(memberships: seq<Membership>, u: User, status: string) {
    exists id :: id != "" && (id == u.userId || id == u.authUid || id == u.firebaseUid)
                 && StatusOf(memberships, u.academy, id) == Some(status)
  }

  /** What the audit says of a user, read off the user and the memberships. */
  lemma ExaminedAs(memberships: seq<Membership>, academies: set<string>, u: User)
    ensures var v := Examine(memberships, academies, u);
      && (v == NotActive <==> !Active(u))
      && (v == NoAcademy <==> Active(u) && u.academy == "")
      && (v == Covered <==> Active(u) && u.academy != "" && Holds(memberships, u, "active"))
      && (v.Missing? <==> Active(u) && u.academy != "" && forall s :: !Holds(memberships, u, s))
      && (v.Blocked? ==> forall s :: s in v.statuses <==> Holds(memberships, u, s))
  {
    forall s
      ensures s in Existing(memberships, u.academy, Aliases(u)) <==> Holds(memberships, u, s)
    {
    }
    hide StatusOf, Existing, Holds;
    var existing := Existing(memberships, u.academy, Aliases(u));
    if existing != {} {
      var s :| s in existing;
      assert Holds(memberships, u, s);
    }
  }

  /** The row a user without membership gets: roles come from the list when there is one, and only academy roles count. */
  lemma MissingRowMeans(memberships: seq<Membership>, academies: set<string>, u: User, role: string)
    requires Examine(memberships, academies, u).Missing?
    ensures var row := Examine(memberships, academies, u).row;
      && row.academy == u.academy && (row.academyExists <==> u.academy in academies)
      && row.userId == (if u.userId != "" then u.userId else if u.authUid != "" then u.authUid else u.docId)
      && row.aliases == {u.userId, u.authUid, u.firebaseUid} - {""}
      && (role in row.roles <==>
            && role in {"admin", "coach", "assistant_coach", "parent", "student", "owner", "billing", "front_desk"}
            && if u.roles.Some? && u.roles.value != [] then role in u.roles.value else role == u.role)
  {
    hide IsActive, Existing;
  }

  // ----- convergence -----

  function Ids(u: User): set<string> {
    Aliases(u) + {MemberId(u)}
  }

  /** Different active users of one academy share no id. */
  ghost predicate DisjointIds(users: seq<User>) {
    forall i, j :: 0 <= i < j < |users| && users[i].academy == users[j].academy && IsActive(users[i]) && IsActive(users[j])
      ==> Ids(users[i]) !! Ids(users[j])
  }

  lemma {:induction false} StatusIffHasAny(memberships: seq<Membership>, academy: string, id: string)
    ensures StatusOf(memberships, academy, id).Some? <==> HasAny(memberships, academy, {id})
  {
    if memberships != [] {
      var n := |memberships| - 1;
      assert memberships == memberships[..n] + [memberships[n]];
      StatusIffHasAny(memberships[..n], academy, id);
    }
  }

  /** The audit finds no status under a user's ids exactly when there is no membership row under them. */
  lemma NoStatusIffNone(memberships: seq<Membership>, academy: string, ids: set<string>)
    ensures Existing(memberships, academy, ids) == {} <==> !HasAny(memberships, academy, ids)
  {
    forall id
      ensures StatusOf(memberships, academy, id).Some? <==> HasAny(memberships, academy, {id})
    {
      StatusIffHasAny(memberships, academy, id);
    }
    hide StatusOf;
    if HasAny(memberships, academy, ids) {
      var m :| m in memberships && m.academy == academy && m.userId in ids;
      assert HasAny(memberships, academy, {m.userId});
      assert StatusOf(memberships, academy, m.userId).value in Existing(memberships, academy, ids);
    }
    if Existing(memberships, academy, ids) != {} {
      var s :| s in Existing(memberships, academy, ids);
      var id :| id in ids && StatusOf(memberships, academy, id).Some?;
      var m :| m in memberships && m.academy == academy && m.userId in {id};
    }
  }

  /** Rows added for other ids do not change what the audit sees under these. */
  lemma {:induction false} StatusesUnaffected(before: seq<Membership>, added: seq<Membership>, academy: string, id: string)
    requires forall m :: m in added ==> m.academy != academy || m.userId != id
    ensures StatusOf(before + added, academy, id) == StatusOf(before, academy, id)
  {
    if added == [] {
      assert before + added == before;
    } else {
      var n := |added| - 1;
      assert (before + added)[..|before| + n] == before + added[..n];
      StatusesUnaffected(before, added[..n], academy, id);
    }
  }

  lemma ExistingUnaffected(before: seq<Membership>, added: seq<Membership>, academy: string, ids: set<string>)
    requires forall m :: m in added ==> m.academy != academy || m.userId !in ids
    ensures Existing(before + added, academy, ids) == Existing(before, academy, ids)
  {
    hide StatusOf;
    forall id | id in ids
      ensures StatusOf(before + added, academy, id) == StatusOf(before, academy, id)
    {
      StatusesUnaffected(before, added, academy, id);
    }
  }

  /** Every missing row belongs to an active user of the list, under whose aliases there is no membership. */
  lemma {:induction false} MissingRowHasUser(memberships: seq<Membership>, academies: set<string>, users: seq<User>, r: MissingRow)
    returns (i: nat)
    requires r in MissingRows(memberships, academies, users)
    ensures i < |users| && Examine(memberships, academies, users[i]) == Missing(r) && r == RowOf(users[i], academies)
    ensures IsActive(users[i])
  {
    hide IsActive, Existing, RowOf;
    var n := |users| - 1;
    if Examine(memberships, academies, users[n]) == Missing(r) {
      i := n;
    } else {
      i := MissingRowHasUser(memberships, academies, users[..n], r);
    }
  }

  lemma {:induction false} UserHasMissingRow(memberships: seq<Membership>, academies: set<string>, users: seq<User>, i: nat)
    requires i < |users| && Examine(memberships, academies, users[i]).Missing?
    ensures Examine(memberships, academies, users[i]).row in MissingRows(memberships, academies, users)
  {
    hide Examine;
    var n := |users| - 1;
    if i < n {
      UserHasMissingRow(memberships, academies, users[..n], i);
    }
  }

  /** The memberships an apply added, in terms of the users they were added for. */
  ghost predicate AddedForUsers(memberships: seq<Membership>, academies: set<string>, users: seq<User>, includePrivileged: bool,
                                added: seq<Membership>) {
    forall m :: m in added ==> exists i :: 0 <= i < |users| && AddedForUser(memberships, academies, users[i], includePrivileged, m)
  }

  ghost predicate AddedForUser(memberships: seq<Membership>, academies: set<string>, u: User, includePrivileged: bool, m: Membership) {
    && IsActive(u)
    && Examine(memberships, academies, u).Missing?
    && IsPlanned(RowOf(u, academies), includePrivileged)
    && m == NewMembership(RowOf(u, academies))
  }

  lemma ApplyAddsForUsers(memberships: seq<Membership>, academies: set<string>, users: seq<User>, includePrivileged: bool)
    returns (added: seq<Membership>)
    ensures AfterApply(memberships, academies, users, includePrivileged) == memberships + added
    ensures AddedForUsers(memberships, academies, users, includePrivileged, added)
  {
    var missing := MissingRows(memberships, academies, users);
    var planned := Planned(missing, includePrivileged);
    var after := AfterApply(memberships, academies, users, includePrivileged);
    UpsertsOnlyAdd(memberships, planned);
    PlannedIsFilter(missing, includePrivileged);
    added := after[|memberships|..];
    hide MissingRows, Planned, UpsertAll, HasAny, Examine, RowOf, IsPlanned, NewMembership, IsActive;
    forall m | m in added
      ensures exists i :: 0 <= i < |users| && AddedForUser(memberships, academies, users[i], includePrivileged, m)
    {
      var k :| 0 <= k < |added| && added[k] == m;
      assert after[|memberships| + k] == m;
      var r :| r in planned && m == NewMembership(r) && !HasAny(memberships, r.academy, r.aliases);
      var i := MissingRowHasUser(memberships, academies, users, r);
      assert AddedForUser(memberships, academies, users[i], includePrivileged, m);
    }
  }

  /** After an apply, every planned user has a membership under one of its aliases, if its member id is one of them. */
  lemma {:induction false} PlannedIsPresent(memberships: seq<Membership>, rows: seq<MissingRow>, r: MissingRow)
    requires r in rows && r.userId in r.aliases
    ensures HasAny(UpsertAll(memberships, rows), r.academy, r.aliases)
  {
    hide NewMembership;
    var n := |rows| - 1;
    var before := UpsertAll(memberships, rows[..n]);
    var after := UpsertAll(memberships, rows);
    if r == rows[n] {
      if !HasAny(before, r.academy, r.aliases) {
        NewMembershipOf(r);
        assert NewMembership(r) in after;
      }
    } else {
      PlannedIsPresent(memberships, rows[..n], r);
      var m :| m in before && m.academy == r.academy && m.userId in r.aliases;
      assert m in after;
    }
  }

  lemma NewMembershipOf(r: MissingRow)
    ensures NewMembership(r).academy == r.academy && NewMembership(r).userId == r.userId && NewMembership(r).status == ACTIVE
  {
  }

  /** One user before and after the apply: a planned user whose member id is an alias is covered, every other verdict stands. */
  lemma VerdictAfterApply(memberships: seq<Membership>, academies: set<string>, users: seq<User>, includePrivileged: bool, i: nat)
    requires DisjointIds(users) && i < |users|
    ensures var (before, u) := (Examine(memberships, academies, users[i]), users[i]);
      var after := Examine(AfterApply(memberships, academies, users, includePrivileged), academies, u);
      if before.Missing? && IsPlanned(before.row, includePrivileged) && MemberId(u) in Aliases(u)
      then !after.Missing? else after == before
  {
    var u := users[i];
    var added := ApplyAddsForUsers(memberships, academies, users, includePrivileged);
    var before := Examine(memberships, academies, u);
    if before.Missing? && IsPlanned(before.row, includePrivileged) && MemberId(u) in Aliases(u) {
      UserHasMissingRow(memberships, academies, users, i);
      var missing := MissingRows(memberships, academies, users);
      PlannedIsFilter(missing, includePrivileged);
      PlannedIsPresent(memberships, Planned(missing, includePrivileged), before.row);
      NoStatusIffNone(memberships + added, u.academy, Aliases(u));
    } else if IsActive(u) {
      AddedOutside(memberships, academies, users, includePrivileged, i, added);
      ExistingUnaffected(memberships, added, u.academy, Aliases(u));
      hide Existing, AfterApply, IsActive, Aliases;
    }
  }

  /** What the apply added is outside this user's aliases, unless it was added for the user under one of them. */
  lemma AddedOutside(memberships: seq<Membership>, academies: set<string>, users: seq<User>, includePrivileged: bool, i: nat,
                     added: seq<Membership>)
    requires DisjointIds(users) && i < |users| && IsActive(users[i])
    requires AddedForUsers(memberships, academies, users, includePrivileged, added)
    requires var v := Examine(memberships, academies, users[i]);
      !(v.Missing? && IsPlanned(v.row, includePrivileged) && MemberId(users[i]) in Aliases(users[i]))
    ensures forall m :: m in added ==> m.academy != users[i].academy || m.userId !in Aliases(users[i])
  {
    hide IsActive, Aliases, MemberId, Roles, IsPlanned, Existing;
    forall m | m in added
      ensures m.academy != users[i].academy || m.userId !in Aliases(users[i])
    {
      var j :| 0 <= j < |users| && AddedForUser(memberships, academies, users[j], includePrivileged, m);
      if m.academy == users[i].academy && j != i {
        assert MemberId(users[j]) in Ids(users[j]) && Aliases(users[i]) <= Ids(users[i]);
        assert Ids(users[i]) !! Ids(users[j]);
      }
    }
  }

  /**
   * Convergence is exact. With no id shared between active users of an academy, the re-audit after an apply lists
   * exactly the rows the backfill skipped, if and only if every planned row's member id is one of the ids the audit
   * looks it up by (which holds for every user with a `user_id` or an `auth_uid`).
   */
  lemma ReauditListsSkippedIff(memberships: seq<Membership>, academies: set<string>, users: seq<User>, includePrivileged: bool)
    requires DisjointIds(users)
    ensures var missing := MissingRows(memberships, academies, users);
      var after := AfterApply(memberships, academies, users, includePrivileged);
      MissingRows(after, academies, users) == Skipped(missing, includePrivileged)
      <==> (forall r :: r in Planned(missing, includePrivileged) ==> r.userId in r.aliases)
  {
    var missing := MissingRows(memberships, academies, users);
    var after := AfterApply(memberships, academies, users, includePrivileged);
    forall i | 0 <= i < |users|
      ensures var before := Examine(memberships, academies, users[i]);
        Examine(after, academies, users[i]).Missing? <==>
          before.Missing? && (IsPlanned(before.row, includePrivileged) ==> before.row.userId !in before.row.aliases)
      ensures Examine(after, academies, users[i]).Missing? ==> Examine(after, academies, users[i]) == Examine(memberships, academies, users[i])
    {
      VerdictAfterApply(memberships, academies, users, includePrivileged, i);
      hide Existing, IsPlanned, AfterApply, IsActive, Roles, Aliases, MemberId;
    }
    hide Examine, IsPlanned, AfterApply;
    ListsMatch(memberships, after, academies, users, includePrivileged);
    PlannedIsFilter(missing, includePrivileged);
  }

  /** The second missing list, user by user: the skipped rows plus the planned ones that stay out of reach. */
  lemma {:induction false} ListsMatch(memberships: seq<Membership>, after: seq<Membership>, academies: set<string>, users: seq<User>, includePrivileged: bool)
    requires forall i :: 0 <= i < |users| ==>
      var (v, w) := (Examine(memberships, academies, users[i]), Examine(after, academies, users[i]));
      && (w.Missing? <==> v.Missing? && (IsPlanned(v.row, includePrivileged) ==> v.row.userId !in v.row.aliases))
      && (w.Missing? ==> w == v)
    ensures var (missing, again) := (MissingRows(memberships, academies, users), MissingRows(after, academies, users));
      && |again| >= |Skipped(missing, includePrivileged)|
      && ((forall r :: r in Planned(missing, includePrivileged) ==> r.userId in r.aliases)
            ==> again == Skipped(missing, includePrivileged))
      && ((exists r :: r in Planned(missing, includePrivileged) && r.userId !in r.aliases)
            ==> |again| > |Skipped(missing, includePrivileged)|)
  {
    hide Examine, IsPlanned;
    if users != [] {
      var n := |users| - 1;
      ListsMatch(memberships, after, academies, users[..n], includePrivileged);
      var missing := MissingRows(memberships, academies, users);
      var before := MissingRows(memberships, academies, users[..n]);
      assert Examine(memberships, academies, users[n]).Missing? ==> missing[..|missing| - 1] == before;
    }
  }

  /** A second apply inserts nothing when every planned row's member id is one of its aliases; ids may be shared. */
  lemma SecondApplyInsertsNothing(memberships: seq<Membership>, academies: set<string>, users: seq<User>, includePrivileged: bool)
    requires forall r :: r in Planned(MissingRows(memberships, academies, users), includePrivileged) ==> r.userId in r.aliases
    ensures var after := AfterApply(memberships, academies, users, includePrivileged);
      AfterApply(after, academies, users, includePrivileged) == after
  {
    var missing := MissingRows(memberships, academies, users);
    var planned := Planned(missing, includePrivileged);
    var after := AfterApply(memberships, academies, users, includePrivileged);
    var again := MissingRows(after, academies, users);
    PlannedIsFilter(missing, includePrivileged);
    PlannedIsFilter(again, includePrivileged);
    UpsertsOnlyAdd(memberships, planned);
    if Planned(again, includePrivileged) != [] {
      var r := Planned(again, includePrivileged)[0];
      assert r in Planned(again, includePrivileged);
      var i := MissingRowHasUser(after, academies, users, r);
      NoStatusIffNone(after, r.academy, r.aliases);
      NoStatusIffNone(memberships, r.academy, r.aliases);
      FewerBefore(memberships, after, r.academy, r.aliases);
      StillMissing(memberships, after, academies, users[i]);
      UserHasMissingRow(memberships, academies, users, i);
      PlannedIsPresent(memberships, planned, r);
      assert false;
    }
  }

  /** A row nobody has a membership for in the end was inserted under an id outside its aliases. */
  lemma {:induction false} UnreachableRowIsInserted(before: seq<Membership>, rows: seq<MissingRow>, r: MissingRow)
    requires r in rows && !HasAny(UpsertAll(before, rows), r.academy, r.aliases)
    ensures |UpsertAll(before, rows)| > |before|
  {
    hide NewMembership;
    var n := |rows| - 1;
    var mid := UpsertAll(before, rows[..n]);
    UpsertsOnlyAdd(before, rows[..n]);
    if r != rows[n] {
      FewerBefore(mid, UpsertAll(before, rows), r.academy, r.aliases);
      UnreachableRowIsInserted(before, rows[..n], r);
    }
  }

  /**
   * With no id shared between active users of an academy, a second apply inserts nothing if and only if every planned
   * row's member id is one of the ids the audit looks it up by; otherwise it inserts such a row once more.
   */
  lemma SecondApplyInsertsNothingIff(memberships: seq<Membership>, academies: set<string>, users: seq<User>, includePrivileged: bool)
    requires DisjointIds(users)
    ensures var after := AfterApply(memberships, academies, users, includePrivileged);
      AfterApply(after, academies, users, includePrivileged) == after
      <==> (forall r :: r in Planned(MissingRows(memberships, academies, users), includePrivileged) ==> r.userId in r.aliases)
  {
    var planned := Planned(MissingRows(memberships, academies, users), includePrivileged);
    hide *;
    if forall r :: r in planned ==> r.userId in r.aliases {
      SecondApplyInsertsNothing(memberships, academies, users, includePrivileged);
    }
    forall r | r in planned && r.userId !in r.aliases
      ensures |AfterApply(AfterApply(memberships, academies, users, includePrivileged), academies, users, includePrivileged)|
            > |AfterApply(memberships, academies, users, includePrivileged)|
    {
      UnreachableRowReturns(memberships, academies, users, includePrivileged, r);
    }
  }

  lemma UnreachableRowReturns(memberships: seq<Membership>, academies: set<string>, users: seq<User>, includePrivileged: bool, r: MissingRow)
    requires DisjointIds(users)
    requires r in Planned(MissingRows(memberships, academies, users), includePrivileged) && r.userId !in r.aliases
    ensures var after := AfterApply(memberships, academies, users, includePrivileged);
      |AfterApply(after, academies, users, includePrivileged)| > |after|
  {
    var missing := MissingRows(memberships, academies, users);
    var after := AfterApply(memberships, academies, users, includePrivileged);
    var rows := Planned(MissingRows(after, academies, users), includePrivileged);
    PlannedIsFilter(missing, includePrivileged);
    PlannedIsFilter(MissingRows(after, academies, users), includePrivileged);
    var i := MissingRowHasUser(memberships, academies, users, r);
    MemberIdOfRow(users[i], academies);
    VerdictAfterApply(memberships, academies, users, includePrivileged, i);
    UserHasMissingRow(after, academies, users, i);
    hide MissingRows, Planned, Examine, IsPlanned, IsActive;
    UpsertsOnlyAdd(after, rows);
    if HasAny(UpsertAll(after, rows), r.academy, r.aliases) {
      NoneForMissing(after, academies, users[i], r);
    } else {
      UnreachableRowIsInserted(after, rows, r);
    }
  }

  lemma MemberIdOfRow(u: User, academies: set<string>)
    ensures RowOf(u, academies).userId == MemberId(u) && RowOf(u, academies).aliases == Aliases(u)
  {
  }

  lemma NoneForMissing(memberships: seq<Membership>, academies: set<string>, u: User, r: MissingRow)
    requires Examine(memberships, academies, u) == Missing(r)
    ensures !HasAny(memberships, r.academy, r.aliases)
  {
    NoStatusIffNone(memberships, u.academy, Aliases(u));
    hide Existing, HasAny, IsActive, Aliases, Roles, MemberId;
  }

  lemma FewerBefore(before: seq<Membership>, after: seq<Membership>, academy: string, ids: set<string>)
    requires before <= after && !HasAny(after, academy, ids)
    ensures !HasAny(before, academy, ids)
  {
    forall m | m in before ensures m in after {
      var i :| 0 <= i < |before| && before[i] == m;
      assert after[i] == m;
    }
  }

  lemma StillMissing(before: seq<Membership>, after: seq<Membership>, academies: set<string>, u: User)
    requires Examine(after, academies, u).Missing? && Existing(before, u.academy, Aliases(u)) == {}
    ensures Examine(before, academies, u) == Examine(after, academies, u)
  {
    hide Existing, IsActive, Aliases, RowOf;
  }

  /** A user with a `user_id` or an `auth_uid` is looked up by the id its membership would get. */
  lemma NamedUsersAreReachable(u: User, academies: set<string>)
    requires u.userId != "" || u.authUid != ""
    ensures RowOf(u, academies).userId in RowOf(u, academies).aliases
  {
    hide Roles;
  }
}
