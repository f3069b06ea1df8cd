/** The multi-academy preflight: which active users lack a membership, and the backfill that inserts the safe ones. */
module Memberships {
  import opened Wrappers
  import opened Text

  /** Absent strings are empty; `roles` is `None` when the field is not a list. */
  datatype User = User(
    docId: string, userId: string, authUid: string, firebaseUid: string, academy: string,
    roles: Option<seq<string>>, role: string, globalStatus: Option<string>, status: Option<string>, isActive: bool)

  datatype Membership = Membership(academy: string, userId: string, status: string, roles: set<string>)

  datatype MissingRow = MissingRow(academy: string, userId: string, aliases: set<string>, roles: set<string>, academyExists: bool)

  datatype Verdict = NotActive | NoAcademy | Covered | Blocked(statuses: set<string>) | Missing(row: MissingRow)

  const ACADEMY_ROLES := {"admin", "coach", "assistant_coach", "parent", "student", "owner", "billing", "front_desk"}
  const PRIVILEGED_ROLES := {"owner", "admin", "billing"}
  const DISABLED_STATUSES := {"disabled", "inactive", "suspended", "deleted"}
  const ACTIVE := "active"

  /** `_aliases`. */
  function Aliases(u: User): set<string> {
    {u.userId, u.authUid, u.firebaseUid} - {""}
  }

  /** `_roles`: the list wins over the single legacy role; only academy roles are kept. */
  function Roles(u: User): set<string> {
    var raw := if u.roles.Some? && u.roles.value != [] then (set r | r in u.roles.value) else {u.role};
    (raw - {""}) * ACADEMY_ROLES
  }

  /** `_is_active`. */
  predicate IsActive(u: User) {
    && (u.globalStatus.Some? ==> Lower(u.globalStatus.value) == ACTIVE)
    && (u.status.Some? ==> Lower(u.status.value) !in DISABLED_STATUSES)
    && u.isActive
  }

  /** The id a backfilled membership gets. */
  function MemberId(u: User): string {
    if u.userId != "" then u.userId else if u.authUid != "" then u.authUid else u.docId
  }

  /** The status recorded for a user id in an academy; a later row overrides an earlier one. */
  function StatusOf(memberships: seq<Membership>, academy: string, id: string): Option<string> {
    if memberships == [] then None else
    var m := memberships[|memberships| - 1];
    if m.academy == academy && m.userId == id then Some(m.status) else StatusOf(memberships[..|memberships| - 1], academy, id)
  }

  function Existing(memberships: seq<Membership>, academy: string, aliases: set<string>): set<string> {
    set a | a in aliases && StatusOf(memberships, academy, a).Some? :: StatusOf(memberships, academy, a).value
  }

  function RowOf(u: User, academies: set<string>): MissingRow {
    MissingRow(u.academy, MemberId(u), Aliases(u), Roles(u), u.academy in academies)
  }

  function Examine(memberships: seq<Membership>, academies: set<string>, u: User): Verdict {
    if !IsActive(u) then NotActive
    else if u.academy == "" then NoAcademy
    else
      var existing := Existing(memberships, u.academy, Aliases(u));
      if ACTIVE in existing then Covered
      else if existing != {} then Blocked(existing)
      else Missing(RowOf(u, academies))
  }

  /** The audit's list of active users without any membership. */
  function MissingRows(memberships: seq<Membership>, academies: set<string>, users: seq<User>): seq<MissingRow> {
    if users == [] then [] else
    var (before, v) := (MissingRows(memberships, academies, users[..|users| - 1]), Examine(memberships, academies, users[|users| - 1]));
    if v.Missing? then before + [v.row] else before
  }

  datatype BlockedRow = BlockedRow(academy: string, userId: string, statuses: set<string>)

  /** The audit's list of active users whose memberships all carry some other status. */
  function BlockedRows(memberships: seq<Membership>, academies: set<string>, users: seq<User>): seq<BlockedRow> {
    if users == [] then [] else
    var u := users[|users| - 1];
    var (before, v) := (BlockedRows(memberships, academies, users[..|users| - 1]), Examine(memberships, academies, u));
    if v.Blocked? then before + [BlockedRow(u.academy, MemberId(u), v.statuses)] else before
  }

  predicate Privileged(row: MissingRow) {
    row.roles * PRIVILEGED_ROLES != {}
  }

  predicate IsPlanned(row: MissingRow, includePrivileged: bool) {
    row.academyExists && row.roles != {} && (includePrivileged || !Privileged(row))
  }

  function Planned(missing: seq<MissingRow>, includePrivileged: bool): seq<MissingRow> {
    if missing == [] then [] else
    var last := missing[|missing| - 1];
    Planned(missing[..|missing| - 1], includePrivileged) + if IsPlanned(last, includePrivileged) then [last] else []
  }

  function Skipped(missing: seq<MissingRow>, includePrivileged: bool): seq<MissingRow> {
    if missing == [] then [] else
    var last := missing[|missing| - 1];
    Skipped(missing[..|missing| - 1], includePrivileged) + if IsPlanned(last, includePrivileged) then [] else [last]
  }

  /** True when some membership exists under any of the ids, whatever its status. */
  predicate HasAny(memberships: seq<Membership>, academy: string, ids: set<string>) {
    exists m :: m in memberships && m.academy == academy && m.userId in ids
  }

  function NewMembership(row: MissingRow): Membership {
    Membership(row.academy, row.userId, ACTIVE, row.roles)
  }

  function UpsertAll(memberships: seq<Membership>, rows: seq<MissingRow>): seq<Membership> {
    if rows == [] then memberships else
    var (before, row) := (UpsertAll(memberships, rows[..|rows| - 1]), rows[|rows| - 1]);
    if HasAny(before, row.academy, row.aliases) then before else before + [NewMembership(row)]
  }

  /** The memberships after one audit and one applied backfill. */
  function AfterApply(memberships: seq<Membership>, academies: set<string>, users: seq<User>, includePrivileged: bool): seq<Membership> {
    UpsertAll(memberships, Planned(MissingRows(memberships, academies, users), includePrivileged))
  }

  datatype Outcome = Outcome(wouldWrite: nat, written: nat, skipped: nat)

  // ----- the source's mutable form -----

  class MembershipStore {
    var memberships: seq<Membership>

    /** `member_status`: per academy, the last status seen for each user id. */
    method StatusTable() returns (table: map<string, map<string, string>>)
      ensures forall a, id :: StatusIn(table, a, id) == StatusOf(memberships, a, id)
    {
      table := map[];
      for i := 0 to |memberships|
        invariant forall a, id :: StatusIn(table, a, id) == StatusOf(memberships[..i], a, id)
      {
        var m := memberships[i];
        assert memberships[..i + 1][..i] == memberships[..i];
        var inner := if m.academy in table then table[m.academy] else map[];
        table := table[m.academy := inner[m.userId := m.status]];
      }
      assert memberships[..|memberships|] == memberships;
    }

    /** The user loop of `audit`. */
    method FindMissing(academies: set<string>, users: seq<User>) returns (missing: seq<MissingRow>, notActive: seq<BlockedRow>)
      ensures missing == MissingRows(memberships, academies, users)
      ensures notActive == BlockedRows(memberships, academies, users)
    {
      hide IsActive, Aliases, Roles, MemberId, RowOf, StatusOf, StatusIn;
      var table := StatusTable();
      missing, notActive := [], [];
      for i := 0 to |users|
        invariant missing == MissingRows(memberships, academies, users[..i])
        invariant notActive == BlockedRows(memberships, academies, users[..i])
      {
        var u := users[i];
        assert users[..i + 1][..i] == users[..i];
        if !IsActive(u) || u.academy == "" {
          continue;
        }
        var aliases := Aliases(u);
        var existing := set a | a in aliases && StatusIn(table, u.academy, a).Some? :: StatusIn(table, u.academy, a).value;
        assert existing == Existing(memberships, u.academy, aliases);
        if ACTIVE in existing {
          continue;
        }
        if existing != {} {
          notActive := notActive + [BlockedRow(u.academy, MemberId(u), existing)];
          continue;
        }
        missing := missing + [RowOf(u, academies)];
      }
      assert users[..|users|] == users;
    }

    /** `backfill_memberships`. */
    method BackfillMemberships(missing: seq<MissingRow>, apply: bool, includePrivileged: bool) returns (r: Outcome)
      modifies this
      ensures memberships == if apply then UpsertAll(old(memberships), Planned(missing, includePrivileged)) else old(memberships)
      ensures r.wouldWrite == |Planned(missing, includePrivileged)| && r.written == |memberships| - |old(memberships)|
      ensures r.wouldWrite + r.skipped == |missing|
    {
      hide IsPlanned, NewMembership;
      var planned: seq<MissingRow> := [];
      for i := 0 to |missing|
        invariant planned == Planned(missing[..i], includePrivileged) && |planned| <= i
      {
        assert missing[..i + 1][..i] == missing[..i];
        if IsPlanned(missing[i], includePrivileged) {
          planned := planned + [missing[i]];
        }
      }
      assert missing[..|missing|] == missing;
      if !apply {
        return Outcome(|planned|, 0, |missing| - |planned|);
      }
      ghost var before := memberships;
      var written := 0;
      for i := 0 to |planned|
        invariant memberships == UpsertAll(before, planned[..i]) && |memberships| == |before| + written
      {
        var row := planned[i];
        assert planned[..i + 1][..i] == planned[..i];
        if !exists m :: m in memberships && m.academy == row.academy && m.userId in row.aliases {
          memberships := memberships + [NewMembership(row)];
          written := written + 1;
        }
      }
      assert planned[..|planned|] == planned;
      r := Outcome(|planned|, written, |missing| - |planned|);
    }
  }

  function StatusIn(table: map<string, map<string, string>>, academy: string, id: string): Option<string> {
    if academy in table && id in table[academy] then Some(table[academy][id]) else None
  }
}
