/** What a reconciliation pass leaves of every session's drift, for every interleaving with production. */
module SeatProperties {
  import opened ReservedSeats
  import opened Wrappers

  // ----- what production did -----

  /** The net change of a session's counter over some moves, and of its active enrollments. */
  function NetSeats(moves: seq<Move>, id: string): int {
    if moves == [] then 0 else
    NetSeats(moves[..|moves| - 1], id) + if moves[|moves| - 1].id == id then moves[|moves| - 1].seats else 0
  }

  function NetActive(moves: seq<Move>, id: string): int {
    if moves == [] then 0 else
    NetActive(moves[..|moves| - 1], id) + if moves[|moves| - 1].id == id then moves[|moves| - 1].active else 0
  }

  /** Some move wrote the session's counter. */
  predicate Touches(moves: seq<Move>, id: string) {
    if moves == [] then false else
    Touches(moves[..|moves| - 1], id) || (moves[|moves| - 1].id == id && moves[|moves| - 1].seats != 0)
  }

  lemma {:induction false} UntouchedNetsZero(moves: seq<Move>, id: string)
    requires !Touches(moves, id)
    ensures NetSeats(moves, id) == 0
  {
    if moves != [] {
      UntouchedNetsZero(moves[..|moves| - 1], id);
    }
  }

  /** What some moves leave of one session: its counts shifted, its counter a number as soon as one move wrote it. */
  ghost predicate ShiftedBy(s: Session, t: Session, moves: seq<Move>, id: string) {
    && t == s.(counter := t.counter, active := s.active + NetActive(moves, id))
    && Seats(t.counter) == Seats(s.counter) + NetSeats(moves, id)
    && if Touches(moves, id) then t.counter.Num? else t.counter == s.counter
  }

  lemma {:induction false} PlayShifts(m: Sessions, moves: seq<Move>)
    ensures forall id :: id in m ==> ShiftedBy(m[id], Play(m, moves)[id], moves, id)
  {
    if moves != [] {
      PlayShifts(m, moves[..|moves| - 1]);
    }
  }

  /** The same, over the moves made before the first `n` writes. */
  function SeatMoves(between: seq<seq<Move>>, n: nat, id: string): int {
    if n == 0 then 0 else SeatMoves(between, n - 1, id) + NetSeats(MovesBefore(between, n - 1), id)
  }

  function ActiveMoves(between: seq<seq<Move>>, n: nat, id: string): int {
    if n == 0 then 0 else ActiveMoves(between, n - 1, id) + NetActive(MovesBefore(between, n - 1), id)
  }

  predicate TouchedBefore(between: seq<seq<Move>>, n: nat, id: string) {
    n > 0 && (TouchedBefore(between, n - 1, id) || Touches(MovesBefore(between, n - 1), id))
  }

  lemma {:induction false} UntouchedMovesNetZero(between: seq<seq<Move>>, n: nat, id: string)
    requires !TouchedBefore(between, n, id)
    ensures SeatMoves(between, n, id) == 0
  {
    if n > 0 {
      UntouchedMovesNetZero(between, n - 1, id);
      UntouchedNetsZero(MovesBefore(between, n - 1), id);
    }
  }

  // ----- rows -----

  ghost predicate DistinctRowIds(rows: seq<DeltaRow>) {
    forall i, j :: 0 <= i < j < |rows| ==> rows[i].id != rows[j].id
  }

  lemma {:induction false} DriftedKeepsDistinct(rows: seq<DeltaRow>)
    requires DistinctRowIds(rows)
    ensures DistinctRowIds(Drifted(rows))
  {
    if rows != [] {
      var n := |rows| - 1;
      DriftedKeepsDistinct(rows[..n]);
      DriftedAreRows(rows[..n]);
      assert forall i :: 0 <= i < |Drifted(rows[..n])| ==> Drifted(rows[..n])[i] in rows[..n];
    }
  }

  /** Which write corrects a session; -1 when none does. */
  function WriteIndex(rows: seq<DeltaRow>, id: string): (i: int)
    ensures -1 <= i < |rows|
    ensures i >= 0 ==> rows[i].id == id
  {
    if rows == [] then -1
    else if rows[|rows| - 1].id == id then |rows| - 1
    else WriteIndex(rows[..|rows| - 1], id)
  }

  lemma {:induction false} WriteIndexOfRow(rows: seq<DeltaRow>, i: nat)
    requires i < |rows| && DistinctRowIds(rows)
    ensures WriteIndex(rows, rows[i].id) == i
  {
    if i < |rows| - 1 {
      assert rows[i].id != rows[|rows| - 1].id;
      WriteIndexOfRow(rows[..|rows| - 1], i);
    }
  }

  lemma {:induction false} NoWriteIndex(rows: seq<DeltaRow>, id: string)
    requires forall r :: r in rows ==> r.id != id
    ensures WriteIndex(rows, id) == -1
  {
  }

  /** The row the two snapshot reads give a session. */
  function RowOf(m: Sessions, gap: seq<Move>, id: string): DeltaRow
    requires id in m
  {
    SessionDeltaRow(id, m[id], m[id].active + NetActive(gap, id))
  }

  lemma SnapshotRows(m: Sessions, order: seq<string>, gap: seq<Move>)
    requires Lists(order, m)
    ensures var rows := Snapshot(m, order, gap);
      && DistinctRowIds(rows)
      && (forall id :: id in m ==> RowOf(m, gap, id) in rows)
      && (forall r :: r in rows ==> r.id in m && r == RowOf(m, gap, r.id))
  {
    PlayShifts(m, gap);
    hide Play, NetActive, NetSeats, Touches;
    var rows := Snapshot(m, order, gap);
    forall i | 0 <= i < |rows|
      ensures order[i] in m && rows[i] == RowOf(m, gap, order[i]) && rows[i].id == order[i]
    {
      assert ShiftedBy(m[order[i]], Play(m, gap)[order[i]], gap, order[i]);
    }
    hide Snapshot, RowOf, ShiftedBy;
    forall id | id in m
      ensures RowOf(m, gap, id) in rows
    {
      var i :| 0 <= i < |order| && order[i] == id;
      assert rows[i] == RowOf(m, gap, id);
    }
  }

  // ----- one compare-and-set -----

  /**
   * Whether the compare-and-set of write `i` finds the counter it observed. A number is found again exactly when the
   * moves since the first read cancel out, so a reserve and a release in between go unnoticed; an absent or null
   * counter exactly when nothing wrote it.
   */
  predicate CasWins(seen: Counter, gap: seq<Move>, between: seq<seq<Move>>, id: string, i: nat) {
    if seen.Num? then NetSeats(gap, id) + SeatMoves(between, i + 1, id) == 0
    else !Touches(gap, id) && !TouchedBefore(between, i + 1, id)
  }

  /** A session after some rows were handled and `n` batches of moves were made. */
  ghost predicate SessionIs(t: Session, s: Session, gap: seq<Move>, rows: seq<DeltaRow>, between: seq<seq<Move>>, n: nat, id: string) {
    var i := WriteIndex(rows, id);
    && t == s.(counter := t.counter, active := s.active + NetActive(gap, id) + ActiveMoves(between, n, id))
    && if i >= 0 && CasWins(s.counter, gap, between, id, i) then
         && t.counter.Num?
         && t.counter.n == s.active + NetActive(gap, id) + SeatMoves(between, n, id) - SeatMoves(between, i + 1, id)
       else
         && Seats(t.counter) == Seats(s.counter) + NetSeats(gap, id) + SeatMoves(between, n, id)
         && if Touches(gap, id) || TouchedBefore(between, n, id) then t.counter.Num? else t.counter == s.counter
  }

  lemma NothingYet(m: Sessions, gap: seq<Move>, between: seq<seq<Move>>, id: string)
    requires id in m
    ensures SessionIs(Play(m, gap)[id], m[id], gap, [], between, 0, id)
  {
    PlayShifts(m, gap);
    hide Play, NetSeats, NetActive, Touches;
    assert ShiftedBy(m[id], Play(m, gap)[id], gap, id);
  }

  lemma PlayKeepsIs(t: Session, u: Session, s: Session, gap: seq<Move>, rows: seq<DeltaRow>, between: seq<seq<Move>>, n: nat, id: string)
    requires SessionIs(t, s, gap, rows, between, n, id) && ShiftedBy(t, u, MovesBefore(between, n), id)
    ensures SessionIs(u, s, gap, rows, between, n + 1, id)
  {
    hide NetSeats, NetActive, Touches, WriteIndex, CasWins, MovesBefore;
  }

  lemma OtherRowKeepsIs(t: Session, s: Session, gap: seq<Move>, rows: seq<DeltaRow>, r: DeltaRow, between: seq<seq<Move>>, n: nat, id: string)
    requires SessionIs(t, s, gap, rows, between, n, id) && r.id != id
    ensures SessionIs(t, s, gap, rows + [r], between, n, id)
  {
    hide NetSeats, NetActive, Touches, CasWins, SeatMoves, ActiveMoves, TouchedBefore;
    assert (rows + [r])[..|rows|] == rows;
  }

  /** The write of a session that had none yet goes through exactly when it wins. */
  lemma CasDecides(t: Session, s: Session, gap: seq<Move>, rows: seq<DeltaRow>, between: seq<seq<Move>>, id: string)
    requires SessionIs(t, s, gap, rows, between, |rows| + 1, id) && WriteIndex(rows, id) == -1
    ensures CasMatches(s.counter, t.counter) <==> CasWins(s.counter, gap, between, id, |rows|)
  {
    if !Touches(gap, id) {
      UntouchedNetsZero(gap, id);
    }
    if !TouchedBefore(between, |rows| + 1, id) {
      UntouchedMovesNetZero(between, |rows| + 1, id);
    }
    hide NetSeats, NetActive, Touches, SeatMoves, ActiveMoves, TouchedBefore, WriteIndex;
  }

  lemma OwnRowIs(t: Session, s: Session, gap: seq<Move>, rows: seq<DeltaRow>, r: DeltaRow, between: seq<seq<Move>>)
    requires SessionIs(t, s, gap, rows, between, |rows| + 1, r.id) && WriteIndex(rows, r.id) == -1
    requires r.active == s.active + NetActive(gap, r.id)
    ensures CasMatches(s.counter, t.counter) <==> CasWins(s.counter, gap, between, r.id, |rows|)
    ensures SessionIs(if CasMatches(s.counter, t.counter) then t.(counter := Num(r.active)) else t,
                      s, gap, rows + [r], between, |rows| + 1, r.id)
  {
    CasDecides(t, s, gap, rows, between, r.id);
    LastIndex(rows, r);
    hide NetSeats, NetActive, Touches, SeatMoves, ActiveMoves, TouchedBefore, CasMatches, CasWins, WriteIndex;
  }

  lemma LastIndex(rows: seq<DeltaRow>, r: DeltaRow)
    ensures WriteIndex(rows + [r], r.id) == |rows|
  {
  }

  // ----- the pass -----

  /** The state of the pass after some rows: every session, and which writes went through. */
  ghost predicate Accounts(p: Pass, m: Sessions, gap: seq<Move>, rows: seq<DeltaRow>, between: seq<seq<Move>>, n: nat) {
    p.sessions.Keys == m.Keys && forall id :: AccountsFor(p, m, gap, rows, between, n, id)
  }

  ghost predicate AccountsFor(p: Pass, m: Sessions, gap: seq<Move>, rows: seq<DeltaRow>, between: seq<seq<Move>>, n: nat, id: string) {
    && (id in m ==> id in p.sessions && SessionIs(p.sessions[id], m[id], gap, rows, between, n, id))
    && (id in p.corrected <==> Corrected(m, gap, rows, between, id))
    && (id in p.lost <==> Lost(m, gap, rows, between, id))
  }

  predicate Corrected(m: Sessions, gap: seq<Move>, rows: seq<DeltaRow>, between: seq<seq<Move>>, id: string) {
    var i := WriteIndex(rows, id); id in m && i >= 0 && CasWins(m[id].counter, gap, between, id, i)
  }

  predicate Lost(m: Sessions, gap: seq<Move>, rows: seq<DeltaRow>, between: seq<seq<Move>>, id: string) {
    var i := WriteIndex(rows, id); id in m && i >= 0 && !CasWins(m[id].counter, gap, between, id, i)
  }

  lemma {:induction false} PassAccounts(m: Sessions, gap: seq<Move>, rows: seq<DeltaRow>, between: seq<seq<Move>>)
    requires DistinctRowIds(rows)
    requires forall r :: r in rows ==> r.id in m && r == RowOf(m, gap, r.id)
    ensures Accounts(CorrectAll(Play(m, gap), rows, m, between), m, gap, rows, between, |rows|)
  {
    hide Play, CasMatches, RowOf, Accounts, CorrectOne, MovesBefore;
    if rows == [] {
      NothingAccounts(m, gap, between);
    } else {
      var n := |rows| - 1;
      assert rows == rows[..n] + [rows[n]];
      PassAccounts(m, gap, rows[..n], between);
      var before := CorrectAll(Play(m, gap), rows[..n], m, between);
      PlayAccounts(before, m, gap, rows[..n], between, n);
      NoWriteIndex(rows[..n], rows[n].id);
      StepAccounts(before.(sessions := Play(before.sessions, MovesBefore(between, n))), m, gap, rows[..n], rows[n], between);
    }
  }

  lemma NothingAccounts(m: Sessions, gap: seq<Move>, between: seq<seq<Move>>)
    ensures Accounts(Pass(Play(m, gap), [], []), m, gap, [], between, 0)
  {
    hide SessionIs, Play;
    forall id | id in m
      ensures SessionIs(Play(m, gap)[id], m[id], gap, [], between, 0, id)
    {
      NothingYet(m, gap, between, id);
    }
  }

  lemma PlayAccounts(p: Pass, m: Sessions, gap: seq<Move>, rows: seq<DeltaRow>, between: seq<seq<Move>>, n: nat)
    requires Accounts(p, m, gap, rows, between, n)
    ensures Accounts(p.(sessions := Play(p.sessions, MovesBefore(between, n))), m, gap, rows, between, n + 1)
  {
    var q := p.(sessions := Play(p.sessions, MovesBefore(between, n)));
    PlayShifts(p.sessions, MovesBefore(between, n));
    hide Play, SessionIs, ShiftedBy, Corrected, Lost, MovesBefore;
    var next := n + 1;
    forall id
      ensures AccountsFor(q, m, gap, rows, between, next, id)
    {
      assert AccountsFor(p, m, gap, rows, between, n, id);
      if id in m {
        PlayKeepsIs(p.sessions[id], q.sessions[id], m[id], gap, rows, between, n, id);
      }
    }
  }

  lemma StepAccounts(p: Pass, m: Sessions, gap: seq<Move>, rows: seq<DeltaRow>, r: DeltaRow, between: seq<seq<Move>>)
    requires Accounts(p, m, gap, rows, between, |rows| + 1)
    requires WriteIndex(rows, r.id) == -1 && r.id in m && r == RowOf(m, gap, r.id)
    ensures Accounts(CorrectOne(p, r, m), m, gap, rows + [r], between, |rows| + 1)
  {
    hide AccountsFor, WriteIndex, RowOf, CasMatches;
    var q, all, n := CorrectOne(p, r, m), rows + [r], |rows| + 1;
    forall id
      ensures AccountsFor(q, m, gap, all, between, n, id)
    {
      assert AccountsFor(p, m, gap, rows, between, n, id) && AccountsFor(p, m, gap, rows, between, n, r.id);
      if id == r.id {
        OwnStepAccounts(p, m, gap, rows, r, between);
      } else {
        OtherStepAccounts(p, m, gap, rows, r, between, id);
      }
    }
  }

  lemma OwnStepAccounts(p: Pass, m: Sessions, gap: seq<Move>, rows: seq<DeltaRow>, r: DeltaRow, between: seq<seq<Move>>)
    requires AccountsFor(p, m, gap, rows, between, |rows| + 1, r.id)
    requires WriteIndex(rows, r.id) == -1 && r.id in m && r == RowOf(m, gap, r.id)
    ensures AccountsFor(CorrectOne(p, r, m), m, gap, rows + [r], between, |rows| + 1, r.id)
  {
    OwnRowIs(p.sessions[r.id], m[r.id], gap, rows, r, between);
    VerdictsSnoc(m, gap, rows, r, between, r.id);
    NoVerdictYet(m, gap, rows, between, r.id);
    hide CasMatches, SessionIs, CasWins, WriteIndex, Corrected, Lost;
  }

  lemma OtherStepAccounts(p: Pass, m: Sessions, gap: seq<Move>, rows: seq<DeltaRow>, r: DeltaRow, between: seq<seq<Move>>, id: string)
    requires AccountsFor(p, m, gap, rows, between, |rows| + 1, id) && id != r.id
    requires WriteIndex(rows, r.id) == -1 && r.id in m
    ensures AccountsFor(CorrectOne(p, r, m), m, gap, rows + [r], between, |rows| + 1, id)
  {
    VerdictsSnoc(m, gap, rows, r, between, id);
    if id in m {
      OtherRowKeepsIs(p.sessions[id], m[id], gap, rows, r, between, |rows| + 1, id);
    }
    hide CasMatches, SessionIs, CasWins, WriteIndex, Corrected, Lost;
  }

  lemma NoVerdictYet(m: Sessions, gap: seq<Move>, rows: seq<DeltaRow>, between: seq<seq<Move>>, id: string)
    requires WriteIndex(rows, id) == -1
    ensures !Corrected(m, gap, rows, between, id) && !Lost(m, gap, rows, between, id)
  {
  }

  lemma VerdictsSnoc(m: Sessions, gap: seq<Move>, rows: seq<DeltaRow>, r: DeltaRow, between: seq<seq<Move>>, id: string)
    requires WriteIndex(rows, r.id) == -1 && r.id in m
    ensures Corrected(m, gap, rows + [r], between, id)
      <==> Corrected(m, gap, rows, between, id) || (id == r.id && CasWins(m[r.id].counter, gap, between, r.id, |rows|))
    ensures Lost(m, gap, rows + [r], between, id)
      <==> Lost(m, gap, rows, between, id) || (id == r.id && !CasWins(m[r.id].counter, gap, between, r.id, |rows|))
  {
    hide CasWins;
    assert (rows + [r])[..|rows|] == rows;
  }

  /** The drift the two snapshot reads show. */
  function SnapshotDelta(m: Sessions, gap: seq<Move>, id: string): int
    requires id in m
  {
    Drift(m[id]) - NetActive(gap, id)
  }

  /** How a session's drift moves while production writes it and the pass does not. */
  function UncorrectedDrift(m: Sessions, gap: seq<Move>, between: seq<seq<Move>>, n: nat, id: string): int
    requires id in m
  {
    Drift(m[id]) + NetSeats(gap, id) + SeatMoves(between, n, id) - NetActive(gap, id) - ActiveMoves(between, n, id)
  }

  /**
   * How a pass ends for one session. Its write, if it has one, goes through exactly when `CasWins`, and then the session
   * ends off by what production did to the counter after the write less what it did to the enrollments after the second
   * read. A lost write, and a session without one, leaves the drift to production alone.
   */
  ghost predicate Ends(p: Pass, m: Sessions, gap: seq<Move>, rows: seq<DeltaRow>, between: seq<seq<Move>>, id: string)
    requires id in m
  {
    var (n, i) := (|rows| + 1, WriteIndex(rows, id));
    && id in p.sessions
    && (id in p.corrected <==> Corrected(m, gap, rows, between, id))
    && (id in p.lost <==> Lost(m, gap, rows, between, id))
    && p.sessions[id] == m[id].(counter := p.sessions[id].counter,
                                active := m[id].active + NetActive(gap, id) + ActiveMoves(between, n, id))
    && Drift(p.sessions[id]) ==
         if id in p.corrected then SeatMoves(between, n, id) - SeatMoves(between, i + 1, id) - ActiveMoves(between, n, id)
         else UncorrectedDrift(m, gap, between, n, id)
  }

  lemma AccountsMeanEnds(p: Pass, m: Sessions, gap: seq<Move>, rows: seq<DeltaRow>, between: seq<seq<Move>>, id: string)
    requires Accounts(p, m, gap, rows, between, |rows| + 1) && id in m
    ensures Ends(p, m, gap, rows, between, id)
  {
    hide NetSeats, NetActive, SeatMoves, ActiveMoves, TouchedBefore, Touches, CasWins, WriteIndex;
    assert AccountsFor(p, m, gap, rows, between, |rows| + 1, id);
  }

  /**
   * One pass, for every interleaving of every kind of production write: each session the snapshot shows drifted, and no
   * other, has one write, and every session ends as `Ends` says.
   */
  lemma EveryInterleaving(m: Sessions, order: seq<string>, gap: seq<Move>, between: seq<seq<Move>>, id: string)
    requires Lists(order, m) && id in m
    ensures var rows := Drifted(Snapshot(m, order, gap));
      && Ends(PassOf(Play(m, gap), rows, m, between), m, gap, rows, between, id)
      && (WriteIndex(rows, id) >= 0 <==> SnapshotDelta(m, gap, id) != 0)
  {
    var rows := Drifted(Snapshot(m, order, gap));
    var p := CorrectAll(Play(m, gap), rows, m, between);
    DriftedRows(m, order, gap, id);
    PassIs(m, gap, rows, between);
    hide *;
    PassAccounts(m, gap, rows, between);
    PlayAccounts(p, m, gap, rows, between, |rows|);
    AccountsMeanEnds(PassOf(Play(m, gap), rows, m, between), m, gap, rows, between, id);
  }

  lemma PassIs(m: Sessions, gap: seq<Move>, rows: seq<DeltaRow>, between: seq<seq<Move>>)
    ensures var p := CorrectAll(Play(m, gap), rows, m, between);
      PassOf(Play(m, gap), rows, m, between) == p.(sessions := Play(p.sessions, MovesBefore(between, |rows|)))
  {
  }

  /** The drifted rows: distinct, as the reads give them, and there for exactly the sessions with a delta. */
  lemma DriftedRows(m: Sessions, order: seq<string>, gap: seq<Move>, id: string)
    requires Lists(order, m) && id in m
    ensures var rows := Drifted(Snapshot(m, order, gap));
      && DistinctRowIds(rows)
      && (forall r :: r in rows ==> r.id in m && r == RowOf(m, gap, r.id))
      && (WriteIndex(rows, id) >= 0 <==> SnapshotDelta(m, gap, id) != 0)
  {
    var all := Snapshot(m, order, gap);
    var rows := Drifted(all);
    SnapshotRows(m, order, gap);
    DriftedAreRows(all);
    DriftedKeepsDistinct(all);
    var r := RowOf(m, gap, id);
    assert r.id == id && r.delta == SnapshotDelta(m, gap, id);
    hide Drifted, Snapshot, RowOf, WriteIndex;
    if r.delta != 0 {
      var i :| 0 <= i < |rows| && rows[i] == r;
      WriteIndexOfRow(rows, i);
    } else {
      assert forall q :: q in rows ==> q.delta != 0 && q == RowOf(m, gap, q.id);
      NoWriteIndex(rows, id);
    }
  }

  /**
   * What the compare-and-set is worth. A corrected counter ends equal to the active count exactly when the counter
   * writes after it balance the enrollment changes since the second read.
   */
  lemma CorrectedIsExactIff(m: Sessions, order: seq<string>, gap: seq<Move>, between: seq<seq<Move>>, id: string)
    requires Lists(order, m) && id in m
    requires id in PassOf(Play(m, gap), Drifted(Snapshot(m, order, gap)), m, between).corrected
    ensures var rows := Drifted(Snapshot(m, order, gap));
      ExactIff(PassOf(Play(m, gap), rows, m, between), rows, between, id)
  {
    var rows := Drifted(Snapshot(m, order, gap));
    var p := PassOf(Play(m, gap), rows, m, between);
    hide *;
    EveryInterleaving(m, order, gap, between, id);
    EndsExactIff(p, m, gap, rows, between, id);
  }

  ghost predicate ExactIff(p: Pass, rows: seq<DeltaRow>, between: seq<seq<Move>>, id: string) {
    var (n, i) := (|rows| + 1, WriteIndex(rows, id));
    && i >= 0 && id in p.sessions
    && (Seats(p.sessions[id].counter) == p.sessions[id].active <==>
          SeatMoves(between, n, id) - SeatMoves(between, i + 1, id) == ActiveMoves(between, n, id))
  }

  lemma EndsExactIff(p: Pass, m: Sessions, gap: seq<Move>, rows: seq<DeltaRow>, between: seq<seq<Move>>, id: string)
    requires id in m && Ends(p, m, gap, rows, between, id) && id in p.corrected
    ensures ExactIff(p, rows, between, id)
  {
    hide WriteIndex, SeatMoves, ActiveMoves, CasWins, UncorrectedDrift, NetActive;
  }

  // ----- when counter and enrollments move together -----

  /** Reserves with their enrollment and releases with their cancellation only. */
  ghost predicate Coupled(moves: seq<Move>) {
    forall move :: move in moves ==> move.seats == move.active
  }

  ghost predicate AllCoupled(gap: seq<Move>, between: seq<seq<Move>>) {
    Coupled(gap) && forall i :: 0 <= i < |between| ==> Coupled(between[i])
  }

  lemma {:induction false} CoupledNets(moves: seq<Move>, id: string)
    requires Coupled(moves)
    ensures NetSeats(moves, id) == NetActive(moves, id)
  {
    if moves != [] {
      CoupledNets(moves[..|moves| - 1], id);
      assert moves[|moves| - 1] in moves;
    }
  }

  lemma {:induction false} CoupledMoves(gap: seq<Move>, between: seq<seq<Move>>, n: nat, id: string)
    requires AllCoupled(gap, between)
    ensures SeatMoves(between, n, id) == ActiveMoves(between, n, id)
  {
    if n > 0 {
      CoupledMoves(gap, between, n - 1, id);
      CoupledNets(MovesBefore(between, n - 1), id);
    }
  }

  lemma WinsNetZero(seen: Counter, gap: seq<Move>, between: seq<seq<Move>>, id: string, i: nat)
    requires CasWins(seen, gap, between, id, i)
    ensures NetSeats(gap, id) + SeatMoves(between, i + 1, id) == 0
  {
    if !seen.Num? {
      UntouchedNetsZero(gap, id);
      UntouchedMovesNetZero(between, i + 1, id);
    }
  }

  /**
   * With coupled moves only, for every interleaving (A-B-A included): a corrected session ends off by the net of the
   * moves between the two reads, every other one keeps its drift.
   */
  lemma CoupledMovesLeaveGap(m: Sessions, order: seq<string>, gap: seq<Move>, between: seq<seq<Move>>, id: string)
    requires Lists(order, m) && id in m && AllCoupled(gap, between)
    ensures LeavesGap(PassOf(Play(m, gap), Drifted(Snapshot(m, order, gap)), m, between), m, gap, id)
  {
    var rows := Drifted(Snapshot(m, order, gap));
    var p := PassOf(Play(m, gap), rows, m, between);
    hide *;
    EveryInterleaving(m, order, gap, between, id);
    EndsLeaveGap(p, m, gap, rows, between, id);
  }

  ghost predicate LeavesGap(p: Pass, m: Sessions, gap: seq<Move>, id: string)
    requires id in m
  {
    id in p.sessions && Drift(p.sessions[id]) == if id in p.corrected then NetSeats(gap, id) else Drift(m[id])
  }

  lemma EndsLeaveGap(p: Pass, m: Sessions, gap: seq<Move>, rows: seq<DeltaRow>, between: seq<seq<Move>>, id: string)
    requires id in m && Ends(p, m, gap, rows, between, id) && AllCoupled(gap, between)
    ensures LeavesGap(p, m, gap, id)
  {
    CoupledNets(gap, id);
    CoupledMoves(gap, between, |rows| + 1, id);
    hide SeatMoves, ActiveMoves, CasWins, NetSeats, NetActive, WriteIndex, AllCoupled;
    if id in p.corrected {
      WinsNetZero(m[id].counter, gap, between, id, WriteIndex(rows, id));
    }
  }

  ghost predicate QuietBetweenReads(m: Sessions, gap: seq<Move>) {
    forall id :: id in m ==> NetSeats(gap, id) == 0
  }

  /**
   * With coupled moves and none in net between the two reads, a successful write leaves the counter equal to the
   * active count, a lost one leaves the drift as it was, and the next snapshot shows exactly the lost sessions.
   */
  lemma NextPassSeesOnlyLost(m: Sessions, order: seq<string>, gap: seq<Move>, between: seq<seq<Move>>, id: string)
    requires Lists(order, m) && id in m && AllCoupled(gap, between) && QuietBetweenReads(m, gap)
    ensures SeesOnlyLost(PassOf(Play(m, gap), Drifted(Snapshot(m, order, gap)), m, between), m, id)
  {
    var rows := Drifted(Snapshot(m, order, gap));
    var p := PassOf(Play(m, gap), rows, m, between);
    hide *;
    EveryInterleaving(m, order, gap, between, id);
    EndsLeaveGap(p, m, gap, rows, between, id);
    EndsSeeOnlyLost(p, m, gap, rows, between, id);
  }

  ghost predicate SeesOnlyLost(p: Pass, m: Sessions, id: string)
    requires id in m
  {
    && id in p.sessions
    && (id in p.corrected ==> Seats(p.sessions[id].counter) == p.sessions[id].active)
    && (id in p.lost ==> Drift(p.sessions[id]) == Drift(m[id]))
    && (SnapshotDelta(p.sessions, [], id) != 0 <==> id in p.lost)
  }

  lemma EndsSeeOnlyLost(p: Pass, m: Sessions, gap: seq<Move>, rows: seq<DeltaRow>, between: seq<seq<Move>>, id: string)
    requires id in m && Ends(p, m, gap, rows, between, id) && LeavesGap(p, m, gap, id)
    requires AllCoupled(gap, between) && QuietBetweenReads(m, gap)
    requires WriteIndex(rows, id) >= 0 <==> SnapshotDelta(m, gap, id) != 0
    ensures SeesOnlyLost(p, m, id)
  {
    CoupledNets(gap, id);
    NoMovesNet(id);
    hide SeatMoves, ActiveMoves, CasWins, NetSeats, NetActive, WriteIndex, AllCoupled, UncorrectedDrift;
  }

  /** A quiet pass loses no compare-and-set and leaves no drift at all. */
  lemma QuietPassLeavesNoDrift(m: Sessions, order: seq<string>, id: string)
    requires Lists(order, m) && id in m
    ensures var pass := PassOf(Play(m, []), Drifted(Snapshot(m, order, [])), m, []);
      id in pass.sessions && id !in pass.lost && Drift(pass.sessions[id]) == 0
  {
    var rows := Drifted(Snapshot(m, order, []));
    var p := PassOf(Play(m, []), rows, m, []);
    hide *;
    EveryInterleaving(m, order, [], [], id);
    EndsQuietly(p, m, rows, id);
  }

  lemma EndsQuietly(p: Pass, m: Sessions, rows: seq<DeltaRow>, id: string)
    requires id in m && Ends(p, m, [], rows, [], id)
    requires WriteIndex(rows, id) >= 0 <==> SnapshotDelta(m, [], id) != 0
    ensures id in p.sessions && id !in p.lost && Drift(p.sessions[id]) == 0
  {
    var i := WriteIndex(rows, id);
    NoMovesNet(id);
    NoMoves(|rows| + 1, id);
    if i >= 0 {
      NoMoves(i + 1, id);
    }
    hide SeatMoves, ActiveMoves, NetSeats, NetActive, WriteIndex, Touches, TouchedBefore;
  }

  lemma {:induction false} NoMoves(n: nat, id: string)
    ensures SeatMoves([], n, id) == 0 && ActiveMoves([], n, id) == 0 && !TouchedBefore([], n, id)
  {
    if n > 0 {
      NoMoves(n - 1, id);
    }
  }

  // ----- two ways to be clobbered -----

  /**
   * A consistent session whose seats and enrollments move by `n` between the two reads, by a reserve say, and back
   * before the write is "corrected" into one that is off by `n`.
   */
  lemma MoveBetweenReadsClobbers(m: Sessions, id: string, gap: seq<Move>, back: seq<Move>, n: int)
    requires m.Keys == {id} && m[id].counter.Num? && Drift(m[id]) == 0 && n != 0
    requires NetSeats(gap, id) == NetActive(gap, id) == n && NetSeats(back, id) == NetActive(back, id) == -n
    ensures var pass := PassOf(Play(m, gap), Drifted(Snapshot(m, [id], gap)), m, [back]);
      id in pass.sessions && id in pass.corrected && Drift(pass.sessions[id]) == n
  {
    OneSession(m, id, gap, [back]);
    DeltaOfOne(m, id, gap);
    hide *;
    OneSessionPass(m, id, gap, [back]);
  }

  lemma DeltaOfOne(m: Sessions, id: string, gap: seq<Move>)
    requires id in m
    ensures SnapshotDelta(m, gap, id) == Drift(m[id]) - NetActive(gap, id)
  {
  }

  /**
   * A move after the second read is not safe either when it does not touch the counter. A family confirming an offer
   * whose seat is already held goes unnoticed, and every drifted session it happens in ends one seat short.
   */
  lemma ConfirmAfterReadsClobbers(id: string, s: Session)
    requires Drift(s) != 0
    ensures var (m, between) := (map[id := s], [[Move(id, 0, 1)]]);
      var pass := PassOf(Play(m, []), Drifted(Snapshot(m, [id], [])), m, between);
      id in pass.corrected && Drift(pass.sessions[id]) == -1
  {
    var (m, between) := (map[id := s], [[Move(id, 0, 1)]]);
    OneSession(m, id, [], between);
    OneMoveNets(Move(id, 0, 1));
    hide *;
    NoMovesNet(id);
    OneSessionPass(m, id, [], between);
  }

  lemma NoMovesNet(id: string)
    ensures NetSeats([], id) == 0 && NetActive([], id) == 0 && !Touches([], id)
  {
  }

  lemma OneMoveNets(move: Move)
    ensures NetSeats([move], move.id) == move.seats && NetActive([move], move.id) == move.active
    ensures Touches([move], move.id) <==> move.seats != 0
  {
    assert [move][..0] == [];
  }

  lemma OneSession(m: Sessions, id: string, gap: seq<Move>, between: seq<seq<Move>>)
    requires m.Keys == {id}
    ensures Lists([id], m)
  {
  }

  /** One drifted session and one batch of moves before its write. */
  lemma OneSessionPass(m: Sessions, id: string, gap: seq<Move>, between: seq<seq<Move>>)
    requires m.Keys == {id} && Lists([id], m) && |between| == 1 && SnapshotDelta(m, gap, id) != 0
    requires if m[id].counter.Num? then NetSeats(gap, id) + NetSeats(between[0], id) == 0
             else !Touches(gap, id) && !Touches(between[0], id)
    ensures var pass := PassOf(Play(m, gap), Drifted(Snapshot(m, [id], gap)), m, between);
      id in pass.sessions && id in pass.corrected && Drift(pass.sessions[id]) == -NetActive(between[0], id)
  {
    var rows := Drifted(Snapshot(m, [id], gap));
    var p := PassOf(Play(m, gap), rows, m, between);
    EveryInterleaving(m, [id], gap, between, id);
    OneRow(m, id, gap);
    OneBatch(between, id);
    hide PassOf, Play, Snapshot, Drifted, NetSeats, NetActive, Touches, SeatMoves, ActiveMoves, TouchedBefore, WriteIndex, UncorrectedDrift;
  }

  lemma OneRow(m: Sessions, id: string, gap: seq<Move>)
    requires m.Keys == {id} && Lists([id], m) && SnapshotDelta(m, gap, id) != 0
    ensures |Drifted(Snapshot(m, [id], gap))| == 1 && WriteIndex(Drifted(Snapshot(m, [id], gap)), id) == 0
  {
    DriftedRows(m, [id], gap, id);
    var rows := Drifted(Snapshot(m, [id], gap));
    hide Snapshot, Drifted, RowOf, SnapshotDelta;
    assert forall i :: 0 <= i < |rows| ==> rows[i] in rows && rows[i].id == id;
    if |rows| > 1 {
      FirstTwoDiffer(rows);
      assert false;
    }
  }

  lemma FirstTwoDiffer(rows: seq<DeltaRow>)
    requires DistinctRowIds(rows) && |rows| > 1
    ensures rows[0].id != rows[1].id
  {
  }

  lemma OneBatch(between: seq<seq<Move>>, id: string)
    requires |between| == 1
    ensures SeatMoves(between, 1, id) == SeatMoves(between, 2, id) == NetSeats(between[0], id)
    ensures ActiveMoves(between, 2, id) == NetActive(between[0], id)
    ensures TouchedBefore(between, 1, id) <==> Touches(between[0], id)
  {
    assert MovesBefore(between, 1) == [] && MovesBefore(between, 0) == between[0];
    assert SeatMoves(between, 1, id) == SeatMoves(between, 0, id) + NetSeats(between[0], id);
    assert ActiveMoves(between, 1, id) == ActiveMoves(between, 0, id) + NetActive(between[0], id);
  }

  // ----- promotion -----

  function PausedIn(waiting: seq<Waiter>): nat {
    if waiting == [] then 0 else PausedIn(waiting[..|waiting| - 1]) + if waiting[|waiting| - 1].Paused? then 1 else 0
  }

  /** A waiting new family is reached while a seat is still free after the paused ones ahead of it. */
  ghost predicate FamilyIsReached(waiting: seq<Waiter>, free: int) {
    exists k :: 0 <= k < |waiting| && waiting[k].NewFamily? && PausedIn(waiting[..k]) < free
  }

  /**
   * The guard under which the promotion pass hands out a seat without an enrollment: a free seat, and an open
   * seatless offer or a waiting new family within reach.
   */
  ghost predicate OffersSeat(s: Session, seats: int) {
    && s.enrollable && s.capacity.Some? && seats < s.capacity.value
    && (s.seatless > 0 || FamilyIsReached(s.waiting, s.capacity.value - seats))
  }

  lemma {:induction false} PausedInTail(waiting: seq<Waiter>, k: nat)
    requires 0 < k <= |waiting|
    ensures PausedIn(waiting[..k]) == PausedIn(waiting[1..][..k - 1]) + if waiting[0].Paused? then 1 else 0
  {
    if k == 1 {
      assert waiting[..1][..0] == [] && waiting[1..][..0] == [];
    } else {
      assert waiting[..k][..k - 1] == waiting[..k - 1];
      assert waiting[1..][..k - 1][..k - 2] == waiting[1..][..k - 2];
      PausedInTail(waiting, k - 1);
    }
  }

  /** The head of the waitlist leaves; a paused one takes a seat with it. */
  lemma ReachedInTail(waiting: seq<Waiter>, free: int)
    requires waiting != [] && !waiting[0].NewFamily?
    ensures FamilyIsReached(waiting, free) <==> FamilyIsReached(waiting[1..], if waiting[0].Paused? then free - 1 else free)
  {
    var rest := waiting[1..];
    var left := if waiting[0].Paused? then free - 1 else free;
    if k :| 0 <= k < |waiting| && waiting[k].NewFamily? && PausedIn(waiting[..k]) < free {
      PausedInTail(waiting, k);
      assert rest[k - 1].NewFamily? && PausedIn(rest[..k - 1]) < left;
    }
    if k :| 0 <= k < |rest| && rest[k].NewFamily? && PausedIn(rest[..k]) < left {
      PausedInTail(waiting, k + 1);
      assert waiting[k + 1].NewFamily?;
    }
  }

  function Limit(s: Session): int {
    if s.capacity.Some? then s.capacity.value else 0
  }

  /** Settling a session never lowers its drift, and raises it exactly when it hands out a seat for an offer. */
  lemma {:induction false} SettleRaisesDriftIff(s: Session)
    ensures Drift(Settle(s)) >= Drift(s)
    ensures Drift(Settle(s)) > Drift(s) <==> OffersSeat(s, Seats(s.counter))
    decreases s.seatless + |s.waiting|
  {
    hide FamilyIsReached;
    var next := PromoteOnce(s);
    if next.Some? {
      SettleRaisesDriftIff(next.value);
    }
    if s.waiting != [] {
      var free := Limit(s) - Seats(s.counter);
      if s.waiting[0].NewFamily? {
        HeadIsReached(s.waiting, free);
      } else {
        ReachedInTail(s.waiting, free);
        NoneReachedWhenFull(s.waiting[1..], free - 1);
      }
    } else {
      NobodyIsReached(Limit(s) - Seats(s.counter));
    }
  }

  /** What a report row shows: a counter that is absent or null counts as zero, and the active count is the second read's. */
  lemma RowMeans(id: string, seen: Session, activeCount: int)
    ensures var (r, reserved) := (SessionDeltaRow(id, seen, activeCount), match seen.counter { case Num(n) => n case _ => 0 });
      r == DeltaRow(id, reserved, activeCount, reserved - activeCount, seen.enrollable, seen.capacity)
  {
  }

  function FamiliesIn(waiting: seq<Waiter>): nat {
    if waiting == [] then 0 else FamiliesIn(waiting[..|waiting| - 1]) + if waiting[|waiting| - 1].NewFamily? then 1 else 0
  }

  lemma {:induction false} FamiliesInTail(waiting: seq<Waiter>, k: nat)
    requires 0 < k <= |waiting|
    ensures FamiliesIn(waiting[..k]) == FamiliesIn(waiting[1..][..k - 1]) + if waiting[0].NewFamily? then 1 else 0
  {
    if k == 1 {
      assert waiting[..1][..0] == [] && waiting[1..][..0] == [];
    } else {
      assert waiting[..k][..k - 1] == waiting[..k - 1];
      assert waiting[1..][..k - 1][..k - 2] == waiting[1..][..k - 2];
      FamiliesInTail(waiting, k - 1);
    }
  }

  /** A seat that promotion may still hand out. */
  predicate HasFreeSeat(s: Session) {
    s.enrollable && s.capacity.Some? && Seats(s.counter) < s.capacity.value
  }

  /** What settling did: the first `k` of the waitlist are served, each seat accounted for, none beyond the capacity. */
  ghost predicate Served(s: Session, t: Session, k: nat) {
    && k <= |s.waiting| && t.waiting == s.waiting[k..] && t.seatless <= s.seatless
    && t.enrollable == s.enrollable && t.capacity == s.capacity
    && t.active == s.active + PausedIn(s.waiting[..k])
    && Seats(t.counter) == Seats(s.counter) + (s.seatless - t.seatless) + PausedIn(s.waiting[..k]) + FamiliesIn(s.waiting[..k])
    && (PausedIn(s.waiting[..k]) + FamiliesIn(s.waiting[..k]) > 0 ==> t.seatless == 0)
    && (Seats(t.counter) > Seats(s.counter) ==> t.enrollable && t.capacity.Some? && Seats(t.counter) <= t.capacity.value)
  }

  lemma ServedByStep(s: Session, next: Session, t: Session, k: nat) returns (n: nat)
    requires PromoteOnce(s) == Some(next) && Served(next, t, k)
    ensures Served(s, t, n)
  {
    hide PausedIn, FamiliesIn;
    if next.waiting == s.waiting {
      n := k;
    } else {
      n := k + 1;
      PausedInTail(s.waiting, n);
      FamiliesInTail(s.waiting, n);
      assert s.waiting[1..][k..] == s.waiting[n..];
    }
  }

  /**
   * Settling serves the waitlist in order and never overbooks: open seatless offers come before anyone who needs a seat,
   * every seat goes to one of them, a paused or a new family, and it only stops with nobody left or no seat for the next.
   */
  lemma {:induction false} SettleServesInOrder(s: Session) returns (k: nat)
    ensures Served(s, Settle(s), k)
    ensures var t := Settle(s);
      && (t.seatless > 0 ==> !HasFreeSeat(t))
      && (t.waiting != [] ==> !t.waiting[0].Enrolled? && !HasFreeSeat(t))
    decreases s.seatless + |s.waiting|
  {
    var next := PromoteOnce(s);
    if next.Some? {
      var n := SettleServesInOrder(next.value);
      hide Served, Settle;
      k := ServedByStep(s, next.value, Settle(next.value), n);
      SettleStep(s);
    } else {
      k := 0;
      assert s.waiting[..0] == [] && s.waiting[0..] == s.waiting;
    }
  }

  lemma SettleStep(s: Session)
    ensures PromoteOnce(s).Some? ==> Settle(s) == Settle(PromoteOnce(s).value)
  {
  }

  lemma HeadIsReached(waiting: seq<Waiter>, free: int)
    requires waiting != [] && waiting[0].NewFamily?
    ensures FamilyIsReached(waiting, free) <==> free > 0
  {
    assert waiting[..0] == [];
    if free > 0 {
      assert PausedIn(waiting[..0]) < free;
    }
  }

  lemma NoneReachedWhenFull(waiting: seq<Waiter>, free: int)
    ensures free <= 0 ==> !FamilyIsReached(waiting, free)
  {
  }

  lemma NobodyIsReached(free: int)
    ensures !FamilyIsReached([], free)
  {
  }

  /** What promotion does to one session. */
  lemma {:induction false} PromotionSettles(m: Sessions, rows: seq<DeltaRow>, lost: seq<string>, id: string)
    requires DistinctRowIds(rows) && id in m
    ensures var i := WriteIndex(rows, id);
      PromoteAll(m, rows, lost)[id]
      == if i >= 0 && id !in lost && Promotes(rows[i], |m[id].waiting|) then Settle(m[id]) else m[id]
  {
    hide Settle, Promotes;
    if rows != [] {
      var n := |rows| - 1;
      PromotionSettles(m, rows[..n], lost, id);
      if rows[n].id == id {
        NoWriteIndex(rows[..n], id);
      }
    }
  }

  /** The seats and enrollments the promotion pass finds in a session with no drift: its active count after all moves. */
  ghost predicate HandsOutSeat(m: Sessions, between: seq<seq<Move>>, n: nat, r: DeltaRow)
    requires r.id in m
  {
    && r.enrollable && r.capacity.Some? && r.active < r.capacity.value && m[r.id].waiting != []
    && OffersSeat(m[r.id], m[r.id].active + ActiveMoves(between, n, r.id))
  }

  /** Every write finds the counter that the first read saw. */
  ghost predicate AllWritesWin(m: Sessions, gap: seq<Move>, between: seq<seq<Move>>, rows: seq<DeltaRow>) {
    forall i :: 0 <= i < |rows| ==> rows[i].id in m && CasWins(m[rows[i].id].counter, gap, between, rows[i].id, i)
  }

  ghost predicate NoSeatHandedOut(m: Sessions, between: seq<seq<Move>>, n: nat, rows: seq<DeltaRow>) {
    forall r :: r in rows ==> r.id in m && !HandsOutSeat(m, between, n, r)
  }

  /**
   * "A second run finds zero deltas", exactly. With coupled moves and quiet reads, the next snapshot is clean if and
   * only if every write finds the counter it observed and promotion hands out no seat for an offer: both conditions
   * are about the sessions, the waitlists and production's moves, not about what the pass did.
   */
  lemma SecondRunCleanIff(m: Sessions, order: seq<string>, gap: seq<Move>, between: seq<seq<Move>>)
    requires Lists(order, m) && AllCoupled(gap, between) && QuietBetweenReads(m, gap)
    ensures var rows := Snapshot(m, order, gap);
      var drifted := Drifted(rows);
      var pass := PassOf(Play(m, gap), drifted, m, between);
      var after := PromoteAll(pass.sessions, rows, pass.lost);
      && after.Keys == m.Keys
      && ((forall id :: id in m ==> SnapshotDelta(after, [], id) == 0) <==>
            AllWritesWin(m, gap, between, drifted) && NoSeatHandedOut(m, between, |drifted| + 1, rows))
  {
    var rows := Snapshot(m, order, gap);
    var drifted := Drifted(rows);
    var pass := PassOf(Play(m, gap), drifted, m, between);
    var after := PromoteAll(pass.sessions, rows, pass.lost);
    hide *;
    SnapshotRows(m, order, gap);
    EverySecondVerdict(m, order, gap, between);
    SecondRunVerdict(m, gap, rows, between, after);
  }

  lemma SecondRunVerdict(m: Sessions, gap: seq<Move>, rows: seq<DeltaRow>, between: seq<seq<Move>>, after: Sessions)
    requires DistinctRowIds(rows) && (forall id :: id in m ==> RowOf(m, gap, id) in rows)
    requires forall r :: r in rows ==> r.id in m && r == RowOf(m, gap, r.id)
    requires after.Keys == m.Keys
    requires forall id :: id in m ==> NextDeltaIs(m, gap, Drifted(rows), between, |Drifted(rows)| + 1, after, id)
    ensures (forall id :: id in m ==> SnapshotDelta(after, [], id) == 0) <==>
      AllWritesWin(m, gap, between, Drifted(rows)) && NoSeatHandedOut(m, between, |Drifted(rows)| + 1, rows)
  {
    hide *;
    DriftedAreRows(rows);
    DriftedKeepsDistinct(rows);
    LostIffSomeWriteLoses(m, gap, Drifted(rows), between);
    RowsAreSessions(m, gap, rows, between, |Drifted(rows)| + 1);
    VerdictsCombine(m, gap, Drifted(rows), between, |Drifted(rows)| + 1, after);
  }

  /** One session's next delta, by the two conditions. */
  ghost predicate NextDeltaIs(m: Sessions, gap: seq<Move>, drifted: seq<DeltaRow>, between: seq<seq<Move>>, n: nat, after: Sessions, id: string) {
    && id in m && id in after && RowOf(m, gap, id).id == id
    && (SnapshotDelta(after, [], id) == 0 <==>
          !Lost(m, gap, drifted, between, id) && !HandsOutSeat(m, between, n, RowOf(m, gap, id)))
  }

  lemma EverySecondVerdict(m: Sessions, order: seq<string>, gap: seq<Move>, between: seq<seq<Move>>)
    requires Lists(order, m) && AllCoupled(gap, between) && QuietBetweenReads(m, gap)
    ensures var drifted := Drifted(Snapshot(m, order, gap));
      var pass := PassOf(Play(m, gap), drifted, m, between);
      var after := PromoteAll(pass.sessions, Snapshot(m, order, gap), pass.lost);
      after.Keys == m.Keys && forall id :: id in m ==> NextDeltaIs(m, gap, drifted, between, |drifted| + 1, after, id)
  {
    var drifted := Drifted(Snapshot(m, order, gap));
    var pass := PassOf(Play(m, gap), drifted, m, between);
    var after := PromoteAll(pass.sessions, Snapshot(m, order, gap), pass.lost);
    hide *;
    EveryInterleavingKeeps(m, order, gap, between);
    forall id | id in m
      ensures NextDeltaIs(m, gap, drifted, between, |drifted| + 1, after, id)
    {
      SecondDeltaVerdict(m, order, gap, between, id);
      OneVerdict(m, gap, drifted, between, |drifted| + 1, after, id);
    }
  }

  lemma OneVerdict(m: Sessions, gap: seq<Move>, drifted: seq<DeltaRow>, between: seq<seq<Move>>, n: nat, after: Sessions, id: string)
    requires id in m && id in after && RowOf(m, gap, id).id == id
    requires SnapshotDelta(after, [], id) == 0 <==>
      !Lost(m, gap, drifted, between, id) && !HandsOutSeat(m, between, n, RowOf(m, gap, id))
    ensures NextDeltaIs(m, gap, drifted, between, n, after, id)
  {
  }

  lemma VerdictsCombine(m: Sessions, gap: seq<Move>, drifted: seq<DeltaRow>, between: seq<seq<Move>>, n: nat, after: Sessions)
    requires after.Keys == m.Keys && forall id :: id in m ==> NextDeltaIs(m, gap, drifted, between, n, after, id)
    ensures forall id :: id in m ==> RowOf(m, gap, id).id == id
    ensures (forall id :: id in m ==> SnapshotDelta(after, [], id) == 0) <==>
      (forall id :: id in m ==> !Lost(m, gap, drifted, between, id))
      && (forall id :: id in m ==> !HandsOutSeat(m, between, n, RowOf(m, gap, id)))
  {
    hide SnapshotDelta, Lost, HandsOutSeat, RowOf;
  }

  lemma SecondDeltaVerdict(m: Sessions, order: seq<string>, gap: seq<Move>, between: seq<seq<Move>>, id: string)
    requires Lists(order, m) && AllCoupled(gap, between) && QuietBetweenReads(m, gap) && id in m
    ensures RowOf(m, gap, id).id == id
    ensures var drifted := Drifted(Snapshot(m, order, gap));
      var pass := PassOf(Play(m, gap), drifted, m, between);
      var after := PromoteAll(pass.sessions, Snapshot(m, order, gap), pass.lost);
      id in after
      && (SnapshotDelta(after, [], id) == 0 <==>
            !Lost(m, gap, drifted, between, id) && !HandsOutSeat(m, between, |drifted| + 1, RowOf(m, gap, id)))
  {
    var drifted := Drifted(Snapshot(m, order, gap));
    hide *;
    RowHasId(m, gap, id);
    SecondDelta(m, order, gap, between, id);
    EveryInterleaving(m, order, gap, between, id);
    EndsVerdict(PassOf(Play(m, gap), drifted, m, between), m, gap, drifted, between, id);
  }

  lemma EveryInterleavingKeeps(m: Sessions, order: seq<string>, gap: seq<Move>, between: seq<seq<Move>>)
    ensures Lists(order, m) ==> PassOf(Play(m, gap), Drifted(Snapshot(m, order, gap)), m, between).sessions.Keys == m.Keys
  {
  }

  /** A condition on every row is one on every session's row. */
  lemma RowsAreSessions(m: Sessions, gap: seq<Move>, rows: seq<DeltaRow>, between: seq<seq<Move>>, n: nat)
    requires forall id :: id in m ==> RowOf(m, gap, id) in rows
    requires forall r :: r in rows ==> r.id in m && r == RowOf(m, gap, r.id)
    ensures forall id :: id in m ==> RowOf(m, gap, id).id == id
    ensures (forall id :: id in m ==> !HandsOutSeat(m, between, n, RowOf(m, gap, id))) <==> NoSeatHandedOut(m, between, n, rows)
  {
    forall id | id in m
      ensures RowOf(m, gap, id).id == id
    {
      RowHasId(m, gap, id);
    }
    hide HandsOutSeat, RowOf;
  }

  lemma RowHasId(m: Sessions, gap: seq<Move>, id: string)
    requires id in m
    ensures RowOf(m, gap, id).id == id
  {
  }

  lemma EndsVerdict(p: Pass, m: Sessions, gap: seq<Move>, rows: seq<DeltaRow>, between: seq<seq<Move>>, id: string)
    requires id in m && Ends(p, m, gap, rows, between, id)
    ensures id in p.lost <==> Lost(m, gap, rows, between, id)
  {
  }

  /** No session is lost exactly when every write wins. */
  lemma LostIffSomeWriteLoses(m: Sessions, gap: seq<Move>, rows: seq<DeltaRow>, between: seq<seq<Move>>)
    requires DistinctRowIds(rows) && forall r :: r in rows ==> r.id in m
    ensures (forall id :: id in m ==> !Lost(m, gap, rows, between, id)) <==> AllWritesWin(m, gap, between, rows)
  {
    hide CasWins, WriteIndex;
    forall i | 0 <= i < |rows|
      ensures Lost(m, gap, rows, between, rows[i].id) <==> !CasWins(m[rows[i].id].counter, gap, between, rows[i].id, i)
    {
      WriteIndexOfRow(rows, i);
    }
  }

  /** One session's delta in the second snapshot. */
  lemma SecondDelta(m: Sessions, order: seq<string>, gap: seq<Move>, between: seq<seq<Move>>, id: string)
    requires Lists(order, m) && AllCoupled(gap, between) && QuietBetweenReads(m, gap) && id in m
    ensures RowOf(m, gap, id).id == id
    ensures var n := |Drifted(Snapshot(m, order, gap))| + 1;
      var pass := PassOf(Play(m, gap), Drifted(Snapshot(m, order, gap)), m, between);
      var after := PromoteAll(pass.sessions, Snapshot(m, order, gap), pass.lost);
      id in after
      && (SnapshotDelta(after, [], id) == 0 <==> id !in pass.lost && !HandsOutSeat(m, between, n, RowOf(m, gap, id)))
  {
    var (rows, r) := (Snapshot(m, order, gap), RowOf(m, gap, id));
    var drifted := Drifted(rows);
    var pass := PassOf(Play(m, gap), drifted, m, between);
    SnapshotRows(m, order, gap);
    RowHasId(m, gap, id);
    hide *;
    EveryInterleaving(m, order, gap, between, id);
    NextPassSeesOnlyLost(m, order, gap, between, id);
    var i :| 0 <= i < |rows| && rows[i] == r;
    WriteIndexOfRow(rows, i);
    KeysStay(pass, m, gap, drifted, between, id);
    PromotionSettles(pass.sessions, rows, pass.lost, id);
    SettleRaisesDriftIff(pass.sessions[id]);
    SettledDelta(pass, PromoteAll(pass.sessions, rows, pass.lost)[id], m, gap, drifted, between, r);
    DeltaIsDrift(PromoteAll(pass.sessions, rows, pass.lost), id);
  }

  lemma KeysStay(p: Pass, m: Sessions, gap: seq<Move>, rows: seq<DeltaRow>, between: seq<seq<Move>>, id: string)
    requires id in m && Ends(p, m, gap, rows, between, id)
    ensures id in p.sessions
  {
  }

  lemma DeltaIsDrift(m: Sessions, id: string)
    requires id in m
    ensures SnapshotDelta(m, [], id) == Drift(m[id])
  {
  }

  /** Promotion on a session that ended without drift, or was lost and is skipped. */
  lemma SettledDelta(p: Pass, after: Session, m: Sessions, gap: seq<Move>, rows: seq<DeltaRow>, between: seq<seq<Move>>, r: DeltaRow)
    requires r.id in m && Ends(p, m, gap, rows, between, r.id) && SeesOnlyLost(p, m, r.id)
    requires AllCoupled(gap, between) && QuietBetweenReads(m, gap)
    requires var s := p.sessions[r.id];
      && after == (if r.id !in p.lost && Promotes(r, |s.waiting|) then Settle(s) else s)
      && Drift(Settle(s)) >= Drift(s) && (Drift(Settle(s)) > Drift(s) <==> OffersSeat(s, Seats(s.counter)))
    ensures Drift(after) == 0 <==> r.id !in p.lost && !HandsOutSeat(m, between, |rows| + 1, r)
  {
    CoupledNets(gap, r.id);
    NoMovesNet(r.id);
    hide Settle, SeatMoves, ActiveMoves, CasWins, NetSeats, NetActive, WriteIndex, AllCoupled, UncorrectedDrift, FamilyIsReached;
  }
}
