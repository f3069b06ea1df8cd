/**
 * The reserved-seats reconciliation: two snapshot reads, then one compare-and-set per drifted session, under
 * arbitrary interleaving with production writes to counters and enrollments, then waitlist promotion.
 */
module ReservedSeats {
  import opened Wrappers
  import opened Reordering

  /** The stored `reserved_seats` field. */
  datatype Counter = Absent | Null | Num(n: int)

  /** A waiting family, by the child's enrollment in the session: active, paused, or none yet. */
  datatype Waiter = Enrolled | Paused | NewFamily

  /** A session, the number of its active enrollments, its waitlist in order and its open offers without a seat. */
  datatype Session = Session(
    counter: Counter, active: int, enrollable: bool, capacity: Option<int>, waiting: seq<Waiter>, seatless: nat)

  type Sessions = map<string, Session>

  /**
   * One production write: what it does to the counter and to the active enrollments. A reserve with its enrollment
   * moves both, an offer only the counter, a confirmed offer or a hold only the enrollments.
   */
  datatype Move = Move(id: string, seats: int, active: int)

  datatype DeltaRow = DeltaRow(id: string, reserved: int, active: int, delta: int, enrollable: bool, capacity: Option<int>)

  function Seats(c: Counter): int {
    if c.Num? then c.n else 0
  }

  /** How far a session's counter is above its active enrollments. */
  function Drift(s: Session): int {
    Seats(s.counter) - s.active
  }

  function Moved(s: Session, move: Move): Session {
    s.(counter := if move.seats == 0 then s.counter else Num(Seats(s.counter) + move.seats), active := s.active + move.active)
  }

  function Play(m: Sessions, moves: seq<Move>): (r: Sessions)
    ensures r.Keys == m.Keys
  {
    if moves == [] then m else
    var (before, move) := (Play(m, moves[..|moves| - 1]), moves[|moves| - 1]);
    if move.id in before then before[move.id := Moved(before[move.id], move)] else before
  }

  /** `session_delta_row`. */
  function SessionDeltaRow(id: string, seen: Session, activeCount: int): DeltaRow {
    var reserved := Seats(seen.counter);
    DeltaRow(id, reserved, activeCount, reserved - activeCount, seen.enrollable, seen.capacity)
  }

  /** One report row per session: the counter from the first read, the active count from the second. */
  function Rows(order: seq<string>, seen: Sessions, counted: Sessions): (rows: seq<DeltaRow>)
    requires forall id :: id in order ==> id in seen && id in counted
    ensures |rows| == |order|
    ensures forall i :: 0 <= i < |order| ==> rows[i] == SessionDeltaRow(order[i], seen[order[i]], counted[order[i]].active)
  {
    seq(|order|, i requires 0 <= i < |order| => SessionDeltaRow(order[i], seen[order[i]], counted[order[i]].active))
  }

  /** The snapshot of a store while production makes the moves `gap` between the two reads. */
  function Snapshot(m: Sessions, order: seq<string>, gap: seq<Move>): seq<DeltaRow>
    requires forall id :: id in order ==> id in m
  {
    Rows(order, m, Play(m, gap))
  }

  function Drifted(rows: seq<DeltaRow>): seq<DeltaRow> {
    if rows == [] then [] else
    Drifted(rows[..|rows| - 1]) + if rows[|rows| - 1].delta != 0 then [rows[|rows| - 1]] else []
  }

  /** The filter of the compare-and-set; a query for null also matches an absent field. */
  predicate CasMatches(seen: Counter, now: Counter) {
    match seen
    case Absent => now.Absent?
    case Null => !now.Num?
    case Num(n) => now == Num(n)
  }

  datatype Pass = Pass(sessions: Sessions, corrected: seq<string>, lost: seq<string>)

  function CorrectOne(p: Pass, r: DeltaRow, seen: Sessions): (q: Pass)
    ensures q.sessions.Keys == p.sessions.Keys
  {
    if r.id in seen && r.id in p.sessions && CasMatches(seen[r.id].counter, p.sessions[r.id].counter)
    then Pass(p.sessions[r.id := p.sessions[r.id].(counter := Num(r.active))], p.corrected + [r.id], p.lost)
    else p.(lost := p.lost + [r.id])
  }

  function MovesBefore(between: seq<seq<Move>>, i: nat): seq<Move> {
    if i < |between| then between[i] else []
  }

  /** The correction loop; `between[i]` is what production does just before the i-th write. */
  function CorrectAll(m: Sessions, rows: seq<DeltaRow>, seen: Sessions, between: seq<seq<Move>>): (p: Pass)
    ensures p.sessions.Keys == m.Keys
  {
    if rows == [] then Pass(m, [], []) else
    var n := |rows| - 1;
    var before := CorrectAll(m, rows[..n], seen, between);
    CorrectOne(before.(sessions := Play(before.sessions, MovesBefore(between, n))), rows[n], seen)
  }

  /** The correction loop and what production does between its last write and the promotion pass. */
  function PassOf(m: Sessions, rows: seq<DeltaRow>, seen: Sessions, between: seq<seq<Move>>): (p: Pass)
    ensures p.sessions.Keys == m.Keys
  {
    var p := CorrectAll(m, rows, seen, between);
    p.(sessions := Play(p.sessions, MovesBefore(between, |rows|)))
  }

  // ----- promotion -----

  /** The guard of `try_reserve_seat`. */
  predicate CanReserve(s: Session) {
    s.enrollable && s.capacity.Some? && Seats(s.counter) < s.capacity.value
  }

  function Reserved(s: Session): Session {
    s.(counter := Num(Seats(s.counter) + 1))
  }

  /**
   * One pass of `PromoteFromWaitlist` as this script wires it: a free seat goes to an open seatless offer first, then
   * the head of the waitlist is promoted, resumed on a seat, or offered one.
   */
  function PromoteOnce(s: Session): (t: Option<Session>)
    ensures t.Some? ==> t.value.seatless + |t.value.waiting| < s.seatless + |s.waiting|
  {
    if s.seatless > 0 && CanReserve(s) then Some(Reserved(s).(seatless := s.seatless - 1))
    else if s.waiting == [] then None
    else
      var rest := s.(waiting := s.waiting[1..]);
      match s.waiting[0]
      case Enrolled => Some(rest)
      case Paused => if CanReserve(s) then Some(Reserved(rest).(active := s.active + 1)) else None
      case NewFamily => if CanReserve(s) then Some(Reserved(rest)) else None
  }

  /** `_promote_until_settled`. */
  function Settle(s: Session): Session
    decreases s.seatless + |s.waiting|
  {
    var next := PromoteOnce(s);
    if next.None? then s else Settle(next.value)
  }

  /** Rows whose waitlist the promotion pass works through. */
  predicate Promotes(r: DeltaRow, waiting: nat) {
    r.enrollable && r.capacity.Some? && r.active < r.capacity.value && waiting > 0
  }

  function PromoteAll(m: Sessions, rows: seq<DeltaRow>, lost: seq<string>): (r: Sessions)
    ensures r.Keys == m.Keys
  {
    if rows == [] then m else
    var (before, row) := (PromoteAll(m, rows[..|rows| - 1], lost), rows[|rows| - 1]);
    if row.id in before && row.id !in lost && Promotes(row, |before[row.id].waiting|)
    then before[row.id := Settle(before[row.id])] else before
  }

  ghost predicate Lists(order: seq<string>, m: Sessions) {
    NoDuplicates(order) && forall id :: id in order <==> id in m
  }

  // ----- the source's mutable form -----

  class SeatStore {
    var sessions: Sessions

    method Produce(moves: seq<Move>)
      modifies this
      ensures sessions == Play(old(sessions), moves)
    {
      ghost var m := sessions;
      for i := 0 to |moves|
        invariant sessions == Play(m, moves[..i])
      {
        assert moves[..i + 1][..i] == moves[..i];
        var move := moves[i];
        if move.id in sessions {
          sessions := sessions[move.id := Moved(sessions[move.id], move)];
        }
      }
      assert moves[..|moves|] == moves;
    }

    /** `_apply_correction`: false, and nothing written, when the counter is no longer the observed one. */
    method ApplyCorrection(id: string, observed: Counter, expected: int) returns (ok: bool)
      modifies this
      ensures ok <==> id in old(sessions) && CasMatches(observed, old(sessions)[id].counter)
      ensures sessions == if ok then old(sessions)[id := old(sessions)[id].(counter := Num(expected))] else old(sessions)
    {
      ok := id in sessions && CasMatches(observed, sessions[id].counter);
      if ok {
        sessions := sessions[id := sessions[id].(counter := Num(expected))];
      }
    }
  }

  lemma {:induction false} DriftedAreRows(rows: seq<DeltaRow>)
    ensures forall r :: r in Drifted(rows) <==> r in rows && r.delta != 0
  {
    if rows != [] {
      var n := |rows| - 1;
      assert rows == rows[..n] + [rows[n]];
      DriftedAreRows(rows[..n]);
    }
  }

  method FindDrifted(rows: seq<DeltaRow>) returns (drifted: seq<DeltaRow>)
    ensures drifted == Drifted(rows)
  {
    drifted := [];
    for i := 0 to |rows|
      invariant drifted == Drifted(rows[..i])
    {
      assert rows[..i + 1][..i] == rows[..i];
      if rows[i].delta != 0 {
        drifted := drifted + [rows[i]];
      }
    }
    assert rows[..|rows|] == rows;
  }

  /** The correction loop of `reconcile_reserved_seats`. */
  method CorrectDrifted(store: SeatStore, drifted: seq<DeltaRow>, seen: Sessions, between: seq<seq<Move>>)
    returns (corrected: seq<string>, casLost: seq<string>)
    requires forall r :: r in drifted ==> r.id in seen
    modifies store
    ensures Pass(store.sessions, corrected, casLost) == PassOf(old(store.sessions), drifted, seen, between)
  {
    hide Play, CasMatches;
    ghost var m := store.sessions;
    corrected, casLost := [], [];
    for i := 0 to |drifted|
      invariant Pass(store.sessions, corrected, casLost) == CorrectAll(m, drifted[..i], seen, between)
    {
      var r := drifted[i];
      assert r in drifted;
      assert drifted[..i + 1][..i] == drifted[..i];
      store.Produce(MovesBefore(between, i));
      var ok := store.ApplyCorrection(r.id, seen[r.id].counter, r.active);
      if ok {
        corrected := corrected + [r.id];
      } else {
        casLost := casLost + [r.id];
      }
    }
    assert drifted[..|drifted|] == drifted;
    store.Produce(MovesBefore(between, |drifted|));
  }

  /** `_promote_until_settled` on one session. */
  method PromoteUntilSettled(s: Session) returns (t: Session)
    ensures t == Settle(s)
  {
    t := s;
    var next := PromoteOnce(t);
    while next.Some?
      invariant Settle(t) == Settle(s) && next == PromoteOnce(t)
      decreases t.seatless + |t.waiting|
    {
      t := next.value;
      next := PromoteOnce(t);
    }
  }

  method PromoteWaiting(store: SeatStore, rows: seq<DeltaRow>, casLost: seq<string>)
    modifies store
    ensures store.sessions == PromoteAll(old(store.sessions), rows, casLost)
  {
    hide Settle, PromoteOnce;
    ghost var m := store.sessions;
    for i := 0 to |rows|
      invariant store.sessions == PromoteAll(m, rows[..i], casLost)
    {
      assert rows[..i + 1][..i] == rows[..i];
      var r := rows[i];
      if r.id in casLost || !r.enrollable {
        continue;
      }
      if r.capacity.None? || r.active >= r.capacity.value {
        continue;
      }
      if r.id !in store.sessions || store.sessions[r.id].waiting == [] {
        continue;
      }
      var settled := PromoteUntilSettled(store.sessions[r.id]);
      store.sessions := store.sessions[r.id := settled];
    }
    assert rows[..|rows|] == rows;
  }

  /** `reconcile_reserved_seats`; `gap` is what production does between the two snapshot reads. */
  method ReconcileReservedSeats(store: SeatStore, order: seq<string>, dryRun: bool, skipPromotion: bool,
                                gap: seq<Move>, between: seq<seq<Move>>)
    returns (drifted: seq<DeltaRow>, corrected: seq<string>, casLost: seq<string>)
    requires Lists(order, store.sessions)
    modifies store
    ensures drifted == Drifted(Snapshot(old(store.sessions), order, gap))
    ensures dryRun ==> store.sessions == Play(old(store.sessions), gap) && corrected == casLost == []
    ensures !dryRun ==>
      var pass := PassOf(Play(old(store.sessions), gap), drifted, old(store.sessions), between);
      && corrected == pass.corrected && casLost == pass.lost
      && store.sessions == if skipPromotion then pass.sessions
                           else PromoteAll(pass.sessions, Snapshot(old(store.sessions), order, gap), casLost)
  {
    hide Play, PassOf, PromoteAll;
    var seen := store.sessions;
    store.Produce(gap);
    var rows := Rows(order, seen, store.sessions);
    drifted := FindDrifted(rows);
    DriftedAreRows(rows);
    corrected, casLost := [], [];
    if !dryRun {
      corrected, casLost := CorrectDrifted(store, drifted, seen, between);
      if !skipPromotion {
        PromoteWaiting(store, rows, casLost);
      }
    }
  }
}
