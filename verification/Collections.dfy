/** Mongo collections of ledger rows: sequences of documents with an academy and an id. */
module Collections {
  import opened Reordering

  datatype Row<+T> = Row(academy: string, id: string, body: T)

  predicate Has<T>(coll: seq<Row<T>>, academy: string, id: string) {
    exists i :: 0 <= i < |coll| && coll[i].academy == academy && coll[i].id == id
  }

  /** The sum of one figure over a collection. */
  function Total<T>(rows: seq<T>, figure: T -> int): int {
    if rows == [] then 0 else Total(rows[..|rows| - 1], figure) + figure(rows[|rows| - 1])
  }

  predicate SameKey<T>(a: Row<T>, b: Row<T>) {
    a.academy == b.academy && a.id == b.id
  }

  ghost predicate DistinctKeys<T>(rows: seq<Row<T>>) {
    forall i, j :: 0 <= i < j < |rows| ==> !SameKey(rows[i], rows[j])
  }

  lemma DistinctKeysSnoc<T(!new)>(rows: seq<Row<T>>, r: Row<T>)
    requires DistinctKeys(rows) && forall q :: q in rows ==> !SameKey(q, r)
    ensures DistinctKeys(rows + [r])
  {
    assert forall i :: 0 <= i < |rows| ==> rows[i] in rows;
  }

  /** The candidates whose key is not in the collection yet: what a backfill batch would insert. */
  function Absent<T>(coll: seq<Row<T>>, candidates: seq<Row<T>>): seq<Row<T>> {
    if candidates == [] then [] else
    var last := candidates[|candidates| - 1];
    Absent(coll, candidates[..|candidates| - 1]) + if Has(coll, last.academy, last.id) then [] else [last]
  }

  lemma {:induction false} AbsentMembers<T(!new)>(coll: seq<Row<T>>, candidates: seq<Row<T>>, r: Row<T>)
    ensures r in Absent(coll, candidates) <==> r in candidates && !Has(coll, r.academy, r.id)
  {
    hide Has;
    if candidates != [] {
      var n := |candidates| - 1;
      assert candidates == candidates[..n] + [candidates[n]];
      AbsentMembers(coll, candidates[..n], r);
    }
  }

  lemma HasMember<T(!new)>(coll: seq<Row<T>>, r: Row<T>)
    requires r in coll
    ensures Has(coll, r.academy, r.id)
  {
  }

  lemma HasConcat<T(!new)>(a: seq<Row<T>>, b: seq<Row<T>>, academy: string, id: string)
    ensures Has(a + b, academy, id) <==> Has(a, academy, id) || Has(b, academy, id)
  {
    if Has(a, academy, id) {
      var i :| 0 <= i < |a| && a[i].academy == academy && a[i].id == id;
      assert (a + b)[i] == a[i];
    }
    if Has(b, academy, id) {
      var i :| 0 <= i < |b| && b[i].academy == academy && b[i].id == id;
      assert (a + b)[|a| + i] == b[i];
    }
  }

  lemma {:induction false} AbsentKeepsDistinct<T(!new)>(coll: seq<Row<T>>, candidates: seq<Row<T>>)
    requires DistinctKeys(candidates)
    ensures NoDuplicates(Absent(coll, candidates))
  {
    hide Has;
    if candidates != [] {
      var n := |candidates| - 1;
      AbsentKeepsDistinct(coll, candidates[..n]);
      AbsentMembers(coll, candidates[..n], candidates[n]);
      assert candidates[n] !in candidates[..n];
    }
  }

  /**
   * An interrupted batch: `now` is `before` with some of the batch inserted, each at most once, in any order,
   * and nothing else touched.
   */
  ghost predicate PartlyInserted<T(!new)>(before: seq<Row<T>>, batch: seq<Row<T>>, now: seq<Row<T>>) {
    && before <= now
    && (forall r :: r in now[|before|..] ==> r in batch)
    && NoDuplicates(now[|before|..])
  }

  /** Whatever an interruption left, inserting what is still absent gives the uninterrupted collection. */
  lemma RepairCompletes<T(!new)>(before: seq<Row<T>>, candidates: seq<Row<T>>, now: seq<Row<T>>)
    requires DistinctKeys(candidates)
    requires PartlyInserted(before, Absent(before, candidates), now)
    ensures multiset(now + Absent(now, candidates)) == multiset(before + Absent(before, candidates))
    ensures now <= now + Absent(now, candidates)
  {
    hide Absent, Has, DistinctKeys, NoDuplicates;
    var written, rest, all := now[|before|..], Absent(now, candidates), Absent(before, candidates);
    assert now == before + written;
    AbsentKeepsDistinct(before, candidates);
    AbsentKeepsDistinct(now, candidates);
    WrittenOrAbsent(before, candidates, written);
    NoDuplicatesConcat(written, rest);
    SameElements(written + rest, all);
    assert now + rest == before + (written + rest);
  }

  /** Each row of the full batch was either written before the interruption or is still absent, never both. */
  lemma WrittenOrAbsent<T(!new)>(before: seq<Row<T>>, candidates: seq<Row<T>>, written: seq<Row<T>>)
    requires DistinctKeys(candidates)
    requires forall r :: r in written ==> r in Absent(before, candidates)
    ensures forall r :: r in Absent(before, candidates) <==> r in written || r in Absent(before + written, candidates)
    ensures forall r :: r in written ==> r !in Absent(before + written, candidates)
  {
    hide Has, Absent;
    forall r: Row<T>
      ensures r in Absent(before, candidates) <==> r in written || r in Absent(before + written, candidates)
      ensures r in written ==> r !in Absent(before + written, candidates)
    {
      AbsentMembers(before, candidates, r);
      AbsentMembers(before + written, candidates, r);
      HasConcat(before, written, r.academy, r.id);
      if r in written {
        HasMember(written, r);
      } else if r in candidates && Has(written, r.academy, r.id) {
        var w := MemberWithKey(written, r.academy, r.id);
        AbsentMembers(before, candidates, w);
        DistinctKeysDecide(candidates, w, r);
      }
    }
  }

  lemma MemberWithKey<T(!new)>(coll: seq<Row<T>>, academy: string, id: string) returns (r: Row<T>)
    requires Has(coll, academy, id)
    ensures r in coll && r.academy == academy && r.id == id
  {
    var i :| 0 <= i < |coll| && coll[i].academy == academy && coll[i].id == id;
    r := coll[i];
  }

  lemma DistinctKeysDecide<T(!new)>(rows: seq<Row<T>>, a: Row<T>, b: Row<T>)
    requires DistinctKeys(rows) && a in rows && b in rows && SameKey(a, b)
    ensures a == b
  {
  }

  /** Nothing is absent once everything absent has been inserted. */
  lemma {:induction false} NothingAbsentAfter<T(!new)>(coll: seq<Row<T>>, candidates: seq<Row<T>>)
    requires forall r :: r in candidates ==> Has(coll, r.academy, r.id)
    ensures Absent(coll, candidates) == []
  {
    hide Has;
    if candidates != [] {
      var n := |candidates| - 1;
      assert candidates[n] in candidates;
      NothingAbsentAfter(coll, candidates[..n]);
    }
  }

  lemma AllPresentAfterInsert<T(!new)>(coll: seq<Row<T>>, candidates: seq<Row<T>>, r: Row<T>)
    requires r in candidates
    ensures Has(coll + Absent(coll, candidates), r.academy, r.id)
  {
    hide Has;
    HasConcat(coll, Absent(coll, candidates), r.academy, r.id);
    AbsentMembers(coll, candidates, r);
    if !Has(coll, r.academy, r.id) {
      HasMember(Absent(coll, candidates), r);
    }
  }

  /** With no row of any candidate's key there, the whole candidate list is the batch. */
  lemma {:induction false} AllAbsent<T(!new)>(coll: seq<Row<T>>, candidates: seq<Row<T>>)
    requires forall r :: r in candidates ==> !Has(coll, r.academy, r.id)
    ensures Absent(coll, candidates) == candidates
  {
    hide Has;
    if candidates != [] {
      var n := |candidates| - 1;
      assert candidates == candidates[..n] + [candidates[n]];
      AllAbsent(coll, candidates[..n]);
    }
  }
}
