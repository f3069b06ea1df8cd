/** Archiving loses nothing at any step, survives crashes, and agrees with the backfill and the retirement audit. */
module ArchiveProperties {
  import opened Wrappers
  import opened Collections
  import opened LegacyPayments
  import opened Backfill
  import opened BackfillProperties
  import opened Archive
  import opened Reordering

  /** Two rows of one academy with one string id, blank or not. */
  predicate SharesId(a: Payment, b: Payment) {
    a.academy == b.academy && match a.paymentId { case StringId(text) => b.paymentId == StringId(text) case _ => false }
  }

  /** What the archive's index compares. */
  lemma SharesIdIsSameText()
    ensures forall a, b :: SharesId(a, b) <==> SameText(a, b)
  {
  }

  /** The archive's unique index: no two rows of an academy with one string id. */
  ghost predicate ArchiveIndexed(archive: seq<Payment>) {
    forall i, j :: 0 <= i < j < |archive| ==> !SameText(archive[i], archive[j])
  }

  /** The unique index on `payments`: it leaves absent, null and blank ids out. */
  ghost predicate PaymentsIndexed(payments: seq<Payment>) {
    forall i, j :: 0 <= i < j < |payments| && SameText(payments[i], payments[j]) ==> payments[i].paymentId == StringId("")
  }

  /** What the database guarantees: documents are distinct and the archive's index holds. */
  ghost predicate Stands(s: State) {
    NoDuplicates(s.payments) && ArchiveIndexed(s.archive)
  }

  predicate Kept(s: State, doc: Payment) {
    doc in s.payments || doc in s.archive
  }

  function OfOthers(docs: seq<Payment>, academy: string): seq<Payment> {
    if docs == [] then [] else
    (if docs[0].academy != academy then [docs[0]] else []) + OfOthers(docs[1..], academy)
  }

  // ----- one row -----

  lemma {:induction false} OfAcademyConcat(a: seq<Payment>, b: seq<Payment>, academy: string)
    ensures OfAcademy(a + b, academy) == OfAcademy(a, academy) + OfAcademy(b, academy)
  {
    if b == [] {
      assert a + b == a;
    } else {
      var n := |b| - 1;
      assert (a + b)[..|a| + n] == a + b[..n];
      OfAcademyConcat(a, b[..n], academy);
    }
  }

  lemma {:induction false} OfOthersConcat(a: seq<Payment>, b: seq<Payment>, academy: string)
    ensures OfOthers(a + b, academy) == OfOthers(a, academy) + OfOthers(b, academy)
  {
    if a == [] {
      assert a + b == b;
    } else {
      assert (a + b)[1..] == a[1..] + b;
      OfOthersConcat(a[1..], b, academy);
    }
  }

  /** Before the academy's first row there is no row of the academy. */
  lemma {:induction false} FirstOfAcademy(payments: seq<Payment>, academy: string) returns (i: nat)
    requires OfAcademy(payments, academy) != []
    ensures i < |payments| && payments[i].academy == academy
    ensures forall j :: 0 <= j < i ==> payments[j].academy != academy
  {
    if payments[0].academy == academy {
      i := 0;
    } else {
      OfAcademyConcat([payments[0]], payments[1..], academy);
      OneRow(payments[0], academy);
      hide OfAcademy;
      assert payments == [payments[0]] + payments[1..];
      var k := FirstOfAcademy(payments[1..], academy);
      i := k + 1;
    }
  }

  lemma {:induction false} NoneOfAcademy(payments: seq<Payment>, academy: string)
    requires forall j :: 0 <= j < |payments| ==> payments[j].academy != academy
    ensures OfAcademy(payments, academy) == []
  {
    if payments != [] {
      NoneOfAcademy(payments[..|payments| - 1], academy);
    }
  }

  /** `delete_one` takes out the first row that matches, in place. */
  lemma {:induction false} RemoveIsWithout(payments: seq<Payment>, doc: Payment, i: nat)
    requires i < |payments| && DeleteMatches(doc, payments[i])
    requires forall j :: 0 <= j < i ==> !DeleteMatches(doc, payments[j])
    ensures Remove(payments, doc) == Without(payments, i)
  {
    hide DeleteMatches;
    if i > 0 {
      RemoveIsWithout(payments[1..], doc, i - 1);
      assert Without(payments, i) == [payments[0]] + Without(payments[1..], i - 1);
    }
  }

  lemma OneRow(doc: Payment, academy: string)
    ensures OfAcademy([doc], academy) == if doc.academy == academy then [doc] else []
    ensures OfOthers([doc], academy) == if doc.academy == academy then [] else [doc]
  {
    assert [doc][..0] == [];
  }

  /** The academy's rows, and the others', around one row of the academy. */
  lemma SplitAround(before: seq<Payment>, doc: Payment, after: seq<Payment>, academy: string)
    requires doc.academy == academy
    ensures OfAcademy(before + [doc] + after, academy) == OfAcademy(before, academy) + [doc] + OfAcademy(after, academy)
    ensures OfOthers(before + [doc] + after, academy) == OfOthers(before, academy) + OfOthers(after, academy)
  {
    OfAcademyConcat(before + [doc], after, academy);
    OfAcademyConcat(before, [doc], academy);
    OfOthersConcat(before + [doc], after, academy);
    OfOthersConcat(before, [doc], academy);
    OneRow(doc, academy);
    hide OfAcademy, OfOthers;
    assert OfOthers(before, academy) + [] == OfOthers(before, academy);
  }

  /** The delete of the academy's first row removes exactly that row, whatever ids the later rows have. */
  lemma DeleteFirst(payments: seq<Payment>, academy: string) returns (i: nat)
    requires OfAcademy(payments, academy) != [] && !OfAcademy(payments, academy)[0].paymentId.NoId?
    ensures var rows := OfAcademy(payments, academy);
      && i < |payments| && payments[i] == rows[0]
      && Remove(payments, rows[0]) == Without(payments, i)
      && OfAcademy(Without(payments, i), academy) == rows[1..]
      && OfOthers(Without(payments, i), academy) == OfOthers(payments, academy)
  {
    i := FirstOfAcademy(payments, academy);
    var (before, doc, after) := (payments[..i], payments[i], payments[i + 1..]);
    NoneOfAcademy(before, academy);
    hide OfAcademy, OfOthers, Remove;
    assert payments == before + [doc] + after;
    SplitAround(before, doc, after, academy);
    OfAcademyConcat(before, after, academy);
    OfOthersConcat(before, after, academy);
    RemoveIsWithout(payments, doc, i);
  }

  lemma WithoutKeepsOthers(payments: seq<Payment>, i: nat)
    requires i < |payments|
    ensures forall p :: p in payments <==> p in Without(payments, i) || p == payments[i]
    ensures NoDuplicates(payments) ==> NoDuplicates(Without(payments, i)) && payments[i] !in Without(payments, i)
  {
    assert payments == payments[..i] + [payments[i]] + payments[i + 1..];
  }

  // ----- the two collections after any number of writes -----

  function InsertAll(archive: seq<Payment>, rows: seq<Payment>): seq<Payment>
    decreases rows
  {
    if rows == [] then archive else InsertAll(InsertRow(archive, rows[0]), rows[1..])
  }

  function RemoveAll(payments: seq<Payment>, rows: seq<Payment>): seq<Payment>
    decreases rows
  {
    if rows == [] then payments else RemoveAll(Remove(payments, rows[0]), rows[1..])
  }

  /** `k` writes insert the first half of `k`, rounded up, and delete the first half, rounded down. */
  lemma {:induction false} WritesInClosedForm(s: State, rows: seq<Payment>, k: nat)
    requires k <= Reach(rows)
    ensures (k + 1) / 2 <= |rows|
    ensures AfterWrites(s, rows, k) == State(RemoveAll(s.payments, rows[..k / 2]), InsertAll(s.archive, rows[..(k + 1) / 2]))
    decreases k
  {
    hide InsertRow, Remove;
    if k == 1 {
      assert rows[..1][1..] == [];
    } else if k >= 2 {
      var t := Delete(Insert(s, rows[0]), rows[0]);
      WritesInClosedForm(t, rows[1..], k - 2);
      assert rows[..k / 2][1..] == rows[1..][..(k - 2) / 2];
      assert rows[..(k + 1) / 2][1..] == rows[1..][..(k - 1) / 2];
    }
  }

  /** The deletes take the academy's rows out in order and touch nothing else. */
  lemma {:induction false} RemovesInOrder(payments: seq<Payment>, academy: string, n: nat)
    requires n <= |OfAcademy(payments, academy)|
    requires forall i :: 0 <= i < n ==> !OfAcademy(payments, academy)[i].paymentId.NoId?
    ensures var (rows, left) := (OfAcademy(payments, academy), RemoveAll(payments, OfAcademy(payments, academy)[..n]));
      && OfAcademy(left, academy) == rows[n..]
      && OfOthers(left, academy) == OfOthers(payments, academy)
      && (forall p :: p in payments <==> p in left || p in rows[..n])
      && (NoDuplicates(payments) ==> forall p :: p in rows[..n] ==> p !in left)
  {
    hide OfAcademy, OfOthers, Remove, NoDuplicates;
    var rows := OfAcademy(payments, academy);
    if n == 0 {
      assert rows[0..] == rows;
    } else {
      var i := DeleteFirst(payments, academy);
      WithoutKeepsOthers(payments, i);
      var rest := Without(payments, i);
      RemovesInOrder(rest, academy, n - 1);
      assert rows[..n] == [rows[0]] + rows[1..][..n - 1];
      assert rows[..n][1..] == rows[1..][..n - 1];
      assert rows[1..][n - 1..] == rows[n..];
    }
  }

  lemma {:induction false} ReachHasFields(rows: seq<Payment>, k: nat)
    requires k <= Reach(rows)
    ensures (k + 1) / 2 <= |rows| && forall i :: 0 <= i < k / 2 ==> !rows[i].paymentId.NoId?
    decreases k
  {
    if k >= 2 {
      ReachHasFields(rows[1..], k - 2);
      assert forall i :: 0 < i < k / 2 ==> rows[i] == rows[1..][i - 1];
    }
  }

  lemma {:induction false} ReachOfAll(rows: seq<Payment>)
    ensures Reach(rows) == 2 * |rows| <==> AllHaveField(rows)
    ensures Reach(rows) / 2 == |rows| <==> AllHaveField(rows)
  {
    if rows != [] {
      ReachOfAll(rows[1..]);
      assert rows == [rows[0]] + rows[1..];
    }
  }

  // ----- what is in the archive -----

  lemma InsertedRow(archive: seq<Payment>, doc: Payment)
    ensures archive <= InsertRow(archive, doc)
    ensures ArchiveIndexed(archive) ==> ArchiveIndexed(InsertRow(archive, doc))
    ensures !HasText(archive, doc) ==> doc in InsertRow(archive, doc)
    ensures forall x :: x in InsertRow(archive, doc) ==> x in archive || x == doc
  {
    if !HasText(archive, doc) {
      assert forall i :: 0 <= i < |archive| ==> archive[i] in archive;
    }
  }

  lemma {:induction false} InsertsOnlyAdd(archive: seq<Payment>, rows: seq<Payment>)
    ensures archive <= InsertAll(archive, rows)
    ensures ArchiveIndexed(archive) ==> ArchiveIndexed(InsertAll(archive, rows))
    decreases rows
  {
    hide InsertRow, ArchiveIndexed;
    if rows != [] {
      InsertedRow(archive, rows[0]);
      InsertsOnlyAdd(InsertRow(archive, rows[0]), rows[1..]);
    }
  }

  lemma {:induction false} InsertAllConcat(archive: seq<Payment>, a: seq<Payment>, b: seq<Payment>)
    ensures InsertAll(archive, a + b) == InsertAll(InsertAll(archive, a), b)
    decreases a
  {
    hide InsertRow;
    if a == [] {
      assert a + b == b;
    } else {
      assert (a + b)[1..] == a[1..] + b;
      InsertAllConcat(InsertRow(archive, a[0]), a[1..], b);
    }
  }

  /** Rows that no other row, archived or pending, shares a string id with; an archived row may be the row's own copy. */
  ghost predicate SafeToArchive(archive: seq<Payment>, rows: seq<Payment>) {
    && (forall a, r :: a in archive && r in rows && SharesId(a, r) ==> a == r)
    && (forall i, j :: 0 <= i < j < |rows| ==> !SharesId(rows[i], rows[j]))
  }

  lemma {:induction false} SafeRowsAreInserted(archive: seq<Payment>, rows: seq<Payment>)
    requires SafeToArchive(archive, rows)
    ensures forall r :: r in rows ==> r in InsertAll(archive, rows)
    decreases rows
  {
    if rows != [] {
      var (doc, after) := (rows[0], InsertRow(archive, rows[0]));
      SharesIdIsSameText();
      InsertedRow(archive, doc);
      assert doc in after;
      SafeTail(archive, rows);
      SafeRowsAreInserted(after, rows[1..]);
      InsertsOnlyAdd(after, rows[1..]);
      assert rows == [doc] + rows[1..];
    }
  }

  lemma SafeTail(archive: seq<Payment>, rows: seq<Payment>)
    requires rows != [] && SafeToArchive(archive, rows)
    ensures SafeToArchive(InsertRow(archive, rows[0]), rows[1..])
  {
    InsertedRow(archive, rows[0]);
    hide InsertRow, SharesId;
    forall a, r | a in InsertRow(archive, rows[0]) && r in rows[1..] && SharesId(a, r)
      ensures a == r
    {
      var i :| 0 < i < |rows| && rows[i] == r;
      assert a in archive && r in rows;
    }
  }

  lemma InsertedRowsAreSafe(archive: seq<Payment>, rows: seq<Payment>, after: seq<Payment>)
    requires ArchiveIndexed(after) && archive <= after && NoDuplicates(rows)
    requires forall r :: r in rows ==> r in after
    ensures SafeToArchive(archive, rows)
  {
    SharesIdIsSameText();
    hide SameText, SharesId;
    forall a, r | a in after && r in after && SharesId(a, r)
      ensures a == r
    {
      var i :| 0 <= i < |after| && after[i] == a;
      var j :| 0 <= j < |after| && after[j] == r;
      SameTextIsSymmetric(a, r);
    }
    assert forall a :: a in archive ==> a in after;
    assert forall i :: 0 <= i < |rows| ==> rows[i] in rows;
  }

  lemma SameTextIsSymmetric(a: Payment, b: Payment)
    ensures SameText(a, b) <==> SameText(b, a)
  {
  }

  lemma {:induction false} OfAcademyKeepsDistinct(payments: seq<Payment>, academy: string)
    requires NoDuplicates(payments)
    ensures NoDuplicates(OfAcademy(payments, academy))
  {
    if payments != [] {
      var n := |payments| - 1;
      OfAcademyKeepsDistinct(payments[..n], academy);
      OfAcademyMembers(payments[..n], academy, payments[n]);
      assert payments[n] !in payments[..n];
    }
  }

  // ----- every step -----

  /** What `k` writes of a run leave, whatever ids the rows have. */
  lemma AfterWritesIs(s: State, rows: seq<Payment>, academy: string, k: nat)
    requires rows == OfAcademy(s.payments, academy) && k <= Reach(rows)
    ensures (k + 1) / 2 <= |rows|
    ensures var t := AfterWrites(s, rows, k);
      && t.archive == InsertAll(s.archive, rows[..(k + 1) / 2]) && s.archive <= t.archive
      && t.payments == RemoveAll(s.payments, rows[..k / 2])
      && OfAcademy(t.payments, academy) == rows[k / 2..]
      && OfOthers(t.payments, academy) == OfOthers(s.payments, academy)
      && (forall p :: p in s.payments <==> p in t.payments || p in rows[..k / 2])
      && (NoDuplicates(s.payments) ==> forall p :: p in rows[..k / 2] ==> p !in t.payments)
  {
    WritesInClosedForm(s, rows, k);
    ReachHasFields(rows, k);
    RemovesInOrder(s.payments, academy, k / 2);
    InsertsOnlyAdd(s.archive, rows[..(k + 1) / 2]);
  }

  /**
   * Exactly when archiving loses nothing, at every step of every run, interrupted or not: no row deleted so far
   * shares its string id, a blank one included, with another row deleted so far or with an archived row that is not
   * its copy. Other academies' rows are never touched and the archive only grows.
   */
  lemma ArchiveLosesNothingIff(s: State, rows: seq<Payment>, academy: string, k: nat)
    requires Stands(s) && rows == OfAcademy(s.payments, academy) && k <= Reach(rows)
    ensures k / 2 <= |rows|
    ensures var t := AfterWrites(s, rows, k);
      && (LosesNothing(s, t) <==> SafeToArchive(s.archive, rows[..k / 2]))
      && OfOthers(t.payments, academy) == OfOthers(s.payments, academy)
      && s.archive <= t.archive && OfAcademy(t.payments, academy) == rows[k / 2..]
  {
    var t := AfterWrites(s, rows, k);
    AfterWritesIs(s, rows, academy, k);
    OfAcademyKeepsDistinct(s.payments, academy);
    DistinctPrefix(rows, k / 2);
    hide *;
    KeptIffArchived(s, t, rows[..k / 2]);
    ArchivedIffSafe(s.archive, rows, k / 2, (k + 1) / 2);
  }

  lemma DistinctPrefix(rows: seq<Payment>, n: nat)
    requires n <= |rows| && NoDuplicates(rows)
    ensures NoDuplicates(rows[..n])
  {
  }

  /** Nothing is lost exactly when every deleted row is in the archive. */
  lemma KeptIffArchived(s: State, t: State, deleted: seq<Payment>)
    requires s.archive <= t.archive && forall p :: p in s.payments <==> p in t.payments || p in deleted
    requires forall p :: p in deleted ==> p !in t.payments
    ensures LosesNothing(s, t) <==> forall r :: r in deleted ==> r in t.archive
  {
    assert forall a :: a in s.archive ==> a in t.archive;
    if LosesNothing(s, t) {
      forall r | r in deleted
        ensures r in t.archive
      {
        assert Kept(s, r);
      }
    }
  }

  /** Every one of the first `n` rows ends up in the archive exactly when they are safe to archive. */
  lemma ArchivedIffSafe(archive: seq<Payment>, rows: seq<Payment>, n: nat, m: nat)
    requires n <= m <= |rows| && ArchiveIndexed(archive) && NoDuplicates(rows[..n])
    ensures (forall r :: r in rows[..n] ==> r in InsertAll(archive, rows[..m])) <==> SafeToArchive(archive, rows[..n])
  {
    hide *;
    InsertsOnlyAdd(archive, rows[..m]);
    assert rows[..m] == rows[..n] + rows[n..m];
    InsertAllConcat(archive, rows[..n], rows[n..m]);
    InsertsOnlyAdd(InsertAll(archive, rows[..n]), rows[n..m]);
    if SafeToArchive(archive, rows[..n]) {
      SafeRowsAreInserted(archive, rows[..n]);
    }
    if forall r :: r in rows[..n] ==> r in InsertAll(archive, rows[..m]) {
      InsertedRowsAreSafe(archive, rows[..n], InsertAll(archive, rows[..m]));
    }
  }

  ghost predicate LosesNothing(s: State, t: State) {
    forall p :: Kept(s, p) ==> Kept(t, p)
  }

  /**
   * With the index `payments` really has, a completed run loses nothing exactly when the academy has at most one row
   * with a blank id and every archived row with a pending row's id is a copy of it.
   */
  lemma OneBlankIdLosesNothing(s: State, rows: seq<Payment>, academy: string)
    requires Stands(s) && PaymentsIndexed(s.payments) && rows == OfAcademy(s.payments, academy) && AllHaveField(rows)
    ensures
      LosesNothing(s, AfterWrites(s, rows, Reach(rows))) <==>
      && (forall i, j :: 0 <= i < j < |rows| ==> !(rows[i].paymentId == rows[j].paymentId == StringId("")))
      && (forall a, r :: a in s.archive && r in rows && SharesId(a, r) ==> a == r)
  {
    hide *;
    ReachOfAll(rows);
    ArchiveLosesNothingIff(s, rows, academy, Reach(rows));
    assert rows[..|rows|] == rows;
    OfAcademyKeepsIndexed(s.payments, academy);
    OfAcademyIsOfAcademy(s.payments, academy);
    IndexedRowsAreSafeIff(s.archive, rows, academy);
  }

  lemma OfAcademyIsOfAcademy(payments: seq<Payment>, academy: string)
    ensures var rows := OfAcademy(payments, academy); forall i :: 0 <= i < |rows| ==> rows[i].academy == academy
  {
    var rows := OfAcademy(payments, academy);
    forall i | 0 <= i < |rows|
      ensures rows[i].academy == academy
    {
      OfAcademyMembers(payments, academy, rows[i]);
    }
  }

  lemma IndexedRowsAreSafeIff(archive: seq<Payment>, rows: seq<Payment>, academy: string)
    requires PaymentsIndexed(rows) && forall i :: 0 <= i < |rows| ==> rows[i].academy == academy
    ensures SafeToArchive(archive, rows) <==>
      && (forall i, j :: 0 <= i < j < |rows| ==> !(rows[i].paymentId == rows[j].paymentId == StringId("")))
      && (forall a, r :: a in archive && r in rows && SharesId(a, r) ==> a == r)
  {
  }

  lemma {:induction false} OfAcademyKeepsIndexed(payments: seq<Payment>, academy: string)
    requires PaymentsIndexed(payments)
    ensures PaymentsIndexed(OfAcademy(payments, academy))
  {
    hide SameText;
    if payments != [] {
      var n := |payments| - 1;
      OfAcademyKeepsIndexed(payments[..n], academy);
      var before := OfAcademy(payments[..n], academy);
      forall i | 0 <= i < |before|
        ensures before[i] in payments[..n]
      {
        OfAcademyMembers(payments[..n], academy, before[i]);
      }
    }
  }

  /**
   * Two blank ids lose a row. Both rows can be backfilled, so neither blocks the run; the second one's insert is
   * taken for a rerun's duplicate, and it is deleted without a copy.
   */
  lemma TwoBlankIdsLoseARow(a: Payment, b: Payment)
    requires a.academy == b.academy && a.paymentId == b.paymentId == StringId("") && a.docId != b.docId
    ensures var s := State([a, b], []);
      && Stands(s) && PaymentsIndexed(s.payments) && DistinctIds(s.payments)
      && OfAcademy(s.payments, a.academy) == [a, b] && OutcomeOf([a, b], 4) == Completed
      && AfterCrash(s, [a, b], 4) == State([], [a]) && !Kept(AfterCrash(s, [a, b], 4), b)
  {
    var (s, mid) := (State([a, b], []), State([b], [a]));
    OneRow(a, a.academy);
    OneRow(b, a.academy);
    assert [a, b] == [a] + [b];
    OfAcademyConcat([a], [b], a.academy);
    OneBlankRow(s, a, [b]);
    OneBlankRow(mid, b, []);
    RunOfNothing(State([], [a]));
    BlankSteps(a, b);
    BlankPairStands(a, b);
    hide *;
    assert !Kept(State([], [a]), b) by { NotKeptIn(a, b); }
  }

  lemma NotKeptIn(a: Payment, b: Payment)
    requires a != b
    ensures !Kept(State([], [a]), b)
  {
  }

  lemma BlankPairStands(a: Payment, b: Payment)
    requires a.paymentId == b.paymentId == StringId("") && a.docId != b.docId
    ensures Stands(State([a, b], [])) && PaymentsIndexed([a, b]) && DistinctIds([a, b])
  {
  }

  lemma BlankSteps(a: Payment, b: Payment)
    requires a.academy == b.academy && a.paymentId == b.paymentId == StringId("")
    ensures Delete(Insert(State([a, b], []), a), a) == State([b], [a])
    ensures Delete(Insert(State([b], [a]), b), b) == State([], [a])
  {
    assert SameText(a, b) && a in [a];
    assert [a, b][1..] == [b] && [b][1..] == [];
  }

  lemma OneBlankRow(s: State, doc: Payment, rest: seq<Payment>)
    requires doc.paymentId == StringId("")
    ensures forall left: nat :: left >= 2 ==>
      && AfterCrash(s, [doc] + rest, left) == AfterCrash(Delete(Insert(s, doc), doc), rest, left - 2)
      && OutcomeOf([doc] + rest, left) == OutcomeOf(rest, left - 2)
  {
    forall left: nat | left >= 2
      ensures AfterCrash(s, [doc] + rest, left) == AfterCrash(Delete(Insert(s, doc), doc), rest, left - 2)
      ensures OutcomeOf([doc] + rest, left) == OutcomeOf(rest, left - 2)
    {
      RunStep(s, doc, rest, left);
    }
  }

  /**
   * An uninterrupted run empties the academy's `payments` exactly when every row carries its payment id field; the
   * delete of a row without one raises, after the row was archived.
   */
  lemma ApplyCompletesIff(s: State, rows: seq<Payment>, academy: string, writes: nat)
    requires rows == OfAcademy(s.payments, academy) && writes >= Reach(rows)
    ensures OfAcademy(AfterCrash(s, rows, writes).payments, academy) == [] <==> AllHaveField(rows)
    ensures OutcomeOf(rows, writes) == if AllHaveField(rows) then Completed else FieldMissing
  {
    ReachOfAll(rows);
    AfterWritesIs(s, rows, academy, Reach(rows));
    hide OfAcademy, AfterWrites, AllHaveField;
  }

  /** Such a row stops every rerun: each one archives one more copy of it and deletes nothing. */
  lemma MissingFieldStopsEveryRerun(s: State, rows: seq<Payment>, writes: nat)
    requires rows != [] && rows[0].paymentId.NoId? && writes >= 1
    ensures AfterCrash(s, rows, writes) == s.(archive := s.archive + [rows[0]])
    ensures OutcomeOf(rows, writes) == FieldMissing
  {
    assert rows[0] in rows;
  }

  // ----- rerunning after a crash -----

  lemma {:induction false} RemoveAllConcat(payments: seq<Payment>, a: seq<Payment>, b: seq<Payment>)
    ensures RemoveAll(payments, a + b) == RemoveAll(RemoveAll(payments, a), b)
    decreases a
  {
    hide Remove;
    if a == [] {
      assert a + b == b;
    } else {
      assert (a + b)[1..] == a[1..] + b;
      RemoveAllConcat(Remove(payments, a[0]), a[1..], b);
    }
  }

  /** A row without a string id is appended by every insert, and no later insert notices it. */
  lemma {:induction false} UnindexedRowOnlyAddsItself(archive: seq<Payment>, doc: Payment, rows: seq<Payment>)
    requires !doc.paymentId.StringId?
    ensures |InsertAll(archive + [doc], rows)| == |InsertAll(archive, rows)| + 1
    decreases |rows|
  {
    if rows != [] {
      UnindexedSame(archive, [], doc, rows);
      assert archive + [doc] + [] == archive + [doc] && archive + [] == archive;
    }
  }

  /** The inserts after `doc` are the same with and without it. */
  lemma {:induction false} UnindexedSame(archive: seq<Payment>, more: seq<Payment>, doc: Payment, rows: seq<Payment>)
    requires !doc.paymentId.StringId?
    ensures |InsertAll(archive + [doc] + more, rows)| == |InsertAll(archive + more, rows)| + 1
    decreases |rows|
  {
    if rows != [] {
      var (x, with, without) := (rows[0], archive + [doc] + more, archive + more);
      assert HasText(with, x) <==> HasText(without, x) by {
        assert forall a :: a in with <==> a in without || a == doc;
      }
      if HasText(with, x) {
        UnindexedSame(archive, more, doc, rows[1..]);
      } else {
        assert with + [x] == archive + [doc] + (more + [x]);
        assert without + [x] == archive + (more + [x]);
        UnindexedSame(archive, more + [x], doc, rows[1..]);
      }
    } else {
      assert |archive + [doc] + more| == |archive + more| + 1;
    }
  }

  /**
   * A crash at any write followed by a rerun deletes what an uninterrupted run deletes, and ends in exactly its state
   * unless the crash fell between the insert and the delete of a row whose id is null: the archive's index does not
   * see that row, so the rerun archives it twice.
   */
  lemma CrashThenRerunIff(s: State, rows: seq<Payment>, academy: string, k: nat)
    requires rows == OfAcademy(s.payments, academy) && AllHaveField(rows) && k <= Reach(rows)
    ensures k % 2 == 1 ==> k / 2 < |rows|
    ensures var t := AfterWrites(s, rows, k);
      var left := OfAcademy(t.payments, academy);
      var (again, whole) := (AfterWrites(t, left, Reach(left)), AfterWrites(s, rows, Reach(rows)));
      && left == rows[k / 2..] && again.payments == whole.payments
      && (again == whole <==> !(k % 2 == 1 && rows[k / 2].paymentId.NullId?))
  {
    hide *;
    LeftAfter(s, rows, academy, k);
    RerunIs(s, rows, academy, k);
    WholeRun(s, rows);
    RerunInserts(s.archive, rows, k / 2, (k + 1) / 2);
    if k % 2 == 1 {
      HasFieldAt(rows, k / 2);
    }
  }

  /** The two collections after the rerun. */
  lemma RerunIs(s: State, rows: seq<Payment>, academy: string, k: nat)
    requires rows == OfAcademy(s.payments, academy) && AllHaveField(rows) && k <= Reach(rows)
    ensures (k + 1) / 2 <= |rows|
    ensures AfterWrites(AfterWrites(s, rows, k), rows[k / 2..], Reach(rows[k / 2..]))
         == State(RemoveAll(s.payments, rows), InsertAll(InsertAll(s.archive, rows[..(k + 1) / 2]), rows[k / 2..]))
  {
    hide *;
    LeftAfter(s, rows, academy, k);
    WritesInClosedForm(s, rows, k);
    WholeRun(AfterWrites(s, rows, k), rows[k / 2..]);
    RemoveAllConcat(s.payments, rows[..k / 2], rows[k / 2..]);
    assert rows[..k / 2] + rows[k / 2..] == rows;
  }

  lemma LeftAfter(s: State, rows: seq<Payment>, academy: string, k: nat)
    requires rows == OfAcademy(s.payments, academy) && AllHaveField(rows) && k <= Reach(rows)
    ensures k / 2 <= |rows| && (k % 2 == 1 ==> k / 2 < |rows|)
    ensures OfAcademy(AfterWrites(s, rows, k).payments, academy) == rows[k / 2..] && AllHaveField(rows[k / 2..])
  {
    AfterWritesIs(s, rows, academy, k);
  }

  /** Inserting from row `n` on, after the first `m` were inserted: the same as one run unless row `n` is null and repeated. */
  lemma RerunInserts(archive: seq<Payment>, rows: seq<Payment>, n: nat, m: nat)
    requires n <= m <= n + 1 && m <= |rows|
    ensures InsertAll(InsertAll(archive, rows[..m]), rows[n..]) == InsertAll(archive, rows)
      <==> m == n || rows[n].paymentId.StringId?
  {
    hide *;
    var (before, left) := (InsertAll(archive, rows[..n]), rows[n..]);
    assert rows == rows[..n] + left;
    InsertAllConcat(archive, rows[..n], left);
    if m > n {
      assert rows[..m] == rows[..n] + [rows[n]];
      InsertAllConcat(archive, rows[..n], [rows[n]]);
      InsertOne(before, rows[n]);
      InsertTwice(before, left);
      assert left[0] == rows[n];
    }
  }

  lemma HasFieldAt(rows: seq<Payment>, i: nat)
    requires i < |rows| && AllHaveField(rows)
    ensures rows[i].paymentId.StringId? <==> !rows[i].paymentId.NullId?
  {
  }

  /** A run that is not interrupted, over rows that all carry the field. */
  lemma WholeRun(s: State, rows: seq<Payment>)
    requires AllHaveField(rows)
    ensures AfterWrites(s, rows, Reach(rows)) == State(RemoveAll(s.payments, rows), InsertAll(s.archive, rows))
  {
    hide *;
    ReachOfAll(rows);
    WritesInClosedForm(s, rows, Reach(rows));
    assert rows[..|rows|] == rows;
  }

  lemma InsertOne(archive: seq<Payment>, doc: Payment)
    ensures InsertAll(archive, [doc]) == InsertRow(archive, doc)
  {
    assert [doc][1..] == [];
  }

  /** Inserting the first row once more changes nothing when it has a string id, and adds a copy when it has not. */
  lemma InsertTwice(archive: seq<Payment>, rows: seq<Payment>)
    requires rows != []
    ensures var (once, twice) := (InsertAll(archive, rows), InsertAll(InsertRow(archive, rows[0]), rows));
      once == twice <==> rows[0].paymentId.StringId?
  {
    var (doc, after) := (rows[0], InsertRow(archive, rows[0]));
    if doc.paymentId.StringId? {
      assert SameText(doc, doc);
      assert HasText(after, doc) by {
        InsertedRow(archive, doc);
        if !HasText(archive, doc) { assert doc in after; }
      }
    } else {
      assert InsertRow(after, doc) == after + [doc];
      UnindexedRowOnlyAddsItself(after, doc, rows[1..]);
    }
  }

  // ----- agreement with the backfill and with the retirement audit -----

  /** A ledger row exists for a legacy payment after a first backfill exactly when the backfill could map it. */
  lemma InvoiceIffEligible(l: Ledger, docs: seq<Payment>, academy: string, doc: Payment)
    requires NoRowsOf(l, academy) && DistinctIds(docs) && (forall d :: d in docs ==> d.academy == academy) && doc in docs
    ensures HasInvoice(Backfilled(l, docs), academy, PaymentId(doc)) <==> Eligible(doc)
  {
    hide Eligible, MappedOf, PaymentId, Wanted, InvoiceId;
    FirstRunInsertsAll(l, docs, academy);
    var after := Backfilled(l, docs);
    if Eligible(doc) {
      WantedContains(docs, doc);
      MappedIsLinked(doc);
      assert MappedOf(doc).invoice in after.invoices;
    }
    if HasInvoice(after, academy, PaymentId(doc)) {
      var r :| r in after.invoices && r.academy == academy && (r.id == InvoiceId(PaymentId(doc)) || r.body.backfillPaymentId == PaymentId(doc));
      assert r in Wanted(docs).invoices;
      var d := WantedSource(docs, r);
      MappedIsLinked(d);
      IdsAreInjective(PaymentId(d), PaymentId(doc));
      SameIdSameRow(docs, d, doc);
    }
  }

  lemma SameIdSameRow(docs: seq<Payment>, a: Payment, b: Payment)
    requires DistinctIds(docs) && a in docs && b in docs && PaymentId(a) == PaymentId(b)
    ensures a == b
  {
    hide PaymentId;
    var i :| 0 <= i < |docs| && docs[i] == a;
    var j :| 0 <= j < |docs| && docs[j] == b;
    assert i == j;
  }

  lemma {:induction false} WantedSource(docs: seq<Payment>, r: Row<Invoice>) returns (d: Payment)
    requires r in Wanted(docs).invoices
    ensures d in docs && Eligible(d) && MappedOf(d).invoice == r
  {
    hide Eligible, MappedOf;
    var n := |docs| - 1;
    if Eligible(docs[n]) && MappedOf(docs[n]).invoice == r {
      d := docs[n];
    } else {
      d := WantedSource(docs[..n], r);
    }
  }

  ghost predicate LegacyBlocked(l: Ledger, rows: seq<Payment>) {
    exists b :: b in Blockers(l, rows) && b.reason == NoBackfilledInvoice
  }

  lemma {:induction false} LegacyBlockedIff(l: Ledger, rows: seq<Payment>)
    ensures LegacyBlocked(l, rows) <==>
      exists d :: d in rows && IsLegacy(d) && PaymentId(d) != "" && !HasInvoice(l, d.academy, PaymentId(d))
  {
    hide HasInvoice, Has, PaymentId, IsLegacy;
    if rows != [] {
      var n := |rows| - 1;
      assert rows == rows[..n] + [rows[n]];
      LegacyBlockedIff(l, rows[..n]);
      var (before, last) := (Blockers(l, rows[..n]), Optional(BlockerOf(l, rows[n])));
      assert forall b :: b in Blockers(l, rows) <==> b in before || b in last;
    }
  }

  /**
   * Pipeline agreement. Starting from a ledger without rows of the academy, a completed backfill leaves no legacy
   * blocker for the archive exactly when every legacy row is mapped: none soft-deleted, of unknown status or with
   * a figure the mapping rejects.
   */
  lemma PipelineAgrees(l: Ledger, payments: seq<Payment>, academy: string)
    requires NoRowsOf(l, academy) && DistinctIds(LegacyRows(payments, academy))
    requires forall d :: d in payments ==> PaymentId(d) != ""
    ensures LegacyBlocked(Backfilled(l, LegacyRows(payments, academy)), OfAcademy(payments, academy)) <==>
      exists d :: d in LegacyRows(payments, academy) && !Eligible(d)
  {
    hide Eligible, PaymentId, HasInvoice, IsLegacy, Backfilled, Blockers;
    var (docs, rows) := (LegacyRows(payments, academy), OfAcademy(payments, academy));
    var after := Backfilled(l, docs);
    LegacyBlockedIff(after, rows);
    forall d
      ensures d in docs <==> d in rows && IsLegacy(d)
      ensures d in rows ==> d.academy == academy && PaymentId(d) != ""
    {
      LegacyRowsMembers(payments, academy, d);
      OfAcademyMembers(payments, academy, d);
    }
    forall d | d in docs
      ensures HasInvoice(after, academy, PaymentId(d)) <==> Eligible(d)
    {
      InvoiceIffEligible(l, docs, academy, d);
    }
  }

  /**
   * Which blocker a row gets, from its own fields: one without an id always; one without the two ledger fields when the
   * ledger has no invoice derived from it; any other when the ledger has no payment with its id.
   */
  lemma BlockerMeans(l: Ledger, doc: Payment)
    ensures var id := if doc.paymentId.StringId? && doc.paymentId.text != "" then doc.paymentId.text else doc.docId;
      var legacy := !doc.hasIdempotencyKey && !doc.hasUnapplied;
      var invoiced := exists r :: r in l.invoices && r.academy == doc.academy
                                  && (r.id == "inv-from-" + id || r.body.backfillPaymentId == id);
      var copied := exists r :: r in l.payments && r.academy == doc.academy && r.id == id;
      BlockerOf(l, doc) == if id == "" then Some(Blocker("", PaymentIdMissing))
                           else if legacy && !invoiced then Some(Blocker(id, NoBackfilledInvoice))
                           else if !legacy && !copied then Some(Blocker(id, NotCopiedToLedger)) else None
  {
    HasIsMembership(l.payments, doc.academy, PaymentId(doc));
    hide Has;
  }

  lemma HasIsMembership<T(!new)>(coll: seq<Row<T>>, academy: string, id: string)
    ensures Has(coll, academy, id) <==> exists r :: r in coll && r.academy == academy && r.id == id
  {
    if Has(coll, academy, id) {
      var r := MemberWithKey(coll, academy, id);
    }
    if r :| r in coll && r.academy == academy && r.id == id {
      HasMember(coll, r);
    }
  }

  /** The rows the retirement audit passes over: legacy ones whose deletion flag is literally true. */
  predicate PassedOver(doc: Payment) {
    !doc.hasIdempotencyKey && !doc.hasUnapplied && doc.isDeleted == Bool(true)
  }

  /** No row of the audit's lacks its invoice or its copy. */
  predicate AllCopied(c: Retirement) {
    c.missingBackfill == 0 && c.missingCopy == 0
  }

  /** What one row adds to the counts of missing copies, next to whether it blocks the archive. */
  lemma RowBlocksOrCounts(l: Ledger, c: Retirement, doc: Payment)
    requires PaymentId(doc) != ""
    ensures var after := CountRow(l, c, doc);
      var legacy := !doc.hasIdempotencyKey && !doc.hasUnapplied;
      var missing := if BlockerOf(l, doc).Some? && !PassedOver(doc) then 1 else 0;
      && after.missingBackfill == c.missingBackfill + (if legacy then missing else 0)
      && after.missingCopy == c.missingCopy + (if legacy then 0 else missing)
      && after.activeLegacy == c.activeLegacy + (if legacy && doc.isDeleted != Bool(true) then 1 else 0)
      && after.ledgerShaped == c.ledgerShaped + (if legacy then 0 else 1)
  {
    hide PaymentId, HasInvoice, Has;
  }

  lemma {:induction false} AllCopiedIff(l: Ledger, rows: seq<Payment>)
    requires forall d :: d in rows ==> PaymentId(d) != ""
    ensures AllCopied(Retired(l, rows)) <==> forall d :: d in rows && BlockerOf(l, d).Some? ==> PassedOver(d)
    ensures Blockers(l, rows) == [] <==> forall d :: d in rows ==> BlockerOf(l, d).None?
  {
    hide PaymentId, BlockerOf, PassedOver, CountRow;
    if rows != [] {
      var n := |rows| - 1;
      assert rows == rows[..n] + [rows[n]];
      AllCopiedIff(l, rows[..n]);
      RowBlocksOrCounts(l, Retired(l, rows[..n]), rows[n]);
    }
  }

  /**
   * The archive and the retirement audit judge the same rows alike, for any ledger, exactly when not every blocked row
   * is one the audit passes over. Then, and only then, the archive is blocked while the audit misses no copy; never
   * the other way round.
   */
  lemma ArchiveAndAuditAgreeIff(l: Ledger, rows: seq<Payment>)
    requires forall d :: d in rows ==> PaymentId(d) != ""
    ensures Blockers(l, rows) == [] ==> AllCopied(Retired(l, rows))
    ensures (Blockers(l, rows) == [] <==> AllCopied(Retired(l, rows))) <==>
      ((exists d :: d in rows && BlockerOf(l, d).Some?) ==> exists d :: d in rows && BlockerOf(l, d).Some? && !PassedOver(d))
  {
    AllCopiedIff(l, rows);
    hide PaymentId, BlockerOf, PassedOver, Retired, Blockers;
  }

  /**
   * After a first backfill one legacy row is judged alike, blocked exactly when it is counted as missing, unless its
   * deletion flag is literally true. Any other truthy flag keeps the row from being mapped as well, and is counted.
   */
  lemma LegacyRowJudgedAlikeIff(l: Ledger, docs: seq<Payment>, academy: string, doc: Payment, c: Retirement)
    requires NoRowsOf(l, academy) && DistinctIds(docs) && (forall d :: d in docs ==> d.academy == academy) && doc in docs
    requires IsLegacy(doc) && PaymentId(doc) != ""
    ensures var (blocker, counted) := (BlockerOf(Backfilled(l, docs), doc), CountRow(Backfilled(l, docs), c, doc));
      && (blocker.Some? <==> !Eligible(doc))
      && ((blocker.Some? <==> counted.missingBackfill > c.missingBackfill) <==> doc.isDeleted != Bool(true))
  {
    InvoiceIffEligible(l, docs, academy, doc);
    hide PaymentId, Backfilled, HasInvoice, FiguresOf, KindOf;
  }

  /** The audit's four zero counts do not mean that `payments` is empty: they mean that all it holds is passed over. */
  lemma {:induction false} RetiredIff(l: Ledger, rows: seq<Payment>)
    ensures Retired(l, rows) == Retirement(0, 0, 0, 0) <==> forall d :: d in rows ==> PassedOver(d)
  {
    hide PaymentId, HasInvoice, Has;
    if rows != [] {
      var n := |rows| - 1;
      assert rows == rows[..n] + [rows[n]];
      RetiredIff(l, rows[..n]);
      var before := Retired(l, rows[..n]);
      assert CountRow(l, before, rows[n]) == Retirement(0, 0, 0, 0) <==> before == Retirement(0, 0, 0, 0) && PassedOver(rows[n]);
      hide CountRow, PassedOver;
    }
  }

  /**
   * After any number of the archive's writes the four counts are zero exactly when every row whose delete has not
   * come yet is passed over; so a completed archive always retires the collection.
   */
  lemma ArchiveRetiresIff(l: Ledger, s: State, rows: seq<Payment>, academy: string, k: nat)
    requires rows == OfAcademy(s.payments, academy) && AllHaveField(rows) && k <= Reach(rows)
    ensures k / 2 <= |rows|
    ensures Retired(l, OfAcademy(AfterWrites(s, rows, k).payments, academy)) == Retirement(0, 0, 0, 0) <==>
      forall i :: k / 2 <= i < |rows| ==> PassedOver(rows[i])
  {
    LeftAfter(s, rows, academy, k);
    RetiredIff(l, rows[k / 2..]);
    hide *;
    assert forall i :: k / 2 <= i < |rows| ==> rows[i] == rows[k / 2..][i - k / 2];
  }

  /** An unblocked, completed archive leaves nothing for the retirement audit to count. */
  lemma CompletedArchiveRetires(l: Ledger, s: State, rows: seq<Payment>, academy: string, writes: nat)
    requires rows == OfAcademy(s.payments, academy) && OutcomeOf(rows, writes) == Completed
    ensures Retired(l, OfAcademy(AfterCrash(s, rows, writes).payments, academy)) == Retirement(0, 0, 0, 0)
  {
    ApplyCompletesIff(s, rows, academy, writes);
    hide AfterCrash, Reach, OfAcademy;
  }

  /** The pair that loses a row really gets that far: a first backfill maps both rows, and nothing blocks the archive. */
  lemma TwoBlankIdsAreNotBlocked(l: Ledger, a: Payment, b: Payment)
    requires NoRowsOf(l, a.academy) && a.academy == b.academy
    requires a.paymentId == b.paymentId == StringId("") && a.docId != b.docId && a.docId != "" && b.docId != ""
    requires IsLegacy(a) && IsLegacy(b) && Eligible(a) && Eligible(b)
    ensures Blockers(Backfilled(l, [a, b]), [a, b]) == []
  {
    BlankPairStands(a, b);
    hide *;
    var after := Backfilled(l, [a, b]);
    InvoiceIffEligible(l, [a, b], a.academy, a);
    InvoiceIffEligible(l, [a, b], a.academy, b);
    MappedRowIsNotBlocked(after, a);
    MappedRowIsNotBlocked(after, b);
    UnblockedPair(after, a, b);
  }

  lemma MappedRowIsNotBlocked(l: Ledger, doc: Payment)
    requires doc.paymentId == StringId("") && doc.docId != "" && IsLegacy(doc) && HasInvoice(l, doc.academy, PaymentId(doc))
    ensures BlockerOf(l, doc) == None
  {
  }

  lemma UnblockedPair(l: Ledger, a: Payment, b: Payment)
    requires BlockerOf(l, a) == None && BlockerOf(l, b) == None
    ensures Blockers(l, [a, b]) == []
  {
    hide BlockerOf;
    assert [a][..0] == [] && [a, b][..1] == [a];
    assert Blockers(l, [a]) == [];
  }
}
