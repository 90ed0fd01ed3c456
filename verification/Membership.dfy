/** Group membership: what attaching rows does to every group's member list. */
module Membership {
  import opened Rows
  import opened Ordering
  import opened GroupNet
  import opened Routing
  import opened Books
  import opened Exits

  ghost predicate UniqueIds(txns: seq<Txn>) {
    forall i, j :: 0 <= i < j < |txns| ==> txns[i].row.id != txns[j].row.id
  }

  ghost predicate SameElements<T(!new)>(a: seq<T>, b: seq<T>) {
    forall x :: x in a <==> x in b
  }

  lemma {:induction false} SameElementsSameMultiset<T(!new)>(a: seq<T>, b: seq<T>)
    requires NoRepeats(a) && NoRepeats(b) && SameElements(a, b)
    ensures multiset(a) == multiset(b)
  {
    if a == [] {
      if b != [] {
        FirstIsMember(b);
      }
    } else {
      var n := |a| - 1;
      FirstIsMember([a[n]]);
      assert a[n] in a && a[n] in b;
      var j :| 0 <= j < |b| && b[j] == a[n];
      WithoutLast(a, b, j);
      SameElementsSameMultiset(a[..n], b[..j] + b[j + 1..]);
      RemoveMiddle(b, j);
      RemoveMiddle(a, n);
      assert a[..n] + a[n + 1..] == a[..n];
      PutBack(multiset(a), multiset(b), a[n]);
    }
  }

  lemma FirstIsMember<T>(s: seq<T>)
    requires s != []
    ensures s[0] in s
  {
  }

  lemma PutBack<T>(a: multiset<T>, b: multiset<T>, x: T)
    requires x in a && x in b && a - multiset{x} == b - multiset{x}
    ensures a == b
  {
    assert a == (a - multiset{x}) + multiset{x};
    assert b == (b - multiset{x}) + multiset{x};
  }

  lemma WithoutLast<T(!new)>(a: seq<T>, b: seq<T>, j: nat)
    requires a != [] && NoRepeats(a) && NoRepeats(b) && SameElements(a, b)
    requires j < |b| && b[j] == a[|a| - 1]
    ensures NoRepeats(a[..|a| - 1]) && NoRepeats(b[..j] + b[j + 1..])
    ensures SameElements(a[..|a| - 1], b[..j] + b[j + 1..])
  {
    var n, b' := |a| - 1, b[..j] + b[j + 1..];
    forall x
      ensures x in a[..n] <==> x in b'
    {
      assert x in a <==> x in b;
      assert x in a[..n] <==> x in a && x != a[n];
      assert x in b' <==> x in b && x != b[j];
    }
  }

  lemma DistinctIdsNoRepeats(rows: seq<Row>)
    requires DistinctIds(rows)
    ensures NoRepeats(rows)
  {
  }

  lemma {:induction false} MembersIn(txns: seq<Txn>, pk: nat, r: Row)
    ensures r in Members(txns, pk) <==> exists i :: 0 <= i < |txns| && txns[i].row == r && txns[i].group == Some(pk)
  {
    if txns != [] {
      var n := |txns| - 1;
      MembersIn(txns[..n], pk, r);
      if txns[n].group == Some(pk) && txns[n].row == r {
        assert r in Members(txns, pk);
      } else {
        assert r in Members(txns, pk) <==> r in Members(txns[..n], pk);
      }
    }
  }

  lemma {:induction false} MembersDistinct(txns: seq<Txn>, pk: nat)
    requires UniqueIds(txns)
    ensures DistinctIds(Members(txns, pk))
  {
    if txns != [] {
      var n := |txns| - 1;
      MembersDistinct(txns[..n], pk);
      forall k | 0 <= k < |Members(txns[..n], pk)|
        ensures Members(txns[..n], pk)[k].id != txns[n].row.id
      {
        MembersIn(txns[..n], pk, Members(txns[..n], pk)[k]);
      }
    }
  }

  // No transaction outside the group is about to be taken into it.
  ghost predicate MayAttach(txns: seq<Txn>, ids: set<TxnId>, pk: nat) {
    forall i :: 0 <= i < |txns| && txns[i].row.id in ids ==> txns[i].group.None? || txns[i].group == Some(pk)
  }

  lemma {:induction false} AttachLeavesOthers(txns: seq<Txn>, ids: set<TxnId>, pk: nat, q: nat)
    requires MayAttach(txns, ids, pk) && q != pk
    ensures Members(AttachAll(txns, ids, pk), q) == Members(txns, q)
  {
    if txns != [] {
      var n := |txns| - 1;
      AttachLeavesOthers(txns[..n], ids, pk, q);
      assert AttachAll(txns, ids, pk)[..n] == AttachAll(txns[..n], ids, pk);
    }
  }

  // The rows are transactions of the table that are unattributed or already the group's own.
  ghost predicate Attachable(txns: seq<Txn>, rows: seq<Row>, pk: nat) {
    && DistinctIds(rows)
    && (forall r :: r in rows ==> exists i :: 0 <= i < |txns| && txns[i].row == r)
    && MayAttach(txns, Ids(rows), pk)
  }

  lemma RowWithId(txns: seq<Txn>, rows: seq<Row>, pk: nat, i: nat)
    requires UniqueIds(txns) && Attachable(txns, rows, pk) && i < |txns|
    ensures txns[i].row.id in Ids(rows) <==> txns[i].row in rows
  {
    if txns[i].row.id in Ids(rows) {
      var x :| x in rows && x.id == txns[i].row.id;
      var j :| 0 <= j < |txns| && txns[j].row == x;
    }
  }

  lemma AttachMembers(txns: seq<Txn>, rows: seq<Row>, pk: nat, r: Row)
    requires UniqueIds(txns) && Attachable(txns, rows, pk)
    ensures r in Members(AttachAll(txns, Ids(rows), pk), pk) <==> r in Members(txns, pk) || r in rows
  {
    var after := AttachAll(txns, Ids(rows), pk);
    MembersIn(txns, pk, r);
    MembersIn(after, pk, r);
    forall i | 0 <= i < |txns|
      ensures after[i].row == txns[i].row
      ensures after[i].group == Some(pk) <==> txns[i].group == Some(pk) || txns[i].row in rows
    {
      RowWithId(txns, rows, pk, i);
    }
    if r in rows {
      var i :| 0 <= i < |txns| && txns[i].row == r;
      assert after[i].row == r;
    }
    if r in Members(txns, pk) {
      var i :| 0 <= i < |txns| && txns[i].row == r && txns[i].group == Some(pk);
      assert after[i].row == r;
    }
  }

  lemma AttachKeepsUnique(txns: seq<Txn>, ids: set<TxnId>, pk: nat)
    requires UniqueIds(txns)
    ensures UniqueIds(AttachAll(txns, ids, pk))
  {
  }

  // The pass's copy of a group: its members, each once.
  ghost predicate Holds(txns: seq<Txn>, g: MemGroup) {
    DistinctIds(g.rows) && SameElements(g.rows, Members(txns, g.pk))
  }

  lemma HoldsMultiset(txns: seq<Txn>, g: MemGroup)
    requires UniqueIds(txns) && Holds(txns, g)
    ensures multiset(g.rows) == multiset(Members(txns, g.pk))
  {
    MembersDistinct(txns, g.pk);
    DistinctIdsNoRepeats(g.rows);
    DistinctIdsNoRepeats(Members(txns, g.pk));
    SameElementsSameMultiset(g.rows, Members(txns, g.pk));
  }

  lemma LoadHolds(s: Ledger, pk: nat)
    requires UniqueIds(s.txns)
    ensures Holds(s.txns, MemGroup(pk, LoadRows(s, pk)))
    ensures multiset(LoadRows(s, pk)) == multiset(Members(s.txns, pk))
  {
    var rows := Members(s.txns, pk);
    MembersDistinct(s.txns, pk);
    SortMultiset(rows, GroupKey);
    DistinctKeysOfMultiset(rows, LoadRows(s, pk), IdOf);
    forall r
      ensures r in LoadRows(s, pk) <==> r in rows
    {
      SortMember(rows, r, GroupKey);
    }
  }

  function IdOf(r: Row): TxnId {
    r.id
  }

  lemma {:induction false} SumNetMultiset(a: seq<Row>, b: seq<Row>)
    requires multiset(a) == multiset(b)
    ensures SumNet(a) == SumNet(b)
  {
    hide SignedNet;
    if a == [] {
      assert |b| == |multiset(b)| == 0;
    } else {
      var j := FindLast(a, b);
      SumNetMultiset(a[..|a| - 1], b[..j] + b[j + 1..]);
      SumNetConcat(b[..j], b[j + 1..]);
      SumNetAppend(b[..j], b[j]);
      SumNetConcat(b[..j] + [b[j]], b[j + 1..]);
      assert b == b[..j] + [b[j]] + b[j + 1..];
    }
  }

  lemma HoldsSum(txns: seq<Txn>, g: MemGroup)
    requires UniqueIds(txns) && Holds(txns, g)
    ensures SumNet(g.rows) == SumNet(Members(txns, g.pk))
  {
    HoldsMultiset(txns, g);
    SumNetMultiset(g.rows, Members(txns, g.pk));
  }

  // ------------------------------------------------------------------- rows not yet held

  lemma AddedMembers(g: MemGroup, rows: seq<Row>, r: Row)
    ensures r in Fresh(g, rows) <==> r in rows && r.id !in Ids(g.rows)
  {
    FilterMember(rows, r, NotAmong(Ids(g.rows)));
  }

  lemma {:induction false} FilterDistinct(rows: seq<Row>, p: Row -> bool)
    requires DistinctIds(rows)
    ensures DistinctIds(Filter(rows, p))
  {
    if rows != [] {
      var front, r := rows[..|rows| - 1], rows[|rows| - 1];
      FilterDistinct(front, p);
      forall k | 0 <= k < |Filter(front, p)|
        ensures Filter(front, p)[k].id != r.id
      {
        FilterMember(front, Filter(front, p)[k], p);
      }
    }
  }

  /** Extending a group's copy adds each row once; adding a held row is a no-op. */
  lemma ExtendUniqueIsSetUnion(g: MemGroup, rows: seq<Row>)
    requires DistinctIds(g.rows) && DistinctIds(rows)
    ensures DistinctIds(ExtendUnique(g, rows).rows)
    ensures Ids(ExtendUnique(g, rows).rows) == Ids(g.rows) + Ids(rows)
    ensures ExtendUnique(ExtendUnique(g, rows), rows) == ExtendUnique(g, rows)
  {
    var added, held := Fresh(g, rows), ExtendUnique(g, rows);
    FilterDistinct(rows, NotAmong(Ids(g.rows)));
    forall r
      ensures r in added <==> r in rows && r.id !in Ids(g.rows)
    {
      AddedMembers(g, rows, r);
    }
    assert forall r :: r in held.rows <==> r in g.rows || r in added;
    assert Ids(held.rows) == Ids(g.rows) + Ids(rows);
    assert forall r :: r in rows ==> r.id in Ids(held.rows);
    if Fresh(held, rows) != [] {
      AddedMembers(held, rows, Fresh(held, rows)[0]);
    }
  }
}
