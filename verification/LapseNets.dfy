/** What a pass's synthesis leaves a group holding: nothing, unless the group already held a
    settlement under the same id, which the new one replaces instead of following. */
module LapseNets {
  import opened Rows
  import opened Ordering
  import opened GroupNet
  import opened Routing
  import opened Books
  import opened Exits
  import opened Membership
  import opened Reconcile
  import opened Attribution
  import opened PassProofs
  import opened PassTheorems
  import opened Lapse
  import opened LapseProofs
  import opened Upserts
  import opened Tables

  // The net a group's members leave in a security.
  function NetHeld(s: Ledger, pk: nat, x: SecurityId): real {
    NetIn(MemGroup(pk, LoadRows(s, pk)), x)
  }

  function NetOver(txns: seq<Txn>, pk: nat, x: SecurityId): real {
    Lookup(NetQuantities(Members(txns, pk)), x).GetOr(0.0)
  }

  // A settlement as a pass wrote it.
  predicate AsWritten(t: Txn, m: Market) {
    && t.row.id.Lapse? && t.group == Some(t.row.id.group)
    && t.row.account == t.row.id.account && t.row.security == Some(t.row.id.security)
    && t.row.kind.ReceiveDeliver? && t.row.subType.Expiration? && t.row.action.NoAction?
    && t.row.quantity.Some? && t.row.quantity.value > 0.0
    && (t.row.id.security in m.secs && m.secs[t.row.id.security].expiry.Some? ==>
          t.row.at == Some(LapseAt(m.secs[t.row.id.security].expiry.value)))
  }

  // The settlements a group holds that the pass writes again are as an earlier pass wrote them.
  ghost predicate Undisturbed(s: Ledger, account: AccountId, m: Market, pk: nat) {
    forall i: nat :: Recarried(s, account, m, i) && s.txns[i].group == Some(pk) ==> AsWritten(s.txns[i], m)
  }

  predicate Carries(txns: seq<Txn>, x: TxnId) {
    exists i :: 0 <= i < |txns| && txns[i].row.id == x
  }

  // The group holds a settlement of its own for the security already.
  predicate HoldsOwn(s: Ledger, account: AccountId, pk: nat, x: SecurityId) {
    exists i :: 0 <= i < |s.txns| && s.txns[i].row.id == TxnId.Lapse(account, pk, x) && s.txns[i].group == Some(pk)
  }

  function Besides(x: SecurityId, id: TxnId): Row -> bool {
    (r: Row) => OnSecurity(x)(r) && r.id != id
  }

  // Every other row of the pair is dated by the settlement's time, and before it when a
  // settlement under the id stands somewhere in the table.
  ghost predicate Timely(s: Ledger, account: AccountId, pk: nat, x: SecurityId, at: Time) {
    forall r :: r in Members(s.txns, pk) && Besides(x, TxnId.Lapse(account, pk, x))(r) ==>
      r.at.Some? && if Carries(s.txns, TxnId.Lapse(account, pk, x)) then r.at.value < at else r.at.value <= at
  }

  // ------------------------------------------------------------------ selecting members

  lemma {:induction false} SameSelected(a: seq<Txn>, b: seq<Txn>, q: nat, p: Row -> bool)
    requires |a| == |b|
    requires forall i :: 0 <= i < |a| ==>
               a[i] == b[i] || (!(a[i].group == Some(q) && p(a[i].row)) && !(b[i].group == Some(q) && p(b[i].row)))
    ensures Filter(Members(a, q), p) == Filter(Members(b, q), p)
  {
    if a != [] {
      SameSelected(a[..|a| - 1], b[..|b| - 1], q, p);
    }
  }

  lemma {:induction false} NoneSelected(a: seq<Txn>, q: nat, p: Row -> bool)
    requires forall i :: 0 <= i < |a| && a[i].group == Some(q) ==> !p(a[i].row)
    ensures Filter(Members(a, q), p) == []
  {
    if a != [] {
      NoneSelected(a[..|a| - 1], q, p);
    }
  }

  // The table after the upsert, in two parts.
  lemma SettledParts(s: Ledger, account: AccountId, m: Market) returns (kept: seq<Txn>, added: seq<Txn>)
    requires UniqueIds(s.txns)
    ensures Settled(s, account, m) == kept + added && |kept| == |s.txns|
    ensures forall i :: 0 <= i < |added| ==> added[i].row in Lapses(s, account, m)
  {
    hide Lapses, UniqueIds, Settled, Recarried, Preserved;
    var after := Settled(s, account, m);
    if s.txns != [] {
      SettledAt(s, account, m, 0);
    }
    kept, added := after[..|s.txns|], after[|s.txns|..];
    forall i | 0 <= i < |added|
      ensures added[i].row in Lapses(s, account, m)
    {
      SettledNew(s, account, m, |s.txns| + i);
      assert after[|s.txns| + i] == added[i];
    }
  }

  // A settlement, written again or new, bears on its own group and security alone.
  lemma LapseElsewhere(s: Ledger, account: AccountId, m: Market, t: Txn, pk: nat, x: SecurityId)
    requires t.row.id in Ids(Lapses(s, account, m)) && t.row.id.Lapse? && t.group == Some(t.row.id.group)
    requires t.row.security == Some(t.row.id.security)
    ensures t.group == Some(pk) ==> !Besides(x, TxnId.Lapse(account, pk, x))(t.row)
    ensures t.group == Some(pk) && t.row.id != TxnId.Lapse(account, pk, x) ==> !OnSecurity(x)(t.row)
  {
    hide Lapses;
    AllLapses(s, account, m);
    var r :| r in Lapses(s, account, m) && r.id == t.row.id;
    var k :| 0 <= k < |Lapses(s, account, m)| && Lapses(s, account, m)[k] == r;
    assert t.row.id == TxnId.Lapse(account, t.row.id.group, t.row.id.security);
    if t.group == Some(pk) && OnSecurity(x)(t.row) {
      assert t.row.id == TxnId.Lapse(account, pk, x);
    }
  }

  lemma SettledSelects(s: Ledger, account: AccountId, m: Market, pk: nat, x: SecurityId, p: Row -> bool)
    requires UniqueIds(s.txns) && Undisturbed(s, account, m, pk)
    requires p == Besides(x, TxnId.Lapse(account, pk, x))
          || (p == OnSecurity(x) && TxnId.Lapse(account, pk, x) !in Ids(Lapses(s, account, m)))
    ensures Filter(Members(Settled(s, account, m), pk), p) == Filter(Members(s.txns, pk), p)
  {
    hide Lapses, UniqueIds, Settled, Members, Filter, Preserved;
    var kept, added := SettledParts(s, account, m);
    AllLapses(s, account, m);
    forall i | 0 <= i < |kept|
      ensures kept[i] == s.txns[i]
           || (!(kept[i].group == Some(pk) && p(kept[i].row)) && !(s.txns[i].group == Some(pk) && p(s.txns[i].row)))
    {
      KeptSelects(s, account, m, pk, x, p, i);
      assert Settled(s, account, m)[i] == kept[i];
    }
    SameSelected(kept, s.txns, pk, p);
    forall i | 0 <= i < |added| && added[i].group == Some(pk)
      ensures !p(added[i].row)
    {
      assert Settled(s, account, m)[|kept| + i] == added[i];
      SettledNewSelects(s, account, m, pk, x, |kept| + i);
    }
    NoneSelected(added, pk, p);
    MembersConcat(kept, added, pk);
    FilterConcat(Members(kept, pk), Members(added, pk), p);
  }

  lemma SettledNewSelects(s: Ledger, account: AccountId, m: Market, pk: nat, x: SecurityId, i: nat)
    requires UniqueIds(s.txns) && |s.txns| <= i < |Settled(s, account, m)|
    ensures var t, id := Settled(s, account, m)[i], TxnId.Lapse(account, pk, x);
            && t.row in Lapses(s, account, m) && t.row.id.Lapse? && t.group == Some(t.row.id.group)
            && (t.group == Some(pk) ==> !Besides(x, id)(t.row))
            && (t.group == Some(pk) && t.row.id != id ==> !OnSecurity(x)(t.row))
  {
    hide Lapses, UniqueIds, Settled;
    AllLapses(s, account, m);
    SettledNew(s, account, m, i);
    LapseElsewhere(s, account, m, Settled(s, account, m)[i], pk, x);
  }

  lemma KeptSelects(s: Ledger, account: AccountId, m: Market, pk: nat, x: SecurityId, p: Row -> bool, i: nat)
    requires UniqueIds(s.txns) && Undisturbed(s, account, m, pk) && i < |s.txns|
    requires p == Besides(x, TxnId.Lapse(account, pk, x))
          || (p == OnSecurity(x) && TxnId.Lapse(account, pk, x) !in Ids(Lapses(s, account, m)))
    ensures i < |Settled(s, account, m)|
    ensures var t, t' := s.txns[i], Settled(s, account, m)[i];
            t' == t || (!(t'.group == Some(pk) && p(t'.row)) && !(t.group == Some(pk) && p(t.row)))
  {
    hide Lapses, UniqueIds, Settled;
    SettledAt(s, account, m, i);
    var t, t' := s.txns[i], Settled(s, account, m)[i];
    if Recarried(s, account, m, i) {
      AllLapses(s, account, m);
      LapseElsewhere(s, account, m, t', pk, x);
      if t.group == Some(pk) {
        LapseElsewhere(s, account, m, t, pk, x);
      }
    }
  }

  // ---------------------------------------------------------------- the settlement is last

  lemma {:induction false} SortWithLast(p: seq<Row>, r: Row, q: seq<Row>)
    requires forall y :: y in p ==> KeyLe(GroupKey(y), GroupKey(r))
    requires forall y :: y in q ==> !KeyLe(GroupKey(r), GroupKey(y))
    ensures Sort(p + [r] + q, GroupKey) == Sort(p + q, GroupKey) + [r]
  {
    if q == [] {
      assert p + [r] + q == p + [r] && p + q == p;
      SortAppendLast(p, r, GroupKey);
    } else {
      var front, y := q[..|q| - 1], q[|q| - 1];
      SortWithLast(p, r, front);
      assert (p + [r] + q)[..|p + [r] + q| - 1] == p + [r] + front;
      assert (p + q)[..|p + q| - 1] == p + front;
      InsertFront(Sort(p + front, GroupKey), r, y, GroupKey);
    }
  }

  function NotId(id: TxnId): Row -> bool {
    (r: Row) => r.id != id
  }

  lemma {:induction false} BesidesTwice(rows: seq<Row>, x: SecurityId, id: TxnId)
    ensures Filter(Filter(rows, OnSecurity(x)), NotId(id)) == Filter(rows, Besides(x, id))
  {
    if rows != [] {
      BesidesTwice(rows[..|rows| - 1], x, id);
      FilterAppend(Filter(rows[..|rows| - 1], OnSecurity(x)), rows[|rows| - 1], NotId(id));
    }
  }

  lemma WithoutOne(rows: seq<Row>, id: TxnId, k: nat)
    requires DistinctIds(rows) && k < |rows| && rows[k].id == id
    ensures Filter(rows, NotId(id)) == rows[..k] + rows[k + 1..]
  {
    hide Filter;
    var p, q := rows[..k], rows[k + 1..];
    assert rows == p + [rows[k]] + q;
    FilterConcat(p + [rows[k]], q, NotId(id));
    FilterAppend(p, rows[k], NotId(id));
    forall i | 0 <= i < |p|
      ensures NotId(id)(p[i])
    {
      assert rows[i].id != rows[k].id;
    }
    forall i | 0 <= i < |q|
      ensures NotId(id)(q[i])
    {
      assert rows[k].id != rows[k + 1 + i].id;
    }
    AllSelected(p, NotId(id));
    AllSelected(q, NotId(id));
  }

  // Selected rows of which one carries the id.
  lemma BesidesOne(rows: seq<Row>, x: SecurityId, r: Row)
    requires DistinctIds(rows) && r in rows && OnSecurity(x)(r)
    requires forall y :: y in rows && Besides(x, r.id)(y) ==> !KeyLe(GroupKey(r), GroupKey(y))
    ensures Sort(Filter(rows, OnSecurity(x)), GroupKey) == Sort(Filter(rows, Besides(x, r.id)), GroupKey) + [r]
  {
    hide OnSecurity, GroupKey, DistinctIds;
    var f := Filter(rows, OnSecurity(x));
    FilterDistinct(rows, OnSecurity(x));
    FilterMember(rows, r, OnSecurity(x));
    var k :| 0 <= k < |f| && f[k] == r;
    BesidesTwice(rows, x, r.id);
    WithoutOne(f, r.id, k);
    var p, q := f[..k], f[k + 1..];
    assert f == p + [r] + q;
    assert Filter(rows, Besides(x, r.id)) == p + q;
    forall y | y in p || y in q
      ensures !KeyLe(GroupKey(r), GroupKey(y))
    {
      assert y in p + q;
      FilterMember(rows, y, Besides(x, r.id));
    }
    KeysTotal(p, r);
    SortWithLast(p, r, q);
  }

  lemma KeysTotal(p: seq<Row>, r: Row)
    requires forall y :: y in p ==> !KeyLe(GroupKey(r), GroupKey(y))
    ensures forall y :: y in p ==> KeyLe(GroupKey(y), GroupKey(r))
  {
  }

  // The net when the settlement under the id comes strictly last.
  lemma NetWithLast(rows: seq<Row>, x: SecurityId, r: Row)
    requires DistinctIds(rows) && r in rows && OnSecurity(x)(r) && IsSettlement(r) && !r.kind.MoneyMovement?
    requires forall y :: y in rows && Besides(x, r.id)(y) ==> !KeyLe(GroupKey(r), GroupKey(y))
    ensures var w := Lookup(NetQuantities(Filter(rows, Besides(x, r.id))), x).GetOr(0.0);
            Lookup(NetQuantities(rows), x).GetOr(0.0) == if w == 0.0 then 0.0 else Toward(w, r.quantity.value)
  {
    hide NetQuantities, DistinctIds, Walk, Toward;
    var w := Filter(rows, Besides(x, r.id));
    BesidesOne(rows, x, r);
    NetOfSecurity(rows, x);
    NetOfSecurity(w, x);
    BesidesAreOn(rows, x, r.id);
    WalkLast(SecurityRows(w, x), r);
  }

  lemma {:induction false} BesidesAreOn(rows: seq<Row>, x: SecurityId, id: TxnId)
    ensures Filter(Filter(rows, Besides(x, id)), OnSecurity(x)) == Filter(rows, Besides(x, id))
  {
    if rows != [] {
      BesidesAreOn(rows[..|rows| - 1], x, id);
      FilterAppend(Filter(rows[..|rows| - 1], Besides(x, id)), rows[|rows| - 1], OnSecurity(x));
    }
  }

  lemma WalkLast(ordered: seq<Row>, r: Row)
    requires Positional(ordered + [r]) && Positional(ordered) && IsSettlement(r) && r.quantity.Some?
    ensures var w := Walk(ordered).GetOr(0.0);
            Walk(ordered + [r]).GetOr(0.0) == if w == 0.0 then 0.0 else Toward(w, r.quantity.value)
  {
    assert (ordered + [r])[..|ordered|] == ordered;
  }

  // ------------------------------------------------------------------- the three outcomes

  // The settlement's own id is about to be written exactly when the pair is held.
  lemma OwnLapse(s: Ledger, account: AccountId, m: Market, last: Time, pk: nat, x: SecurityId)
    requires UniqueIds(s.txns) && OpenFor(s, account, pk)
    requires LatestAt(AccountActivity(s.txns, account)) == Some(last) && PointsOf(m, last, x).Some?
    ensures x in m.secs && m.secs[x].expiry.Some?
    ensures NetHeld(s, pk, x) == NetOver(s.txns, pk, x)
    ensures TxnId.Lapse(account, pk, x) in Ids(Lapses(s, account, m)) <==> NetHeld(s, pk, x) != 0.0
    ensures NetHeld(s, pk, x) != 0.0 ==>
              LapseRow(account, pk, x, NetHeld(s, pk, x), PointsOf(m, last, x).value, m) in Lapses(s, account, m)
  {
    hide LapsesOver, HeldBy, LoadOpenUpTo, LoadRows, PointsOf, UniqueIds, LapseRow, Filter, NetQuantities, NetOf, Lapses, NetHeld, NetOver;
    var groups, id, net := LoadOpen(s, account), TxnId.Lapse(account, pk, x), NetHeld(s, pk, x);
    var lapses, mine := Lapses(s, account, m), Filter(Lapses(s, account, m), OfGroup(pk));
    DueFacts(m, last, x);
    NetsAgree(s, account, pk, x);
    LapseFacts(s, account, m);
    LapsesAre(s, account, m, last);
    LapseForBoth(groups, account, Ascending(HeldBy(groups)), last, m, pk, x);
    if id in Ids(lapses) {
      var r :| r in lapses && r.id == id;
      var k :| 0 <= k < |lapses| && lapses[k] == r;
      LapseIsForNet(s, account, m, pk, r);
      assert net != 0.0 by {
        NetHeldIs(s, pk, x);
      }
    }
    if net != 0.0 {
      HeldWhenNonZero(groups, pk, x);
      var r := LapseRow(account, pk, x, net, PointsOf(m, last, x).value, m);
      LapseRowIs(account, pk, x, net, PointsOf(m, last, x).value, m);
      assert Filter(mine, OnSecurity(x)) == [r];
      FilterMember(mine, r, OnSecurity(x));
      FilterMember(lapses, r, OfGroup(pk));
    }
  }

  lemma NetHeldIs(s: Ledger, pk: nat, x: SecurityId)
    ensures NetHeld(s, pk, x) == NetIn(MemGroup(pk, LoadRows(s, pk)), x)
  {
  }

  lemma NetsAgree(s: Ledger, account: AccountId, pk: nat, x: SecurityId)
    requires OpenFor(s, account, pk)
    ensures NetHeld(s, pk, x) == NetOver(s.txns, pk, x) == NetOf(LoadOpen(s, account), pk, x)
  {
    hide NetQuantities;
    NetOfLoaded(Members(s.txns, pk), x);
    NetOfGroup(s, account, pk, x);
  }

  lemma LapsesAre(s: Ledger, account: AccountId, m: Market, last: Time)
    requires LatestAt(AccountActivity(s.txns, account)) == Some(last)
    ensures Lapses(s, account, m) == LapsesOver(LoadOpen(s, account), account, Ascending(HeldBy(LoadOpen(s, account))), last, m)
  {
  }

  lemma LapseRowIs(account: AccountId, pk: nat, x: SecurityId, net: real, points: real, m: Market)
    requires x in m.secs && m.secs[x].expiry.Some?
    ensures var r := LapseRow(account, pk, x, net, points, m);
            && r.id == TxnId.Lapse(account, pk, x) && r.account == account && IsSettlement(r) && !r.kind.MoneyMovement?
            && OnSecurity(x)(r) && r.quantity == Some(Abs(net)) && r.at == Some(LapseAt(m.secs[x].expiry.value))
            && (net != 0.0 ==> AsWritten(LapseTxn(r, true), m))
  {
  }

  // Every settlement of the pass is in the table, in its group, over what carried its id.
  lemma SettledHas(s: Ledger, account: AccountId, m: Market, r: Row) returns (i: nat, order: Option<nat>)
    requires UniqueIds(s.txns) && r in Lapses(s, account, m) && IsLapse(r) && r.orderId.None?
    ensures i < |Settled(s, account, m)|
    ensures Settled(s, account, m)[i].row == r.(orderId := order) && Settled(s, account, m)[i].group == Some(r.id.group)
    ensures if Carries(s.txns, r.id) then i < |s.txns| && s.txns[i].row.id == r.id
            else i >= |s.txns| && order.None?
  {
    hide Lapses, UniqueIds, UniqueKeys, Filter, PositionOf, UpsertTxns, DistinctIds, Overwritten, OwnedBySome;
    LapseFacts(s, account, m);
    var lapses := Lapses(s, account, m);
    var rows := LapseTxns(lapses, true);
    UniqueTxnKeys(s.txns);
    LapseKeys(lapses);
    UpsertsSplit(s.txns, rows);
    OverwrittenEach(s.txns, rows);
    var k :| 0 <= k < |lapses| && lapses[k] == r;
    assert rows[k] == LapseTxn(r, true);
    var j := PositionOf(s.txns, r.id, TxnKey);
    if j.Some? {
      OnlyPosition(rows, TxnKey, k);
      i, order := j.value, s.txns[j.value].row.orderId;
    } else {
      FilterMember(rows, rows[k], NewTo(s.txns));
      var added := Filter(rows, NewTo(s.txns));
      var n :| 0 <= n < |added| && added[n] == rows[k];
      i, order := |s.txns| + n, None;
    }
  }

  lemma OverwrittenEach(txns: seq<Txn>, rows: seq<Txn>)
    ensures |Overwritten(txns, rows)| == |txns|
    ensures forall i :: 0 <= i < |txns| ==> Overwritten(txns, rows)[i] == OverwrittenBy(txns[i], rows)
  {
  }

  // No member under the id: the pair's rows are the rows besides it.
  lemma NoOwnMember(txns: seq<Txn>, pk: nat, x: SecurityId, id: TxnId)
    requires forall i :: 0 <= i < |txns| && txns[i].group == Some(pk) ==> txns[i].row.id != id
    ensures Filter(Members(txns, pk), OnSecurity(x)) == Filter(Members(txns, pk), Besides(x, id))
  {
    hide Members;
    var rows := Members(txns, pk);
    forall k | 0 <= k < |rows|
      ensures rows[k].id != id
    {
      MembersIn(txns, pk, rows[k]);
    }
    SameFilter(rows, OnSecurity(x), Besides(x, id));
  }

  lemma {:induction false} SameFilter(rows: seq<Row>, p: Row -> bool, q: Row -> bool)
    requires forall k :: 0 <= k < |rows| ==> p(rows[k]) == q(rows[k])
    ensures Filter(rows, p) == Filter(rows, q)
  {
    if rows != [] {
      SameFilter(rows[..|rows| - 1], p, q);
    }
  }

  // A member under the id, last: the net is the others' net less it.
  lemma {:induction false} NetWithOwn(txns: seq<Txn>, pk: nat, x: SecurityId, i: nat, at: Time)
    requires UniqueIds(txns) && i < |txns| && txns[i].group == Some(pk) && txns[i].row.at == Some(at)
    requires OnSecurity(x)(txns[i].row) && IsSettlement(txns[i].row) && !txns[i].row.kind.MoneyMovement?
    requires forall y :: y in Members(txns, pk) && Besides(x, txns[i].row.id)(y) ==> y.at.Some? && y.at.value < at
    ensures var w := Lookup(NetQuantities(Filter(Members(txns, pk), Besides(x, txns[i].row.id))), x).GetOr(0.0);
            NetOver(txns, pk, x) == if w == 0.0 then 0.0 else Toward(w, txns[i].row.quantity.value)
  {
    hide Members, NetQuantities, UniqueIds;
    MembersDistinct(txns, pk);
    MembersIn(txns, pk, txns[i].row);
    NetWithLast(Members(txns, pk), x, txns[i].row);
  }

  // Nothing to settle: nothing of the pair moves.
  lemma NothingHeld(s: Ledger, account: AccountId, m: Market, last: Time, pk: nat, x: SecurityId)
    requires UniqueIds(s.txns) && OpenFor(s, account, pk) && Undisturbed(s, account, m, pk)
    requires LatestAt(AccountActivity(s.txns, account)) == Some(last) && PointsOf(m, last, x).Some?
    requires NetHeld(s, pk, x) == 0.0
    ensures NetOver(Settled(s, account, m), pk, x) == 0.0
  {
    hide Lapses, UniqueIds, Settled, NetQuantities, NetHeld, Undisturbed, PointsOf, Members;
    OwnLapse(s, account, m, last, pk, x);
    SettledSelects(s, account, m, pk, x, OnSecurity(x));
    SameOnSecurity(Members(s.txns, pk), Members(Settled(s, account, m), pk), x);
  }

  // What the pair's rows besides the settlement net to, before and after.
  lemma BesidesKept(s: Ledger, account: AccountId, m: Market, pk: nat, x: SecurityId)
    requires UniqueIds(s.txns) && Undisturbed(s, account, m, pk)
    ensures var id := TxnId.Lapse(account, pk, x);
            Filter(Members(Settled(s, account, m), pk), Besides(x, id)) == Filter(Members(s.txns, pk), Besides(x, id))
  {
    SettledSelects(s, account, m, pk, x, Besides(x, TxnId.Lapse(account, pk, x)));
  }

  // What stands when a group's settlement has been written over another's place or its own.
  lemma {:induction false} AfterSettlement(s: Ledger, account: AccountId, m: Market, last: Time, pk: nat, x: SecurityId)
    requires UniqueIds(s.txns) && OpenFor(s, account, pk) && Undisturbed(s, account, m, pk)
    requires LatestAt(AccountActivity(s.txns, account)) == Some(last) && PointsOf(m, last, x).Some?
    requires x in m.secs && m.secs[x].expiry.Some? && Timely(s, account, pk, x, LapseAt(m.secs[x].expiry.value))
    requires NetHeld(s, pk, x) != 0.0
    ensures var w := Lookup(NetQuantities(Filter(Members(s.txns, pk), Besides(x, TxnId.Lapse(account, pk, x)))), x).GetOr(0.0);
            NetOver(Settled(s, account, m), pk, x) == if w == 0.0 then 0.0 else Toward(w, Abs(NetHeld(s, pk, x)))
  {
    hide Lapses, Settled, NetQuantities, NetHeld, Undisturbed, PointsOf, Members, LapseRow, Toward, Filter;
    var at, id, net := LapseAt(m.secs[x].expiry.value), TxnId.Lapse(account, pk, x), NetHeld(s, pk, x);
    OwnLapse(s, account, m, last, pk, x);
    var r := LapseRow(account, pk, x, net, PointsOf(m, last, x).value, m);
    LapseRowIs(account, pk, x, net, PointsOf(m, last, x).value, m);
    LapseRowOrder(account, pk, x, net, PointsOf(m, last, x).value, m);
    BesidesKept(s, account, m, pk, x);
    SettledUnique(s, account, m);
    var after := Settled(s, account, m);
    var i, order := SettledHas(s, account, m, r);
    var others := Filter(Members(after, pk), Besides(x, id));
    if Carries(s.txns, id) {
      forall y | y in Members(after, pk) && Besides(x, id)(y)
        ensures y.at.Some? && y.at.value < at
      {
        FilterMember(Members(after, pk), y, Besides(x, id));
        FilterMember(Members(s.txns, pk), y, Besides(x, id));
      }
      NetWithOwn(after, pk, x, i, at);
    } else {
      AppendedLast(s, account, m, pk, x, r, i);
      AppendedNet(Members(after, pk), Members(s.txns, pk), x, id, r, at);
    }
  }

  lemma LapseRowOrder(account: AccountId, pk: nat, x: SecurityId, net: real, points: real, m: Market)
    requires x in m.secs && m.secs[x].expiry.Some?
    ensures LapseRow(account, pk, x, net, points, m).orderId.None?
  {
  }

  // A new settlement is the last row of its pair.
  lemma AppendedLast(s: Ledger, account: AccountId, m: Market, pk: nat, x: SecurityId, r: Row, i: nat)
    requires UniqueIds(s.txns) && Undisturbed(s, account, m, pk)
    requires r.id == TxnId.Lapse(account, pk, x) && OnSecurity(x)(r) && !Carries(s.txns, r.id)
    requires |s.txns| <= i < |Settled(s, account, m)|
    requires Settled(s, account, m)[i].row == r && Settled(s, account, m)[i].group == Some(pk)
    ensures Filter(Members(Settled(s, account, m), pk), OnSecurity(x))
         == Filter(Members(s.txns, pk), Besides(x, r.id)) + [r]
  {
    hide Lapses, Settled, UniqueIds, Members, Filter, Undisturbed;
    var kept, added := SettledParts(s, account, m);
    var p, id := OnSecurity(x), r.id;
    SettledUnique(s, account, m);
    forall j | 0 <= j < |kept|
      ensures kept[j].row.id != id
    {
      SettledAt(s, account, m, j);
      assert Settled(s, account, m)[j] == kept[j];
    }
    NoOwnMember(kept, pk, x, id);
    KeptBesides(s, account, m, pk, x, kept);
    forall j | 0 <= j < |added| && added[j].group == Some(pk) && p(added[j].row)
      ensures |kept| + j == i
    {
      assert Settled(s, account, m)[|kept| + j] == added[j];
      SettledNewSelects(s, account, m, pk, x, |kept| + j);
      SameIdSamePlace(Settled(s, account, m), |kept| + j, i);
    }
    OneSelected(added, pk, p, i - |kept|);
    MembersConcat(kept, added, pk);
    FilterConcat(Members(kept, pk), Members(added, pk), p);
  }

  lemma SameIdSamePlace(txns: seq<Txn>, i: nat, j: nat)
    requires UniqueIds(txns) && i < |txns| && j < |txns|
    ensures txns[i].row.id == txns[j].row.id ==> i == j
  {
  }

  lemma KeptBesides(s: Ledger, account: AccountId, m: Market, pk: nat, x: SecurityId, kept: seq<Txn>)
    requires UniqueIds(s.txns) && Undisturbed(s, account, m, pk)
    requires |kept| == |s.txns| <= |Settled(s, account, m)| && kept == Settled(s, account, m)[..|kept|]
    ensures var p := Besides(x, TxnId.Lapse(account, pk, x));
            Filter(Members(kept, pk), p) == Filter(Members(s.txns, pk), p)
  {
    hide Lapses, Settled, UniqueIds, Members, Filter, Undisturbed;
    var p := Besides(x, TxnId.Lapse(account, pk, x));
    forall i | 0 <= i < |kept|
      ensures kept[i] == s.txns[i]
           || (!(kept[i].group == Some(pk) && p(kept[i].row)) && !(s.txns[i].group == Some(pk) && p(s.txns[i].row)))
    {
      KeptSelects(s, account, m, pk, x, p, i);
      assert Settled(s, account, m)[i] == kept[i];
    }
    SameSelected(kept, s.txns, pk, p);
  }

  lemma {:induction false} OneSelected(a: seq<Txn>, q: nat, p: Row -> bool, k: nat)
    requires k < |a| && a[k].group == Some(q) && p(a[k].row)
    requires forall i :: 0 <= i < |a| && a[i].group == Some(q) && p(a[i].row) ==> i == k
    ensures Filter(Members(a, q), p) == [a[k].row]
  {
    var n := |a| - 1;
    if k == n {
      NoneSelected(a[..n], q, p);
      FilterAppend(Members(a[..n], q), a[n].row, p);
    } else {
      OneSelected(a[..n], q, p, k);
    }
  }

  // The net of the pair's other rows with one settlement, dated no earlier, behind them.
  lemma {:induction false} AppendedNet(rows: seq<Row>, before: seq<Row>, x: SecurityId, id: TxnId, r: Row, at: Time)
    requires Filter(rows, OnSecurity(x)) == Filter(before, Besides(x, id)) + [r]
    requires OnSecurity(x)(r) && IsSettlement(r) && !r.kind.MoneyMovement? && r.at == Some(at)
    requires forall y :: y in before && Besides(x, id)(y) ==> y.at.Some? && y.at.value <= at
    ensures var w := Lookup(NetQuantities(Filter(before, Besides(x, id))), x).GetOr(0.0);
            Lookup(NetQuantities(rows), x).GetOr(0.0) == if w == 0.0 then 0.0 else Toward(w, r.quantity.value)
  {
    hide NetQuantities, Toward;
    var others := Filter(before, Besides(x, id));
    FilterAppend(others, r, OnSecurity(x));
    BesidesAreOn(before, x, id);
    SameOnSecurity(others + [r], rows, x);
    forall y | y in others && OnSecurity(x)(y)
      ensures KeyLe(GroupKey(y), GroupKey(r))
    {
      FilterMember(before, y, Besides(x, id));
    }
    NetAfterLatest(others, r, x);
  }

  // What the pair held, from its other rows and the settlement it holds, if any.
  lemma {:induction false} BeforeSettlement(s: Ledger, account: AccountId, m: Market, last: Time, pk: nat, x: SecurityId)
    requires UniqueIds(s.txns) && OpenFor(s, account, pk) && Undisturbed(s, account, m, pk)
    requires LatestAt(AccountActivity(s.txns, account)) == Some(last) && PointsOf(m, last, x).Some?
    requires x in m.secs && m.secs[x].expiry.Some? && Timely(s, account, pk, x, LapseAt(m.secs[x].expiry.value))
    requires NetHeld(s, pk, x) != 0.0
    ensures var w := Lookup(NetQuantities(Filter(Members(s.txns, pk), Besides(x, TxnId.Lapse(account, pk, x)))), x).GetOr(0.0);
            && (!HoldsOwn(s, account, pk, x) ==> NetHeld(s, pk, x) == w)
            && (HoldsOwn(s, account, pk, x) ==> w != 0.0 && OwnQuantity(s, account, pk, x) > 0.0
                                                && NetHeld(s, pk, x) == Toward(w, OwnQuantity(s, account, pk, x)))
  {
    hide Lapses, Settled, NetQuantities, NetHeld, PointsOf, Members, LapseRow, Toward, Filter, UniqueIds;
    var id := TxnId.Lapse(account, pk, x);
    OwnLapse(s, account, m, last, pk, x);
    if HoldsOwn(s, account, pk, x) {
      var i := OwnIndex(s, account, pk, x);
      assert Recarried(s, account, m, i);
      NetWithOwn(s.txns, pk, x, i, LapseAt(m.secs[x].expiry.value));
    } else {
      NoOwnMember(s.txns, pk, x, id);
      OnlyBesides(Members(s.txns, pk), x, id);
    }
  }

  lemma OnlyBesides(rows: seq<Row>, x: SecurityId, id: TxnId)
    requires Filter(rows, OnSecurity(x)) == Filter(rows, Besides(x, id))
    ensures Lookup(NetQuantities(rows), x) == Lookup(NetQuantities(Filter(rows, Besides(x, id))), x)
  {
    BesidesAreOn(rows, x, id);
    SameOnSecurity(rows, Filter(rows, Besides(x, id)), x);
  }

  // Where the group's own settlement for the security stands.
  ghost function OwnIndex(s: Ledger, account: AccountId, pk: nat, x: SecurityId): (i: nat)
    requires HoldsOwn(s, account, pk, x)
    ensures i < |s.txns| && s.txns[i].row.id == TxnId.Lapse(account, pk, x) && s.txns[i].group == Some(pk)
  {
    var i :| 0 <= i < |s.txns| && s.txns[i].row.id == TxnId.Lapse(account, pk, x) && s.txns[i].group == Some(pk);
    i
  }

  // The quantity of the settlement a group holds for a security.
  ghost function OwnQuantity(s: Ledger, account: AccountId, pk: nat, x: SecurityId): real {
    if HoldsOwn(s, account, pk, x) then s.txns[OwnIndex(s, account, pk, x)].row.quantity.GetOr(0.0) else 0.0
  }

  lemma TowardTwice(w: real, a: real, b: real)
    requires w != 0.0 && a > 0.0 && Toward(w, a) != 0.0 && b == Abs(Toward(w, a))
    ensures Abs(Toward(w, b)) == a && Toward(w, b) != 0.0
    ensures Toward(w, b) > 0.0 <==> Toward(w, a) > 0.0
  {
  }

  /** What synthesis leaves of a due security with a price in an open group: nothing exactly
      when the group held nothing, or held no settlement of its own for it. Otherwise the new
      settlement takes the old one's place, and quantity held and quantity settled swap. */
  lemma LapseNetsToZero(s: Ledger, account: AccountId, m: Market, link: Linker, last: Time, pk: nat, x: SecurityId)
    requires UniqueIds(s.txns) && OpenFor(s, account, pk) && Undisturbed(s, account, m, pk)
    requires LatestAt(AccountActivity(s.txns, account)) == Some(last) && PointsOf(m, last, x).Some?
    requires x in m.secs && m.secs[x].expiry.Some? ==> Timely(s, account, pk, x, LapseAt(m.secs[x].expiry.value))
    ensures var before, after := NetHeld(s, pk, x), NetHeld(Synthesize(s, account, m, link), pk, x);
            && (after == 0.0 <==> before == 0.0 || !HoldsOwn(s, account, pk, x))
            && (before != 0.0 && HoldsOwn(s, account, pk, x) ==>
                  Abs(after) == OwnQuantity(s, account, pk, x) && (after > 0.0 <==> before > 0.0))
  {
    hide Lapses, Settled, NetQuantities, PointsOf, Members, LapseRow, Toward, Filter, UniqueIds, Synthesize, NetOver, NetHeld,
         Undisturbed, HoldsOwn, OwnQuantity, Timely, LapseAt;
    var s' := Synthesize(s, account, m, link);
    SynthesizeTxns(s, account, m, link);
    OwnLapse(s, account, m, last, pk, x);
    HeldIsOver(s', pk, x);
    if NetHeld(s, pk, x) == 0.0 {
      NothingHeld(s, account, m, last, pk, x);
    } else {
      AfterSettlement(s, account, m, last, pk, x);
      BeforeSettlement(s, account, m, last, pk, x);
      var w := Lookup(NetQuantities(Filter(Members(s.txns, pk), Besides(x, TxnId.Lapse(account, pk, x)))), x).GetOr(0.0);
      if HoldsOwn(s, account, pk, x) {
        TowardTwice(w, OwnQuantity(s, account, pk, x), Abs(NetHeld(s, pk, x)));
      } else {
        TowardAll(w);
      }
    }
  }

  lemma TowardAll(w: real)
    ensures Toward(w, Abs(w)) == 0.0
  {
  }

  lemma HeldIsOver(s: Ledger, pk: nat, x: SecurityId)
    ensures NetHeld(s, pk, x) == NetOver(s.txns, pk, x)
  {
    hide NetQuantities;
    NetOfLoaded(Members(s.txns, pk), x);
  }

  // ------------------------------------------------------------------------ a second pass

  // Every settlement the pass writes again is as an earlier pass wrote it.
  ghost predicate AllUndisturbed(s: Ledger, account: AccountId, m: Market) {
    forall i: nat :: Recarried(s, account, m, i) ==> AsWritten(s.txns[i], m)
  }

  lemma {:induction false} LapsesDated(groups: seq<MemGroup>, account: AccountId, held: seq<SecurityId>, last: Time, m: Market)
    ensures forall i :: 0 <= i < |LapsesOver(groups, account, held, last, m)| ==>
              Dated(LapsesOver(groups, account, held, last, m)[i], m, last)
  {
    hide Dated, PointsOf;
    if held != [] {
      var x := held[|held| - 1];
      LapsesDated(groups, account, held[..|held| - 1], last, m);
      DueFacts(m, last, x);
      if PointsOf(m, last, x).Some? {
        LapsesInDated(groups, account, x, PointsOf(m, last, x).value, m, last);
      }
    }
  }

  // A settlement of a due security, as a pass writes it.
  ghost predicate Dated(r: Row, m: Market, last: Time) {
    && IsLapse(r) && PointsOf(m, last, r.id.security).Some?
    && r.id.security in m.secs && m.secs[r.id.security].expiry.Some?
    && r.at == Some(LapseAt(m.secs[r.id.security].expiry.value)) && DayOf(r.at.value) <= DayOf(last)
    && r.account == r.id.account && r.orderId.None? && AsWritten(LapseTxn(r, true), m)
  }

  lemma {:induction false} LapsesInDated(groups: seq<MemGroup>, account: AccountId, x: SecurityId, points: real, m: Market, last: Time)
    requires x in m.secs && m.secs[x].expiry.Some? && PointsOf(m, last, x).Some?
    ensures forall i :: 0 <= i < |LapsesIn(groups, account, x, points, m)| ==> Dated(LapsesIn(groups, account, x, points, m)[i], m, last)
  {
    hide NetIn, LapseAt, DayOf;
    if groups != [] {
      LapsesInDated(groups[..|groups| - 1], account, x, points, m, last);
      LapseDay(m.secs[x].expiry.value);
      DueFacts(m, last, x);
    }
  }

  lemma LapseDay(expiry: nat)
    ensures DayOf(LapseAt(expiry)) == expiry
  {
  }

  lemma LapseDated(s: Ledger, account: AccountId, m: Market, last: Time, r: Row)
    requires LatestAt(AccountActivity(s.txns, account)) == Some(last) && r in Lapses(s, account, m)
    ensures Dated(r, m, last) && r.id.account == account
  {
    hide Dated, LapsesOver;
    var groups := LoadOpen(s, account);
    LapsesDated(groups, account, Ascending(HeldBy(groups)), last, m);
    AllLapses(s, account, m);
  }

  lemma {:induction false} LatestBounds(rows: seq<Row>)
    ensures forall r :: r in rows && r.at.Some? ==> LatestAt(rows).Some? && r.at.value <= LatestAt(rows).value
    ensures LatestAt(rows).Some? ==> exists r :: r in rows && r.at == LatestAt(rows)
  {
    if rows != [] {
      LatestBounds(rows[..|rows| - 1]);
      assert rows == rows[..|rows| - 1] + [rows[|rows| - 1]];
      if LatestAt(rows[..|rows| - 1]).Some? {
        var r :| r in rows[..|rows| - 1] && r.at == LatestAt(rows[..|rows| - 1]);
        assert r in rows;
      }
    }
  }

  lemma {:induction false} ActivityIn(txns: seq<Txn>, account: AccountId, r: Row)
    ensures r in AccountActivity(txns, account) <==> exists i :: 0 <= i < |txns| && txns[i].row == r && r.account == account
  {
    if txns != [] {
      ActivityIn(txns[..|txns| - 1], account, r);
      var t := txns[|txns| - 1];
      if t.row == r && r.account == account {
        assert r in AccountActivity(txns, account);
      } else {
        assert r in AccountActivity(txns, account) <==> r in AccountActivity(txns[..|txns| - 1], account);
      }
    }
  }

  lemma DaysOrdered(x: Time, y: Time)
    ensures x <= y ==> DayOf(x) <= DayOf(y)
  {
  }

  // Where a row of the account stood, one of the same time stands.
  lemma SettledKeepsTimes(s: Ledger, account: AccountId, m: Market, last: Time, i: nat)
    requires UniqueIds(s.txns) && AllUndisturbed(s, account, m) && i < |s.txns| && s.txns[i].row.account == account
    requires LatestAt(AccountActivity(s.txns, account)) == Some(last)
    ensures i < |Settled(s, account, m)|
    ensures Settled(s, account, m)[i].row.account == account && Settled(s, account, m)[i].row.at == s.txns[i].row.at
  {
    hide Lapses, UniqueIds, Settled, LapseAt, PointsOf, AccountActivity;
    SettledAt(s, account, m, i);
    if Recarried(s, account, m, i) {
      var k :| 0 <= k < |Lapses(s, account, m)| && IsLapse(Lapses(s, account, m)[k])
        && Lapses(s, account, m)[k].id == s.txns[i].row.id
        && Settled(s, account, m)[i] == Preserved(LapseTxn(Lapses(s, account, m)[k], true), Some(s.txns[i]));
      LapseDated(s, account, m, last, Lapses(s, account, m)[k]);
    }
  }

  // What the table holds afterwards is what it held or a settlement of the pass.
  lemma SettledIs(s: Ledger, account: AccountId, m: Market, i: nat)
    requires UniqueIds(s.txns) && i < |Settled(s, account, m)|
    ensures var t := Settled(s, account, m)[i];
            && (t.row.id !in Ids(Lapses(s, account, m)) ==> i < |s.txns| && t == s.txns[i])
            && (t.row.id in Ids(Lapses(s, account, m)) ==>
                  exists r, order :: r in Lapses(s, account, m) && t.row == r.(orderId := order) && IsLapse(r) && t.group == Some(r.id.group))
  {
    hide Lapses, UniqueIds, Settled;
    var t := Settled(s, account, m)[i];
    if i < |s.txns| {
      SettledAt(s, account, m, i);
      if Recarried(s, account, m, i) {
        var k :| 0 <= k < |Lapses(s, account, m)| && IsLapse(Lapses(s, account, m)[k])
          && Lapses(s, account, m)[k].id == s.txns[i].row.id
          && t == Preserved(LapseTxn(Lapses(s, account, m)[k], true), Some(s.txns[i]));
        var r := Lapses(s, account, m)[k];
        assert t.row == r.(orderId := t.row.orderId);
      }
    } else {
      SettledNew(s, account, m, i);
      var k :| 0 <= k < |Lapses(s, account, m)| && IsLapse(Lapses(s, account, m)[k]) && t == LapseTxn(Lapses(s, account, m)[k], true);
      var r := Lapses(s, account, m)[k];
      assert t.row == r.(orderId := t.row.orderId);
    }
  }

  /** The account's clock stays on its day, so the same securities are due. */
  lemma ClockStands(s: Ledger, account: AccountId, m: Market, last: Time)
    requires UniqueIds(s.txns) && AllUndisturbed(s, account, m)
    requires LatestAt(AccountActivity(s.txns, account)) == Some(last)
    ensures var last' := LatestAt(AccountActivity(Settled(s, account, m), account));
            last'.Some? && DayOf(last'.value) == DayOf(last) && forall x :: PointsOf(m, last'.value, x) == PointsOf(m, last, x)
  {
    hide Lapses, UniqueIds, Settled, AccountActivity, LapseAt, DayOf;
    var txns := Settled(s, account, m);
    var now, was := AccountActivity(txns, account), AccountActivity(s.txns, account);
    LatestBounds(now);
    LatestBounds(was);
    var r :| r in was && r.at == Some(last);
    ActivityIn(s.txns, account, r);
    var i :| 0 <= i < |s.txns| && s.txns[i].row == r && r.account == account;
    SettledKeepsTimes(s, account, m, last, i);
    ActivityIn(txns, account, txns[i].row);
    assert txns[i].row in now;
    var y :| y in now && y.at == LatestAt(now);
    ActivityIn(txns, account, y);
    var j :| 0 <= j < |txns| && txns[j].row == y && y.account == account;
    SettledNoLater(s, account, m, last, j);
    DaysOrdered(last, y.at.value);
  }

  lemma SettledNoLater(s: Ledger, account: AccountId, m: Market, last: Time, j: nat)
    requires UniqueIds(s.txns) && LatestAt(AccountActivity(s.txns, account)) == Some(last)
    requires j < |Settled(s, account, m)| && Settled(s, account, m)[j].row.account == account
    ensures Settled(s, account, m)[j].row.at.Some? ==> DayOf(Settled(s, account, m)[j].row.at.value) <= DayOf(last)
  {
    hide Lapses, UniqueIds, Settled, AccountActivity, LapseAt, DayOf, PointsOf;
    var t := Settled(s, account, m)[j];
    SettledIs(s, account, m, j);
    if t.row.id in Ids(Lapses(s, account, m)) {
      var r, order :| r in Lapses(s, account, m) && t.row == r.(orderId := order) && IsLapse(r) && t.group == Some(r.id.group);
      LapseDated(s, account, m, last, r);
    } else {
      LatestBounds(AccountActivity(s.txns, account));
      ActivityIn(s.txns, account, t.row);
      if t.row.at.Some? {
        DaysOrdered(t.row.at.value, last);
      }
    }
  }
}
