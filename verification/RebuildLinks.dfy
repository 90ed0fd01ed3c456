/** What a rebuild links each transaction to. */
module RebuildLinks {
  import opened Rows
  import opened Ordering
  import opened Replay
  import opened Lifecycles
  import opened Routing
  import opened Tables
  import opened Upserts
  import opened Rebuild
  import Books

  // The plan of a walk, item by item: one for each row, in order.
  ghost predicate PlanFor(plan: seq<PlanItem>, rows: seq<Row>) {
    |plan| == |rows|
    && forall k :: 0 <= k < |rows| ==>
         && plan[k].key == OfRow(rows[k].id)
         && (plan[k].marksOpen <==> FillsAt(rows, k) && HeldOf(rows[..k + 1]) != 0.0)
         && (plan[k].closed.Some? <==> EndsAt(rows, k))
  }

  lemma {:induction false} RunIsPlanFor(rows: seq<Row>, account: AccountId, security: SecurityId, multiplier: nat)
    requires Quantified(rows)
    ensures PlanFor(Run(rows, account, security, multiplier).plan, rows)
  {
    hide Step, HeldOf, EndsAt, FillsAt;
    if rows != [] {
      var n := |rows| - 1;
      var w, w' := Run(rows[..n], account, security, multiplier), Run(rows, account, security, multiplier);
      RunIsPlanFor(rows[..n], account, security, multiplier);
      HeldAround(rows, account, security, multiplier);
      StepByHeld(w, rows[n], account, security, multiplier);
      EndsByHeld(rows);
      assert rows[..n + 1] == rows;
      forall k | 0 <= k < n
        ensures rows[..n][k] == rows[k] && rows[..n][..k + 1] == rows[..k + 1]
        ensures FillsAt(rows[..n], k) <==> FillsAt(rows, k)
        ensures EndsAt(rows[..n], k) <==> EndsAt(rows, k)
      {
        Prefixes(rows, n, k);
      }
    }
  }

  // What the item's transaction is linked to once all is written.
  function LinkOf(item: PlanItem, position: nat, closed: seq<ClosedRow>): Link {
    (if item.marksOpen then Some(position) else None,
     if item.closed.Some? then IdIn(closed, KeyOfClosed(item.closed.value)) else None)
  }

  ghost predicate KeysApart(plan: seq<PlanItem>) {
    forall i, j :: 0 <= i < j < |plan| ==> plan[i].key != plan[j].key
  }

  lemma {:induction false} LinksAre(plan: seq<PlanItem>, position: nat, closed: seq<ClosedRow>, k: nat)
    requires KeysApart(plan) && k < |plan|
    ensures plan[k].key in FinalLinks(plan, position, closed)
    ensures FinalLinks(plan, position, closed)[plan[k].key] == LinkOf(plan[k], position, closed)
  {
    hide IdIn;
    if k < |plan| - 1 {
      LinksAre(plan[..|plan| - 1], position, closed, k);
      assert plan[k].key != plan[|plan| - 1].key;
    }
  }

  lemma {:induction false} OnlyPlanKeys(plan: seq<PlanItem>, position: nat, closed: seq<ClosedRow>, key: PlanKey)
    requires forall k :: 0 <= k < |plan| ==> plan[k].key != key
    ensures key !in FinalLinks(plan, position, closed)
  {
    hide IdIn;
    if plan != [] {
      OnlyPlanKeys(plan[..|plan| - 1], position, closed, key);
    }
  }

  ghost predicate OnlyLapseBehind(plan: seq<PlanItem>, walked: seq<PlanItem>) {
    forall k :: |walked| <= k < |plan| ==> plan[k].key.Lapsed? && k == |walked|
  }

  // The plan as it is written: the walk's, and at most a lapse behind it.
  lemma WrittenPlan(activity: seq<Row>, account: AccountId, s: SecurityId, secs: Books.Securities, last: Option<Time>,
                    existing: Option<PositionRow>)
    ensures Quantified(SecurityRows(activity, account, s))
    ensures var plan, rows := Replayed(activity, account, s, secs, last, existing).1, SecurityRows(activity, account, s);
            var walked := Run(rows, account, s, Books.MultiplierOf(secs, s)).plan;
            && PlanFor(walked, rows) && |walked| <= |plan| && plan[..|walked|] == walked
            && OnlyLapseBehind(plan, walked)
  {
    hide SecurityRows, PlanFor, Run;
    SecurityRowsCount(activity, account, s);
    RunIsPlanFor(SecurityRows(activity, account, s), account, s, Books.MultiplierOf(secs, s));
  }

  lemma {:induction false} RowsApart(b: Book, account: AccountId, s: SecurityId)
    requires UniqueKeys(b.txns, TxnKey)
    ensures DistinctIds(SecurityRows(RowsOf(b.txns), account, s))
  {
    var activity := RowsOf(b.txns);
    var p := CountsIn(account, s);
    forall i, j | 0 <= i < j < |activity|
      ensures IdKey(activity[i]) != IdKey(activity[j])
    {
      assert TxnKey(b.txns[i]) != TxnKey(b.txns[j]);
    }
    FilteredApart(activity, p);
    SortMultiset(Filter(activity, p), ReplayKey);
    DistinctKeysOfMultiset(Filter(activity, p), Sort(Filter(activity, p), ReplayKey), IdKey);
    forall i, j | 0 <= i < j < |SecurityRows(activity, account, s)|
      ensures SecurityRows(activity, account, s)[i].id != SecurityRows(activity, account, s)[j].id
    {
      assert IdKey(SecurityRows(activity, account, s)[i]) != IdKey(SecurityRows(activity, account, s)[j]);
    }
  }

  function IdKey(r: Row): TxnId {
    r.id
  }

  lemma {:induction false} FilteredApart(rows: seq<Row>, p: Row -> bool)
    requires DistinctKeys(rows, IdKey)
    ensures DistinctKeys(Filter(rows, p), IdKey)
  {
    if rows != [] {
      var front, r := rows[..|rows| - 1], rows[|rows| - 1];
      FilteredApart(front, p);
      forall k | 0 <= k < |Filter(front, p)|
        ensures IdKey(Filter(front, p)[k]) != IdKey(r)
      {
        FilterMember(front, Filter(front, p)[k], p);
        var i :| 0 <= i < |front| && front[i] == Filter(front, p)[k];
        assert IdKey(rows[i]) != IdKey(rows[|rows| - 1]);
      }
    }
  }

  lemma PlanKeysApart(plan: seq<PlanItem>, walked: seq<PlanItem>, rows: seq<Row>)
    requires PlanFor(walked, rows) && DistinctIds(rows) && |walked| <= |plan| && plan[..|walked|] == walked
    requires OnlyLapseBehind(plan, walked)
    ensures KeysApart(plan)
  {
    hide FillsAt, EndsAt, HeldOf;
    forall k | 0 <= k < |walked|
      ensures plan[k].key == OfRow(rows[k].id)
    {
      assert plan[k] == walked[k];
    }
  }

  /** After a rebuild of a security, the transaction of its k-th row is linked to the position
      exactly when the row filled and something was held after it, and to a closed position
      exactly when it ended a lifecycle: the row the table has under that lifecycle's key. The
      transactions of other rows keep their links. */
  lemma RebuildLinksRows(b: Book, account: AccountId, s: SecurityId, secs: Books.Securities, last: Option<Time>, i: nat)
    requires Tidy(b) && i < |b.txns|
    ensures var activity, b' := RowsOf(b.txns), RebuildSecurity(b, RowsOf(b.txns), account, s, secs, last);
            var rows := SecurityRows(activity, account, s);
            var position := Tables.PositionOf(b'.positions, (account, s), KeyOfPosition);
            && |b'.txns| == |b.txns| && b'.txns[i].row == b.txns[i].row && position.Some?
            && (b.txns[i].row !in rows ==> b'.txns[i] == b.txns[i])
            && (forall k :: 0 <= k < |rows| && rows[k] == b.txns[i].row ==>
                  && b'.txns[i].positionId == (if FillsAt(rows, k) && HeldOf(rows[..k + 1]) != 0.0 then Some(position.value + 1) else None)
                  && (!EndsAt(rows, k) ==> b'.txns[i].closedId.None?)
                  && (EndsAt(rows, k) ==>
                        && ClosedBy(rows, k, account, s, secs).Some?
                        && b'.txns[i].closedId == IdIn(b'.closed, KeyOfClosed(ClosedBy(rows, k, account, s, secs).value))))
  {
    hide SecurityRows, PlanFor, Run, Tables.PositionOf, Upserted, UpsertId, WritePlan, FinalLinks, IdIn, FillsAt, EndsAt, HeldOf, Replayed,
         UniqueKeys, KeysApart;
    var activity := RowsOf(b.txns);
    var existing := Stored(b.positions, account, s);
    var (p, plan) := Replayed(activity, account, s, secs, last, existing);
    var b' := RebuildSecurity(b, activity, account, s, secs, last);
    var rows := SecurityRows(activity, account, s);
    CarriedOn(activity, account, s, secs, last, existing);
    UpsertedAt(b.positions, p, KeyOfPosition, (account, s));
    var position := UpsertId(b.positions, p, KeyOfPosition);
    LinksAreFinal(b.closed, plan, position, b'.closed);
    WrittenPlan(activity, account, s, secs, last, existing);
    RowsApart(b, account, s);
    var walked := Run(rows, account, s, Books.MultiplierOf(secs, s)).plan;
    PlanKeysApart(plan, walked, rows);
    SameIdSameRow(b, account, s, i);
    LinkedBy(b.txns[i], plan, walked, rows, position, b'.closed);
    forall k | 0 <= k < |rows| && EndsAt(rows, k)
      ensures k < |walked| && ClosedBy(rows, k, account, s, secs) == walked[k].closed && walked[k].closed.Some?
    {
      EndedItem(walked, rows, k);
    }
  }

  lemma SameIdSameRow(b: Book, account: AccountId, s: SecurityId, i: nat)
    requires UniqueKeys(b.txns, TxnKey) && i < |b.txns|
    ensures forall r :: r in SecurityRows(RowsOf(b.txns), account, s) && r.id == b.txns[i].row.id ==> r == b.txns[i].row
  {
    hide SecurityRows;
    SecurityRowsCount(RowsOf(b.txns), account, s);
    forall r | r in SecurityRows(RowsOf(b.txns), account, s) && r.id == b.txns[i].row.id
      ensures r == b.txns[i].row
    {
      var j :| 0 <= j < |b.txns| && RowsOf(b.txns)[j] == r;
      SameKeySameRow(b.txns, TxnKey, i, j);
    }
  }

  // The contract is known to have expired two days or more before the account's last activity.
  predicate LongExpired(secs: Books.Securities, s: SecurityId, last: Option<Time>) {
    s in secs && secs[s].expiry.Some? && last.Some? && last.value >= (secs[s].expiry.value + 2) * 86_400_000_000
  }

  /** The position a rebuild stores is what the security's rows add up to, or nothing once the
      contract is long expired; side, start and cost go with it. */
  lemma RebuiltPosition(b: Book, account: AccountId, s: SecurityId, secs: Books.Securities, last: Option<Time>)
    requires Tidy(b)
    ensures var b', rows := RebuildSecurity(b, RowsOf(b.txns), account, s, secs, last), SecurityRows(RowsOf(b.txns), account, s);
            var i, held := Tables.PositionOf(b'.positions, (account, s), KeyOfPosition), HeldOf(rows);
            && i.Some? && Stored(b'.positions, account, s).Some?
            && var p := Stored(b'.positions, account, s).value;
               && p.account == account && p.security == s && p.multiplier == Books.MultiplierOf(secs, s)
               && (Stored(b.positions, account, s).Some? ==> p.carried == Stored(b.positions, account, s).value.carried)
               && p.quantity == (if LongExpired(secs, s, last) then 0.0 else Abs(held))
               && (held > 0.0 ==> p.direction == Long) && (held < 0.0 ==> p.direction == Short)
               && (p.quantity != 0.0 ==> p.average.Some? && LotStart(rows) < |rows|
                                         && p.openedAt == rows[LotStart(rows)].at && p.openingOrder == rows[LotStart(rows)].orderId)
               && (p.quantity == 0.0 ==> p.average.None? && p.openedAt.None? && p.openingOrder.None?)
  {
    hide SecurityRows, Run, Tables.PositionOf, Upserted, UpsertId, WritePlan, UniqueKeys, Tape, LotStart, LapseExpiredLot, ClosedRows;
    var activity := RowsOf(b.txns);
    var existing, rows, multiplier := Stored(b.positions, account, s), SecurityRows(activity, account, s), Books.MultiplierOf(secs, s);
    SecurityRowsCount(activity, account, s);
    var w := Run(rows, account, s, multiplier);
    var walked := Replay.PositionOf(account, s, w, multiplier, existing);
    var (p, plan) := Replayed(activity, account, s, secs, last, existing);
    PositionIsHolding(rows, account, s, multiplier, existing);
    LapseClosesAtZero(walked, w.plan, if s in secs then secs[s].expiry else None, multiplier, last);
    CarriedOn(activity, account, s, secs, last, existing);
    UpsertedAt(b.positions, p, KeyOfPosition, (account, s));
  }

  // The lifecycle row that a row's step emits.
  function ClosedBy(rows: seq<Row>, k: nat, account: AccountId, s: SecurityId, secs: Books.Securities): Option<ClosedRow> {
    if k < |rows| && Quantified(rows) && k < |Run(rows, account, s, Books.MultiplierOf(secs, s)).plan|
    then Run(rows, account, s, Books.MultiplierOf(secs, s)).plan[k].closed else None
  }

  lemma EndedItem(walked: seq<PlanItem>, rows: seq<Row>, k: nat)
    requires PlanFor(walked, rows) && k < |rows| && EndsAt(rows, k)
    ensures k < |walked| && walked[k].closed.Some?
  {
    hide FillsAt, EndsAt, HeldOf;
  }

  lemma LinkedBy(t: Txn, plan: seq<PlanItem>, walked: seq<PlanItem>, rows: seq<Row>, position: nat, closed: seq<ClosedRow>)
    requires PlanFor(walked, rows) && KeysApart(plan) && |walked| <= |plan| && plan[..|walked|] == walked
    requires OnlyLapseBehind(plan, walked)
    requires forall r :: r in rows && r.id == t.row.id ==> r == t.row
    ensures var t' := LinkTxn(t, FinalLinks(plan, position, closed));
            && t'.row == t.row
            && (t.row !in rows ==> t' == t)
            && (forall k :: 0 <= k < |rows| && rows[k] == t.row ==>
                  && t'.positionId == (if FillsAt(rows, k) && HeldOf(rows[..k + 1]) != 0.0 then Some(position) else None)
                  && (!EndsAt(rows, k) ==> t'.closedId.None?)
                  && (EndsAt(rows, k) ==> k < |walked| && walked[k].closed.Some?
                                          && t'.closedId == IdIn(closed, KeyOfClosed(walked[k].closed.value))))
  {
    hide FillsAt, EndsAt, HeldOf, FinalLinks, IdIn, KeysApart;
    var key := OfRow(t.row.id);
    if t.row !in rows {
      forall k | 0 <= k < |plan|
        ensures plan[k].key != key
      {
        if k < |walked| {
          assert plan[k] == walked[k] && rows[k] in rows;
        }
      }
      OnlyPlanKeys(plan, position, closed, key);
    }
    forall k | 0 <= k < |rows| && rows[k] == t.row
      ensures plan[k] == walked[k] && plan[k].key == key
      ensures key in FinalLinks(plan, position, closed) && FinalLinks(plan, position, closed)[key] == LinkOf(walked[k], position, closed)
    {
      LinksAre(plan, position, closed, k);
    }
  }
}
