/** Synthesizing the settlement rows a broker never sent for contracts past expiry, one per
    open group and security. */
module Lapse {
  import opened Rows
  import opened Ordering
  import opened GroupNet
  import opened Routing
  import opened Books
  import opened Exits
  import opened Membership
  import opened Reconcile
  import opened PassProofs
  import opened RunProofs
  import opened PassTheorems
  import opened Upserts

  // -------------------------------------------------------------------- what is settled

  // The caller's settlement prices, the wait in days, and the securities dimension.
  datatype Market = Market(secs: Securities, settlement: SecurityId -> Option<real>, settleAfter: nat)

  // Settlement points per contract; None refuses to settle an option without a price.
  function SettlePoints(info: SecurityInfo, settle: Option<real>): Option<real> {
    if info.strike.None? || info.optionType.None? then Some(0.0)
    else if settle.None? then None
    else if info.optionType.value.Call? then Some(Max(0.0, settle.value - info.strike.value))
    else Some(Max(0.0, info.strike.value - settle.value))
  }

  predicate IsDue(m: Market, last: Time, s: SecurityId) {
    s in m.secs && m.secs[s].expiry.Some? && DayOf(last) >= m.secs[s].expiry.value + m.settleAfter
  }

  // The points a due security settles at, when it does.
  function PointsOf(m: Market, last: Time, s: SecurityId): Option<real> {
    if IsDue(m, last, s) then SettlePoints(m.secs[s], m.settlement(s)) else None
  }

  function LapseRow(account: AccountId, pk: nat, s: SecurityId, net: real, points: real, m: Market): Row
    requires s in m.secs && m.secs[s].expiry.Some?
  {
    var cash := points * Abs(net) * (MultiplierOf(m.secs, s) as real);
    Row(TxnId.Lapse(account, pk, s), account, ReceiveDeliver, Expiration, NoAction, Some(s), Some(Abs(net)), Some(points),
        Some(if net > 0.0 then cash else -cash), false, None, None, None, None,
        Some(LapseAt(m.secs[s].expiry.value)), None)
  }

  function NetIn(g: MemGroup, s: SecurityId): real {
    Lookup(NetQuantities(g.rows), s).GetOr(0.0)
  }

  // One security's settlements over the open groups, in id order.
  function LapsesIn(groups: seq<MemGroup>, account: AccountId, s: SecurityId, points: real, m: Market): seq<Row>
    requires s in m.secs && m.secs[s].expiry.Some?
  {
    if groups == [] then []
    else
      var front, g := LapsesIn(groups[..|groups| - 1], account, s, points, m), groups[|groups| - 1];
      if NetIn(g, s) == 0.0 then front else front + [LapseRow(account, g.pk, s, NetIn(g, s), points, m)]
  }

  function LapsesOver(groups: seq<MemGroup>, account: AccountId, held: seq<SecurityId>, last: Time, m: Market): seq<Row> {
    if held == [] then []
    else
      var front, s := LapsesOver(groups, account, held[..|held| - 1], last, m), held[|held| - 1];
      var points := PointsOf(m, last, s);
      if points.None? then front else front + LapsesIn(groups, account, s, points.value, m)
  }

  function HeldBy(groups: seq<MemGroup>): set<SecurityId> {
    set g, s | g in groups && s in NetQuantities(g.rows) && NetQuantities(g.rows)[s] != 0.0 :: s
  }

  function AccountActivity(txns: seq<Txn>, account: AccountId): seq<Row> {
    if txns == [] then []
    else
      var t := txns[|txns| - 1];
      if t.row.account == account then AccountActivity(txns[..|txns| - 1], account) + [t.row]
      else AccountActivity(txns[..|txns| - 1], account)
  }

  function Lapses(s: Ledger, account: AccountId, m: Market): seq<Row> {
    var last, groups := LatestAt(AccountActivity(s.txns, account)), LoadOpen(s, account);
    if last.None? then [] else LapsesOver(groups, account, Ascending(HeldBy(groups)), last.value, m)
  }

  // ------------------------------------------------------------------- writing them down

  predicate IsLapse(r: Row) {
    r.id.Lapse?
  }

  function LapseTxn(r: Row, attributed: bool): Txn
    requires IsLapse(r)
  {
    Txn(r, if attributed then Some(r.id.group) else None, None, None, None)
  }

  function LapseTxns(rows: seq<Row>, attributed: bool): seq<Txn>
    requires forall i :: 0 <= i < |rows| ==> IsLapse(rows[i])
  {
    seq(|rows|, i requires 0 <= i < |rows| => LapseTxn(rows[i], attributed))
  }

  function OfGroup(pk: nat): Row -> bool {
    (r: Row) => IsLapse(r) && r.id.group == pk
  }

  // Each open group's settlements, for the groups that have any.
  function LapseBuckets(groups: seq<MemGroup>, lapses: seq<Row>): seq<Bucket> {
    if groups == [] then []
    else
      var front, n := LapseBuckets(groups[..|groups| - 1], lapses), |groups| - 1;
      var rows := Filter(lapses, OfGroup(groups[n].pk));
      if rows == [] then front else front + [Bucket(n, rows)]
  }

  lemma {:induction false} LapseBucketsIn(groups: seq<MemGroup>, lapses: seq<Row>)
    ensures BucketsIn(LapseBuckets(groups, lapses), groups)
  {
    if groups != [] {
      LapseBucketsIn(groups[..|groups| - 1], lapses);
    }
  }

  lemma {:induction false} LapsesInAreLapses(groups: seq<MemGroup>, account: AccountId, s: SecurityId, points: real, m: Market)
    requires s in m.secs && m.secs[s].expiry.Some?
    ensures forall i :: 0 <= i < |LapsesIn(groups, account, s, points, m)| ==>
              var r := LapsesIn(groups, account, s, points, m)[i];
              IsLapse(r) && Draws(r) && OnSecurity(s)(r) && r.id.account == account && r.id.security == s
  {
    if groups != [] {
      LapsesInAreLapses(groups[..|groups| - 1], account, s, points, m);
    }
  }

  lemma {:induction false} LapsesAreLapses(groups: seq<MemGroup>, account: AccountId, held: seq<SecurityId>, last: Time, m: Market)
    ensures forall i :: 0 <= i < |LapsesOver(groups, account, held, last, m)| ==>
              var r := LapsesOver(groups, account, held, last, m)[i];
              IsLapse(r) && Draws(r) && OnSecurity(r.id.security)(r) && r.id.account == account && r.id.security in held
  {
    if held != [] {
      LapsesAreLapses(groups, account, held[..|held| - 1], last, m);
      var s := held[|held| - 1];
      var points := PointsOf(m, last, s);
      if points.Some? {
        LapsesInAreLapses(groups, account, s, points.value, m);
      }
    }
  }

  lemma AllLapses(s: Ledger, account: AccountId, m: Market)
    ensures forall i :: 0 <= i < |Lapses(s, account, m)| ==>
              var r := Lapses(s, account, m)[i];
              IsLapse(r) && Draws(r) && OnSecurity(r.id.security)(r) && r.id.account == account
  {
    var last, groups := LatestAt(AccountActivity(s.txns, account)), LoadOpen(s, account);
    if last.Some? {
      LapsesAreLapses(groups, account, Ascending(HeldBy(groups)), last.value, m);
    }
  }

  /** The synthesized rows, written pre-attributed and then applied as exits to the groups as
      they were loaded. */
  function Synthesize(s: Ledger, account: AccountId, m: Market, link: Linker): Ledger {
    var lapses, groups := Lapses(s, account, m), LoadOpen(s, account);
    AllLapses(s, account, m);
    LapseBucketsIn(groups, lapses);
    ApplyBuckets(Pass(s.(txns := UpsertTxns(s.txns, LapseTxns(lapses, true))), groups), groups, LapseBuckets(groups, lapses),
                 [], None, m.secs, link).ledger
  }

  // ------------------------------------------------------------------------- conservation

  function SumNets(groups: seq<MemGroup>, s: SecurityId): real {
    if groups == [] then 0.0 else SumNets(groups[..|groups| - 1], s) + NetIn(groups[|groups| - 1], s)
  }

  // Long lots receive the settlement value and short lots pay it.
  lemma LapseRowCash(account: AccountId, pk: nat, s: SecurityId, net: real, points: real, m: Market)
    requires s in m.secs && m.secs[s].expiry.Some?
    ensures SignedNet(LapseRow(account, pk, s, net, points, m)) == (points * (MultiplierOf(m.secs, s) as real)) * net
  {
    var multiplier := MultiplierOf(m.secs, s) as real;
    assert points * Abs(net) * multiplier == (points * multiplier) * Abs(net);
    if net <= 0.0 {
      assert (points * multiplier) * (-net) == -((points * multiplier) * net);
    }
  }

  lemma Distributes(unit: real, a: real, b: real)
    ensures unit * (a + b) == unit * a + unit * b
  {
  }

  /** The cash synthesized for a security is its points times the groups' signed total, so
      siblings on opposite sides cancel. */
  lemma {:induction false} LapseCashIsSignedTotal(groups: seq<MemGroup>, account: AccountId, s: SecurityId, points: real, m: Market)
    requires s in m.secs && m.secs[s].expiry.Some?
    ensures SumNet(LapsesIn(groups, account, s, points, m)) == (points * (MultiplierOf(m.secs, s) as real)) * SumNets(groups, s)
  {
    hide LapseRow, SignedNet, MultiplierOf, NetIn;
    if groups != [] {
      var front, g := groups[..|groups| - 1], groups[|groups| - 1];
      LapseCashIsSignedTotal(front, account, s, points, m);
      var before, net := LapsesIn(front, account, s, points, m), NetIn(g, s);
      Distributes(points * (MultiplierOf(m.secs, s) as real), SumNets(front, s), net);
      LapseRowCash(account, g.pk, s, net, points, m);
      if net != 0.0 {
        SumNetAppend(before, LapseRow(account, g.pk, s, net, points, m));
      }
    }
  }

  // ---------------------------------------------------------------- each group, each once

  function NetOf(groups: seq<MemGroup>, pk: nat, s: SecurityId): real {
    var i := FindGroup(groups, pk);
    if i.Some? then NetIn(groups[i.value], s) else 0.0
  }

  lemma {:induction false} LapseInGroup(groups: seq<MemGroup>, account: AccountId, s: SecurityId, points: real, m: Market, pk: nat)
    requires s in m.secs && m.secs[s].expiry.Some?
    requires forall i, j :: 0 <= i < j < |groups| ==> groups[i].pk != groups[j].pk
    ensures Filter(LapsesIn(groups, account, s, points, m), OfGroup(pk))
         == if NetOf(groups, pk, s) == 0.0 then [] else [LapseRow(account, pk, s, NetOf(groups, pk, s), points, m)]
  {
    hide NetIn;
    if groups != [] {
      var n := |groups| - 1;
      var front, g := groups[..n], groups[n];
      LapseInGroup(front, account, s, points, m, pk);
      if NetIn(g, s) != 0.0 {
        FilterAppend(LapsesIn(front, account, s, points, m), LapseRow(account, g.pk, s, NetIn(g, s), points, m), OfGroup(pk));
      }
      if g.pk == pk {
        NotFoundEarlier(groups);
      }
    }
  }

  lemma NotFoundEarlier(groups: seq<MemGroup>)
    requires groups != [] && forall i, j :: 0 <= i < j < |groups| ==> groups[i].pk != groups[j].pk
    ensures FindGroup(groups[..|groups| - 1], groups[|groups| - 1].pk) == None
  {
  }

  lemma {:induction false} LapsesInDistinct(groups: seq<MemGroup>, account: AccountId, s: SecurityId, points: real, m: Market)
    requires s in m.secs && m.secs[s].expiry.Some?
    requires forall i, j :: 0 <= i < j < |groups| ==> groups[i].pk != groups[j].pk
    ensures DistinctIds(LapsesIn(groups, account, s, points, m))
    ensures forall i :: 0 <= i < |LapsesIn(groups, account, s, points, m)| ==>
              exists k :: 0 <= k < |groups| && LapsesIn(groups, account, s, points, m)[i].id == TxnId.Lapse(account, groups[k].pk, s)
  {
    if groups != [] {
      var n := |groups| - 1;
      LapsesInDistinct(groups[..n], account, s, points, m);
      var front := LapsesIn(groups[..n], account, s, points, m);
      forall i | 0 <= i < |front|
        ensures front[i].id != TxnId.Lapse(account, groups[n].pk, s)
        ensures exists k :: 0 <= k < |groups| && front[i].id == TxnId.Lapse(account, groups[k].pk, s)
      {
        var k :| 0 <= k < n && front[i].id == TxnId.Lapse(account, groups[..n][k].pk, s);
        assert groups[k].pk != groups[n].pk;
      }
    }
  }

  ghost predicate OwnedBySome(r: Row, groups: seq<MemGroup>) {
    exists k :: 0 <= k < |groups| && r.id.Lapse? && r.id.group == groups[k].pk
  }

  lemma {:induction false} LapsesDistinct(groups: seq<MemGroup>, account: AccountId, held: seq<SecurityId>, last: Time, m: Market)
    requires forall i, j :: 0 <= i < j < |groups| ==> groups[i].pk != groups[j].pk
    requires forall i, j :: 0 <= i < j < |held| ==> held[i] < held[j]
    ensures DistinctIds(LapsesOver(groups, account, held, last, m))
    ensures forall i :: 0 <= i < |LapsesOver(groups, account, held, last, m)| ==>
              OwnedBySome(LapsesOver(groups, account, held, last, m)[i], groups)
  {
    if held != [] {
      var n := |held| - 1;
      var s := held[n];
      LapsesDistinct(groups, account, held[..n], last, m);
      LapsesAreLapses(groups, account, held[..n], last, m);
      var points := PointsOf(m, last, s);
      if points.Some? {
        LapsesInDistinct(groups, account, s, points.value, m);
        LapsesInAreLapses(groups, account, s, points.value, m);
        var mine := LapsesIn(groups, account, s, points.value, m);
        forall i | 0 <= i < |mine|
          ensures OwnedBySome(mine[i], groups)
        {
          var k :| 0 <= k < |groups| && mine[i].id == TxnId.Lapse(account, groups[k].pk, s);
        }
        forall x | x in held[..n]
          ensures x < s
        {
        }
      }
    }
  }
}
