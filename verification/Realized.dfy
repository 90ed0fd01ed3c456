/** What the realized profit stamped on a closed group says: cash for premium-settled members,
    price moves for futures, each on its own. */
module Realized {
  import opened Rows
  import opened Ordering
  import opened GroupNet
  import opened Routing
  import opened Books
  import opened Exits
  import opened Membership
  import opened Attribution
  import opened PassProofs
  import opened PassTheorems
  import opened Headers
  import opened Operator = Regroup
  import Replay
  import ReducedWalks

  predicate IsFuture(secs: Securities, x: SecurityId) {
    x in secs && secs[x].isFuture
  }

  predicate NoFutures(rows: seq<Row>, secs: Securities) {
    forall r :: r in rows && r.security.Some? ==> !IsFuture(secs, r.security.value)
  }

  predicate AllIn(rows: seq<Row>, x: SecurityId) {
    rows != [] && forall r :: r in rows ==> r.security == Some(x)
  }

  // What the rows of one future traded, closes stopping at what is held.
  function FutureTape(rows: seq<Row>): seq<Replay.Fill> {
    Replay.Tape(Sort(rows, Replay.ReplayKey), true)
  }

  // Contracts come in ones unless the securities dimension says otherwise.
  function UnitsOf(secs: Securities, x: SecurityId): real {
    if x in secs && secs[x].multiplier.Some? && secs[x].multiplier.value != 0 then secs[x].multiplier.value as real else 1.0
  }

  /** Without futures, profit less fees is the members' cash. With one future alone, and all of
      it closed again, profit is the price times quantity times multiplier of its fills,
      whatever cash the rows carry. */
  ghost predicate RealizedRight(realized: real, rows: seq<Row>, secs: Securities) {
    && (NoFutures(rows, secs) ==> realized == SumNet(rows) + SumFees(rows))
    && (forall x :: IsFuture(secs, x) && AllIn(rows, x) && Replay.Held(FutureTape(rows)) == 0.0 ==>
          realized == Replay.Cash(FutureTape(rows), UnitsOf(secs, x)))
  }

  // ------------------------------------------------------------------------- the profit

  lemma {:induction false} GrossIsNetAndFees(rows: seq<Row>)
    ensures SumGross(rows) == SumNet(rows) + SumFees(rows)
  {
    if rows != [] {
      GrossIsNetAndFees(rows[..|rows| - 1]);
    }
  }

  lemma {:induction false} OneDistinct(rows: seq<Row>, x: SecurityId)
    requires AllIn(rows, x)
    ensures Distinct(rows) == [x]
  {
    var front := rows[..|rows| - 1];
    assert rows == front + [rows[|rows| - 1]];
    if front != [] {
      OneDistinct(front, x);
    }
  }

  lemma RealizedIsRight(rows: seq<Row>, secs: Securities)
    ensures RealizedRight(GroupRealized(rows, secs), rows, secs)
  {
    if NoFutures(rows, secs) {
      AllSelected(rows, OnFutures(secs, false));
      NothingSelected(rows, OnFutures(secs, true));
      GrossIsNetAndFees(rows);
    }
    forall x | IsFuture(secs, x) && AllIn(rows, x) && Replay.Held(FutureTape(rows)) == 0.0
      ensures GroupRealized(rows, secs) == Replay.Cash(FutureTape(rows), UnitsOf(secs, x))
    {
      OneFutureRealized(rows, secs, x);
    }
  }

  lemma OneFutureRealized(rows: seq<Row>, secs: Securities, x: SecurityId)
    requires IsFuture(secs, x) && AllIn(rows, x) && Replay.Held(FutureTape(rows)) == 0.0
    ensures GroupRealized(rows, secs) == Replay.Cash(FutureTape(rows), UnitsOf(secs, x))
  {
    hide Replay.Worth, Replay.WeightedAverage, Replay.ClosingGain, Sort, ReducedWalks.PriceRun, Replay.Tape, Filter, Distinct,
         FuturesRealized, MultiplierOf;
    var ordered, multiplier := Sort(rows, Replay.ReplayKey), MultiplierOf(secs, x);
    AllSelected(rows, OnFutures(secs, true));
    NothingSelected(rows, OnFutures(secs, false));
    AllSelected(rows, OfSecurity(x));
    OneDistinct(rows, x);
    OneFuture(rows, x, secs);
    assert SumGross([]) == 0.0;
    assert GroupRealized(rows, secs) == ReducedWalks.PriceRun(ordered, multiplier, true).realized;
    ReducedWalks.PriceIdentity(ordered, multiplier, true);
    ReducedWalks.PriceFollowsTape(ordered, multiplier, true);
    Replay.WorthOfNothing(ReducedWalks.PriceRun(ordered, multiplier, true).average.GetOr(0.0), multiplier as real);
    Units(secs, x);
  }

  lemma Units(secs: Securities, x: SecurityId)
    ensures MultiplierOf(secs, x) as real == UnitsOf(secs, x)
  {
  }

  lemma OneFuture(rows: seq<Row>, x: SecurityId, secs: Securities)
    ensures FuturesRealized(rows, [x], secs)
         == ReducedWalks.PriceRun(Sort(Filter(rows, OfSecurity(x)), Replay.ReplayKey), MultiplierOf(secs, x), true).realized
  {
    assert [x][..0] == [];
  }

  // ------------------------------------------------------------------------- its parts

  function NotOf(x: SecurityId): Row -> bool {
    (r: Row) => r.security != Some(x)
  }

  function Other(x: SecurityId): SecurityId -> bool {
    (y: SecurityId) => y != x
  }

  lemma {:induction false} WithoutOthers(rows: seq<Row>, x: SecurityId, p: Row -> bool)
    requires forall r: Row :: p(r) ==> r.security != Some(x)
    ensures Filter(Filter(rows, NotOf(x)), p) == Filter(rows, p) && Filter(Filter(rows, OfSecurity(x)), p) == []
  {
    if rows != [] {
      var front, r := rows[..|rows| - 1], rows[|rows| - 1];
      WithoutOthers(front, x, p);
      FilterAppend(Filter(front, NotOf(x)), r, p);
      FilterAppend(Filter(front, OfSecurity(x)), r, p);
    }
  }

  lemma {:induction false} DistinctWithout(rows: seq<Row>, x: SecurityId)
    ensures Distinct(Filter(rows, NotOf(x))) == Filter(Distinct(rows), Other(x))
    ensures NoRepeats(Distinct(rows))
  {
    if rows != [] {
      var front, r := rows[..|rows| - 1], rows[|rows| - 1];
      hide Distinct;
      DistinctWithout(front, x);
      assert rows == front + [r];
      FilterAppend(front, r, NotOf(x));
      DistinctAppend(front, r);
      DistinctAppend(Filter(front, NotOf(x)), r);
      if r.security.Some? {
        FilterAppend(Distinct(front), r.security.value, Other(x));
        FilterMember(Distinct(front), r.security.value, Other(x));
      }
    } else {
      assert NoRepeats(Distinct(rows));
    }
  }

  lemma DistinctAppend(rows: seq<Row>, r: Row)
    ensures Distinct(rows + [r]) == Distinct(rows) + (if r.security.Some? && r.security.value !in Distinct(rows) then [r.security.value] else [])
  {
    assert (rows + [r])[..|rows|] == rows;
  }

  lemma {:induction false} FuturesApart(rows: seq<Row>, rest: seq<Row>, futures: seq<SecurityId>, x: SecurityId, secs: Securities)
    requires NoRepeats(futures) && rest == Filter(rows, NotOf(x))
    ensures FuturesRealized(rows, futures, secs)
         == FuturesRealized(rest, Filter(futures, Other(x)), secs) + (if x in futures then FuturesRealized(rows, [x], secs) else 0.0)
  {
    hide ReducedWalks.PriceRun, Sort, MultiplierOf;
    if futures != [] {
      var front, y := futures[..|futures| - 1], futures[|futures| - 1];
      FuturesApart(rows, rest, front, x, secs);
      assert futures == front + [y];
      assert [x][..0] == [];
      if y != x {
        WithoutOthers(rows, x, OfSecurity(y));
        assert (Filter(front, Other(x)) + [y])[..|Filter(front, Other(x))|] == Filter(front, Other(x));
      }
    }
  }

  /** A group's profit is that of its rows in any one future and that of all its other rows. */
  lemma RealizedInParts(rows: seq<Row>, secs: Securities, x: SecurityId)
    requires IsFuture(secs, x)
    ensures GroupRealized(rows, secs) == GroupRealized(Filter(rows, OfSecurity(x)), secs) + GroupRealized(Filter(rows, NotOf(x)), secs)
  {
    hide ReducedWalks.PriceRun, Sort, MultiplierOf, Filter, Distinct;
    var mine, rest := Filter(rows, OfSecurity(x)), Filter(rows, NotOf(x));
    var futures := Distinct(Filter(rows, OnFutures(secs, true)));
    WithoutOthers(rows, x, OnFutures(secs, false));
    FiltersCommute(rows, NotOf(x), OnFutures(secs, true));
    DistinctWithout(Filter(rows, OnFutures(secs, true)), x);
    FuturesApart(rows, rest, futures, x, secs);
    OwnFuture(rows, secs, x);
  }

  lemma OwnFuture(rows: seq<Row>, secs: Securities, x: SecurityId)
    requires IsFuture(secs, x)
    ensures var mine, futures := Filter(rows, OfSecurity(x)), Distinct(Filter(rows, OnFutures(secs, true)));
            GroupRealized(mine, secs) == if x in futures then FuturesRealized(rows, [x], secs) else 0.0
  {
    hide ReducedWalks.PriceRun, Sort, MultiplierOf, Filter, Distinct, FuturesRealized;
    var mine := Filter(rows, OfSecurity(x));
    forall i | 0 <= i < |mine|
      ensures mine[i].security == Some(x)
    {
      FilterMember(rows, mine[i], OfSecurity(x));
    }
    AllSelected(mine, OnFutures(secs, true));
    NothingSelected(mine, OnFutures(secs, false));
    AllSelected(mine, OfSecurity(x));
    DistinctHas(Filter(rows, OnFutures(secs, true)), x);
    FuturesOf(rows, secs, x);
    OneFuture(mine, x, secs);
    OneFuture(rows, x, secs);
    NothingRealized(secs);
    if mine != [] {
      OneDistinct(mine, x);
    }
  }

  lemma NothingRealized(secs: Securities)
    ensures SumGross([]) == 0.0 && Distinct([]) == [] && FuturesRealized([], [], secs) == 0.0
  {
  }

  lemma {:induction false} DistinctHas(rows: seq<Row>, x: SecurityId)
    ensures x in Distinct(rows) <==> exists r :: r in rows && r.security == Some(x)
  {
    if rows != [] {
      var front, r := rows[..|rows| - 1], rows[|rows| - 1];
      DistinctHas(front, x);
      assert rows == front + [r];
      if y :| y in front && y.security == Some(x) {
        assert y in rows;
      }
      if r.security == Some(x) {
        assert r in rows;
      }
    }
  }

  lemma FuturesOf(rows: seq<Row>, secs: Securities, x: SecurityId)
    requires IsFuture(secs, x)
    ensures (exists r :: r in Filter(rows, OnFutures(secs, true)) && r.security == Some(x)) <==> Filter(rows, OfSecurity(x)) != []
  {
    var mine := Filter(rows, OfSecurity(x));
    if mine != [] {
      FilterMember(rows, mine[0], OfSecurity(x));
      FilterMember(rows, mine[0], OnFutures(secs, true));
    }
    if r :| r in Filter(rows, OnFutures(secs, true)) && r.security == Some(x) {
      FilterMember(rows, r, OnFutures(secs, true));
      FilterMember(rows, r, OfSecurity(x));
    }
  }

  // ------------------------------------------------------------------ the stored records

  // The record of a group that has been closed with these members.
  ghost predicate ClosedRight(g: Group, rows: seq<Row>, secs: Securities) {
    && g.status != Open && g.realized.Some? && g.fees == SumFees(rows) && RealizedRight(g.realized.value, rows, secs)
    && (NoFutures(rows, secs) ==> g.realized.value - g.fees == SumNet(rows))
    && (if |CloseCauses(rows)| == 1 then CloseCauses(rows) == {g.status} else g.status == Mixed)
  }

  lemma ClosedIsRight(g: Group, rows: seq<Row>, at: Option<Time>, secs: Securities)
    ensures ClosedRight(ClosedGroup(g, rows, at, secs), rows, secs)
  {
    hide GroupRealized, TerminalStatus;
    RealizedIsRight(rows, secs);
    ClosedIsTerminal(g, rows, at, secs);
  }

  lemma ClosedWhen(g: Group, rows: seq<Row>, at: Option<Time>, secs: Securities)
    ensures ClosedGroup(g, rows, at, secs).closedAt == at
  {
  }

  /** An exit that closes its group stamps the right profit and fees on it; where no member is a
      future and the events balanced the members, profit less fees is the premium of the log. */
  lemma ExitStampsRight(s: Ledger, g: MemGroup, rows: seq<Row>, rolledTo: Option<nat>, delivery: Option<nat>, secs: Securities)
    requires HasGroup(s, g.pk) && Fresh(g, rows) != [] && FullyClosed(ExtendUnique(g, rows).rows)
    ensures var e := ApplyExit(s, g, rows, rolledTo, delivery, secs);
            && e.fullyClosed && HasGroup(e.ledger, g.pk) && ClosedRight(GroupAt(e.ledger, g.pk), e.group.rows, secs)
            && LastTime(Fresh(g, rows), GroupAt(e.ledger, g.pk).closedAt)
            && (ExitReady(s, g, rows) && Holds(s.txns, g) && AllLeave(rows) && Balance(s, g.pk) == 0.0 && NoFutures(e.group.rows, secs) ==>
                  GroupAt(e.ledger, g.pk).realized.value - GroupAt(e.ledger, g.pk).fees == Premium(e.ledger.events, g.pk))
  {
    hide ApplyExit, FullyClosed, ClosedGroup, ExitEvents, RealizedRight, NoFutures, Members, ExitReady;
    ExitShape(s, g, rows, rolledTo, delivery, secs);
    var e := ApplyExit(s, g, rows, rolledTo, delivery, secs);
    ClosedIsRight(GroupAt(s, g.pk), e.group.rows, LatestAt(Fresh(g, rows)), secs);
    ClosedWhen(GroupAt(s, g.pk), e.group.rows, LatestAt(Fresh(g, rows)), secs);
    LatestIsLast(Fresh(g, rows));
    if ExitReady(s, g, rows) && Holds(s.txns, g) && AllLeave(rows) && Balance(s, g.pk) == 0.0 {
      ReadyIsUnique(s, g, rows);
      BucketBalance(s, g, rows, rolledTo, delivery, secs);
      ExitHolds(s, g, rows);
      AttachKeepsUnique(s.txns, Ids(rows), g.pk);
      HoldsSum(e.ledger.txns, e.group);
    }
  }

  lemma ReadyIsUnique(s: Ledger, g: MemGroup, rows: seq<Row>)
    requires ExitReady(s, g, rows)
    ensures UniqueIds(s.txns)
  {
  }

  lemma {:induction false} HealLogs(s: Ledger, account: AccountId, n: nat, secs: Securities, q: nat)
    requires n <= |s.groups|
    ensures EventsOf(HealAll(s, LoadOpenUpTo(s, account, n), secs).events, q)
         == EventsOf(s.events, q)
            + (if q <= n && OpenFor(s, account, q) && FullyClosed(LoadRows(s, q))
               then [Event(q, Adjustment, 0.0, 0.0, LatestAt(LoadRows(s, q)), None)] else [])
  {
    hide FullyClosed, LoadRows, LatestAt, EventsOf, HealOne, HealAll, OpenFor, LoadOpenUpTo;
    if n > 0 {
      var before := HealAll(s, LoadOpenUpTo(s, account, n - 1), secs);
      HealLogs(s, account, n - 1, secs, q);
      HealKeepsGroups(s, account, n - 1, secs);
      NextHealed(s, account, n, secs);
      if OpenFor(s, account, n) {
        HealOneLogs(before, MemGroup(n, LoadRows(s, n)), secs, q);
      }
    } else {
      NoneHealed(s, account, secs);
    }
  }

  lemma NextHealed(s: Ledger, account: AccountId, n: nat, secs: Securities)
    requires 0 < n <= |s.groups|
    ensures var before := HealAll(s, LoadOpenUpTo(s, account, n - 1), secs);
            HealAll(s, LoadOpenUpTo(s, account, n), secs) ==
            if OpenFor(s, account, n) then HealOne(before, MemGroup(n, LoadRows(s, n)), secs) else before
  {
    hide FullyClosed, LoadRows, HealOne;
    var groups, front := LoadOpenUpTo(s, account, n), LoadOpenUpTo(s, account, n - 1);
    if OpenFor(s, account, n) {
      assert groups[..|groups| - 1] == front;
    } else {
      assert groups == front;
    }
  }

  lemma NoneHealed(s: Ledger, account: AccountId, secs: Securities)
    ensures HealAll(s, LoadOpenUpTo(s, account, 0), secs) == s && !OpenFor(s, account, 0)
  {
  }

  lemma HealKeepsGroups(s: Ledger, account: AccountId, n: nat, secs: Securities)
    requires n <= |s.groups|
    ensures |HealAll(s, LoadOpenUpTo(s, account, n), secs).groups| == |s.groups|
  {
    HealSettles(s, account, n, secs);
  }

  lemma HealOneLogs(s: Ledger, g: MemGroup, secs: Securities, q: nat)
    requires HasGroup(s, g.pk)
    ensures EventsOf(HealOne(s, g, secs).events, q)
         == EventsOf(s.events, q)
            + (if g.pk == q && FullyClosed(g.rows) then [Event(q, Adjustment, 0.0, 0.0, LatestAt(g.rows), None)] else [])
  {
    hide FullyClosed, ClosedGroup, LatestAt;
    if FullyClosed(g.rows) {
      FilterAppend(s.events, Event(g.pk, Adjustment, 0.0, 0.0, LatestAt(g.rows), None), EventIn(q));
    }
  }

  /** A heal does the same for every open group it finds fully closed. */
  lemma HealStampsRight(s: Ledger, account: AccountId, secs: Securities, q: nat)
    requires OpenFor(s, account, q) && FullyClosed(LoadRows(s, q))
    ensures var s' := Heal(s, account, secs);
            && HasGroup(s', q) && LoadRows(s', q) == LoadRows(s, q) && ClosedRight(GroupAt(s', q), LoadRows(s', q), secs)
            && LastTime(LoadRows(s', q), GroupAt(s', q).closedAt)
            && EventsOf(s'.events, q) == EventsOf(s.events, q) + [Event(q, Adjustment, 0.0, 0.0, GroupAt(s', q).closedAt, None)]
            && (UniqueIds(s.txns) && ValidRefs(s) && Balance(s, q) == 0.0 && NoFutures(LoadRows(s, q), secs) ==>
                  GroupAt(s', q).realized.value - GroupAt(s', q).fees == Premium(s'.events, q))
  {
    hide FullyClosed, ClosedGroup, HealAll, LoadOpenUpTo, RealizedRight, NoFutures, Members, Sound, EventsOf, LastTime, CloseCauses;
    HealSettles(s, account, |s.groups|, secs);
    ClosedIsRight(GroupAt(s, q), LoadRows(s, q), LatestAt(LoadRows(s, q)), secs);
    ClosedWhen(GroupAt(s, q), LoadRows(s, q), LatestAt(LoadRows(s, q)), secs);
    LatestIsLast(LoadRows(s, q));
    HealLogs(s, account, |s.groups|, secs, q);
    if UniqueIds(s.txns) && ValidRefs(s) {
      HealSteps(s, account, |s.groups|, secs);
      LoadHolds(s, q);
      HoldsSum(s.txns, MemGroup(q, LoadRows(s, q)));
    }
  }

  /** And a regroup for every group it leaves or reaches that then is fully closed. */
  lemma RegroupStampsRight(s: Ledger, ids: set<nat>, target: Option<nat>, secs: Securities, at: Time, q: nat)
    requires FirstListed(s.txns, ids).Some? && (target.Some? ==> HasGroup(s, target.value)) && q in Affected(s, ids, target)
    ensures var s' := Regroup(s, ids, target, secs, at).ledger;
            HasGroup(s', q) ==>
              var rows := Cluster(s'.txns, q, GroupAt(s', q).account);
              && GroupAt(s', q).premium == SumNet(rows) && GroupAt(s', q).fees == SumFees(rows)
              && (FullyClosed(rows) ==> ClosedRight(GroupAt(s', q), rows, secs) && LastTime(rows, GroupAt(s', q).closedAt))
              && (rows == [] ==> GroupAt(s', q).realized.None?)
  {
    hide FullyClosed, ClosedGroup, RealizedRight, FirstListed, Sources, Ascending, Cluster, RecomputeEach, MoveAll, Recomputed;
    RegroupSettles(s, ids, target, secs, at);
    var moved := Moved(s, ids, target, FirstListed(s.txns, ids).value.row.account);
    if HasGroup(moved, q) {
      var g := GroupAt(moved, q);
      var rows := Cluster(moved.txns, q, g.account);
      RecomputedName(g, rows, secs);
      RecomputedStatus(g, rows, secs);
      RecomputedRight(g, rows, secs);
    }
  }

  // The rows are the group's members on its own account.
  ghost predicate OwnMembers(txns: seq<Txn>, q: nat, account: AccountId, rows: seq<Row>) {
    forall r :: multiset(rows)[r] == if r.account == account then multiset(Members(txns, q))[r] else 0
  }

  ghost predicate DescribedBy(g: Group, rows: seq<Row>) {
    && Describes(g, rows) && FirstTime(rows, g.executedAt)
    && (g.security.Some? <==> |SecuritiesIn(rows)| == 1) && (g.security.Some? ==> SecuritiesIn(rows) == {g.security.value})
  }

  // The transaction listed first, by its place in the table.
  ghost predicate ListedFirst(txns: seq<Txn>, ids: set<nat>, i: nat) {
    i < |txns| && i + 1 in ids && forall e :: e in ids && e > 0 ==> i < e
  }

  /** Every group a regroup leaves or reaches is described anew by its members on its own account.
      A new group takes the account of the first transaction listed; the others keep theirs. */
  lemma RegroupDescribes(s: Ledger, ids: set<nat>, target: Option<nat>, secs: Securities, at: Time, q: nat)
    requires FirstListed(s.txns, ids).Some? && (target.Some? ==> HasGroup(s, target.value)) && q in Affected(s, ids, target)
    ensures var s' := Regroup(s, ids, target, secs, at).ledger;
            HasGroup(s', q) ==>
              var g := GroupAt(s', q);
              && (exists rows :: OwnMembers(s'.txns, q, g.account, rows) && DescribedBy(g, rows))
              && (HasGroup(s, q) ==> g.account == GroupAt(s, q).account && g.name == GroupAt(s, q).name)
              && (!HasGroup(s, q) ==> exists i: nat :: ListedFirst(s.txns, ids, i) && g.account == s.txns[i].row.account)
  {
    hide FirstListed, Sources, Ascending, Cluster, RecomputeEach, MoveAll, Recomputed, OwnMembers, DescribedBy, Settled;
    RegroupSettles(s, ids, target, secs, at);
    var moved := Moved(s, ids, target, FirstListed(s.txns, ids).value.row.account);
    if HasGroup(moved, q) {
      RecomputedFrom(moved, Regroup(s, ids, target, secs, at).ledger, q, secs);
      var g := GroupAt(moved, q);
      RecomputedName(g, Cluster(moved.txns, q, g.account), secs);
      RecomputedDescribes(g, Cluster(moved.txns, q, g.account), secs);
      ClusterIsOwn(moved.txns, q, g.account);
      FirstListedIs(s.txns, ids);
    }
  }

  lemma RecomputedFrom(moved: Ledger, after: Ledger, q: nat, secs: Securities)
    requires Settled(moved, after, q, secs) && HasGroup(moved, q)
    ensures HasGroup(after, q) && after.txns == moved.txns
    ensures GroupAt(after, q) == Recomputed(GroupAt(moved, q), Cluster(moved.txns, q, GroupAt(moved, q).account), secs)
  {
  }

  lemma RecomputedDescribes(g: Group, rows: seq<Row>, secs: Securities)
    ensures DescribedBy(Recomputed(g, rows, secs), rows)
  {
    hide FullyClosed, GroupRealized, TerminalStatus, LatestAt, GroupSize, SizeOf, Distinct, EarliestAt, SumNet, SumFees, FirstTime;
    FreshDescribes(g.name, g.account, rows);
  }

  lemma ClusterIsOwn(txns: seq<Txn>, q: nat, account: AccountId)
    ensures OwnMembers(txns, q, account, Cluster(txns, q, account))
  {
    FilterCounts(Members(txns, q), account);
  }

  lemma {:induction false} FilterCounts(rows: seq<Row>, account: AccountId)
    ensures forall r :: multiset(Filter(rows, OfAccount(account)))[r] == if r.account == account then multiset(rows)[r] else 0
  {
    if rows != [] {
      var front, last := rows[..|rows| - 1], rows[|rows| - 1];
      FilterCounts(front, account);
      assert rows == front + [last];
    }
  }

  lemma {:induction false} FirstListedIs(txns: seq<Txn>, ids: set<nat>)
    ensures FirstListed(txns, ids).None? ==> forall e :: e in ids && e > 0 ==> |txns| < e
    ensures FirstListed(txns, ids).Some? ==> exists i: nat :: ListedFirst(txns, ids, i) && FirstListed(txns, ids).value == txns[i]
  {
    if txns != [] {
      var n := |txns| - 1;
      FirstListedIs(txns[..n], ids);
      if FirstListed(txns[..n], ids).Some? {
        var i: nat :| ListedFirst(txns[..n], ids, i) && FirstListed(txns[..n], ids).value == txns[..n][i];
        assert ListedFirst(txns, ids, i);
      } else if n + 1 in ids {
        assert ListedFirst(txns, ids, n);
      }
    }
  }

  lemma RecomputedRight(g: Group, rows: seq<Row>, secs: Securities)
    ensures FullyClosed(rows) ==> ClosedRight(Recomputed(g, rows, secs), rows, secs) && LastTime(rows, Recomputed(g, rows, secs).closedAt)
    ensures rows == [] ==> Recomputed(g, rows, secs).realized.None?
  {
    hide FullyClosed, ClosedGroup, RealizedRight, Derived, LastTime, CloseCauses;
    NothingIsOpen();
    ClosedIsRight(Derived(g, rows), rows, LatestAt(rows), secs);
    ClosedWhen(Derived(g, rows), rows, LatestAt(rows), secs);
    LatestIsLast(rows);
  }
}
