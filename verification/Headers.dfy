/** What a trade group's header says of its members. */
module Headers {
  import opened Rows
  import opened Ordering
  import opened GroupNet
  import opened Routing
  import opened Books
  import opened Exits
  import opened Reconcile
  import opened Attribution

  // ------------------------------------------------------------------------- the header

  function SecuritiesIn(rows: seq<Row>): set<SecurityId> {
    set r | r in rows && r.security.Some? :: r.security.value
  }

  ghost predicate FirstTime(rows: seq<Row>, at: Option<Time>) {
    && (at.Some? ==> exists r :: r in rows && r.at == at)
    && (forall r :: r in rows && r.at.Some? ==> at.Some? && at.value <= r.at.value)
  }

  ghost predicate LastTime(rows: seq<Row>, at: Option<Time>) {
    && (at.Some? ==> exists r :: r in rows && r.at == at)
    && (forall r :: r in rows && r.at.Some? ==> at.Some? && r.at.value <= at.value)
  }

  // The largest net any security reached, or without one the largest row.
  ghost predicate SizeOf(rows: seq<Row>, size: Option<real>) {
    var peaks := PeakExposures(rows);
    if peaks != map[] then
      && size.Some? && (forall s :: s in peaks ==> peaks[s] <= size.value) && exists s :: s in peaks && peaks[s] == size.value
    else
      && (size.Some? ==> exists r :: r in rows && r.quantity.Some? && Abs(r.quantity.value) == size.value)
      && (forall r :: r in rows && r.quantity.Some? ==> size.Some? && Abs(r.quantity.value) <= size.value)
  }

  ghost predicate Describes(g: Group, rows: seq<Row>) {
    && g.premium == SumNet(rows) && g.fees == SumFees(rows) && SizeOf(rows, g.quantity)
    && g.legCount == (if SecuritiesIn(rows) == {} then 1 else |SecuritiesIn(rows)|)
  }

  lemma {:induction false} DistinctAre(rows: seq<Row>)
    ensures NoRepeats(Distinct(rows)) && |Distinct(rows)| == |SecuritiesIn(rows)|
    ensures forall x :: x in Distinct(rows) <==> x in SecuritiesIn(rows)
  {
    if rows != [] {
      var front, r := rows[..|rows| - 1], rows[|rows| - 1];
      DistinctAre(front);
      assert rows == front + [r];
      SecuritiesAppend(front, r);
      hide SecuritiesIn;
    }
  }

  lemma SecuritiesAppend(front: seq<Row>, r: Row)
    ensures SecuritiesIn(front + [r]) == SecuritiesIn(front) + (if r.security.Some? then {r.security.value} else {})
  {
    assert forall x :: x in front + [r] <==> x in front || x == r;
  }

  lemma {:induction false} EarliestIsFirst(rows: seq<Row>)
    ensures FirstTime(rows, EarliestAt(rows))
  {
    if rows != [] {
      var front := rows[..|rows| - 1];
      EarliestIsFirst(front);
      assert rows == front + [rows[|rows| - 1]];
      if EarliestAt(front).Some? {
        var r :| r in front && r.at == EarliestAt(front);
        assert r in rows;
      }
    }
  }

  lemma {:induction false} LatestIsLast(rows: seq<Row>)
    ensures LastTime(rows, LatestAt(rows))
  {
    if rows != [] {
      var front := rows[..|rows| - 1];
      LatestIsLast(front);
      assert rows == front + [rows[|rows| - 1]];
      if LatestAt(front).Some? {
        var r :| r in front && r.at == LatestAt(front);
        assert r in rows;
      }
    }
  }

  lemma {:induction false} LargestFillIs(rows: seq<Row>)
    ensures LargestFill(rows).Some? ==> exists r :: r in rows && r.quantity.Some? && Abs(r.quantity.value) == LargestFill(rows).value
    ensures forall r :: r in rows && r.quantity.Some? ==> LargestFill(rows).Some? && Abs(r.quantity.value) <= LargestFill(rows).value
  {
    if rows != [] {
      var front := rows[..|rows| - 1];
      LargestFillIs(front);
      assert rows == front + [rows[|rows| - 1]];
      if LargestFill(front).Some? {
        var r :| r in front && r.quantity.Some? && Abs(r.quantity.value) == LargestFill(front).value;
        assert r in rows;
      }
    }
  }

  lemma GroupSizeIs(rows: seq<Row>)
    ensures SizeOf(rows, GroupSize(rows))
  {
    hide LargestStep, LargestFill, PeakWalk;
    OrderedPositional(rows);
    LargestStepIsLargestPeak(OrderedPositionRows(rows));
    LargestFillIs(rows);
  }

  lemma FreshDescribes(name: nat, account: AccountId, rows: seq<Row>)
    ensures var g := FreshGroup(name, account, rows);
            && Describes(g, rows) && FirstTime(rows, g.executedAt)
            && (g.security.Some? <==> |SecuritiesIn(rows)| == 1) && (g.security.Some? ==> SecuritiesIn(rows) == {g.security.value})
  {
    hide GroupSize, Distinct;
    DistinctAre(rows);
    EarliestIsFirst(rows);
    GroupSizeIs(rows);
    var securities := Distinct(rows);
    if |securities| == 1 {
      OneSecurity(SecuritiesIn(rows), securities[0]);
    }
    if SecuritiesIn(rows) == {} {
      assert |securities| == 0;
    }
  }

  lemma OneSecurity(s: set<SecurityId>, x: SecurityId)
    requires |s| == 1 && x in s
    ensures s == {x}
  {
    assert |s - {x}| == 0;
  }

  /** A created group's header describes its members: their cash and fees, the size they reached,
      how many securities they trade, the one they trade if it is one, and when they began. Its
      entry event repeats cash, size and time. */
  lemma CreatedDescribes(s: Ledger, account: AccountId, rows: seq<Row>)
    ensures var s', pk := CreateGroup(s, account, rows), |s.groups| + 1;
            && HasGroup(s', pk)
            && var g := GroupAt(s', pk);
               && g.name == pk && g.account == account && g.status == Open && g.closedAt.None? && g.realized.None?
               && Describes(g, rows) && FirstTime(rows, g.executedAt)
               && (g.security.Some? <==> |SecuritiesIn(rows)| == 1) && (g.security.Some? ==> SecuritiesIn(rows) == {g.security.value})
               && s'.events == s.events + [Event(pk, Entry, if g.quantity.Some? then g.quantity.value else 0.0, SumNet(rows), g.executedAt, None)]
  {
    hide GroupSize, Describes;
    FreshDescribes(|s.groups| + 1, account, rows);
    DescribesCash(FreshGroup(|s.groups| + 1, account, rows), rows);
  }

  lemma DescribesCash(g: Group, rows: seq<Row>)
    requires Describes(g, rows)
    ensures g.premium == SumNet(rows)
  {
  }

  /** Joined by more opening rows, a header describes the members it then has; security and
      start, once set, stay, except that a known start is taken from the members. */
  lemma JoinedDescribes(s: Ledger, g: MemGroup, rows: seq<Row>)
    requires HasGroup(s, g.pk) && rows != []
    ensures var (s', held) := JoinOpenings(s, g, rows);
            && HasGroup(s', g.pk)
            && var before, after := GroupAt(s, g.pk), GroupAt(s', g.pk);
               && Describes(after, held.rows)
               && after.status == before.status && after.account == before.account && after.name == before.name
               && after.closedAt == before.closedAt && after.realized == before.realized
               && (before.security.Some? ==> after.security == before.security)
               && (before.security.None? && after.security.Some? ==> SecuritiesIn(held.rows) == {after.security.value})
               && (before.security.None? && |SecuritiesIn(held.rows)| == 1 ==> after.security.Some?)
               && (FirstTime(held.rows, after.executedAt)
                   || (after.executedAt == before.executedAt && FirstTime(held.rows, None)))
  {
    hide GroupSize, SizeOf, Distinct, EarliestAt, SumNet, SumFees;
    var held := ExtendUnique(g, rows);
    FreshDescribes(GroupAt(s, g.pk).name, GroupAt(s, g.pk).account, held.rows);
  }

  // ------------------------------------------------------------------- members in order

  function AtTime(at: Option<Time>): Row -> bool {
    (r: Row) => r.at == at
  }

  /** A group's members load by time, the undated behind the dated, and those of one time as the
      table has them. */
  lemma MembersLoadInOrder(s: Ledger, pk: nat)
    ensures var rows := LoadRows(s, pk);
            && (forall i, j :: 0 <= i < j < |rows| ==> (rows[j].at.Some? ==> rows[i].at.Some? && rows[i].at.value <= rows[j].at.value))
            && (forall at :: Filter(rows, AtTime(at)) == Filter(Members(s.txns, pk), AtTime(at)))
  {
    hide Members;
    var members, rows := Members(s.txns, pk), LoadRows(s, pk);
    SortSorted(members, GroupKey);
    forall i, j | 0 <= i < j < |rows|
      ensures KeyLe(GroupKey(rows[i]), GroupKey(rows[j]))
    {
    }
    forall at
      ensures Filter(rows, AtTime(at)) == Filter(members, AtTime(at))
    {
      OneTime(members, at);
    }
  }

  lemma OneTime(rows: seq<Row>, at: Option<Time>)
    ensures Filter(Sort(rows, GroupKey), AtTime(at)) == Filter(rows, AtTime(at))
  {
    FilterSort(rows, GroupKey, AtTime(at));
    var some := Filter(rows, AtTime(at));
    forall i, j | 0 <= i < j < |some|
      ensures KeyLe(GroupKey(some[i]), GroupKey(some[j]))
    {
      FilterMember(rows, some[i], AtTime(at));
      FilterMember(rows, some[j], AtTime(at));
    }
    SortFixed(some, GroupKey);
  }

  // --------------------------------------------------------------------------- fees

  /** Each of the four itemized fees counts in full. */
  lemma {:induction false} EveryFeeCounts(rows: seq<Row>, i: nat, x: real)
    requires i < |rows|
    ensures var r := rows[i];
            && SumFees(rows[i := r.(commission := Some(r.commission.GetOr(0.0) + x))]) == SumFees(rows) + x
            && SumFees(rows[i := r.(clearingFees := Some(r.clearingFees.GetOr(0.0) + x))]) == SumFees(rows) + x
            && SumFees(rows[i := r.(regulatoryFees := Some(r.regulatoryFees.GetOr(0.0) + x))]) == SumFees(rows) + x
            && SumFees(rows[i := r.(indexOptionFees := Some(r.indexOptionFees.GetOr(0.0) + x))]) == SumFees(rows) + x
  {
    hide SumFees;
    var r := rows[i];
    FeesReplaced(rows, i, r.(commission := Some(r.commission.GetOr(0.0) + x)));
    FeesReplaced(rows, i, r.(clearingFees := Some(r.clearingFees.GetOr(0.0) + x)));
    FeesReplaced(rows, i, r.(regulatoryFees := Some(r.regulatoryFees.GetOr(0.0) + x)));
    FeesReplaced(rows, i, r.(indexOptionFees := Some(r.indexOptionFees.GetOr(0.0) + x)));
  }

  lemma {:induction false} FeesReplaced(rows: seq<Row>, i: nat, r: Row)
    requires i < |rows|
    ensures SumFees(rows[i := r]) == SumFees(rows) - FeesOf(rows[i]) + FeesOf(r)
  {
    hide FeesOf;
    var n := |rows| - 1;
    if i < n {
      FeesReplaced(rows[..n], i, r);
      assert rows[i := r][..n] == rows[..n][i := r];
    } else {
      assert rows[i := r][..n] == rows[..n];
    }
  }
}
