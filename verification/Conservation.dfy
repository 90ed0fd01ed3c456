/** Account grain against group grain: how the unclamped account net of a security relates to
    the clamped nets of the groups its rows are attributed to. */
module Conservation {
  import opened Rows
  import opened Ordering
  import opened Replay
  import opened ReducedWalks
  import G = GroupNet

  // A row of a trade-only history.
  predicate IsTrade(r: Row) {
    && r.security.Some? && r.at.Some? && r.quantity.Some? && r.quantity.value > 0.0
    && !r.kind.MoneyMovement? && !IsSettlement(r)
    && (IsOpeningVerb(r.action) || IsClosingVerb(r.action) || IsBare(r.action))
  }

  predicate AllTrades(rows: seq<Row>) {
    forall i :: 0 <= i < |rows| ==> IsTrade(rows[i])
  }

  lemma TradesAreBoth(rows: seq<Row>)
    requires AllTrades(rows)
    ensures Quantified(rows) && G.Positional(rows)
  {
  }

  type Owner = TxnId -> nat

  function OwnedBy(owner: Owner, g: nat): Row -> bool {
    (r: Row) => owner(r.id) == g
  }

  // A group's rows out of an account's.
  function GroupRows(rows: seq<Row>, owner: Owner, g: nat): seq<Row> {
    Filter(rows, OwnedBy(owner, g))
  }

  lemma {:induction false} GroupRowsAreTrades(rows: seq<Row>, owner: Owner, g: nat)
    requires AllTrades(rows)
    ensures AllTrades(GroupRows(rows, owner, g)) && G.Positional(GroupRows(rows, owner, g))
  {
    if rows != [] {
      GroupRowsAreTrades(rows[..|rows| - 1], owner, g);
    }
  }

  // What group g holds after these rows.
  function GroupHeld(rows: seq<Row>, owner: Owner, g: nat): real
    requires AllTrades(rows)
  {
    GroupRowsAreTrades(rows, owner, g);
    G.Walk(GroupRows(rows, owner, g)).GetOr(0.0)
  }

  function GroupsHeld(rows: seq<Row>, owner: Owner, n: nat): real
    requires AllTrades(rows)
  {
    if n == 0 then 0.0 else GroupsHeld(rows, owner, n - 1) + GroupHeld(rows, owner, n - 1)
  }

  // By how much the last row moved the account more than it moved its own group.
  function LastGap(rows: seq<Row>, owner: Owner): real
    requires AllTrades(rows) && rows != []
  {
    TradesAreBoth(rows);
    var front, r := rows[..|rows| - 1], rows[|rows| - 1];
    var held := GroupHeld(front, owner, owner(r.id));
    (NetStep(NetRun(front), r).quantity - NetRun(front).quantity) - (G.GroupNetStep(held, r).GetOr(held) - held)
  }

  function Gaps(rows: seq<Row>, owner: Owner): real
    requires AllTrades(rows)
  {
    if rows == [] then 0.0 else Gaps(rows[..|rows| - 1], owner) + LastGap(rows, owner)
  }

  lemma GroupHeldStep(rows: seq<Row>, owner: Owner, g: nat)
    requires AllTrades(rows) && rows != []
    ensures var front, r := rows[..|rows| - 1], rows[|rows| - 1];
            var held := GroupHeld(front, owner, g);
            GroupHeld(rows, owner, g) == if owner(r.id) == g then G.GroupNetStep(held, r).GetOr(held) else held
  {
    var front, r := rows[..|rows| - 1], rows[|rows| - 1];
    GroupRowsAreTrades(front, owner, g);
    GroupRowsAreTrades(rows, owner, g);
    if owner(r.id) == g {
      assert GroupRows(rows, owner, g)[..|GroupRows(front, owner, g)|] == GroupRows(front, owner, g);
    }
  }

  lemma {:induction false} GroupsHeldStep(rows: seq<Row>, owner: Owner, n: nat)
    requires AllTrades(rows) && rows != []
    ensures var front, r := rows[..|rows| - 1], rows[|rows| - 1];
            var held := GroupHeld(front, owner, owner(r.id));
            GroupsHeld(rows, owner, n)
            == GroupsHeld(front, owner, n) + (if owner(r.id) < n then G.GroupNetStep(held, r).GetOr(held) - held else 0.0)
  {
    if n > 0 {
      GroupsHeldStep(rows, owner, n - 1);
      GroupHeldStep(rows, owner, n - 1);
    }
  }

  /** Over any time-ordered trade history of one security, the account's net is the sum of its
      groups' nets plus what their clamps held back. */
  lemma {:induction false} AccountIsGroupsPlusGaps(rows: seq<Row>, owner: Owner, n: nat)
    requires AllTrades(rows) && forall i :: 0 <= i < |rows| ==> owner(rows[i].id) < n
    ensures NetRun(rows).quantity == GroupsHeld(rows, owner, n) + Gaps(rows, owner)
  {
    if rows == [] {
      NothingHeld(owner, n);
    } else {
      AccountIsGroupsPlusGaps(rows[..|rows| - 1], owner, n);
      GroupsHeldStep(rows, owner, n);
    }
  }

  lemma {:induction false} NothingHeld(owner: Owner, n: nat)
    ensures GroupsHeld([], owner, n) == 0.0
  {
    if n > 0 {
      NothingHeld(owner, n - 1);
    }
  }

  // ------------------------------------------------------------------ what opens the gap

  // The row closes its group's side and no more than the group holds.
  predicate Covered(held: real, r: Row) {
    Opposite(held, G.ActionDelta(r)) && Abs(G.ActionDelta(r)) <= Abs(held)
  }

  // Before the account has held anything, its rows are closes and no group holds anything.
  lemma {:induction false} LeadingCloses(rows: seq<Row>, owner: Owner, g: nat)
    requires AllTrades(rows) && !NetRun(rows).had
    ensures NetRun(rows).quantity == 0.0
    ensures GroupHeld(rows, owner, g) == 0.0
    ensures forall i :: 0 <= i < |rows| ==> IsClosingVerb(rows[i].action)
  {
    if rows != [] {
      LeadingCloses(rows[..|rows| - 1], owner, g);
      GroupHeldStep(rows, owner, g);
    }
  }

  /** A close the account walk skips, because it has never held the security, is a no-op in
      the group it is attributed to as well. */
  lemma SkippedCloseIsGroupNoOp(rows: seq<Row>, owner: Owner, r: Row)
    requires AllTrades(rows) && IsTrade(r)
    requires ClosesUnseen(r, NetRun(rows).quantity, NetRun(rows).had)
    ensures G.GroupNetStep(GroupHeld(rows, owner, owner(r.id)), r) == None
  {
    LeadingCloses(rows, owner, owner(r.id));
  }

  /** The gap of a row: an opening leaves none; a close leaves none exactly when its group
      covers it or the account skips it too; a close cut by its group leaves the excess. */
  lemma GapOfRow(rows: seq<Row>, owner: Owner)
    requires AllTrades(rows) && rows != []
    ensures var front, r := rows[..|rows| - 1], rows[|rows| - 1];
            var held, delta, gap := GroupHeld(front, owner, owner(r.id)), G.ActionDelta(r), LastGap(rows, owner);
            var unseen := ClosesUnseen(r, NetRun(front).quantity, NetRun(front).had);
            && (!G.ActsAsClose(held, r) ==> gap == 0.0)
            && (G.ActsAsClose(held, r) ==> (gap == 0.0 <==> unseen || Covered(held, r)))
            && (Opposite(held, delta) && !Covered(held, r) && !IsOpeningVerb(r.action) ==> gap == delta + held)
            && (G.ActsAsClose(held, r) && held == 0.0 && !unseen ==> gap == delta)
            && (G.ActsAsClose(held, r) && SameSide(held, delta) ==> gap == delta + (held - G.Toward(held, delta)))
  {
    var front, r := rows[..|rows| - 1], rows[|rows| - 1];
    if ClosesUnseen(r, NetRun(front).quantity, NetRun(front).had) {
      LeadingCloses(front, owner, owner(r.id));
    }
  }

  // Row k, where it acts as a close, is covered by its group or unseen by the account.
  ghost predicate CoveredAt(rows: seq<Row>, owner: Owner, k: nat)
    requires AllTrades(rows) && k < |rows|
  {
    var front, r := rows[..k], rows[k];
    var held := GroupHeld(front, owner, owner(r.id));
    G.ActsAsClose(held, r) ==> ClosesUnseen(r, NetRun(front).quantity, NetRun(front).had) || Covered(held, r)
  }

  // No close is cut, skipped or misdirected.
  ghost predicate NothingCut(rows: seq<Row>, owner: Owner)
    requires AllTrades(rows)
  {
    forall k :: 0 <= k < |rows| ==> CoveredAt(rows, owner, k)
  }

  lemma CoveredIsNoGap(rows: seq<Row>, owner: Owner, k: nat)
    requires AllTrades(rows) && k < |rows|
    ensures CoveredAt(rows, owner, k) <==> LastGap(rows[..k + 1], owner) == 0.0
  {
    hide LastGap, GroupHeld, NetRun;
    assert rows[..k + 1][..k] == rows[..k];
    GapOfRow(rows[..k + 1], owner);
  }

  // The account and the groups hold the same after every row.
  ghost predicate AgreeThroughout(rows: seq<Row>, owner: Owner, n: nat)
    requires AllTrades(rows)
  {
    forall k :: 0 <= k <= |rows| ==> NetRun(rows[..k]).quantity == GroupsHeld(rows[..k], owner, n)
  }

  /** The account and its groups agree after every row exactly when no close is cut, skipped or
      misdirected. */
  lemma {:induction false} AgreeThroughoutExactlyWhen(rows: seq<Row>, owner: Owner, n: nat)
    requires AllTrades(rows) && forall i :: 0 <= i < |rows| ==> owner(rows[i].id) < n
    ensures AgreeThroughout(rows, owner, n) <==> NothingCut(rows, owner)
  {
    hide LastGap, GroupsHeld, NetRun, CoveredAt;
    assert rows[..|rows|] == rows;
    AccountIsGroupsPlusGaps(rows, owner, n);
    if rows == [] {
      NothingHeld(owner, n);
    } else {
      var m := |rows| - 1;
      var front := rows[..m];
      AgreeThroughoutExactlyWhen(front, owner, n);
      AccountIsGroupsPlusGaps(front, owner, n);
      CoveredIsNoGap(rows, owner, m);
      forall k | 0 <= k <= m
        ensures front[..k] == rows[..k]
        ensures k < m ==> (CoveredAt(front, owner, k) <==> CoveredAt(rows, owner, k))
      {
        if k < m {
          SameCovered(rows, owner, m, k);
        }
      }
      assert rows[..m + 1] == rows;
      ShorterAgrees(rows, owner, n);
    }
  }

  lemma ShorterAgrees(rows: seq<Row>, owner: Owner, n: nat)
    requires AllTrades(rows) && rows != []
    ensures AgreeThroughout(rows, owner, n) <==>
            AgreeThroughout(rows[..|rows| - 1], owner, n) && NetRun(rows).quantity == GroupsHeld(rows, owner, n)
  {
    hide NetRun, GroupsHeld;
    var front := rows[..|rows| - 1];
    assert rows[..|rows|] == rows;
    assert forall k :: 0 <= k <= |front| ==> front[..k] == rows[..k];
  }

  lemma SameCovered(rows: seq<Row>, owner: Owner, n: nat, k: nat)
    requires AllTrades(rows) && k < n <= |rows|
    ensures CoveredAt(rows[..n], owner, k) <==> CoveredAt(rows, owner, k)
  {
    hide GroupHeld, NetRun;
    assert rows[..n][..k] == rows[..k];
  }

  // ----------------------------------------------------------- from raw rows, both sorts

  lemma {:induction false} FilterAgrees(rows: seq<Row>, p: Row -> bool, q: Row -> bool)
    requires forall i :: 0 <= i < |rows| ==> p(rows[i]) == q(rows[i])
    ensures Filter(rows, p) == Filter(rows, q)
  {
    if rows != [] {
      FilterAgrees(rows[..|rows| - 1], p, q);
    }
  }

  lemma {:induction false} FilterTrades(rows: seq<Row>, p: Row -> bool)
    requires AllTrades(rows)
    ensures AllTrades(Filter(rows, p))
  {
    if rows != [] {
      FilterTrades(rows[..|rows| - 1], p);
    }
  }

  lemma SortTrades(rows: seq<Row>, key: Row -> Key)
    requires AllTrades(rows)
    ensures AllTrades(Sort(rows, key))
  {
    var t := Sort(rows, key);
    forall i | 0 <= i < |t|
      ensures IsTrade(t[i])
    {
      SortMember(rows, t[i], key);
    }
  }

  // With distinct times the two walks visit one security's rows in the same order.
  lemma SameOrder(rows: seq<Row>)
    requires AllTrades(rows) && DistinctKeys(rows, G.GroupKey)
    ensures Sort(rows, ReplayKey) == Sort(rows, G.GroupKey)
  {
    var a, b := Sort(rows, ReplayKey), Sort(rows, G.GroupKey);
    SortMultiset(rows, ReplayKey);
    SortMultiset(rows, G.GroupKey);
    SortSorted(rows, ReplayKey);
    SortSorted(rows, G.GroupKey);
    SortTrades(rows, ReplayKey);
    assert SortedBy(a, G.GroupKey);
    DistinctKeysOfMultiset(rows, a, G.GroupKey);
    SortedUnique(a, b, G.GroupKey);
  }

  // One security's trades, in time order.
  function Timeline(rows: seq<Row>, s: SecurityId): seq<Row> {
    G.SecurityRows(rows, s)
  }

  lemma TimelineTrades(rows: seq<Row>, s: SecurityId)
    requires AllTrades(rows)
    ensures AllTrades(Timeline(rows, s))
  {
    FilterTrades(rows, G.OnSecurity(s));
    SortTrades(Filter(rows, G.OnSecurity(s)), G.GroupKey);
  }

  // A group's own book for the security is its part of the timeline.
  lemma GroupBook(rows: seq<Row>, owner: Owner, g: nat, s: SecurityId)
    requires AllTrades(rows)
    ensures AllTrades(Timeline(rows, s))
    ensures GroupHeld(Timeline(rows, s), owner, g)
         == G.Lookup(G.NetQuantities(GroupRows(rows, owner, g)), s).GetOr(0.0)
  {
    TimelineTrades(rows, s);
    GroupRowsAreTrades(Timeline(rows, s), owner, g);
    G.NetOfSecurity(GroupRows(rows, owner, g), s);
    FiltersCommute(rows, OwnedBy(owner, g), G.OnSecurity(s));
    FilterSort(Filter(rows, G.OnSecurity(s)), G.GroupKey, OwnedBy(owner, g));
  }

  function GroupNets(rows: seq<Row>, owner: Owner, n: nat, s: SecurityId): real {
    if n == 0 then 0.0
    else GroupNets(rows, owner, n - 1, s) + G.Lookup(G.NetQuantities(GroupRows(rows, owner, n - 1)), s).GetOr(0.0)
  }

  lemma {:induction false} GroupBooks(rows: seq<Row>, owner: Owner, n: nat, s: SecurityId)
    requires AllTrades(rows) && AllTrades(Timeline(rows, s))
    ensures GroupNets(rows, owner, n, s) == GroupsHeld(Timeline(rows, s), owner, n)
  {
    if n > 0 {
      GroupBooks(rows, owner, n - 1, s);
      GroupBook(rows, owner, n - 1, s);
    }
  }

  /** Account against groups, from the unsorted rows both readers start from: the account's
      net_open_quantities entry is the sum of the groups' _net_quantities entries plus the
      gaps, so the two agree whenever no close is cut, skipped or misdirected, and agree all
      along exactly then. */
  lemma AccountAgainstGroups(rows: seq<Row>, owner: Owner, n: nat, s: SecurityId)
    requires AllTrades(rows) && forall i :: 0 <= i < |rows| ==> owner(rows[i].id) < n
    requires DistinctKeys(Filter(rows, G.OnSecurity(s)), G.GroupKey)
    ensures AllTrades(Timeline(rows, s)) && Quantified(Sort(RowsOf(rows, s), ReplayKey))
    ensures NetRun(Sort(RowsOf(rows, s), ReplayKey)).quantity
         == GroupNets(rows, owner, n, s) + Gaps(Timeline(rows, s), owner)
    ensures AgreeThroughout(Timeline(rows, s), owner, n) <==> NothingCut(Timeline(rows, s), owner)
    ensures NothingCut(Timeline(rows, s), owner) ==>
              NetRun(Sort(RowsOf(rows, s), ReplayKey)).quantity == GroupNets(rows, owner, n, s)
  {
    TimelineTrades(rows, s);
    RowsOfQuantified(rows, s);
    FilterAgrees(rows, InSecurity(s), G.OnSecurity(s));
    FilterTrades(rows, G.OnSecurity(s));
    SameOrder(Filter(rows, G.OnSecurity(s)));
    var timeline := Timeline(rows, s);
    forall i | 0 <= i < |timeline|
      ensures owner(timeline[i].id) < n
    {
      SortMember(Filter(rows, G.OnSecurity(s)), timeline[i], G.GroupKey);
      FilterMember(rows, timeline[i], G.OnSecurity(s));
    }
    AccountIsGroupsPlusGaps(timeline, owner, n);
    GroupBooks(rows, owner, n, s);
    AgreeThroughoutExactlyWhen(timeline, owner, n);
    assert timeline[..|timeline|] == timeline;
  }
}
