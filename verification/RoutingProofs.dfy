/** Where the router sends each row of a cluster, said without the router. */
module RoutingProofs {
  import opened Rows
  import opened Ordering
  import opened GroupNet
  import opened Routing
  import opened Attribution

  // What a group has left in a security while a cluster is routed.
  function LeftIn(st: Routed, i: nat, s: SecurityId): real
    requires i < |st.remaining|
  {
    if s in st.remaining[i] then st.remaining[i][s] else 0.0
  }

  // The row takes from what the group has left: a settlement that names no action from either
  // side, any other row from the side opposite to its own.
  predicate Offsets(st: Routed, r: Row, i: nat)
    requires i < |st.remaining| && r.security.Some?
  {
    var left := LeftIn(st, i, r.security.value);
    left != 0.0 && ((IsSettlement(r) && r.action.NoAction?) || Opposite(left, ActionDelta(r)))
  }

  predicate HoldsMember(groups: seq<MemGroup>, i: nat, s: SecurityId) {
    i < |groups| && exists r :: r in groups[i].rows && r.security == Some(s)
  }

  predicate MayClose(r: Row) {
    r.action.BuyToClose? || r.action.SellToClose? || IsSettlement(r)
  }

  predicate MayCover(r: Row) {
    MayClose(r) || r.action.Buy? || r.action.Sell?
  }

  // The row has gone to a group's bucket, behind the rows already there, or to the rest.
  ghost predicate SentTo(st: Routed, st': Routed, r: Row, g: Option<nat>) {
    if g.Some? then
      && st'.rest == st.rest
      && forall q: nat :: RowsFor(st'.buckets, q) == RowsFor(st.buckets, q) + (if q == g.value then [r] else [])
    else st'.rest == st.rest + [r] && st'.buckets == st.buckets
  }

  lemma {:induction false} FirstMemberIsFirst(groups: seq<MemGroup>, s: SecurityId)
    ensures var f := FirstMember(groups, s);
            && (f.None? <==> forall i: nat :: !HoldsMember(groups, i, s))
            && (f.Some? ==> HoldsMember(groups, f.value, s) && forall i: nat :: i < f.value ==> !HoldsMember(groups, i, s))
  {
    if groups != [] {
      FirstMemberIsFirst(groups[1..], s);
      assert HoldsMember(groups, 0, s) <==> Touches(groups[0].rows, s);
      forall i: nat
        ensures HoldsMember(groups, i + 1, s) <==> HoldsMember(groups[1..], i, s)
      {
        if i < |groups| - 1 {
          assert groups[1..][i] == groups[i + 1];
        }
      }
      var f := FirstMember(groups[1..], s);
      if !Touches(groups[0].rows, s) {
        forall i: nat
          ensures f.None? ==> !HoldsMember(groups, i, s)
          ensures f.Some? && i < f.value + 1 ==> !HoldsMember(groups, i, s)
        {
          if i > 0 {
            assert HoldsMember(groups, i - 1 + 1, s) <==> HoldsMember(groups[1..], i - 1, s);
          }
        }
      }
    }
  }

  lemma OffsetIsEligible(st: Routed, r: Row, i: nat)
    requires i < |st.remaining| && r.security.Some? && MayCover(r)
    ensures |NetsIn(st.remaining, r.security.value)| == |st.remaining|
    ensures Offsets(st, r, i) <==> Eligible(NetsIn(st.remaining, r.security.value)[i], OffsetOf(r))
  {
  }

  // Where a row goes, from what the groups have left and the members they hold.
  ghost predicate Belongs(groups: seq<MemGroup>, st: Routed, r: Row, g: Option<nat>)
    requires |st.remaining| == |groups|
  {
    if r.security.None? || !MayCover(r) then g.None?
    else if exists i: nat :: i < |groups| && Offsets(st, r, i) then
      g.Some? && g.value < |groups| && Offsets(st, r, g.value) && forall i: nat :: i < g.value ==> !Offsets(st, r, i)
    else if MayClose(r) && exists i: nat :: HoldsMember(groups, i, r.security.value) then
      g.Some? && HoldsMember(groups, g.value, r.security.value)
      && forall i: nat :: i < g.value ==> !HoldsMember(groups, i, r.security.value)
    else g.None?
  }

  lemma TargetBelongs(groups: seq<MemGroup>, st: Routed, r: Row)
    requires |st.remaining| == |groups|
    ensures Belongs(groups, st, r, Target(groups, st.remaining, r))
  {
    hide Offsets, HoldsMember, FirstEligible, FirstMember, Eligible;
    if r.security.Some? && MayCover(r) {
      var s := r.security.value;
      var nets := NetsIn(st.remaining, s);
      FirstEligibleIsFirst(nets, OffsetOf(r));
      FirstMemberIsFirst(groups, s);
      forall i: nat | i < |groups|
        ensures Offsets(st, r, i) <==> Eligible(nets[i], OffsetOf(r))
      {
        OffsetIsEligible(st, r, i);
      }
    }
  }

  lemma RowSent(groups: seq<MemGroup>, st: Routed, r: Row)
    requires OneBucketEach(st.buckets)
    ensures SentTo(st, RouteRow(groups, st, r), r, Target(groups, st.remaining, r))
    ensures OneBucketEach(RouteRow(groups, st, r).buckets)
  {
    hide Target, AfterDraw, RowsFor, AddTo, OneBucketEach;
    var g := Target(groups, st.remaining, r);
    if g.Some? {
      AddToRowsFor(st.buckets, g.value, r, 0);
      forall q: nat
        ensures RowsFor(AddTo(st.buckets, g.value, r), q) == RowsFor(st.buckets, q) + (if q == g.value then [r] else [])
      {
        AddToRowsFor(st.buckets, g.value, r, q);
      }
    }
  }

  lemma {:induction false} RoutedInOrder(groups: seq<MemGroup>, cluster: seq<Row>)
    ensures |Route(groups, cluster).remaining| == |groups| && OneBucketEach(Route(groups, cluster).buckets)
  {
    hide Target, AddTo;
    if cluster != [] {
      var front, r := cluster[..|cluster| - 1], cluster[|cluster| - 1];
      RoutedInOrder(groups, front);
      RowSent(groups, Route(groups, front), r);
      AfterDrawLength(Route(groups, front).remaining, r);
    }
  }

  /** Every row of a cluster goes where it belongs: to the first group with something left for
      it to take; failing that, if it is a close or a settlement, to the first group that has a
      member in its security; and else, or if it closes nothing, to the rest. */
  lemma RowGoesWhereItBelongs(groups: seq<MemGroup>, cluster: seq<Row>, k: nat) returns (g: Option<nat>)
    requires k < |cluster|
    ensures var st := Route(groups, cluster[..k]);
            && |st.remaining| == |groups| && Belongs(groups, st, cluster[k], g)
            && SentTo(st, Route(groups, cluster[..k + 1]), cluster[k], g)
  {
    hide Target, Belongs, SentTo, OneBucketEach, AfterDraw, AddTo;
    var st, r := Route(groups, cluster[..k]), cluster[k];
    assert cluster[..k + 1][..k] == cluster[..k];
    RoutedInOrder(groups, cluster[..k]);
    g := Target(groups, st.remaining, r);
    TargetBelongs(groups, st, r);
    RowSent(groups, st, r);
  }

  // ---------------------------------------------------------------- over a whole cluster

  // Drawing down never gives a group a security it has no member in.
  ghost predicate KeysHeld(groups: seq<MemGroup>, remaining: seq<Nets>) {
    |remaining| == |groups|
    && forall i: nat, s: SecurityId :: i < |groups| && s in remaining[i] ==> HoldsMember(groups, i, s)
  }

  lemma {:induction false} NetKeysHeld(ordered: seq<Row>, s: SecurityId)
    requires Positional(ordered) && s in NetWalk(ordered)
    ensures exists r :: r in ordered && r.security == Some(s)
  {
    var front, r := ordered[..|ordered| - 1], ordered[|ordered| - 1];
    assert ordered == front + [r];
    if s in NetWalk(front) {
      NetKeysHeld(front, s);
      var x :| x in front && x.security == Some(s);
      assert x in ordered;
    } else {
      assert r in ordered;
    }
  }

  lemma OpeningKeysHeld(groups: seq<MemGroup>)
    ensures KeysHeld(groups, Opening(groups).remaining)
  {
    hide NetWalk;
    forall i: nat, s: SecurityId | i < |groups| && s in Opening(groups).remaining[i]
      ensures HoldsMember(groups, i, s)
    {
      var rows := groups[i].rows;
      OrderedPositional(rows);
      NetKeysHeld(OrderedPositionRows(rows), s);
      var r :| r in OrderedPositionRows(rows) && r.security == Some(s);
      SortMember(Filter(rows, OnPosition()), r, GroupKey);
      FilterMember(rows, r, OnPosition());
    }
  }

  lemma DrawKeepsKeys(groups: seq<MemGroup>, remaining: seq<Nets>, r: Row)
    requires KeysHeld(groups, remaining)
    ensures KeysHeld(groups, AfterDraw(remaining, r))
  {
    hide DrawnAt, HoldsMember;
  }

  // Nothing in the rest that a held membership claims; nothing in a bucket that none does.
  ghost predicate RightlySplit(groups: seq<MemGroup>, st: Routed) {
    && (forall k :: 0 <= k < |st.rest| && MayClose(st.rest[k]) && st.rest[k].security.Some? ==>
          forall i: nat :: !HoldsMember(groups, i, st.rest[k].security.value))
    && (forall q: nat, k :: 0 <= k < |RowsFor(st.buckets, q)| ==>
          var r := RowsFor(st.buckets, q)[k];
          r.security.Some? && MayCover(r) && HoldsMember(groups, q, r.security.value))
  }

  lemma SplitStep(groups: seq<MemGroup>, st: Routed, st': Routed, r: Row, g: Option<nat>)
    requires KeysHeld(groups, st.remaining) && RightlySplit(groups, st) && Belongs(groups, st, r, g) && SentTo(st, st', r, g)
    ensures RightlySplit(groups, st')
  {
    hide RowsFor, IsSettlement;
    forall q: nat, k | 0 <= k < |RowsFor(st'.buckets, q)|
      ensures var x := RowsFor(st'.buckets, q)[k]; x.security.Some? && MayCover(x) && HoldsMember(groups, q, x.security.value)
    {
      if g == Some(q) && k == |RowsFor(st.buckets, q)| {
        assert RowsFor(st'.buckets, q)[k] == r;
      } else {
        assert RowsFor(st'.buckets, q)[k] == RowsFor(st.buckets, q)[k];
      }
    }
  }

  lemma NothingSplit(groups: seq<MemGroup>)
    ensures RightlySplit(groups, Opening(groups))
  {
    NoIntentBuckets();
  }

  /** No close or settlement falls to the rest while a group has a member in its security, and
      every bucketed row is a close, a settlement or a bare trade in a security its group has a
      member in: what falls to the rest and closes is an orphan. */
  lemma {:induction false} RoutedRightly(groups: seq<MemGroup>, cluster: seq<Row>)
    ensures RightlySplit(groups, Route(groups, cluster)) && KeysHeld(groups, Route(groups, cluster).remaining)
  {
    hide RightlySplit, KeysHeld, Belongs, SentTo, RouteRow;
    if cluster == [] {
      NothingSplit(groups);
      OpeningKeysHeld(groups);
    } else {
      var n := |cluster| - 1;
      var front := cluster[..n];
      RoutedRightly(groups, front);
      var g := RowGoesWhereItBelongs(groups, cluster, n);
      assert cluster[..n + 1] == cluster;
      SplitStep(groups, Route(groups, front), Route(groups, cluster), cluster[n], g);
      DrawKeepsKeys(groups, Route(groups, front).remaining, cluster[n]);
      Remains(groups, Route(groups, front), cluster[n]);
    }
  }

  lemma Remains(groups: seq<MemGroup>, st: Routed, r: Row)
    ensures RouteRow(groups, st, r).remaining == AfterDraw(st.remaining, r)
  {
    hide AfterDraw, Target, AddTo;
  }
}
