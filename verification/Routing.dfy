/** Splitting candidates into time clusters, and a cluster into the open groups it closes. */
module Routing {
  import opened Rows
  import opened Ordering
  import opened GroupNet

  /** A stored transaction: its broker content and the linkage columns written beside it.
      orderGroup is the group the joined order carries, set when an order is pre-attributed. */
  datatype Txn = Txn(
    row: Row,
    group: Option<nat>,
    orderGroup: Option<nat>,
    positionId: Option<nat>,
    closedId: Option<nat>)

  function RowsOf(txns: seq<Txn>): seq<Row> {
    seq(|txns|, i requires 0 <= i < |txns| => txns[i].row)
  }

  // ------------------------------------------------------------------- clustering by time

  const GROUP_TOLERANCE: nat := 5 * SECOND

  function IsDated(): Txn -> bool {
    (t: Txn) => t.row.at.Some?
  }

  function IsUndated(): Txn -> bool {
    (t: Txn) => t.row.at.None?
  }

  function TimeKey(t: Txn): Key {
    (t.row.at.GetOr(0), 0)
  }

  function At(t: Txn): nat {
    t.row.at.GetOr(0)
  }

  function Extend(cs: seq<seq<Txn>>, t: Txn): seq<seq<Txn>>
    requires cs != []
  {
    cs[..|cs| - 1] + [cs[|cs| - 1] + [t]]
  }

  function Clusters(dated: seq<Txn>): (cs: seq<seq<Txn>>)
    ensures cs == [] <==> dated == []
    ensures cs != [] ==> cs[|cs| - 1] != [] && cs[|cs| - 1][|cs[|cs| - 1]| - 1] == dated[|dated| - 1]
  {
    if dated == [] then []
    else
      var cs, t := Clusters(dated[..|dated| - 1]), dated[|dated| - 1];
      if cs != [] && At(t) - At(dated[|dated| - 2]) <= GROUP_TOLERANCE then Extend(cs, t) else cs + [[t]]
  }

  function Singletons(txns: seq<Txn>): seq<seq<Txn>> {
    seq(|txns|, i requires 0 <= i < |txns| => [txns[i]])
  }

  function ClustersOf(txns: seq<Txn>): seq<seq<Txn>> {
    Clusters(Sort(Filter(txns, IsDated()), TimeKey)) + Singletons(Filter(txns, IsUndated()))
  }

  method ClusterDated(dated: seq<Txn>) returns (clusters: seq<seq<Txn>>)
    ensures clusters == Clusters(dated)
  {
    clusters := [];
    for i := 0 to |dated|
      invariant clusters == Clusters(dated[..i])
    {
      var t := dated[i];
      assert dated[..i + 1] == dated[..i] + [t];
      ClustersStep(dated[..i], t);
      if clusters != [] {
        var last := clusters[|clusters| - 1];
        if At(t) - At(last[|last| - 1]) <= GROUP_TOLERANCE {
          clusters := Extend(clusters, t);
          continue;
        }
      }
      clusters := clusters + [[t]];
    }
    assert dated[..|dated|] == dated;
  }

  /** Rows within the tolerance of the one before share a cluster; undated rows stand alone. */
  method ClusterByTime(txns: seq<Txn>) returns (clusters: seq<seq<Txn>>)
    ensures clusters == ClustersOf(txns)
  {
    clusters := ClusterDated(Sort(Filter(txns, IsDated()), TimeKey));
    clusters := clusters + Singletons(Filter(txns, IsUndated()));
  }

  function Flatten<T>(xss: seq<seq<T>>): seq<T> {
    if xss == [] then [] else Flatten(xss[..|xss| - 1]) + xss[|xss| - 1]
  }

  lemma FlattenAppend<T>(xss: seq<seq<T>>, xs: seq<T>)
    ensures Flatten(xss + [xs]) == Flatten(xss) + xs
  {
    assert (xss + [xs])[..|xss|] == xss;
  }

  lemma {:induction false} FlattenConcat<T>(xss: seq<seq<T>>, yss: seq<seq<T>>)
    ensures Flatten(xss + yss) == Flatten(xss) + Flatten(yss)
  {
    if yss == [] {
      assert xss + yss == xss;
    } else {
      var front, last := yss[..|yss| - 1], yss[|yss| - 1];
      FlattenConcat(xss, front);
      assert xss + yss == (xss + front) + [last];
      FlattenAppend(xss + front, last);
      assert (Flatten(xss) + Flatten(front)) + last == Flatten(xss) + (Flatten(front) + last);
    }
  }

  lemma FlattenExtend(cs: seq<seq<Txn>>, t: Txn)
    requires cs != []
    ensures Flatten(Extend(cs, t)) == Flatten(cs) + [t]
  {
    FlattenAppend(cs[..|cs| - 1], cs[|cs| - 1] + [t]);
    var front, last := Flatten(cs[..|cs| - 1]), cs[|cs| - 1];
    assert front + (last + [t]) == (front + last) + [t];
  }

  lemma {:induction false} FlattenSingletons(txns: seq<Txn>)
    ensures Flatten(Singletons(txns)) == txns
  {
    if txns != [] {
      var front := txns[..|txns| - 1];
      FlattenSingletons(front);
      assert Singletons(txns) == Singletons(front) + [[txns[|txns| - 1]]];
      FlattenAppend(Singletons(front), [txns[|txns| - 1]]);
    }
  }

  // Inside a cluster consecutive rows are close together.
  ghost predicate Tight(c: seq<Txn>) {
    c != [] && forall j :: 0 < j < |c| ==> At(c[j]) - At(c[j - 1]) <= GROUP_TOLERANCE
  }

  // The later cluster starts too late to join the earlier one.
  ghost predicate Apart(a: seq<Txn>, b: seq<Txn>) {
    a != [] && b != [] && At(b[0]) - At(a[|a| - 1]) > GROUP_TOLERANCE
  }

  ghost predicate WellSpaced(cs: seq<seq<Txn>>) {
    && (forall i :: 0 <= i < |cs| ==> Tight(cs[i]))
    && (forall i :: 0 < i < |cs| ==> Apart(cs[i - 1], cs[i]))
  }

  lemma SpacedExtend(cs: seq<seq<Txn>>, t: Txn)
    requires WellSpaced(cs) && cs != []
    requires At(t) - At(cs[|cs| - 1][|cs[|cs| - 1]| - 1]) <= GROUP_TOLERANCE
    ensures WellSpaced(Extend(cs, t))
  {
    var last, e := cs[|cs| - 1], Extend(cs, t);
    assert Tight(last);
    assert Tight(last + [t]);
    forall i | 0 < i < |e|
      ensures Apart(e[i - 1], e[i])
    {
      assert Apart(cs[i - 1], cs[i]);
    }
  }

  lemma SpacedStart(cs: seq<seq<Txn>>, t: Txn)
    requires WellSpaced(cs)
    requires cs != [] ==> cs[|cs| - 1] != [] && At(t) - At(cs[|cs| - 1][|cs[|cs| - 1]| - 1]) > GROUP_TOLERANCE
    ensures WellSpaced(cs + [[t]])
  {
    assert Tight([t]);
    var e := cs + [[t]];
    forall i | 0 < i < |e|
      ensures Apart(e[i - 1], e[i])
    {
      assert i < |cs| ==> Apart(cs[i - 1], cs[i]);
    }
  }

  lemma {:induction false} ClustersStep(front: seq<Txn>, t: Txn)
    ensures Clusters(front + [t]) ==
            if front != [] && At(t) - At(front[|front| - 1]) <= GROUP_TOLERANCE then Extend(Clusters(front), t)
            else Clusters(front) + [[t]]
  {
    assert (front + [t])[..|front|] == front;
  }

  lemma {:induction false} ClustersWellSpaced(dated: seq<Txn>)
    ensures Flatten(Clusters(dated)) == dated && WellSpaced(Clusters(dated))
  {
    hide Clusters, Flatten, WellSpaced;
    if dated == [] {
      NoClusters();
    } else {
      var front, t := dated[..|dated| - 1], dated[|dated| - 1];
      ClustersWellSpaced(front);
      NextCluster(front, t);
      assert dated == front + [t];
    }
  }

  lemma NoClusters()
    ensures Flatten(Clusters([])) == [] && WellSpaced(Clusters([]))
  {
  }

  lemma NextCluster(front: seq<Txn>, t: Txn)
    requires Flatten(Clusters(front)) == front && WellSpaced(Clusters(front))
    ensures Flatten(Clusters(front + [t])) == front + [t] && WellSpaced(Clusters(front + [t]))
  {
    hide Flatten, WellSpaced;
    var cs := Clusters(front);
    ClustersStep(front, t);
    if cs != [] && At(t) - At(front[|front| - 1]) <= GROUP_TOLERANCE {
      FlattenExtend(cs, t);
      SpacedExtend(cs, t);
    } else {
      FlattenAppend(cs, [t]);
      SpacedStart(cs, t);
    }
  }

  // Undoing one Extend.
  lemma SpacedShorten(cs: seq<seq<Txn>>) returns (shorter: seq<seq<Txn>>)
    requires WellSpaced(cs) && cs != [] && |cs[|cs| - 1]| > 1
    ensures shorter != [] && WellSpaced(shorter)
    ensures cs == Extend(shorter, cs[|cs| - 1][|cs[|cs| - 1]| - 1])
    ensures var last, prev := cs[|cs| - 1], shorter[|shorter| - 1];
            prev != [] && At(last[|last| - 1]) - At(prev[|prev| - 1]) <= GROUP_TOLERANCE
  {
    var front, last := cs[..|cs| - 1], cs[|cs| - 1];
    var n := |last| - 1;
    shorter := front + [last[..n]];
    assert Tight(last);
    assert Tight(last[..n]);
    assert last == last[..n] + [last[n]];
    forall i | 0 < i < |shorter|
      ensures Apart(shorter[i - 1], shorter[i])
    {
      assert Apart(cs[i - 1], cs[i]);
    }
    assert At(last[n]) - At(last[n - 1]) <= GROUP_TOLERANCE;
  }

  lemma LastOfFlatten(cs: seq<seq<Txn>>)
    requires cs != [] && cs[|cs| - 1] != []
    ensures Flatten(cs) != [] && Flatten(cs)[|Flatten(cs)| - 1] == cs[|cs| - 1][|cs[|cs| - 1]| - 1]
  {
  }

  /** Well-spaced cuts of a sequence are unique, so the clusters are the maximal runs. */
  lemma {:induction false} WellSpacedUnique(cs: seq<seq<Txn>>)
    requires WellSpaced(cs)
    ensures Clusters(Flatten(cs)) == cs
    decreases |Flatten(cs)|
  {
    if cs != [] {
      var front, last := cs[..|cs| - 1], cs[|cs| - 1];
      assert Tight(last);
      var t := last[|last| - 1];
      if |last| == 1 {
        assert last == [t] && cs == front + [[t]];
        FlattenAppend(front, [t]);
        WellSpacedUnique(front);
        if front != [] {
          assert Apart(cs[|cs| - 2], cs[|cs| - 1]);
          LastOfFlatten(front);
        }
        ClustersStep(Flatten(front), t);
      } else {
        var shorter := SpacedShorten(cs);
        FlattenExtend(shorter, t);
        WellSpacedUnique(shorter);
        LastOfFlatten(shorter);
        ClustersStep(Flatten(shorter), t);
      }
    }
  }

  lemma {:induction false} DatedAndUndated(txns: seq<Txn>)
    ensures multiset(Filter(txns, IsDated())) + multiset(Filter(txns, IsUndated())) == multiset(txns)
  {
    if txns != [] {
      DatedAndUndated(txns[..|txns| - 1]);
      assert txns == txns[..|txns| - 1] + [txns[|txns| - 1]];
    }
  }

  /** The clusters partition the candidates: in time order, undated ones alone at the end,
      each dated cluster a maximal run of rows at most the tolerance apart. */
  lemma ClustersPartition(txns: seq<Txn>)
    ensures Flatten(ClustersOf(txns)) == Sort(Filter(txns, IsDated()), TimeKey) + Filter(txns, IsUndated())
    ensures multiset(Flatten(ClustersOf(txns))) == multiset(txns)
    ensures WellSpaced(Clusters(Sort(Filter(txns, IsDated()), TimeKey)))
  {
    var dated, undated := Sort(Filter(txns, IsDated()), TimeKey), Filter(txns, IsUndated());
    ClustersWellSpaced(dated);
    FlattenSingletons(undated);
    FlattenConcat(Clusters(dated), Singletons(undated));
    SortMultiset(Filter(txns, IsDated()), TimeKey);
    DatedAndUndated(txns);
  }

  // One cluster ends more than five seconds before the other starts.
  predicate OverFiveSeconds(a: seq<Txn>, b: seq<Txn>) {
    a != [] && b != [] && At(b[0]) - At(a[|a| - 1]) > 5_000_000
  }

  /** In plain figures: the dated rows of a cluster are at most five seconds apart one to the
      next, and the next cluster starts more than five seconds after the last of them. */
  lemma ClustersFiveSeconds(txns: seq<Txn>)
    ensures var cs := Clusters(Sort(Filter(txns, IsDated()), TimeKey));
            && ClustersOf(txns) == cs + Singletons(Filter(txns, IsUndated()))
            && (forall i, j :: 0 <= i < |cs| && 0 < j < |cs[i]| ==> At(cs[i][j]) - At(cs[i][j - 1]) <= 5_000_000)
            && (forall i :: 0 < i < |cs| ==> OverFiveSeconds(cs[i - 1], cs[i]))
  {
    hide Clusters, At;
    var cs := Clusters(Sort(Filter(txns, IsDated()), TimeKey));
    ClustersWellSpaced(Sort(Filter(txns, IsDated()), TimeKey));
    forall i | 0 < i < |cs|
      ensures OverFiveSeconds(cs[i - 1], cs[i])
    {
      assert Apart(cs[i - 1], cs[i]);
    }
  }

  function AtInstant(at: Option<Time>): Txn -> bool {
    (t: Txn) => t.row.at == at
  }

  /** Clusters are taken by time, the undated rows behind all others, and rows of one time as
      they come. */
  lemma ClustersByTime(txns: seq<Txn>)
    ensures var rows := Flatten(ClustersOf(txns));
            && (forall i, j :: 0 <= i < j < |rows| && rows[j].row.at.Some? ==>
                  rows[i].row.at.Some? && rows[i].row.at.value <= rows[j].row.at.value)
            && (forall at :: Filter(rows, AtInstant(at)) == Filter(txns, AtInstant(at)))
  {
    hide Clusters, Flatten, ClustersOf, Singletons, Sort;
    var dated, undated := Filter(txns, IsDated()), Filter(txns, IsUndated());
    var sorted, rows := Sort(dated, TimeKey), Flatten(ClustersOf(txns));
    ClustersPartition(txns);
    SortSorted(dated, TimeKey);
    SortedDated(txns);
    forall i, j | 0 <= i < j < |rows| && rows[j].row.at.Some?
      ensures rows[i].row.at.Some? && rows[i].row.at.value <= rows[j].row.at.value
    {
      if j >= |sorted| {
        FilterMember(txns, undated[j - |sorted|], IsUndated());
      } else {
        assert KeyLe(TimeKey(sorted[i]), TimeKey(sorted[j]));
      }
    }
    forall at
      ensures Filter(rows, AtInstant(at)) == Filter(txns, AtInstant(at))
    {
      OneInstant(txns, at);
      FilterConcat(sorted, undated, AtInstant(at));
    }
  }

  // Among rows of one time all are dated or none is.
  lemma OneInstant(txns: seq<Txn>, at: Option<Time>)
    ensures Filter(Sort(Filter(txns, IsDated()), TimeKey), AtInstant(at)) + Filter(Filter(txns, IsUndated()), AtInstant(at))
         == Filter(txns, AtInstant(at))
  {
    hide Sort;
    var dated, some := Filter(txns, IsDated()), Filter(txns, AtInstant(at));
    FilterSort(dated, TimeKey, AtInstant(at));
    FiltersCommute(txns, IsDated(), AtInstant(at));
    FiltersCommute(txns, IsUndated(), AtInstant(at));
    forall i | 0 <= i < |some|
      ensures some[i].row.at == at
    {
      FilterMember(txns, some[i], AtInstant(at));
    }
    if at.Some? {
      AllSelected(some, IsDated());
      NothingSelected(some, IsUndated());
      SortFixed(some, TimeKey);
    } else {
      NothingSelected(some, IsDated());
      AllSelected(some, IsUndated());
      SortFixed([], TimeKey);
    }
  }

  lemma SortedDated(txns: seq<Txn>)
    ensures forall i :: 0 <= i < |Sort(Filter(txns, IsDated()), TimeKey)| ==> Sort(Filter(txns, IsDated()), TimeKey)[i].row.at.Some?
  {
    hide Sort;
    var dated := Filter(txns, IsDated());
    forall i | 0 <= i < |Sort(dated, TimeKey)|
      ensures Sort(dated, TimeKey)[i].row.at.Some?
    {
      var t := Sort(dated, TimeKey)[i];
      SortMember(dated, t, TimeKey);
      FilterMember(txns, t, IsDated());
    }
  }

  // ---------------------------------------------------------------------- greedy draw-down

  // May a closing row with this delta (None: a settlement without an action) offset the net?
  predicate Eligible(net: real, delta: Option<real>) {
    net != 0.0 && (delta.None? || Opposite(net, delta.value))
  }

  function TakeOf(net: real, left: real, delta: Option<real>): real {
    if Eligible(net, delta) then Min(left, Abs(net)) else 0.0
  }

  function Shrink(net: real, take: real): real {
    if net > 0.0 then net - take else net + take
  }

  // What is still to take after offering the quantity to each net in turn.
  function Left(nets: seq<real>, quantity: real, delta: Option<real>): real {
    if nets == [] then quantity
    else
      var left := Left(nets[..|nets| - 1], quantity, delta);
      left - TakeOf(nets[|nets| - 1], left, delta)
  }

  function DrawnAt(nets: seq<real>, quantity: real, delta: Option<real>, i: nat): real
    requires i < |nets|
  {
    Shrink(nets[i], TakeOf(nets[i], Left(nets[..i], quantity, delta), delta))
  }

  // The nets after drawing the quantity down over them in order.
  function Drawn(nets: seq<real>, quantity: real, delta: Option<real>): seq<real> {
    seq(|nets|, i requires 0 <= i < |nets| => DrawnAt(nets, quantity, delta, i))
  }

  function FirstEligible(nets: seq<real>, delta: Option<real>): Option<nat> {
    if nets == [] then None
    else
      var n := |nets| - 1;
      var first := FirstEligible(nets[..n], delta);
      if first.Some? then first else if Eligible(nets[n], delta) then Some(n) else None
  }

  function EligibleTotal(nets: seq<real>, delta: Option<real>): real {
    if nets == [] then 0.0
    else EligibleTotal(nets[..|nets| - 1], delta) + (if Eligible(nets[|nets| - 1], delta) then Abs(nets[|nets| - 1]) else 0.0)
  }

  function AbsTotal(nets: seq<real>): real {
    if nets == [] then 0.0 else AbsTotal(nets[..|nets| - 1]) + Abs(nets[|nets| - 1])
  }

  lemma DrawnFront(nets: seq<real>, quantity: real, delta: Option<real>)
    requires nets != []
    ensures Drawn(nets, quantity, delta)[..|nets| - 1] == Drawn(nets[..|nets| - 1], quantity, delta)
  {
    var n := |nets| - 1;
    forall i | 0 <= i < n
      ensures DrawnAt(nets, quantity, delta, i) == DrawnAt(nets[..n], quantity, delta, i)
    {
      assert nets[..n][..i] == nets[..i];
    }
  }

  lemma {:induction false} LeftIsTheExcess(nets: seq<real>, quantity: real, delta: Option<real>)
    requires quantity >= 0.0
    ensures EligibleTotal(nets, delta) >= 0.0
    ensures Left(nets, quantity, delta) == quantity - Min(quantity, EligibleTotal(nets, delta))
  {
    if nets != [] {
      LeftIsTheExcess(nets[..|nets| - 1], quantity, delta);
    }
  }

  lemma {:induction false} TakenIsTheDrop(nets: seq<real>, quantity: real, delta: Option<real>)
    requires quantity >= 0.0
    ensures AbsTotal(nets) - AbsTotal(Drawn(nets, quantity, delta)) == quantity - Left(nets, quantity, delta)
  {
    if nets != [] {
      TakenIsTheDrop(nets[..|nets| - 1], quantity, delta);
      DrawnFront(nets, quantity, delta);
      LeftIsTheExcess(nets[..|nets| - 1], quantity, delta);
    }
  }

  /** A draw-down takes exactly the smaller of the quantity and what the eligible nets hold. */
  lemma DrawnExactly(nets: seq<real>, quantity: real, delta: Option<real>)
    requires quantity >= 0.0
    ensures AbsTotal(nets) - AbsTotal(Drawn(nets, quantity, delta)) == Min(quantity, EligibleTotal(nets, delta))
  {
    LeftIsTheExcess(nets, quantity, delta);
    TakenIsTheDrop(nets, quantity, delta);
  }

  /** It carries no net through zero, leaves ineligible nets alone, and passes a net by only
      when it is used up or the quantity is. */
  lemma DrawnWithinNet(nets: seq<real>, quantity: real, delta: Option<real>, i: nat)
    requires quantity >= 0.0 && i < |nets|
    ensures var after := Drawn(nets, quantity, delta)[i];
            && (if nets[i] > 0.0 then 0.0 <= after <= nets[i] else nets[i] <= after <= 0.0)
            && (!Eligible(nets[i], delta) ==> after == nets[i])
            && (Eligible(nets[i], delta) ==> after == 0.0 || quantity <= EligibleTotal(nets[..i + 1], delta))
  {
    LeftIsTheExcess(nets[..i], quantity, delta);
    LeftIsTheExcess(nets[..i + 1], quantity, delta);
    assert nets[..i + 1][..i] == nets[..i];
  }

  /** So at the end nothing is left to take, or nothing eligible is left. */
  lemma {:induction false} DrawnToTheEnd(nets: seq<real>, quantity: real, delta: Option<real>)
    requires quantity >= 0.0
    ensures Left(nets, quantity, delta) == 0.0 || EligibleTotal(Drawn(nets, quantity, delta), delta) == 0.0
  {
    if nets != [] {
      DrawnToTheEnd(nets[..|nets| - 1], quantity, delta);
      DrawnFront(nets, quantity, delta);
      LeftIsTheExcess(nets[..|nets| - 1], quantity, delta);
    }
  }

  lemma {:induction false} FirstEligibleIsFirst(nets: seq<real>, delta: Option<real>)
    ensures var first := FirstEligible(nets, delta);
            && (first.None? <==> forall i :: 0 <= i < |nets| ==> !Eligible(nets[i], delta))
            && (first.Some? ==> first.value < |nets| && Eligible(nets[first.value], delta)
                                && forall i :: 0 <= i < first.value ==> !Eligible(nets[i], delta))
  {
    if nets != [] {
      FirstEligibleIsFirst(nets[..|nets| - 1], delta);
    }
  }

  lemma {:induction false} NothingTakenBefore(nets: seq<real>, quantity: real, delta: Option<real>)
    requires forall i :: 0 <= i < |nets| ==> !Eligible(nets[i], delta)
    ensures Left(nets, quantity, delta) == quantity
  {
    if nets != [] {
      NothingTakenBefore(nets[..|nets| - 1], quantity, delta);
    }
  }

  // The first eligible net is reduced by as much of the quantity as it can take.
  lemma FirstTakesMost(nets: seq<real>, quantity: real, delta: Option<real>)
    requires FirstEligible(nets, delta).Some?
    ensures var first := FirstEligible(nets, delta).value;
            first < |nets| && Drawn(nets, quantity, delta)[first] == Shrink(nets[first], Min(quantity, Abs(nets[first])))
  {
    FirstEligibleIsFirst(nets, delta);
    NothingTakenBefore(nets[..FirstEligible(nets, delta).value], quantity, delta);
  }

  lemma {:induction false} FirstEligibleKeeps(nets: seq<real>, delta: Option<real>, g: nat)
    requires g <= |nets| && FirstEligible(nets[..g], delta).Some?
    ensures FirstEligible(nets, delta) == FirstEligible(nets[..g], delta)
  {
    FirstEligibleIsFirst(nets, delta);
    FirstEligibleIsFirst(nets[..g], delta);
  }

  lemma {:induction false} NothingLeft(nets: seq<real>, quantity: real, delta: Option<real>, g: nat, i: nat)
    requires g <= i < |nets| && Left(nets[..g], quantity, delta) == 0.0
    ensures Left(nets[..i], quantity, delta) == 0.0 && DrawnAt(nets, quantity, delta, i) == nets[i]
  {
    if g < i {
      NothingLeft(nets, quantity, delta, g, i - 1);
      assert nets[..i][..i - 1] == nets[..i - 1];
    }
  }

  // ------------------------------------------------------------------- routing a cluster

  datatype MemGroup = MemGroup(pk: nat, rows: seq<Row>)

  datatype Bucket = Bucket(group: nat, rows: seq<Row>)

  type Nets = map<SecurityId, real>

  datatype Routed = Routed(remaining: seq<Nets>, buckets: seq<Bucket>, rest: seq<Row>)

  function NetsIn(remaining: seq<Nets>, s: SecurityId): seq<real> {
    seq(|remaining|, i requires 0 <= i < |remaining| => Lookup(remaining[i], s).GetOr(0.0))
  }

  // A group that never held the security gains no entry.
  function WriteBack(net: Nets, s: SecurityId, value: real): Nets {
    if s in net then net[s := value] else net
  }

  function DrawnNets(remaining: seq<Nets>, s: SecurityId, quantity: real, delta: Option<real>): seq<Nets> {
    var nets := NetsIn(remaining, s);
    seq(|remaining|, i requires 0 <= i < |remaining| => WriteBack(remaining[i], s, DrawnAt(nets, quantity, delta, i)))
  }

  function Opening(groups: seq<MemGroup>): Routed {
    Routed(seq(|groups|, i requires 0 <= i < |groups| => NetQuantities(groups[i].rows)), [], [])
  }

  predicate Touches(rows: seq<Row>, s: SecurityId) {
    exists r :: r in rows && r.security == Some(s)
  }

  function FirstMember(groups: seq<MemGroup>, s: SecurityId): Option<nat> {
    if groups == [] then None
    else if Touches(groups[0].rows, s) then Some(0)
    else
      var rest := FirstMember(groups[1..], s);
      if rest.Some? then Some(rest.value + 1) else None
  }

  // The delta a closing row must offset; a settlement without an action offsets either side.
  function OffsetOf(r: Row): Option<real> {
    if IsClosing(r) && r.action.NoAction? then None else Some(ActionDelta(r))
  }

  predicate Draws(r: Row) {
    r.security.Some? && (IsClosing(r) || IsBare(r.action))
  }

  function Target(groups: seq<MemGroup>, remaining: seq<Nets>, r: Row): Option<nat> {
    if !Draws(r) then None
    else
      var first := FirstEligible(NetsIn(remaining, r.security.value), OffsetOf(r));
      if first.Some? || !IsClosing(r) then first else FirstMember(groups, r.security.value)
  }

  function AfterDraw(remaining: seq<Nets>, r: Row): seq<Nets> {
    if !Draws(r) then remaining
    else DrawnNets(remaining, r.security.value, Abs(r.quantity.GetOr(0.0)), OffsetOf(r))
  }

  function BucketOf(buckets: seq<Bucket>, g: nat): (i: Option<nat>)
    ensures i.Some? ==> i.value < |buckets| && buckets[i.value].group == g
    ensures i.None? ==> forall k :: 0 <= k < |buckets| ==> buckets[k].group != g
  {
    if buckets == [] then None
    else if buckets[|buckets| - 1].group == g then Some(|buckets| - 1)
    else BucketOf(buckets[..|buckets| - 1], g)
  }

  function AddTo(buckets: seq<Bucket>, g: nat, r: Row): seq<Bucket> {
    var i := BucketOf(buckets, g);
    if i.Some? then buckets[i.value := Bucket(g, buckets[i.value].rows + [r])] else buckets + [Bucket(g, [r])]
  }

  function RouteRow(groups: seq<MemGroup>, st: Routed, r: Row): Routed {
    var g := Target(groups, st.remaining, r);
    if g.None? then Routed(AfterDraw(st.remaining, r), st.buckets, st.rest + [r])
    else Routed(AfterDraw(st.remaining, r), AddTo(st.buckets, g.value, r), st.rest)
  }

  function Route(groups: seq<MemGroup>, cluster: seq<Row>): Routed {
    if cluster == [] then Opening(groups)
    else RouteRow(groups, Route(groups, cluster[..|cluster| - 1]), cluster[|cluster| - 1])
  }

  lemma DrawStep(nets: seq<real>, quantity: real, delta: Option<real>, g: nat)
    requires g < |nets|
    ensures Left(nets[..g + 1], quantity, delta)
         == Left(nets[..g], quantity, delta) - TakeOf(nets[g], Left(nets[..g], quantity, delta), delta)
    ensures FirstEligible(nets[..g + 1], delta) ==
            if FirstEligible(nets[..g], delta).Some? then FirstEligible(nets[..g], delta)
            else if Eligible(nets[g], delta) then Some(g) else None
  {
    assert nets[..g + 1][..g] == nets[..g];
  }

  // Once nothing is left, the remaining groups keep what they have.
  lemma RestUntouched(was: seq<Nets>, s: SecurityId, quantity: real, delta: Option<real>, g: nat)
    requires g <= |was| && Left(NetsIn(was, s)[..g], quantity, delta) == 0.0
    ensures forall i :: g <= i < |was| ==> DrawnNets(was, s, quantity, delta)[i] == was[i]
  {
    var nets := NetsIn(was, s);
    forall i | g <= i < |was|
      ensures DrawnNets(was, s, quantity, delta)[i] == was[i]
    {
      NothingLeft(nets, quantity, delta, g, i);
    }
  }

  /** Consumes a closing row against every group it offsets, in order, in place; returns the
      first one. */
  method DrawDown(remaining: array<Nets>, s: SecurityId, quantity: real, delta: Option<real>)
    returns (first: Option<nat>)
    modifies remaining
    ensures first == FirstEligible(old(NetsIn(remaining[..], s)), delta)
    ensures remaining[..] == DrawnNets(old(remaining[..]), s, Abs(quantity), delta)
  {
    hide Left, FirstEligible;
    ghost var was := remaining[..];
    ghost var nets := NetsIn(was, s);
    ghost var target := DrawnNets(was, s, Abs(quantity), delta);
    var left, g := Abs(quantity), 0;
    first := None;
    DrawStart(nets, Abs(quantity), delta);
    while g < remaining.Length
      invariant 0 <= g <= remaining.Length
      invariant left == Left(nets[..g], Abs(quantity), delta) >= 0.0
      invariant forall i :: 0 <= i < g ==> remaining[i] == target[i]
      invariant forall i :: g <= i < remaining.Length ==> remaining[i] == was[i]
      invariant first == FirstEligible(nets[..g], delta)
    {
      DrawStep(nets, Abs(quantity), delta, g);
      var net := Lookup(remaining[g], s);
      assert nets[g] == net.GetOr(0.0);
      assert target[g] == WriteBack(was[g], s, Shrink(nets[g], TakeOf(nets[g], left, delta)));
      if net.None? || net.value == 0.0 || (delta.Some? && !Opposite(net.value, delta.value)) {
        g := g + 1;
        continue;
      }
      var take := Min(left, Abs(net.value));
      remaining[g] := remaining[g][s := if net.value > 0.0 then net.value - take else net.value + take];
      if first.None? {
        first := Some(g);
      }
      left := left - take;
      g := g + 1;
      if left <= 0.0 {
        break;
      }
    }
    if g < remaining.Length {
      FirstEligibleKeeps(nets, delta, g);
      RestUntouched(was, s, Abs(quantity), delta, g);
    }
    assert nets[..remaining.Length] == nets;
  }

  lemma DrawStart(nets: seq<real>, quantity: real, delta: Option<real>)
    ensures Left(nets[..0], quantity, delta) == quantity && FirstEligible(nets[..0], delta) == None
  {
  }

  /** Splits a cluster into per-group closing buckets and the rest, which opens a new group. */
  method RouteCluster(groups: seq<MemGroup>, cluster: seq<Row>) returns (buckets: seq<Bucket>, rest: seq<Row>)
    ensures buckets == Route(groups, cluster).buckets && rest == Route(groups, cluster).rest
  {
    hide DrawnNets, NetQuantities;
    var remaining := new Nets[|groups|](i requires 0 <= i < |groups| => NetQuantities(groups[i].rows));
    buckets, rest := [], [];
    assert remaining[..] == Opening(groups).remaining;
    for i := 0 to |cluster|
      invariant Routed(remaining[..], buckets, rest) == Route(groups, cluster[..i])
    {
      var row := cluster[i];
      assert cluster[..i + 1][..i] == cluster[..i];
      var group := None;
      if row.security.Some? {
        var s := row.security.value;
        if IsClosing(row) {
          var delta := if row.action.NoAction? then None else Some(ActionDelta(row));
          group := DrawDown(remaining, s, row.quantity.GetOr(0.0), delta);
          if group.None? {
            group := FirstMember(groups, s);
          }
        } else if IsBare(row.action) {
          group := DrawDown(remaining, s, row.quantity.GetOr(0.0), Some(ActionDelta(row)));
        }
      }
      if group.None? {
        rest := rest + [row];
        continue;
      }
      buckets := AddTo(buckets, group.value, row);
    }
    assert cluster[..|cluster|] == cluster;
  }

  // ------------------------------------------------------------- what routing guarantees

  function BucketLists(buckets: seq<Bucket>): seq<seq<Row>> {
    seq(|buckets|, i requires 0 <= i < |buckets| => buckets[i].rows)
  }

  function BucketRows(buckets: seq<Bucket>): seq<Row> {
    Flatten(BucketLists(buckets))
  }

  // One bucket per group, never empty, holding only rows that can close.
  ghost predicate ValidBuckets(buckets: seq<Bucket>, n: nat) {
    && (forall i :: 0 <= i < |buckets| ==> buckets[i].group < n && buckets[i].rows != [])
    && (forall i, j :: 0 <= i < j < |buckets| ==> buckets[i].group != buckets[j].group)
    && (forall i, k :: 0 <= i < |buckets| && 0 <= k < |buckets[i].rows| ==> Draws(buckets[i].rows[k]))
  }

  lemma {:induction false} FlattenGrow<T>(xss: seq<seq<T>>, i: nat, x: T)
    requires i < |xss|
    ensures multiset(Flatten(xss[i := xss[i] + [x]])) == multiset(Flatten(xss)) + multiset{x}
  {
    var n := |xss| - 1;
    var grown := xss[i := xss[i] + [x]];
    if i < n {
      FlattenGrow(xss[..n], i, x);
      assert grown[..n] == xss[..n][i := xss[i] + [x]];
      assert grown[n] == xss[n];
    } else {
      assert grown[..n] == xss[..n];
      assert grown[n] == xss[n] + [x];
    }
  }

  lemma AddToKeepsRows(buckets: seq<Bucket>, g: nat, r: Row)
    ensures multiset(BucketRows(AddTo(buckets, g, r))) == multiset(BucketRows(buckets)) + multiset{r}
  {
    var i, lists := BucketOf(buckets, g), BucketLists(buckets);
    if i.Some? {
      FlattenGrow(lists, i.value, r);
      assert BucketLists(AddTo(buckets, g, r)) == lists[i.value := lists[i.value] + [r]];
    } else {
      FlattenAppend(lists, [r]);
      assert BucketLists(AddTo(buckets, g, r)) == lists + [[r]];
    }
  }

  lemma AddToKeepsValid(buckets: seq<Bucket>, g: nat, r: Row, n: nat)
    requires ValidBuckets(buckets, n) && g < n && Draws(r)
    ensures ValidBuckets(AddTo(buckets, g, r), n)
  {
    hide Draws;
  }

  lemma {:induction false} FirstMemberHolds(groups: seq<MemGroup>, s: SecurityId)
    ensures var f := FirstMember(groups, s);
            f.Some? ==> f.value < |groups| && Touches(groups[f.value].rows, s)
  {
    if groups != [] {
      FirstMemberHolds(groups[1..], s);
    }
  }

  lemma TargetInRange(groups: seq<MemGroup>, remaining: seq<Nets>, r: Row)
    requires |remaining| == |groups|
    ensures Target(groups, remaining, r).Some? ==> Target(groups, remaining, r).value < |groups| && Draws(r)
  {
    if r.security.Some? {
      FirstEligibleIsFirst(NetsIn(remaining, r.security.value), OffsetOf(r));
      FirstMemberHolds(groups, r.security.value);
    }
  }

  lemma NoBuckets(n: nat)
    ensures ValidBuckets([], n) && BucketRows([]) == []
  {
  }

  lemma AfterDrawLength(remaining: seq<Nets>, r: Row)
    ensures |AfterDraw(remaining, r)| == |remaining|
  {
  }

  lemma MultisetSnoc<T>(s: seq<T>, x: T)
    ensures multiset(s + [x]) == multiset(s) + multiset{x}
  {
  }

  /** Every row of a cluster lands in exactly one bucket or in the rest; buckets name distinct
      open groups; and every row that opens something is in the rest. */
  lemma {:induction false} RoutePartitions(groups: seq<MemGroup>, cluster: seq<Row>)
    ensures var routed := Route(groups, cluster);
            && |routed.remaining| == |groups|
            && ValidBuckets(routed.buckets, |groups|)
            && multiset(BucketRows(routed.buckets)) + multiset(routed.rest) == multiset(cluster)
  {
    hide Draws, NetQuantities, DrawnNets, Target, AddTo, BucketRows, ValidBuckets;
    NoBuckets(|groups|);
    if cluster != [] {
      var front, r := cluster[..|cluster| - 1], cluster[|cluster| - 1];
      RoutePartitions(groups, front);
      var st := Route(groups, front);
      TargetInRange(groups, st.remaining, r);
      AfterDrawLength(st.remaining, r);
      var g := Target(groups, st.remaining, r);
      if g.Some? {
        AddToKeepsValid(st.buckets, g.value, r, |groups|);
        AddToKeepsRows(st.buckets, g.value, r);
      } else {
        MultisetSnoc(st.rest, r);
      }
      assert cluster == front + [r];
      MultisetSnoc(front, r);
    }
  }

  lemma NonZeroNet(net: real, delta: Option<real>)
    requires Eligible(net, delta)
    ensures net != 0.0
  {
  }

  lemma StepMatchesShrink(net: real, r: Row)
    requires Draws(r) && r.quantity.Some? && !r.kind.MoneyMovement? && Eligible(net, OffsetOf(r))
    ensures GroupNetStep(net, r) == Some(Shrink(net, Min(Abs(r.quantity.value), Abs(net))))
  {
  }

  /** The group a row is drawn against first ends, once the row is attached to it, with
      exactly the net the draw-down left it. */
  lemma ChosenGroupMatchesDraw(groups: seq<MemGroup>, r: Row, s: SecurityId, g: nat)
    requires Draws(r) && r.security == Some(s) && r.quantity.Some? && !r.kind.MoneyMovement?
    requires FirstEligible(NetsIn(Opening(groups).remaining, s), OffsetOf(r)) == Some(g)
    requires g < |groups|
    requires forall x :: x in groups[g].rows && OnSecurity(s)(x) ==> KeyLe(GroupKey(x), GroupKey(r))
    ensures Target(groups, Opening(groups).remaining, r) == Some(g)
    ensures |AfterDraw(Opening(groups).remaining, r)| == |groups|
    ensures Lookup(NetQuantities(groups[g].rows + [r]), s) == Lookup(AfterDraw(Opening(groups).remaining, r)[g], s)
  {
    hide NetQuantities, GroupNetStep, FirstEligible, Eligible, Left;
    var remaining := Opening(groups).remaining;
    var nets, delta := NetsIn(remaining, s), OffsetOf(r);
    FirstEligibleIsFirst(nets, delta);
    FirstTakesMost(nets, Abs(r.quantity.value), delta);
    NonZeroNet(nets[g], delta);
    StepMatchesShrink(nets[g], r);
    assert remaining[g] == NetQuantities(groups[g].rows);
    assert DrawnNets(remaining, s, Abs(r.quantity.value), delta)[g]
        == WriteBack(remaining[g], s, Drawn(nets, Abs(r.quantity.value), delta)[g]);
    NetAfterLatest(groups[g].rows, r, s);
  }
}
