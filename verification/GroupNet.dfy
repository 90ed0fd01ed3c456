/** A trade group's own net per security: the clamped walk reconcile reasons with. */
module GroupNet {
  import opened Rows
  import opened Ordering

  predicate IsClosing(r: Row) {
    IsClosingVerb(r.action) || IsSettlement(r)
  }

  // Signed position delta of a trade-like row: buys +, sells -.
  function ActionDelta(r: Row): real {
    if Sells(r.action) then -Abs(r.quantity.GetOr(0.0)) else Abs(r.quantity.GetOr(0.0))
  }

  // Toward zero by at most what is held.
  function Toward(current: real, quantity: real): real {
    var q := Min(Abs(quantity), Abs(current));
    if current > 0.0 then current - q else current + q
  }

  // Does the row act as a close against the running net?
  predicate ActsAsClose(current: real, r: Row) {
    IsClosingVerb(r.action) || (IsBare(r.action) && Opposite(current, ActionDelta(r)))
  }

  // The running net after r, or None when r does not move it.
  function GroupNetStep(current: real, r: Row): Option<real>
    requires r.quantity.Some?
  {
    if r.kind.MoneyMovement? then None
    else if IsSettlement(r) then
      if current == 0.0 then None else Some(Toward(current, r.quantity.value))
    else if r.action.NoAction? then None
    else if !ActsAsClose(current, r) then Some(current + ActionDelta(r))
    else if current == 0.0 then None
    else Some(Toward(current, ActionDelta(r)))
  }

  predicate IsPositionRow(r: Row) {
    r.security.Some? && r.quantity.Some?
  }

  function OnPosition(): Row -> bool {
    (r: Row) => IsPositionRow(r)
  }

  function OnSecurity(security: SecurityId): Row -> bool {
    (r: Row) => IsPositionRow(r) && r.security == Some(security)
  }

  // Undated rows go last; ties keep their order.
  function GroupKey(r: Row): Key {
    (if r.at.None? then 1 else 0, r.at.GetOr(0))
  }

  function OrderedPositionRows(rows: seq<Row>): seq<Row> {
    Sort(Filter(rows, OnPosition()), GroupKey)
  }

  predicate Positional(rows: seq<Row>) {
    forall i :: 0 <= i < |rows| ==> IsPositionRow(rows[i])
  }

  lemma OrderedPositional(rows: seq<Row>)
    ensures Positional(OrderedPositionRows(rows))
  {
    var ordered := OrderedPositionRows(rows);
    forall i | 0 <= i < |ordered|
      ensures IsPositionRow(ordered[i])
    {
      SortMember(Filter(rows, OnPosition()), ordered[i], GroupKey);
      FilterMember(rows, ordered[i], OnPosition());
    }
  }

  // --------------------------------------------------------------------- net per security

  function Lookup(net: map<SecurityId, real>, s: SecurityId): Option<real> {
    if s in net then Some(net[s]) else None
  }

  function NetWalk(ordered: seq<Row>): map<SecurityId, real>
    requires Positional(ordered)
  {
    if ordered == [] then map[]
    else
      var net, r := NetWalk(ordered[..|ordered| - 1]), ordered[|ordered| - 1];
      var stepped := GroupNetStep(Lookup(net, r.security.value).GetOr(0.0), r);
      if stepped.Some? then net[r.security.value := stepped.value] else net
  }

  function NetQuantities(rows: seq<Row>): map<SecurityId, real> {
    OrderedPositional(rows);
    NetWalk(OrderedPositionRows(rows))
  }

  method ComputeNetQuantities(rows: seq<Row>) returns (net: map<SecurityId, real>)
    ensures net == NetQuantities(rows)
  {
    OrderedPositional(rows);
    var ordered := OrderedPositionRows(rows);
    net := map[];
    for i := 0 to |ordered|
      invariant net == NetWalk(ordered[..i])
    {
      var r := ordered[i];
      assert ordered[..i + 1][..i] == ordered[..i];
      var stepped := GroupNetStep(Lookup(net, r.security.value).GetOr(0.0), r);
      if stepped.Some? {
        net := net[r.security.value := stepped.value];
      }
    }
    assert ordered[..|ordered|] == ordered;
  }

  // Peak |running net| per security, walked with the same step.
  function PeakWalk(ordered: seq<Row>): map<SecurityId, real>
    requires Positional(ordered)
  {
    if ordered == [] then map[]
    else
      var front, r := ordered[..|ordered| - 1], ordered[|ordered| - 1];
      var peak := PeakWalk(front);
      var stepped := GroupNetStep(Lookup(NetWalk(front), r.security.value).GetOr(0.0), r);
      if stepped.None? then peak
      else peak[r.security.value := Max(Lookup(peak, r.security.value).GetOr(0.0), Abs(stepped.value))]
  }

  function PeakExposures(rows: seq<Row>): map<SecurityId, real> {
    OrderedPositional(rows);
    PeakWalk(OrderedPositionRows(rows))
  }

  method ComputePeakExposures(rows: seq<Row>) returns (peak: map<SecurityId, real>)
    ensures peak == PeakExposures(rows)
  {
    OrderedPositional(rows);
    var ordered := OrderedPositionRows(rows);
    var net: map<SecurityId, real> := map[];
    peak := map[];
    for i := 0 to |ordered|
      invariant net == NetWalk(ordered[..i]) && peak == PeakWalk(ordered[..i])
    {
      var r := ordered[i];
      assert ordered[..i + 1][..i] == ordered[..i];
      var stepped := GroupNetStep(Lookup(net, r.security.value).GetOr(0.0), r);
      if stepped.None? {
        continue;
      }
      net := net[r.security.value := stepped.value];
      peak := peak[r.security.value := Max(Lookup(peak, r.security.value).GetOr(0.0), Abs(stepped.value))];
    }
    assert ordered[..|ordered|] == ordered;
  }

  // The same walk over one security's rows alone.
  function Walk(ordered: seq<Row>): Option<real>
    requires Positional(ordered)
  {
    if ordered == [] then None
    else
      var before, r := Walk(ordered[..|ordered| - 1]), ordered[|ordered| - 1];
      var stepped := GroupNetStep(before.GetOr(0.0), r);
      if stepped.Some? then stepped else before
  }

  function SecurityRows(rows: seq<Row>, s: SecurityId): seq<Row> {
    Sort(Filter(rows, OnSecurity(s)), GroupKey)
  }

  lemma SecurityRowsPositional(rows: seq<Row>, s: SecurityId)
    ensures Positional(SecurityRows(rows, s)) && Positional(Filter(rows, OnSecurity(s)))
  {
    var mine, ordered := Filter(rows, OnSecurity(s)), SecurityRows(rows, s);
    forall i | 0 <= i < |mine|
      ensures IsPositionRow(mine[i])
    {
      FilterMember(rows, mine[i], OnSecurity(s));
    }
    forall i | 0 <= i < |ordered|
      ensures IsPositionRow(ordered[i])
    {
      SortMember(mine, ordered[i], GroupKey);
      FilterMember(rows, ordered[i], OnSecurity(s));
    }
  }

  lemma {:induction false} WalkPerSecurity(ordered: seq<Row>, s: SecurityId)
    requires Positional(ordered)
    ensures Positional(Filter(ordered, OnSecurity(s)))
    ensures Lookup(NetWalk(ordered), s) == Walk(Filter(ordered, OnSecurity(s)))
  {
    SecurityRowsPositional(ordered, s);
    if ordered != [] {
      var front, r := ordered[..|ordered| - 1], ordered[|ordered| - 1];
      WalkPerSecurity(front, s);
      if OnSecurity(s)(r) {
        assert Filter(ordered, OnSecurity(s)) == Filter(front, OnSecurity(s)) + [r];
        assert Filter(ordered, OnSecurity(s))[..|Filter(front, OnSecurity(s))|] == Filter(front, OnSecurity(s));
      }
    }
  }

  lemma {:induction false} FilterTwice(rows: seq<Row>, s: SecurityId)
    ensures Filter(Filter(rows, OnPosition()), OnSecurity(s)) == Filter(rows, OnSecurity(s))
  {
    if rows != [] {
      FilterTwice(rows[..|rows| - 1], s);
      FilterAppend(Filter(rows[..|rows| - 1], OnPosition()), rows[|rows| - 1], OnSecurity(s));
    }
  }

  /** A security's net depends on that security's rows alone. */
  lemma NetOfSecurity(rows: seq<Row>, s: SecurityId)
    ensures Positional(SecurityRows(rows, s))
    ensures Lookup(NetQuantities(rows), s) == Walk(SecurityRows(rows, s))
  {
    OrderedPositional(rows);
    WalkPerSecurity(OrderedPositionRows(rows), s);
    FilterSort(Filter(rows, OnPosition()), GroupKey, OnSecurity(s));
    FilterTwice(rows, s);
  }

  // No two position rows of one security share an execution time.
  ghost predicate DistinctTimes(rows: seq<Row>) {
    forall s: SecurityId :: DistinctKeys(Filter(rows, OnSecurity(s)), GroupKey)
  }

  lemma MapsEqual(a: map<SecurityId, real>, b: map<SecurityId, real>)
    requires forall s: SecurityId :: Lookup(a, s) == Lookup(b, s)
    ensures a == b
  {
    forall s: SecurityId
      ensures s in a <==> s in b
      ensures s in a ==> a[s] == b[s]
    {
      assert Lookup(a, s) == Lookup(b, s);
    }
  }

  /** With distinct times a group's net does not depend on the order its rows are held in. */
  lemma NetOrderIndependent(rows: seq<Row>, other: seq<Row>)
    requires multiset(rows) == multiset(other) && DistinctTimes(rows)
    ensures NetQuantities(rows) == NetQuantities(other)
  {
    forall s: SecurityId
      ensures Lookup(NetQuantities(rows), s) == Lookup(NetQuantities(other), s)
    {
      NetOfSecurity(rows, s);
      NetOfSecurity(other, s);
      FilterMultiset(rows, other, OnSecurity(s));
      SortOrderIndependent(Filter(rows, OnSecurity(s)), Filter(other, OnSecurity(s)), GroupKey);
    }
    MapsEqual(NetQuantities(rows), NetQuantities(other));
  }

  /** A row no earlier than its security's other rows is applied last. */
  lemma NetAfterLatest(rows: seq<Row>, r: Row, s: SecurityId)
    requires IsPositionRow(r) && r.security == Some(s)
    requires forall x :: x in rows && OnSecurity(s)(x) ==> KeyLe(GroupKey(x), GroupKey(r))
    ensures var before := Lookup(NetQuantities(rows), s);
            var stepped := GroupNetStep(before.GetOr(0.0), r);
            Lookup(NetQuantities(rows + [r]), s) == if stepped.Some? then stepped else before
  {
    NetOfSecurity(rows, s);
    NetOfSecurity(rows + [r], s);
    FilterAppend(rows, r, OnSecurity(s));
    forall x | x in Filter(rows, OnSecurity(s))
      ensures KeyLe(GroupKey(x), GroupKey(r))
    {
      FilterMember(rows, x, OnSecurity(s));
    }
    SortAppendLast(Filter(rows, OnSecurity(s)), r, GroupKey);
    assert SecurityRows(rows + [r], s) == SecurityRows(rows, s) + [r];
    assert (SecurityRows(rows, s) + [r])[..|SecurityRows(rows, s)|] == SecurityRows(rows, s);
  }

  // A row of another security changes nothing here.
  lemma NetOfOtherSecurity(rows: seq<Row>, r: Row, s: SecurityId)
    requires !OnSecurity(s)(r)
    ensures Lookup(NetQuantities(rows + [r]), s) == Lookup(NetQuantities(rows), s)
  {
    NetOfSecurity(rows, s);
    NetOfSecurity(rows + [r], s);
    FilterAppend(rows, r, OnSecurity(s));
  }

  /** A close clamps: it leaves the net between where it was and zero. */
  lemma CloseClamps(current: real, r: Row)
    requires r.quantity.Some? && (IsSettlement(r) || ActsAsClose(current, r))
    ensures var after := GroupNetStep(current, r).GetOr(current);
            if current > 0.0 then 0.0 <= after <= current else current <= after <= 0.0
  {
  }

  // --------------------------------------------------------------------- peaks and closes

  lemma {:induction false} PeakWalkBounds(ordered: seq<Row>)
    requires Positional(ordered)
    ensures PeakWalk(ordered).Keys == NetWalk(ordered).Keys
    ensures forall s :: s in NetWalk(ordered) ==> Abs(NetWalk(ordered)[s]) <= PeakWalk(ordered)[s]
  {
    if ordered != [] {
      PeakWalkBounds(ordered[..|ordered| - 1]);
    }
  }

  lemma {:induction false} PeakNeverFalls(ordered: seq<Row>, k: nat)
    requires Positional(ordered) && k <= |ordered|
    ensures forall s :: s in PeakWalk(ordered[..k]) ==>
              s in PeakWalk(ordered) && PeakWalk(ordered[..k])[s] <= PeakWalk(ordered)[s]
  {
    if k == |ordered| {
      assert ordered[..k] == ordered;
    } else {
      var front := ordered[..|ordered| - 1];
      PeakNeverFalls(front, k);
      assert front[..k] == ordered[..k];
    }
  }

  lemma {:induction false} PeakAttained(ordered: seq<Row>, s: SecurityId) returns (k: nat)
    requires Positional(ordered) && s in PeakWalk(ordered)
    ensures k <= |ordered| && s in NetWalk(ordered[..k]) && Abs(NetWalk(ordered[..k])[s]) == PeakWalk(ordered)[s]
  {
    var front, r := ordered[..|ordered| - 1], ordered[|ordered| - 1];
    PeakWalkBounds(front);
    assert ordered[..|ordered|] == ordered;
    if s in PeakWalk(front) && PeakWalk(front)[s] == PeakWalk(ordered)[s] {
      k := PeakAttained(front, s);
      assert front[..k] == ordered[..k];
    } else {
      k := |ordered|;
    }
  }

  /** The peak is the largest |net| the walk passes through: it bounds every one of them and
      one of them reaches it; and it covers the very securities the net covers. */
  lemma PeakIsLargestNet(rows: seq<Row>, s: SecurityId, k: nat)
    requires k <= |OrderedPositionRows(rows)|
    ensures PeakExposures(rows).Keys == NetQuantities(rows).Keys
    ensures Positional(OrderedPositionRows(rows)[..k])
    ensures s in NetWalk(OrderedPositionRows(rows)[..k]) ==>
              s in PeakExposures(rows) && Abs(NetWalk(OrderedPositionRows(rows)[..k])[s]) <= PeakExposures(rows)[s]
    ensures s in PeakExposures(rows) ==>
              exists j | 0 <= j <= |OrderedPositionRows(rows)| ::
                Positional(OrderedPositionRows(rows)[..j]) && s in NetWalk(OrderedPositionRows(rows)[..j])
                && Abs(NetWalk(OrderedPositionRows(rows)[..j])[s]) == PeakExposures(rows)[s]
  {
    OrderedPositional(rows);
    var ordered := OrderedPositionRows(rows);
    PeakWalkBounds(ordered);
    PeakWalkBounds(ordered[..k]);
    PeakNeverFalls(ordered, k);
    if s in PeakExposures(rows) {
      var j := PeakAttained(ordered, s);
      assert Positional(ordered[..j]);
    }
  }

  lemma {:induction false} ClosesNetToNothing(ordered: seq<Row>)
    requires Positional(ordered) && forall r :: r in ordered ==> IsClosing(r)
    ensures NetWalk(ordered) == map[]
  {
    if ordered != [] {
      ClosesNetToNothing(ordered[..|ordered| - 1]);
      assert IsClosing(ordered[|ordered| - 1]);
    }
  }

  /** Closes alone never build a net, in any order. */
  lemma OnlyClosesNetEmpty(rows: seq<Row>)
    requires forall r :: r in OrderedPositionRows(rows) ==> IsClosing(r)
    ensures NetQuantities(rows) == map[]
  {
    OrderedPositional(rows);
    ClosesNetToNothing(OrderedPositionRows(rows));
  }

  // ----------------------------------------------------------------------- fully closed

  predicate OpenedSomething(rows: seq<Row>) {
    exists r :: r in rows && (IsOpeningVerb(r.action) || IsBare(r.action))
  }

  predicate FullyClosed(rows: seq<Row>) {
    var net := NetQuantities(rows);
    net != map[] && OpenedSomething(rows) && forall s :: s in net ==> net[s] == 0.0
  }

  datatype Status = Open | Closed | Expired | Assigned | Exercised | Mixed | Unfilled

  function SettledStatus(t: SubType): Status {
    match t
    case Expiration => Expired
    case Assignment => Assigned
    case CashSettledAssignment => Assigned
    case _ => Exercised
  }

  function CauseOf(r: Row, net: map<SecurityId, real>): Option<Status> {
    if IsSettlement(r) then Some(SettledStatus(r.subType))
    else if IsClosingVerb(r.action) then Some(Closed)
    else if IsBare(r.action) && r.security.Some? && Lookup(net, r.security.value) == Some(0.0) then Some(Closed)
    else None
  }

  // What ended the group, row by row; settlement identity wins over a stamped action.
  function CloseCauses(rows: seq<Row>): set<Status> {
    set r | r in rows && CauseOf(r, NetQuantities(rows)).Some? :: CauseOf(r, NetQuantities(rows)).value
  }

  // One cause names the status; none or several are mixed.
  function TerminalStatus(rows: seq<Row>): (status: Status)
    ensures status != Open && status != Unfilled
    ensures |CloseCauses(rows)| == 1 ==> CloseCauses(rows) == {status}
    ensures |CloseCauses(rows)| != 1 ==> status == Mixed
  {
    var causes := CloseCauses(rows);
    if |causes| == 1 then
      OnlyCause(rows);
      var c :| c in causes && causes == {c};
      c
    else Mixed
  }

  lemma OnlyCause(rows: seq<Row>)
    requires |CloseCauses(rows)| == 1
    ensures exists c :: c in CloseCauses(rows) && CloseCauses(rows) == {c} && c != Open && c != Unfilled && c != Mixed
    ensures forall c :: c in CloseCauses(rows) ==> c != Open && c != Unfilled && c != Mixed
  {
    var causes := CloseCauses(rows);
    assert causes != {};
    var c :| c in causes;
    assert |causes - {c}| == 0;
    assert causes - {c} == {};
    assert causes == {c};
  }

  lemma {:induction false} SameMembersSameCauses(rows: seq<Row>, other: seq<Row>)
    requires multiset(rows) == multiset(other) && DistinctTimes(rows)
    ensures FullyClosed(rows) <==> FullyClosed(other)
    ensures CloseCauses(rows) == CloseCauses(other)
  {
    NetOrderIndependent(rows, other);
    forall r
      ensures r in rows <==> r in other
    {
      assert r in rows <==> r in multiset(rows);
      assert r in other <==> r in multiset(other);
    }
  }

  /** Two opposite openings leave a group fully closed with nothing that closed it. */
  lemma OppositeOpensAreMixed(long: Row, short: Row)
    requires IsPositionRow(long) && IsPositionRow(short) && long.security == short.security
    requires long.action.BuyToOpen? && short.action.SellToOpen? && long.quantity == short.quantity
    requires long.quantity.value != 0.0
    requires long.kind.OtherKind? && short.kind.OtherKind? && KeyLe(GroupKey(long), GroupKey(short))
    ensures FullyClosed([long, short]) && CloseCauses([long, short]) == {} && TerminalStatus([long, short]) == Mixed
  {
    var s, rows := long.security.value, [long, short];
    assert rows == [long] + [short] && [long] == [] + [long];
    NetAfterLatest([], long, s);
    NetAfterLatest([long], short, s);
    assert NetQuantities([]) == map[];
    forall t: SecurityId | t != s
      ensures Lookup(NetQuantities(rows), t) == None
    {
      NetOfOtherSecurity([], long, t);
      NetOfOtherSecurity([long], short, t);
    }
    assert Lookup(NetQuantities(rows), s) == Some(0.0);
    assert long in rows;
    assert forall t :: t in NetQuantities(rows) ==> Lookup(NetQuantities(rows), t) != None;
  }

  // --------------------------------------------------------------------------- detectors

  // heal_fully_closed_groups
  predicate Heals(rows: seq<Row>) {
    FullyClosed(rows)
  }

  // find_misattributed_open_groups: nets of its own, all zeroed account-wide
  predicate Misattributed(rows: seq<Row>, accountNets: map<SecurityId, real>) {
    var net := NetQuantities(rows);
    && (exists s :: s in net && net[s] != 0.0)
    && (forall s :: s in net && net[s] != 0.0 ==> Lookup(accountNets, s).GetOr(0.0) == 0.0)
  }

  // find_orphan_settlement_groups, as written: all closes, and then a guard on the net
  predicate OrphanSettlement(rows: seq<Row>) {
    var ordered := OrderedPositionRows(rows);
    ordered != [] && (forall r :: r in ordered ==> IsClosing(r)) && NetQuantities(rows) == map[]
  }

  predicate HoldsIn(net: map<SecurityId, real>, s: SecurityId) {
    s in net && net[s] != 0.0
  }

  /** A group is misattributed when it holds something and the account holds nothing of what the
      group holds; one security held by both clears it, and a group that holds nothing has
      nothing to clear. */
  lemma MisattributedIs(rows: seq<Row>, accountNets: map<SecurityId, real>)
    ensures Misattributed(rows, accountNets) <==>
            (exists s :: HoldsIn(NetQuantities(rows), s)) && !exists s :: HoldsIn(NetQuantities(rows), s) && HoldsIn(accountNets, s)
    ensures accountNets == NetQuantities(rows) ==> !Misattributed(rows, accountNets)
  {
    hide NetQuantities;
    forall s
      ensures HoldsIn(accountNets, s) <==> Lookup(accountNets, s).GetOr(0.0) != 0.0
    {
    }
    if s :| s in NetQuantities(rows) && NetQuantities(rows)[s] != 0.0 {
      assert HoldsIn(NetQuantities(rows), s);
    }
  }

  /** No group is claimed by two of the three, and the orphan detector's guard is redundant. */
  lemma DetectorsDisjoint(rows: seq<Row>, accountNets: map<SecurityId, real>)
    ensures !(Heals(rows) && Misattributed(rows, accountNets))
    ensures !(Heals(rows) && OrphanSettlement(rows))
    ensures !(Misattributed(rows, accountNets) && OrphanSettlement(rows))
    ensures OrphanSettlement(rows) <==>
              OrderedPositionRows(rows) != [] && forall r :: r in OrderedPositionRows(rows) ==> IsClosing(r)
  {
    if forall r :: r in OrderedPositionRows(rows) ==> IsClosing(r) {
      OnlyClosesNetEmpty(rows);
    }
  }
}
