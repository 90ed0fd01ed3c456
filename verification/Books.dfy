/** What reconcile reads and writes: transactions, trade groups and the event log, and the
    figures it derives from a group's rows. Surrogate ids count from one. */
module Books {
  import opened Rows
  import opened Ordering
  import opened GroupNet
  import opened Routing
  import Replay
  import ReducedWalks

  datatype OptionType = Call | Put

  datatype SecurityInfo = SecurityInfo(
    isFuture: bool,
    multiplier: Option<nat>,
    expiry: Option<nat>,           // a day
    strike: Option<real>,
    optionType: Option<OptionType>)

  type Securities = map<SecurityId, SecurityInfo>

  datatype EventKind =
    | Entry
    | PartialExit
    | FullExit
    | Roll
    | Adjustment
    | ExpirationEvent
    | AssignmentEvent
    | ExerciseEvent

  // An event without a time is stamped by the store when it is written.
  datatype Event = Event(
    group: nat,
    kind: EventKind,
    quantityChange: real,
    premiumChange: real,
    at: Option<Time>,
    rolledTo: Option<nat>)

  // name is the public group id: a fresh value for each group, here its surrogate id.
  datatype Group = Group(
    name: nat,
    account: AccountId,
    status: Status,
    security: Option<SecurityId>,
    legCount: nat,
    premium: real,
    quantity: Option<real>,
    fees: real,
    executedAt: Option<Time>,
    closedAt: Option<Time>,
    realized: Option<real>)

  datatype Ledger = Ledger(txns: seq<Txn>, groups: seq<Group>, events: seq<Event>)

  predicate HasGroup(s: Ledger, pk: nat) {
    1 <= pk <= |s.groups|
  }

  function GroupAt(s: Ledger, pk: nat): Group
    requires HasGroup(s, pk)
  {
    s.groups[pk - 1]
  }

  // A write to a group that is not there is skipped.
  function SetGroup(s: Ledger, pk: nat, g: Group): Ledger {
    if HasGroup(s, pk) then s.(groups := s.groups[pk - 1 := g]) else s
  }

  function AddEvents(s: Ledger, events: seq<Event>): Ledger {
    s.(events := s.events + events)
  }

  // --------------------------------------------------------------------------- membership

  function AttachTxn(t: Txn, ids: set<TxnId>, pk: nat): Txn {
    if t.row.id in ids then t.(group := Some(pk)) else t
  }

  function AttachAll(txns: seq<Txn>, ids: set<TxnId>, pk: nat): seq<Txn> {
    seq(|txns|, i requires 0 <= i < |txns| => AttachTxn(txns[i], ids, pk))
  }

  function Attach(s: Ledger, rows: seq<Row>, pk: nat): Ledger {
    s.(txns := AttachAll(s.txns, Ids(rows), pk))
  }

  // A group's member rows, in table order.
  function Members(txns: seq<Txn>, pk: nat): seq<Row> {
    if txns == [] then []
    else
      var t := txns[|txns| - 1];
      if t.group == Some(pk) then Members(txns[..|txns| - 1], pk) + [t.row] else Members(txns[..|txns| - 1], pk)
  }

  function LoadRows(s: Ledger, pk: nat): seq<Row> {
    Sort(Members(s.txns, pk), GroupKey)
  }

  predicate OpenFor(s: Ledger, account: AccountId, pk: nat) {
    HasGroup(s, pk) && GroupAt(s, pk).account == account && GroupAt(s, pk).status == Open
  }

  function LoadOpenUpTo(s: Ledger, account: AccountId, n: nat): seq<MemGroup> {
    if n == 0 then []
    else LoadOpenUpTo(s, account, n - 1) + (if OpenFor(s, account, n) then [MemGroup(n, LoadRows(s, n))] else [])
  }

  // The account's open groups in id order, with their members.
  function LoadOpen(s: Ledger, account: AccountId): seq<MemGroup> {
    LoadOpenUpTo(s, account, |s.groups|)
  }

  function NotAmong(known: set<TxnId>): Row -> bool {
    (r: Row) => r.id !in known
  }

  // The rows a group does not hold yet.
  function Fresh(g: MemGroup, rows: seq<Row>): seq<Row> {
    Filter(rows, NotAmong(Ids(g.rows)))
  }

  function ExtendUnique(g: MemGroup, rows: seq<Row>): MemGroup {
    g.(rows := g.rows + Fresh(g, rows))
  }

  // -------------------------------------------------------------------------------- sums

  function SumNet(rows: seq<Row>): real {
    if rows == [] then 0.0 else SumNet(rows[..|rows| - 1]) + SignedNet(rows[|rows| - 1])
  }

  function SumFees(rows: seq<Row>): real {
    if rows == [] then 0.0 else SumFees(rows[..|rows| - 1]) + FeesOf(rows[|rows| - 1])
  }

  function SumGross(rows: seq<Row>): real {
    if rows == [] then 0.0 else SumGross(rows[..|rows| - 1]) + SignedGross(rows[|rows| - 1])
  }

  function SumQuantity(rows: seq<Row>): real {
    if rows == [] then 0.0 else SumQuantity(rows[..|rows| - 1]) + Abs(rows[|rows| - 1].quantity.GetOr(0.0))
  }

  function MaxReal(a: Option<real>, b: Option<real>): Option<real> {
    if a.None? then b else if b.None? then a else Some(Max(a.value, b.value))
  }

  function LatestAt(rows: seq<Row>): Option<Time> {
    if rows == [] then None
    else
      var before, at := LatestAt(rows[..|rows| - 1]), rows[|rows| - 1].at;
      if before.None? || (at.Some? && at.value > before.value) then at else before
  }

  function EarliestAt(rows: seq<Row>): Option<Time> {
    if rows == [] then None
    else
      var before, at := EarliestAt(rows[..|rows| - 1]), rows[|rows| - 1].at;
      if before.None? || (at.Some? && at.value < before.value) then at else before
  }

  // Securities in order of first appearance.
  function Distinct(rows: seq<Row>): seq<SecurityId> {
    if rows == [] then []
    else
      var before, s := Distinct(rows[..|rows| - 1]), rows[|rows| - 1].security;
      if s.Some? && s.value !in before then before + [s.value] else before
  }

  // The largest |running net| any security of the group reached.
  function LargestStep(ordered: seq<Row>): Option<real>
    requires Positional(ordered)
  {
    if ordered == [] then None
    else
      var front, r := ordered[..|ordered| - 1], ordered[|ordered| - 1];
      var stepped := GroupNetStep(Lookup(NetWalk(front), r.security.value).GetOr(0.0), r);
      MaxReal(LargestStep(front), if stepped.Some? then Some(Abs(stepped.value)) else None)
  }

  function LargestFill(rows: seq<Row>): Option<real> {
    if rows == [] then None
    else
      var q := rows[|rows| - 1].quantity;
      MaxReal(LargestFill(rows[..|rows| - 1]), if q.Some? then Some(Abs(q.value)) else None)
  }

  // The size the group held at its peak, or its largest row when nothing moved its net.
  function GroupSize(rows: seq<Row>): Option<real> {
    OrderedPositional(rows);
    var peak := LargestStep(OrderedPositionRows(rows));
    if peak.Some? then peak else LargestFill(rows)
  }

  /** That size is the largest peak exposure of any security. */
  lemma {:induction false} LargestStepIsLargestPeak(ordered: seq<Row>)
    requires Positional(ordered)
    ensures LargestStep(ordered).None? <==> PeakWalk(ordered) == map[]
    ensures LargestStep(ordered).Some? ==>
              (forall s :: s in PeakWalk(ordered) ==> PeakWalk(ordered)[s] <= LargestStep(ordered).value)
              && exists s :: s in PeakWalk(ordered) && PeakWalk(ordered)[s] == LargestStep(ordered).value
  {
    if ordered != [] {
      var front, r := ordered[..|ordered| - 1], ordered[|ordered| - 1];
      LargestStepIsLargestPeak(front);
      PeakWalkBounds(front);
      var stepped := GroupNetStep(Lookup(NetWalk(front), r.security.value).GetOr(0.0), r);
      if stepped.Some? {
        var peak, before := PeakWalk(ordered), PeakWalk(front);
        assert r.security.value in peak;
        if LargestStep(front).Some? {
          var s :| s in before && before[s] == LargestStep(front).value;
          assert s in peak;
        }
      }
    }
  }

  function FreshGroup(name: nat, account: AccountId, rows: seq<Row>): Group {
    var securities := Distinct(rows);
    Group(name, account, Open, if |securities| == 1 then Some(securities[0]) else None,
          if securities == [] then 1 else |securities|,
          SumNet(rows), GroupSize(rows), SumFees(rows), EarliestAt(rows), None, None)
  }

  // Fill-derived fields refreshed; sparse ones filled in only when unset.
  function Refreshed(g: Group, rows: seq<Row>): Group {
    var f := FreshGroup(g.name, g.account, rows);
    g.(premium := f.premium, fees := f.fees, quantity := f.quantity, legCount := f.legCount,
       security := if g.security.Some? then g.security else f.security,
       executedAt := if f.executedAt.Some? then f.executedAt else g.executedAt)
  }

  // ---------------------------------------------------------------------- realized profit

  predicate IsFutures(secs: Securities, s: Option<SecurityId>) {
    s.Some? && s.value in secs && secs[s.value].isFuture
  }

  function OnFutures(secs: Securities, future: bool): Row -> bool {
    (r: Row) => IsFutures(secs, r.security) == future
  }

  function OfSecurity(s: SecurityId): Row -> bool {
    (r: Row) => r.security == Some(s)
  }

  function MultiplierOf(secs: Securities, s: SecurityId): nat {
    var m := if s in secs then secs[s].multiplier.GetOr(1) else 1;
    if m == 0 then 1 else m
  }

  function FuturesRealized(rows: seq<Row>, futures: seq<SecurityId>, secs: Securities): real {
    if futures == [] then 0.0
    else
      var s := futures[|futures| - 1];
      FuturesRealized(rows, futures[..|futures| - 1], secs)
      + ReducedWalks.PriceRun(Sort(Filter(rows, OfSecurity(s)), Replay.ReplayKey), MultiplierOf(secs, s), true).realized
  }

  // Cash values for premium-settled legs, price moves for bare futures.
  function GroupRealized(rows: seq<Row>, secs: Securities): real {
    SumGross(Filter(rows, OnFutures(secs, false)))
    + FuturesRealized(rows, Distinct(Filter(rows, OnFutures(secs, true))), secs)
  }

  // The cash a row of one security moves when its value is measured from the settlement S.
  predicate RowSettledAgainst(before: seq<Row>, r: Row, reference: real, multiplier: nat) {
    var tape := Replay.Tape(before, true);
    var fill := Replay.FillOf(r, Replay.Held(tape), tape != [], true);
    SignedGross(r) == if fill.Some? then -Replay.Worth(fill.value.delta, fill.value.price - reference, multiplier as real) else 0.0
  }

  predicate SettledAgainst(rows: seq<Row>, reference: real, multiplier: nat) {
    rows == [] || (SettledAgainst(rows[..|rows| - 1], reference, multiplier)
                   && RowSettledAgainst(rows[..|rows| - 1], rows[|rows| - 1], reference, multiplier))
  }

  lemma {:induction false} CashIsTapeCash(rows: seq<Row>, reference: real, multiplier: nat)
    requires SettledAgainst(rows, reference, multiplier)
    ensures SumGross(rows) == Replay.CashAgainst(Replay.Tape(rows, true), reference, multiplier as real)
  {
    hide Replay.Worth, Replay.FillOf, SignedGross;
    if rows != [] {
      var front, r := rows[..|rows| - 1], rows[|rows| - 1];
      CashIsTapeCash(front, reference, multiplier);
      var before := Replay.Tape(front, true);
      var fill := Replay.FillOf(r, Replay.Held(before), before != [], true);
      if fill.Some? {
        Replay.TapeAppend(before, fill.value, multiplier as real, reference);
      }
    }
  }

  /** On a completed futures round trip whose cash values are measured against one settlement
      price, whichever it was, the group's price-based profit equals its cash-based profit. */
  lemma {:induction false} PriceAndCashAgree(rows: seq<Row>, reference: real, multiplier: nat)
    requires SettledAgainst(rows, reference, multiplier)
    requires Replay.Held(Replay.Tape(rows, true)) == 0.0
    ensures ReducedWalks.PriceRun(rows, multiplier, true).realized == SumGross(rows)
  {
    CashIsTapeCash(rows, reference, multiplier);
    ReducedWalks.SettlementReferenceCancels(rows, multiplier, true, reference);
  }

  // ------------------------------------------------------------------ settlement quantities

  predicate IsMoneyHalf(t: SubType) {
    t.CashSettledAssignment? || t.CashSettledExercise?
  }

  function RetiredBy(rows: seq<Row>, s: Option<SecurityId>, money: bool): real {
    if rows == [] then 0.0
    else
      var r := rows[|rows| - 1];
      RetiredBy(rows[..|rows| - 1], s, money)
      + (if r.security == s && IsMoneyHalf(r.subType) == money then Abs(r.quantity.GetOr(0.0)) else 0.0)
  }

  // The removal rows count the contracts; the money rows only when there are no removal rows.
  function RetiredIn(rows: seq<Row>, s: Option<SecurityId>): real {
    if RetiredBy(rows, s, false) != 0.0 then RetiredBy(rows, s, false) else RetiredBy(rows, s, true)
  }

  function Keys(rows: seq<Row>): seq<Option<SecurityId>> {
    if rows == [] then []
    else
      var before, r := Keys(rows[..|rows| - 1]), rows[|rows| - 1];
      if r.quantity.Some? && r.security !in before then before + [r.security] else before
  }

  function RetiredOver(rows: seq<Row>, keys: seq<Option<SecurityId>>): real {
    if keys == [] then 0.0 else RetiredOver(rows, keys[..|keys| - 1]) + RetiredIn(rows, keys[|keys| - 1])
  }

  function SettledQuantity(rows: seq<Row>): real {
    RetiredOver(rows, Keys(rows))
  }

  /** The money half of a settlement adds nothing beside its removal row. */
  lemma MoneyHalfCountsOnce(rows: seq<Row>, money: Row)
    requires IsMoneyHalf(money.subType) && RetiredBy(rows, money.security, false) != 0.0
    ensures forall s :: RetiredIn(rows + [money], s) == RetiredIn(rows, s)
    ensures SettledQuantity(rows + [money]) == SettledQuantity(rows)
  {
    assert (rows + [money])[..|rows|] == rows;
    RetiredHasKey(rows, money.security);
    assert Keys(rows + [money]) == Keys(rows);
    SameRetired(rows, rows + [money], Keys(rows));
  }

  lemma {:induction false} RetiredHasKey(rows: seq<Row>, s: Option<SecurityId>)
    requires RetiredBy(rows, s, false) != 0.0
    ensures s in Keys(rows)
  {
    var front, r := rows[..|rows| - 1], rows[|rows| - 1];
    if RetiredBy(front, s, false) != 0.0 {
      RetiredHasKey(front, s);
    }
  }

  lemma {:induction false} SameRetired(a: seq<Row>, b: seq<Row>, keys: seq<Option<SecurityId>>)
    requires forall s :: RetiredIn(a, s) == RetiredIn(b, s)
    ensures RetiredOver(a, keys) == RetiredOver(b, keys)
  {
    if keys != [] {
      SameRetired(a, b, keys[..|keys| - 1]);
    }
  }
}
