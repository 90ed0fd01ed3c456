/** The closed lifecycles a replay emits: when they begin and end, when two of them collide on
    their natural key, and what the lapse of an expired lot leaves out. */
module Lifecycles {
  import opened Rows
  import opened Averages
  import opened Ordering
  import opened Replay

  function ClosedRows(plan: seq<PlanItem>): seq<ClosedRow> {
    if plan == [] then []
    else
      var front, closed := ClosedRows(plan[..|plan| - 1]), plan[|plan| - 1].closed;
      if closed.Some? then front + [closed.value] else front
  }

  // ------------------------------------------------------------------------ their times

  ghost predicate InOrder(rows: seq<Row>, strictly: bool) {
    && (forall r :: r in rows ==> r.quantity.Some? && r.at.Some?)
    && (forall i, j :: 0 <= i < j < |rows| ==> rows[i].at.value <= rows[j].at.value)
    && (strictly ==> forall i, j :: 0 <= i < j < |rows| ==> rows[i].at.value < rows[j].at.value)
  }

  // Opened before closed, and closed by the time the next one opens.
  ghost predicate Consecutive(closed: seq<ClosedRow>, strictly: bool) {
    && (forall i :: 0 <= i < |closed| ==> closed[i].openedAt.Some? && closed[i].closedAt.Some?)
    && (forall i :: 0 <= i < |closed| ==> closed[i].openedAt.value <= closed[i].closedAt.value)
    && (strictly ==> forall i :: 0 <= i < |closed| ==> closed[i].openedAt.value < closed[i].closedAt.value)
    && (forall i, j :: 0 <= i < j < |closed| ==> closed[i].closedAt.value <= closed[j].openedAt.value)
  }

  ghost predicate NotAfter(closed: seq<ClosedRow>, at: Time) {
    forall i :: 0 <= i < |closed| ==> closed[i].closedAt.Some? && closed[i].closedAt.value <= at
  }

  // Where the walk stands at time `at`: its open lot began once every lifecycle had ended.
  ghost predicate Standing(w: Walk, at: Time, strictly: bool) {
    && Consecutive(ClosedRows(w.plan), strictly)
    && NotAfter(ClosedRows(w.plan), at)
    && (w.lot.quantity != 0.0 ==>
          w.lot.openedAt.Some? && w.lot.openedAt.value <= at && NotAfter(ClosedRows(w.plan), w.lot.openedAt.value))
  }

  lemma ClosedRowsAppend(plan: seq<PlanItem>, item: PlanItem)
    ensures ClosedRows(plan + [item]) == ClosedRows(plan) + (if item.closed.Some? then [item.closed.value] else [])
  {
    assert (plan + [item])[..|plan|] == plan;
  }

  lemma StandingStep(w: Walk, at: Time, r: Row, account: AccountId, security: SecurityId, multiplier: nat, strictly: bool)
    requires Standing(w, at, strictly) && ValidLot(w.lot)
    requires r.quantity.Some? && r.at.Some? && at <= r.at.value && (strictly && w.lot.quantity != 0.0 ==> at < r.at.value)
    ensures Standing(Step(w, r, account, security, multiplier), r.at.value, strictly)
  {
    hide WeightedAverage, ClosingGain, FeesOf, HoldingPeriod, SettlementDelta, EffectiveDeltaPrice;
    var w' := Step(w, r, account, security, multiplier);
    var item := w'.plan[|w.plan|];
    assert w'.plan == w.plan + [item];
    ClosedRowsAppend(w.plan, item);
  }

  lemma {:induction false} LifecycleTimes(rows: seq<Row>, account: AccountId, security: SecurityId, multiplier: nat, strictly: bool)
    requires rows != [] && InOrder(rows, strictly)
    ensures Standing(Run(rows, account, security, multiplier), rows[|rows| - 1].at.value, strictly)
  {
    hide Step, Standing;
    var front, r := rows[..|rows| - 1], rows[|rows| - 1];
    if front == [] {
      StandingAtStart(strictly);
      StandingStep(START, 0, r, account, security, multiplier, strictly);
    } else {
      LifecycleTimes(front, account, security, multiplier, strictly);
      StandingStep(Run(front, account, security, multiplier), front[|front| - 1].at.value, r, account, security, multiplier, strictly);
    }
  }

  lemma StandingAtStart(strictly: bool)
    ensures Standing(START, 0, strictly) && START.lot.quantity == 0.0
  {
  }

  // ------------------------------------------------------------------ what a lifecycle held

  ghost predicate PricedWithin(rows: seq<Row>, low: real, high: real) {
    forall r :: r in rows && r.price.Some? ==> low <= r.price.value <= high
  }

  // A lifecycle held something, at an average within the prices paid, and nets what it realized
  // less its fees.
  ghost predicate SoundRow(c: ClosedRow, low: real, high: real) {
    c.quantity > 0.0 && c.averageOpen.Some? && low <= c.averageOpen.value <= high && c.net == c.realized - c.fees
  }

  ghost predicate SoundWalk(w: Walk, low: real, high: real) {
    && ValidLot(w.lot)
    && (w.lot.average.Some? ==> low <= w.lot.average.value <= high)
    && (forall c :: c in ClosedRows(w.plan) ==> SoundRow(c, low, high))
  }

  lemma AverageStep(held: real, average: real, delta: real, price: real, low: real, high: real)
    requires SameSide(held, delta) && low <= average <= high && low <= price <= high
    ensures low <= WeightedAverage(held, average, delta, price) <= high
  {
    MeanBetween(low, high, average, Abs(held), price, Abs(delta));
  }

  lemma SoundStep(w: Walk, r: Row, account: AccountId, security: SecurityId, multiplier: nat, low: real, high: real)
    requires SoundWalk(w, low, high) && r.quantity.Some? && (r.price.Some? ==> low <= r.price.value <= high)
    ensures SoundWalk(Step(w, r, account, security, multiplier), low, high)
  {
    hide WeightedAverage, ClosingGain, FeesOf, HoldingPeriod;
    var w' := Step(w, r, account, security, multiplier);
    assert w'.plan == w.plan + [w'.plan[|w.plan|]];
    ClosedRowsAppend(w.plan, w'.plan[|w.plan|]);
    var (delta, price) := EffectiveDeltaPrice(r, w.lot.quantity, w.had);
    if price.Some? && SameSide(w.lot.quantity, delta) {
      AverageStep(w.lot.quantity, w.lot.average.value, delta, price.value, low, high);
    }
  }

  /** Every lifecycle held something, at an average entry price between the least and greatest
      price traded, and so does the lot still open. */
  lemma {:induction false} LifecyclesSound(rows: seq<Row>, account: AccountId, security: SecurityId, multiplier: nat, low: real,
                                           high: real)
    requires Quantified(rows) && PricedWithin(rows, low, high)
    ensures SoundWalk(Run(rows, account, security, multiplier), low, high)
  {
    hide Step;
    if rows != [] {
      assert rows == rows[..|rows| - 1] + [rows[|rows| - 1]];
      LifecyclesSound(rows[..|rows| - 1], account, security, multiplier, low, high);
      SoundStep(Run(rows[..|rows| - 1], account, security, multiplier), rows[|rows| - 1], account, security, multiplier, low, high);
    }
  }

  // ---------------------------------------------------------------------- the natural key

  type ClosedKey = (AccountId, SecurityId, Option<Time>, Option<Time>)

  function KeyOfClosed(c: ClosedRow): ClosedKey {
    (c.account, c.security, c.openedAt, c.closedAt)
  }

  lemma {:induction false} ClosedRowsOf(rows: seq<Row>, account: AccountId, security: SecurityId, multiplier: nat)
    requires Quantified(rows)
    ensures forall c :: c in ClosedRows(Run(rows, account, security, multiplier).plan) ==> c.account == account && c.security == security
  {
    hide WeightedAverage, ClosingGain, FeesOf;
    if rows != [] {
      ClosedRowsOf(rows[..|rows| - 1], account, security, multiplier);
      var w, w' := Run(rows[..|rows| - 1], account, security, multiplier), Run(rows, account, security, multiplier);
      ClosedRowsAppend(w.plan, w'.plan[|w.plan|]);
      assert w'.plan == w.plan + [w'.plan[|w.plan|]];
    }
  }

  /** Strictly increasing times: every lifecycle opens before it closes and closes by the time
      the next one opens, so no two share a natural key. */
  lemma LifecyclesApart(rows: seq<Row>, account: AccountId, security: SecurityId, multiplier: nat)
    requires InOrder(rows, true)
    ensures var closed := ClosedRows(Run(rows, account, security, multiplier).plan);
            Consecutive(closed, true) && DistinctKeys(closed, KeyOfClosed)
  {
    if rows != [] {
      LifecycleTimes(rows, account, security, multiplier, true);
    }
  }

  lemma NothingClosed(account: AccountId, security: SecurityId, multiplier: nat)
    ensures ClosedRows(Run([], account, security, multiplier).plan) == []
  {
  }

  // ---------------------------------------------------------- where lots begin and end

  // What the fills of some rows add up to.
  function HeldOf(rows: seq<Row>): real {
    Held(Tape(rows, false))
  }

  // Row k makes a holding out of none, or turns one to the other side.
  predicate StartsAt(rows: seq<Row>, k: nat) {
    k < |rows| && HeldOf(rows[..k + 1]) != 0.0 && (HeldOf(rows[..k]) == 0.0 || Opposite(HeldOf(rows[..k]), HeldOf(rows[..k + 1])))
  }

  // Row k brings a holding to zero, or through it.
  predicate EndsAt(rows: seq<Row>, k: nat) {
    k < |rows| && HeldOf(rows[..k]) != 0.0 && (HeldOf(rows[..k + 1]) == 0.0 || Opposite(HeldOf(rows[..k]), HeldOf(rows[..k + 1])))
  }

  predicate FillsAt(rows: seq<Row>, k: nat) {
    k < |rows| && HeldOf(rows[..k + 1]) != HeldOf(rows[..k])
  }

  // Row k takes from a holding without ending it.
  predicate ReducesAt(rows: seq<Row>, k: nat) {
    k < |rows| && SameSide(HeldOf(rows[..k]), HeldOf(rows[..k + 1])) && Abs(HeldOf(rows[..k + 1])) < Abs(HeldOf(rows[..k]))
  }

  // The row that began what is held.
  function LotStart(rows: seq<Row>): (k: nat) {
    if rows == [] || HeldOf(rows) == 0.0 then |rows|
    else if StartsAt(rows, |rows| - 1) then |rows| - 1
    else LotStart(rows[..|rows| - 1])
  }

  // Each lifecycle's first and last row.
  function Cycles(rows: seq<Row>): seq<(nat, nat)> {
    if rows == [] then []
    else
      var front := Cycles(rows[..|rows| - 1]);
      if EndsAt(rows, |rows| - 1) then front + [(LotStart(rows[..|rows| - 1]), |rows| - 1)] else front
  }

  // Whole days from one time to another.
  predicate DaysBetween(from: Option<Time>, to: Option<Time>, days: Option<int>) {
    (days.Some? <==> from.Some? && to.Some?) && (days.Some? ==> days.value * DAY <= to.value - from.value < (days.value + 1) * DAY)
  }

  // A lifecycle ended by row r at a price, when h was held.
  ghost predicate Ends(c: ClosedRow, h: real, r: Row, price: real) {
    && c.quantity == Abs(h) && (c.direction.Long? <==> h > 0.0) && c.averageClose == price
    && c.closedAt == r.at && c.closingOrder == r.orderId && c.net == c.realized - c.fees
    && DaysBetween(c.openedAt, c.closedAt, c.holdingDays) && c.group.None?
  }

  // What one row does to the lot, seen from what is held before and after it.
  lemma StepByHeld(w: Walk, r: Row, account: AccountId, security: SecurityId, multiplier: nat)
    requires r.quantity.Some? && ValidLot(w.lot)
    ensures var w' := Step(w, r, account, security, multiplier);
            var h, h' := w.lot.quantity, w'.lot.quantity;
            var fill := FillOf(r, h, w.had, false);
            var turned := h == 0.0 || Opposite(h, h');
            && |w'.plan| == |w.plan| + 1 && w'.plan == w.plan + [w'.plan[|w.plan|]]
            && (h != h' <==> fill.Some?) && (fill.Some? ==> h' == h + fill.value.delta)
            && (w'.plan[|w.plan|].closed.Some? <==> h != 0.0 && (h' == 0.0 || Opposite(h, h')))
            && (w'.plan[|w.plan|].closed.Some? ==>
                  && fill.Some? && Ends(w'.plan[|w.plan|].closed.value, h, r, fill.value.price)
                  && w'.plan[|w.plan|].closed.value.openedAt == w.lot.openedAt
                  && w'.plan[|w.plan|].closed.value.openingOrder == w.lot.openingOrder
                  && w'.lastDirection == w'.plan[|w.plan|].closed.value.direction)
            && (w'.plan[|w.plan|].closed.None? ==> w'.lastDirection == w.lastDirection)
            && (w'.plan[|w.plan|].marksOpen <==> fill.Some? && h' != 0.0) && w'.plan[|w.plan|].key == OfRow(r.id)
            && (h' != 0.0 && turned ==>
                  w'.lot.openedAt == r.at && w'.lot.openingOrder == r.orderId
                  && w'.lot.realized == 0.0 && w'.lot.fees == if h == 0.0 then FeesOf(r) else 0.0)
            && (h' != 0.0 && !turned ==>
                  w'.lot.openedAt == w.lot.openedAt && w'.lot.openingOrder == w.lot.openingOrder
                  && w'.lot.fees == w.lot.fees + (if h' != h then FeesOf(r) else 0.0)
                  && w'.lot.realized == w.lot.realized
                     + (if Abs(h') < Abs(h) then ClosingGain(h, w.lot.average.value, fill.value.delta, fill.value.price, multiplier as real)
                        else 0.0))
  {
    hide WeightedAverage, ClosingGain, FeesOf, HoldingPeriod;
    HeldDays(w.lot.openedAt, r.at);
  }

  lemma HeldDays(from: Option<Time>, to: Option<Time>)
    ensures DaysBetween(from, to, HoldingPeriod(from, to))
  {
  }

  // The walk before the last row, and after it, hold what the rows add up to.
  lemma HeldAround(rows: seq<Row>, account: AccountId, security: SecurityId, multiplier: nat)
    requires Quantified(rows) && rows != []
    ensures var front := rows[..|rows| - 1];
            && Quantified(front)
            && Run(front, account, security, multiplier).lot.quantity == HeldOf(front)
            && (Run(front, account, security, multiplier).had <==> Tape(front, false) != [])
            && Run(rows, account, security, multiplier).lot.quantity == HeldOf(rows)
  {
    hide Run, Tape;
    LotFollowsTape(rows[..|rows| - 1], account, security, multiplier);
    LotFollowsTape(rows, account, security, multiplier);
  }

  lemma Prefixes(rows: seq<Row>, n: nat, k: nat)
    requires k < n <= |rows|
    ensures rows[..n][..k] == rows[..k] && rows[..n][..k + 1] == rows[..k + 1] && rows[..n][k] == rows[k]
    ensures StartsAt(rows[..n], k) <==> StartsAt(rows, k)
    ensures EndsAt(rows[..n], k) <==> EndsAt(rows, k)
    ensures FillsAt(rows[..n], k) <==> FillsAt(rows, k)
    ensures ReducesAt(rows[..n], k) <==> ReducesAt(rows, k)
  {
    assert rows[..n][..k] == rows[..k] && rows[..n][..k + 1] == rows[..k + 1];
  }

  // What the walk has recorded of one cycle: its ends' times and orders, what was held and on
  // which side.
  ghost predicate CarriesCycle(c: ClosedRow, rows: seq<Row>, cycle: (nat, nat)) {
    && cycle.0 < |rows| && cycle.1 < |rows|
    && c.openedAt == rows[cycle.0].at && c.openingOrder == rows[cycle.0].orderId
    && Ends(c, HeldOf(rows[..cycle.1]), rows[cycle.1], c.averageClose)
    && (rows[cycle.1].price.Some? ==> c.averageClose == rows[cycle.1].price.value)
    && (rows[cycle.1].price.None? ==> c.averageClose == 0.0)
  }

  // Every lifecycle carries its cycle, and the lot the row it began with.
  ghost predicate CarriesCycles(w: Walk, rows: seq<Row>) {
    && |ClosedRows(w.plan)| == |Cycles(rows)|
    && (forall i :: 0 <= i < |Cycles(rows)| ==> CarriesCycle(ClosedRows(w.plan)[i], rows, Cycles(rows)[i]))
    && (HeldOf(rows) != 0.0 ==>
          LotStart(rows) < |rows| && w.lot.openedAt == rows[LotStart(rows)].at && w.lot.openingOrder == rows[LotStart(rows)].orderId)
    && w.lastDirection == (if ClosedRows(w.plan) == [] then Long else ClosedRows(w.plan)[|ClosedRows(w.plan)| - 1].direction)
  }

  /** Every lifecycle a walk emits is one stretch of its rows from nothing held, or the other
      side, back to it: with the times and orders of its first and last row, the last row's
      price, and the quantity and side then held. */
  lemma {:induction false} ClosedAreCycles(rows: seq<Row>, account: AccountId, security: SecurityId, multiplier: nat)
    requires Quantified(rows)
    ensures CarriesCycles(Run(rows, account, security, multiplier), rows)
  {
    hide Step, HeldOf, Cycles, LotStart, CarriesCycles, Ends;
    if rows == [] {
      NothingCarried(account, security, multiplier);
    } else {
      var n := |rows| - 1;
      var w, w' := Run(rows[..n], account, security, multiplier), Run(rows, account, security, multiplier);
      ClosedAreCycles(rows[..n], account, security, multiplier);
      HeldAround(rows, account, security, multiplier);
      StepByHeld(w, rows[n], account, security, multiplier);
      EndsByHeld(rows);
      FillPrice(rows[n], w.lot.quantity, w.had);
      CarriesNext(w, w', w'.plan[|w.plan|], rows);
    }
  }

  lemma FillPrice(r: Row, held: real, had: bool)
    ensures var fill := FillOf(r, held, had, false); fill.Some? ==> fill.value.price == r.price.GetOr(0.0)
  {
    hide FeesOf;
  }

  lemma NothingCarried(account: AccountId, security: SecurityId, multiplier: nat)
    ensures CarriesCycles(Run([], account, security, multiplier), [])
  {
    NothingClosed(account, security, multiplier);
    NothingHeld();
  }

  lemma CarriesNext(w: Walk, w': Walk, item: PlanItem, rows: seq<Row>)
    requires rows != [] && CarriesCycles(w, rows[..|rows| - 1]) && w'.plan == w.plan + [item]
    requires var r, h, h' := rows[|rows| - 1], HeldOf(rows[..|rows| - 1]), HeldOf(rows);
             && (item.closed.Some? <==> EndsAt(rows, |rows| - 1))
             && (EndsAt(rows, |rows| - 1) ==> h != 0.0)
             && (item.closed.Some? ==>
                   && item.closed.value.openedAt == w.lot.openedAt && item.closed.value.openingOrder == w.lot.openingOrder
                   && Ends(item.closed.value, h, r, r.price.GetOr(0.0)) && w'.lastDirection == item.closed.value.direction)
             && (item.closed.None? ==> w'.lastDirection == w.lastDirection)
             && (h' != 0.0 && StartsAt(rows, |rows| - 1) ==> w'.lot.openedAt == r.at && w'.lot.openingOrder == r.orderId)
             && (h' != 0.0 && !StartsAt(rows, |rows| - 1) ==>
                   h != 0.0 && w'.lot.openedAt == w.lot.openedAt && w'.lot.openingOrder == w.lot.openingOrder)
    ensures CarriesCycles(w', rows)
  {
    hide HeldOf, StartsAt, EndsAt, ClosedRows, Ends, CarriesCycle;
    var n := |rows| - 1;
    var front := rows[..n];
    ClosedRowsAppend(w.plan, item);
    forall i | 0 <= i < |Cycles(front)|
      ensures CarriesCycle(ClosedRows(w.plan)[i], rows, Cycles(front)[i])
    {
      SameCycle(ClosedRows(w.plan)[i], rows, n, Cycles(front)[i]);
    }
    if item.closed.Some? {
      LastCycle(item.closed.value, w.lot, rows, LotStart(front));
    }
  }

  lemma SameCycle(c: ClosedRow, rows: seq<Row>, n: nat, cycle: (nat, nat))
    requires n <= |rows| && CarriesCycle(c, rows[..n], cycle)
    ensures CarriesCycle(c, rows, cycle)
  {
    hide HeldOf, Ends;
    assert rows[..n][..cycle.1] == rows[..cycle.1];
  }

  lemma LastCycle(c: ClosedRow, lot: Lot, rows: seq<Row>, start: nat)
    requires rows != [] && start < |rows| - 1
    requires lot.openedAt == rows[start].at && lot.openingOrder == rows[start].orderId
    requires c.openedAt == lot.openedAt && c.openingOrder == lot.openingOrder
    requires Ends(c, HeldOf(rows[..|rows| - 1]), rows[|rows| - 1], rows[|rows| - 1].price.GetOr(0.0))
    ensures CarriesCycle(c, rows, (start, |rows| - 1))
  {
    hide HeldOf;
  }

  /** The position row is the holding the rows add up to, as it began; when nothing is held its
      side is the last lifecycle's. What replay has no opinion on stays as it was stored. */
  lemma PositionIsHolding(rows: seq<Row>, account: AccountId, security: SecurityId, multiplier: nat, existing: Option<PositionRow>)
    requires Quantified(rows)
    ensures var held, p := HeldOf(rows), PositionOf(account, security, Run(rows, account, security, multiplier), multiplier, existing);
            var closed := ClosedRows(Run(rows, account, security, multiplier).plan);
            && p.account == account && p.security == security && p.multiplier == multiplier
            && p.quantity == Abs(held) && (held > 0.0 ==> p.direction == Long) && (held < 0.0 ==> p.direction == Short)
            && (held == 0.0 ==> p.direction == (if closed == [] then Long else closed[|closed| - 1].direction)
                                && p.average.None? && p.openedAt.None? && p.openingOrder.None?)
            && (held != 0.0 ==> p.average.Some? && LotStart(rows) < |rows|
                                && p.openedAt == rows[LotStart(rows)].at && p.openingOrder == rows[LotStart(rows)].orderId)
            && (existing.Some? ==> p.carried == existing.value.carried) && (existing.None? ==> p.carried == NOTHING_CARRIED)
  {
    hide Run, ClosedRows, LotStart, Cycles, Tape;
    ClosedAreCycles(rows, account, security, multiplier);
    LotFollowsTape(rows, account, security, multiplier);
  }

  lemma NothingHeld()
    ensures HeldOf([]) == 0.0
  {
  }

  lemma EndsByHeld(rows: seq<Row>)
    requires rows != []
    ensures var h, h' := HeldOf(rows[..|rows| - 1]), HeldOf(rows);
            && (EndsAt(rows, |rows| - 1) <==> h != 0.0 && (h' == 0.0 || Opposite(h, h')))
            && (StartsAt(rows, |rows| - 1) <==> h' != 0.0 && (h == 0.0 || Opposite(h, h')))
            && (FillsAt(rows, |rows| - 1) <==> h' != h)
            && (ReducesAt(rows, |rows| - 1) <==> SameSide(h, h') && Abs(h') < Abs(h))
  {
    assert rows[..|rows| - 1 + 1] == rows;
  }

  // The open lot began at a start, behind every end, and nothing has started since.
  ghost predicate Began(rows: seq<Row>) {
    HeldOf(rows) != 0.0 ==>
      && LotStart(rows) < |rows| && StartsAt(rows, LotStart(rows))
      && (forall o :: LotStart(rows) < o < |rows| ==> !StartsAt(rows, o))
      && (forall i :: 0 <= i < |Cycles(rows)| ==> Cycles(rows)[i].1 <= LotStart(rows))
  }

  ghost predicate OneAfterAnother(cycles: seq<(nat, nat)>) {
    forall i, j :: 0 <= i < j < |cycles| ==> cycles[i].1 <= cycles[j].0
  }

  lemma OneMoreAfter(cycles: seq<(nat, nat)>, c: (nat, nat))
    requires OneAfterAnother(cycles) && forall i :: 0 <= i < |cycles| ==> cycles[i].1 <= c.0
    ensures OneAfterAnother(cycles + [c])
  {
  }

  // Cycles run from a start to an end, one after the other, with no start inside one.
  ghost predicate InTurn(rows: seq<Row>) {
    && (forall i :: 0 <= i < |Cycles(rows)| ==>
          Cycles(rows)[i].0 < Cycles(rows)[i].1 < |rows| && StartsAt(rows, Cycles(rows)[i].0) && EndsAt(rows, Cycles(rows)[i].1))
    && (forall i, o :: 0 <= i < |Cycles(rows)| && Cycles(rows)[i].0 < o < Cycles(rows)[i].1 ==> !StartsAt(rows, o))
    && OneAfterAnother(Cycles(rows))
    && (forall k :: 0 <= k < |rows| && EndsAt(rows, k) ==> exists i :: 0 <= i < |Cycles(rows)| && Cycles(rows)[i].1 == k)
  }

  lemma {:induction false} CyclesInTurn(rows: seq<Row>)
    ensures InTurn(rows) && Began(rows)
  {
    if rows == [] {
      NothingHeld();
    } else {
      var n := |rows| - 1;
      var front := rows[..n];
      CyclesInTurn(front);
      forall k | 0 <= k < n
        ensures StartsAt(front, k) <==> StartsAt(rows, k)
        ensures EndsAt(front, k) <==> EndsAt(rows, k)
      {
        Prefixes(rows, n, k);
      }
      EndsByHeld(rows);
      NextInTurn(rows, front);
      NextBegan(rows, front);
    }
  }

  // One more row: what it does to the list of cycles and to the lot's beginning.
  ghost predicate Extends(rows: seq<Row>, front: seq<Row>) {
    && rows != [] && front == rows[..|rows| - 1]
    && (forall k :: 0 <= k < |front| ==> (StartsAt(front, k) <==> StartsAt(rows, k)) && (EndsAt(front, k) <==> EndsAt(rows, k)))
    && (EndsAt(rows, |front|) ==> HeldOf(front) != 0.0)
    && (HeldOf(rows) != 0.0 && !StartsAt(rows, |front|) ==> HeldOf(front) != 0.0 && !EndsAt(rows, |front|))
  }

  lemma NextInTurn(rows: seq<Row>, front: seq<Row>)
    requires Extends(rows, front) && InTurn(front) && Began(front)
    ensures InTurn(rows)
  {
    hide StartsAt, EndsAt, HeldOf, LotStart, Cycles, Began, Extends, OneAfterAnother;
    NextCycle(rows, front);
    CyclesStep(rows);
    NextEnds(rows, front);
    var n, cycles, before := |rows| - 1, Cycles(rows), Cycles(front);
    if EndsAt(rows, n) {
      OneMoreAfter(before, (LotStart(front), n));
    } else {
      assert cycles == before;
    }
    assert forall i :: 0 <= i < |before| ==> cycles[i] == before[i];
    forall i | 0 <= i < |cycles|
      ensures cycles[i].0 < cycles[i].1 < |rows| && StartsAt(rows, cycles[i].0) && EndsAt(rows, cycles[i].1)
      ensures forall o :: cycles[i].0 < o < cycles[i].1 ==> !StartsAt(rows, o)
    {
      if i < |before| {
        KeptCycle(rows, front, i);
      }
    }
  }

  // A cycle of the rows before stays one.
  lemma KeptCycle(rows: seq<Row>, front: seq<Row>, i: nat)
    requires Extends(rows, front) && InTurn(front) && i < |Cycles(front)|
    ensures var c := Cycles(front)[i];
            && c.0 < c.1 < |front| && StartsAt(rows, c.0) && EndsAt(rows, c.1)
            && (forall o :: c.0 < o < c.1 ==> !StartsAt(rows, o))
  {
    hide StartsAt, EndsAt, HeldOf, Cycles;
    var c := Cycles(front)[i];
    forall o | c.0 < o < c.1
      ensures !StartsAt(rows, o)
    {
      assert !StartsAt(front, o);
    }
  }

  // The cycle one more row completes, when it does.
  lemma NextCycle(rows: seq<Row>, front: seq<Row>)
    requires Extends(rows, front) && InTurn(front) && Began(front)
    ensures EndsAt(rows, |front|) ==>
              && LotStart(front) < |front| && StartsAt(rows, LotStart(front))
              && (forall o :: LotStart(front) < o < |front| ==> !StartsAt(rows, o))
              && (forall i :: 0 <= i < |Cycles(front)| ==> Cycles(front)[i].1 <= LotStart(front))
    ensures |rows| == |front| + 1 && front == rows[..|rows| - 1]
  {
    hide StartsAt, EndsAt, HeldOf, Cycles, LotStart, InTurn;
    if EndsAt(rows, |front|) {
      forall o | LotStart(front) < o < |front|
        ensures !StartsAt(rows, o)
      {
        assert !StartsAt(front, o);
      }
    }
  }

  lemma NextEnds(rows: seq<Row>, front: seq<Row>)
    requires Extends(rows, front) && InTurn(front)
    ensures forall k :: 0 <= k < |rows| && EndsAt(rows, k) ==> exists i :: 0 <= i < |Cycles(rows)| && Cycles(rows)[i].1 == k
  {
    hide StartsAt, EndsAt, HeldOf, Cycles, LotStart;
    CyclesStep(rows);
    var cycles, before := Cycles(rows), Cycles(front);
    forall k | 0 <= k < |rows| && EndsAt(rows, k)
      ensures exists i :: 0 <= i < |cycles| && cycles[i].1 == k
    {
      if k < |front| {
        var i :| 0 <= i < |before| && before[i].1 == k;
        assert cycles[i].1 == k;
      } else {
        assert cycles[|cycles| - 1].1 == k;
      }
    }
  }

  lemma NextBegan(rows: seq<Row>, front: seq<Row>)
    requires Extends(rows, front) && InTurn(front) && Began(front)
    ensures Began(rows)
  {
    hide StartsAt, EndsAt, HeldOf, Cycles, InTurn;
    CyclesStep(rows);
    EndsInside(front);
    if HeldOf(rows) != 0.0 {
      forall o | LotStart(rows) < o < |rows|
        ensures !StartsAt(rows, o)
      {
        assert o < |front| || o == |front|;
      }
    }
  }

  lemma EndsInside(rows: seq<Row>)
    requires InTurn(rows)
    ensures forall i :: 0 <= i < |Cycles(rows)| ==> Cycles(rows)[i].1 < |rows|
  {
    hide StartsAt, EndsAt, Cycles;
  }

  lemma CyclesStep(rows: seq<Row>)
    requires rows != []
    ensures var front := rows[..|rows| - 1];
            Cycles(rows) == Cycles(front) + (if EndsAt(rows, |front|) then [(LotStart(front), |front|)] else [])
  {
  }

  // At one instant a holding begins, ends, and one ends again.
  ghost predicate TwiceAtOnce(rows: seq<Row>) {
    exists o: nat, a: nat, b: nat ::
      o < a < b < |rows| && StartsAt(rows, o) && EndsAt(rows, a) && EndsAt(rows, b) && rows[o].at == rows[b].at
  }

  ghost predicate SomeCollide(closed: seq<ClosedRow>) {
    exists i, j :: 0 <= i < j < |closed| && KeyOfClosed(closed[i]) == KeyOfClosed(closed[j])
  }

  /** Two lifecycles share a key exactly when, among rows of one instant, what the rows hold
      begins, and then reaches or crosses zero twice. */
  lemma {:induction false} LifecyclesCollideExactlyWhen(rows: seq<Row>, account: AccountId, security: SecurityId, multiplier: nat)
    requires InOrder(rows, false)
    ensures SomeCollide(ClosedRows(Run(rows, account, security, multiplier).plan)) <==> TwiceAtOnce(rows)
  {
    hide Step, Run, ClosedRows, Cycles, StartsAt, EndsAt, LotStart, HeldOf, KeyOfClosed;
    var closed := ClosedRows(Run(rows, account, security, multiplier).plan);
    if i, j :| 0 <= i < j < |closed| && KeyOfClosed(closed[i]) == KeyOfClosed(closed[j]) {
      CollidingAtOnce(rows, account, security, multiplier, i, j);
    }
    if o: nat, a: nat, b: nat :|
      o < a < b < |rows| && StartsAt(rows, o) && EndsAt(rows, a) && EndsAt(rows, b) && rows[o].at == rows[b].at {
      AtOnceCollide(rows, account, security, multiplier, o, a, b);
    }
  }

  lemma {:induction false} CollidingAtOnce(rows: seq<Row>, account: AccountId, security: SecurityId, multiplier: nat, i: nat, j: nat)
    requires InOrder(rows, false) && i < j < |ClosedRows(Run(rows, account, security, multiplier).plan)|
    requires var closed := ClosedRows(Run(rows, account, security, multiplier).plan);
             KeyOfClosed(closed[i]) == KeyOfClosed(closed[j])
    ensures TwiceAtOnce(rows)
  {
    hide Step, Run, ClosedRows, Cycles, StartsAt, EndsAt, LotStart, HeldOf;
    var cycles := Cycles(rows);
    ClosedAreCycles(rows, account, security, multiplier);
    CyclesInTurn(rows);
    var o, a, b := cycles[i].0, cycles[i].1, cycles[j].1;
    assert a <= cycles[j].0 < b && a < b;
    assert rows[a].at.value <= rows[cycles[j].0].at.value;
    assert StartsAt(rows, o) && EndsAt(rows, a) && EndsAt(rows, b);
  }

  lemma AtOnceCollide(rows: seq<Row>, account: AccountId, security: SecurityId, multiplier: nat, o: nat, a: nat, b: nat)
    requires InOrder(rows, false) && o < a < b < |rows|
    requires StartsAt(rows, o) && EndsAt(rows, a) && EndsAt(rows, b) && rows[o].at == rows[b].at
    ensures SomeCollide(ClosedRows(Run(rows, account, security, multiplier).plan))
  {
    hide Step, Run, ClosedRows, Cycles, StartsAt, EndsAt, LotStart, HeldOf, InOrder;
    QuantifiedInOrder(rows);
    var closed, cycles := ClosedRows(Run(rows, account, security, multiplier).plan), Cycles(rows);
    ClosedAreCycles(rows, account, security, multiplier);
    ClosedRowsOf(rows, account, security, multiplier);
    var i := EndingAt(rows, a);
    var j := EndingAt(rows, b);
    CyclesOrdered(rows, i, j);
    assert cycles[i].0 >= o by {
      StartOutside(rows, i, o);
    }
    SameInstant(rows, o, cycles[i].0, b);
    SameInstant(rows, o, cycles[j].0, b);
    SameInstant(rows, o, a, b);
    assert closed[i] in closed && closed[j] in closed;
  }

  lemma QuantifiedInOrder(rows: seq<Row>)
    requires InOrder(rows, false)
    ensures Quantified(rows)
  {
  }

  lemma EndingAt(rows: seq<Row>, k: nat) returns (i: nat)
    requires EndsAt(rows, k)
    ensures i < |Cycles(rows)| && Cycles(rows)[i].0 < Cycles(rows)[i].1 == k < |rows|
  {
    hide Cycles, StartsAt, HeldOf;
    CyclesInTurn(rows);
    i :| 0 <= i < |Cycles(rows)| && Cycles(rows)[i].1 == k;
  }

  lemma CyclesOrdered(rows: seq<Row>, i: nat, j: nat)
    requires i < |Cycles(rows)| && j < |Cycles(rows)| && Cycles(rows)[i].1 < Cycles(rows)[j].1
    ensures i < j && Cycles(rows)[i].1 <= Cycles(rows)[j].0
  {
    hide Cycles, StartsAt, EndsAt;
    CyclesInTurn(rows);
    if j <= i {
      EndsOrdered(rows, j, i);
    }
  }

  lemma EndsOrdered(rows: seq<Row>, i: nat, j: nat)
    requires i <= j < |Cycles(rows)|
    ensures Cycles(rows)[i].1 <= Cycles(rows)[j].1
  {
    hide Cycles, StartsAt, EndsAt;
    CyclesInTurn(rows);
    if i < j {
      assert Cycles(rows)[i].1 <= Cycles(rows)[j].0 < Cycles(rows)[j].1;
    }
  }

  lemma StartOutside(rows: seq<Row>, i: nat, o: nat)
    requires i < |Cycles(rows)| && StartsAt(rows, o) && o < Cycles(rows)[i].1
    ensures o <= Cycles(rows)[i].0
  {
    hide Cycles, StartsAt, EndsAt;
    CyclesInTurn(rows);
  }

  lemma SameInstant(rows: seq<Row>, o: nat, k: nat, b: nat)
    requires InOrder(rows, false) && o <= k <= b < |rows| && rows[o].at == rows[b].at
    ensures rows[k].at == rows[o].at
  {
  }

  /** So fewer than three fills of the security at any one instant are enough for every
      lifecycle to keep a row of its own. */
  lemma {:induction false} FewFillsApart(rows: seq<Row>, account: AccountId, security: SecurityId, multiplier: nat)
    requires InOrder(rows, false)
    requires forall a: nat, b: nat, c: nat ::
               a < b < c < |rows| && FillsAt(rows, a) && FillsAt(rows, b) && FillsAt(rows, c) ==> rows[a].at != rows[c].at
    ensures DistinctKeys(ClosedRows(Run(rows, account, security, multiplier).plan), KeyOfClosed)
  {
    hide Run, ClosedRows, HeldOf;
    LifecyclesCollideExactlyWhen(rows, account, security, multiplier);
    forall o: nat, a: nat, b: nat | o < a < b < |rows| && StartsAt(rows, o) && EndsAt(rows, a) && EndsAt(rows, b)
      ensures rows[o].at != rows[b].at
    {
      assert FillsAt(rows, o) && FillsAt(rows, a) && FillsAt(rows, b);
    }
  }

  // ------------------------------------------------------------------------------ the lapse

  predicate Lapses(p: PositionRow, expiry: Option<nat>, last: Option<Time>) {
    expiry.Some? && last.Some? && p.quantity != 0.0 && DayOf(last.value) > expiry.value + 1
  }

  // Closed at zero: a long loses its cost, a short keeps its credit.
  function LapsedGross(average: real, quantity: real, direction: Direction, multiplier: real): real {
    (0.0 - average) * quantity * multiplier * (if direction.Long? then 1.0 else -1.0)
  }

  function LapsedRow(p: PositionRow, expiry: nat, multiplier: nat): ClosedRow {
    var gross := LapsedGross(p.average.GetOr(0.0), p.quantity, p.direction, multiplier as real);
    ClosedRow(p.account, p.security, p.quantity, p.direction, p.average, 0.0, gross, 0.0, gross, p.openingOrder, None,
              p.openedAt, Some(LapseAt(expiry)), HoldingPeriod(p.openedAt, Some(LapseAt(expiry))), None)
  }

  function Flattened(p: PositionRow): PositionRow {
    p.(quantity := 0.0, average := None, openingOrder := None, openedAt := None)
  }

  /** Close a lot whose contract expired without a settlement row. */
  function LapseExpiredLot(p: PositionRow, plan: seq<PlanItem>, expiry: Option<nat>, multiplier: nat, last: Option<Time>)
    : (PositionRow, seq<PlanItem>)
  {
    if !Lapses(p, expiry, last) then (p, plan)
    else (Flattened(p), plan + [PlanItem(Lapsed(p.security), false, Some(LapsedRow(p, expiry.value, multiplier)))])
  }

  /** A lot still held two days or more past its expiry is closed at zero, for the whole of it, at
      21:15 on the expiry day, for what it cost; any other stays as it is. */
  lemma LapseClosesAtZero(p: PositionRow, plan: seq<PlanItem>, expiry: Option<nat>, multiplier: nat, last: Option<Time>)
    ensures var (p', plan') := LapseExpiredLot(p, plan, expiry, multiplier, last);
            if expiry.Some? && last.Some? && p.quantity != 0.0 && last.value >= (expiry.value + 2) * 86_400_000_000 then
              && p'.account == p.account && p'.security == p.security && p'.direction == p.direction && p'.multiplier == p.multiplier
              && p'.carried == p.carried && p'.quantity == 0.0
              && p'.average.None? && p'.openingOrder.None? && p'.openedAt.None?
              && |plan'| == |plan| + 1 && plan'[..|plan|] == plan
              && plan'[|plan|].key == Lapsed(p.security) && !plan'[|plan|].marksOpen && plan'[|plan|].closed.Some?
              && var c := plan'[|plan|].closed.value;
                 && c.account == p.account && c.security == p.security && c.quantity == p.quantity && c.direction == p.direction
                 && c.averageOpen == p.average && c.averageClose == 0.0 && c.fees == 0.0 && c.net == c.realized
                 && c.realized == -Worth(SignedQuantity(p), p.average.GetOr(0.0), multiplier as real)
                 && c.openedAt == p.openedAt && c.closedAt == Some(expiry.value * 86_400_000_000 + 76_500_000_000)
                 && DaysBetween(c.openedAt, c.closedAt, c.holdingDays)
                 && c.openingOrder == p.openingOrder && c.closingOrder.None? && c.group.None?
            else p' == p && plan' == plan
  {
    hide HoldingPeriod;
    if last.Some? && expiry.Some? {
      HeldDays(p.openedAt, Some(LapseAt(expiry.value)));
      var a, q, m := p.average.GetOr(0.0), p.quantity, multiplier as real;
      assert (0.0 - a) * q * m * 1.0 == -(q * a * m);
      assert (0.0 - a) * q * m * -1.0 == -(-q * a * m);
    }
  }

  lemma LapsedGain(lot: Lot, p: PositionRow, expiry: nat, multiplier: nat)
    requires p.quantity == Abs(lot.quantity) && p.average == lot.average && lot.quantity != 0.0
    requires p.direction.Long? <==> lot.quantity > 0.0
    ensures LapsedRow(p, expiry, multiplier).realized == -OpenCost(lot, multiplier as real)
  {
    var a, q, m := p.average.GetOr(0.0), p.quantity, multiplier as real;
    if lot.quantity > 0.0 {
      assert (0.0 - a) * q * m * 1.0 == -(lot.quantity * a * m);
    } else {
      assert (0.0 - a) * q * m * -1.0 == -(lot.quantity * a * m);
    }
  }

  // The gain of the fill at row k against the average entry before it.
  function GainAt(rows: seq<Row>, k: nat, account: AccountId, security: SecurityId, multiplier: nat): real
    requires Quantified(rows) && k < |rows|
  {
    var before := Run(rows[..k], account, security, multiplier);
    var fill := FillOf(rows[k], HeldOf(rows[..k]), Tape(rows[..k], false) != [], false);
    if fill.Some? then
      ClosingGain(HeldOf(rows[..k]), before.lot.average.GetOr(0.0), fill.value.delta, fill.value.price, multiplier as real)
    else 0.0
  }

  // The gains of the rows from k on that reduced what was held.
  function GainsSince(rows: seq<Row>, k: nat, account: AccountId, security: SecurityId, multiplier: nat): real
    requires Quantified(rows)
  {
    if |rows| <= k then 0.0
    else
      var n := |rows| - 1;
      GainsSince(rows[..n], k, account, security, multiplier)
      + (if ReducesAt(rows, n) then GainAt(rows, n, account, security, multiplier) else 0.0)
  }

  // The fees of the rows from k on that filled.
  function FeesSince(rows: seq<Row>, k: nat): real {
    if |rows| <= k then 0.0
    else FeesSince(rows[..|rows| - 1], k) + (if FillsAt(rows, |rows| - 1) then FeesOf(rows[|rows| - 1]) else 0.0)
  }

  // The first row whose fees are the open lot's: a row that turned the holding around paid
  // them for the lot it ended.
  function FirstCharged(rows: seq<Row>): nat {
    var k := LotStart(rows);
    if EndsAt(rows, k) then k + 1 else k
  }

  // The open lot's profit and fees, over the rows since it began.
  ghost predicate Accumulated(lot: Lot, rows: seq<Row>, account: AccountId, security: SecurityId, multiplier: nat)
    requires Quantified(rows)
  {
    && lot.realized == GainsSince(rows, LotStart(rows) + 1, account, security, multiplier)
    && lot.fees == FeesSince(rows, FirstCharged(rows))
  }

  lemma {:induction false} LotAccumulates(rows: seq<Row>, account: AccountId, security: SecurityId, multiplier: nat)
    requires Quantified(rows) && HeldOf(rows) != 0.0
    ensures Accumulated(Run(rows, account, security, multiplier).lot, rows, account, security, multiplier)
  {
    hide Step, HeldOf, StartsAt, Accumulated;
    if rows == [] {
      NothingHeld();
    } else if StartsAt(rows, |rows| - 1) {
      AccumulatesFirst(rows, account, security, multiplier);
    } else {
      ChargedSame(rows);
      LotAccumulates(rows[..|rows| - 1], account, security, multiplier);
      AccumulatesNext(rows, account, security, multiplier);
    }
  }

  lemma AccumulatesFirst(rows: seq<Row>, account: AccountId, security: SecurityId, multiplier: nat)
    requires Quantified(rows) && rows != [] && StartsAt(rows, |rows| - 1)
    ensures Accumulated(Run(rows, account, security, multiplier).lot, rows, account, security, multiplier)
  {
    hide Step, ClosingGain, FeesOf, StartsAt, EndsAt, HeldOf, Tape, GainsSince, FeesSince, LotStart, FirstCharged, FillOf;
    var n := |rows| - 1;
    HeldAround(rows, account, security, multiplier);
    EndsByHeld(rows);
    StepByHeld(Run(rows[..n], account, security, multiplier), rows[n], account, security, multiplier);
    NothingSince(rows, account, security, multiplier);
  }

  lemma AccumulatesNext(rows: seq<Row>, account: AccountId, security: SecurityId, multiplier: nat)
    requires Quantified(rows) && rows != [] && HeldOf(rows) != 0.0 && !StartsAt(rows, |rows| - 1)
    requires Accumulated(Run(rows[..|rows| - 1], account, security, multiplier).lot, rows[..|rows| - 1], account, security, multiplier)
    ensures Accumulated(Run(rows, account, security, multiplier).lot, rows, account, security, multiplier)
  {
    hide Step, ClosingGain, FeesOf, StartsAt, EndsAt, HeldOf, Tape, LotStart, FirstCharged, FillOf, ReducesAt, FillsAt, GainAt;
    var n := |rows| - 1;
    HeldAround(rows, account, security, multiplier);
    EndsByHeld(rows);
    StepByHeld(Run(rows[..n], account, security, multiplier), rows[n], account, security, multiplier);
    ChargedSame(rows);
    GainIs(rows, account, security, multiplier);
  }

  lemma GainIs(rows: seq<Row>, account: AccountId, security: SecurityId, multiplier: nat)
    requires Quantified(rows) && rows != []
    ensures var n := |rows| - 1;
            var w := Run(rows[..n], account, security, multiplier);
            var fill := FillOf(rows[n], HeldOf(rows[..n]), Tape(rows[..n], false) != [], false);
            fill.Some? ==>
              GainAt(rows, n, account, security, multiplier)
              == ClosingGain(HeldOf(rows[..n]), w.lot.average.GetOr(0.0), fill.value.delta, fill.value.price, multiplier as real)
  {
  }

  lemma NothingSince(rows: seq<Row>, account: AccountId, security: SecurityId, multiplier: nat)
    requires Quantified(rows) && rows != [] && StartsAt(rows, |rows| - 1)
    ensures LotStart(rows) == |rows| - 1 && GainsSince(rows, |rows|, account, security, multiplier) == 0.0
    ensures FeesSince(rows, FirstCharged(rows)) == if EndsAt(rows, |rows| - 1) then 0.0 else FeesOf(rows[|rows| - 1])
  {
    hide FeesOf;
    EndsByHeld(rows);
    assert rows[..|rows| - 1 + 1] == rows;
    assert FeesSince(rows[..|rows| - 1], |rows| - 1) == 0.0;
  }

  lemma ChargedSame(rows: seq<Row>)
    requires rows != [] && HeldOf(rows) != 0.0 && !StartsAt(rows, |rows| - 1)
    ensures HeldOf(rows[..|rows| - 1]) != 0.0
    ensures LotStart(rows) == LotStart(rows[..|rows| - 1]) < |rows| - 1
    ensures FirstCharged(rows) == FirstCharged(rows[..|rows| - 1]) <= |rows| - 1
  {
    hide HeldOf;
    EndsByHeld(rows);
    CyclesInTurn(rows[..|rows| - 1]);
    Prefixes(rows, |rows| - 1, LotStart(rows[..|rows| - 1]));
  }

  /** What a lapse leaves out: of the cash, the gains of the fills that reduced the lot since it
      began; of the fees, those of the lot's fills. */
  lemma LapseAccounting(rows: seq<Row>, account: AccountId, security: SecurityId, multiplier: nat, existing: Option<PositionRow>,
                        expiry: Option<nat>, last: Option<Time>)
    requires Quantified(rows)
    requires Lapses(PositionOf(account, security, Run(rows, account, security, multiplier), multiplier, existing), expiry, last)
    ensures var w, tape := Run(rows, account, security, multiplier), Tape(rows, false);
            var p := PositionOf(account, security, w, multiplier, existing);
            var plan := LapseExpiredLot(p, w.plan, expiry, multiplier, last).1;
            && ClosedRealized(plan)
               == Cash(tape, multiplier as real) - GainsSince(rows, LotStart(rows) + 1, account, security, multiplier)
            && ClosedFees(plan) == TapeFees(tape) - FeesSince(rows, FirstCharged(rows))
  {
    hide Worth, LapsedRow, Step, GainsSince, FeesSince, LotStart, FirstCharged;
    AccountingIdentity(rows, account, security, multiplier);
    var w := Run(rows, account, security, multiplier);
    var p := PositionOf(account, security, w, multiplier, existing);
    LapsedGain(w.lot, p, expiry.value, multiplier);
    LapsedFees(p, expiry.value, multiplier);
    PlanAppend(w.plan, PlanItem(Lapsed(security), false, Some(LapsedRow(p, expiry.value, multiplier))));
    LotFollowsTape(rows, account, security, multiplier);
    LotAccumulates(rows, account, security, multiplier);
  }

  lemma {:induction false} NoReductionNoGain(rows: seq<Row>, k: nat, account: AccountId, security: SecurityId, multiplier: nat)
    requires Quantified(rows) && forall i :: k <= i < |rows| ==> !ReducesAt(rows, i)
    ensures GainsSince(rows, k, account, security, multiplier) == 0.0
  {
    hide ReducesAt, GainAt;
    if |rows| > k {
      var n := |rows| - 1;
      forall i | k <= i < n
        ensures !ReducesAt(rows[..n], i)
      {
        Prefixes(rows, n, i);
      }
      NoReductionNoGain(rows[..n], k, account, security, multiplier);
    }
  }

  /** So a lapsed security's closed rows carry all its cash when no fill has reduced its last
      lot since it began. */
  lemma LapseCompleteWhen(rows: seq<Row>, account: AccountId, security: SecurityId, multiplier: nat, existing: Option<PositionRow>,
                          expiry: Option<nat>, last: Option<Time>)
    requires Quantified(rows) && forall i :: LotStart(rows) < i < |rows| ==> !ReducesAt(rows, i)
    requires Lapses(PositionOf(account, security, Run(rows, account, security, multiplier), multiplier, existing), expiry, last)
    ensures var w := Run(rows, account, security, multiplier);
            var p := PositionOf(account, security, w, multiplier, existing);
            ClosedRealized(LapseExpiredLot(p, w.plan, expiry, multiplier, last).1) == Cash(Tape(rows, false), multiplier as real)
  {
    hide Run, LapseExpiredLot, ClosedRealized, Cash, ReducesAt, LotStart;
    LapseAccounting(rows, account, security, multiplier, existing, expiry, last);
    NoReductionNoGain(rows, LotStart(rows) + 1, account, security, multiplier);
  }

  lemma LapsedFees(p: PositionRow, expiry: nat, multiplier: nat)
    ensures LapsedRow(p, expiry, multiplier).fees == 0.0
  {
  }

  /** The lapsed lifecycle does not collide with the others either. */
  lemma {:induction false} LapsedApart(rows: seq<Row>, account: AccountId, security: SecurityId, multiplier: nat, existing: Option<PositionRow>,
                    expiry: Option<nat>, last: Option<Time>)
    requires InOrder(rows, true)
    ensures var w := Run(rows, account, security, multiplier);
            var p := PositionOf(account, security, w, multiplier, existing);
            DistinctKeys(ClosedRows(LapseExpiredLot(p, w.plan, expiry, multiplier, last).1), KeyOfClosed)
  {
    hide Step, LapsedRow;
    var w := Run(rows, account, security, multiplier);
    var p := PositionOf(account, security, w, multiplier, existing);
    LifecyclesApart(rows, account, security, multiplier);
    if Lapses(p, expiry, last) {
      LifecycleTimes(rows, account, security, multiplier, true);
      ClosedRowsAppend(w.plan, PlanItem(Lapsed(security), false, Some(LapsedRow(p, expiry.value, multiplier))));
      LapsedKey(p, expiry.value, multiplier);
    }
  }

  lemma LapsedKey(p: PositionRow, expiry: nat, multiplier: nat)
    ensures KeyOfClosed(LapsedRow(p, expiry, multiplier)) == (p.account, p.security, p.openedAt, Some(LapseAt(expiry)))
  {
  }

  // ------------------------------------------------------------------------- an example

  function BareTrade(number: nat, action: Action, price: real, at: Time): Row {
    Row(Broker(number), 0, OtherKind, OtherSubType, action, Some(0), Some(1.0), Some(price), None, false, None, None, None, None,
        Some(at), None)
  }

  function LongOne(price: real, at: Time): Lot {
    Lot(1.0, Some(price), Some(at), None, 0.0, 0.0)
  }

  lemma Bought(w: Walk, number: nat, price: real, at: Time)
    requires w.lot == FLAT
    ensures var w' := Step(w, BareTrade(number, Buy, price, at), 0, 0, 1);
            w'.lot == LongOne(price, at) && ClosedRows(w'.plan) == ClosedRows(w.plan)
  {
    ClosedRowsAppend(w.plan, Step(w, BareTrade(number, Buy, price, at), 0, 0, 1).plan[|w.plan|]);
  }

  lemma Sold(w: Walk, number: nat, bought: real, sold: real, at: Time)
    requires w.lot == LongOne(bought, at)
    ensures var w' := Step(w, BareTrade(number, Sell, sold, at), 0, 0, 1);
            && w'.lot == FLAT && |ClosedRows(w'.plan)| == |ClosedRows(w.plan)| + 1
            && ClosedRows(w'.plan)[..|ClosedRows(w.plan)|] == ClosedRows(w.plan)
            && var c := ClosedRows(w'.plan)[|ClosedRows(w.plan)|];
               c.realized == sold - bought && KeyOfClosed(c) == (0, 0, Some(at), Some(at))
  {
    ClosedRowsAppend(w.plan, Step(w, BareTrade(number, Sell, sold, at), 0, 0, 1).plan[|w.plan|]);
  }

  /** Four futures fills at one instant make two round trips that share a key, whatever each
      earned; a table keyed by it keeps only the one written last. */
  lemma CollisionExample(at: Time, gains: (real, real))
    ensures var rows := [BareTrade(0, Buy, 100.0, at), BareTrade(1, Sell, 100.0 + gains.0, at),
                         BareTrade(2, Buy, 100.0, at), BareTrade(3, Sell, 100.0 + gains.1, at)];
            && InOrder(rows, false) && Sort(rows, ReplayKey) == rows
            && var closed := ClosedRows(Run(rows, 0, 0, 1).plan);
               && |closed| == 2 && closed[0].realized == gains.0 && closed[1].realized == gains.1
               && KeyOfClosed(closed[0]) == KeyOfClosed(closed[1])
  {
    hide Step, Sort, ClosedRows, KeyOfClosed;
    var a, b := BareTrade(0, Buy, 100.0, at), BareTrade(1, Sell, 100.0 + gains.0, at);
    var c, d := BareTrade(2, Buy, 100.0, at), BareTrade(3, Sell, 100.0 + gains.1, at);
    SortFixed([a, b, c, d], ReplayKey);
    NothingClosed(0, 0, 1);
    var w1 := Step(START, a, 0, 0, 1);
    Bought(START, 0, 100.0, at);
    Sold(w1, 1, 100.0, 100.0 + gains.0, at);
    var w2 := Step(w1, b, 0, 0, 1);
    Bought(w2, 2, 100.0, at);
    Sold(Step(w2, c, 0, 0, 1), 3, 100.0, 100.0 + gains.1, at);
    FourSteps(a, b, c, d);
  }

  lemma FourSteps(a: Row, b: Row, c: Row, d: Row)
    requires Quantified([a, b, c, d])
    ensures Run([a, b, c, d], 0, 0, 1) == Step(Step(Step(Step(START, a, 0, 0, 1), b, 0, 0, 1), c, 0, 0, 1), d, 0, 0, 1)
  {
    hide Step;
    assert [a][..0] == [] && [a, b][..1] == [a] && [a, b, c][..2] == [a, b] && [a, b, c, d][..3] == [a, b, c];
    assert Run([a, b], 0, 0, 1) == Step(Run([a], 0, 0, 1), b, 0, 0, 1);
    assert Run([a, b, c], 0, 0, 1) == Step(Run([a, b], 0, 0, 1), c, 0, 0, 1);
  }
}
