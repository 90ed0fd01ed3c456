/** The position-accounting kernel: a weighted-average-cost lot per (account, security),
    rebuilt by walking that security's rows in time order. */
module Replay {
  import opened Rows
  import opened Ordering

  // ------------------------------------------------------------------ one row against a lot

  // Within one instant, opens are applied before closes and settlements.
  function ClosesLast(r: Row): int {
    if IsSettlement(r) || EndsToClose(r.action) then 1 else 0
  }

  // An undated row sorts as the earliest instant.
  function ReplayKey(r: Row): Key {
    (r.at.GetOr(0), ClosesLast(r))
  }

  function SignedDelta(a: Action, quantity: real): real {
    if Sells(a) then -quantity else quantity
  }

  // A settlement takes at most what the lot holds, toward zero.
  function SettlementDelta(quantity: real, held: real): real {
    var q := Min(Abs(quantity), Abs(held));
    if held > 0.0 then -q else q
  }

  // (signed delta, price) of one row against the quantity held; had says whether this walk
  // has ever held the security.
  function EffectiveDeltaPrice(r: Row, held: real, had: bool): (real, Option<real>)
    requires r.quantity.Some?
  {
    if r.kind.MoneyMovement? then (0.0, None)
    else if IsSettlement(r) then
      if held == 0.0 then (0.0, None)
      else (SettlementDelta(r.quantity.value, held), Some(r.price.GetOr(0.0)))
    else if held == 0.0 && !had && EndsToClose(r.action) then (0.0, None)
    else (SignedDelta(r.action, r.quantity.value), r.price)
  }

  // ------------------------------------------------------------------------------ the lot

  datatype Direction = Long | Short

  datatype Lot = Lot(
    quantity: real,
    average: Option<real>,
    openedAt: Option<Time>,
    openingOrder: Option<nat>,
    realized: real,
    fees: real)

  const FLAT := Lot(0.0, None, None, None, 0.0, 0.0)

  // The average is absent exactly when the lot is flat, and a flat lot carries nothing over.
  predicate ValidLot(lot: Lot) {
    && (lot.average.None? <==> lot.quantity == 0.0)
    && (lot.quantity == 0.0 ==> lot == FLAT)
  }

  datatype ClosedRow = ClosedRow(
    account: AccountId,
    security: SecurityId,
    quantity: real,
    direction: Direction,
    averageOpen: Option<real>,
    averageClose: real,
    realized: real,
    fees: real,
    net: real,
    openingOrder: Option<nat>,
    closingOrder: Option<nat>,
    openedAt: Option<Time>,
    closedAt: Option<Time>,
    holdingDays: Option<int>,
    group: Option<nat>)

  // A transaction of the walk, or the stand-in written when an expired lot is lapsed.
  datatype PlanKey = OfRow(id: TxnId) | Lapsed(security: SecurityId)

  datatype PlanItem = PlanItem(key: PlanKey, marksOpen: bool, closed: Option<ClosedRow>)

  function HoldingPeriod(openedAt: Option<Time>, closedAt: Option<Time>): Option<int> {
    if openedAt.None? || closedAt.None? then None
    else Some((closedAt.value - openedAt.value) / DAY)
  }

  function DirectionOf(quantity: real): Direction {
    if quantity > 0.0 then Long else Short
  }

  function ClosedRowOf(account: AccountId, security: SecurityId, lot: Lot, closePrice: real,
                       closingOrder: Option<nat>, closedAt: Option<Time>): ClosedRow {
    ClosedRow(account, security, Abs(lot.quantity), DirectionOf(lot.quantity), lot.average, closePrice,
              lot.realized, lot.fees, lot.realized - lot.fees, lot.openingOrder, closingOrder,
              lot.openedAt, closedAt, HoldingPeriod(lot.openedAt, closedAt), None)
  }

  function WeightedAverage(held: real, average: real, delta: real, price: real): real
    requires SameSide(held, delta)
  {
    (Abs(held) * average + Abs(delta) * price) / (Abs(held) + Abs(delta))
  }

  function ClosingGain(held: real, average: real, delta: real, price: real, multiplier: real): real {
    (price - average) * Min(Abs(delta), Abs(held)) * multiplier * (if held > 0.0 then 1.0 else -1.0)
  }

  datatype Walk = Walk(lot: Lot, lastDirection: Direction, had: bool, plan: seq<PlanItem>)

  const START := Walk(FLAT, Long, false, [])

  function Step(w: Walk, r: Row, account: AccountId, security: SecurityId, multiplier: nat): (w': Walk)
    requires r.quantity.Some? && ValidLot(w.lot)
    ensures ValidLot(w'.lot)
  {
    var key := OfRow(r.id);
    var (delta, price) := EffectiveDeltaPrice(r, w.lot.quantity, w.had);
    if delta == 0.0 || price.None? then
      w.(plan := w.plan + [PlanItem(key, false, None)])
    else
      var held, after := w.lot.quantity, w.lot.quantity + delta;
      if held == 0.0 then
        Walk(Lot(after, price, r.at, r.orderId, 0.0, FeesOf(r)), w.lastDirection, true,
             w.plan + [PlanItem(key, true, None)])
      else if SameSide(held, delta) then
        var average := WeightedAverage(held, w.lot.average.value, delta, price.value);
        Walk(w.lot.(quantity := after, average := Some(average), fees := w.lot.fees + FeesOf(r)), w.lastDirection, true,
             w.plan + [PlanItem(key, true, None)])
      else
        var gain := ClosingGain(held, w.lot.average.value, delta, price.value, multiplier as real);
        var lot := w.lot.(realized := w.lot.realized + gain, fees := w.lot.fees + FeesOf(r));
        var closed := ClosedRowOf(account, security, lot, price.value, r.orderId, r.at);
        if after == 0.0 then
          Walk(FLAT, closed.direction, true, w.plan + [PlanItem(key, false, Some(closed))])
        else if (after > 0.0) != (held > 0.0) then
          Walk(Lot(after, price, r.at, r.orderId, 0.0, 0.0), closed.direction, true,
               w.plan + [PlanItem(key, true, Some(closed))])
        else
          Walk(lot.(quantity := after), w.lastDirection, true, w.plan + [PlanItem(key, true, None)])
  }

  predicate Quantified(rows: seq<Row>) {
    forall r :: r in rows ==> r.quantity.Some?
  }

  function Run(rows: seq<Row>, account: AccountId, security: SecurityId, multiplier: nat): (w: Walk)
    requires Quantified(rows)
    ensures ValidLot(w.lot)
  {
    if rows == [] then START
    else Step(Run(rows[..|rows| - 1], account, security, multiplier), rows[|rows| - 1], account, security, multiplier)
  }

  // Fields of a stored position that replay has no opinion on and carries over.
  datatype Carried = Carried(
    markPrice: Option<real>,
    closePrice: Option<real>,
    unrealized: Option<real>,
    dayGain: Option<real>,
    expiresAt: Option<Time>,
    strategy: Option<nat>,
    group: Option<nat>)

  const NOTHING_CARRIED := Carried(None, None, None, None, None, None, None)

  datatype PositionRow = PositionRow(
    account: AccountId,
    security: SecurityId,
    quantity: real,
    direction: Direction,
    average: Option<real>,
    multiplier: nat,
    openingOrder: Option<nat>,
    openedAt: Option<Time>,
    carried: Carried)

  function PositionOf(account: AccountId, security: SecurityId, w: Walk, multiplier: nat,
                      existing: Option<PositionRow>): PositionRow {
    var q := w.lot.quantity;
    PositionRow(account, security, Abs(q), if q > 0.0 then Long else if q < 0.0 then Short else w.lastDirection,
                w.lot.average, multiplier, w.lot.openingOrder, w.lot.openedAt,
                if existing.Some? then existing.value.carried else NOTHING_CARRIED)
  }

  function SignedQuantity(p: PositionRow): real {
    if p.direction.Long? then p.quantity else -p.quantity
  }

  /** The full walk over one security's ordered rows. */
  method ReplaySecurity(account: AccountId, security: SecurityId, rows: seq<Row>, multiplier: nat,
                        existing: Option<PositionRow>)
    returns (position: PositionRow, plan: seq<PlanItem>)
    requires Quantified(rows)
    ensures plan == Run(rows, account, security, multiplier).plan
    ensures position == PositionOf(account, security, Run(rows, account, security, multiplier), multiplier, existing)
  {
    hide WeightedAverage, ClosingGain;
    var lot, lastDirection, had := FLAT, Long, false;
    plan := [];
    for i := 0 to |rows|
      invariant Walk(lot, lastDirection, had, plan) == Run(rows[..i], account, security, multiplier)
    {
      var row := rows[i];
      assert rows[..i + 1][..i] == rows[..i];
      ghost var next := Step(Walk(lot, lastDirection, had, plan), row, account, security, multiplier);
      assert Run(rows[..i + 1], account, security, multiplier) == next;
      var key := OfRow(row.id);
      var (delta, price) := EffectiveDeltaPrice(row, lot.quantity, had);
      if delta == 0.0 || price.None? {
        plan := plan + [PlanItem(key, false, None)];
        continue;
      }
      var held, after := lot.quantity, lot.quantity + delta;
      had := true;
      if held == 0.0 {
        lot := Lot(after, price, row.at, row.orderId, 0.0, FeesOf(row));
        plan := plan + [PlanItem(key, true, None)];
        continue;
      }
      if SameSide(held, delta) {
        var average := WeightedAverage(held, lot.average.value, delta, price.value);
        lot := lot.(average := Some(average), quantity := after, fees := lot.fees + FeesOf(row));
        plan := plan + [PlanItem(key, true, None)];
        continue;
      }
      var gain := ClosingGain(held, lot.average.value, delta, price.value, multiplier as real);
      lot := lot.(realized := lot.realized + gain, fees := lot.fees + FeesOf(row));
      if after == 0.0 {
        var closed := ClosedRowOf(account, security, lot, price.value, row.orderId, row.at);
        lastDirection := closed.direction;
        plan := plan + [PlanItem(key, false, Some(closed))];
        lot := FLAT;
      } else if (after > 0.0) != (held > 0.0) {
        var closed := ClosedRowOf(account, security, lot, price.value, row.orderId, row.at);
        lastDirection := closed.direction;
        lot := Lot(after, price, row.at, row.orderId, 0.0, 0.0);
        plan := plan + [PlanItem(key, true, Some(closed))];
      } else {
        lot := lot.(quantity := after);
        plan := plan + [PlanItem(key, true, None)];
      }
    }
    assert rows[..|rows|] == rows;
    position := PositionOf(account, security, Walk(lot, lastDirection, had, plan), multiplier, existing);
  }

  // ---------------------------------------------------------------------- the fill tape

  /** What the walk actually traded, independent of any lot: the applied deltas and prices. */
  datatype Fill = Fill(delta: real, price: real, fees: real)

  function Held(tape: seq<Fill>): real {
    if tape == [] then 0.0 else Held(tape[..|tape| - 1]) + tape[|tape| - 1].delta
  }

  // What a quantity is worth at a price.
  function Worth(quantity: real, price: real, multiplier: real): real {
    quantity * price * multiplier
  }

  function Cash(tape: seq<Fill>, multiplier: real): real {
    if tape == [] then 0.0
    else Cash(tape[..|tape| - 1], multiplier) - Worth(tape[|tape| - 1].delta, tape[|tape| - 1].price, multiplier)
  }

  // Cash measured against a reference price S instead of zero.
  function CashAgainst(tape: seq<Fill>, reference: real, multiplier: real): real {
    if tape == [] then 0.0
    else CashAgainst(tape[..|tape| - 1], reference, multiplier)
         - Worth(tape[|tape| - 1].delta, tape[|tape| - 1].price - reference, multiplier)
  }

  function TapeFees(tape: seq<Fill>): real {
    if tape == [] then 0.0 else TapeFees(tape[..|tape| - 1]) + tape[|tape| - 1].fees
  }

  // At group grain a close stops at what is held.
  function Capped(delta: real, held: real, clamp: bool): real {
    if clamp && Opposite(held, delta)
    then (if delta > 0.0 then Min(Abs(delta), Abs(held)) else -Min(Abs(delta), Abs(held)))
    else delta
  }

  function FillOf(r: Row, held: real, had: bool, clamp: bool): Option<Fill> {
    if r.quantity.None? then None
    else
      var (delta, price) := EffectiveDeltaPrice(r, held, had);
      var capped := Capped(delta, held, clamp);
      if capped == 0.0 || price.None? then None else Some(Fill(capped, price.value, FeesOf(r)))
  }

  function Tape(rows: seq<Row>, clamp: bool): seq<Fill> {
    if rows == [] then []
    else
      var before := Tape(rows[..|rows| - 1], clamp);
      var fill := FillOf(rows[|rows| - 1], Held(before), before != [], clamp);
      if fill.Some? then before + [fill.value] else before
  }

  lemma TapeAppend(tape: seq<Fill>, f: Fill, multiplier: real, reference: real)
    ensures Held(tape + [f]) == Held(tape) + f.delta
    ensures Cash(tape + [f], multiplier) == Cash(tape, multiplier) - Worth(f.delta, f.price, multiplier)
    ensures CashAgainst(tape + [f], reference, multiplier)
         == CashAgainst(tape, reference, multiplier) - Worth(f.delta, f.price - reference, multiplier)
    ensures TapeFees(tape + [f]) == TapeFees(tape) + f.fees
  {
    assert (tape + [f])[..|tape|] == tape;
  }

  // The lot's quantity is the tape's running sum, and "has held" is "has filled".
  lemma {:induction false} LotFollowsTape(rows: seq<Row>, account: AccountId, security: SecurityId, multiplier: nat)
    requires Quantified(rows)
    ensures Run(rows, account, security, multiplier).lot.quantity == Held(Tape(rows, false))
    ensures Run(rows, account, security, multiplier).had <==> Tape(rows, false) != []
  {
    if rows != [] {
      var front, r := rows[..|rows| - 1], rows[|rows| - 1];
      LotFollowsTape(front, account, security, multiplier);
      var before := Tape(front, false);
      var fill := FillOf(r, Held(before), before != [], false);
      if fill.Some? {
        TapeAppend(before, fill.value, 1.0, 0.0);
      }
    }
  }

  // ---------------------------------------------------------------- accounting identities

  function ClosedRealized(plan: seq<PlanItem>): real {
    if plan == [] then 0.0
    else ClosedRealized(plan[..|plan| - 1]) +
         RealizedOf(plan[|plan| - 1].closed)
  }

  function ClosedFees(plan: seq<PlanItem>): real {
    if plan == [] then 0.0
    else ClosedFees(plan[..|plan| - 1]) +
         ClosedFeesOf(plan[|plan| - 1].closed)
  }

  lemma PlanAppend(plan: seq<PlanItem>, item: PlanItem)
    ensures ClosedRealized(plan + [item]) ==
            ClosedRealized(plan) + RealizedOf(item.closed)
    ensures ClosedFees(plan + [item]) ==
            ClosedFees(plan) + ClosedFeesOf(item.closed)
  {
    assert (plan + [item])[..|plan|] == plan;
  }

  // Cost basis of what is still held.
  function OpenCost(lot: Lot, multiplier: real): real {
    Worth(lot.quantity, lot.average.GetOr(0.0), multiplier)
  }

  lemma WorthOfNothing(price: real, multiplier: real)
    ensures Worth(0.0, price, multiplier) == 0.0
  {
    assert 0.0 * price == 0.0;
  }

  // Scaling in moves exactly the new fill's cash into the basis.
  lemma ScaleInCost(held: real, average: real, delta: real, price: real, m: real)
    requires SameSide(held, delta)
    ensures Worth(held + delta, WeightedAverage(held, average, delta, price), m)
         == Worth(held, average, m) + Worth(delta, price, m)
  {
    var total := Abs(held) + Abs(delta);
    var w := WeightedAverage(held, average, delta, price);
    assert w * total == Abs(held) * average + Abs(delta) * price;
    if held > 0.0 {
      assert held + delta == total;
    } else {
      assert held + delta == -total;
      assert (held + delta) * w == held * average + delta * price;
    }
    assert (held + delta) * w == held * average + delta * price;
  }

  // Reducing within the lot: gain plus remaining basis accounts for the fill's cash.
  lemma ReduceCost(held: real, average: real, delta: real, price: real, m: real)
    requires Opposite(held, delta) && Abs(delta) <= Abs(held)
    ensures ClosingGain(held, average, delta, price, m) - Worth(held + delta, average, m)
         == -Worth(held, average, m) - Worth(delta, price, m)
  {
    var c := Min(Abs(delta), Abs(held));
    if held > 0.0 {
      assert c == -delta;
      assert ClosingGain(held, average, delta, price, m) == (price - average) * (-delta) * m;
    } else {
      assert c == delta;
      assert ClosingGain(held, average, delta, price, m) == (price - average) * delta * m * -1.0;
      assert (price - average) * delta * m * -1.0 == (price - average) * (-delta) * m;
    }
    assert (price - average) * (-delta) * m == -(price * delta * m) + average * delta * m;
    assert (held + delta) * average * m == held * average * m + delta * average * m;
  }

  // Going through zero: the lot held is closed in full and the rest is opened at the price.
  lemma FlipCost(held: real, average: real, delta: real, price: real, m: real)
    requires Opposite(held, delta) && Abs(delta) > Abs(held)
    ensures ClosingGain(held, average, delta, price, m) - Worth(held + delta, price, m)
         == -Worth(held, average, m) - Worth(delta, price, m)
  {
    var c := Min(Abs(delta), Abs(held));
    if held > 0.0 {
      assert c == held;
      assert ClosingGain(held, average, delta, price, m) == (price - average) * held * m;
    } else {
      assert c == -held;
      assert ClosingGain(held, average, delta, price, m) == (price - average) * (-held) * m * -1.0;
      assert (price - average) * (-held) * m * -1.0 == (price - average) * held * m;
    }
    assert (price - average) * held * m == price * held * m - average * held * m;
    assert (held + delta) * price * m == held * price * m + delta * price * m;
  }

  function RealizedOf(closed: Option<ClosedRow>): real {
    if closed.Some? then closed.value.realized else 0.0
  }

  function ClosedFeesOf(closed: Option<ClosedRow>): real {
    if closed.Some? then closed.value.fees else 0.0
  }

  function CashOf(fill: Option<Fill>, multiplier: real): real {
    if fill.Some? then -Worth(fill.value.delta, fill.value.price, multiplier) else 0.0
  }

  function FillFees(fill: Option<Fill>): real {
    if fill.Some? then fill.value.fees else 0.0
  }

  // What one row adds: its fill's cash, split between realized profit and basis, and its fees.
  lemma StepIdentity(w: Walk, r: Row, account: AccountId, security: SecurityId, multiplier: nat)
    requires r.quantity.Some? && ValidLot(w.lot)
    ensures var w' := Step(w, r, account, security, multiplier);
            var m := multiplier as real;
            && |w'.plan| == |w.plan| + 1 && w'.plan[..|w.plan|] == w.plan
            && var closed, fill := w'.plan[|w.plan|].closed, FillOf(r, w.lot.quantity, w.had, false);
            && RealizedOf(closed) + w'.lot.realized - OpenCost(w'.lot, m)
               == w.lot.realized - OpenCost(w.lot, m) + CashOf(fill, m)
            && ClosedFeesOf(closed) + w'.lot.fees == w.lot.fees + FillFees(fill)
  {
    hide Worth, WeightedAverage, ClosingGain;
    var fill := FillOf(r, w.lot.quantity, w.had, false);
    WorthOfNothing(w.lot.average.GetOr(0.0), multiplier as real);
    WorthOfNothing(0.0, multiplier as real);
    if fill.Some? && w.lot.quantity != 0.0 {
      var f, m, held, average := fill.value, multiplier as real, w.lot.quantity, w.lot.average.value;
      if SameSide(held, f.delta) {
        ScaleInCost(held, average, f.delta, f.price, m);
      } else if Abs(f.delta) <= Abs(held) {
        ReduceCost(held, average, f.delta, f.price, m);
      } else {
        FlipCost(held, average, f.delta, f.price, m);
      }
    }
  }

  // The walk's books against the tape.
  predicate Balanced(w: Walk, tape: seq<Fill>, multiplier: real) {
    && ClosedRealized(w.plan) + w.lot.realized - OpenCost(w.lot, multiplier) == Cash(tape, multiplier)
    && ClosedFees(w.plan) + w.lot.fees == TapeFees(tape)
  }

  lemma StaysBalanced(w: Walk, w': Walk, item: PlanItem, fill: Option<Fill>, tape: seq<Fill>, m: real)
    requires Balanced(w, tape, m) && w'.plan == w.plan + [item]
    requires RealizedOf(item.closed) + w'.lot.realized - OpenCost(w'.lot, m)
          == w.lot.realized - OpenCost(w.lot, m) + CashOf(fill, m)
    requires ClosedFeesOf(item.closed) + w'.lot.fees == w.lot.fees + FillFees(fill)
    ensures Balanced(w', if fill.Some? then tape + [fill.value] else tape, m)
  {
    hide Worth;
    PlanAppend(w.plan, item);
    if fill.Some? {
      TapeAppend(tape, fill.value, m, 0.0);
    }
  }

  /** Nothing is created or lost: closed and open realized profit less the open cost basis is
      the cash of the fills, and every fill's fees sit in exactly one lifecycle. */
  lemma {:induction false} AccountingIdentity(rows: seq<Row>, account: AccountId, security: SecurityId, multiplier: nat)
    requires Quantified(rows)
    ensures Balanced(Run(rows, account, security, multiplier), Tape(rows, false), multiplier as real)
  {
    hide Worth, WeightedAverage, ClosingGain, FeesOf;
    WorthOfNothing(0.0, multiplier as real);
    if rows != [] {
      var front, r := rows[..|rows| - 1], rows[|rows| - 1];
      AccountingIdentity(front, account, security, multiplier);
      LotFollowsTape(front, account, security, multiplier);
      var w := Run(front, account, security, multiplier);
      StepIdentity(w, r, account, security, multiplier);
      var w' := Step(w, r, account, security, multiplier);
      assert w'.plan == w.plan + [w'.plan[|w.plan|]];
      StaysBalanced(w, w', w'.plan[|w.plan|], FillOf(r, w.lot.quantity, w.had, false), Tape(front, false), multiplier as real);
    }
  }
}
