/** What single rows do to a holding, verb by verb and settlement by settlement, in the full
    walk and in the two reduced ones. */
module Settlements {
  import opened Rows
  import opened Ordering
  import opened Replay
  import opened Lifecycles
  import opened ReducedWalks

  // ------------------------------------------------------------------------- settlements

  // Moved toward zero by as much of the quantity as there is to take.
  predicate Retired(held: real, quantity: real, after: real) {
    && Abs(after) == Max(0.0, Abs(held) - Abs(quantity))
    && (after == 0.0 || SameSide(held, after))
  }

  lemma OneMoreRow(rows: seq<Row>, r: Row, account: AccountId, security: SecurityId, multiplier: nat)
    requires Quantified(rows) && r.quantity.Some?
    ensures (rows + [r])[..|rows|] == rows && Quantified(rows + [r])
    ensures Run(rows + [r], account, security, multiplier)
         == Step(Run(rows, account, security, multiplier), r, account, security, multiplier)
    ensures NetRun(rows + [r]) == NetStep(NetRun(rows), r)
    ensures Run(rows, account, security, multiplier).lot.quantity == HeldOf(rows)
    ensures Run(rows, account, security, multiplier).had <==> Tape(rows, false) != []
  {
    hide Step, NetStep, Tape;
    assert (rows + [r])[..|rows|] == rows;
    LotFollowsTape(rows, account, security, multiplier);
  }

  lemma OneMoreFill(rows: seq<Row>, r: Row, multiplier: nat, clamp: bool)
    ensures PriceRun(rows + [r], multiplier, clamp) == PriceStep(PriceRun(rows, multiplier, clamp), r, multiplier, clamp)
    ensures PriceRun(rows, multiplier, clamp).quantity == Held(Tape(rows, clamp))
    ensures PriceRun(rows + [r], multiplier, clamp).quantity == Held(Tape(rows + [r], clamp))
  {
    hide PriceStep, Tape;
    assert (rows + [r])[..|rows|] == rows;
    PriceFollowsTape(rows, multiplier, clamp);
    PriceFollowsTape(rows + [r], multiplier, clamp);
  }

  // The lot ended whole by a row, at its price or at zero.
  ghost predicate EndedBy(w: Walk, w': Walk, r: Row) {
    && w'.lot == FLAT && |ClosedRows(w'.plan)| == |ClosedRows(w.plan)| + 1
    && var c := ClosedRows(w'.plan)[|ClosedRows(w.plan)|];
       && c.averageClose == r.price.GetOr(0.0) && c.quantity == Abs(w.lot.quantity) && c.averageOpen == w.lot.average
       && c.openedAt == w.lot.openedAt && c.closedAt == r.at && c.closingOrder == r.orderId
  }

  lemma LotSettled(w: Walk, r: Row, account: AccountId, security: SecurityId, multiplier: nat)
    requires ValidLot(w.lot) && IsSettlement(r) && r.quantity.Some?
    ensures var w' := Step(w, r, account, security, multiplier);
            && Retired(w.lot.quantity, r.quantity.value, w'.lot.quantity)
            && (w.lot.quantity != 0.0 && Abs(r.quantity.value) >= Abs(w.lot.quantity) ==> EndedBy(w, w', r))
  {
    hide ClosingGain, FeesOf, HoldingPeriod, ClosedRows, WeightedAverage;
    var w' := Step(w, r, account, security, multiplier);
    assert w'.plan == w.plan + [w'.plan[|w.plan|]];
    ClosedRowsAppend(w.plan, w'.plan[|w.plan|]);
  }

  lemma NetSettled(s: NetState, r: Row)
    requires IsSettlement(r) && r.quantity.Some?
    ensures Retired(s.quantity, r.quantity.value, NetStep(s, r).quantity)
  {
  }

  lemma PriceSettled(s: PriceState, r: Row, multiplier: nat, clamp: bool)
    requires ValidPrice(s) && IsSettlement(r) && r.quantity.Some?
    ensures Retired(s.quantity, r.quantity.value, PriceStep(s, r, multiplier, clamp).quantity)
  {
    hide ClosingGain, FeesOf, WeightedAverage;
  }

  /** A settlement takes from what is held no more than there is and no more than it says, in
      every walk. One that covers the whole lot closes it at its price, or at zero without one. */
  lemma SettlementRetires(rows: seq<Row>, r: Row, account: AccountId, security: SecurityId, multiplier: nat, clamp: bool)
    requires Quantified(rows) && IsSettlement(r) && r.quantity.Some?
    ensures Quantified(rows + [r])
    ensures var w, w' := Run(rows, account, security, multiplier), Run(rows + [r], account, security, multiplier);
            && Retired(w.lot.quantity, r.quantity.value, w'.lot.quantity)
            && (w.lot.quantity != 0.0 && Abs(r.quantity.value) >= Abs(w.lot.quantity) ==> EndedBy(w, w', r))
    ensures Retired(NetRun(rows).quantity, r.quantity.value, NetRun(rows + [r]).quantity)
    ensures Retired(PriceRun(rows, multiplier, clamp).quantity, r.quantity.value, PriceRun(rows + [r], multiplier, clamp).quantity)
  {
    hide Run, NetRun, PriceRun, Step, NetStep, PriceStep, Retired, EndedBy;
    OneMoreRow(rows, r, account, security, multiplier);
    OneMoreFill(rows, r, multiplier, clamp);
    LotSettled(Run(rows, account, security, multiplier), r, account, security, multiplier);
    NetSettled(NetRun(rows), r);
    PriceSettled(PriceRun(rows, multiplier, clamp), r, multiplier, clamp);
  }

  // ------------------------------------------------------------------------------- trades

  predicate SaysClose(a: Action) {
    a.BuyToClose? || a.SellToClose? || (a.Unlisted? && a.endsToClose)
  }

  /** An explicit close before anything has been held, and cash that only moves money, leave every
      walk as it was. */
  lemma SkippedRows(rows: seq<Row>, r: Row, account: AccountId, security: SecurityId, multiplier: nat)
    requires Quantified(rows) && r.quantity.Some? && !IsSettlement(r)
    ensures Quantified(rows + [r])
    ensures r.kind.MoneyMovement? || (SaysClose(r.action) && Tape(rows, false) == []) ==>
              var w, w' := Run(rows, account, security, multiplier), Run(rows + [r], account, security, multiplier);
              w'.lot == w.lot && ClosedRows(w'.plan) == ClosedRows(w.plan) && Tape(rows + [r], false) == Tape(rows, false)
    ensures r.kind.MoneyMovement? || (SaysClose(r.action) && NetRun(rows).quantity == 0.0 && !NetRun(rows).had) ==>
              NetRun(rows + [r]) == NetRun(rows)
  {
    hide FeesOf, HoldingPeriod, Run, NetRun, ClosedRows, WeightedAverage, ClosingGain;
    OneMoreRow(rows, r, account, security, multiplier);
    var w, w' := Run(rows, account, security, multiplier), Run(rows + [r], account, security, multiplier);
    assert w'.plan == w.plan + [w'.plan[|w.plan|]];
    ClosedRowsAppend(w.plan, w'.plan[|w.plan|]);
  }

  predicate Buys(a: Action) {
    a.BuyToOpen? || a.BuyToClose? || a.Buy? || (a.Unlisted? && !a.sells)
  }

  // A trade of something, at a price, that no walk skips.
  predicate PlainTrade(r: Row, held: real, had: bool) {
    && !r.kind.MoneyMovement? && !IsSettlement(r) && !r.action.NoAction?
    && r.quantity.Some? && r.quantity.value > 0.0 && r.price.Some?
    && !(held == 0.0 && !had && EndsToClose(r.action))
  }

  // What buying or selling the row's quantity leaves.
  function Traded(held: real, r: Row): real {
    if Buys(r.action) then held + r.quantity.GetOr(0.0) else held - r.quantity.GetOr(0.0)
  }

  /** Buying, whatever it is for, raises what is held by the quantity and selling lowers it, in
      the walk of replay and in the account's net. A lot opened so costs its price; one closed
      so gains the price difference, times quantity and multiplier, on its own side. */
  lemma TradeMoves(rows: seq<Row>, r: Row, account: AccountId, security: SecurityId, multiplier: nat)
    requires Quantified(rows) && PlainTrade(r, HeldOf(rows), Tape(rows, false) != [])
    ensures Quantified(rows + [r])
    ensures var w, w' := Run(rows, account, security, multiplier), Run(rows + [r], account, security, multiplier);
            && w'.lot.quantity == Traded(w.lot.quantity, r)
            && (w.lot.quantity == 0.0 ==> w'.lot.average == r.price && w'.lot.openedAt == r.at && w'.lot.openingOrder == r.orderId)
            && (w.lot.quantity != 0.0 && w'.lot.quantity == 0.0 ==>
                  && |ClosedRows(w'.plan)| == |ClosedRows(w.plan)| + 1
                  && var c := ClosedRows(w'.plan)[|ClosedRows(w.plan)|];
                     c.realized - w.lot.realized
                     == Worth(w.lot.quantity, r.price.value, multiplier as real)
                        - Worth(w.lot.quantity, w.lot.average.value, multiplier as real))
    ensures !ClosesUnseen(r, NetRun(rows).quantity, NetRun(rows).had) ==>
              NetRun(rows + [r]).quantity == Traded(NetRun(rows).quantity, r)
  {
    hide FeesOf, HoldingPeriod, Run, NetRun, ClosedRows, WeightedAverage, Tape, ClosingGain, Worth;
    OneMoreRow(rows, r, account, security, multiplier);
    var w, w' := Run(rows, account, security, multiplier), Run(rows + [r], account, security, multiplier);
    assert w'.plan == w.plan + [w'.plan[|w.plan|]];
    ClosedRowsAppend(w.plan, w'.plan[|w.plan|]);
    if w.lot.quantity != 0.0 && w'.lot.quantity == 0.0 {
      GainIsDifference(w.lot.quantity, w.lot.average.value, r.price.value, multiplier as real);
    }
  }

  lemma GainIsDifference(held: real, average: real, price: real, m: real)
    requires held != 0.0
    ensures ClosingGain(held, average, -held, price, m) == Worth(held, price, m) - Worth(held, average, m)
  {
    if held > 0.0 {
      assert (price - average) * held * m * 1.0 == held * price * m - held * average * m;
    } else {
      assert (price - average) * (-held) * m * -1.0 == held * price * m - held * average * m;
    }
  }
}
