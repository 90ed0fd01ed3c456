/** The two reduced walks over the same rows: realized profit only (price_realized_gross,
    optionally clamped to what is held) and quantity only (net_open_quantities). */
module ReducedWalks {
  import opened Rows
  import opened Ordering
  import opened Replay

  // ------------------------------------------------------------------- realized profit only

  datatype PriceState = PriceState(quantity: real, average: Option<real>, had: bool, realized: real)

  const PRICE_START := PriceState(0.0, None, false, 0.0)

  predicate ValidPrice(s: PriceState) {
    s.average.None? <==> s.quantity == 0.0
  }

  function PriceStep(s: PriceState, r: Row, multiplier: nat, clamp: bool): (s': PriceState)
    requires ValidPrice(s)
    ensures ValidPrice(s')
  {
    var fill := FillOf(r, s.quantity, s.had, clamp);
    if fill.None? then s
    else
      var held, delta, price := s.quantity, fill.value.delta, fill.value.price;
      if held == 0.0 then PriceState(delta, Some(price), true, s.realized)
      else if SameSide(held, delta) then
        PriceState(held + delta, Some(WeightedAverage(held, s.average.value, delta, price)), true, s.realized)
      else
        var realized := s.realized + ClosingGain(held, s.average.value, delta, price, multiplier as real);
        if held + delta == 0.0 then PriceState(0.0, None, true, realized)
        else if (held + delta > 0.0) != (held > 0.0) then PriceState(held + delta, Some(price), true, realized)
        else PriceState(held + delta, s.average, true, realized)
  }

  function PriceRun(rows: seq<Row>, multiplier: nat, clamp: bool): (s: PriceState)
    ensures ValidPrice(s)
  {
    if rows == [] then PRICE_START
    else PriceStep(PriceRun(rows[..|rows| - 1], multiplier, clamp), rows[|rows| - 1], multiplier, clamp)
  }

  /** Gross realized profit over one security's rows, given in any order. */
  method PriceRealizedGross(rows: seq<Row>, multiplier: nat, clampCloses: bool) returns (realized: real)
    ensures realized == PriceRun(Sort(rows, ReplayKey), multiplier, clampCloses).realized
  {
    hide WeightedAverage, ClosingGain, EffectiveDeltaPrice, FeesOf;
    var ordered := Sort(rows, ReplayKey);
    var quantity, average: Option<real>, had := 0.0, None, false;
    realized := 0.0;
    for i := 0 to |ordered|
      invariant PriceState(quantity, average, had, realized) == PriceRun(ordered[..i], multiplier, clampCloses)
    {
      var row := ordered[i];
      assert ordered[..i + 1][..i] == ordered[..i];
      if row.quantity.None? {
        continue;
      }
      var (delta, price) := EffectiveDeltaPrice(row, quantity, had);
      if clampCloses && delta != 0.0 && quantity != 0.0 && Opposite(quantity, delta) {
        var capped := Min(Abs(delta), Abs(quantity));
        delta := if delta > 0.0 then capped else -capped;
      }
      ghost var next := PriceStep(PriceState(quantity, average, had, realized), row, multiplier, clampCloses);
      assert PriceRun(ordered[..i + 1], multiplier, clampCloses) == next;
      if delta == 0.0 || price.None? {
        continue;
      }
      var held, after := quantity, quantity + delta;
      had := true;
      if held == 0.0 {
        quantity, average := after, price;
        continue;
      }
      if SameSide(held, delta) {
        average := Some(WeightedAverage(held, average.value, delta, price.value));
        quantity := after;
        continue;
      }
      realized := realized + ClosingGain(held, average.value, delta, price.value, multiplier as real);
      if after == 0.0 {
        quantity, average := 0.0, None;
      } else if (after > 0.0) != (held > 0.0) {
        quantity, average := after, price;
      } else {
        quantity := after;
      }
    }
    assert ordered[..|ordered|] == ordered;
  }

  lemma {:induction false} PriceFollowsTape(rows: seq<Row>, multiplier: nat, clamp: bool)
    ensures var s := PriceRun(rows, multiplier, clamp);
            && s.quantity == Held(Tape(rows, clamp))
            && (s.had <==> Tape(rows, clamp) != [])
  {
    hide WeightedAverage, ClosingGain;
    if rows != [] {
      var front, r := rows[..|rows| - 1], rows[|rows| - 1];
      PriceFollowsTape(front, multiplier, clamp);
      var before := Tape(front, clamp);
      var fill := FillOf(r, Held(before), before != [], clamp);
      if fill.Some? {
        TapeAppend(before, fill.value, 1.0, 0.0);
      }
    }
  }

  // One step of the identity below.
  lemma PriceStepIdentity(s: PriceState, r: Row, multiplier: nat, clamp: bool)
    requires ValidPrice(s)
    ensures var s', m := PriceStep(s, r, multiplier, clamp), multiplier as real;
            s'.realized - Worth(s'.quantity, s'.average.GetOr(0.0), m)
            == s.realized - Worth(s.quantity, s.average.GetOr(0.0), m) + CashOf(FillOf(r, s.quantity, s.had, clamp), m)
  {
    hide Worth, WeightedAverage, ClosingGain;
    var fill, m := FillOf(r, s.quantity, s.had, clamp), multiplier as real;
    WorthOfNothing(s.average.GetOr(0.0), m);
    WorthOfNothing(0.0, m);
    if fill.Some? && s.quantity != 0.0 {
      var f, held, average := fill.value, s.quantity, s.average.value;
      if SameSide(held, f.delta) {
        ScaleInCost(held, average, f.delta, f.price, m);
      } else if Abs(f.delta) <= Abs(held) {
        ReduceCost(held, average, f.delta, f.price, m);
      } else {
        FlipCost(held, average, f.delta, f.price, m);
      }
    }
  }

  /** Realized profit less the basis still held is the cash of the fills, clamped or not. */
  lemma {:induction false} PriceIdentity(rows: seq<Row>, multiplier: nat, clamp: bool)
    ensures var s, m := PriceRun(rows, multiplier, clamp), multiplier as real;
            s.realized - Worth(s.quantity, s.average.GetOr(0.0), m) == Cash(Tape(rows, clamp), m)
  {
    hide Worth, WeightedAverage, ClosingGain;
    WorthOfNothing(0.0, multiplier as real);
    if rows != [] {
      var front, r := rows[..|rows| - 1], rows[|rows| - 1];
      PriceIdentity(front, multiplier, clamp);
      PriceFollowsTape(front, multiplier, clamp);
      var s := PriceRun(front, multiplier, clamp);
      PriceStepIdentity(s, r, multiplier, clamp);
      var fill := FillOf(r, s.quantity, s.had, clamp);
      if fill.Some? {
        TapeAppend(Tape(front, clamp), fill.value, multiplier as real, 0.0);
      }
    }
  }

  // What the reduced walk keeps of the full one.
  predicate Refines(s: PriceState, w: Walk) {
    && s.quantity == w.lot.quantity && s.average == w.lot.average && s.had == w.had
    && s.realized == ClosedRealized(w.plan) + w.lot.realized
  }

  lemma RefinesStep(s: PriceState, w: Walk, r: Row, account: AccountId, security: SecurityId, multiplier: nat)
    requires ValidPrice(s) && ValidLot(w.lot) && r.quantity.Some? && Refines(s, w)
    ensures Refines(PriceStep(s, r, multiplier, false), Step(w, r, account, security, multiplier))
  {
    hide WeightedAverage, ClosingGain, FeesOf;
    var w' := Step(w, r, account, security, multiplier);
    PlanAppend(w.plan, w'.plan[|w.plan|]);
    assert w'.plan == w.plan + [w'.plan[|w.plan|]];
  }

  /** price_realized_gross, unclamped, is exactly what the full replay realizes: the closed
      lifecycles' profit plus what the open lot has realized so far. */
  lemma {:induction false} PriceRefinesReplay(rows: seq<Row>, account: AccountId, security: SecurityId, multiplier: nat)
    requires Quantified(rows)
    ensures Refines(PriceRun(rows, multiplier, false), Run(rows, account, security, multiplier))
  {
    if rows != [] {
      var front, r := rows[..|rows| - 1], rows[|rows| - 1];
      PriceRefinesReplay(front, account, security, multiplier);
      RefinesStep(PriceRun(front, multiplier, false), Run(front, account, security, multiplier), r,
                  account, security, multiplier);
    }
  }

  // --------------------------------------------------------- clamped walks, and settlement

  /** A clamped walk never carries its lot through zero. */
  lemma {:induction false} NeverThroughZero(rows: seq<Row>, k: nat)
    requires k < |Tape(rows, true)|
    ensures !Opposite(Held(Tape(rows, true)[..k]), Held(Tape(rows, true)[..k + 1]))
  {
    var front, r := rows[..|rows| - 1], rows[|rows| - 1];
    var before, tape := Tape(front, true), Tape(rows, true);
    if k < |before| {
      NeverThroughZero(front, k);
      assert tape[..k] == before[..k] && tape[..k + 1] == before[..k + 1];
    } else {
      var f := FillOf(r, Held(before), before != [], true).value;
      TapeAppend(before, f, 1.0, 0.0);
      assert tape[..k] == before && tape[..k + 1] == before + [f];
    }
  }

  lemma WorthShift(delta: real, price: real, reference: real, m: real)
    ensures Worth(delta, price - reference, m) == Worth(delta, price, m) - Worth(delta, reference, m)
  {
    assert delta * (price - reference) == delta * price - delta * reference;
  }

  lemma WorthSum(a: real, b: real, price: real, m: real)
    ensures Worth(a + b, price, m) == Worth(a, price, m) + Worth(b, price, m)
  {
    assert (a + b) * price == a * price + b * price;
  }

  // Measuring against a reference price moves the total by what is left at the end.
  lemma {:induction false} CashAgainstReference(tape: seq<Fill>, reference: real, m: real)
    ensures CashAgainst(tape, reference, m) == Cash(tape, m) + Worth(Held(tape), reference, m)
  {
    hide Worth;
    if tape == [] {
      WorthOfNothing(reference, m);
    } else {
      var front, f := tape[..|tape| - 1], tape[|tape| - 1];
      CashAgainstReference(front, reference, m);
      WorthShift(f.delta, f.price, reference, m);
      WorthSum(Held(front), f.delta, reference, m);
    }
  }

  /** A walk that ends flat realizes the same profit whatever settlement its prices are
      measured against. */
  lemma SettlementReferenceCancels(rows: seq<Row>, multiplier: nat, clamp: bool, reference: real)
    requires Held(Tape(rows, clamp)) == 0.0
    ensures CashAgainst(Tape(rows, clamp), reference, multiplier as real) == PriceRun(rows, multiplier, clamp).realized
  {
    hide Worth, WeightedAverage, ClosingGain;
    PriceIdentity(rows, multiplier, clamp);
    PriceFollowsTape(rows, multiplier, clamp);
    CashAgainstReference(Tape(rows, clamp), reference, multiplier as real);
    WorthOfNothing(reference, multiplier as real);
    WorthOfNothing(PriceRun(rows, multiplier, clamp).average.GetOr(0.0), multiplier as real);
  }

  /** And only such a walk does: two different references agree exactly when it ends flat. */
  lemma ReferenceMattersUnlessFlat(rows: seq<Row>, multiplier: nat, clamp: bool, a: real, b: real)
    requires multiplier > 0 && a != b
    ensures CashAgainst(Tape(rows, clamp), a, multiplier as real) == CashAgainst(Tape(rows, clamp), b, multiplier as real)
        <==> Held(Tape(rows, clamp)) == 0.0
  {
    var tape, m := Tape(rows, clamp), multiplier as real;
    CashAgainstReference(tape, a, m);
    CashAgainstReference(tape, b, m);
    WorthDiffers(Held(tape), a, b, m);
  }

  lemma WorthDiffers(quantity: real, a: real, b: real, m: real)
    requires m > 0.0 && a != b
    ensures Worth(quantity, a, m) == Worth(quantity, b, m) <==> quantity == 0.0
  {
    assert Worth(quantity, a, m) - Worth(quantity, b, m) == quantity * ((a - b) * m);
    assert (a - b) * m != 0.0;
  }

  // ----------------------------------------------------------------------- quantity only

  datatype NetState = NetState(quantity: real, had: bool)

  // An explicit close against a lot the walk has never held.
  predicate ClosesUnseen(r: Row, held: real, had: bool) {
    held == 0.0 && !had && EndsToClose(r.action)
  }

  function NetStep(s: NetState, r: Row): NetState
    requires r.quantity.Some?
  {
    if r.kind.MoneyMovement? then s
    else if IsSettlement(r) then
      if s.quantity == 0.0 then s else NetState(s.quantity + SettlementDelta(r.quantity.value, s.quantity), true)
    else if ClosesUnseen(r, s.quantity, s.had) then s
    else NetState(s.quantity + SignedDelta(r.action, r.quantity.value), true)
  }

  function NetRun(rows: seq<Row>): NetState
    requires Quantified(rows)
  {
    if rows == [] then NetState(0.0, false) else NetStep(NetRun(rows[..|rows| - 1]), rows[|rows| - 1])
  }

  // Rows that can move a position at all.
  predicate MovesPosition(r: Row) {
    r.security.Some? && r.quantity.Some? && r.at.Some?
  }

  function InSecurity(security: SecurityId): Row -> bool {
    (r: Row) => MovesPosition(r) && r.security == Some(security)
  }

  function RowsOf(rows: seq<Row>, security: SecurityId): seq<Row> {
    Filter(rows, InSecurity(security))
  }

  lemma {:induction false} RowsOfQuantified(rows: seq<Row>, security: SecurityId)
    ensures Quantified(RowsOf(rows, security))
    ensures Quantified(Sort(RowsOf(rows, security), ReplayKey))
  {
    forall r | r in RowsOf(rows, security)
      ensures r.quantity.Some?
    {
      FilterMember(rows, r, InSecurity(security));
    }
    forall r | r in Sort(RowsOf(rows, security), ReplayKey)
      ensures r.quantity.Some?
    {
      SortMember(RowsOf(rows, security), r, ReplayKey);
    }
  }

  ghost predicate Grouped(groups: map<SecurityId, seq<Row>>, rows: seq<Row>) {
    forall s :: (s in groups <==> RowsOf(rows, s) != []) && (s in groups ==> groups[s] == RowsOf(rows, s))
  }

  // The inner walk: one security's ordered rows.
  method NetOf(ordered: seq<Row>) returns (quantity: real)
    requires Quantified(ordered)
    ensures quantity == NetRun(ordered).quantity
  {
    var had := false;
    quantity := 0.0;
    for i := 0 to |ordered|
      invariant NetState(quantity, had) == NetRun(ordered[..i])
    {
      var row := ordered[i];
      assert ordered[..i + 1][..i] == ordered[..i];
      if row.kind.MoneyMovement? {
        continue;
      }
      var delta;
      if IsSettlement(row) {
        if quantity == 0.0 {
          continue;
        }
        delta := SettlementDelta(row.quantity.value, quantity);
      } else if quantity == 0.0 && !had && EndsToClose(row.action) {
        continue;
      } else {
        delta := SignedDelta(row.action, row.quantity.value);
      }
      quantity, had := quantity + delta, true;
    }
    assert ordered[..|ordered|] == ordered;
  }

  /** Signed open quantity per security over a whole account's rows. */
  method NetOpenQuantities(rows: seq<Row>) returns (nets: map<SecurityId, real>)
    ensures forall s :: s in nets <==> RowsOf(rows, s) != []
    ensures forall s :: s in nets ==> Quantified(Sort(RowsOf(rows, s), ReplayKey))
    ensures forall s :: s in nets ==> nets[s] == NetRun(Sort(RowsOf(rows, s), ReplayKey)).quantity
  {
    var bySecurity: map<SecurityId, seq<Row>> := map[];
    for i := 0 to |rows|
      invariant Grouped(bySecurity, rows[..i])
    {
      var row := rows[i];
      assert rows[..i + 1] == rows[..i] + [row];
      forall s
        ensures RowsOf(rows[..i + 1], s) == RowsOf(rows[..i], s) + (if InSecurity(s)(row) then [row] else [])
      {
        FilterAppend(rows[..i], row, InSecurity(s));
      }
      if row.security.None? || row.quantity.None? || row.at.None? {
        continue;
      }
      var s := row.security.value;
      bySecurity := bySecurity[s := (if s in bySecurity then bySecurity[s] else []) + [row]];
    }
    assert rows[..|rows|] == rows;

    nets := map[];
    var pending := bySecurity.Keys;
    while pending != {}
      invariant pending <= bySecurity.Keys
      invariant nets.Keys == bySecurity.Keys - pending
      invariant forall s :: s in nets ==> Quantified(Sort(RowsOf(rows, s), ReplayKey))
      invariant forall s :: s in nets ==> nets[s] == NetRun(Sort(RowsOf(rows, s), ReplayKey)).quantity
    {
      var s :| s in pending;
      RowsOfQuantified(rows, s);
      var quantity := NetOf(Sort(bySecurity[s], ReplayKey));
      nets := nets[s := quantity];
      pending := pending - {s};
    }
  }

  /** A row the quantity walk moves by and the lot walk does not: it has no price, or it is a
      close the lot walk skips because only zero-quantity rows came before it. */
  predicate MissedAt(r: Row, held: real, seen: bool, filled: bool)
    requires r.quantity.Some?
  {
    && !r.kind.MoneyMovement? && !IsSettlement(r) && r.quantity.value != 0.0
    && !ClosesUnseen(r, held, seen)
    && (r.price.None? || ClosesUnseen(r, held, filled))
  }

  predicate Missed(rows: seq<Row>, i: nat)
    requires i < |rows| && Quantified(rows)
  {
    MissedAt(rows[i], Held(Tape(rows[..i], false)), NetRun(rows[..i]).had, Tape(rows[..i], false) != [])
  }

  // What a caller can check: every trade row has a price and moves something.
  predicate PricedAndNonZero(r: Row) {
    r.kind.MoneyMovement? || IsSettlement(r) || (r.price.Some? && r.quantity.Some? && r.quantity.value != 0.0)
  }

  // One row from a common quantity.
  lemma SameMove(r: Row, held: real, seen: bool, filled: bool)
    requires r.quantity.Some? && (filled ==> seen) && (held != 0.0 ==> filled)
    ensures var fill, net := FillOf(r, held, filled, false), NetStep(NetState(held, seen), r);
            && (net.quantity == (if fill.Some? then held + fill.value.delta else held) <==> !MissedAt(r, held, seen, filled))
            && (fill.Some? || seen ==> net.had)
            && (seen == filled && PricedAndNonZero(r) ==> !MissedAt(r, held, seen, filled) && (net.had <==> (filled || fill.Some?)))
  {
  }

  ghost predicate WalksAgree(rows: seq<Row>)
    requires Quantified(rows)
  {
    forall k :: 0 <= k <= |rows| ==> NetRun(rows[..k]).quantity == Held(Tape(rows[..k], false))
  }

  // Having filled implies having been seen by the quantity walk.
  lemma {:induction false} FilledWasSeen(rows: seq<Row>)
    requires Quantified(rows)
    requires WalksAgree(rows)
    ensures Tape(rows, false) != [] ==> NetRun(rows).had
    ensures Held(Tape(rows, false)) != 0.0 ==> Tape(rows, false) != []
  {
    assert rows[..|rows|] == rows;
    if rows != [] {
      var front := rows[..|rows| - 1];
      AgreePrefix(rows);
      FilledWasSeen(front);
      var before := Tape(front, false);
      SameMove(rows[|front|], Held(before), NetRun(front).had, before != []);
    }
  }

  lemma AgreePrefix(rows: seq<Row>)
    requires Quantified(rows) && rows != [] && WalksAgree(rows)
    ensures WalksAgree(rows[..|rows| - 1])
  {
    var front := rows[..|rows| - 1];
    forall k | 0 <= k <= |front|
      ensures NetRun(front[..k]).quantity == Held(Tape(front[..k], false))
    {
      assert front[..k] == rows[..k];
    }
  }

  lemma {:induction false} AgreeStep(rows: seq<Row>)
    requires Quantified(rows) && rows != [] && WalksAgree(rows[..|rows| - 1])
    ensures NetRun(rows).quantity == Held(Tape(rows, false)) <==> !Missed(rows, |rows| - 1)
  {
    var front, r := rows[..|rows| - 1], rows[|rows| - 1];
    assert front[..|front|] == front;
    hide EffectiveDeltaPrice, FeesOf;
    FilledWasSeen(front);
    var before := Tape(front, false);
    var fill := FillOf(r, Held(before), before != [], false);
    SameMove(r, Held(before), NetRun(front).had, before != []);
    if fill.Some? {
      TapeAppend(before, fill.value, 1.0, 0.0);
    }
  }

  /** The quantity walk and the lot walk agree after every prefix exactly when no row is
      missed by the lot walk. */
  lemma {:induction false} NetAgreesExactlyWhen(rows: seq<Row>)
    requires Quantified(rows)
    ensures WalksAgree(rows) <==> forall i :: 0 <= i < |rows| ==> !Missed(rows, i)
  {
    if rows != [] {
      var n := |rows| - 1;
      var front := rows[..n];
      NetAgreesExactlyWhen(front);
      forall i | 0 <= i < n
        ensures Missed(rows, i) <==> Missed(front, i)
      {
        assert front[..i] == rows[..i];
      }
      if WalksAgree(rows) {
        AgreePrefix(rows);
        AgreeStep(rows);
        assert rows[..|rows|] == rows;
      }
      if forall i :: 0 <= i < |rows| ==> !Missed(rows, i) {
        AgreeStep(rows);
        forall k | 0 <= k <= |rows|
          ensures NetRun(rows[..k]).quantity == Held(Tape(rows[..k], false))
        {
          if k <= n {
            assert front[..k] == rows[..k];
          } else {
            assert rows[..k] == rows;
          }
        }
      }
    }
  }

  lemma {:induction false} NothingMissed(rows: seq<Row>, i: nat)
    requires Quantified(rows) && i < |rows| && forall r :: r in rows ==> PricedAndNonZero(r)
    ensures !Missed(rows, i)
    ensures NetRun(rows[..i]).had <==> Tape(rows[..i], false) != []
    ensures NetRun(rows[..i]).quantity == Held(Tape(rows[..i], false))
  {
    hide EffectiveDeltaPrice, FeesOf, SignedDelta, SettlementDelta;
    if i > 0 {
      var front, r := rows[..i - 1], rows[i - 1];
      NothingMissed(rows, i - 1);
      assert rows[..i][..i - 1] == front;
      var before := Tape(front, false);
      var fill := FillOf(r, Held(before), before != [], false);
      SameMove(r, Held(before), NetRun(front).had, before != []);
      if fill.Some? {
        TapeAppend(before, fill.value, 1.0, 0.0);
      }
    }
    var tape := Tape(rows[..i], false);
    SameMove(rows[i], Held(tape), NetRun(rows[..i]).had, tape != []);
  }

  /** With priced, non-zero trade rows, an account's netting is the signed quantity of the
      position row the full replay writes. */
  lemma NetRefinesReplay(rows: seq<Row>, account: AccountId, security: SecurityId, multiplier: nat,
                         existing: Option<PositionRow>)
    requires Quantified(rows) && forall r :: r in rows ==> PricedAndNonZero(r)
    ensures NetRun(rows).quantity
         == SignedQuantity(PositionOf(account, security, Run(rows, account, security, multiplier), multiplier, existing))
  {
    forall i | 0 <= i < |rows|
      ensures !Missed(rows, i)
    {
      NothingMissed(rows, i);
    }
    NetAgreesExactlyWhen(rows);
    assert rows[..|rows|] == rows;
    LotFollowsTape(rows, account, security, multiplier);
  }

  function Plain(n: nat, action: Action, quantity: real, price: Option<real>, at: Time): Row {
    Row(Broker(n), 0, OtherKind, OtherSubType, action, Some(0), Some(quantity), price, None, false,
        None, None, None, None, Some(at), None)
  }

  /** Without a price, or behind a zero-quantity row, the two walks do come apart. */
  lemma NetAndReplayDiffer()
    ensures var rows := [Plain(1, BuyToOpen, 1.0, None, 1)];
            NetRun(rows).quantity == 1.0 && Held(Tape(rows, false)) == 0.0
    ensures var rows := [Plain(1, BuyToOpen, 0.0, Some(5.0), 1), Plain(2, SellToClose, 1.0, Some(5.0), 2)];
            NetRun(rows).quantity == -1.0 && Held(Tape(rows, false)) == 0.0
  {
    var a := Plain(1, BuyToOpen, 1.0, None, 1);
    assert [a][..0] == [];
    var b, c := Plain(1, BuyToOpen, 0.0, Some(5.0), 1), Plain(2, SellToClose, 1.0, Some(5.0), 2);
    assert [b, c][..1] == [b] && [b][..0] == [];
    assert NetRun([b]) == NetState(0.0, true) && Tape([b], false) == [];
  }
}
