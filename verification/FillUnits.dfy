/** Order-level fill figures of a multi-leg order, per structure unit. */
module FillUnits {
  import opened Rows
  import opened Division

  // ------------------------------------------------------------- greatest common divisors

  function Gcd(a: nat, b: nat): nat
    decreases b
  {
    if b == 0 then a else Gcd(b, a % b)
  }

  ghost predicate Divides(d: nat, n: nat) {
    exists k: nat :: n == k * d
  }

  lemma DividesBy(d: nat, n: nat, k: nat)
    requires n == k * d
    ensures Divides(d, n)
  {
  }

  lemma DividesSum(d: nat, a: nat, b: nat, q: nat)
    requires Divides(d, a) && Divides(d, b)
    ensures Divides(d, a * q + b)
  {
    var i: nat :| a == i * d;
    var j: nat :| b == j * d;
    assert a * q + b == (i * q + j) * d;
    DividesBy(d, a * q + b, i * q + j);
  }

  lemma DividesRest(d: nat, a: nat, b: nat, q: nat)
    requires Divides(d, a) && Divides(d, b) && a * q <= b
    ensures Divides(d, b - a * q)
  {
    var i: nat :| a == i * d;
    var j: nat :| b == j * d;
    assert b - a * q == (j - i * q) * d;
    if d == 0 {
      DividesBy(d, b - a * q, 0);
    } else {
      NonNegativeFactor(j - i * q, d);
      DividesBy(d, b - a * q, j - i * q);
    }
  }

  lemma NonNegativeFactor(x: int, d: nat)
    requires d > 0 && x * d >= 0
    ensures x >= 0
  {
  }

  lemma {:induction false} GcdDivides(a: nat, b: nat)
    ensures Divides(Gcd(a, b), a) && Divides(Gcd(a, b), b)
    ensures a > 0 || b > 0 ==> Gcd(a, b) > 0
    decreases b
  {
    hide Divides;
    if b == 0 {
      DividesBy(a, a, 1);
      DividesBy(a, 0, 0);
    } else {
      GcdDivides(b, a % b);
      DividesSum(Gcd(a, b), b, a % b, a / b);
      assert a == b * (a / b) + a % b;
    }
  }

  lemma {:induction false} GcdGreatest(d: nat, a: nat, b: nat)
    requires Divides(d, a) && Divides(d, b)
    ensures Divides(d, Gcd(a, b))
    decreases b
  {
    if b != 0 {
      assert a - b * (a / b) == a % b;
      DividesRest(d, b, a, a / b);
      GcdGreatest(d, b, a % b);
    }
  }

  lemma ModScales(k: nat, a: nat, b: nat)
    requires k > 0 && b > 0
    ensures k * b > 0 && (k * a) % (k * b) == k * (a % b)
  {
    var q, r := a / b, a % b;
    assert a == b * q + r;
    assert k * a == (k * b) * q + k * r;
    assert 0 <= k * r < k * b;
    Remainder(k * a, k * b, q, k * r);
  }

  lemma {:induction false} GcdScales(k: nat, a: nat, b: nat)
    requires k > 0
    ensures Gcd(k * a, k * b) == k * Gcd(a, b)
    decreases b
  {
    if b != 0 {
      ModScales(k, a, b);
      GcdScales(k, b, a % b);
    }
  }

  // -------------------------------------------------------------------------- units, ratios

  function Units(quantities: seq<nat>): nat
    requires quantities != []
  {
    if |quantities| == 1 then quantities[0] else Gcd(Units(quantities[..|quantities| - 1]), quantities[|quantities| - 1])
  }

  lemma {:induction false} UnitsDivide(quantities: seq<nat>)
    requires quantities != [] && forall i :: 0 <= i < |quantities| ==> quantities[i] > 0
    ensures Units(quantities) > 0
    ensures forall i :: 0 <= i < |quantities| ==> Divides(Units(quantities), quantities[i])
  {
    hide Divides, Gcd;
    var n := |quantities| - 1;
    if n == 0 {
      DividesBy(quantities[0], quantities[0], 1);
    } else {
      UnitsDivide(quantities[..n]);
      var u := Units(quantities[..n]);
      GcdDivides(u, quantities[n]);
      forall i | 0 <= i < n
        ensures Divides(Gcd(u, quantities[n]), quantities[i])
      {
        assert quantities[..n][i] == quantities[i];
        DividesThrough(Gcd(u, quantities[n]), u, quantities[i]);
      }
    }
  }

  lemma DividesThrough(d: nat, m: nat, n: nat)
    requires Divides(d, m) && Divides(m, n)
    ensures Divides(d, n)
  {
    var i: nat :| m == i * d;
    var j: nat :| n == j * m;
    assert n == (j * i) * d;
    DividesBy(d, n, j * i);
  }

  lemma {:induction false} UnitsGreatest(d: nat, quantities: seq<nat>)
    requires quantities != [] && forall i :: 0 <= i < |quantities| ==> Divides(d, quantities[i])
    ensures Divides(d, Units(quantities))
  {
    hide Divides, Gcd;
    var n := |quantities| - 1;
    if n != 0 {
      forall i | 0 <= i < n
        ensures Divides(d, quantities[..n][i])
      {
        assert quantities[..n][i] == quantities[i];
      }
      UnitsGreatest(d, quantities[..n]);
      GcdGreatest(d, Units(quantities[..n]), quantities[n]);
    }
  }

  ghost predicate DividesAll(d: nat, s: seq<nat>) {
    forall i :: 0 <= i < |s| ==> Divides(d, s[i])
  }

  function Ratios(quantities: seq<nat>, units: nat): seq<nat>
    requires units > 0
  {
    seq(|quantities|, i requires 0 <= i < |quantities| => quantities[i] / units)
  }

  lemma RatioExact(q: nat, u: nat)
    requires u > 0 && q > 0 && Divides(u, q)
    ensures q == u * (q / u) && q / u > 0
  {
    var k: nat :| q == k * u;
    Remainder(q, u, k, 0);
  }

  /** Every quantity is units times its ratio, and the ratios share no factor. */
  lemma RatiosCoprime(quantities: seq<nat>)
    requires quantities != [] && forall i :: 0 <= i < |quantities| ==> quantities[i] > 0
    ensures Units(quantities) > 0
    ensures forall i :: 0 <= i < |quantities| ==>
              && Ratios(quantities, Units(quantities))[i] > 0
              && quantities[i] == Units(quantities) * Ratios(quantities, Units(quantities))[i]
    ensures forall d: nat :: DividesAll(d, Ratios(quantities, Units(quantities))) ==> d == 1
  {
    hide Divides, Units, DividesAll;
    UnitsDivide(quantities);
    var u := Units(quantities);
    forall i | 0 <= i < |quantities|
      ensures Ratios(quantities, u)[i] > 0 && quantities[i] == u * Ratios(quantities, u)[i]
    {
      RatioExact(quantities[i], u);
    }
    forall d: nat | DividesAll(d, Ratios(quantities, u))
      ensures d == 1
    {
      NoCommonFactor(quantities, d);
    }
  }

  lemma NoCommonFactor(quantities: seq<nat>, d: nat)
    requires quantities != [] && Units(quantities) > 0
    requires forall i :: 0 <= i < |quantities| ==> quantities[i] == Units(quantities) * Ratios(quantities, Units(quantities))[i]
    requires DividesAll(d, Ratios(quantities, Units(quantities)))
    ensures d == 1
  {
    hide Units;
    var u := Units(quantities);
    forall i | 0 <= i < |quantities|
      ensures Divides(d * u, quantities[i])
    {
      var k: nat :| Ratios(quantities, u)[i] == k * d;
      assert quantities[i] == k * (d * u);
      DividesBy(d * u, quantities[i], k);
    }
    UnitsGreatest(d * u, quantities);
    var k: nat :| u == k * (d * u);
    FactorOfOne(k, d, u);
  }

  lemma FactorOfOne(k: nat, d: nat, u: nat)
    requires u > 0 && u == k * (d * u)
    ensures d == 1
  {
    assert (k * d) * u == u;
    assert (k * d - 1) * u == 0;
    assert k * d == 1;
    ProductOfOne(k, d);
  }

  lemma ProductOfOne(k: nat, d: nat)
    requires k * d == 1
    ensures d == 1
  {
  }

  // ----------------------------------------------------------------------------- an order

  datatype Fill = Fill(quantity: real, price: real)

  // sells: the action text begins with "sell".
  datatype Leg = Leg(sells: bool, quantity: real, remaining: real, fills: seq<Fill>)

  function Filled(fills: seq<Fill>): real {
    if fills == [] then 0.0 else Filled(fills[..|fills| - 1]) + fills[|fills| - 1].quantity
  }

  function Value(fills: seq<Fill>): real {
    if fills == [] then 0.0 else Value(fills[..|fills| - 1]) + fills[|fills| - 1].quantity * fills[|fills| - 1].price
  }

  // Quantity-weighted average price.
  function Vwap(fills: seq<Fill>): Option<real> {
    if fills == [] || Filled(fills) == 0.0 then None else Some(Value(fills) / Filled(fills))
  }

  // A quantity that structure units can be made of.
  predicate Whole(leg: Leg) {
    leg.quantity > 0.0 && leg.quantity == leg.quantity.Floor as real
  }

  function Lots(leg: Leg): nat {
    if Whole(leg) then leg.quantity.Floor else 0
  }

  function AllLots(legs: seq<Leg>): seq<nat> {
    seq(|legs|, i requires 0 <= i < |legs| => Lots(legs[i]))
  }

  predicate Structured(legs: seq<Leg>, units: nat) {
    units > 0 && forall i :: 0 <= i < |legs| ==> Whole(legs[i]) && Lots(legs[i]) / units > 0
  }

  function Ratio(leg: Leg, units: nat): real
    requires units > 0
  {
    (Lots(leg) / units) as real
  }

  // A leg's quantity in units.
  function InUnitsOf(x: real, leg: Leg, units: nat): real
    requires units > 0 && Lots(leg) / units > 0
  {
    x / Ratio(leg, units)
  }

  // Structure units filled on every leg.
  function FilledUnits(legs: seq<Leg>, units: nat): real
    requires legs != [] && Structured(legs, units)
  {
    var n := |legs| - 1;
    var mine := InUnitsOf(Filled(legs[n].fills), legs[n], units);
    if n == 0 then mine else Min(FilledUnits(legs[..n], units), mine)
  }

  function RemainingUnits(legs: seq<Leg>, units: nat): real
    requires legs != [] && Structured(legs, units)
  {
    var n := |legs| - 1;
    var mine := InUnitsOf(legs[n].remaining, legs[n], units);
    if n == 0 then mine else Max(RemainingUnits(legs[..n], units), mine)
  }

  function Signed(leg: Leg, x: real): real {
    if leg.sells then x else -x
  }

  // What a leg contributes to the price of one unit: sells receive, buys pay.
  function Share(leg: Leg, units: nat): real
    requires units > 0 && Vwap(leg.fills).Some?
  {
    Signed(leg, Vwap(leg.fills).value * Ratio(leg, units))
  }

  // Credit per unit; None until every leg has fills.
  function NetPrice(legs: seq<Leg>, units: nat): Option<real>
    requires units > 0
  {
    if legs == [] then Some(0.0)
    else
      var n := |legs| - 1;
      var before := NetPrice(legs[..n], units);
      if before.None? || Vwap(legs[n].fills).None? then None else Some(before.value + Share(legs[n], units))
  }

  predicate AllWhole(legs: seq<Leg>) {
    forall i :: 0 <= i < |legs| ==> Whole(legs[i])
  }

  lemma WholeOrder(legs: seq<Leg>)
    requires legs != [] && AllWhole(legs)
    ensures Units(AllLots(legs)) > 0 && Structured(legs, Units(AllLots(legs)))
    ensures forall i :: 0 <= i < |legs| ==> legs[i].quantity == Units(AllLots(legs)) as real * Ratio(legs[i], Units(AllLots(legs)))
  {
    hide Units, DividesAll;
    RatiosCoprime(AllLots(legs));
    var u := Units(AllLots(legs));
    forall i | 0 <= i < |legs|
      ensures Lots(legs[i]) / u > 0 && legs[i].quantity == u as real * Ratio(legs[i], u)
    {
      assert AllLots(legs)[i] == Lots(legs[i]) && Ratios(AllLots(legs), u)[i] == Lots(legs[i]) / u;
    }
  }

  datatype FillFields = FillFields(price: Option<real>, filled: Option<real>, remaining: Option<real>)

  const UNKNOWN := FillFields(None, None, None)

  function Oriented(price: Option<real>, debit: bool): Option<real> {
    if price.Some? && debit then Some(-price.value) else price
  }

  function FieldsOf(legs: seq<Leg>, debit: bool): FillFields {
    if legs == [] then UNKNOWN
    else if |legs| == 1 then FillFields(Vwap(legs[0].fills), Some(Filled(legs[0].fills)), Some(legs[0].remaining))
    else if !AllWhole(legs) then UNKNOWN
    else
      WholeOrder(legs);
      var u := Units(AllLots(legs));
      FillFields(Oriented(NetPrice(legs, u), debit), Some(FilledUnits(legs, u)), Some(RemainingUnits(legs, u)))
  }

  method GcdOf(a: nat, b: nat) returns (g: nat)
    ensures g == Gcd(a, b)
  {
    var x, y := a, b;
    while y != 0
      invariant Gcd(x, y) == Gcd(a, b)
      decreases y
    {
      x, y := y, x % y;
    }
    g := x;
  }

  /** The legs' fill fields: a single leg's own, several legs' per structure unit. */
  method OrderLevelFillFields(legs: seq<Leg>, debit: bool) returns (fields: FillFields)
    ensures fields == FieldsOf(legs, debit)
  {
    hide Vwap, Ratio, Units, Structured;
    if legs == [] {
      return UNKNOWN;
    }
    if |legs| == 1 {
      return FillFields(Vwap(legs[0].fills), Some(Filled(legs[0].fills)), Some(legs[0].remaining));
    }
    var quantities: seq<nat> := [];
    for i := 0 to |legs|
      invariant AllWhole(legs[..i]) && quantities == AllLots(legs[..i])
    {
      if legs[i].quantity <= 0.0 || legs[i].quantity != legs[i].quantity.Floor as real {
        assert !Whole(legs[i]);
        return UNKNOWN;
      }
      quantities := quantities + [legs[i].quantity.Floor];
      assert quantities == AllLots(legs[..i + 1]);
    }
    assert legs[..|legs|] == legs;
    WholeOrder(legs);
    var units := ReduceGcd(quantities);
    var filled, remaining := LegUnits(legs, units);
    var net := NetOf(legs, units);
    fields := FillFields(Oriented(net, debit), Some(filled), Some(remaining));
  }

  method ReduceGcd(quantities: seq<nat>) returns (units: nat)
    requires quantities != []
    ensures units == Units(quantities)
  {
    units := quantities[0];
    for i := 1 to |quantities|
      invariant units == Units(quantities[..i])
    {
      assert quantities[..i + 1][..i] == quantities[..i];
      units := GcdOf(units, quantities[i]);
    }
    assert quantities[..|quantities|] == quantities;
  }

  method LegUnits(legs: seq<Leg>, units: nat) returns (filled: real, remaining: real)
    requires legs != [] && Structured(legs, units)
    ensures filled == FilledUnits(legs, units) && remaining == RemainingUnits(legs, units)
  {
    hide InUnitsOf;
    filled, remaining := InUnitsOf(Filled(legs[0].fills), legs[0], units), InUnitsOf(legs[0].remaining, legs[0], units);
    for i := 1 to |legs|
      invariant Structured(legs[..i], units)
      invariant filled == FilledUnits(legs[..i], units) && remaining == RemainingUnits(legs[..i], units)
    {
      assert legs[..i + 1][..i] == legs[..i];
      filled := Min(filled, InUnitsOf(Filled(legs[i].fills), legs[i], units));
      remaining := Max(remaining, InUnitsOf(legs[i].remaining, legs[i], units));
    }
    assert legs[..|legs|] == legs;
  }

  method NetOf(legs: seq<Leg>, units: nat) returns (net: Option<real>)
    requires units > 0
    ensures net == NetPrice(legs, units)
  {
    hide Vwap, Share;
    net := Some(0.0);
    for i := 0 to |legs|
      invariant net.Some? && net == NetPrice(legs[..i], units)
    {
      assert legs[..i + 1][..i] == legs[..i] && legs[..i + 1][i] == legs[i];
      if Vwap(legs[i].fills).None? {
        NoPriceOnceMissing(legs, units, i + 1);
        return None;
      }
      net := Some(net.value + Share(legs[i], units));
    }
    assert legs[..|legs|] == legs;
  }

  lemma {:induction false} NoPriceOnceMissing(legs: seq<Leg>, units: nat, i: nat)
    requires units > 0 && i <= |legs| && NetPrice(legs[..i], units).None?
    ensures NetPrice(legs, units).None?
  {
    if i == |legs| {
      assert legs[..i] == legs;
    } else {
      assert legs[..|legs| - 1][..i] == legs[..i];
      NoPriceOnceMissing(legs[..|legs| - 1], units, i);
    }
  }

  // ---------------------------------------------------------------------------- conservation

  // A leg's quantity is what is filled and what remains.
  predicate Accounted(leg: Leg) {
    Filled(leg.fills) + leg.remaining == leg.quantity
  }

  ghost predicate InUnits(legs: seq<Leg>, units: nat) {
    Structured(legs, units) && forall i :: 0 <= i < |legs| ==> legs[i].quantity == units as real * Ratio(legs[i], units)
  }

  lemma ShareOfUnits(filled: real, remaining: real, units: real, ratio: real)
    requires ratio > 0.0 && filled + remaining == units * ratio
    ensures filled / ratio + remaining / ratio == units
  {
    assert (filled / ratio + remaining / ratio) * ratio == filled + remaining;
    SameFactor(filled / ratio + remaining / ratio, units, ratio);
  }

  lemma SameFactor(a: real, b: real, ratio: real)
    requires ratio > 0.0 && a * ratio == b * ratio
    ensures a == b
  {
    assert (a - b) * ratio == 0.0;
  }

  lemma {:induction false} UnitsAccounted(legs: seq<Leg>, units: nat)
    requires legs != [] && InUnits(legs, units) && forall i :: 0 <= i < |legs| ==> Accounted(legs[i])
    ensures FilledUnits(legs, units) + RemainingUnits(legs, units) == units as real
  {
    hide Ratio, Filled;
    var n := |legs| - 1;
    assert Accounted(legs[n]);
    RatioPositive(legs[n], units);
    ShareOfUnits(Filled(legs[n].fills), legs[n].remaining, units as real, Ratio(legs[n], units));
    if n != 0 {
      UnitsAccounted(legs[..n], units);
    }
  }

  lemma RatioPositive(leg: Leg, units: nat)
    requires units > 0 && Lots(leg) / units > 0
    ensures Ratio(leg, units) >= 1.0
  {
  }

  /** When every leg accounts for its quantity, filled and remaining units make up the order. */
  lemma FilledPlusRemaining(legs: seq<Leg>, debit: bool)
    requires |legs| >= 2 && AllWhole(legs) && forall i :: 0 <= i < |legs| ==> Accounted(legs[i])
    ensures var fields := FieldsOf(legs, debit);
            && fields.filled.Some? && fields.remaining.Some?
            && fields.filled.value + fields.remaining.value == Units(AllLots(legs)) as real
  {
    hide Units, Ratio, Filled;
    WholeOrder(legs);
    UnitsAccounted(legs, Units(AllLots(legs)));
  }

  // ------------------------------------------------------------------------------- the price

  // Cash of all fills: sells receive, buys pay.
  function SignedCash(legs: seq<Leg>): real {
    if legs == [] then 0.0
    else
      var leg := legs[|legs| - 1];
      SignedCash(legs[..|legs| - 1]) + (if leg.sells then Value(leg.fills) else -Value(leg.fills))
  }

  predicate CompletelyFilled(leg: Leg) {
    leg.fills != [] && Filled(leg.fills) == leg.quantity
  }

  lemma LegCash(value: real, filled: real, ratio: real, units: real)
    requires filled > 0.0 && filled == units * ratio
    ensures (value / filled) * ratio * units == value
  {
    assert (value / filled) * (units * ratio) == value;
  }

  lemma LegShare(leg: Leg, units: nat)
    requires units > 0 && Whole(leg) && leg.quantity == units as real * Ratio(leg, units) && CompletelyFilled(leg)
    ensures Vwap(leg.fills).Some? && Share(leg, units) * units as real == if leg.sells then Value(leg.fills) else -Value(leg.fills)
  {
    hide Ratio, Filled, Value;
    LegCash(Value(leg.fills), Filled(leg.fills), Ratio(leg, units), units as real);
    NegativeTimes(Vwap(leg.fills).value * Ratio(leg, units), units as real);
  }

  lemma NegativeTimes(x: real, u: real)
    ensures (-x) * u == -(x * u)
  {
  }

  lemma {:induction false} NetIsCash(legs: seq<Leg>, units: nat)
    requires InUnits(legs, units) && forall i :: 0 <= i < |legs| ==> CompletelyFilled(legs[i])
    ensures NetPrice(legs, units).Some? && NetPrice(legs, units).value * units as real == SignedCash(legs)
  {
    hide Ratio, CompletelyFilled, Value, Share, Signed, Vwap, InUnits, Whole, Lots;
    UnitsNotZero(legs, units);
    if legs != [] {
      var n := |legs| - 1;
      FrontInUnits(legs, units);
      NetIsCash(legs[..n], units);
      LegShare(legs[n], units);
      Distribute(NetPrice(legs[..n], units).value, Share(legs[n], units), units as real);
    }
  }

  lemma UnitsNotZero(legs: seq<Leg>, units: nat)
    requires InUnits(legs, units)
    ensures units > 0
  {
  }

  lemma FrontInUnits(legs: seq<Leg>, units: nat)
    requires legs != [] && InUnits(legs, units)
    ensures var n := |legs| - 1;
            && InUnits(legs[..n], units) && Whole(legs[n]) && legs[n].quantity == units as real * Ratio(legs[n], units)
  {
  }

  lemma Distribute(a: real, b: real, u: real)
    ensures (a + b) * u == a * u + b * u
  {
  }

  /** A completely filled order: price per unit times units is the cash of all its fills,
      negated once more when the order was quoted as a debit. */
  lemma {:induction false} PriceTimesUnits(legs: seq<Leg>, debit: bool)
    requires |legs| >= 2 && AllWhole(legs) && forall i :: 0 <= i < |legs| ==> CompletelyFilled(legs[i])
    ensures var fields, u := FieldsOf(legs, debit), Units(AllLots(legs)) as real;
            fields.price.Some? && fields.price.value * u == if debit then -SignedCash(legs) else SignedCash(legs)
  {
    hide Units, Ratio, NetPrice, FieldsOf, CompletelyFilled, SignedCash;
    WholeOrder(legs);
    PriceField(legs, debit);
    NetIsCash(legs, Units(AllLots(legs)));
    NegativeTimes(NetPrice(legs, Units(AllLots(legs))).value, Units(AllLots(legs)) as real);
  }

  lemma {:induction false} PriceField(legs: seq<Leg>, debit: bool)
    requires |legs| >= 2 && AllWhole(legs)
    ensures Units(AllLots(legs)) > 0 && FieldsOf(legs, debit).price == Oriented(NetPrice(legs, Units(AllLots(legs))), debit)
  {
    hide Units, NetPrice, FilledUnits, RemainingUnits;
    WholeOrder(legs);
  }

  /** A single leg reports its own fills, whatever the order's orientation: what was filled, what
      remains, and a price that times what was filled is the value of the fills. */
  lemma SingleLegFields(leg: Leg, debit: bool)
    ensures var fields := FieldsOf([leg], debit);
            && fields.filled == Some(Filled(leg.fills)) && fields.remaining == Some(leg.remaining)
            && (fields.price.Some? <==> leg.fills != [] && Filled(leg.fills) != 0.0)
            && (fields.price.Some? ==> fields.price.value * Filled(leg.fills) == Value(leg.fills))
  {
    hide Filled, Value;
    QuotientTimes(Value(leg.fills), Filled(leg.fills));
  }

  lemma QuotientTimes(x: real, y: real)
    ensures y != 0.0 ==> (x / y) * y == x
  {
  }

  /** There is a price exactly when every leg has filled something. */
  lemma {:induction false} PricedExactlyWhen(legs: seq<Leg>, units: nat)
    requires units > 0
    ensures NetPrice(legs, units).Some? <==> forall i :: 0 <= i < |legs| ==> Vwap(legs[i].fills).Some?
  {
    hide Vwap, Ratio;
    if legs != [] {
      var n := |legs| - 1;
      PricedExactlyWhen(legs[..n], units);
      if NetPrice(legs, units).Some? {
        forall i | 0 <= i < |legs|
          ensures Vwap(legs[i].fills).Some?
        {
          if i < n {
            assert legs[..n][i] == legs[i];
          }
        }
      }
    }
  }

  /** Every field is unknown exactly when there are no legs, or several of which one is not a
      positive whole quantity. */
  lemma UnknownExactlyWhen(legs: seq<Leg>, debit: bool)
    ensures FieldsOf(legs, debit) == UNKNOWN <==> legs == [] || (|legs| >= 2 && !AllWhole(legs))
  {
  }

  // ------------------------------------------------------------------------------- scaling

  function ScaledFill(f: Fill, k: real): Fill {
    Fill(f.quantity * k, f.price)
  }

  function ScaledFills(fills: seq<Fill>, k: real): seq<Fill> {
    seq(|fills|, i requires 0 <= i < |fills| => ScaledFill(fills[i], k))
  }

  function ScaledLeg(leg: Leg, k: real): Leg {
    Leg(leg.sells, leg.quantity * k, leg.remaining * k, ScaledFills(leg.fills, k))
  }

  function Scaled(legs: seq<Leg>, k: real): seq<Leg> {
    seq(|legs|, i requires 0 <= i < |legs| => ScaledLeg(legs[i], k))
  }

  lemma {:induction false} FillsScale(fills: seq<Fill>, k: real)
    ensures Filled(ScaledFills(fills, k)) == Filled(fills) * k
    ensures Value(ScaledFills(fills, k)) == Value(fills) * k
  {
    if fills != [] {
      var n := |fills| - 1;
      FillsScale(fills[..n], k);
      ScaledFront(fills, k);
      ScaleTerm(Filled(fills[..n]), Value(fills[..n]), fills[n], k);
    }
  }

  lemma ScaledFront(fills: seq<Fill>, k: real)
    requires fills != []
    ensures |ScaledFills(fills, k)| == |fills|
    ensures ScaledFills(fills, k)[..|fills| - 1] == ScaledFills(fills[..|fills| - 1], k)
  {
    hide ScaledFill;
  }

  lemma ScaleTerm(filled: real, value: real, f: Fill, k: real)
    ensures (filled + f.quantity) * k == filled * k + f.quantity * k
    ensures (value + f.quantity * f.price) * k == value * k + (f.quantity * k) * f.price
  {
    Reorder(f.quantity, f.price, k);
  }

  lemma Reorder(a: real, b: real, k: real)
    ensures (a * b) * k == (a * k) * b
  {
  }

  lemma VwapScales(fills: seq<Fill>, k: real)
    requires k > 0.0
    ensures Vwap(ScaledFills(fills, k)) == Vwap(fills)
  {
    hide Filled, Value;
    FillsScale(fills, k);
    ZeroScales(Filled(fills), k);
    if Filled(fills) != 0.0 {
      QuotientScales(Value(fills), Filled(fills), k, Value(ScaledFills(fills, k)), Filled(ScaledFills(fills, k)));
    }
  }

  lemma ZeroScales(x: real, k: real)
    requires k > 0.0
    ensures x * k == 0.0 <==> x == 0.0
  {
  }

  lemma QuotientScales(v: real, q: real, k: real, vk: real, qk: real)
    requires q != 0.0 && qk != 0.0 && vk == v * k && qk == q * k
    ensures vk / qk == v / q
  {
    Reorder(v / q, q, k);
    assert (v / q) * (q * k) == ((v / q) * q) * k;
    QuotientIs(vk, qk, v / q);
  }

  lemma QuotientIs(n: real, d: real, x: real)
    requires d != 0.0 && x * d == n
    ensures n / d == x
  {
  }

  lemma WholeTimes(q: real, k: nat)
    requires q == q.Floor as real && q > 0.0 && k > 0
    ensures q * k as real > 0.0 && (q * k as real).Floor == q.Floor * k && q * k as real == (q * k as real).Floor as real
  {
    var n := q.Floor;
    assert n as real * k as real == (n * k) as real;
  }

  lemma WholeScales(leg: Leg, k: nat)
    requires Whole(leg) && k > 0
    ensures Whole(ScaledLeg(leg, k as real)) && Lots(ScaledLeg(leg, k as real)) == k * Lots(leg)
  {
    WholeTimes(leg.quantity, k);
    var scaled := ScaledLeg(leg, k as real);
    var q := leg.quantity * k as real;
    assert scaled.quantity == q;
    assert q == q.Floor as real;
    assert Whole(scaled);
    assert scaled.quantity.Floor == k * Lots(leg);
  }

  lemma {:induction false} UnitsScale(quantities: seq<nat>, scaled: seq<nat>, k: nat)
    requires quantities != [] && |scaled| == |quantities| && k > 0
    requires forall i :: 0 <= i < |quantities| ==> scaled[i] == k * quantities[i]
    ensures Units(scaled) == k * Units(quantities)
  {
    hide Gcd;
    var n := |quantities| - 1;
    if n != 0 {
      UnitsScale(quantities[..n], scaled[..n], k);
      GcdScales(k, Units(quantities[..n]), quantities[n]);
    }
  }

  lemma RatioScales(lots: nat, units: nat, k: nat)
    requires k > 0 && units > 0 && lots % units == 0
    ensures k * units > 0 && (k * lots) / (k * units) == lots / units
  {
    var q := lots / units;
    assert k * lots == (k * units) * q;
    Remainder(k * lots, k * units, q, 0);
  }

  // The same order, k times the size: more units of the same structure.
  ghost predicate SameStructure(legs: seq<Leg>, scaled: seq<Leg>, units: nat, k: nat) {
    && |scaled| == |legs| && Structured(legs, units) && Structured(scaled, k * units)
    && forall i :: 0 <= i < |legs| ==>
         scaled[i] == ScaledLeg(legs[i], k as real) && Ratio(scaled[i], k * units) == Ratio(legs[i], units)
  }

  lemma ScaledOrder(legs: seq<Leg>, k: nat)
    requires legs != [] && AllWhole(legs) && k > 0
    ensures var scaled := Scaled(legs, k as real);
            && AllWhole(scaled) && Units(AllLots(scaled)) == k * Units(AllLots(legs))
            && SameStructure(legs, scaled, Units(AllLots(legs)), k)
  {
    hide Units, ScaledLeg, Whole;
    var scaled := Scaled(legs, k as real);
    forall i | 0 <= i < |legs|
      ensures Whole(scaled[i]) && Lots(scaled[i]) == k * Lots(legs[i])
    {
      WholeScales(legs[i], k);
    }
    UnitsScale(AllLots(legs), AllLots(scaled), k);
    WholeOrder(legs);
    WholeOrder(scaled);
    forall i | 0 <= i < |legs|
      ensures Ratio(scaled[i], k * Units(AllLots(legs))) == Ratio(legs[i], Units(AllLots(legs)))
    {
      ExactRatio(legs[i], Units(AllLots(legs)));
      RatioScales(Lots(legs[i]), Units(AllLots(legs)), k);
    }
  }

  lemma ExactRatio(leg: Leg, u: nat)
    requires u > 0 && leg.quantity == u as real * Ratio(leg, u) && Whole(leg)
    ensures Lots(leg) % u == 0
  {
    var r := Lots(leg) / u;
    assert Lots(leg) as real == (u * r) as real;
    Remainder(Lots(leg), u, r, 0);
  }

  lemma {:induction false} NetScales(legs: seq<Leg>, scaled: seq<Leg>, units: nat, k: nat)
    requires SameStructure(legs, scaled, units, k) && k > 0
    ensures NetPrice(scaled, k * units) == NetPrice(legs, units)
  {
    hide Ratio, Vwap, Share, ScaledLeg;
    if legs != [] {
      var n := |legs| - 1;
      LegScales(legs[n], units, k * units, k);
      NetScales(legs[..n], scaled[..n], units, k);
    }
  }

  function Times(x: real, k: nat): real {
    x * k as real
  }

  lemma {:induction false} FilledScales(legs: seq<Leg>, scaled: seq<Leg>, units: nat, k: nat)
    requires legs != [] && SameStructure(legs, scaled, units, k) && k > 0
    ensures FilledUnits(scaled, k * units) == Times(FilledUnits(legs, units), k)
  {
    hide Ratio, Filled, InUnitsOf, ScaledLeg, Min, Times;
    var n := |legs| - 1;
    LegScales(legs[n], units, k * units, k);
    if n != 0 {
      FilledScales(legs[..n], scaled[..n], units, k);
      MinMaxScale(FilledUnits(legs[..n], units), InUnitsOf(Filled(legs[n].fills), legs[n], units), k);
    }
  }

  lemma {:induction false} RemainingScales(legs: seq<Leg>, scaled: seq<Leg>, units: nat, k: nat)
    requires legs != [] && SameStructure(legs, scaled, units, k) && k > 0
    ensures RemainingUnits(scaled, k * units) == Times(RemainingUnits(legs, units), k)
  {
    hide Ratio, Filled, InUnitsOf, ScaledLeg, Max, Times;
    var n := |legs| - 1;
    LegScales(legs[n], units, k * units, k);
    if n != 0 {
      RemainingScales(legs[..n], scaled[..n], units, k);
      MinMaxScale(RemainingUnits(legs[..n], units), InUnitsOf(legs[n].remaining, legs[n], units), k);
    }
  }

  lemma LegScales(leg: Leg, units: nat, more: nat, k: nat)
    requires units > 0 && more > 0 && k > 0 && Lots(leg) / units > 0 && Lots(ScaledLeg(leg, k as real)) / more > 0
    requires Ratio(ScaledLeg(leg, k as real), more) == Ratio(leg, units)
    ensures var scaled := ScaledLeg(leg, k as real);
            && InUnitsOf(Filled(scaled.fills), scaled, more) == Times(InUnitsOf(Filled(leg.fills), leg, units), k)
            && InUnitsOf(scaled.remaining, scaled, more) == Times(InUnitsOf(leg.remaining, leg, units), k)
            && Vwap(scaled.fills) == Vwap(leg.fills)
            && (Vwap(leg.fills).Some? ==> Share(scaled, more) == Share(leg, units))
  {
    hide Ratio, Vwap, Filled, Value;
    RatioPositive(leg, units);
    FillsScale(leg.fills, k as real);
    VwapScales(leg.fills, k as real);
    PartScales(Filled(leg.fills), Ratio(leg, units), k as real);
    PartScales(leg.remaining, Ratio(leg, units), k as real);
  }

  lemma PartScales(x: real, ratio: real, k: real)
    requires ratio > 0.0
    ensures (x * k) / ratio == x / ratio * k
  {
    Reorder(x / ratio, k, ratio);
    QuotientIs(x * k, ratio, x / ratio * k);
  }

  lemma MinMaxScale(a: real, b: real, k: nat)
    requires k > 0
    ensures Min(Times(a, k), Times(b, k)) == Times(Min(a, b), k)
    ensures Max(Times(a, k), Times(b, k)) == Times(Max(a, b), k)
  {
    if a <= b {
      OrderKept(a, b, k as real);
    } else {
      OrderKept(b, a, k as real);
    }
  }

  lemma OrderKept(a: real, b: real, k: real)
    requires a <= b && k > 0.0
    ensures a * k <= b * k && (a < b ==> a * k < b * k)
  {
    assert (b - a) * k == b * k - a * k;
  }

  /** k times every quantity and fill: the same price per unit, k times the units. */
  lemma OrderScales(legs: seq<Leg>, debit: bool, k: nat)
    requires |legs| >= 2 && AllWhole(legs) && k > 0
    ensures var fields, more := FieldsOf(legs, debit), FieldsOf(Scaled(legs, k as real), debit);
            && Units(AllLots(Scaled(legs, k as real))) == k * Units(AllLots(legs))
            && more.price == fields.price
            && fields.filled.Some? && more.filled.Some? && more.filled.value == fields.filled.value * k as real
            && fields.remaining.Some? && more.remaining.Some? && more.remaining.value == fields.remaining.value * k as real
  {
    hide Units, NetPrice, FilledUnits, RemainingUnits, Whole, ScaledLeg, Ratio;
    ScaledOrder(legs, k);
    WholeOrder(legs);
    WholeOrder(Scaled(legs, k as real));
    NetScales(legs, Scaled(legs, k as real), Units(AllLots(legs)), k);
    FilledScales(legs, Scaled(legs, k as real), Units(AllLots(legs)), k);
    RemainingScales(legs, Scaled(legs, k as real), Units(AllLots(legs)), k);
  }
}
