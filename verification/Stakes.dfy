/** What each open group holds of each security: the leg fold with its entry price, the plain
    count, and when they agree with each other and with the clamped walk. */
module Stakes {
  import opened Rows
  import opened Averages
  import opened Ordering
  import opened GroupNet
  import opened Routing
  import opened Books

  // ----------------------------------------------------------------------- one leg's slot

  datatype Slot = Slot(traded: real, openQuantity: real, notional: real, signedOpen: real, removal: real)

  const NOTHING := Slot(0.0, 0.0, 0.0, 0.0, 0.0)

  // A settlement no action has accounted for.
  predicate IsRemoval(r: Row) {
    !EndsToOpen(r.action) && !EndsToClose(r.action) && !r.subType.OtherSubType?
  }

  // A removal is taken once per leg: the physical and the cash row are one event.
  function SlotStep(slot: Slot, r: Row): Slot {
    var q := r.quantity.GetOr(0.0);
    if EndsToOpen(r.action) then
      Slot(slot.traded + q, slot.openQuantity + q, slot.notional + (if r.price.Some? then r.price.value * q else 0.0),
           slot.signedOpen + (if Sells(r.action) then -q else q), slot.removal)
    else if EndsToClose(r.action) then slot.(traded := slot.traded - q)
    else if IsRemoval(r) then slot.(removal := Max(slot.removal, q))
    else slot
  }

  function SlotRun(rows: seq<Row>): Slot {
    if rows == [] then NOTHING else SlotStep(SlotRun(rows[..|rows| - 1]), rows[|rows| - 1])
  }

  // ----------------------------------------------------------------------------- the fold

  type LegKey = (AccountId, SecurityId, nat)

  function LegOf(t: Txn): Option<LegKey> {
    if t.row.security.None? || t.group.None? then None else Some((t.row.account, t.row.security.value, t.group.value))
  }

  function LegRows(records: seq<Txn>, k: LegKey): seq<Row> {
    if records == [] then []
    else
      var front, t := LegRows(records[..|records| - 1], k), records[|records| - 1];
      if LegOf(t) == Some(k) then front + [t.row] else front
  }

  // Legs in order of first appearance.
  function Legs(records: seq<Txn>): seq<LegKey> {
    if records == [] then []
    else
      var front, k := Legs(records[..|records| - 1]), LegOf(records[|records| - 1]);
      if k.Some? && k.value !in front then front + [k.value] else front
  }

  datatype OpenGroupLeg = OpenGroupLeg(account: AccountId, security: SecurityId, group: nat, netOpen: int,
                                       averageOpen: Option<real>, short: bool)

  // int(): toward zero.
  function Truncate(x: real): int {
    if x < 0.0 then -((-x).Floor) else x.Floor
  }

  function AverageOpen(slot: Slot): Option<real> {
    if slot.openQuantity == 0.0 then None else Some(slot.notional / slot.openQuantity)
  }

  function LegRow(k: LegKey, slot: Slot): OpenGroupLeg {
    OpenGroupLeg(k.0, k.1, k.2, Truncate(slot.traded - slot.removal), AverageOpen(slot), slot.signedOpen < 0.0)
  }

  function SignedNetOpen(leg: OpenGroupLeg): int {
    if leg.short then -leg.netOpen else leg.netOpen
  }

  function LegFrom(records: seq<Txn>, k: LegKey): OpenGroupLeg {
    LegRow(k, SlotRun(LegRows(records, k)))
  }

  lemma LegRowsAppend(records: seq<Txn>, t: Txn, k: LegKey)
    ensures LegRows(records + [t], k) == LegRows(records, k) + (if LegOf(t) == Some(k) then [t.row] else [])
    ensures SlotRun(LegRows(records + [t], k))
         == if LegOf(t) == Some(k) then SlotStep(SlotRun(LegRows(records, k)), t.row) else SlotRun(LegRows(records, k))
  {
    assert (records + [t])[..|records|] == records;
    assert (LegRows(records, k) + [t.row])[..|LegRows(records, k)|] == LegRows(records, k);
  }

  lemma {:induction false} LegsAppear(records: seq<Txn>, k: LegKey)
    ensures k in Legs(records) <==> LegRows(records, k) != []
  {
    if records != [] {
      LegsAppear(records[..|records| - 1], k);
    }
  }

  /** One row per (account, security, group) that has any record. */
  method FoldOpenGroupLegs(records: seq<Txn>) returns (legs: seq<OpenGroupLeg>)
    ensures |legs| == |Legs(records)|
    ensures forall i :: 0 <= i < |legs| ==> legs[i] == LegFrom(records, Legs(records)[i])
  {
    hide SlotStep;
    var acc: map<LegKey, Slot>, keys: seq<LegKey> := map[], [];
    for i := 0 to |records|
      invariant keys == Legs(records[..i])
      invariant forall k :: k in acc <==> k in keys
      invariant forall k :: k in acc ==> acc[k] == SlotRun(LegRows(records[..i], k))
      invariant forall k :: k !in acc ==> LegRows(records[..i], k) == []
    {
      var t := records[i];
      assert records[..i + 1] == records[..i] + [t];
      assert (records[..i] + [t])[..i] == records[..i];
      forall k
        ensures SlotRun(LegRows(records[..i + 1], k))
             == if LegOf(t) == Some(k) then SlotStep(SlotRun(LegRows(records[..i], k)), t.row) else SlotRun(LegRows(records[..i], k))
        ensures LegOf(t) != Some(k) ==> LegRows(records[..i + 1], k) == LegRows(records[..i], k)
      {
        LegRowsAppend(records[..i], t, k);
      }
      var k := LegOf(t);
      if k.None? {
        continue;
      }
      if k.value !in acc {
        keys := keys + [k.value];
      }
      acc := acc[k.value := SlotStep(if k.value in acc then acc[k.value] else NOTHING, t.row)];
    }
    assert records[..|records|] == records;
    legs := seq(|keys|, i requires 0 <= i < |keys| => LegRow(keys[i], acc[keys[i]]));
  }

  // ---------------------------------------------------------------------- order and prices

  lemma StepsCommute(slot: Slot, a: Row, b: Row)
    ensures SlotStep(SlotStep(slot, a), b) == SlotStep(SlotStep(slot, b), a)
  {
  }

  lemma {:induction false} MoveLast(a: seq<Row>, r: Row, b: seq<Row>)
    ensures SlotRun(a + [r] + b) == SlotStep(SlotRun(a + b), r)
  {
    if b == [] {
      assert a + [r] + b == a + [r] && (a + [r])[..|a|] == a && a + b == a;
    } else {
      var front, last := b[..|b| - 1], b[|b| - 1];
      MoveLast(a, r, front);
      assert (a + [r] + b)[..|a + [r] + b| - 1] == a + [r] + front;
      assert (a + b)[..|a + b| - 1] == a + front;
      StepsCommute(SlotRun(a + front), r, last);
    }
  }

  /** The fold does not depend on the order of its records. */
  lemma {:induction false} FoldOrderIndependent(rows: seq<Row>, other: seq<Row>)
    requires multiset(rows) == multiset(other)
    ensures SlotRun(rows) == SlotRun(other)
  {
    if rows == [] {
      assert |other| == |multiset(other)| == 0;
    } else {
      var j := FindLast(rows, other);
      FoldOrderIndependent(rows[..|rows| - 1], other[..j] + other[j + 1..]);
      MoveLast(other[..j], other[j], other[j + 1..]);
      assert other == other[..j] + [other[j]] + other[j + 1..];
    }
  }

  /** Scaling out or being settled never moves the entry price, nor the side held. */
  lemma ClosesKeepTheEntry(rows: seq<Row>, r: Row)
    requires !EndsToOpen(r.action)
    ensures AverageOpen(SlotRun(rows + [r])) == AverageOpen(SlotRun(rows))
    ensures SlotRun(rows + [r]).signedOpen == SlotRun(rows).signedOpen
  {
    assert (rows + [r])[..|rows|] == rows;
  }

  ghost predicate OpensWithin(rows: seq<Row>, low: real, high: real) {
    forall r :: r in rows && EndsToOpen(r.action) ==>
      r.price.Some? && r.quantity.Some? && r.quantity.value > 0.0 && low <= r.price.value <= high
  }

  lemma OpenBetween(slot: Slot, r: Row, low: real, high: real)
    requires EndsToOpen(r.action) && r.price.Some? && r.quantity.Some? && r.quantity.value > 0.0 && low <= r.price.value <= high
    requires low * slot.openQuantity <= slot.notional <= high * slot.openQuantity
    ensures var next := SlotStep(slot, r);
            low * next.openQuantity <= next.notional <= high * next.openQuantity
  {
    var q := r.quantity.value;
    PriceBetween(low, r.price.value, high, q);
    assert low * (slot.openQuantity + q) == low * slot.openQuantity + low * q;
    assert high * (slot.openQuantity + q) == high * slot.openQuantity + high * q;
  }

  ghost predicate SomeOpen(rows: seq<Row>) {
    exists r :: r in rows && EndsToOpen(r.action)
  }

  lemma {:induction false} NotionalBetween(rows: seq<Row>, low: real, high: real)
    requires OpensWithin(rows, low, high)
    ensures var slot := SlotRun(rows);
            low * slot.openQuantity <= slot.notional <= high * slot.openQuantity
  {
    hide SlotStep;
    if rows != [] {
      var front, r := rows[..|rows| - 1], rows[|rows| - 1];
      assert rows == front + [r];
      NotionalBetween(front, low, high);
      if EndsToOpen(r.action) {
        OpenBetween(SlotRun(front), r, low, high);
      } else {
        EntryKept(SlotRun(front), r);
      }
    }
  }

  lemma EntryKept(slot: Slot, r: Row)
    requires !EndsToOpen(r.action)
    ensures SlotStep(slot, r).openQuantity == slot.openQuantity && SlotStep(slot, r).notional == slot.notional
    ensures SlotStep(slot, r).signedOpen == slot.signedOpen
  {
  }

  lemma {:induction false} OpenedExactlyWhen(rows: seq<Row>, low: real, high: real)
    requires OpensWithin(rows, low, high)
    ensures SlotRun(rows).openQuantity >= 0.0 && (SlotRun(rows).openQuantity > 0.0 <==> SomeOpen(rows))
  {
    if rows != [] {
      var front, r := rows[..|rows| - 1], rows[|rows| - 1];
      assert rows == front + [r];
      OpenedExactlyWhen(front, low, high);
      if EndsToOpen(r.action) {
        assert r in rows;
      } else if SomeOpen(front) {
        var o :| o in front && EndsToOpen(o.action);
        assert o in rows;
      }
    }
  }

  /** The entry price lies between the cheapest and the dearest opening fill. */
  lemma AverageWithin(rows: seq<Row>, low: real, high: real)
    requires OpensWithin(rows, low, high)
    ensures AverageOpen(SlotRun(rows)).Some? <==> SomeOpen(rows)
    ensures AverageOpen(SlotRun(rows)).Some? ==> low <= AverageOpen(SlotRun(rows)).value <= high
  {
    hide SlotRun, SomeOpen;
    NotionalBetween(rows, low, high);
    OpenedExactlyWhen(rows, low, high);
    var slot := SlotRun(rows);
    if slot.openQuantity != 0.0 {
      QuotientBetween(low, slot.notional, high, slot.openQuantity);
    }
  }
}
