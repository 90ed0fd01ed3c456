/** Two inputs at which a settlement written again does not follow what the group holds. */
module LapseInputs {
  import opened Rows
  import opened Ordering
  import opened GroupNet
  import opened Routing
  import opened Books
  import opened Exits
  import opened Membership
  import opened Reconcile
  import opened Lapse
  import opened LapseProofs
  import opened LapseNets
  import opened LapseTwice

  const EXPIRY: nat := 10

  // One security, expired on day ten, settled without a price.
  function OneMarket(): Market {
    Market(map[0 := SecurityInfo(false, None, Some(EXPIRY), None, None)], (x: SecurityId) => None, 0)
  }

  function Fill(number: nat, action: Action, quantity: real, at: Time): Row {
    Row(Broker(number), 0, OtherKind, OtherSubType, action, Some(0), Some(quantity), None, None, false, None, None, None, None,
        Some(at), None)
  }

  function Written(quantity: real): Row {
    LapseRow(0, 1, 0, quantity, 0.0, OneMarket())
  }

  // One open group: a fill, its settlement, and a fill that came after the settlement was written.
  function Books3(first: Row, settled: real, late: Row): Ledger {
    Ledger([Txn(first, Some(1), None, None, None), Txn(Written(settled), Some(1), None, None, None),
            Txn(late, Some(1), None, None, None)],
           [Group(1, 0, Open, Some(0), 1, 0.0, None, 0.0, None, None, None)], [])
  }

  lemma WrittenIs(quantity: real)
    ensures var r := Written(quantity);
            && r.id == TxnId.Lapse(0, 1, 0) && r.account == 0 && IsSettlement(r) && !r.kind.MoneyMovement? && OnSecurity(0)(r)
            && r.quantity == Some(Abs(quantity)) && r.at == Some(LapseAt(EXPIRY)) && r.orderId.None?
            && (quantity != 0.0 ==> AsWritten(LapseTxn(r, true), OneMarket()))
  {
  }

  lemma MembersOf3(first: Row, settled: real, late: Row)
    ensures Members(Books3(first, settled, late).txns, 1) == [first, Written(settled), late]
  {
    ThreeMembers(Books3(first, settled, late).txns, 1);
  }

  lemma ThreeMembers(txns: seq<Txn>, pk: nat)
    requires |txns| == 3 && forall i :: 0 <= i < 3 ==> txns[i].group == Some(pk)
    ensures Members(txns, pk) == [txns[0].row, txns[1].row, txns[2].row]
  {
    assert txns[..2][..1] == txns[..1] && txns[..1][..0] == [];
    assert Members(txns[..1], pk) == [txns[0].row];
    assert Members(txns[..2], pk) == [txns[0].row, txns[1].row];
  }

  // The walk of three rows in time order.
  lemma NetOfThree(a: Row, b: Row, c: Row)
    requires OnSecurity(0)(a) && OnSecurity(0)(b) && OnSecurity(0)(c)
    requires KeyLe(GroupKey(a), GroupKey(b)) && KeyLe(GroupKey(b), GroupKey(c))
    ensures var x := GroupNetStep(0.0, a).GetOr(0.0);
            var y := GroupNetStep(x, b).GetOr(x);
            Lookup(NetQuantities([a, b, c]), 0).GetOr(0.0) == GroupNetStep(y, c).GetOr(y)
  {
    hide NetQuantities, GroupNetStep, GroupKey;
    NoNet();
    KeyLeThen(GroupKey(a), GroupKey(b), GroupKey(c));
    NetAfterLatest([], a, 0);
    NetAfterLatest([a], b, 0);
    NetAfterLatest([a, b], c, 0);
    assert [] + [a] == [a] && [a] + [b] == [a, b] && [a, b] + [c] == [a, b, c];
  }

  lemma NoNet()
    ensures Lookup(NetQuantities([]), 0) == None
  {
  }

  lemma KeyLeThen(a: Key, b: Key, c: Key)
    requires KeyLe(a, b) && KeyLe(b, c)
    ensures KeyLe(a, c)
  {
  }

  // On these books the settlement is due, the clock stands and every settlement is as written.
  lemma Books3Ready(first: Row, settled: real, late: Row, last: Time)
    requires first.id == Broker(1) && late.id == Broker(2) && settled > 0.0
    requires first.account == 0 && late.account == 0 && first.at.Some? && late.at.Some?
    requires first.at.value <= LapseAt(EXPIRY) && late.at.value <= LapseAt(EXPIRY) && last == LapseAt(EXPIRY)
    ensures var s, m := Books3(first, settled, late), OneMarket();
            && UniqueIds(s.txns) && OpenFor(s, 0, 1) && AllUndisturbed(s, 0, m) && HoldsOwn(s, 0, 1, 0)
            && OwnQuantity(s, 0, 1, 0) == settled
            && LatestAt(AccountActivity(s.txns, 0)) == Some(last) && PointsOf(m, last, 0) == Some(0.0)
  {
    hide Lapses, LapseAt, Members, Written;
    var s, m := Books3(first, settled, late), OneMarket();
    WrittenIs(settled);
    ThreeActivity(s.txns, 0);
    LatestOfThree(first, Written(settled), late);
    DueOnTheDay(last);
    forall i: nat | Recarried(s, 0, m, i)
      ensures AsWritten(s.txns[i], m)
    {
      LapsePair(s, 0, m, last, s.txns[i].row.id);
    }
    OwnStands(s, 0, 1, 0, 1);
  }

  lemma ThreeActivity(txns: seq<Txn>, account: AccountId)
    requires |txns| == 3 && forall i :: 0 <= i < 3 ==> txns[i].row.account == account
    ensures AccountActivity(txns, account) == [txns[0].row, txns[1].row, txns[2].row]
  {
    assert txns[..2][..1] == txns[..1] && txns[..1][..0] == [];
    assert AccountActivity(txns[..1], account) == [txns[0].row];
    assert AccountActivity(txns[..2], account) == [txns[0].row, txns[1].row];
  }

  lemma LatestOfThree(a: Row, b: Row, c: Row)
    requires a.at.Some? && b.at.Some? && c.at.Some? && a.at.value <= b.at.value && c.at.value <= b.at.value
    ensures LatestAt([a, b, c]) == b.at
  {
    assert [a, b, c][..2] == [a, b] && [a, b][..1] == [a] && [a][..0] == [];
    assert LatestAt([a]) == a.at;
    assert LatestAt([a, b]) == b.at;
  }

  lemma DueOnTheDay(last: Time)
    requires last == LapseAt(EXPIRY)
    ensures PointsOf(OneMarket(), last, 0) == Some(0.0)
  {
    LapseDay(EXPIRY);
  }

  function First(): Row {
    Fill(1, BuyToOpen, 2.0, 1)
  }

  function Late(): Row {
    Fill(2, BuyToOpen, 1.0, 2)
  }

  lemma LateNet()
    ensures NetHeld(Books3(First(), 2.0, Late()), 1, 0) == 1.0
  {
    hide NetHeld, LapseAt, Members, Written, NetQuantities;
    EarlyEnough();
    MembersOf3(First(), 2.0, Late());
    HeldIsOver(Books3(First(), 2.0, Late()), 1, 0);
    WrittenIs(2.0);
    SettledBetween(First(), Written(2.0), Late());
  }

  /** Two contracts bought and settled, and a third bought before expiry that arrives late: the
      group holds one, a pass leaves it two, the next leaves it one again. */
  lemma LateOpeningSwings(link: Linker)
    ensures var s, m := Books3(First(), 2.0, Late()), OneMarket();
            var s1 := Synthesize(s, 0, m, link);
            NetHeld(s, 1, 0) == 1.0 && NetHeld(s1, 1, 0) == 2.0 && NetHeld(Synthesize(s1, 0, m, link), 1, 0) == 1.0
  {
    hide Lapses, Synthesize, NetHeld, LapseAt, Members, Written, OwnQuantity, PointsOf, AccountActivity, OneMarket, Books3;
    var s, m, last := Books3(First(), 2.0, Late()), OneMarket(), LapseAt(EXPIRY);
    EarlyEnough();
    Books3Ready(First(), 2.0, Late(), last);
    LateNet();
    LateTimely(last);
    UndisturbedGroup(s, 0, m, 1);
    SettlesBackAndForth(s, 0, m, link, last, 1, 0);
    LapseNetsToZero(s, 0, m, link, last, 1, 0);
  }

  lemma LateTimely(last: Time)
    requires last == LapseAt(EXPIRY)
    ensures Timely(Books3(First(), 2.0, Late()), 0, 1, 0, last)
    ensures OneMarket().secs[0].expiry == Some(EXPIRY)
  {
    hide LapseAt, Written, Members;
    EarlyEnough();
    MembersOf3(First(), 2.0, Late());
    WrittenIs(2.0);
  }

  lemma EarlyEnough()
    ensures 2 < LapseAt(EXPIRY)
  {
  }

  // Two fills around a later settlement: the settlement comes last all the same.
  lemma SettledBetween(a: Row, b: Row, c: Row)
    requires OnSecurity(0)(a) && OnSecurity(0)(b) && OnSecurity(0)(c)
    requires KeyLe(GroupKey(a), GroupKey(c)) && KeyLe(GroupKey(c), GroupKey(b)) && !KeyLe(GroupKey(b), GroupKey(c))
    ensures var x := GroupNetStep(0.0, a).GetOr(0.0);
            var y := GroupNetStep(x, c).GetOr(x);
            Lookup(NetQuantities([a, b, c]), 0).GetOr(0.0) == GroupNetStep(y, b).GetOr(y)
  {
    hide NetQuantities, GroupNetStep, GroupKey, Walk, Sort, Filter, Insert;
    KeyLeThen(GroupKey(a), GroupKey(c), GroupKey(b));
    NetOfThree(a, c, b);
    NetOfSecurity([a, b, c], 0);
    NetOfSecurity([a, c, b], 0);
    AllOn([a, b, c]);
    AllOn([a, c, b]);
    SortWithLast([a], b, [c]);
    SortWithLast([a, c], b, []);
    assert [a] + [b] + [c] == [a, b, c] && [a] + [c] == [a, c] && [a, c] + [b] + [] == [a, c, b] && [a, c] + [] == [a, c];
  }

  lemma AllOn(rows: seq<Row>)
    requires forall i :: 0 <= i < |rows| ==> OnSecurity(0)(rows[i])
    ensures Filter(rows, OnSecurity(0)) == rows
  {
    AllSelected(rows, OnSecurity(0));
  }

  // ---------------------------------------------------------------------------- a tie

  function Short(): Row {
    Fill(2, SellToOpen, 2.0, LapseAt(EXPIRY))
  }

  function Long(): Row {
    Fill(1, BuyToOpen, 3.0, 1)
  }

  // The only pair that can settle here is the one there is.
  lemma OnePair(s: Ledger, last: Time, id: TxnId)
    requires UniqueIds(s.txns) && |s.groups| == 1 && LatestAt(AccountActivity(s.txns, 0)) == Some(last)
    requires id in Ids(Lapses(s, 0, OneMarket()))
    ensures id == TxnId.Lapse(0, 1, 0)
  {
    hide Lapses, NetHeld;
    LapsePair(s, 0, OneMarket(), last, id);
  }

  // Every other place of the table stays.
  lemma OtherPlaces(s: Ledger, last: Time, j: nat)
    requires UniqueIds(s.txns) && |s.groups| == 1 && LatestAt(AccountActivity(s.txns, 0)) == Some(last)
    requires |s.txns| == 3 && s.txns[1].row.id == TxnId.Lapse(0, 1, 0)
    requires j < |Settled(s, 0, OneMarket())| && j != 1
    ensures j < 3 && Settled(s, 0, OneMarket())[j] == s.txns[j]
  {
    hide Lapses, Settled, UniqueIds, AccountActivity, OneMarket;
    var after := Settled(s, 0, OneMarket());
    SettledUnique(s, 0, OneMarket());
    SettledAt(s, 0, OneMarket(), 1);
    SettledIs(s, 0, OneMarket(), j);
    SameIdSamePlace(after, j, 1);
    if after[j].row.id in Ids(Lapses(s, 0, OneMarket())) {
      OnePair(s, last, after[j].row.id);
    }
  }

  lemma WrittenLapse(quantity: real)
    ensures Written(quantity) == LapseRow(0, 1, 0, quantity, 0.0, OneMarket())
  {
  }

  lemma OnlyPlaceOne(s: Ledger, last: Time)
    requires UniqueIds(s.txns) && |s.groups| == 1 && LatestAt(AccountActivity(s.txns, 0)) == Some(last)
    requires |s.txns| == 3 && s.txns[1].row.id == TxnId.Lapse(0, 1, 0)
    ensures var after := Settled(s, 0, OneMarket());
            |after| == 3 && after[0] == s.txns[0] && after[2] == s.txns[2]
  {
    hide Lapses, Settled, UniqueIds, AccountActivity, OneMarket, Recarried;
    SettledAt(s, 0, OneMarket(), 2);
    OtherPlaces(s, last, 0);
    OtherPlaces(s, last, 2);
    if |Settled(s, 0, OneMarket())| > 3 {
      OtherPlaces(s, last, 3);
    }
  }

  // The settlement written again, where the first one stood.
  lemma PlaceOne(s: Ledger, m: Market, last: Time, net: real) returns (order: Option<nat>)
    requires s == Books3(Long(), 2.0, Short()) && m == OneMarket() && last == LapseAt(EXPIRY)
    requires net != 0.0 && NetHeld(s, 1, 0) == net
    ensures |Settled(s, 0, m)| > 1
    ensures Settled(s, 0, m)[1].row == Written(net).(orderId := order) && Settled(s, 0, m)[1].group == Some(1)
  {
    hide Lapses, NetHeld, LapseAt, Settled, Written, PointsOf, AccountActivity, OwnQuantity, UniqueIds, LapseRow, OneMarket;
    EarlyEnough();
    Books3Ready(Long(), 2.0, Short(), last);
    WrittenIs(2.0);
    WrittenIs(net);
    WrittenLapse(net);
    OwnLapse(s, 0, m, last, 1, 0);
    var i;
    i, order := SettledHas(s, 0, m, Written(net));
    OwnCarried(s, 0, 1, 0);
    SameIdSamePlace(s.txns, i, 1);
  }

  lemma TieTable(s: Ledger, m: Market, last: Time, net: real) returns (order: Option<nat>)
    requires s == Books3(Long(), 2.0, Short()) && m == OneMarket() && last == LapseAt(EXPIRY)
    requires net != 0.0 && NetHeld(s, 1, 0) == net
    ensures Members(Settled(s, 0, m), 1) == [Long(), Written(net).(orderId := order), Short()]
  {
    hide Lapses, NetHeld, LapseAt, Settled, Written, PointsOf, AccountActivity, Members, OwnQuantity, UniqueIds, OneMarket, AllUndisturbed;
    EarlyEnough();
    Books3Ready(Long(), 2.0, Short(), last);
    WrittenIs(2.0);
    order := PlaceOne(s, m, last, net);
    OnlyPlaceOne(s, last);
    ThreeMembers(Settled(s, 0, m), 1);
  }

  lemma TieNet(settled: Row)
    requires OnSecurity(0)(settled) && IsSettlement(settled) && !settled.kind.MoneyMovement? && settled.at == Some(LapseAt(EXPIRY))
    requires 0.0 < settled.quantity.value <= 3.0
    ensures Lookup(NetQuantities([Long(), settled, Short()]), 0).GetOr(0.0) == 1.0 - settled.quantity.value
  {
    hide NetQuantities;
    EarlyEnough();
    NetOfThree(Long(), settled, Short());
  }

  /** A sale at the very instant of the settlement and behind it in the table: the group is
      left short one although it holds a settlement, and the pass leaves it nothing. Rows that
      tie with a settlement in the table are outside the theorem for this reason. */
  lemma TieSettlesAnyway(link: Linker)
    ensures var s, m := Books3(Long(), 2.0, Short()), OneMarket();
            HoldsOwn(s, 0, 1, 0) && NetHeld(s, 1, 0) == -1.0 && NetHeld(Synthesize(s, 0, m, link), 1, 0) == 0.0
  {
    hide Lapses, Synthesize, NetHeld, LapseAt, Members, Written, OwnQuantity, PointsOf, AccountActivity, OneMarket, Books3, NetQuantities,
         UniqueIds, Settled;
    var s, m, last := Books3(Long(), 2.0, Short()), OneMarket(), LapseAt(EXPIRY);
    EarlyEnough();
    Books3Ready(Long(), 2.0, Short(), last);
    MembersOf3(Long(), 2.0, Short());
    WrittenIs(2.0);
    TieNet(Written(2.0));
    HeldIsOver(s, 1, 0);
    var order := TieTable(s, m, last, -1.0);
    WrittenIs(-1.0);
    TieNet(Written(-1.0).(orderId := order));
    SynthesizeTxns(s, 0, m, link);
    HeldIsOver(Synthesize(s, 0, m, link), 1, 0);
  }
}
