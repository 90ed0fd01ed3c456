/** Which settlements a pass writes and what they say: price, quantity and cash. */
module LapsePrices {
  import opened Rows
  import opened Ordering
  import opened GroupNet
  import opened Routing
  import opened Books
  import opened Headers
  import opened Exits
  import opened Membership
  import opened Reconcile
  import opened Lapse
  import opened LapseProofs
  import opened LapseNets
  import opened LapseTwice

  // A contract that settles against a price, and one that lapses worthless.
  predicate IsOption(info: SecurityInfo) {
    info.strike.Some? && info.optionType.Some?
  }

  // The security is far enough past its expiry by the account's clock, and has the price it needs.
  predicate Settles(m: Market, last: Time, x: SecurityId) {
    && x in m.secs && m.secs[x].expiry.Some?
    && DayOf(last) >= m.secs[x].expiry.value + m.settleAfter
    && (IsOption(m.secs[x]) ==> m.settlement(x).Some?)
  }

  /** The clock is the last time among the account's own transactions; without one nothing is
      settled. */
  lemma ClockIsOwnActivity(s: Ledger, account: AccountId, m: Market)
    ensures var last := LatestAt(AccountActivity(s.txns, account));
            && (last.Some? ==> exists t :: t in s.txns && t.row.account == account && t.row.at == last)
            && (forall t :: t in s.txns && t.row.account == account && t.row.at.Some? ==> last.Some? && t.row.at.value <= last.value)
            && (last.None? ==> Lapses(s, account, m) == [])
  {
    hide AccountActivity, LatestAt;
    OwnActivity(s.txns, account);
    LatestIsLast(AccountActivity(s.txns, account));
  }

  lemma {:induction false} OwnActivity(txns: seq<Txn>, account: AccountId)
    ensures forall t :: t in txns && t.row.account == account ==> t.row in AccountActivity(txns, account)
    ensures forall r :: r in AccountActivity(txns, account) ==> exists t :: t in txns && t.row == r && r.account == account
  {
    if txns != [] {
      var front, last := txns[..|txns| - 1], txns[|txns| - 1];
      OwnActivity(front, account);
      assert txns == front + [last];
      forall r | r in AccountActivity(txns, account)
        ensures exists t :: t in txns && t.row == r && r.account == account
      {
        if r in AccountActivity(front, account) {
          var t :| t in front && t.row == r && r.account == account;
          assert t in txns;
        } else {
          assert last in txns && last.row == r;
        }
      }
    }
  }

  /** A pass settles exactly what open groups hold of the securities that are due and, if they
      are options, have a price. */
  lemma SettledExactlyWhen(s: Ledger, account: AccountId, m: Market, last: Time, pk: nat, x: SecurityId)
    requires UniqueIds(s.txns) && LatestAt(AccountActivity(s.txns, account)) == Some(last)
    ensures TxnId.Lapse(account, pk, x) in Ids(Lapses(s, account, m)) <==>
            OpenFor(s, account, pk) && NetHeld(s, pk, x) != 0.0 && Settles(m, last, x)
  {
    hide Lapses, NetHeld, OpenFor;
    var id := TxnId.Lapse(account, pk, x);
    if id in Ids(Lapses(s, account, m)) {
      LapsePair(s, account, m, last, id);
    }
    if OpenFor(s, account, pk) && NetHeld(s, pk, x) != 0.0 && Settles(m, last, x) {
      OwnLapse(s, account, m, last, pk, x);
    }
  }

  // A settlement of the pass is the one for its pair.
  lemma LapseIs(s: Ledger, account: AccountId, m: Market, last: Time, r: Row)
    requires UniqueIds(s.txns) && LatestAt(AccountActivity(s.txns, account)) == Some(last) && r in Lapses(s, account, m)
    ensures r.id.Lapse? && r.id.account == account
    ensures var pk, x := r.id.group, r.id.security;
            && OpenFor(s, account, pk) && NetHeld(s, pk, x) != 0.0 && PointsOf(m, last, x).Some?
            && x in m.secs && m.secs[x].expiry.Some?
            && r == LapseRow(account, pk, x, NetHeld(s, pk, x), PointsOf(m, last, x).value, m)
  {
    hide Lapses, NetHeld, PointsOf, LapseRow, OpenFor;
    assert r.id in Ids(Lapses(s, account, m));
    LapsePair(s, account, m, last, r.id);
    var pk, x := r.id.group, r.id.security;
    OwnLapse(s, account, m, last, pk, x);
    LapseRowIs(account, pk, x, NetHeld(s, pk, x), PointsOf(m, last, x).value, m);
    LapseFacts(s, account, m);
    SameIdSameRow(Lapses(s, account, m), r, LapseRow(account, pk, x, NetHeld(s, pk, x), PointsOf(m, last, x).value, m));
  }

  lemma SameIdSameRow(rows: seq<Row>, a: Row, b: Row)
    requires DistinctIds(rows) && a in rows && b in rows && a.id == b.id
    ensures a == b
  {
  }

  // What an option is worth against a price: the difference when it pays, nothing otherwise.
  predicate Intrinsic(kind: OptionType, strike: real, settlement: real, price: real) {
    var pays := if kind.Call? then settlement - strike else strike - settlement;
    price >= 0.0 && price >= pays && (price == 0.0 || price == pays)
  }

  /** Every settlement of a pass is for the whole of what its group holds, at 21:15 on the expiry
      day. An option settles at what it is worth against its price, anything else at zero; a long
      lot receives price times quantity times multiplier and a short one pays it. */
  lemma LapsesArePriced(s: Ledger, account: AccountId, m: Market, last: Time, r: Row)
    requires UniqueIds(s.txns) && LatestAt(AccountActivity(s.txns, account)) == Some(last) && r in Lapses(s, account, m)
    ensures r.id.Lapse? && r.id.account == account == r.account && r.security == Some(r.id.security)
    ensures var pk, x := r.id.group, r.id.security;
            && Settles(m, last, x) && r.at == Some(m.secs[x].expiry.value * 86_400_000_000 + 76_500_000_000)
            && r.kind.ReceiveDeliver? && r.subType.Expiration? && r.action.NoAction?
            && r.quantity == Some(Abs(NetHeld(s, pk, x))) && r.price.Some?
            && (!IsOption(m.secs[x]) ==> r.price == Some(0.0))
            && (IsOption(m.secs[x]) ==>
                  Intrinsic(m.secs[x].optionType.value, m.secs[x].strike.value, m.settlement(x).value, r.price.value))
            && SignedNet(r) == r.price.value * NetHeld(s, pk, x) * (MultiplierOf(m.secs, x) as real)
            && FeesOf(r) == 0.0
  {
    hide Lapses, NetHeld, OpenFor, MultiplierOf;
    LapseIs(s, account, m, last, r);
    var net, price, x := NetHeld(s, r.id.group, r.id.security), PointsOf(m, last, r.id.security).value, r.id.security;
    LapseRowCash(account, r.id.group, x, net, price, m);
    assert price * (MultiplierOf(m.secs, x) as real) * net == price * net * (MultiplierOf(m.secs, x) as real);
  }

  // The market in which x is the other kind of option and nothing else differs.
  function Swapped(m: Market, x: SecurityId, kind: OptionType): Market
    requires x in m.secs
  {
    m.(secs := m.secs[x := m.secs[x].(optionType := Some(kind))])
  }

  /** A call and a put alike in everything else: one of the two settles at zero, and the call's
      price less the put's is the settlement price less the strike. */
  lemma CallLessPut(s: Ledger, account: AccountId, m: Market, last: Time, call: Row, put: Row)
    requires UniqueIds(s.txns) && LatestAt(AccountActivity(s.txns, account)) == Some(last)
    requires call.id == put.id && call.id.Lapse? && call.id.security in m.secs && m.secs[call.id.security].strike.Some?
    requires call in Lapses(s, account, Swapped(m, call.id.security, Call))
    requires put in Lapses(s, account, Swapped(m, call.id.security, Put))
    ensures call.price.Some? && put.price.Some? && call.price.value * put.price.value == 0.0
    ensures m.settlement(call.id.security).Some?
    ensures call.price.value - put.price.value == m.settlement(call.id.security).value - m.secs[call.id.security].strike.value
    ensures call.quantity == put.quantity && call.at == put.at
  {
    hide Lapses, NetHeld, MultiplierOf, DayOf;
    var x := call.id.security;
    LapsesArePriced(s, account, Swapped(m, x, Call), last, call);
    LapsesArePriced(s, account, Swapped(m, x, Put), last, put);
    if call.price.value != 0.0 && put.price.value != 0.0 {
      assert false;
    }
  }
}
