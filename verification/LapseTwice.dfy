/** A second synthesis over what the first one wrote: silent, unless the first rewrote a
    settlement, and then every further pass undoes the one before. */
module LapseTwice {
  import opened Rows
  import opened Ordering
  import opened GroupNet
  import opened Routing
  import opened Books
  import opened Exits
  import opened Membership
  import opened Reconcile
  import opened Attribution
  import opened PassProofs
  import opened PassTheorems
  import opened Lapse
  import opened LapseProofs
  import opened LapseNets

  // A group open after the pass was open before it.
  lemma StillOpen(s: Ledger, account: AccountId, m: Market, link: Linker, pk: nat)
    requires UniqueIds(s.txns) && OpenFor(Synthesize(s, account, m, link), account, pk)
    ensures OpenFor(s, account, pk)
  {
    hide Lapses, Synthesize, FullyClosed, EventsOf;
    SynthesizedGroup(s, account, m, link, pk);
  }

  lemma UndisturbedGroup(s: Ledger, account: AccountId, m: Market, pk: nat)
    requires AllUndisturbed(s, account, m)
    ensures Undisturbed(s, account, m, pk) && !Returns(s, account, m, pk)
  {
    hide Lapses;
  }

  // A group whose settlement is written again stays open.
  lemma RewrittenStaysOpen(s: Ledger, account: AccountId, m: Market, link: Linker, pk: nat, x: SecurityId)
    requires UniqueIds(s.txns) && AllUndisturbed(s, account, m) && OpenFor(s, account, pk)
    requires HoldsOwn(s, account, pk, x) && TxnId.Lapse(account, pk, x) in Ids(Lapses(s, account, m))
    ensures OpenFor(Synthesize(s, account, m, link), account, pk)
  {
    hide Lapses, Synthesize, FullyClosed, EventsOf, Recarried, Members, LoadRows, Premium, Fresh, ExtendUnique;
    UndisturbedGroup(s, account, m, pk);
    var i := OwnIndex(s, account, pk, x);
    RecarriedIs(s, account, m, i);
    assert Rewrites(s, account, m, pk);
    HeldAgainStaysOpen(s, account, m, pk);
    SynthesizedGroup(s, account, m, link, pk);
  }

  lemma RecarriedIs(s: Ledger, account: AccountId, m: Market, i: nat)
    ensures Recarried(s, account, m, i) <==> i < |s.txns| && s.txns[i].row.id in Ids(Lapses(s, account, m))
  {
  }

  // What an id among a pass's settlements says of its pair.
  lemma LapsePair(s: Ledger, account: AccountId, m: Market, last: Time, id: TxnId)
    requires UniqueIds(s.txns) && LatestAt(AccountActivity(s.txns, account)) == Some(last) && id in Ids(Lapses(s, account, m))
    ensures id.Lapse? && id.account == account && OpenFor(s, account, id.group)
    ensures PointsOf(m, last, id.security).Some? && NetHeld(s, id.group, id.security) != 0.0
  {
    hide Lapses, NetHeld, PointsOf;
    var r :| r in Lapses(s, account, m) && r.id == id;
    LapseDated(s, account, m, last, r);
    LapseIsForNet(s, account, m, id.group, r);
    NetHeldIs(s, id.group, id.security);
  }

  // No pair comes up that the first pass did not settle.
  lemma NoNewPairs(s: Ledger, account: AccountId, m: Market, link: Linker, last: Time, id: TxnId)
    requires UniqueIds(s.txns) && AllUndisturbed(s, account, m)
    requires LatestAt(AccountActivity(s.txns, account)) == Some(last)
    requires id in Ids(Lapses(Synthesize(s, account, m, link), account, m))
    ensures id.Lapse? && id in Ids(Lapses(s, account, m)) && OpenFor(s, account, id.group) && PointsOf(m, last, id.security).Some?
  {
    hide Lapses, Synthesize, Settled, NetHeld, PointsOf, AllUndisturbed, Undisturbed, UniqueIds;
    var s' := Synthesize(s, account, m, link);
    SynthesizeTxns(s, account, m, link);
    SettledUnique(s, account, m);
    ClockStands(s, account, m, last);
    LapsePair(s', account, m, LatestAt(AccountActivity(s'.txns, account)).value, id);
    StillOpen(s, account, m, link, id.group);
    UndisturbedGroup(s, account, m, id.group);
    OwnLapse(s, account, m, last, id.group, id.security);
    HeldIsOver(s', id.group, id.security);
    if NetHeld(s, id.group, id.security) == 0.0 {
      NothingHeld(s, account, m, last, id.group, id.security);
    }
  }

  /** Settlements stay as passes write them. */
  lemma UndisturbedAfter(s: Ledger, account: AccountId, m: Market, link: Linker, last: Time)
    requires UniqueIds(s.txns) && AllUndisturbed(s, account, m)
    requires LatestAt(AccountActivity(s.txns, account)) == Some(last)
    ensures AllUndisturbed(Synthesize(s, account, m, link), account, m)
  {
    hide Lapses, Synthesize, Settled, UniqueIds, PointsOf, LapseAt, AccountActivity;
    var s' := Synthesize(s, account, m, link);
    SynthesizeTxns(s, account, m, link);
    forall i: nat | Recarried(s', account, m, i)
      ensures AsWritten(s'.txns[i], m)
    {
      var t := s'.txns[i];
      NoNewPairs(s, account, m, link, last, t.row.id);
      SettledIs(s, account, m, i);
      var r, order :| r in Lapses(s, account, m) && t.row == r.(orderId := order) && IsLapse(r) && t.group == Some(r.id.group);
      LapseDated(s, account, m, last, r);
    }
  }

  // The pair's rows, its clock and its settlement, as the second pass finds them.
  ghost predicate PairReady(s: Ledger, account: AccountId, m: Market, last: Time, pk: nat, x: SecurityId) {
    && UniqueIds(s.txns) && AllUndisturbed(s, account, m) && OpenFor(s, account, pk)
    && LatestAt(AccountActivity(s.txns, account)) == Some(last) && PointsOf(m, last, x).Some?
    && (x in m.secs && m.secs[x].expiry.Some? ==> Timely(s, account, pk, x, LapseAt(m.secs[x].expiry.value)))
  }

  // The first pass put its settlement over one the group already held.
  ghost predicate Overwrites(s: Ledger, account: AccountId, pk: nat, x: SecurityId) {
    NetHeld(s, pk, x) != 0.0 && HoldsOwn(s, account, pk, x)
  }

  /** A second pass settles a group's security again exactly when the first one wrote its
      settlement over one the group already held. */
  lemma SecondPassSettles(s: Ledger, account: AccountId, m: Market, link: Linker, last: Time, pk: nat, x: SecurityId)
    requires PairReady(s, account, m, last, pk, x)
    ensures TxnId.Lapse(account, pk, x) in Ids(Lapses(Synthesize(s, account, m, link), account, m)) <==>
            Overwrites(s, account, pk, x)
  {
    hide Lapses, Synthesize, Settled, NetHeld, PointsOf, AllUndisturbed, Undisturbed, UniqueIds, HoldsOwn, Timely, LapseAt, OwnQuantity;
    var s', id := Synthesize(s, account, m, link), TxnId.Lapse(account, pk, x);
    UndisturbedGroup(s, account, m, pk);
    LapseNetsToZero(s, account, m, link, last, pk, x);
    SynthesizeTxns(s, account, m, link);
    SettledUnique(s, account, m);
    ClockStands(s, account, m, last);
    var last' := LatestAt(AccountActivity(s'.txns, account)).value;
    if id in Ids(Lapses(s', account, m)) {
      LapsePair(s', account, m, last', id);
    }
    if Overwrites(s, account, pk, x) {
      OwnLapse(s, account, m, last, pk, x);
      RewrittenStaysOpen(s, account, m, link, pk, x);
      OwnLapse(s', account, m, last', pk, x);
    }
  }

  // Every pair the pass settles is in order.
  ghost predicate AllTimely(s: Ledger, account: AccountId, m: Market, last: Time) {
    forall pk: nat, x: SecurityId {:trigger OpenFor(s, account, pk), PointsOf(m, last, x)} ::
      OpenFor(s, account, pk) && PointsOf(m, last, x).Some? && x in m.secs && m.secs[x].expiry.Some? ==>
        Timely(s, account, pk, x, LapseAt(m.secs[x].expiry.value))
  }

  /** A second pass synthesizes nothing at all exactly when the first one rewrote nothing. */
  lemma SecondPassSynthesizesNothing(s: Ledger, account: AccountId, m: Market, link: Linker, last: Time)
    requires UniqueIds(s.txns) && AllUndisturbed(s, account, m) && AllTimely(s, account, m, last)
    requires LatestAt(AccountActivity(s.txns, account)) == Some(last)
    ensures Lapses(Synthesize(s, account, m, link), account, m) == [] <==> forall i: nat :: !Recarried(s, account, m, i)
  {
    hide Lapses, Synthesize, PointsOf, UniqueIds, Timely, LapseAt, NetHeld;
    var s' := Synthesize(s, account, m, link);
    var again := Lapses(s', account, m);
    if again != [] {
      var id := again[0].id;
      assert again[0] in again;
      NoNewPairs(s, account, m, link, last, id);
      LapsePair(s, account, m, last, id);
      assert PairReady(s, account, m, last, id.group, id.security);
      SecondPassSettles(s, account, m, link, last, id.group, id.security);
      assert Recarried(s, account, m, OwnIndex(s, account, id.group, id.security));
    }
    if i: nat :| Recarried(s, account, m, i) {
      var id := s.txns[i].row.id;
      LapsePair(s, account, m, last, id);
      assert HoldsOwn(s, account, id.group, id.security);
      SecondPassSettles(s, account, m, link, last, id.group, id.security);
    }
  }

  // The pair is as ready for the next pass, with its settlement's quantity now what was held.
  lemma ReadyAgain(s: Ledger, account: AccountId, m: Market, link: Linker, last: Time, pk: nat, x: SecurityId)
    requires PairReady(s, account, m, last, pk, x) && Overwrites(s, account, pk, x)
    ensures var s' := Synthesize(s, account, m, link);
            var last' := LatestAt(AccountActivity(s'.txns, account));
            && last'.Some? && PairReady(s', account, m, last'.value, pk, x)
            && HoldsOwn(s', account, pk, x) && OwnQuantity(s', account, pk, x) == Abs(NetHeld(s, pk, x))
  {
    hide Lapses, Synthesize, Settled, NetHeld, PointsOf, AllUndisturbed, Undisturbed, UniqueIds, HoldsOwn, Timely, LapseAt, LapseRow,
         OwnQuantity;
    var s', id := Synthesize(s, account, m, link), TxnId.Lapse(account, pk, x);
    UndisturbedGroup(s, account, m, pk);
    SynthesizeTxns(s, account, m, link);
    SettledUnique(s, account, m);
    ClockStands(s, account, m, last);
    UndisturbedAfter(s, account, m, link, last);
    OwnLapse(s, account, m, last, pk, x);
    RewrittenStaysOpen(s, account, m, link, pk, x);
    var r := LapseRow(account, pk, x, NetHeld(s, pk, x), PointsOf(m, last, x).value, m);
    LapseRowIs(account, pk, x, NetHeld(s, pk, x), PointsOf(m, last, x).value, m);
    LapseRowOrder(account, pk, x, NetHeld(s, pk, x), PointsOf(m, last, x).value, m);
    var i, order := SettledHas(s, account, m, r);
    OwnStands(s', account, pk, x, i);
    BesidesKept(s, account, m, pk, x);
    OwnCarried(s, account, pk, x);
    TimelyAgain(s, s', account, pk, x, LapseAt(m.secs[x].expiry.value));
  }

  lemma OwnStands(s: Ledger, account: AccountId, pk: nat, x: SecurityId, i: nat)
    requires UniqueIds(s.txns) && i < |s.txns| && s.txns[i].row.id == TxnId.Lapse(account, pk, x) && s.txns[i].group == Some(pk)
    ensures HoldsOwn(s, account, pk, x) && OwnQuantity(s, account, pk, x) == s.txns[i].row.quantity.GetOr(0.0)
  {
    SameIdSamePlace(s.txns, i, OwnIndex(s, account, pk, x));
  }

  lemma OwnCarried(s: Ledger, account: AccountId, pk: nat, x: SecurityId)
    requires HoldsOwn(s, account, pk, x)
    ensures Carries(s.txns, TxnId.Lapse(account, pk, x))
  {
  }

  lemma TimelyAgain(s: Ledger, s': Ledger, account: AccountId, pk: nat, x: SecurityId, at: Time)
    requires Timely(s, account, pk, x, at) && Carries(s.txns, TxnId.Lapse(account, pk, x))
    requires var p := Besides(x, TxnId.Lapse(account, pk, x));
             Filter(Members(s'.txns, pk), p) == Filter(Members(s.txns, pk), p)
    ensures Timely(s', account, pk, x, at)
  {
    hide Members, Carries;
    var p := Besides(x, TxnId.Lapse(account, pk, x));
    forall r | r in Members(s'.txns, pk) && p(r)
      ensures r.at.Some? && r.at.value < at
    {
      FilterMember(Members(s'.txns, pk), r, p);
      FilterMember(Members(s.txns, pk), r, p);
    }
  }

  /** Where the first pass overwrites a settlement, the second undoes it: what the group holds
      swings between two amounts and never reaches zero. */
  lemma SettlesBackAndForth(s: Ledger, account: AccountId, m: Market, link: Linker, last: Time, pk: nat, x: SecurityId)
    requires PairReady(s, account, m, last, pk, x) && Overwrites(s, account, pk, x)
    ensures var s1 := Synthesize(s, account, m, link);
            var s2 := Synthesize(s1, account, m, link);
            && NetHeld(s1, pk, x) != 0.0 && Abs(NetHeld(s1, pk, x)) == OwnQuantity(s, account, pk, x)
            && NetHeld(s2, pk, x) == NetHeld(s, pk, x)
  {
    hide Lapses, Synthesize, NetHeld, PointsOf, AllUndisturbed, Undisturbed, UniqueIds, HoldsOwn, Timely, LapseAt, OwnQuantity;
    var s1 := Synthesize(s, account, m, link);
    UndisturbedGroup(s, account, m, pk);
    LapseNetsToZero(s, account, m, link, last, pk, x);
    ReadyAgain(s, account, m, link, last, pk, x);
    var last' := LatestAt(AccountActivity(s1.txns, account)).value;
    UndisturbedGroup(s1, account, m, pk);
    LapseNetsToZero(s1, account, m, link, last', pk, x);
  }
}
