/** What lapse synthesis guarantees: due nets go to zero, a second pass finds nothing, and the
    books keep every invariant of a pass. */
module LapseProofs {
  import opened Rows
  import opened Ordering
  import opened GroupNet
  import opened Routing
  import opened Books
  import opened Exits
  import opened Membership
  import opened Reconcile
  import opened Attribution
  import opened PassProofs
  import opened RunProofs
  import opened PassTheorems
  import opened Lapse
  import opened Upserts
  import opened Tables

  // ------------------------------------------------------------------ the bucketed rows

  lemma {:induction false} BucketedLapses(groups: seq<MemGroup>, lapses: seq<Row>, r: Row)
    ensures r in BucketRows(LapseBuckets(groups, lapses)) <==> r in lapses && OwnedBySome(r, groups)
  {
    if groups == [] {
      NothingAttributed(Ledger([], [], []));
      assert BucketLists([]) == [];
    } else {
      var n := |groups| - 1;
      var front, rows, buckets := groups[..n], Filter(lapses, OfGroup(groups[n].pk)), LapseBuckets(groups, lapses);
      BucketedLapses(front, lapses, r);
      FilterMember(lapses, r, OfGroup(groups[n].pk));
      if rows != [] {
        BucketRowsSplit(buckets);
        assert buckets[..|buckets| - 1] == LapseBuckets(front, lapses);
      }
      assert OwnedBySome(r, groups) <==> OwnedBySome(r, front) || OfGroup(groups[n].pk)(r) by {
        if k :| 0 <= k < |groups| && r.id.Lapse? && r.id.group == groups[k].pk {
          if k < n {
            assert front[k] == groups[k];
          }
        }
        if k :| 0 <= k < |front| && r.id.Lapse? && r.id.group == front[k].pk {
          assert groups[k] == front[k];
        }
        if OfGroup(groups[n].pk)(r) {
          assert r.id.group == groups[n].pk;
        }
      }
    }
  }

  // Every bucket holds its own group's settlements.
  ghost predicate OwnLapses(buckets: seq<Bucket>, groups: seq<MemGroup>) {
    && BucketsIn(buckets, groups)
    && forall i, k :: 0 <= i < |buckets| && 0 <= k < |buckets[i].rows| ==>
         OfGroup(groups[buckets[i].group].pk)(buckets[i].rows[k])
  }

  lemma {:induction false} LapseBucketsOwn(groups: seq<MemGroup>, lapses: seq<Row>)
    requires forall i :: 0 <= i < |lapses| ==> Draws(lapses[i])
    ensures ValidBuckets(LapseBuckets(groups, lapses), |groups|) && OwnLapses(LapseBuckets(groups, lapses), groups)
  {
    if groups != [] {
      var n := |groups| - 1;
      LapseBucketsOwn(groups[..n], lapses);
      var rows := Filter(lapses, OfGroup(groups[n].pk));
      forall k | 0 <= k < |rows|
        ensures OfGroup(groups[n].pk)(rows[k]) && Draws(rows[k])
      {
        FilterMember(lapses, rows[k], OfGroup(groups[n].pk));
      }
    }
  }

  // ------------------------------------------------------------------- the table afterwards

  function Owned(t: Txn, ids: set<TxnId>): Txn {
    if t.row.id in ids && t.row.id.Lapse? then t.(group := Some(t.row.id.group)) else t
  }

  // Applying the buckets attributes exactly their rows, each to the group its id names.
  lemma {:induction false} TxnsOfBuckets(st: Pass, groups: seq<MemGroup>, buckets: seq<Bucket>, rest: seq<Row>,
                                         newPk: Option<nat>, secs: Securities, link: Linker)
    requires BucketsIn(buckets, groups) && OwnLapses(buckets, groups)
    ensures var st' := ApplyBuckets(st, groups, buckets, rest, newPk, secs, link);
            |st'.ledger.txns| == |st.ledger.txns|
            && forall i :: 0 <= i < |st.ledger.txns| ==>
                 st'.ledger.txns[i] == Owned(st.ledger.txns[i], Ids(BucketRows(buckets)))
  {
    if buckets == [] {
      NothingAttributed(st.ledger);
    } else {
      var front, b := buckets[..|buckets| - 1], buckets[|buckets| - 1];
      TxnsOfBuckets(st, groups, front, rest, newPk, secs, link);
      BucketRowsSplit(buckets);
      var before := ApplyBuckets(st, groups, front, rest, newPk, secs, link);
      var e := ApplyExit(before.ledger, groups[b.group], b.rows, TargetIf(link.sameUnderlying(b.rows, rest), newPk),
                         TargetIf(link.delivers(b.rows, rest), newPk), secs);
      ExitTxns(before.ledger, groups[b.group], b.rows, TargetIf(link.sameUnderlying(b.rows, rest), newPk),
               TargetIf(link.delivers(b.rows, rest), newPk), secs);
      assert Ids(BucketRows(buckets)) == Ids(BucketRows(front)) + Ids(b.rows);
      forall i | 0 <= i < |st.ledger.txns|
        ensures e.ledger.txns[i] == Owned(st.ledger.txns[i], Ids(BucketRows(buckets)))
      {
        OwnedStep(st.ledger.txns[i], Ids(BucketRows(front)), b.rows, groups[b.group].pk);
      }
    }
  }

  lemma OwnedStep(t: Txn, ids: set<TxnId>, rows: seq<Row>, pk: nat)
    requires forall k :: 0 <= k < |rows| ==> OfGroup(pk)(rows[k])
    ensures AttachTxn(Owned(t, ids), Ids(rows), pk) == Owned(t, ids + Ids(rows))
  {
    if t.row.id in Ids(rows) {
      var r :| r in rows && r.id == t.row.id;
      var k :| 0 <= k < |rows| && rows[k] == r;
      assert OfGroup(pk)(rows[k]);
    }
  }

  // ---------------------------------------------------------------------- synthesis keeps

  lemma {:induction false} MembersConcat(a: seq<Txn>, b: seq<Txn>, pk: nat)
    ensures Members(a + b, pk) == Members(a, pk) + Members(b, pk)
  {
    if b == [] {
      assert a + b == a;
    } else {
      MembersConcat(a, b[..|b| - 1], pk);
      assert (a + b)[..|a + b| - 1] == a + b[..|b| - 1];
    }
  }

  lemma LapseFacts(s: Ledger, account: AccountId, m: Market)
    requires UniqueIds(s.txns)
    ensures var lapses, groups := Lapses(s, account, m), LoadOpen(s, account);
            && DistinctIds(lapses)
            && (forall i :: 0 <= i < |lapses| ==> IsLapse(lapses[i]) && Draws(lapses[i]) && OwnedBySome(lapses[i], groups))
            && (forall i, j :: 0 <= i < j < |groups| ==> groups[i].pk != groups[j].pk)
  {
    AllLapses(s, account, m);
    LoadedOpen(s, account, |s.groups|);
    var last, groups := LatestAt(AccountActivity(s.txns, account)), LoadOpen(s, account);
    OpenDistinct(s, account, groups);
    if last.Some? {
      LapsesDistinct(groups, account, Ascending(HeldBy(groups)), last.value, m);
    }
  }

  // --------------------------------------------------------------- which ids are rewritten

  // A transaction whose id the pass is about to synthesize again.
  predicate Recarried(s: Ledger, account: AccountId, m: Market, i: nat) {
    i < |s.txns| && s.txns[i].row.id in Ids(Lapses(s, account, m))
  }

  // The groups a settlement written again was in, or belongs to.
  ghost predicate Rewrites(s: Ledger, account: AccountId, m: Market, q: nat) {
    exists i: nat :: Recarried(s, account, m, i) && (s.txns[i].group == Some(q) || (s.txns[i].row.id.Lapse? && s.txns[i].row.id.group == q))
  }

  // Those of them whose settlement was not where the earlier pass put it.
  ghost predicate Returns(s: Ledger, account: AccountId, m: Market, q: nat) {
    exists i: nat :: Recarried(s, account, m, i) && s.txns[i].row.id.Lapse? && s.txns[i].group != Some(s.txns[i].row.id.group)
                     && (s.txns[i].group == Some(q) || s.txns[i].row.id.group == q)
  }

  ghost function Rewritten(s: Ledger, account: AccountId, m: Market): set<nat> {
    set q | 0 <= q <= |s.groups| && Rewrites(s, account, m, q)
  }

  ghost function Returned(s: Ledger, account: AccountId, m: Market): set<nat> {
    set q | 0 <= q <= |s.groups| && Returns(s, account, m, q)
  }

  // The table after the upsert.
  function Settled(s: Ledger, account: AccountId, m: Market): seq<Txn> {
    AllLapses(s, account, m);
    UpsertTxns(s.txns, LapseTxns(Lapses(s, account, m), true))
  }

  lemma UniqueTxnKeys(txns: seq<Txn>)
    ensures UniqueIds(txns) <==> UniqueKeys(txns, TxnKey)
  {
    assert forall i, j :: 0 <= i < j < |txns| ==> (TxnKey(txns[i]) != TxnKey(txns[j]) <==> txns[i].row.id != txns[j].row.id);
    if UniqueKeys(txns, TxnKey) {
      forall i, j | 0 <= i < j < |txns|
        ensures txns[i].row.id != txns[j].row.id
      {
        assert TxnKey(txns[i]) != TxnKey(txns[j]);
      }
    }
  }

  lemma LapseKeys(lapses: seq<Row>)
    requires DistinctIds(lapses) && forall i :: 0 <= i < |lapses| ==> IsLapse(lapses[i])
    ensures UniqueKeys(LapseTxns(lapses, true), TxnKey)
  {
  }

  lemma FoundLapse(lapses: seq<Row>, x: TxnId)
    requires forall i :: 0 <= i < |lapses| ==> IsLapse(lapses[i])
    ensures x in Ids(lapses) <==> PositionOf(LapseTxns(lapses, true), x, TxnKey).Some?
    ensures var k := PositionOf(LapseTxns(lapses, true), x, TxnKey);
            k.Some? ==> k.value < |lapses| && lapses[k.value].id == x && LapseTxns(lapses, true)[k.value] == LapseTxn(lapses[k.value], true)
  {
    var k := PositionOf(LapseTxns(lapses, true), x, TxnKey);
    if x in Ids(lapses) {
      var r :| r in lapses && r.id == x;
      var i :| 0 <= i < |lapses| && lapses[i] == r;
      assert TxnKey(LapseTxns(lapses, true)[i]) == Some(x);
    }
    if k.Some? {
      assert lapses[k.value] in lapses;
    }
  }

  // Where a transaction stood: itself, or the new settlement in the group its id names.
  lemma SettledAt(s: Ledger, account: AccountId, m: Market, i: nat)
    requires UniqueIds(s.txns) && i < |s.txns|
    ensures var after := Settled(s, account, m);
            && |s.txns| <= |after| && UniqueIds(after)
            && after[i].row.id == s.txns[i].row.id
            && (!Recarried(s, account, m, i) ==> after[i] == s.txns[i])
            && (Recarried(s, account, m, i) ==>
                  exists k :: 0 <= k < |Lapses(s, account, m)| && IsLapse(Lapses(s, account, m)[k])
                    && Lapses(s, account, m)[k].id == s.txns[i].row.id
                    && after[i] == Preserved(LapseTxn(Lapses(s, account, m)[k], true), Some(s.txns[i])))
  {
    hide Lapses, Preserved, UniqueIds, UniqueKeys;
    LapseFacts(s, account, m);
    var lapses := Lapses(s, account, m);
    var rows := LapseTxns(lapses, true);
    UniqueTxnKeys(s.txns);
    LapseKeys(lapses);
    UpsertsSplit(s.txns, rows);
    UpsertsUnique(s.txns, rows);
    UniqueTxnKeys(Settled(s, account, m));
    FoundLapse(lapses, s.txns[i].row.id);
    var k := PositionOf(rows, s.txns[i].row.id, TxnKey);
    if k.Some? {
      PreservedKey(rows[k.value], Some(s.txns[i]));
    }
  }

  // What is appended is a new settlement.
  lemma SettledNew(s: Ledger, account: AccountId, m: Market, i: nat)
    requires UniqueIds(s.txns) && |s.txns| <= i < |Settled(s, account, m)|
    ensures exists k :: 0 <= k < |Lapses(s, account, m)| && IsLapse(Lapses(s, account, m)[k])
              && Settled(s, account, m)[i] == LapseTxn(Lapses(s, account, m)[k], true)
  {
    hide Lapses, UniqueIds, UniqueKeys;
    LapseFacts(s, account, m);
    var lapses := Lapses(s, account, m);
    var rows := LapseTxns(lapses, true);
    UniqueTxnKeys(s.txns);
    LapseKeys(lapses);
    UpsertsSplit(s.txns, rows);
    var added := Filter(rows, NewTo(s.txns));
    var t := added[i - |s.txns|];
    FilterMember(rows, t, NewTo(s.txns));
    var k :| 0 <= k < |rows| && rows[k] == t;
    assert rows[k] == LapseTxn(lapses[k], true);
  }

  // Every settlement in the table afterwards stands in the group its id names.
  lemma SettledOwned(s: Ledger, account: AccountId, m: Market, i: nat)
    requires UniqueIds(s.txns) && i < |Settled(s, account, m)|
    ensures var t := Settled(s, account, m)[i];
            t.row.id in Ids(Lapses(s, account, m)) ==> t.row.id.Lapse? && t.group == Some(t.row.id.group)
  {
    hide Lapses, UniqueIds, Settled;
    if i < |s.txns| {
      SettledAt(s, account, m, i);
    } else {
      SettledNew(s, account, m, i);
    }
  }

  // Applying the exits attributes nothing the upsert has not.
  lemma SynthesizeTxns(s: Ledger, account: AccountId, m: Market, link: Linker)
    requires UniqueIds(s.txns)
    ensures Synthesize(s, account, m, link).txns == Settled(s, account, m)
  {
    hide Lapses, LapseBuckets, ApplyBuckets, LoadOpen, UpsertTxns, UniqueIds;
    var lapses, groups := Lapses(s, account, m), LoadOpen(s, account);
    LapseFacts(s, account, m);
    var buckets := LapseBuckets(groups, lapses);
    LapseBucketsOwn(groups, lapses);
    var txns := Settled(s, account, m);
    TxnsOfBuckets(Pass(s.(txns := txns), groups), groups, buckets, [], None, m.secs, link);
    forall i | 0 <= i < |txns|
      ensures Owned(txns[i], Ids(BucketRows(buckets))) == txns[i]
    {
      SettledOwned(s, account, m, i);
      BucketedIds(groups, lapses);
    }
  }

  lemma {:induction false} BucketedIds(groups: seq<MemGroup>, lapses: seq<Row>)
    ensures Ids(BucketRows(LapseBuckets(groups, lapses))) <= Ids(lapses)
  {
    hide LapseBuckets;
    var rows := BucketRows(LapseBuckets(groups, lapses));
    forall r | r in rows
      ensures r.id in Ids(lapses)
    {
      BucketedLapses(groups, lapses, r);
    }
  }

  // ------------------------------------------------------------------- members afterwards

  lemma {:induction false} SameMembership(a: seq<Txn>, b: seq<Txn>, q: nat)
    requires |a| == |b|
    requires forall i :: 0 <= i < |a| ==> if a[i].group == Some(q) then b[i].group == Some(q) && b[i].row == a[i].row
                                          else b[i].group != Some(q)
    ensures Members(a, q) == Members(b, q)
  {
    if a != [] {
      SameMembership(a[..|a| - 1], b[..|b| - 1], q);
    }
  }

  lemma {:induction false} NewLapseMembers(txns: seq<Txn>, lapses: seq<Row>, q: nat)
    requires forall i :: 0 <= i < |lapses| ==> IsLapse(lapses[i])
    requires forall i :: 0 <= i < |lapses| && IsLapse(lapses[i]) && lapses[i].id.group == q ==> Existing(txns, LapseTxn(lapses[i], true)).None?
    ensures Members(Filter(LapseTxns(lapses, true), NewTo(txns)), q) == Filter(lapses, OfGroup(q))
  {
    hide Existing;
    if lapses != [] {
      var front, r := lapses[..|lapses| - 1], lapses[|lapses| - 1];
      NewLapseMembers(txns, front, q);
      assert LapseTxns(lapses, true)[..|front|] == LapseTxns(front, true);
      var before := Filter(LapseTxns(front, true), NewTo(txns));
      assert (before + [LapseTxn(r, true)])[..|before|] == before;
    }
  }

  /** A group none of whose settlements is written again gains exactly its new settlements. */
  lemma MembersAfterLapse(s: Ledger, account: AccountId, m: Market, q: nat)
    requires UniqueIds(s.txns) && !Rewrites(s, account, m, q)
    ensures Members(Settled(s, account, m), q) == Members(s.txns, q) + Filter(Lapses(s, account, m), OfGroup(q))
  {
    hide Lapses, UniqueIds, UniqueKeys, Existing, Members;
    LapseFacts(s, account, m);
    var lapses := Lapses(s, account, m);
    var rows := LapseTxns(lapses, true);
    UniqueTxnKeys(s.txns);
    LapseKeys(lapses);
    UpsertsSplit(s.txns, rows);
    var kept := Overwritten(s.txns, rows);
    forall i | 0 <= i < |s.txns|
      ensures if s.txns[i].group == Some(q) then kept[i] == s.txns[i] else kept[i].group != Some(q)
    {
      SettledAt(s, account, m, i);
      assert Settled(s, account, m)[i] == kept[i];
    }
    SameMembership(s.txns, kept, q);
    forall i | 0 <= i < |lapses| && IsLapse(lapses[i]) && lapses[i].id.group == q
      ensures Existing(s.txns, LapseTxn(lapses[i], true)).None?
    {
      ThereIsRewritten(s, account, m, q, i);
    }
    NewLapseMembers(s.txns, lapses, q);
    MembersConcat(kept, Filter(rows, NewTo(s.txns)), q);
  }

  lemma ThereIsRewritten(s: Ledger, account: AccountId, m: Market, q: nat, k: nat)
    requires k < |Lapses(s, account, m)|
    requires IsLapse(Lapses(s, account, m)[k]) && Lapses(s, account, m)[k].id.group == q
    ensures Existing(s.txns, LapseTxn(Lapses(s, account, m)[k], true)).Some? ==> Rewrites(s, account, m, q)
  {
    hide Lapses;
    var r := Lapses(s, account, m)[k];
    assert r in Lapses(s, account, m);
    var j := PositionOf(s.txns, r.id, TxnKey);
    if j.Some? {
      assert Recarried(s, account, m, j.value);
    }
  }

  // ------------------------------------------------------------------ one group's outcome

  // The group's record and log are as they were.
  ghost predicate SameEntries(s: Ledger, s': Ledger, q: nat) {
    && (HasGroup(s, q) ==> HasGroup(s', q) && GroupAt(s', q) == GroupAt(s, q))
    && EventsOf(s'.events, q) == EventsOf(s.events, q)
  }

  // The group's rows have been applied: priced, and its record closed only if that leaves nothing.
  ghost predicate Applied(s: Ledger, s': Ledger, g: MemGroup, rows: seq<Row>) {
    && HasGroup(s, g.pk) && HasGroup(s', g.pk)
    && (GroupAt(s', g.pk) == GroupAt(s, g.pk)
        || (Fresh(g, rows) != [] && FullyClosed(ExtendUnique(g, rows).rows) && GroupAt(s', g.pk).status != Open
            && GroupAt(s', g.pk).account == GroupAt(s, g.pk).account))
    && Premium(s'.events, g.pk) == Premium(s.events, g.pk) + SumNet(Fresh(g, rows))
  }

  lemma SamePremium(s: Ledger, s': Ledger, q: nat)
    requires SameEntries(s, s', q)
    ensures Premium(s'.events, q) == Premium(s.events, q)
  {
    PremiumOfOwn(s.events, q);
    PremiumOfOwn(s'.events, q);
  }

  lemma ExitApplied(s: Ledger, g: MemGroup, rows: seq<Row>, rolledTo: Option<nat>, delivery: Option<nat>, secs: Securities)
    requires HasGroup(s, g.pk) && AllLeave(rows)
    ensures Applied(s, ApplyExit(s, g, rows, rolledTo, delivery, secs).ledger, g, rows)
  {
    hide ApplyExit, FullyClosed, ExitEvents, Leaves, TerminalStatus, GroupRealized;
    ExitShape(s, g, rows, rolledTo, delivery, secs);
    ExitKeepsBalance(s, g, rows, rolledTo, delivery, secs, g.pk);
    SumNetConcat(g.rows, Fresh(g, rows));
    if Fresh(g, rows) != [] && FullyClosed(ExtendUnique(g, rows).rows) {
      ClosedIsTerminal(GroupAt(s, g.pk), ExtendUnique(g, rows).rows, LatestAt(Fresh(g, rows)), secs);
    }
  }

  lemma ExitSameEntries(s: Ledger, g: MemGroup, rows: seq<Row>, rolledTo: Option<nat>, delivery: Option<nat>, secs: Securities, q: nat)
    requires HasGroup(s, g.pk) && q != g.pk
    ensures SameEntries(s, ApplyExit(s, g, rows, rolledTo, delivery, secs).ledger, q)
  {
    hide ApplyExit, FullyClosed, ExitEvents, EventsOf, ClosedGroup;
    ExitShape(s, g, rows, rolledTo, delivery, secs);
    var e := ApplyExit(s, g, rows, rolledTo, delivery, secs);
    ExitEventsOfGroup(g.pk, Fresh(g, rows), e.fullyClosed, rolledTo, delivery);
    var events := if Fresh(g, rows) == [] then [] else ExitEvents(g.pk, Fresh(g, rows), e.fullyClosed, rolledTo, delivery);
    OthersLog(s.events, events, g.pk, q);
  }

  // No bucket of the list is for the group.
  ghost predicate NotAddressed(groups: seq<MemGroup>, buckets: seq<Bucket>, q: nat)
    requires BucketsIn(buckets, groups)
  {
    forall k :: 0 <= k < |buckets| ==> groups[buckets[k].group].pk != q
  }

  ghost predicate AllThere(s: Ledger, groups: seq<MemGroup>) {
    && (forall i :: 0 <= i < |groups| ==> HasGroup(s, groups[i].pk))
    && (forall i, j :: 0 <= i < j < |groups| ==> groups[i].pk != groups[j].pk)
  }

  lemma {:induction false} BucketsOutcome(st: Pass, groups: seq<MemGroup>, buckets: seq<Bucket>, rest: seq<Row>,
                                          newPk: Option<nat>, secs: Securities, link: Linker, q: nat)
    requires ValidBuckets(buckets, |groups|) && AllThere(st.ledger, groups)
    ensures BucketsIn(buckets, groups)
    ensures var s' := ApplyBuckets(st, groups, buckets, rest, newPk, secs, link).ledger;
            && |s'.groups| == |st.ledger.groups|
            && (NotAddressed(groups, buckets, q) ==> SameEntries(st.ledger, s', q))
            && (forall k :: 0 <= k < |buckets| && groups[buckets[k].group].pk == q ==>
                  Applied(st.ledger, s', groups[buckets[k].group], buckets[k].rows))
  {
    hide ApplyExit, FullyClosed, Draws, Leaves, EventsOf, Premium, Fresh, ExtendUnique;
    if buckets != [] {
      var front, b := buckets[..|buckets| - 1], buckets[|buckets| - 1];
      BucketsOutcome(st, groups, front, rest, newPk, secs, link, q);
      var before := ApplyBuckets(st, groups, front, rest, newPk, secs, link).ledger;
      var rolled, delivery := TargetIf(link.sameUnderlying(b.rows, rest), newPk), TargetIf(link.delivers(b.rows, rest), newPk);
      var after, g := ApplyExit(before, groups[b.group], b.rows, rolled, delivery, secs).ledger, groups[b.group];
      ExitTxns(before, g, b.rows, rolled, delivery, secs);
      if g.pk == q {
        assert NotAddressed(groups, front, q);
        SamePremium(st.ledger, before, q);
        DrawsLeave(b.rows);
        ExitApplied(before, g, b.rows, rolled, delivery, secs);
      } else {
        ExitSameEntries(before, g, b.rows, rolled, delivery, secs, q);
        SamePremium(before, after, q);
        assert NotAddressed(groups, buckets, q) ==> NotAddressed(groups, front, q);
      }
    }
  }

  lemma {:induction false} BucketsRefs(st: Pass, groups: seq<MemGroup>, buckets: seq<Bucket>, rest: seq<Row>,
                                       newPk: Option<nat>, secs: Securities, link: Linker)
    requires BucketsIn(buckets, groups) && AllThere(st.ledger, groups) && ValidRefs(st.ledger)
    ensures ValidRefs(ApplyBuckets(st, groups, buckets, rest, newPk, secs, link).ledger)
    ensures |ApplyBuckets(st, groups, buckets, rest, newPk, secs, link).ledger.groups| == |st.ledger.groups|
  {
    hide ApplyExit, ValidRefs;
    if buckets != [] {
      var front, b := buckets[..|buckets| - 1], buckets[|buckets| - 1];
      BucketsRefs(st, groups, front, rest, newPk, secs, link);
      var before := ApplyBuckets(st, groups, front, rest, newPk, secs, link).ledger;
      var rolled, delivery := TargetIf(link.sameUnderlying(b.rows, rest), newPk), TargetIf(link.delivers(b.rows, rest), newPk);
      ExitTxns(before, groups[b.group], b.rows, rolled, delivery, secs);
      ExitRefs(before, groups[b.group], b.rows, rolled, delivery, secs);
    }
  }

  // The bucket of each group is its settlements.
  lemma {:induction false} LapseBucketsAre(groups: seq<MemGroup>, lapses: seq<Row>)
    ensures BucketsIn(LapseBuckets(groups, lapses), groups)
    ensures forall k :: 0 <= k < |LapseBuckets(groups, lapses)| ==>
              var b := LapseBuckets(groups, lapses)[k];
              b.rows == Filter(lapses, OfGroup(groups[b.group].pk))
    ensures forall i :: 0 <= i < |groups| && Filter(lapses, OfGroup(groups[i].pk)) != [] ==>
              exists k :: 0 <= k < |LapseBuckets(groups, lapses)| && LapseBuckets(groups, lapses)[k].group == i
  {
    LapseBucketsIn(groups, lapses);
    if groups != [] {
      var n := |groups| - 1;
      var front, buckets := LapseBuckets(groups[..n], lapses), LapseBuckets(groups, lapses);
      LapseBucketsIn(groups[..n], lapses);
      LapseBucketsAre(groups[..n], lapses);
      assert forall k :: 0 <= k < |front| ==> buckets[k] == front[k];
      forall i | 0 <= i < |groups| && Filter(lapses, OfGroup(groups[i].pk)) != []
        ensures exists k :: 0 <= k < |buckets| && buckets[k].group == i
      {
        if i < n {
          assert groups[..n][i] == groups[i];
          var k :| 0 <= k < |front| && front[k].group == i;
          assert buckets[k].group == i;
        } else {
          assert buckets[|buckets| - 1].group == n;
        }
      }
    }
  }

  /** A pass's synthesis, group by group: a group with no settlement keeps its record and log,
      and one with settlements has exactly those applied to the members it was loaded with. */
  lemma SynthesizedGroup(s: Ledger, account: AccountId, m: Market, link: Linker, q: nat)
    requires UniqueIds(s.txns)
    ensures var s', mine := Synthesize(s, account, m, link), Filter(Lapses(s, account, m), OfGroup(q));
            && |s'.groups| == |s.groups|
            && (mine == [] ==> SameEntries(s, s', q))
            && (mine != [] ==> OpenFor(s, account, q) && Applied(s, s', MemGroup(q, LoadRows(s, q)), mine))
  {
    hide Lapses, LapseBuckets, ApplyBuckets, UniqueIds, UpsertTxns, LoadRows, Applied, SameEntries, ValidBuckets;
    LapseFacts(s, account, m);
    var lapses, groups := Lapses(s, account, m), LoadOpen(s, account);
    LoadedRows(s, account, |s.groups|);
    LapseBucketsOwn(groups, lapses);
    LapseBucketsAre(groups, lapses);
    var buckets, mine := LapseBuckets(groups, lapses), Filter(lapses, OfGroup(q));
    var s1 := s.(txns := UpsertTxns(s.txns, LapseTxns(lapses, true)));
    BucketsOutcome(Pass(s1, groups), groups, buckets, [], None, m.secs, link, q);
    SameAsLoaded(s, s1, Synthesize(s, account, m, link), q);
    if mine == [] {
      NoEmptyBucket(buckets, groups);
      assert NotAddressed(groups, buckets, q);
    } else {
      OwnerLoaded(s, account, m, groups, q);
      var i :| 0 <= i < |groups| && groups[i].pk == q;
      var k :| 0 <= k < |buckets| && buckets[k].group == i;
    }
  }

  lemma NoEmptyBucket(buckets: seq<Bucket>, groups: seq<MemGroup>)
    requires ValidBuckets(buckets, |groups|)
    ensures forall k :: 0 <= k < |buckets| ==> buckets[k].rows != []
  {
  }

  lemma SameAsLoaded(s: Ledger, s1: Ledger, s': Ledger, q: nat)
    requires s1.groups == s.groups && s1.events == s.events
    ensures SameEntries(s1, s', q) <==> SameEntries(s, s', q)
    ensures forall g: MemGroup, rows :: Applied(s1, s', g, rows) <==> Applied(s, s', g, rows)
  {
    hide FullyClosed, Fresh, ExtendUnique;
  }

  // A settlement's group was loaded.
  lemma OwnerLoaded(s: Ledger, account: AccountId, m: Market, groups: seq<MemGroup>, q: nat)
    requires UniqueIds(s.txns) && groups == LoadOpen(s, account) && Filter(Lapses(s, account, m), OfGroup(q)) != []
    ensures exists i :: 0 <= i < |groups| && groups[i].pk == q
  {
    hide Lapses, LoadOpen;
    LapseFacts(s, account, m);
    var lapses := Lapses(s, account, m);
    var r := Filter(lapses, OfGroup(q))[0];
    FilterMember(lapses, r, OfGroup(q));
    var k :| 0 <= k < |lapses| && lapses[k] == r;
    assert OwnedBySome(lapses[k], groups);
  }

  lemma {:induction false} LoadedRows(s: Ledger, account: AccountId, n: nat)
    requires n <= |s.groups|
    ensures forall k :: 0 <= k < |LoadOpenUpTo(s, account, n)| ==>
              var g := LoadOpenUpTo(s, account, n)[k];
              OpenFor(s, account, g.pk) && g.rows == LoadRows(s, g.pk)
  {
    hide LoadRows;
    if n > 0 {
      LoadedRows(s, account, n - 1);
    }
  }

  // ------------------------------------------------------------------ one group's net

  lemma {:induction false} NetOfLoaded(rows: seq<Row>, s: SecurityId)
    ensures Lookup(NetQuantities(Sort(rows, GroupKey)), s) == Lookup(NetQuantities(rows), s)
  {
    NetOfSecurity(rows, s);
    NetOfSecurity(Sort(rows, GroupKey), s);
    FilterSort(rows, GroupKey, OnSecurity(s));
    SortSorted(Filter(rows, OnSecurity(s)), GroupKey);
    SortFixed(Sort(Filter(rows, OnSecurity(s)), GroupKey), GroupKey);
  }

  // Of one group's settlements, the one for a security.
  lemma {:induction false} LapseForBoth(groups: seq<MemGroup>, account: AccountId, held: seq<SecurityId>, last: Time, m: Market,
                                        pk: nat, s: SecurityId)
    requires forall i, j :: 0 <= i < j < |groups| ==> groups[i].pk != groups[j].pk
    requires forall i, j :: 0 <= i < j < |held| ==> held[i] < held[j]
    ensures Filter(Filter(LapsesOver(groups, account, held, last, m), OfGroup(pk)), OnSecurity(s))
         == if s in held && PointsOf(m, last, s).Some? && NetOf(groups, pk, s) != 0.0
            then [LapseRow(account, pk, s, NetOf(groups, pk, s), PointsOf(m, last, s).value, m)] else []
  {
    hide NetOf, PointsOf, LapsesIn;
    if held != [] {
      var n := |held| - 1;
      var x, points := held[n], PointsOf(m, last, held[n]);
      LapseForBoth(groups, account, held[..n], last, m, pk, s);
      DueFacts(m, last, x);
      if points.Some? {
        var before, mine := LapsesOver(groups, account, held[..n], last, m), LapsesIn(groups, account, x, points.value, m);
        OneSecurity(groups, account, x, points.value, m, pk, s);
        FilterConcat(before, mine, OfGroup(pk));
        FilterConcat(Filter(before, OfGroup(pk)), Filter(mine, OfGroup(pk)), OnSecurity(s));
      }
      if s == x {
        NotAmongSmaller(held);
      }
    }
  }

  lemma NotAmongSmaller(held: seq<SecurityId>)
    requires held != [] && forall i, j :: 0 <= i < j < |held| ==> held[i] < held[j]
    ensures held[|held| - 1] !in held[..|held| - 1]
  {
  }

  lemma {:induction false} OneSecurity(groups: seq<MemGroup>, account: AccountId, x: SecurityId, points: real, m: Market, pk: nat, s: SecurityId)
    requires x in m.secs && m.secs[x].expiry.Some?
    requires forall i, j :: 0 <= i < j < |groups| ==> groups[i].pk != groups[j].pk
    ensures Filter(Filter(LapsesIn(groups, account, x, points, m), OfGroup(pk)), OnSecurity(s))
         == if s == x && NetOf(groups, pk, s) != 0.0 then [LapseRow(account, pk, s, NetOf(groups, pk, s), points, m)] else []
  {
    hide NetOf, LapseRow;
    LapseInGroup(groups, account, x, points, m, pk);
    if NetOf(groups, pk, x) != 0.0 {
      var r := LapseRow(account, pk, x, NetOf(groups, pk, x), points, m);
      LapseRowOn(account, pk, x, NetOf(groups, pk, x), points, m);
      FilterAppend([], r, OnSecurity(s));
      assert [] + [r] == [r];
    }
  }

  lemma DueFacts(m: Market, last: Time, s: SecurityId)
    ensures PointsOf(m, last, s).Some? ==> s in m.secs && m.secs[s].expiry.Some? && DayOf(last) >= m.secs[s].expiry.value
  {
  }

  lemma LapseRowOn(account: AccountId, pk: nat, s: SecurityId, net: real, points: real, m: Market)
    requires s in m.secs && m.secs[s].expiry.Some?
    ensures forall t: SecurityId :: OnSecurity(t)(LapseRow(account, pk, s, net, points, m)) <==> t == s
  {
  }

  lemma {:induction false} LoadedNet(s: Ledger, account: AccountId, n: nat, pk: nat)
    requires n <= |s.groups|
    ensures FindGroup(LoadOpenUpTo(s, account, n), pk).Some? <==> OpenFor(s, account, pk) && pk <= n
    ensures FindGroup(LoadOpenUpTo(s, account, n), pk).Some? ==>
              LoadOpenUpTo(s, account, n)[FindGroup(LoadOpenUpTo(s, account, n), pk).value] == MemGroup(pk, LoadRows(s, pk))
  {
    hide LoadRows;
    if n > 0 {
      LoadedNet(s, account, n - 1, pk);
      var groups, front := LoadOpenUpTo(s, account, n), LoadOpenUpTo(s, account, n - 1);
      if OpenFor(s, account, n) {
        assert groups[..|groups| - 1] == front;
      } else {
        assert groups == front;
      }
    }
  }

  lemma HeldWhenNonZero(groups: seq<MemGroup>, pk: nat, s: SecurityId)
    requires NetOf(groups, pk, s) != 0.0
    ensures s in HeldBy(groups)
  {
    var i := FindGroup(groups, pk).value;
    assert groups[i] in groups;
  }

  lemma SameOnSecurity(a: seq<Row>, b: seq<Row>, x: SecurityId)
    requires Filter(a, OnSecurity(x)) == Filter(b, OnSecurity(x))
    ensures Lookup(NetQuantities(a), x) == Lookup(NetQuantities(b), x)
  {
    NetOfSecurity(a, x);
    NetOfSecurity(b, x);
  }

  lemma NetOfGroup(s: Ledger, account: AccountId, pk: nat, x: SecurityId)
    requires OpenFor(s, account, pk)
    ensures NetOf(LoadOpen(s, account), pk, x) == Lookup(NetQuantities(Members(s.txns, pk)), x).GetOr(0.0)
  {
    LoadedNet(s, account, |s.groups|, pk);
    NetOfLoaded(Members(s.txns, pk), x);
  }

  // A settlement is written for what the group holds in its security, and it is the only one.
  lemma LapseIsForNet(s: Ledger, account: AccountId, m: Market, q: nat, r: Row)
    requires UniqueIds(s.txns) && r in Lapses(s, account, m) && IsLapse(r) && r.id.group == q
    ensures OpenFor(s, account, q) && r.id == TxnId.Lapse(account, q, r.id.security) && OnSecurity(r.id.security)(r)
    ensures NetIn(MemGroup(q, LoadRows(s, q)), r.id.security) != 0.0
    ensures Filter(Filter(Lapses(s, account, m), OfGroup(q)), OnSecurity(r.id.security)) == [r]
  {
    hide LapsesOver, HeldBy, LoadOpenUpTo, LoadRows, NetIn, PointsOf, UniqueIds, LapseRow, Filter;
    var groups, x := LoadOpen(s, account), r.id.security;
    var last := LatestAt(AccountActivity(s.txns, account)).value;
    LapseFacts(s, account, m);
    AllLapses(s, account, m);
    var k :| 0 <= k < |Lapses(s, account, m)| && Lapses(s, account, m)[k] == r;
    LapseForBoth(groups, account, Ascending(HeldBy(groups)), last, m, q, x);
    var mine := Filter(Lapses(s, account, m), OfGroup(q));
    FilterMember(Lapses(s, account, m), r, OfGroup(q));
    FilterMember(mine, r, OnSecurity(x));
    LoadedNet(s, account, |s.groups|, q);
  }

  // ------------------------------------------------------------------- the synthesis keeps

  // A settlement written again was in its own group, which is open, or counts as returned.
  lemma RewritesWhere(s: Ledger, account: AccountId, m: Market, q: nat)
    requires UniqueIds(s.txns) && Rewrites(s, account, m, q)
    ensures Returns(s, account, m, q)
         || exists i: nat, r :: Recarried(s, account, m, i) && s.txns[i].group == Some(q)
              && r in Lapses(s, account, m) && IsLapse(r) && r.id == s.txns[i].row.id && r.id.group == q
  {
    hide Lapses, UniqueIds;
    AllLapses(s, account, m);
    var i: nat :| Recarried(s, account, m, i) && (s.txns[i].group == Some(q) || (s.txns[i].row.id.Lapse? && s.txns[i].row.id.group == q));
    var r :| r in Lapses(s, account, m) && r.id == s.txns[i].row.id;
    var k :| 0 <= k < |Lapses(s, account, m)| && Lapses(s, account, m)[k] == r;
    assert IsLapse(r);
  }

  lemma NotRewrittenFresh(s: Ledger, account: AccountId, m: Market, q: nat)
    requires UniqueIds(s.txns) && !Rewrites(s, account, m, q)
    ensures var mine := Filter(Lapses(s, account, m), OfGroup(q));
            Fresh(MemGroup(q, LoadRows(s, q)), mine) == mine
  {
    hide Lapses, UniqueIds, LoadRows, Members;
    var lapses := Lapses(s, account, m);
    var mine, held := Filter(lapses, OfGroup(q)), LoadRows(s, q);
    LoadHolds(s, q);
    forall k | 0 <= k < |mine|
      ensures NotAmong(Ids(held))(mine[k])
    {
      FilterMember(lapses, mine[k], OfGroup(q));
      HeldIsRewritten(s, account, m, q, mine[k]);
    }
    AllSelected(mine, NotAmong(Ids(held)));
  }

  lemma HeldIsRewritten(s: Ledger, account: AccountId, m: Market, q: nat, r: Row)
    requires UniqueIds(s.txns) && r in Lapses(s, account, m)
    ensures r.id in Ids(LoadRows(s, q)) ==> Rewrites(s, account, m, q)
  {
    hide Lapses, LoadRows, Members;
    LoadHolds(s, q);
    if y :| y in LoadRows(s, q) && y.id == r.id {
      MembersIn(s.txns, q, y);
      var i :| 0 <= i < |s.txns| && s.txns[i].row == y && s.txns[i].group == Some(q);
      assert Recarried(s, account, m, i);
    }
  }

  // A settlement the group holds already is dropped from its exit, so what it settles stays held.
  lemma HeldAgainStaysOpen(s: Ledger, account: AccountId, m: Market, q: nat)
    requires UniqueIds(s.txns) && Rewrites(s, account, m, q) && !Returns(s, account, m, q)
    ensures OpenFor(s, account, q)
    ensures !FullyClosed(ExtendUnique(MemGroup(q, LoadRows(s, q)), Filter(Lapses(s, account, m), OfGroup(q))).rows)
  {
    hide Lapses, LoadRows, Members, NetQuantities, Returns;
    RewritesWhere(s, account, m, q);
    var i: nat, r :| Recarried(s, account, m, i) && s.txns[i].group == Some(q)
      && r in Lapses(s, account, m) && IsLapse(r) && r.id == s.txns[i].row.id && r.id.group == q;
    LapseIsForNet(s, account, m, q, r);
    var x, g, mine := r.id.security, MemGroup(q, LoadRows(s, q)), Filter(Lapses(s, account, m), OfGroup(q));
    var added := Fresh(g, mine);
    LoadHolds(s, q);
    MembersIn(s.txns, q, s.txns[i].row);
    assert r.id in Ids(g.rows);
    forall k | 0 <= k < |added|
      ensures !OnSecurity(x)(added[k])
    {
      AddedMembers(g, mine, added[k]);
      FilterMember(mine, added[k], OnSecurity(x));
    }
    NothingSelected(added, OnSecurity(x));
    FilterConcat(g.rows, added, OnSecurity(x));
    SameOnSecurity(g.rows, g.rows + added, x);
  }

  lemma GroupFrozen(s: Ledger, account: AccountId, m: Market, link: Linker, q: nat)
    requires UniqueIds(s.txns) && HasGroup(s, q) && !OpenFor(s, account, q) && !Returns(s, account, m, q)
    ensures Untouched(s, Synthesize(s, account, m, link), q)
  {
    hide Lapses, Synthesize, Settled, Members, EventsOf, UniqueIds, Returns, Rewrites;
    SynthesizedGroup(s, account, m, link, q);
    SynthesizeTxns(s, account, m, link);
    if Rewrites(s, account, m, q) {
      HeldAgainStaysOpen(s, account, m, q);
    } else {
      MembersAfterLapse(s, account, m, q);
    }
  }

  lemma GroupConserved(s: Ledger, account: AccountId, m: Market, link: Linker, q: nat)
    requires UniqueIds(s.txns) && HasGroup(s, q) && !Rewrites(s, account, m, q)
    ensures Balance(Synthesize(s, account, m, link), q) == Balance(s, q)
  {
    hide Lapses, Synthesize, Settled, Members, EventsOf, UniqueIds, Rewrites, FullyClosed, LoadRows;
    SynthesizedGroup(s, account, m, link, q);
    SynthesizeTxns(s, account, m, link);
    MembersAfterLapse(s, account, m, q);
    NotRewrittenFresh(s, account, m, q);
    var mine := Filter(Lapses(s, account, m), OfGroup(q));
    SumNetConcat(Members(s.txns, q), mine);
    if mine == [] {
      SamePremium(s, Synthesize(s, account, m, link), q);
    }
  }

  lemma GroupSound(s: Ledger, account: AccountId, m: Market, link: Linker, q: nat)
    requires UniqueIds(s.txns) && HasGroup(s, q) && !Returns(s, account, m, q) && Sound(s, q)
    ensures HasGroup(Synthesize(s, account, m, link), q) && Sound(Synthesize(s, account, m, link), q)
  {
    hide Lapses, Synthesize, Settled, Members, EventsOf, UniqueIds, Rewrites, Returns, FullyClosed, LoadRows, Premium;
    var s', mine := Synthesize(s, account, m, link), Filter(Lapses(s, account, m), OfGroup(q));
    SynthesizedGroup(s, account, m, link, q);
    SynthesizeTxns(s, account, m, link);
    if Rewrites(s, account, m, q) {
      HeldAgainStaysOpen(s, account, m, q);
      if mine == [] {
        OwnedRewrite(s, account, m, q);
      }
    } else {
      MembersAfterLapse(s, account, m, q);
      if mine == [] {
        SameLoad(s, s', q);
      } else {
        NotRewrittenFresh(s, account, m, q);
        LoadedWith(s, s', q, mine);
      }
    }
  }

  lemma OwnedRewrite(s: Ledger, account: AccountId, m: Market, q: nat)
    requires UniqueIds(s.txns) && Rewrites(s, account, m, q) && !Returns(s, account, m, q)
    ensures Filter(Lapses(s, account, m), OfGroup(q)) != []
  {
    hide Lapses, Returns;
    RewritesWhere(s, account, m, q);
    var i: nat, r :| Recarried(s, account, m, i) && s.txns[i].group == Some(q)
      && r in Lapses(s, account, m) && IsLapse(r) && r.id == s.txns[i].row.id && r.id.group == q;
    FilterMember(Lapses(s, account, m), r, OfGroup(q));
  }

  lemma SameLoad(s: Ledger, s': Ledger, q: nat)
    requires Members(s'.txns, q) == Members(s.txns, q) + []
    ensures LoadRows(s', q) == LoadRows(s, q) && Members(s'.txns, q) == Members(s.txns, q)
  {
  }

  // What the exit saw, what the table holds and what a load returns are closed together.
  lemma LoadedWith(s: Ledger, s': Ledger, q: nat, mine: seq<Row>)
    requires UniqueIds(s.txns) && Members(s'.txns, q) == Members(s.txns, q) + mine
    ensures DistinctTimes(Members(s'.txns, q)) ==> (FullyClosed(LoadRows(s, q) + mine) <==> FullyClosed(LoadRows(s', q)))
  {
    hide FullyClosed, Members;
    LoadHolds(s, q);
    SortMultiset(Members(s'.txns, q), GroupKey);
    if DistinctTimes(Members(s'.txns, q)) {
      SameMembersSameCauses(Members(s'.txns, q), LoadRows(s, q) + mine);
      SameMembersSameCauses(Members(s'.txns, q), LoadRows(s', q));
    }
  }

  lemma SettledRefs(s: Ledger, account: AccountId, m: Market, link: Linker)
    requires WellKept(s)
    ensures WellKept(Synthesize(s, account, m, link)) && |Synthesize(s, account, m, link).groups| == |s.groups|
  {
    hide Lapses, Settled, LapseBuckets, ApplyBuckets, LoadOpenUpTo, UniqueIds;
    var lapses, groups := Lapses(s, account, m), LoadOpen(s, account);
    LapseFacts(s, account, m);
    LoadedRows(s, account, |s.groups|);
    LapseBucketsIn(groups, lapses);
    var s1 := s.(txns := Settled(s, account, m));
    forall i | 0 <= i < |s1.txns| && s1.txns[i].group.Some?
      ensures HasGroup(s1, s1.txns[i].group.value)
    {
      SettledHasGroup(s, account, m, i);
    }
    BucketsRefs(Pass(s1, groups), groups, LapseBuckets(groups, lapses), [], None, m.secs, link);
    SynthesizeTxns(s, account, m, link);
    SettledUnique(s, account, m);
    assert Synthesize(s, account, m, link) == ApplyBuckets(Pass(s1, groups), groups, LapseBuckets(groups, lapses), [], None, m.secs, link).ledger by {
      SynthesizeIs(s, account, m, link);
    }
  }

  lemma SynthesizeIs(s: Ledger, account: AccountId, m: Market, link: Linker)
    ensures var lapses, groups := Lapses(s, account, m), LoadOpen(s, account);
            && BucketsIn(LapseBuckets(groups, lapses), groups)
            && Synthesize(s, account, m, link) == ApplyBuckets(Pass(s.(txns := Settled(s, account, m)), groups), groups,
                                                               LapseBuckets(groups, lapses), [], None, m.secs, link).ledger
  {
    LapseBucketsIn(LoadOpen(s, account), Lapses(s, account, m));
  }

  lemma SettledUnique(s: Ledger, account: AccountId, m: Market)
    requires UniqueIds(s.txns)
    ensures UniqueIds(Settled(s, account, m))
  {
    hide Lapses, UniqueIds, UniqueKeys;
    AllLapses(s, account, m);
    UniqueTxnKeys(s.txns);
    UpsertsUnique(s.txns, LapseTxns(Lapses(s, account, m), true));
    UniqueTxnKeys(Settled(s, account, m));
  }

  lemma SettledHasGroup(s: Ledger, account: AccountId, m: Market, i: nat)
    requires WellKept(s) && i < |Settled(s, account, m)| && Settled(s, account, m)[i].group.Some?
    ensures HasGroup(s, Settled(s, account, m)[i].group.value)
  {
    hide Lapses, Settled, UniqueIds, LoadOpenUpTo;
    var t, groups := Settled(s, account, m)[i], LoadOpen(s, account);
    LoadedRows(s, account, |s.groups|);
    LapseFacts(s, account, m);
    if i < |s.txns| && !Recarried(s, account, m, i) {
      SettledAt(s, account, m, i);
    } else {
      SettledCarries(s, account, m, i);
      SettledOwned(s, account, m, i);
      var r :| r in Lapses(s, account, m) && r.id == t.row.id;
      var k :| 0 <= k < |Lapses(s, account, m)| && Lapses(s, account, m)[k] == r;
      assert OwnedBySome(Lapses(s, account, m)[k], groups);
    }
  }

  lemma SettledCarries(s: Ledger, account: AccountId, m: Market, i: nat)
    requires UniqueIds(s.txns) && i < |Settled(s, account, m)| && (i < |s.txns| ==> Recarried(s, account, m, i))
    ensures Settled(s, account, m)[i].row.id in Ids(Lapses(s, account, m))
  {
    hide Lapses, Settled, UniqueIds;
    if i < |s.txns| {
      SettledAt(s, account, m, i);
    } else {
      SettledNew(s, account, m, i);
      var k :| 0 <= k < |Lapses(s, account, m)| && IsLapse(Lapses(s, account, m)[k])
        && Settled(s, account, m)[i] == LapseTxn(Lapses(s, account, m)[k], true);
      assert Lapses(s, account, m)[k] in Lapses(s, account, m);
    }
  }

  /** Synthesizing lapses keeps what a pass keeps. The table changes by the settlements alone:
      each new one is appended in the group its id names, and each written again replaces the
      one with its id. Groups that were not open are untouched, and sound statuses stay sound,
      except where a settlement returns from another group; balances are kept except in a
      group whose settlement is written again. */
  lemma SynthesisTheorem(s: Ledger, account: AccountId, m: Market, link: Linker)
    requires WellKept(s)
    ensures var s' := Synthesize(s, account, m, link);
            && WellKept(s') && |s'.groups| == |s.groups| && s'.txns == Settled(s, account, m)
            && Frozen(s, s', account, Returned(s, account, m))
            && SoundKept(s, s', Returned(s, account, m))
            && Conserved(s, s', Rewritten(s, account, m))
  {
    hide Lapses, Synthesize, Settled, Members, EventsOf, UniqueIds, Rewrites, Returns, Sound, Balance, ValidRefs;
    SettledRefs(s, account, m, link);
    SynthesizeTxns(s, account, m, link);
    var s' := Synthesize(s, account, m, link);
    forall q | HasGroup(s, q) && !OpenFor(s, account, q) && q !in Returned(s, account, m)
      ensures Untouched(s, s', q)
    {
      GroupFrozen(s, account, m, link, q);
    }
    forall q | HasGroup(s', q) && q !in Returned(s, account, m) && Sound(s, q)
      ensures Sound(s', q)
    {
      GroupSound(s, account, m, link, q);
    }
    forall q | HasGroup(s', q) && q !in Rewritten(s, account, m)
      ensures Balance(s', q) == Balance(s, q)
    {
      GroupConserved(s, account, m, link, q);
    }
  }
}
