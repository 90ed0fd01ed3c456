/** From one bucket to a whole pass: clusters, self-heal, reruns. */
module RunProofs {
  import opened Rows
  import opened Ordering
  import opened GroupNet
  import opened Routing
  import opened Books
  import opened Exits
  import opened Membership
  import opened Reconcile
  import opened Attribution
  import opened PassProofs

  // --------------------------------------------------------------------- a created group

  lemma {:induction false} NoMembersYet(txns: seq<Txn>, pk: nat)
    requires forall i :: 0 <= i < |txns| ==> txns[i].group != Some(pk)
    ensures Members(txns, pk) == []
  {
    if txns != [] {
      NoMembersYet(txns[..|txns| - 1], pk);
    }
  }

  lemma {:induction false} NoEventsYet(events: seq<Event>, pk: nat)
    requires forall i :: 0 <= i < |events| ==> events[i].group != pk
    ensures Premium(events, pk) == 0.0
  {
    if events != [] {
      NoEventsYet(events[..|events| - 1], pk);
    }
  }

  lemma CreatedMembers(s: Ledger, account: AccountId, rows: seq<Row>)
    requires UniqueIds(s.txns) && ValidRefs(s) && Unattributed(s, rows)
    ensures var s', pk := CreateGroup(s, account, rows), |s.groups| + 1;
            && UniqueIds(s'.txns) && Holds(s'.txns, MemGroup(pk, rows))
            && (forall q :: q != pk ==> Members(s'.txns, q) == Members(s.txns, q))
  {
    var s', pk := CreateGroup(s, account, rows), |s.groups| + 1;
    AttachKeepsUnique(s.txns, Ids(rows), pk);
    NoMembersYet(s.txns, pk);
    forall r
      ensures r in rows <==> r in Members(s'.txns, pk)
    {
      AttachMembers(s.txns, rows, pk, r);
    }
    forall q | q != pk
      ensures Members(s'.txns, q) == Members(s.txns, q)
    {
      AttachLeavesOthers(s.txns, Ids(rows), pk, q);
    }
  }

  lemma CreatedPremium(s: Ledger, account: AccountId, rows: seq<Row>, q: nat)
    requires ValidRefs(s)
    ensures var pk := |s.groups| + 1;
            Premium(CreateGroup(s, account, rows).events, q) == if q == pk then SumNet(rows) else Premium(s.events, q)
  {
    var pk, g := |s.groups| + 1, FreshGroup(|s.groups| + 1, account, rows);
    var e := Event(pk, Entry, g.quantity.GetOr(0.0), g.premium, g.executedAt, None);
    PremiumOne(e, q);
    PremiumConcat(s.events, [e], q);
    NoEventsYet(s.events, pk);
  }

  /** The rest of a cluster becomes a new open group whose entry event carries its cash. */
  lemma CreateStep(s0: Ledger, account: AccountId, st: Pass, rest: seq<Row>, named: set<nat> := {}, loose: set<nat> := named)
    requires PassInv(s0, account, st, named, loose) && Unattributed(st.ledger, rest)
    ensures var st' := OpenRest(st, account, rest);
            && PassInv(s0, account, st', named, loose)
            && Attributed(st.ledger, st'.ledger, Ids(rest))
            && (forall k :: 0 <= k < |st.open| ==> st.open[k] in st'.open)
  {
    if rest == [] {
      NothingAttributed(st.ledger);
    } else {
      hide FreshGroup, CreateGroup, Balance, Sound, Premium, Attributed, Frozen, Conserved, OpenOK, SoundKept, ValidRefs, AttachAll,
           HoldsAllOpen;
      var s, s', pk := st.ledger, CreateGroup(st.ledger, account, rest), |st.ledger.groups| + 1;
      CreateShape(s, account, rest);
      CreatedMembers(s, account, rest);
      CreatedOnly(s, account, rest);
      CreatedFrozen(s0, s, s', account, pk, named);
      CreatedBalance(s, account, rest);
      CreatedConserved(s0, s, s', pk, loose);
      CreatedSound(s0, s, s', account, rest, named);
      CreatedRefs(s, account, rest);
      CreatedOpen(s, s', account, st.open, MemGroup(pk, rest), named);
      CreatedHoldsAll(s, s', account, st.open, MemGroup(pk, rest));
      AttachAttributes(s, s', rest, pk);
      AttachSameRows(s0, s, s', rest, pk);
    }
  }

  // A created group is held from then on, for the clusters to come.
  lemma CreatedHoldsAll(s: Ledger, s': Ledger, account: AccountId, open: seq<MemGroup>, g: MemGroup)
    requires HoldsAllOpen(s, account, open) && OnlyGroup(s, s', g.pk) && |s'.groups| == |s.groups| + 1 == g.pk
    ensures HoldsAllOpen(s', account, open + [g])
  {
    hide EventsOf;
    forall q: nat | OpenFor(s', account, q)
      ensures Lists(open + [g], q)
    {
      if q == g.pk {
        assert (open + [g])[|open|].pk == q;
      } else {
        assert Untouched(s, s', q) && OpenFor(s, account, q);
        var k :| 0 <= k < |open| && open[k].pk == q;
        assert (open + [g])[k].pk == q;
      }
    }
  }

  lemma AttachSameRows(s0: Ledger, s: Ledger, s': Ledger, rows: seq<Row>, pk: nat)
    requires SameRows(s0.txns, s.txns) && s'.txns == AttachAll(s.txns, Ids(rows), pk)
    ensures SameRows(s0.txns, s'.txns)
  {
  }

  lemma CreateShape(s: Ledger, account: AccountId, rows: seq<Row>)
    ensures var s', pk := CreateGroup(s, account, rows), |s.groups| + 1;
            && s'.txns == AttachAll(s.txns, Ids(rows), pk)
            && |s'.groups| == pk && s'.groups[..|s.groups|] == s.groups && OpenFor(s', account, pk)
  {
  }

  lemma CreatedOnly(s: Ledger, account: AccountId, rows: seq<Row>)
    requires UniqueIds(s.txns) && ValidRefs(s) && Unattributed(s, rows)
    ensures OnlyGroup(s, CreateGroup(s, account, rows), |s.groups| + 1)
  {
    CreatedMembers(s, account, rows);
    CreateShape(s, account, rows);
    var s', pk := CreateGroup(s, account, rows), |s.groups| + 1;
    forall q | q != pk
      ensures Untouched(s, s', q)
    {
      OthersLog(s.events, [CreatedEvent(s, account, rows)], pk, q);
      if HasGroup(s, q) {
        assert s'.groups[..|s.groups|][q - 1] == s.groups[q - 1];
      }
    }
  }

  lemma CreatedBalance(s: Ledger, account: AccountId, rows: seq<Row>)
    requires UniqueIds(s.txns) && ValidRefs(s) && Unattributed(s, rows)
    ensures Balance(CreateGroup(s, account, rows), |s.groups| + 1) == 0.0
  {
    var pk := |s.groups| + 1;
    CreatedMembers(s, account, rows);
    CreatedPremium(s, account, rows, pk);
    HoldsSum(CreateGroup(s, account, rows).txns, MemGroup(pk, rows));
  }

  function CreatedEvent(s: Ledger, account: AccountId, rows: seq<Row>): Event {
    var g := FreshGroup(|s.groups| + 1, account, rows);
    Event(|s.groups| + 1, Entry, g.quantity.GetOr(0.0), g.premium, g.executedAt, None)
  }

  lemma CreatedFrozen(s0: Ledger, s: Ledger, s': Ledger, account: AccountId, pk: nat, named: set<nat>)
    requires Frozen(s0, s, account, named) && OnlyGroup(s, s', pk) && |s0.groups| <= |s.groups| && pk == |s.groups| + 1
    ensures Frozen(s0, s', account, named)
  {
    hide EventsOf;
    forall q | HasGroup(s0, q) && !OpenFor(s0, account, q) && q !in named
      ensures Untouched(s0, s', q)
    {
      assert Untouched(s0, s, q) && Untouched(s, s', q);
    }
  }

  lemma CreatedConserved(s0: Ledger, s: Ledger, s': Ledger, pk: nat, named: set<nat>)
    requires Conserved(s0, s, named) && OnlyGroup(s, s', pk) && pk == |s.groups| + 1 == |s'.groups|
    requires Balance(s', pk) == 0.0
    ensures Conserved(s0, s', named)
  {
    hide EventsOf, Balance;
    forall q | HasGroup(s', q) && q !in named
      ensures Balance(s', q) == if HasGroup(s0, q) then Balance(s0, q) else 0.0
    {
      if q != pk {
        assert HasGroup(s, q) && Untouched(s, s', q);
        UntouchedBalance(s, s', q);
      }
    }
  }

  lemma CreatedSound(s0: Ledger, s: Ledger, s': Ledger, account: AccountId, rows: seq<Row>, named: set<nat>)
    requires SoundKept(s0, s, named) && OnlyGroup(s, s', |s.groups| + 1)
    requires s' == CreateGroup(s, account, rows)
    ensures SoundKept(s0, s', named)
  {
    hide EventsOf, FullyClosed;
    forall q | HasGroup(s', q) && q !in named && (HasGroup(s0, q) ==> Sound(s0, q))
      ensures Sound(s', q)
    {
      if q != |s.groups| + 1 {
        assert HasGroup(s, q) && Untouched(s, s', q) && Sound(s, q);
      }
    }
  }

  lemma CreatedRefs(s: Ledger, account: AccountId, rows: seq<Row>)
    requires ValidRefs(s)
    ensures ValidRefs(CreateGroup(s, account, rows))
  {
    WrittenRefs(s, CreateGroup(s, account, rows), Ids(rows), |s.groups| + 1, [CreatedEvent(s, account, rows)]);
  }

  lemma CreatedOpen(s: Ledger, s': Ledger, account: AccountId, open: seq<MemGroup>, g: MemGroup, named: set<nat>)
    requires OpenOK(s, account, open, named) && OnlyGroup(s, s', g.pk) && g.pk == |s.groups| + 1
    requires OpenFor(s', account, g.pk) && Holds(s'.txns, g)
    ensures OpenOK(s', account, open + [g], named)
  {
    hide EventsOf;
    forall k | 0 <= k < |open|
      ensures HasGroup(s', open[k].pk) && (OpenFor(s', account, open[k].pk) || open[k].pk in named)
      ensures Holds(s'.txns, open[k]) && open[k].pk != g.pk
    {
      assert HasGroup(s, open[k].pk) && Untouched(s, s', open[k].pk);
    }
  }

  // ------------------------------------------------------------------------ composition

  lemma StillUnattributed(a: Ledger, b: Ledger, x: set<TxnId>, rows: seq<Row>)
    requires Attributed(a, b, x) && Unattributed(a, rows) && x !! Ids(rows)
    ensures Unattributed(b, rows)
  {
    forall r | r in rows
      ensures exists i :: 0 <= i < |b.txns| && b.txns[i].row == r
    {
      var i :| 0 <= i < |a.txns| && a.txns[i].row == r;
      assert b.txns[i].row == r;
    }
  }

  lemma UnattributedParts(s: Ledger, rows: seq<Row>, a: seq<Row>, b: seq<Row>)
    requires Unattributed(s, rows) && multiset(a) + multiset(b) == multiset(rows)
    ensures Unattributed(s, a) && Unattributed(s, b) && Ids(a) !! Ids(b) && Ids(a) + Ids(b) == Ids(rows)
  {
    assert multiset(a + b) == multiset(rows);
    DistinctKeysOfMultiset(rows, a + b, IdOf);
    forall r
      ensures r in rows <==> r in a || r in b
    {
      assert r in rows <==> r in multiset(rows);
      assert r in a + b <==> r in multiset(a + b);
    }
    SplitDistinct(a, b);
  }

  lemma SplitDistinct(a: seq<Row>, b: seq<Row>)
    requires DistinctKeys(a + b, IdOf)
    ensures DistinctIds(a) && DistinctIds(b) && Ids(a) !! Ids(b)
  {
    forall i, j | 0 <= i < j < |a|
      ensures a[i].id != a[j].id
    {
      assert IdOf((a + b)[i]) != IdOf((a + b)[j]);
    }
    forall i, j | 0 <= i < j < |b|
      ensures b[i].id != b[j].id
    {
      assert IdOf((a + b)[|a| + i]) != IdOf((a + b)[|a| + j]);
    }
    forall x, y | x in a && y in b
      ensures x.id != y.id
    {
      var i :| 0 <= i < |a| && a[i] == x;
      var j :| 0 <= j < |b| && b[j] == y;
      assert IdOf((a + b)[i]) != IdOf((a + b)[|a| + j]);
    }
  }

  // The groups a bucket list has not reached yet are still held as they were.
  ghost predicate StillHeld(groups: seq<MemGroup>, buckets: seq<Bucket>, open: seq<MemGroup>) {
    forall i :: 0 <= i < |groups| && (forall k :: 0 <= k < |buckets| ==> buckets[k].group != i) ==> groups[i] in open
  }

  lemma ShorterBuckets(buckets: seq<Bucket>, n: nat)
    requires buckets != [] && ValidBuckets(buckets, n)
    ensures ValidBuckets(buckets[..|buckets| - 1], n)
  {
  }

  lemma {:induction false} BucketsStep(s0: Ledger, account: AccountId, st: Pass, groups: seq<MemGroup>, buckets: seq<Bucket>,
                                       rest: seq<Row>, newPk: Option<nat>, secs: Securities, link: Linker,
                                       named: set<nat> := {}, loose: set<nat> := named)
    requires PassInv(s0, account, st, named, loose) && ValidBuckets(buckets, |groups|)
    requires forall i :: 0 <= i < |groups| ==> groups[i] in st.open
    requires forall i, j :: 0 <= i < j < |groups| ==> groups[i].pk != groups[j].pk
    requires Unattributed(st.ledger, BucketRows(buckets))
    ensures BucketsIn(buckets, groups)
    ensures var st' := ApplyBuckets(st, groups, buckets, rest, newPk, secs, link);
            && PassInv(s0, account, st', named, loose)
            && Attributed(st.ledger, st'.ledger, Ids(BucketRows(buckets)))
            && StillHeld(groups, buckets, st'.open)
  {
    hide PassInv, Unattributed, Attributed, ApplyExit, Draws;
    if buckets == [] {
      NothingAttributed(st.ledger);
    } else {
      var front, b := buckets[..|buckets| - 1], buckets[|buckets| - 1];
      BucketRowsSplit(buckets);
      ShorterBuckets(buckets, |groups|);
      UnattributedParts(st.ledger, BucketRows(buckets), BucketRows(front), b.rows);
      BucketsStep(s0, account, st, groups, front, rest, newPk, secs, link, named, loose);
      var before := ApplyBuckets(st, groups, front, rest, newPk, secs, link);
      StillUnattributed(st.ledger, before.ledger, Ids(BucketRows(front)), b.rows);
      assert groups[b.group] in before.open;
      var k :| 0 <= k < |before.open| && before.open[k] == groups[b.group];
      BucketStep(s0, account, before, k, b.rows, TargetIf(link.sameUnderlying(b.rows, rest), newPk),
                 TargetIf(link.delivers(b.rows, rest), newPk), secs, named, loose);
      var after := ApplyBuckets(st, groups, buckets, rest, newPk, secs, link);
      AttributedThen(st.ledger, before.ledger, after.ledger, Ids(BucketRows(front)), Ids(b.rows));
      forall i | 0 <= i < |groups| && (forall j :: 0 <= j < |buckets| ==> buckets[j].group != i)
        ensures groups[i] in after.open
      {
        assert forall j :: 0 <= j < |front| ==> front[j] == buckets[j];
        assert groups[i] in before.open;
        var j :| 0 <= j < |before.open| && before.open[j] == groups[i];
        assert buckets[|buckets| - 1].group != i;
        assert groups[i].pk != groups[b.group].pk;
        assert j != k;
      }
    }
  }
}
