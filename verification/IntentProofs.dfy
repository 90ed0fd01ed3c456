/** Pre-attributed orders: their rows join the group the order names, open or finished. What a
    pass keeps, it keeps for every group no order names. */
module IntentProofs {
  import opened Rows
  import opened Ordering
  import opened GroupNet
  import opened Routing
  import opened Books
  import opened Exits
  import opened Membership
  import opened Reconcile
  import opened Attribution
  import opened PassProofs
  import opened RunProofs

  // ------------------------------------------------------------------------ one intent

  lemma LoadKeeps(s0: Ledger, account: AccountId, st: Pass, pk: nat, named: set<nat>)
    requires PassInv(s0, account, st, named) && pk in named
    ensures PassInv(s0, account, WithGroup(st, pk), named)
  {
    hide Holds, LoadRows, Frozen, Conserved, SoundKept, ValidRefs;
    if FindGroup(st.open, pk).None? && HasGroup(st.ledger, pk) {
      LoadHolds(st.ledger, pk);
      forall q: nat | OpenFor(st.ledger, account, q)
        ensures Lists(WithGroup(st, pk).open, q)
      {
        assert Lists(st.open, q);
        var k :| 0 <= k < |st.open| && st.open[k].pk == q;
        assert WithGroup(st, pk).open[k].pk == q;
      }
    }
  }

  lemma JoinShape(s: Ledger, g: MemGroup, rows: seq<Row>)
    requires HasGroup(s, g.pk)
    ensures var (s', g') := JoinOpenings(s, g, rows);
            && g' == ExtendUnique(g, rows) && s'.events == s.events
            && s'.txns == AttachAll(s.txns, Ids(rows), g.pk) && |s'.groups| == |s.groups|
            && GroupAt(s', g.pk).account == GroupAt(s, g.pk).account
            && GroupAt(s', g.pk).status == GroupAt(s, g.pk).status
            && (forall q :: HasGroup(s, q) && q != g.pk ==> GroupAt(s', q) == GroupAt(s, q))
  {
    hide FreshGroup;
    JoinTxns(s, g, rows);
    if rows == [] {
      assert g.rows + [] == g.rows;
    }
  }

  lemma JoinOnly(s: Ledger, g: MemGroup, rows: seq<Row>)
    requires ExitReady(s, g, rows)
    ensures OnlyGroup(s, JoinOpenings(s, g, rows).0, g.pk)
  {
    hide JoinOpenings;
    JoinShape(s, g, rows);
    var s' := JoinOpenings(s, g, rows).0;
    forall q | q != g.pk
      ensures Untouched(s, s', q)
    {
      AttachLeavesOthers(s.txns, Ids(rows), g.pk, q);
    }
  }

  lemma JoinHoldsAll(s: Ledger, s': Ledger, account: AccountId, open: seq<MemGroup>, g: MemGroup)
    requires HoldsAllOpen(s, account, open) && |s'.groups| == |s.groups|
    requires forall q: nat :: HasGroup(s, q) ==> GroupAt(s', q).account == GroupAt(s, q).account && GroupAt(s', q).status == GroupAt(s, q).status
    ensures HoldsAllOpen(s', account, ReplaceGroup(open, g))
  {
    hide Lists, ReplaceGroup;
    forall q: nat | OpenFor(s', account, q)
      ensures Lists(ReplaceGroup(open, g), q)
    {
      assert OpenFor(s, account, q);
      ReplacedLists(open, g, q);
    }
  }

  // Opening fills join a group an order names.
  lemma JoinKeeps(s0: Ledger, account: AccountId, st: Pass, k: nat, rows: seq<Row>, named: set<nat>)
    requires PassInv(s0, account, st, named) && k < |st.open| && st.open[k].pk in named && Unattributed(st.ledger, rows)
    ensures var (s', g) := JoinOpenings(st.ledger, st.open[k], rows);
            && PassInv(s0, account, Pass(s', ReplaceGroup(st.open, g)), named)
            && |ReplaceGroup(st.open, g)| == |st.open| && ReplaceGroup(st.open, g)[k] == g && g.pk == st.open[k].pk
  {
    hide JoinOpenings, Sound, Balance, Frozen, Conserved, SoundKept, EventsOf, OnlyGroup, ExitReady, ReplaceGroup, Lists;
    var g, s := st.open[k], st.ledger;
    assert HasGroup(s, g.pk) && Holds(s.txns, g);
    HeldGroupReady(s, g, rows);
    JoinShape(s, g, rows);
    ExitHolds(s, g, rows);
    AttachKeepsUnique(s.txns, Ids(rows), g.pk);
    JoinOnly(s, g, rows);
    var (s', g') := JoinOpenings(s, g, rows);
    InvStep(s0, account, st, s', g.pk, named, named);
    assert s.events + [] == s'.events;
    WrittenRefs(s, s', Ids(rows), g.pk, []);
    ReplacedOpen(s, s', account, st.open, g', k, named);
    JoinHoldsAll(s, s', account, st.open, g');
  }

  lemma ClosingsLeave(rows: seq<Row>)
    ensures AllLeave(Filter(rows, IsClosingRow()))
  {
    var closing := Filter(rows, IsClosingRow());
    forall i | 0 <= i < |closing|
      ensures Leaves(closing[i])
    {
      FilterMember(rows, closing[i], IsClosingRow());
    }
  }

  // One order's group: openings join without an event, closings exit.
  lemma IntentKeeps(s0: Ledger, account: AccountId, st: Pass, b: Bucket, secs: Securities, named: set<nat>)
    requires PassInv(s0, account, st, named) && b.group in named && Unattributed(st.ledger, b.rows)
    ensures PassInv(s0, account, ApplyIntent(st, b, secs).0, named)
  {
    hide PassInv, WithGroup, JoinOpenings, ApplyExit, Settle, ReplaceGroup, Unattributed, Leaves, Attributed;
    var held := WithGroup(st, b.group);
    LoadKeeps(s0, account, st, b.group, named);
    FindLoaded(st, b.group);
    var i := FindGroup(held.open, b.group);
    if i.Some? {
      var k, opening, closing := i.value, Filter(b.rows, IsOpeningRow()), Filter(b.rows, IsClosingRow());
      OpeningsAndClosings(b.rows);
      UnattributedParts(st.ledger, b.rows, opening, closing);
      JoinKeeps(s0, account, held, k, opening, named);
      var (joined, g) := JoinOpenings(held.ledger, held.open[k], opening);
      JoinTxns(held.ledger, held.open[k], opening);
      AttachAttributes(held.ledger, joined, opening, b.group);
      StillUnattributed(held.ledger, joined, Ids(opening), closing);
      ClosingsLeave(b.rows);
      if closing != [] {
        ExitKeepsInv(s0, account, Pass(joined, ReplaceGroup(held.open, g)), k, closing, None, None, secs, named, named);
      }
    }
  }

  // --------------------------------------------------------------- a cluster's intents

  ghost predicate AllNamed(cluster: seq<Txn>, named: set<nat>) {
    forall t :: t in cluster && t.orderGroup.Some? ==> t.orderGroup.value in named
  }

  lemma IntentsNamed(cluster: seq<Txn>, named: set<nat>)
    requires AllNamed(cluster, named)
    ensures forall k :: 0 <= k < |Intents(cluster)| ==> Intents(cluster)[k].group in named
  {
    hide Intents, RowsFor;
    IntentsPartition(cluster);
    var intents := Intents(cluster);
    forall k | 0 <= k < |intents|
      ensures intents[k].group in named
    {
      var q := intents[k].group;
      BucketRowsFor(intents, k);
      var t := Filter(cluster, Naming(q))[0];
      FilterMember(cluster, t, Naming(q));
    }
  }

  lemma TakenAmong(rows: seq<Row>, taken: seq<Row>, back: seq<Row>)
    requires multiset(taken) + multiset(back) == multiset(rows)
    ensures Ids(taken) <= Ids(rows)
  {
    IdsOfMultiset(rows, taken, back);
  }

  lemma {:induction false} IntentsKeep(s0: Ledger, account: AccountId, st: Pass, intents: seq<Bucket>, secs: Securities, named: set<nat>)
    requires PassInv(s0, account, st, named) && Unattributed(st.ledger, BucketRows(intents))
    requires forall k :: 0 <= k < |intents| ==> intents[k].group in named
    ensures PassInv(s0, account, ApplyIntents(st, intents, secs).0, named)
  {
    hide PassInv, Unattributed, Attributed, ApplyIntent, BucketRows, Taken;
    if intents != [] {
      var front, b := intents[..|intents| - 1], intents[|intents| - 1];
      BucketRowsSplit(intents);
      UnattributedParts(st.ledger, BucketRows(intents), BucketRows(front), b.rows);
      IntentsKeep(s0, account, st, front, secs, named);
      IntentsAttribute(st, front, secs);
      var (before, back) := ApplyIntents(st, front, secs);
      TakenAmong(BucketRows(front), Taken(st, front, secs), back);
      StillUnattributed(st.ledger, before.ledger, Ids(Taken(st, front, secs)), b.rows);
      IntentKeeps(s0, account, before, b, secs, named);
    }
  }

  // After the intents, the rows left for routing are still nobody's.
  lemma IntentsThenRouting(s0: Ledger, account: AccountId, st: Pass, cluster: seq<Txn>, secs: Securities, named: set<nat>)
    requires PassInv(s0, account, st, named) && Unattributed(st.ledger, RowsOf(cluster)) && AllNamed(cluster, named)
    ensures var (after, back) := ApplyIntents(st, Intents(cluster), secs);
            PassInv(s0, account, after, named) && Unattributed(after.ledger, RowsOf(Filter(cluster, NoIntent())) + back)
  {
    hide PassInv, Unattributed, Attributed, ApplyIntents, Taken, Intents, BucketRows;
    var intents := Intents(cluster);
    var (after, back) := ApplyIntents(st, intents, secs);
    var routed := RowsOf(Filter(cluster, NoIntent())) + back;
    IntentsPartition(cluster);
    IntentsNamed(cluster, named);
    UnattributedParts(st.ledger, RowsOf(cluster), BucketRows(intents), RowsOf(Filter(cluster, NoIntent())));
    IntentsKeep(s0, account, st, intents, secs, named);
    IntentsAttribute(st, intents, secs);
    ClusterRows(st, cluster, secs);
    UnattributedParts(st.ledger, RowsOf(cluster), Taken(st, intents, secs), routed);
    StillUnattributed(st.ledger, after.ledger, Ids(Taken(st, intents, secs)), routed);
  }
}
