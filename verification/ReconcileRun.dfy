/** A whole run over one account, step by step over the store, proved equal to its specification
    and so bound by every theorem about it. */
module ReconcileRun {
  import opened Rows
  import opened Ordering
  import opened GroupNet
  import opened Routing
  import opened Books
  import opened Exits
  import opened Reconcile
  import opened Attribution
  import opened Lapse
  import opened LapseProofs
  import opened PassTheorems
  import opened Runs
  import opened Tables
  import opened Upserts
  import opened Store
  import opened Reconciler

  // ------------------------------------------------------------------------------- reads

  method AccountRows(store: InMemoryStore, account: AccountId) returns (rows: seq<Row>)
    requires store.Valid()
    ensures rows == AccountActivity(store.Value().txns, account)
  {
    rows := [];
    ghost var txns := store.Value().txns;
    for i := 0 to |store.transactions.Contents()|
      invariant rows == AccountActivity(txns[..i], account)
    {
      assert txns[..i + 1][..i] == txns[..i];
      var t := store.transactions.Contents()[i];
      if t.row.account == account {
        rows := rows + [t.row];
      }
    }
    assert txns[..|txns|] == txns;
  }

  method CandidateTxns(store: InMemoryStore, account: AccountId, since: Option<nat>) returns (candidates: seq<Txn>)
    requires store.Valid()
    ensures candidates == Candidates(store.Value(), account, since)
  {
    hide IsCandidate;
    candidates := [];
    ghost var txns := store.Value().txns;
    for i := 0 to |store.transactions.Contents()|
      invariant candidates == Filter(txns[..i], CandidateOf(account, since))
    {
      assert txns[..i + 1][..i] == txns[..i];
      var t := store.transactions.Contents()[i];
      if IsCandidate(t, account, since) {
        candidates := candidates + [t];
      }
    }
    assert txns[..|txns|] == txns;
  }

  // -------------------------------------------------------------------- lapse settlements

  /** One security's settlements, one per open group that still holds it. */
  method SettleSecurity(groups: seq<OpenGroup>, account: AccountId, s: SecurityId, points: real, m: Market) returns (rows: seq<Row>)
    requires s in m.secs && m.secs[s].expiry.Some?
    ensures rows == LapsesIn(Views(groups), account, s, points, m)
  {
    hide NetQuantities, LapseRow;
    rows := [];
    ghost var views := Views(groups);
    for i := 0 to |groups|
      invariant rows == LapsesIn(views[..i], account, s, points, m)
    {
      assert views[..i + 1][..i] == views[..i];
      var net := NetIn(groups[i].View(), s);
      assert net == NetIn(views[i], s);
      if net != 0.0 {
        rows := rows + [LapseRow(account, groups[i].pk, s, net, points, m)];
      }
    }
    assert views[..|groups|] == views;
  }

  /** Recreates the settlement rows the broker never sent and applies them to their groups. */
  method SynthesizeLapsedSettlements(store: InMemoryStore, account: AccountId, m: Market, link: Linker)
    returns (synthesized: seq<Row>)
    requires store.Valid()
    modifies store.Repr()
    ensures store.Valid() && synthesized == Lapses(old(store.Value()), account, m)
    ensures store.Value() == Synthesize(old(store.Value()), account, m, link)
  {
    hide Table.Contents, Table.Valid, InMemoryStore.Value, InMemoryStore.Valid, LoadOpen, LapsesOver, LapseBuckets,
      AccountActivity, HeldBy, ApplyBuckets, IsDue, SettlePoints;
    ghost var s := store.Value();
    var activity := AccountRows(store, account);
    var last := LatestAt(activity);
    var groups := LoadOpenGroups(store, account);
    var views := Views(groups);
    synthesized := [];
    if last.Some? {
      synthesized := SettleDue(groups, account, Ascending(HeldBy(views)), last.value, m);
    }
    assert synthesized == Lapses(s, account, m);
    AllLapses(s, account, m);
    LapseBucketsOwn(views, synthesized);
    var buckets := LapseBuckets(views, synthesized);
    LoadOpenIsOpenList(s, account, groups);
    store.UpsertTransactions(LapseTxns(synthesized, true));
    var _ := ApplyRouted(store, groups, groups, buckets, [], None, m.secs, link);
  }

  method SettleDue(groups: seq<OpenGroup>, account: AccountId, held: seq<SecurityId>, last: Time, m: Market)
    returns (synthesized: seq<Row>)
    ensures synthesized == LapsesOver(Views(groups), account, held, last, m)
  {
    hide LapsesIn, SettlePoints;
    synthesized := [];
    for i := 0 to |held|
      invariant synthesized == LapsesOver(Views(groups), account, held[..i], last, m)
    {
      assert held[..i + 1][..i] == held[..i];
      var s := held[i];
      if !IsDue(m, last, s) {
        continue;
      }
      var points := SettlePoints(m.secs[s], m.settlement(s));
      if points.None? {
        continue;
      }
      var rows := SettleSecurity(groups, account, s, points.value, m);
      synthesized := synthesized + rows;
    }
    assert held[..|held|] == held;
  }

  lemma {:induction false} LoadOpenIncreasing(s: Ledger, account: AccountId, n: nat)
    requires n <= |s.groups|
    ensures forall i :: 0 <= i < |LoadOpenUpTo(s, account, n)| ==> 1 <= LoadOpenUpTo(s, account, n)[i].pk <= n
    ensures forall i, j :: 0 <= i < j < |LoadOpenUpTo(s, account, n)| ==>
              LoadOpenUpTo(s, account, n)[i].pk < LoadOpenUpTo(s, account, n)[j].pk
  {
    hide LoadRows;
    if n != 0 {
      LoadOpenIncreasing(s, account, n - 1);
    }
  }

  lemma LoadOpenIsOpenList(s: Ledger, account: AccountId, groups: seq<OpenGroup>)
    requires Views(groups) == LoadOpen(s, account)
    ensures OpenList(groups, |s.groups|) && Within(groups, groups)
  {
    LoadOpenIncreasing(s, account, |s.groups|);
    var views := Views(groups);
    forall i | 0 <= i < |groups|
      ensures groups[i].pk == views[i].pk
    {
    }
  }

  // ------------------------------------------------------------------------------ the run

  method ReconcileClusters(store: InMemoryStore, account: AccountId, groups: seq<OpenGroup>, clusters: seq<seq<Txn>>,
                           secs: Securities, link: Linker) returns (open: seq<OpenGroup>)
    requires store.Valid() && OpenList(groups, |store.Value().groups|)
    modifies store.Repr(), groups
    ensures store.Valid()
    ensures Pass(store.Value(), Views(open)) == ClusterSteps(old(Pass(store.Value(), Views(groups))), account, clusters, secs, link)
  {
    hide Table.Contents, Table.Valid, InMemoryStore.Value, InMemoryStore.Valid, ClusterStep, OpenList;
    ghost var start := Pass(store.Value(), Views(groups));
    open := groups;
    for k := 0 to |clusters|
      invariant store.Valid() && OpenList(open, |store.Value().groups|)
      invariant forall i :: 0 <= i < |open| ==> open[i] in groups || fresh(open[i])
      invariant Pass(store.Value(), Views(open)) == ClusterSteps(start, account, clusters[..k], secs, link)
    {
      assert clusters[..k + 1][..k] == clusters[..k];
      open := ReconcileCluster(store, account, open, clusters[k], secs, link);
    }
    assert clusters[..|clusters|] == clusters;
  }

  /** One account's run, after the linking of orders: lapses, clusters, exits, self-heal. No open
      group of the account is left fully closed, and books that were in order stay so. */
  method ReconcileAccount(store: InMemoryStore, account: AccountId, since: Option<nat>, m: Market, link: Linker)
    returns (healed: nat)
    requires store.Valid()
    modifies store.Repr()
    ensures store.Valid() && store.Value() == Run(old(store.Value()), account, since, m, link)
    ensures Healed(store.Value(), account)
    ensures RunKept(old(store.Value()), store.Value(), account, since, m)
  {
    hide RunKept, Healed, Table.Contents, Table.Valid, InMemoryStore.Value, InMemoryStore.Valid, LoadOpen, Synthesize,
      Candidates, ClustersOf, ClusterSteps, Heal, OpenList;
    ghost var s0 := store.Value();
    var _ := SynthesizeLapsedSettlements(store, account, m, link);
    ghost var s := store.Value();
    var candidates := CandidateTxns(store, account, since);
    var open := LoadOpenGroups(store, account);
    LoadOpenIsOpenList(s, account, open);
    var clusters := ClusterByTime(candidates);
    var _ := ReconcileClusters(store, account, open, clusters, m.secs, link);
    healed := HealFullyClosedGroups(store, account, m.secs);
    RunKeepsBooks(s0, account, since, m, link);
    PassHeals(s, account, since, m.secs, link);
  }

  // Books that were in order are in order, but for the groups the run reaches or shifts.
  ghost predicate RunKept(s: Ledger, s': Ledger, account: AccountId, since: Option<nat>, m: Market) {
    WellKept(s) && StatusesAgree(s) ==>
      KeptSince(s, s', Reached(s, account, since, m), Reached(s, account, since, m), Shifted(s, account, since, m))
  }

  lemma RunKeepsBooks(s: Ledger, account: AccountId, since: Option<nat>, m: Market, link: Linker)
    ensures RunKept(s, Run(s, account, since, m, link), account, since, m)
  {
    hide WellKept, StatusesAgree, KeptSince, Run, Reached, Shifted;
    if WellKept(s) && StatusesAgree(s) {
      RunKeeps(s, account, since, m, link, {});
      assert {} + Reached(s, account, since, m) == Reached(s, account, since, m);
    }
  }
}
