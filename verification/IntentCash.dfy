/** What pre-attributed orders do to the event log's balance: the cash of the opening fills that
    join a group is in its members and in no event, and that is all a pass moves. */
module IntentCash {
  import opened Rows
  import opened Ordering
  import opened GroupNet
  import opened Routing
  import opened Books
  import opened Exits
  import opened Membership
  import opened Reconcile
  import opened Attribution
  import opened PassProofs
  import opened RunProofs
  import opened IntentProofs
  import opened PassTheorems

  // Cash of the rows that open.
  function OpeningCash(rows: seq<Row>): real {
    SumNet(Filter(rows, IsOpeningRow()))
  }

  // Cash of the opening rows whose orders name a group.
  function NamedCash(txns: seq<Txn>, q: nat): real {
    OpeningCash(RowsOf(Filter(txns, Naming(q))))
  }

  // ------------------------------------------------------------------------- one intent

  lemma JoinCash(s: Ledger, g: MemGroup, rows: seq<Row>)
    requires UniqueIds(s.txns) && HasGroup(s, g.pk) && Holds(s.txns, g) && Unattributed(s, rows)
    ensures var (s', g') := JoinOpenings(s, g, rows);
            && Balance(s', g.pk) == Balance(s, g.pk) - SumNet(rows)
            && Holds(s'.txns, g') && g'.pk == g.pk && UniqueIds(s'.txns) && HasGroup(s', g.pk) && OnlyGroup(s, s', g.pk)
            && Attributed(s, s', Ids(rows))
  {
    hide JoinOpenings, OnlyGroup, ExitReady, Unattributed, Attributed, Members, Holds;
    HeldGroupReady(s, g, rows);
    JoinShape(s, g, rows);
    JoinOnly(s, g, rows);
    ExitHolds(s, g, rows);
    AttachKeepsUnique(s.txns, Ids(rows), g.pk);
    AttachAttributes(s, JoinOpenings(s, g, rows).0, rows, g.pk);
    UnattributedIsFresh(s, g, rows);
    SumNetConcat(g.rows, rows);
    HoldsSum(s.txns, g);
    HoldsSum(AttachAll(s.txns, Ids(rows), g.pk), ExtendUnique(g, rows));
  }

  // What an order's rows do to a group that is there, and to the others.
  ghost predicate CashMoved(s: Ledger, s': Ledger, pk: nat, x: real) {
    Balance(s', pk) == Balance(s, pk) - x && forall q: nat :: q != pk ==> Balance(s', q) == Balance(s, q)
  }

  lemma OnlyMoves(s: Ledger, s': Ledger, pk: nat, x: real)
    requires OnlyGroup(s, s', pk) && Balance(s', pk) == Balance(s, pk) - x
    ensures CashMoved(s, s', pk, x)
  {
    hide Untouched, Balance;
    forall q: nat | q != pk
      ensures Balance(s', q) == Balance(s, q)
    {
      UntouchedBalance(s, s', q);
    }
  }

  lemma HeldCash(s: Ledger, g: MemGroup, rows: seq<Row>, secs: Securities)
    requires UniqueIds(s.txns) && HasGroup(s, g.pk) && Holds(s.txns, g) && Unattributed(s, rows)
    ensures var opening, closing := Filter(rows, IsOpeningRow()), Filter(rows, IsClosingRow());
            var (joined, g') := JoinOpenings(s, g, opening);
            CashMoved(s, if closing == [] then joined else ApplyExit(joined, g', closing, None, None, secs).ledger, g.pk, OpeningCash(rows))
  {
    hide JoinOpenings, OnlyGroup, ExitReady, Unattributed, Attributed, Members, Holds, ApplyExit, Balance, Leaves, UniqueIds, CashMoved;
    var opening, closing := Filter(rows, IsOpeningRow()), Filter(rows, IsClosingRow());
    OpeningsAndClosings(rows);
    UnattributedParts(s, rows, opening, closing);
    JoinCash(s, g, opening);
    var (joined, g') := JoinOpenings(s, g, opening);
    OnlyMoves(s, joined, g.pk, OpeningCash(rows));
    if closing != [] {
      StillUnattributed(s, joined, Ids(opening), closing);
      ClosingsLeave(rows);
      HeldGroupReady(joined, g', closing);
      var after := ApplyExit(joined, g', closing, None, None, secs).ledger;
      BucketBalance(joined, g', closing, None, None, secs);
      ExitOnly(joined, g', closing, None, None, secs);
      OnlyMoves(joined, after, g.pk, 0.0);
      MovedThen(s, joined, after, g.pk, OpeningCash(rows));
    }
  }

  lemma MovedThen(a: Ledger, b: Ledger, c: Ledger, pk: nat, x: real)
    requires CashMoved(a, b, pk, x) && CashMoved(b, c, pk, 0.0)
    ensures CashMoved(a, c, pk, x)
  {
    hide Balance;
  }

  /** An order's rows move exactly the cash of its opening rows, in its own group. */
  lemma IntentMoves(s0: Ledger, account: AccountId, st: Pass, b: Bucket, secs: Securities, named: set<nat>, q: nat)
    requires PassInv(s0, account, st, named) && b.group in named && Unattributed(st.ledger, b.rows) && HasGroup(st.ledger, q)
    ensures Balance(ApplyIntent(st, b, secs).0.ledger, q)
         == Balance(st.ledger, q) - (if b.group == q then OpeningCash(b.rows) else 0.0)
  {
    hide PassInv, WithGroup, JoinOpenings, ApplyExit, Settle, ReplaceGroup, Unattributed, Balance, OpeningCash;
    var held := WithGroup(st, b.group);
    LoadKeeps(s0, account, st, b.group, named);
    FindLoaded(st, b.group);
    var i := FindGroup(held.open, b.group);
    if i.Some? {
      HeldIs(s0, account, held, i.value, named);
      HeldCash(held.ledger, held.open[i.value], b.rows, secs);
    }
  }

  lemma HeldIs(s0: Ledger, account: AccountId, st: Pass, k: nat, named: set<nat>)
    requires PassInv(s0, account, st, named) && k < |st.open|
    ensures UniqueIds(st.ledger.txns) && HasGroup(st.ledger, st.open[k].pk) && Holds(st.ledger.txns, st.open[k])
  {
  }

  // ----------------------------------------------------------------- a cluster, a pass

  lemma RowsForStep(buckets: seq<Bucket>, q: nat)
    requires buckets != [] && OneBucketEach(buckets)
    ensures var front, b := buckets[..|buckets| - 1], buckets[|buckets| - 1];
            && OneBucketEach(front)
            && RowsFor(buckets, q) == (if b.group == q then b.rows else RowsFor(front, q))
            && (b.group == q ==> RowsFor(front, q) == [])
  {
  }

  lemma {:induction false} IntentsMove(s0: Ledger, account: AccountId, st: Pass, intents: seq<Bucket>, secs: Securities, named: set<nat>,
                                       q: nat)
    requires PassInv(s0, account, st, named) && Unattributed(st.ledger, BucketRows(intents)) && OneBucketEach(intents)
    requires (forall k :: 0 <= k < |intents| ==> intents[k].group in named) && HasGroup(st.ledger, q)
    ensures Balance(ApplyIntents(st, intents, secs).0.ledger, q) == Balance(st.ledger, q) - OpeningCash(RowsFor(intents, q))
  {
    hide PassInv, Unattributed, Attributed, ApplyIntent, BucketRows, Taken, Balance, OneBucketEach, RowsFor;
    NothingFor(q);
    if intents != [] {
      var front, b := intents[..|intents| - 1], intents[|intents| - 1];
      BucketRowsSplit(intents);
      RowsForStep(intents, q);
      UnattributedParts(st.ledger, BucketRows(intents), BucketRows(front), b.rows);
      IntentsMove(s0, account, st, front, secs, named, q);
      IntentsKeep(s0, account, st, front, secs, named);
      IntentsAttribute(st, front, secs);
      var (before, back) := ApplyIntents(st, front, secs);
      TakenAmong(BucketRows(front), Taken(st, front, secs), back);
      StillUnattributed(st.ledger, before.ledger, Ids(Taken(st, front, secs)), b.rows);
      IntentMoves(s0, account, before, b, secs, named, q);
    }
  }

  lemma NothingFor(q: nat)
    ensures RowsFor([], q) == [] && OpeningCash([]) == 0.0
  {
  }

  // The routed rows of a cluster move no balance.
  lemma RoutingMovesNothing(s0: Ledger, account: AccountId, st: Pass, rows: seq<Row>, secs: Securities, link: Linker, named: set<nat>,
                            q: nat)
    requires PassInv(s0, account, st, named) && Unattributed(st.ledger, rows) && HasGroup(st.ledger, q)
    ensures Balance(RouteRows(st, account, rows, secs, link).ledger, q) == Balance(st.ledger, q)
  {
    hide RouteRows, Balance, Unattributed;
    Restarted(s0, account, st, named);
    RouteRowsStep(st.ledger, account, st, rows, secs, link, named, {});
    RoutedConserved(st.ledger, account, RouteRows(st, account, rows, secs, link), named, q);
  }

  lemma RoutedConserved(s0: Ledger, account: AccountId, st: Pass, named: set<nat>, q: nat)
    requires PassInv(s0, account, st, named, {}) && HasGroup(s0, q)
    ensures HasGroup(st.ledger, q) && Balance(st.ledger, q) == Balance(s0, q)
  {
    hide Balance, Frozen, SoundKept, OpenOK;
  }

  // The invariant, measured from here.
  lemma Restarted(s0: Ledger, account: AccountId, st: Pass, named: set<nat>)
    requires PassInv(s0, account, st, named)
    ensures PassInv(st.ledger, account, st, named, {})
  {
    hide Balance, Sound, EventsOf, Members, OpenOK;
  }

  lemma ClusterMoves(s0: Ledger, account: AccountId, st: Pass, cluster: seq<Txn>, secs: Securities, link: Linker, named: set<nat>, q: nat)
    requires PassInv(s0, account, st, named) && Unattributed(st.ledger, RowsOf(cluster)) && AllNamed(cluster, named)
    requires HasGroup(st.ledger, q)
    ensures Balance(ClusterStep(st, account, cluster, secs, link).ledger, q) == Balance(st.ledger, q) - NamedCash(cluster, q)
  {
    hide PassInv, Unattributed, ApplyIntents, RouteRows, AllNamed, Intents, BucketRows, Balance, OpeningCash, Taken, Attributed;
    var intents := Intents(cluster);
    IntentsPartition(cluster);
    IntentsNamed(cluster, named);
    UnattributedParts(st.ledger, RowsOf(cluster), BucketRows(intents), RowsOf(Filter(cluster, NoIntent())));
    IntentsMove(s0, account, st, intents, secs, named, q);
    IntentsAttribute(st, intents, secs);
    IntentsThenRouting(s0, account, st, cluster, secs, named);
    var (after, back) := ApplyIntents(st, intents, secs);
    RoutingMovesNothing(s0, account, after, RowsOf(Filter(cluster, NoIntent())) + back, secs, link, named, q);
  }

  lemma NamedCashConcat(a: seq<Txn>, b: seq<Txn>, q: nat)
    ensures NamedCash(a + b, q) == NamedCash(a, q) + NamedCash(b, q)
  {
    hide SumNet, Filter, RowsOf;
    FilterConcat(a, b, Naming(q));
    RowsOfConcat(Filter(a, Naming(q)), Filter(b, Naming(q)));
    FilterConcat(RowsOf(Filter(a, Naming(q))), RowsOf(Filter(b, Naming(q))), IsOpeningRow());
    SumNetConcat(Filter(RowsOf(Filter(a, Naming(q))), IsOpeningRow()), Filter(RowsOf(Filter(b, Naming(q))), IsOpeningRow()));
  }

  lemma {:induction false} ClustersMove(s0: Ledger, account: AccountId, st: Pass, clusters: seq<seq<Txn>>, secs: Securities, link: Linker,
                                        named: set<nat>, q: nat)
    requires PassInv(s0, account, st, named) && HasGroup(st.ledger, q)
    requires Unattributed(st.ledger, RowsOf(Flatten(clusters))) && AllNamed(Flatten(clusters), named)
    ensures Balance(ClusterSteps(st, account, clusters, secs, link).ledger, q)
         == Balance(st.ledger, q) - NamedCash(Flatten(clusters), q)
  {
    hide PassInv, Unattributed, Attributed, ClusterStep, RowsOf, Balance, NamedCash;
    NothingNamed(q);
    if clusters != [] {
      var front, last := clusters[..|clusters| - 1], clusters[|clusters| - 1];
      assert Flatten(clusters) == Flatten(front) + last;
      RowsOfConcat(Flatten(front), last);
      NamedCashConcat(Flatten(front), last, q);
      UnattributedParts(st.ledger, RowsOf(Flatten(clusters)), RowsOf(Flatten(front)), RowsOf(last));
      ClustersMove(s0, account, st, front, secs, link, named, q);
      ClusterStepsKeep(s0, account, st, front, secs, link, named);
      ClustersAttribute(st, account, front, secs, link);
      var before := ClusterSteps(st, account, front, secs, link);
      StillUnattributed(st.ledger, before.ledger, Ids(RowsOf(Flatten(front))), RowsOf(last));
      ClusterMoves(s0, account, before, last, secs, link, named, q);
    }
  }

  lemma NothingNamed(q: nat)
    ensures NamedCash([], q) == 0.0
  {
  }

  lemma {:induction false} RowsOfMultiset(a: seq<Txn>, b: seq<Txn>)
    requires multiset(a) == multiset(b)
    ensures multiset(RowsOf(a)) == multiset(RowsOf(b))
  {
    if a == [] {
      assert |b| == |multiset(b)| == 0;
    } else {
      var j := FindLast(a, b);
      RowsOfMultiset(a[..|a| - 1], b[..j] + b[j + 1..]);
      RowsOfConcat(b[..j], b[j + 1..]);
      RowsOfConcat(b[..j] + [b[j]], b[j + 1..]);
      RowsOfSnoc(b[..j], b[j]);
      RowsOfSnoc(a[..|a| - 1], a[|a| - 1]);
      assert a == a[..|a| - 1] + [a[|a| - 1]] && b == b[..j] + [b[j]] + b[j + 1..];
    }
  }

  lemma NamedCashMultiset(a: seq<Txn>, b: seq<Txn>, q: nat)
    requires multiset(a) == multiset(b)
    ensures NamedCash(a, q) == NamedCash(b, q)
  {
    hide SumNet, Filter, RowsOf;
    FilterMultiset(a, b, Naming(q));
    RowsOfMultiset(Filter(a, Naming(q)), Filter(b, Naming(q)));
    FilterMultiset(RowsOf(Filter(a, Naming(q))), RowsOf(Filter(b, Naming(q))), IsOpeningRow());
    SumNetMultiset(Filter(RowsOf(Filter(a, Naming(q))), IsOpeningRow()), Filter(RowsOf(Filter(b, Naming(q))), IsOpeningRow()));
  }

  /** For every group there was, named by an order or not, a pass lowers the balance of its
      events against its members by exactly the cash of the candidates that opened into it by
      order; closing fills, routed or by order, are in its events to the cent. */
  lemma PassBalances(s: Ledger, account: AccountId, since: Option<nat>, secs: Securities, link: Linker, q: nat)
    requires WellKept(s) && HasGroup(s, q)
    ensures var s' := Pass1(s, account, since, secs, link);
            HasGroup(s', q) && Balance(s', q) == Balance(s, q) - NamedCash(Candidates(s, account, since), q)
  {
    hide PassInv, Unattributed, ClusterSteps, ClustersOf, LoadOpenUpTo, AllNamed, Candidates, Named, Balance, HealAll, NamedCash, EventsOf,
         Pass1, Sound, Attributed;
    var named, candidates := Named(s, account, since), Candidates(s, account, since);
    var clusters := ClustersOf(candidates);
    SameBooks(s, account, named);
    CandidatesUnattributed(s, account, since);
    CandidatesNamed(s, account, since, named);
    ClustersMove(s, account, Pass(s, LoadOpen(s, account)), clusters, secs, link, named, q);
    ClustersPartition(candidates);
    NamedCashMultiset(Flatten(clusters), candidates, q);
    ClusterPhase(s, account, since, secs, link, named);
    PassShape(s, account, since, secs, link);
    PassAttributes(s, account, since, secs, link);
    var st := Clustered(s, account, since, secs, link);
    StInOrder(s, account, st, named);
    HealSteps(st.ledger, account, |st.ledger.groups|, secs);
  }

  lemma StInOrder(s0: Ledger, account: AccountId, st: Pass, named: set<nat>)
    requires PassInv(s0, account, st, named)
    ensures UniqueIds(st.ledger.txns) && ValidRefs(st.ledger) && |s0.groups| <= |st.ledger.groups|
  {
    hide Balance, Sound, EventsOf, Members, OpenOK;
  }
}
