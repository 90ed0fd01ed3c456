/** Who gets which row. Every candidate of a pass ends in a group, whichever way it is routed:
    to the group its order names, to a group it closes, or to a group of its own. Nothing here
    asks the books to be in order. */
module Attribution {
  import opened Rows
  import opened Ordering
  import opened GroupNet
  import opened Routing
  import opened Books
  import opened Exits
  import opened Membership
  import opened Reconcile

  ghost predicate SameRows(a: seq<Txn>, b: seq<Txn>) {
    |a| == |b| && forall i :: 0 <= i < |a| ==> a[i].row == b[i].row && a[i].orderGroup == b[i].orderGroup
  }

  // Attributions are written once: ids gain a group, everything else keeps what it had.
  ghost predicate Attributed(s: Ledger, s': Ledger, ids: set<TxnId>) {
    && SameRows(s.txns, s'.txns)
    && (forall i :: 0 <= i < |s.txns| && s.txns[i].row.id !in ids ==> s'.txns[i].group == s.txns[i].group)
    && (forall i :: 0 <= i < |s.txns| && s.txns[i].row.id in ids ==> s'.txns[i].group.Some?)
  }

  lemma AttributedThen(a: Ledger, b: Ledger, c: Ledger, x: set<TxnId>, y: set<TxnId>)
    requires Attributed(a, b, x) && Attributed(b, c, y)
    ensures Attributed(a, c, x + y)
  {
  }

  lemma NothingAttributed(s: Ledger)
    ensures Attributed(s, s, {}) && Ids(BucketRows([])) == {}
  {
  }

  lemma AttachAttributes(s: Ledger, s': Ledger, rows: seq<Row>, pk: nat)
    requires s'.txns == AttachAll(s.txns, Ids(rows), pk)
    ensures Attributed(s, s', Ids(rows))
  {
  }

  lemma IdsConcat(a: seq<Row>, b: seq<Row>)
    ensures Ids(a + b) == Ids(a) + Ids(b)
  {
  }

  lemma IdsOfMultiset(rows: seq<Row>, a: seq<Row>, b: seq<Row>)
    requires multiset(a) + multiset(b) == multiset(rows)
    ensures Ids(a) + Ids(b) == Ids(rows)
  {
    forall r
      ensures r in rows <==> r in a || r in b
    {
      assert r in rows <==> r in multiset(rows);
      assert r in multiset(a) + multiset(b) <==> r in multiset(a) || r in multiset(b);
    }
  }

  // ------------------------------------------------------------------ routed activity

  lemma ExitTxns(s: Ledger, g: MemGroup, rows: seq<Row>, rolledTo: Option<nat>, delivery: Option<nat>, secs: Securities)
    ensures var e := ApplyExit(s, g, rows, rolledTo, delivery, secs);
            e.ledger.txns == AttachAll(s.txns, Ids(rows), g.pk) && |e.ledger.groups| == |s.groups|
  {
  }

  lemma BucketRowsSplit(buckets: seq<Bucket>)
    requires buckets != []
    ensures BucketRows(buckets) == BucketRows(buckets[..|buckets| - 1]) + buckets[|buckets| - 1].rows
  {
    assert BucketLists(buckets)[..|buckets| - 1] == BucketLists(buckets[..|buckets| - 1]);
  }

  lemma {:induction false} BucketsAttribute(st: Pass, groups: seq<MemGroup>, buckets: seq<Bucket>, rest: seq<Row>,
                                            newPk: Option<nat>, secs: Securities, link: Linker)
    requires BucketsIn(buckets, groups)
    ensures var after := ApplyBuckets(st, groups, buckets, rest, newPk, secs, link).ledger;
            Attributed(st.ledger, after, Ids(BucketRows(buckets))) && |after.groups| == |st.ledger.groups|
  {
    hide ApplyExit, Attributed, BucketRows;
    NothingAttributed(st.ledger);
    if buckets != [] {
      var front, b := buckets[..|buckets| - 1], buckets[|buckets| - 1];
      BucketsAttribute(st, groups, front, rest, newPk, secs, link);
      BucketRowsSplit(buckets);
      IdsConcat(BucketRows(front), b.rows);
      var before := ApplyBuckets(st, groups, front, rest, newPk, secs, link).ledger;
      var rolled, delivery := TargetIf(link.sameUnderlying(b.rows, rest), newPk), TargetIf(link.delivers(b.rows, rest), newPk);
      var after := ApplyExit(before, groups[b.group], b.rows, rolled, delivery, secs).ledger;
      ExitTxns(before, groups[b.group], b.rows, rolled, delivery, secs);
      AttachAttributes(before, after, b.rows, groups[b.group].pk);
      AttributedThen(st.ledger, before, after, Ids(BucketRows(front)), Ids(b.rows));
    }
  }

  lemma RestAttributes(st: Pass, account: AccountId, rest: seq<Row>)
    ensures var after := OpenRest(st, account, rest).ledger;
            Attributed(st.ledger, after, Ids(rest)) && |after.groups| >= |st.ledger.groups|
  {
    if rest == [] {
      NothingAttributed(st.ledger);
      assert Ids(rest) == {};
    } else {
      AttachAttributes(st.ledger, CreateGroup(st.ledger, account, rest), rest, |st.ledger.groups| + 1);
    }
  }

  lemma RouteAttributes(st: Pass, account: AccountId, rows: seq<Row>, secs: Securities, link: Linker)
    ensures var after := RouteRows(st, account, rows, secs, link).ledger;
            Attributed(st.ledger, after, Ids(rows)) && |after.groups| >= |st.ledger.groups|
  {
    hide Attributed, OpenRest, ApplyBuckets, Route, ValidBuckets, BucketRows;
    if rows == [] {
      NothingAttributed(st.ledger);
      assert Ids(rows) == {};
    } else {
      RoutePartitions(st.open, rows);
      var routed := Route(st.open, rows);
      var newPk := if routed.rest == [] then None else Some(|st.ledger.groups| + 1);
      BucketsInRange(routed.buckets, st.open);
      RestAttributes(st, account, routed.rest);
      var withRest := OpenRest(st, account, routed.rest);
      BucketsAttribute(withRest, st.open, routed.buckets, routed.rest, newPk, secs, link);
      var after := ApplyBuckets(withRest, st.open, routed.buckets, routed.rest, newPk, secs, link);
      AttributedThen(st.ledger, withRest.ledger, after.ledger, Ids(routed.rest), Ids(BucketRows(routed.buckets)));
      IdsOfMultiset(rows, BucketRows(routed.buckets), routed.rest);
      assert Ids(routed.rest) + Ids(BucketRows(routed.buckets)) == Ids(rows);
    }
  }

  lemma BucketsInRange(buckets: seq<Bucket>, groups: seq<MemGroup>)
    requires ValidBuckets(buckets, |groups|)
    ensures BucketsIn(buckets, groups)
  {
  }

  // -------------------------------------------------------------- pre-attributed orders

  function Naming(q: nat): Txn -> bool {
    (t: Txn) => t.orderGroup == Some(q)
  }

  ghost predicate OneBucketEach(buckets: seq<Bucket>) {
    && (forall i :: 0 <= i < |buckets| ==> buckets[i].rows != [])
    && (forall i, j :: 0 <= i < j < |buckets| ==> buckets[i].group != buckets[j].group)
  }

  // The rows of a bucket list that are for one group.
  function RowsFor(buckets: seq<Bucket>, q: nat): seq<Row> {
    var i := BucketOf(buckets, q);
    if i.Some? then buckets[i.value].rows else []
  }

  lemma AddToRowsFor(buckets: seq<Bucket>, g: nat, r: Row, q: nat)
    requires OneBucketEach(buckets)
    ensures OneBucketEach(AddTo(buckets, g, r))
    ensures RowsFor(AddTo(buckets, g, r), q) == if q == g then RowsFor(buckets, q) + [r] else RowsFor(buckets, q)
  {
    hide BucketOf;
    var i, j := BucketOf(buckets, q), BucketOf(AddTo(buckets, g, r), q);
    if i.Some? {
      assert AddTo(buckets, g, r)[i.value].group == q;
    } else if q == g {
      assert AddTo(buckets, g, r)[|buckets|].group == q;
    }
  }

  /** A cluster divides into the rows whose orders name a group, one non-empty bucket for each
      group named, with its rows in cluster order, and the others. */
  lemma {:induction false} IntentsPartition(cluster: seq<Txn>)
    ensures OneBucketEach(Intents(cluster))
    ensures forall q: nat :: RowsFor(Intents(cluster), q) == RowsOf(Filter(cluster, Naming(q)))
    ensures multiset(BucketRows(Intents(cluster))) + multiset(RowsOf(Filter(cluster, NoIntent()))) == multiset(RowsOf(cluster))
  {
    hide RowsFor, AddTo, BucketRows, OneBucketEach;
    if cluster == [] {
      NoIntentBuckets();
    } else {
      var front, t := cluster[..|cluster| - 1], cluster[|cluster| - 1];
      IntentsPartition(front);
      RowsOfSnoc(front, t);
      assert cluster == front + [t];
      if t.orderGroup.Some? {
        AddToKeepsRows(Intents(front), t.orderGroup.value, t.row);
      } else {
        RowsOfSnoc(Filter(front, NoIntent()), t);
      }
      forall q: nat
        ensures RowsFor(Intents(cluster), q) == RowsOf(Filter(cluster, Naming(q)))
      {
        RowsOfSnoc(Filter(front, Naming(q)), t);
        if t.orderGroup.Some? {
          AddToRowsFor(Intents(front), t.orderGroup.value, t.row, q);
        }
      }
      if t.orderGroup.Some? {
        AddToRowsFor(Intents(front), t.orderGroup.value, t.row, 0);
      }
    }
  }

  lemma NoIntentBuckets()
    ensures OneBucketEach([]) && BucketRows([]) == [] && forall q: nat :: RowsFor([], q) == []
  {
  }

  lemma RowsOfSnoc(txns: seq<Txn>, t: Txn)
    ensures RowsOf(txns + [t]) == RowsOf(txns) + [t.row]
    ensures multiset(RowsOf(txns + [t])) == multiset(RowsOf(txns)) + multiset{t.row}
  {
    assert RowsOf(txns + [t]) == RowsOf(txns) + [t.row];
  }

  // The rows an intent group took; a group that is not there takes none.
  function TakenBy(st: Pass, b: Bucket, secs: Securities): seq<Row> {
    if ApplyIntent(st, b, secs).1 == [] then b.rows else []
  }

  function Taken(st: Pass, intents: seq<Bucket>, secs: Securities): seq<Row> {
    if intents == [] then []
    else
      var front := intents[..|intents| - 1];
      Taken(st, front, secs) + TakenBy(ApplyIntents(st, front, secs).0, intents[|intents| - 1], secs)
  }

  lemma {:induction false} OpeningsAndClosings(rows: seq<Row>)
    ensures multiset(Filter(rows, IsOpeningRow())) + multiset(Filter(rows, IsClosingRow())) == multiset(rows)
  {
    if rows != [] {
      var front, r := rows[..|rows| - 1], rows[|rows| - 1];
      OpeningsAndClosings(front);
      assert rows == front + [r];
      MultisetSnoc(front, r);
      MultisetSnoc(Filter(front, IsOpeningRow()), r);
      MultisetSnoc(Filter(front, IsClosingRow()), r);
    }
  }

  lemma JoinTxns(s: Ledger, g: MemGroup, rows: seq<Row>)
    ensures var (s', g') := JoinOpenings(s, g, rows);
            && s'.txns == AttachAll(s.txns, Ids(rows), g.pk) && |s'.groups| == |s.groups|
            && g'.pk == g.pk && s'.events == s.events
  {
    if rows == [] {
      assert Ids(rows) == {};
      assert AttachAll(s.txns, {}, g.pk) == s.txns;
    }
  }

  // A group that is there takes every row of its intent.
  lemma IntentTxns(st: Pass, b: Bucket, secs: Securities)
    ensures var (after, back) := ApplyIntent(st, b, secs);
            && |after.ledger.groups| == |st.ledger.groups|
            && (FindGroup(st.open, b.group).Some? || HasGroup(st.ledger, b.group) ==>
                  after.ledger.txns == AttachAll(st.ledger.txns, Ids(b.rows), b.group) && back == [])
            && (FindGroup(st.open, b.group).None? && !HasGroup(st.ledger, b.group) ==>
                  after.ledger == st.ledger && back == b.rows)
  {
    hide JoinOpenings, ApplyExit, Settle, ReplaceGroup, Ids, AttachAll;
    var held := WithGroup(st, b.group);
    FindLoaded(st, b.group);
    var i := FindGroup(held.open, b.group);
    if i.Some? {
      var g, opening, closing := held.open[i.value], Filter(b.rows, IsOpeningRow()), Filter(b.rows, IsClosingRow());
      var joined := JoinOpenings(held.ledger, g, opening).0;
      JoinTxns(held.ledger, g, opening);
      OpeningsAndClosings(b.rows);
      IdsOfMultiset(b.rows, opening, closing);
      AttachBoth(st.ledger.txns, Ids(opening), Ids(closing), g.pk);
      if closing == [] {
        NoIds();
      } else {
        ExitTxns(joined, JoinOpenings(held.ledger, g, opening).1, closing, None, None, secs);
      }
    }
  }

  lemma NoIds()
    ensures Ids([]) == {} && RowsOf([]) == []
    ensures forall txns, pk :: AttachAll(txns, {}, pk) == txns
  {
  }

  lemma FindLoaded(st: Pass, pk: nat)
    ensures FindGroup(WithGroup(st, pk).open, pk).Some? <==> FindGroup(st.open, pk).Some? || HasGroup(st.ledger, pk)
    ensures WithGroup(st, pk).ledger == st.ledger
  {
  }

  lemma AttachBoth(txns: seq<Txn>, x: set<TxnId>, y: set<TxnId>, pk: nat)
    ensures AttachAll(AttachAll(txns, x, pk), y, pk) == AttachAll(txns, x + y, pk)
  {
  }

  lemma IntentAttributes(st: Pass, b: Bucket, secs: Securities)
    ensures var (after, back) := ApplyIntent(st, b, secs);
            && Attributed(st.ledger, after.ledger, Ids(TakenBy(st, b, secs)))
            && |after.ledger.groups| == |st.ledger.groups|
            && multiset(TakenBy(st, b, secs)) + multiset(back) == multiset(b.rows)
  {
    hide ApplyIntent;
    IntentTxns(st, b, secs);
    NoIds();
    NothingAttributed(st.ledger);
    var after := ApplyIntent(st, b, secs).0;
    if FindGroup(st.open, b.group).Some? || HasGroup(st.ledger, b.group) {
      AttachAttributes(st.ledger, after.ledger, b.rows, b.group);
    }
  }

  /** The intents of a cluster attribute exactly the rows they do not return. */
  lemma {:induction false} IntentsAttribute(st: Pass, intents: seq<Bucket>, secs: Securities)
    ensures var (after, back) := ApplyIntents(st, intents, secs);
            && Attributed(st.ledger, after.ledger, Ids(Taken(st, intents, secs)))
            && |after.ledger.groups| == |st.ledger.groups|
            && multiset(Taken(st, intents, secs)) + multiset(back) == multiset(BucketRows(intents))
  {
    hide ApplyIntent, Attributed, BucketRows, TakenBy;
    if intents == [] {
      NothingAttributed(st.ledger);
      NoIntentBuckets();
      NoIds();
    } else {
      var front, b := intents[..|intents| - 1], intents[|intents| - 1];
      IntentsAttribute(st, front, secs);
      var (before, back) := ApplyIntents(st, front, secs);
      IntentAttributes(before, b, secs);
      var (after, more) := ApplyIntent(before, b, secs);
      AttributedThen(st.ledger, before.ledger, after.ledger, Ids(Taken(st, front, secs)), Ids(TakenBy(before, b, secs)));
      IdsConcat(Taken(st, front, secs), TakenBy(before, b, secs));
      BucketRowsSplit(intents);
    }
  }

  // ----------------------------------------------------------------------- whole passes

  // The three ways of a cluster, as one partition of its rows.
  lemma ClusterRows(st: Pass, cluster: seq<Txn>, secs: Securities)
    ensures var routed := RowsOf(Filter(cluster, NoIntent())) + ApplyIntents(st, Intents(cluster), secs).1;
            multiset(Taken(st, Intents(cluster), secs)) + multiset(routed) == multiset(RowsOf(cluster))
  {
    hide Taken, ApplyIntents, BucketRows;
    IntentsPartition(cluster);
    IntentsAttribute(st, Intents(cluster), secs);
  }

  lemma ClusterAttributes(st: Pass, account: AccountId, cluster: seq<Txn>, secs: Securities, link: Linker)
    ensures var after := ClusterStep(st, account, cluster, secs, link).ledger;
            Attributed(st.ledger, after, Ids(RowsOf(cluster))) && |after.groups| >= |st.ledger.groups|
  {
    hide Attributed, ApplyIntents, RouteRows, Taken;
    var intents := Intents(cluster);
    var (after, back) := ApplyIntents(st, intents, secs);
    var routed := RowsOf(Filter(cluster, NoIntent())) + back;
    IntentsAttribute(st, intents, secs);
    RouteAttributes(after, account, routed, secs, link);
    AttributedThen(st.ledger, after.ledger, RouteRows(after, account, routed, secs, link).ledger,
                   Ids(Taken(st, intents, secs)), Ids(routed));
    ClusterRows(st, cluster, secs);
    IdsOfMultiset(RowsOf(cluster), Taken(st, intents, secs), routed);
  }

  lemma RowsOfConcat(a: seq<Txn>, b: seq<Txn>)
    ensures RowsOf(a + b) == RowsOf(a) + RowsOf(b)
  {
  }

  lemma {:induction false} ClustersAttribute(st: Pass, account: AccountId, clusters: seq<seq<Txn>>, secs: Securities, link: Linker)
    ensures var after := ClusterSteps(st, account, clusters, secs, link).ledger;
            Attributed(st.ledger, after, Ids(RowsOf(Flatten(clusters)))) && |after.groups| >= |st.ledger.groups|
  {
    hide Attributed, ClusterStep;
    if clusters == [] {
      NothingAttributed(st.ledger);
      assert RowsOf(Flatten(clusters)) == [];
      NoIds();
    } else {
      var front, last := clusters[..|clusters| - 1], clusters[|clusters| - 1];
      ClustersAttribute(st, account, front, secs, link);
      var before := ClusterSteps(st, account, front, secs, link);
      ClusterAttributes(before, account, last, secs, link);
      AttributedThen(st.ledger, before.ledger, ClusterStep(before, account, last, secs, link).ledger,
                     Ids(RowsOf(Flatten(front))), Ids(RowsOf(last)));
      RowsOfConcat(Flatten(front), last);
      IdsConcat(RowsOf(Flatten(front)), RowsOf(last));
    }
  }

  // What a pass sets out to attribute.
  function CandidateIds(s: Ledger, account: AccountId, since: Option<nat>): set<TxnId> {
    Ids(RowsOf(Candidates(s, account, since)))
  }

  lemma ClusteredIds(txns: seq<Txn>, other: seq<Txn>)
    requires multiset(txns) == multiset(other)
    ensures Ids(RowsOf(txns)) == Ids(RowsOf(other))
  {
    forall t
      ensures t in txns <==> t in other
    {
      assert t in txns <==> t in multiset(txns);
      assert t in other <==> t in multiset(other);
    }
    forall x
      ensures x in Ids(RowsOf(txns)) <==> x in Ids(RowsOf(other))
    {
      IdInRows(txns, x);
      IdInRows(other, x);
      assert (exists t :: t in txns && t.row.id == x) <==> (exists t :: t in other && t.row.id == x);
    }
  }

  lemma IdInRows(txns: seq<Txn>, x: TxnId)
    ensures x in Ids(RowsOf(txns)) <==> exists t :: t in txns && t.row.id == x
  {
    if x in Ids(RowsOf(txns)) {
      var r :| r in RowsOf(txns) && r.id == x;
      var i :| 0 <= i < |txns| && RowsOf(txns)[i] == r;
      assert txns[i] in txns;
    }
    if t :| t in txns && t.row.id == x {
      var i :| 0 <= i < |txns| && txns[i] == t;
      assert RowsOf(txns)[i] in RowsOf(txns);
    }
  }

  lemma {:induction false} HealTxns(s: Ledger, groups: seq<MemGroup>, secs: Securities)
    ensures HealAll(s, groups, secs).txns == s.txns && |HealAll(s, groups, secs).groups| == |s.groups|
  {
    if groups != [] {
      HealTxns(s, groups[..|groups| - 1], secs);
    }
  }

  // The books of a pass before its self-heal.
  function Clustered(s: Ledger, account: AccountId, since: Option<nat>, secs: Securities, link: Linker): Pass {
    ClusterSteps(Pass(s, LoadOpen(s, account)), account, ClustersOf(Candidates(s, account, since)), secs, link)
  }

  lemma PassShape(s: Ledger, account: AccountId, since: Option<nat>, secs: Securities, link: Linker)
    ensures var st, s' := Clustered(s, account, since, secs, link), Pass1(s, account, since, secs, link);
            s' == Heal(st.ledger, account, secs) && s'.txns == st.ledger.txns && |s'.groups| == |st.ledger.groups|
  {
    var st := Clustered(s, account, since, secs, link);
    HealTxns(st.ledger, LoadOpen(st.ledger, account), secs);
  }

  /** A pass attributes every candidate and moves nothing else, whatever the candidates' orders
      name and whatever the books hold. */
  lemma PassAttributes(s: Ledger, account: AccountId, since: Option<nat>, secs: Securities, link: Linker)
    ensures var s' := Pass1(s, account, since, secs, link);
            Attributed(s, s', CandidateIds(s, account, since)) && |s'.groups| >= |s.groups|
  {
    hide Attributed, ClusterSteps, ClustersOf, LoadOpen, Candidates, Pass1, Heal;
    var candidates := Candidates(s, account, since);
    ClustersAttribute(Pass(s, LoadOpen(s, account)), account, ClustersOf(candidates), secs, link);
    ClustersPartition(candidates);
    ClusteredIds(Flatten(ClustersOf(candidates)), candidates);
    PassShape(s, account, since, secs, link);
    SameTxnsAttributed(s, Clustered(s, account, since, secs, link).ledger, Pass1(s, account, since, secs, link),
                       CandidateIds(s, account, since));
  }

  lemma SameTxnsAttributed(s: Ledger, a: Ledger, b: Ledger, ids: set<TxnId>)
    requires Attributed(s, a, ids) && b.txns == a.txns
    ensures Attributed(s, b, ids)
  {
  }

  // ---------------------------------------------------------------------- the named group

  // Everything under this id has been put into group q.
  ghost predicate InGroup(s: Ledger, x: TxnId, q: nat) {
    forall i :: 0 <= i < |s.txns| && s.txns[i].row.id == x ==> s.txns[i].group == Some(q)
  }

  ghost predicate NamesOnly(txns: seq<Txn>, x: TxnId, q: nat) {
    forall t :: t in txns && t.row.id == x ==> t.orderGroup == Some(q)
  }

  lemma InGroupKept(s: Ledger, s': Ledger, ids: set<TxnId>, x: TxnId, q: nat)
    requires Attributed(s, s', ids) && InGroup(s, x, q) && x !in ids
    ensures InGroup(s', x, q)
  {
  }

  lemma AttachLands(s: Ledger, s': Ledger, ids: set<TxnId>, x: TxnId, q: nat)
    requires s'.txns == AttachAll(s.txns, ids, q) && (x in ids || InGroup(s, x, q))
    ensures InGroup(s', x, q)
  {
  }

  // The id is in no bucket but its group's.
  ghost predicate OnlyBucket(intents: seq<Bucket>, x: TxnId, q: nat) {
    forall k :: 0 <= k < |intents| && intents[k].group != q ==> x !in Ids(intents[k].rows)
  }

  lemma {:induction false} IntentsLand(st: Pass, intents: seq<Bucket>, secs: Securities, x: TxnId, q: nat)
    requires HasGroup(st.ledger, q) && OnlyBucket(intents, x, q)
    ensures var (after, back) := ApplyIntents(st, intents, secs);
            && x !in Ids(back)
            && (InGroup(st.ledger, x, q) || x in Ids(BucketRows(intents)) ==> InGroup(after.ledger, x, q))
  {
    hide ApplyIntent, InGroup, BucketRows, Ids;
    NoIntentBuckets();
    NoIds();
    if intents != [] {
      var front, b := intents[..|intents| - 1], intents[|intents| - 1];
      IntentsLand(st, front, secs, x, q);
      IntentsAttribute(st, front, secs);
      var (before, back) := ApplyIntents(st, front, secs);
      BucketRowsSplit(intents);
      IdsConcat(BucketRows(front), b.rows);
      IntentLands(before, b, secs, x, q);
      IdsConcat(back, ApplyIntent(before, b, secs).1);
    }
  }

  lemma IntentLands(st: Pass, b: Bucket, secs: Securities, x: TxnId, q: nat)
    requires HasGroup(st.ledger, q) && (b.group != q ==> x !in Ids(b.rows))
    ensures var (after, back) := ApplyIntent(st, b, secs);
            && x !in Ids(back)
            && (InGroup(st.ledger, x, q) || x in Ids(b.rows) ==> InGroup(after.ledger, x, q))
  {
    hide ApplyIntent;
    IntentTxns(st, b, secs);
    NoIds();
    IntentAttributes(st, b, secs);
    var after := ApplyIntent(st, b, secs).0;
    if b.group == q {
      if x in Ids(b.rows) || InGroup(st.ledger, x, q) {
        AttachLands(st.ledger, after.ledger, Ids(b.rows), x, q);
      }
    } else if InGroup(st.ledger, x, q) {
      InGroupKept(st.ledger, after.ledger, Ids(TakenBy(st, b, secs)), x, q);
    }
  }

  lemma NamedBuckets(cluster: seq<Txn>, x: TxnId, q: nat)
    requires NamesOnly(cluster, x, q)
    ensures OnlyBucket(Intents(cluster), x, q)
    ensures x !in Ids(RowsOf(Filter(cluster, NoIntent())))
    ensures x in Ids(RowsOf(cluster)) <==> x in Ids(BucketRows(Intents(cluster)))
  {
    hide Intents, BucketRows, RowsFor;
    IntentsPartition(cluster);
    var intents, others := Intents(cluster), Filter(cluster, NoIntent());
    IdsOfMultiset(RowsOf(cluster), BucketRows(intents), RowsOf(others));
    if x in Ids(RowsOf(others)) {
      IdInRows(others, x);
      var t :| t in others && t.row.id == x;
      FilterMember(cluster, t, NoIntent());
    }
    forall k | 0 <= k < |intents| && intents[k].group != q
      ensures x !in Ids(intents[k].rows)
    {
      var g := intents[k].group;
      BucketRowsFor(intents, k);
      var named := Filter(cluster, Naming(g));
      if x in Ids(RowsOf(named)) {
        IdInRows(named, x);
        var t :| t in named && t.row.id == x;
        FilterMember(cluster, t, Naming(g));
      }
    }
  }

  lemma BucketRowsFor(buckets: seq<Bucket>, k: nat)
    requires OneBucketEach(buckets) && k < |buckets|
    ensures RowsFor(buckets, buckets[k].group) == buckets[k].rows
  {
  }

  lemma ClusterLands(st: Pass, account: AccountId, cluster: seq<Txn>, secs: Securities, link: Linker, x: TxnId, q: nat)
    requires HasGroup(st.ledger, q) && NamesOnly(cluster, x, q)
    ensures InGroup(st.ledger, x, q) || x in Ids(RowsOf(cluster)) ==>
              InGroup(ClusterStep(st, account, cluster, secs, link).ledger, x, q)
  {
    hide Attributed, ApplyIntents, RouteRows, Taken, InGroup, Intents, BucketRows;
    var intents := Intents(cluster);
    var (after, back) := ApplyIntents(st, intents, secs);
    var others := RowsOf(Filter(cluster, NoIntent()));
    NamedBuckets(cluster, x, q);
    IntentsLand(st, intents, secs, x, q);
    RouteAttributes(after, account, others + back, secs, link);
    IdsConcat(others, back);
    if InGroup(st.ledger, x, q) || x in Ids(RowsOf(cluster)) {
      InGroupKept(after.ledger, RouteRows(after, account, others + back, secs, link).ledger, Ids(others + back), x, q);
    }
  }

  lemma {:induction false} ClustersLand(st: Pass, account: AccountId, clusters: seq<seq<Txn>>, secs: Securities, link: Linker,
                                        x: TxnId, q: nat)
    requires HasGroup(st.ledger, q) && NamesOnly(Flatten(clusters), x, q)
    ensures InGroup(st.ledger, x, q) || x in Ids(RowsOf(Flatten(clusters))) ==>
              InGroup(ClusterSteps(st, account, clusters, secs, link).ledger, x, q)
  {
    hide ClusterStep, InGroup, Ids, RowsOf;
    if clusters == [] {
      NoIds();
    } else {
      var front, last := clusters[..|clusters| - 1], clusters[|clusters| - 1];
      assert Flatten(clusters) == Flatten(front) + last;
      ClustersLand(st, account, front, secs, link, x, q);
      ClustersAttribute(st, account, front, secs, link);
      ClusterLands(ClusterSteps(st, account, front, secs, link), account, last, secs, link, x, q);
      RowsOfConcat(Flatten(front), last);
      IdsConcat(RowsOf(Flatten(front)), RowsOf(last));
    }
  }

  /** A candidate whose order names a group that is there ends in that group, open or finished;
      routing never sees it. */
  lemma NamedGroupWins(s: Ledger, account: AccountId, since: Option<nat>, secs: Securities, link: Linker, i: nat, q: nat)
    requires UniqueIds(s.txns) && i < |s.txns| && IsCandidate(s.txns[i], account, since)
    requires s.txns[i].orderGroup == Some(q) && HasGroup(s, q)
    ensures var s' := Pass1(s, account, since, secs, link);
            |s'.txns| == |s.txns| && s'.txns[i].group == Some(q)
  {
    hide Pass1, ClusterSteps, ClustersOf, LoadOpen, IsCandidate, Heal;
    var x, candidates := s.txns[i].row.id, Candidates(s, account, since);
    var clusters := ClustersOf(candidates);
    ClustersPartition(candidates);
    ClusteredIds(Flatten(clusters), candidates);
    forall t: Txn | t in Flatten(clusters) && t.row.id == x
      ensures t.orderGroup == Some(q)
    {
      assert t in multiset(candidates);
      FilterMember(s.txns, t, CandidateOf(account, since));
      var j :| 0 <= j < |s.txns| && s.txns[j] == t;
      assert j == i;
    }
    FilterMember(s.txns, s.txns[i], CandidateOf(account, since));
    IdInRows(candidates, x);
    ClustersLand(Pass(s, LoadOpen(s, account)), account, clusters, secs, link, x, q);
    PassShape(s, account, since, secs, link);
    PassAttributes(s, account, since, secs, link);
    assert s.txns[i].row.id == x;
  }

  // ------------------------------------------------------------------------- a second pass

  // An account's open groups are not fully closed.
  ghost predicate Healed(s: Ledger, account: AccountId) {
    forall q: nat :: OpenFor(s, account, q) ==> !FullyClosed(LoadRows(s, q))
  }

  lemma ClosedIsTerminal(g: Group, rows: seq<Row>, at: Option<Time>, secs: Securities)
    ensures ClosedGroup(g, rows, at, secs).status != Open && ClosedGroup(g, rows, at, secs).status != Unfilled
    ensures ClosedGroup(g, rows, at, secs).account == g.account
  {
  }

  // The first n groups are settled if they were open and fully closed; no other record changes.
  ghost predicate SettledUpTo(s: Ledger, s': Ledger, account: AccountId, n: nat, secs: Securities) {
    && s'.txns == s.txns && |s'.groups| == |s.groups|
    && forall q: nat :: HasGroup(s, q) ==>
         if q <= n && OpenFor(s, account, q) && FullyClosed(LoadRows(s, q))
         then GroupAt(s', q) == ClosedGroup(GroupAt(s, q), LoadRows(s, q), LatestAt(LoadRows(s, q)), secs)
         else GroupAt(s', q) == GroupAt(s, q)
  }

  lemma HealOneSettles(s: Ledger, s1: Ledger, account: AccountId, n: nat, secs: Securities)
    requires n > 0 && SettledUpTo(s, s1, account, n - 1, secs) && OpenFor(s, account, n)
    ensures SettledUpTo(s, HealOne(s1, MemGroup(n, LoadRows(s, n)), secs), account, n, secs)
  {
    hide FullyClosed, ClosedGroup, LoadRows;
  }

  lemma {:induction false} HealSettles(s: Ledger, account: AccountId, n: nat, secs: Securities)
    requires n <= |s.groups|
    ensures SettledUpTo(s, HealAll(s, LoadOpenUpTo(s, account, n), secs), account, n, secs)
  {
    hide FullyClosed, ClosedGroup, LoadRows, HealOne;
    if n > 0 {
      HealSettles(s, account, n - 1, secs);
      var groups, front := LoadOpenUpTo(s, account, n), LoadOpenUpTo(s, account, n - 1);
      if OpenFor(s, account, n) {
        assert groups[..|groups| - 1] == front;
        HealOneSettles(s, HealAll(s, front, secs), account, n, secs);
      } else {
        assert groups == front;
      }
    }
  }

  lemma PassHeals(s: Ledger, account: AccountId, since: Option<nat>, secs: Securities, link: Linker)
    ensures Healed(Pass1(s, account, since, secs, link), account)
  {
    hide FullyClosed, ClusterSteps, Pass1, ClosedGroup;
    PassShape(s, account, since, secs, link);
    var st := Clustered(s, account, since, secs, link);
    HealSettles(st.ledger, account, |st.ledger.groups|, secs);
    var s' := Pass1(s, account, since, secs, link);
    forall q: nat | OpenFor(s', account, q)
      ensures !FullyClosed(LoadRows(s', q))
    {
      assert HasGroup(st.ledger, q);
      assert LoadRows(s', q) == LoadRows(st.ledger, q);
      ClosedIsTerminal(GroupAt(st.ledger, q), LoadRows(s', q), LatestAt(LoadRows(s', q)), secs);
    }
  }

  lemma NothingToDo(s: Ledger, account: AccountId, since: Option<nat>, secs: Securities, link: Linker)
    requires Candidates(s, account, since) == [] && Healed(s, account)
    ensures Pass1(s, account, since, secs, link) == s
  {
    var none: seq<Txn> := [];
    assert Sort(none, TimeKey) == [] && Filter(none, IsDated()) == [] && Filter(none, IsUndated()) == [];
    assert ClustersOf(none) == [];
    NothingToHeal(s, account, |s.groups|, secs);
  }

  lemma {:induction false} NothingToHeal(s: Ledger, account: AccountId, n: nat, secs: Securities)
    requires Healed(s, account) && n <= |s.groups|
    ensures HealAll(s, LoadOpenUpTo(s, account, n), secs) == s
  {
    hide FullyClosed, LoadRows, ClosedGroup;
    if n > 0 {
      NothingToHeal(s, account, n - 1, secs);
      var groups := LoadOpenUpTo(s, account, n);
      if OpenFor(s, account, n) {
        assert groups[..|groups| - 1] == LoadOpenUpTo(s, account, n - 1);
      } else {
        assert groups == LoadOpenUpTo(s, account, n - 1);
      }
    }
  }

  /** A rerun with nothing new finds no candidate, creates no group, logs no event and changes
      nothing, on any books. */
  lemma RerunIsNoOp(s: Ledger, account: AccountId, since: Option<nat>, secs: Securities, link: Linker)
    ensures var s' := Pass1(s, account, since, secs, link);
            Candidates(s', account, since) == [] && Pass1(s', account, since, secs, link) == s'
  {
    hide FullyClosed, Pass1, LoadRows;
    PassAttributes(s, account, since, secs, link);
    PassHeals(s, account, since, secs, link);
    var s' := Pass1(s, account, since, secs, link);
    forall i | 0 <= i < |s'.txns|
      ensures !IsCandidate(s'.txns[i], account, since)
    {
      if IsCandidate(s'.txns[i], account, since) {
        assert s.txns[i].row == s'.txns[i].row && s.txns[i].group.None?;
        FilterMember(s.txns, s.txns[i], CandidateOf(account, since));
        IdInRows(Candidates(s, account, since), s.txns[i].row.id);
      }
    }
    NothingSelected(s'.txns, CandidateOf(account, since));
    NothingToDo(s', account, since, secs, link);
  }
}
