/** Theorems about a whole reconcile pass and about reruns. */
module PassTheorems {
  import opened Rows
  import opened Ordering
  import opened GroupNet
  import opened Routing
  import opened Books
  import opened Exits
  import opened Membership
  import opened Reconcile
  import opened Attribution
  import opened PassProofs
  import opened RunProofs
  import opened IntentProofs

  // ------------------------------------------------------------------------- one cluster

  lemma OpenDistinct(s: Ledger, account: AccountId, open: seq<MemGroup>, named: set<nat> := {})
    requires OpenOK(s, account, open, named)
    ensures forall i, j :: 0 <= i < j < |open| ==> open[i].pk != open[j].pk
  {
  }

  lemma PassOpenOK(s0: Ledger, account: AccountId, st: Pass, named: set<nat>, loose: set<nat>)
    requires PassInv(s0, account, st, named, loose)
    ensures OpenOK(st.ledger, account, st.open, named)
  {
  }

  lemma RouteRowsStep(s0: Ledger, account: AccountId, st: Pass, rows: seq<Row>, secs: Securities, link: Linker, named: set<nat>,
                      loose: set<nat>)
    requires PassInv(s0, account, st, named, loose) && Unattributed(st.ledger, rows)
    ensures PassInv(s0, account, RouteRows(st, account, rows, secs, link), named, loose)
  {
    hide PassInv, Unattributed, Attributed, OpenRest, ApplyBuckets, Route, ValidBuckets;
    if rows != [] {
      RoutePartitions(st.open, rows);
      var routed := Route(st.open, rows);
      var newPk := if routed.rest == [] then None else Some(|st.ledger.groups| + 1);
      UnattributedParts(st.ledger, rows, BucketRows(routed.buckets), routed.rest);
      CreateStep(s0, account, st, routed.rest, named, loose);
      var withRest := OpenRest(st, account, routed.rest);
      StillUnattributed(st.ledger, withRest.ledger, Ids(routed.rest), BucketRows(routed.buckets));
      PassOpenOK(s0, account, st, named, loose);
      OpenDistinct(st.ledger, account, st.open, named);
      BucketsStep(s0, account, withRest, st.open, routed.buckets, routed.rest, newPk, secs, link, named, loose);
    }
  }

  lemma ClusterStepKeeps(s0: Ledger, account: AccountId, st: Pass, cluster: seq<Txn>, secs: Securities, link: Linker, named: set<nat>)
    requires PassInv(s0, account, st, named) && Unattributed(st.ledger, RowsOf(cluster)) && AllNamed(cluster, named)
    ensures PassInv(s0, account, ClusterStep(st, account, cluster, secs, link), named)
  {
    hide PassInv, Unattributed, ApplyIntents, RouteRows, AllNamed;
    IntentsThenRouting(s0, account, st, cluster, secs, named);
    var (after, back) := ApplyIntents(st, Intents(cluster), secs);
    RouteRowsStep(s0, account, after, RowsOf(Filter(cluster, NoIntent())) + back, secs, link, named, named);
  }

  lemma {:induction false} ClusterStepsKeep(s0: Ledger, account: AccountId, st: Pass, clusters: seq<seq<Txn>>,
                                            secs: Securities, link: Linker, named: set<nat>)
    requires PassInv(s0, account, st, named)
    requires Unattributed(st.ledger, RowsOf(Flatten(clusters))) && AllNamed(Flatten(clusters), named)
    ensures PassInv(s0, account, ClusterSteps(st, account, clusters, secs, link), named)
  {
    hide PassInv, Unattributed, Attributed, ClusterStep, RowsOf;
    if clusters != [] {
      var front, last := clusters[..|clusters| - 1], clusters[|clusters| - 1];
      assert Flatten(clusters) == Flatten(front) + last;
      RowsOfConcat(Flatten(front), last);
      UnattributedParts(st.ledger, RowsOf(Flatten(clusters)), RowsOf(Flatten(front)), RowsOf(last));
      ClusterStepsKeep(s0, account, st, front, secs, link, named);
      ClustersAttribute(st, account, front, secs, link);
      var before := ClusterSteps(st, account, front, secs, link);
      StillUnattributed(st.ledger, before.ledger, Ids(RowsOf(Flatten(front))), RowsOf(last));
      ClusterStepKeeps(s0, account, before, last, secs, link, named);
    }
  }

  // -------------------------------------------------------------------------- candidates

  function TxnIdOf(t: Txn): TxnId {
    t.row.id
  }

  lemma {:induction false} FilterTxnsDistinct(txns: seq<Txn>, p: Txn -> bool)
    requires UniqueIds(txns)
    ensures DistinctKeys(Filter(txns, p), TxnIdOf)
  {
    if txns != [] {
      var front, t := txns[..|txns| - 1], txns[|txns| - 1];
      FilterTxnsDistinct(front, p);
      forall k | 0 <= k < |Filter(front, p)|
        ensures TxnIdOf(Filter(front, p)[k]) != TxnIdOf(t)
      {
        FilterMember(front, Filter(front, p)[k], p);
      }
    }
  }

  lemma CandidateId(s: Ledger, account: AccountId, since: Option<nat>, i: nat)
    requires UniqueIds(s.txns) && i < |s.txns|
    ensures s.txns[i].row.id in CandidateIds(s, account, since) <==> IsCandidate(s.txns[i], account, since)
  {
    var t := s.txns[i];
    IdInRows(Candidates(s, account, since), t.row.id);
    FilterMember(s.txns, t, CandidateOf(account, since));
    if x :| x in Candidates(s, account, since) && x.row.id == t.row.id {
      FilterMember(s.txns, x, CandidateOf(account, since));
      var j :| 0 <= j < |s.txns| && s.txns[j] == x;
    }
  }

  lemma ClusteredOnce(s: Ledger, account: AccountId, since: Option<nat>)
    requires UniqueIds(s.txns)
    ensures var clustered := Flatten(ClustersOf(Candidates(s, account, since)));
            && DistinctIds(RowsOf(clustered))
            && Ids(RowsOf(clustered)) == CandidateIds(s, account, since)
            && (forall t :: t in clustered <==> t in Candidates(s, account, since))
  {
    hide IsCandidate, ClustersOf, Candidates, Filter, Ids, RowsOf;
    var candidates := Candidates(s, account, since);
    var clustered := Flatten(ClustersOf(candidates));
    CandidatesAre(s, account, since);
    ClustersPartition(candidates);
    FilterTxnsDistinct(s.txns, CandidateOf(account, since));
    DistinctKeysOfMultiset(candidates, clustered, TxnIdOf);
    ClusteredIds(clustered, candidates);
    forall t
      ensures t in clustered <==> t in candidates
    {
      assert t in clustered <==> t in multiset(clustered);
      assert t in candidates <==> t in multiset(candidates);
    }
    ClusteredDistinct(clustered);
  }

  /** The clusters of a pass are unattributed rows of the table, each once. */
  lemma CandidatesUnattributed(s: Ledger, account: AccountId, since: Option<nat>)
    requires UniqueIds(s.txns)
    ensures var clustered := Flatten(ClustersOf(Candidates(s, account, since)));
            && Unattributed(s, RowsOf(clustered))
            && Ids(RowsOf(clustered)) == CandidateIds(s, account, since)
            && (forall t :: t in clustered ==> t in Candidates(s, account, since))
  {
    hide IsCandidate, ClustersOf, Candidates;
    var candidates := Candidates(s, account, since);
    var clustered := Flatten(ClustersOf(candidates));
    ClusteredOnce(s, account, since);
    CandidatesAre(s, account, since);
    forall r | r in RowsOf(clustered)
      ensures exists i :: 0 <= i < |s.txns| && s.txns[i].row == r
    {
      var k :| 0 <= k < |clustered| && RowsOf(clustered)[k] == r;
      assert clustered[k] in clustered;
      FilterMember(s.txns, clustered[k], CandidateOf(account, since));
      var i :| 0 <= i < |s.txns| && s.txns[i] == clustered[k];
      assert s.txns[i].row == r;
    }
    forall i | 0 <= i < |s.txns| && s.txns[i].row.id in Ids(RowsOf(clustered))
      ensures s.txns[i].group.None?
    {
      CandidateId(s, account, since, i);
      CandidateUngrouped(s.txns[i], account, since);
    }
  }

  lemma CandidatesAre(s: Ledger, account: AccountId, since: Option<nat>)
    ensures Candidates(s, account, since) == Filter(s.txns, CandidateOf(account, since))
  {
  }

  lemma CandidateUngrouped(t: Txn, account: AccountId, since: Option<nat>)
    requires IsCandidate(t, account, since)
    ensures t.group.None?
  {
  }

  lemma ClusteredDistinct(txns: seq<Txn>)
    requires DistinctKeys(txns, TxnIdOf)
    ensures DistinctIds(RowsOf(txns))
  {
    forall i, j | 0 <= i < j < |txns|
      ensures RowsOf(txns)[i].id != RowsOf(txns)[j].id
    {
      assert TxnIdOf(txns[i]) != TxnIdOf(txns[j]);
    }
  }

  // ---------------------------------------------------------------------------- the load

  lemma {:induction false} LoadedOpen(s: Ledger, account: AccountId, n: nat)
    requires UniqueIds(s.txns) && n <= |s.groups|
    ensures OpenOK(s, account, LoadOpenUpTo(s, account, n))
    ensures forall k :: 0 <= k < |LoadOpenUpTo(s, account, n)| ==> LoadOpenUpTo(s, account, n)[k].pk <= n
  {
    hide Holds, LoadRows, OpenFor;
    if n > 0 {
      LoadedOpen(s, account, n - 1);
      LoadHolds(s, n);
    }
  }

  lemma {:induction false} LoadHoldsAll(s: Ledger, account: AccountId, n: nat, q: nat)
    requires n <= |s.groups| && OpenFor(s, account, q) && q <= n
    ensures Lists(LoadOpenUpTo(s, account, n), q)
  {
    hide LoadRows;
    var open, before := LoadOpenUpTo(s, account, n), LoadOpenUpTo(s, account, n - 1);
    if q == n {
      assert open[|open| - 1].pk == q;
    } else {
      LoadHoldsAll(s, account, n - 1, q);
      var k :| 0 <= k < |before| && before[k].pk == q;
      assert open[k].pk == q;
    }
  }

  lemma SameBooks(s: Ledger, account: AccountId, named: set<nat> := {})
    requires UniqueIds(s.txns) && ValidRefs(s)
    ensures PassInv(s, account, Pass(s, LoadOpen(s, account)), named)
  {
    hide Lists;
    LoadedOpen(s, account, |s.groups|);
    forall q: nat | OpenFor(s, account, q)
      ensures Lists(LoadOpen(s, account), q)
    {
      LoadHoldsAll(s, account, |s.groups|, q);
    }
  }

  // ---------------------------------------------------------------------------- the heal

  lemma HealOneStep(s: Ledger, account: AccountId, pk: nat, secs: Securities)
    requires UniqueIds(s.txns) && ValidRefs(s) && OpenFor(s, account, pk)
    ensures var s' := HealOne(s, MemGroup(pk, LoadRows(s, pk)), secs);
            && s'.txns == s.txns && |s'.groups| == |s.groups| && OnlyGroup(s, s', pk)
            && ValidRefs(s') && SoundKept(s, s') && Conserved(s, s')
  {
    hide FullyClosed, Balance, Members, ClosedGroup, EventsOf;
    var g := MemGroup(pk, LoadRows(s, pk));
    var s' := HealOne(s, g, secs);
    if FullyClosed(g.rows) {
      var closed := ClosedGroup(GroupAt(s, pk), g.rows, LatestAt(g.rows), secs);
      var e := Event(pk, Adjustment, 0.0, 0.0, LatestAt(g.rows), None);
      AdjustmentIsFree(s.events, e);
      assert s'.groups == s.groups[pk - 1 := closed];
      assert LoadRows(s', pk) == g.rows;
      forall q | q != pk
        ensures Untouched(s, s', q)
      {
        OthersLog(s.events, [e], pk, q);
      }
      SoundStep(s, s, s', pk, {});
      SameBalances(s, s');
    } else {
      assert OnlyGroup(s, s', pk);
      SameBalances(s, s');
    }
  }

  lemma AdjustmentIsFree(events: seq<Event>, e: Event)
    requires e.premiumChange == 0.0
    ensures forall q: nat :: Premium(events + [e], q) == Premium(events, q)
  {
    forall q: nat
      ensures Premium(events + [e], q) == Premium(events, q)
    {
      PremiumOne(e, q);
      PremiumConcat(events, [e], q);
    }
  }

  lemma SameBalances(s: Ledger, s': Ledger)
    requires s'.txns == s.txns && |s'.groups| == |s.groups|
    requires forall q: nat :: Premium(s'.events, q) == Premium(s.events, q)
    ensures Conserved(s, s')
  {
  }

  lemma ConservedThen(a: Ledger, b: Ledger, c: Ledger, named: set<nat> := {}, more: set<nat> := {})
    requires Conserved(a, b, named) && Conserved(b, c, more) && more <= named
    ensures Conserved(a, c, named)
  {
    hide Balance;
  }

  lemma SoundThen(a: Ledger, b: Ledger, c: Ledger, named: set<nat> := {}, more: set<nat> := {})
    requires SoundKept(a, b, named) && SoundKept(b, c, more) && more <= named && |a.groups| <= |b.groups|
    ensures SoundKept(a, c, named)
  {
    hide Sound;
    forall q | HasGroup(c, q) && q !in named && (HasGroup(a, q) ==> Sound(a, q))
      ensures Sound(c, q)
    {
      if HasGroup(b, q) {
        assert Sound(b, q);
      }
    }
  }

  // The books after healing the first n groups.
  ghost predicate HealedBooks(s: Ledger, s': Ledger, account: AccountId, n: nat) {
    && s'.txns == s.txns && |s'.groups| == |s.groups|
    && ValidRefs(s') && SoundKept(s, s') && Conserved(s, s')
    && (forall q: nat :: q > n || !OpenFor(s, account, q) ==> Untouched(s, s', q))
  }

  lemma HealNext(s: Ledger, s1: Ledger, s': Ledger, account: AccountId, n: nat)
    requires n > 0 && HealedBooks(s, s1, account, n - 1) && OpenFor(s, account, n)
    requires s'.txns == s1.txns && |s'.groups| == |s1.groups| && OnlyGroup(s1, s', n)
    requires ValidRefs(s') && SoundKept(s1, s') && Conserved(s1, s')
    ensures HealedBooks(s, s', account, n)
  {
    hide FullyClosed, Sound, Balance, Members, EventsOf, ValidRefs;
    ConservedThen(s, s1, s');
    SoundThen(s, s1, s');
    forall q: nat | q > n || !OpenFor(s, account, q)
      ensures Untouched(s, s', q)
    {
      assert Untouched(s, s1, q) && Untouched(s1, s', q);
    }
  }

  lemma {:induction false} HealSteps(s: Ledger, account: AccountId, n: nat, secs: Securities)
    requires UniqueIds(s.txns) && ValidRefs(s) && n <= |s.groups|
    ensures HealedBooks(s, HealAll(s, LoadOpenUpTo(s, account, n), secs), account, n)
  {
    hide HealOne, FullyClosed, Sound, Balance, Members, EventsOf;
    if n > 0 {
      HealSteps(s, account, n - 1, secs);
      var s1, groups := HealAll(s, LoadOpenUpTo(s, account, n - 1), secs), LoadOpenUpTo(s, account, n);
      assert Untouched(s, s1, n);
      if OpenFor(s, account, n) {
        assert groups[..|groups| - 1] == LoadOpenUpTo(s, account, n - 1);
        assert LoadRows(s1, n) == LoadRows(s, n);
        HealOneStep(s1, account, n, secs);
        HealNext(s, s1, HealOne(s1, MemGroup(n, LoadRows(s1, n)), secs), account, n);
      } else {
        assert groups == LoadOpenUpTo(s, account, n - 1);
      }
    }
  }

  // -------------------------------------------------------------------------- whole pass

  // The groups that candidates' orders name.
  function Named(s: Ledger, account: AccountId, since: Option<nat>): set<nat> {
    set i | 0 <= i < |s.txns| && IsCandidate(s.txns[i], account, since) && s.txns[i].orderGroup.Some? :: s.txns[i].orderGroup.value
  }

  // Ids name one transaction each, and refer to groups that exist.
  ghost predicate WellKept(s: Ledger) {
    UniqueIds(s.txns) && ValidRefs(s)
  }

  lemma CandidatesNamed(s: Ledger, account: AccountId, since: Option<nat>, named: set<nat>)
    requires Named(s, account, since) <= named
    ensures AllNamed(Flatten(ClustersOf(Candidates(s, account, since))), named)
  {
    hide ClustersOf, IsCandidate;
    var candidates := Candidates(s, account, since);
    var clustered := Flatten(ClustersOf(candidates));
    ClustersPartition(candidates);
    forall t | t in clustered && t.orderGroup.Some?
      ensures t.orderGroup.value in named
    {
      assert t in multiset(clustered);
      assert t in candidates;
      FilterMember(s.txns, t, CandidateOf(account, since));
      var j :| 0 <= j < |s.txns| && s.txns[j] == t;
      assert t.orderGroup.value in Named(s, account, since);
    }
  }

  lemma ClusterPhase(s: Ledger, account: AccountId, since: Option<nat>, secs: Securities, link: Linker, named: set<nat>)
    requires WellKept(s) && Named(s, account, since) <= named
    ensures PassInv(s, account, Clustered(s, account, since, secs, link), named)
  {
    hide PassInv, Unattributed, ClusterSteps, ClustersOf, LoadOpen, AllNamed, Candidates, Named;
    var clusters := ClustersOf(Candidates(s, account, since));
    SameBooks(s, account, named);
    CandidatesUnattributed(s, account, since);
    CandidatesNamed(s, account, since, named);
    ClusterStepsKeep(s, account, Pass(s, LoadOpen(s, account)), clusters, secs, link, named);
  }

  lemma FrozenThen(a: Ledger, b: Ledger, c: Ledger, account: AccountId, named: set<nat>)
    requires Frozen(a, b, account, named) && |a.groups| <= |b.groups|
    requires forall q: nat :: !OpenFor(b, account, q) ==> Untouched(b, c, q)
    ensures Frozen(a, c, account, named)
  {
    hide EventsOf;
    forall q: nat | HasGroup(a, q) && !OpenFor(a, account, q) && q !in named
      ensures Untouched(a, c, q)
    {
      assert Untouched(a, b, q);
      assert Untouched(b, c, q);
    }
  }

  /** What a pass routes by: at its end, as all along, it holds every open group of the account,
      those it created included, each once, with exactly its members. */
  lemma PassHoldsAllOpen(s: Ledger, account: AccountId, since: Option<nat>, secs: Securities, link: Linker, q: nat)
    requires WellKept(s) && OpenFor(Clustered(s, account, since, secs, link).ledger, account, q)
    ensures var st := Clustered(s, account, since, secs, link);
            && (exists k :: 0 <= k < |st.open| && st.open[k].pk == q)
            && (forall j, k :: 0 <= j < k < |st.open| ==> st.open[j].pk != st.open[k].pk)
            && (forall k :: 0 <= k < |st.open| ==>
                  multiset(st.open[k].rows) == multiset(Members(st.ledger.txns, st.open[k].pk)))
  {
    hide ClusterSteps, Frozen, Conserved, SoundKept, ValidRefs, Members;
    ClusterPhase(s, account, since, secs, link, Named(s, account, since));
    var st := Clustered(s, account, since, secs, link);
    assert Lists(st.open, q);
    forall k | 0 <= k < |st.open|
      ensures multiset(st.open[k].rows) == multiset(Members(st.ledger.txns, st.open[k].pk))
    {
      HoldsMultiset(st.ledger.txns, st.open[k]);
    }
  }

  /** One pass. Every candidate ends in a group and nothing else changes group; no open group of
      the account is left fully closed. For every group no candidate's order names: its events
      keep their balance against its members, and a new group starts balanced; if it was not
      open its record, members and events stay; and if its terminal status, or none, was right
      before, it is right after. */
  lemma PassTheorem(s: Ledger, account: AccountId, since: Option<nat>, secs: Securities, link: Linker)
    requires WellKept(s)
    ensures var s', named := Pass1(s, account, since, secs, link), Named(s, account, since);
            && Attributed(s, s', CandidateIds(s, account, since))
            && Healed(s', account)
            && WellKept(s')
            && Conserved(s, s', named)
            && Frozen(s, s', account, named)
            && SoundKept(s, s', named)
  {
    hide Sound, Balance, FullyClosed, ClusterSteps, ClustersOf, HealAll, LoadOpenUpTo, Named, Attributed, Pass1, EventsOf, CandidateIds;
    var named := Named(s, account, since);
    ClusterPhase(s, account, since, secs, link, named);
    var st := Clustered(s, account, since, secs, link);
    HealSteps(st.ledger, account, |st.ledger.groups|, secs);
    PassShape(s, account, since, secs, link);
    PassAttributes(s, account, since, secs, link);
    PassHeals(s, account, since, secs, link);
    var s' := Pass1(s, account, since, secs, link);
    FrozenThen(s, st.ledger, s', account, named);
    ConservedThen(s, st.ledger, s', named);
    SoundThen(s, st.ledger, s', named);
  }

  // A group that a candidate's order names, that is there, and that is not open for the account.
  ghost predicate NamesFinished(s: Ledger, account: AccountId, since: Option<nat>, i: nat, q: nat) {
    && i < |s.txns| && IsCandidate(s.txns[i], account, since) && s.txns[i].orderGroup == Some(q)
    && HasGroup(s, q) && !OpenFor(s, account, q)
  }

  lemma NamingCandidate(s: Ledger, account: AccountId, since: Option<nat>, q: nat) returns (i: nat)
    requires q in Named(s, account, since)
    ensures i < |s.txns| && IsCandidate(s.txns[i], account, since) && s.txns[i].orderGroup == Some(q)
    ensures HasGroup(s, q) && !OpenFor(s, account, q) ==> NamesFinished(s, account, since, i, q)
  {
    i :| i < |s.txns| && IsCandidate(s.txns[i], account, since) && s.txns[i].orderGroup == Some(q);
  }

  lemma NamedFinishedGains(s: Ledger, account: AccountId, since: Option<nat>, secs: Securities, link: Linker, i: nat, q: nat)
    requires UniqueIds(s.txns) && NamesFinished(s, account, since, i, q)
    ensures !Untouched(s, Pass1(s, account, since, secs, link), q)
  {
    hide Pass1;
    NamedGroupWins(s, account, since, secs, link, i, q);
    PassAttributes(s, account, since, secs, link);
    var s' := Pass1(s, account, since, secs, link);
    MembersIn(s.txns, q, s.txns[i].row);
    MembersIn(s'.txns, q, s.txns[i].row);
    assert s'.txns[i].row == s.txns[i].row;
  }

  /** A pass leaves every group that was not open for the account as it was exactly when no
      candidate's order names one of them: the order's rows, opening or closing, join it. */
  lemma FrozenExactlyWhen(s: Ledger, account: AccountId, since: Option<nat>, secs: Securities, link: Linker)
    requires WellKept(s)
    ensures Frozen(s, Pass1(s, account, since, secs, link), account) <==>
            forall i: nat, q: nat :: !NamesFinished(s, account, since, i, q)
  {
    hide Pass1, FullyClosed, EventsOf, IsCandidate, Conserved, Attributed, Healed;
    var s' := Pass1(s, account, since, secs, link);
    PassTheorem(s, account, since, secs, link);
    if Frozen(s, s', account) {
      forall i: nat, q: nat
        ensures !NamesFinished(s, account, since, i, q)
      {
        if NamesFinished(s, account, since, i, q) {
          NamedFinishedGains(s, account, since, secs, link, i, q);
        }
      }
    }
    if forall i: nat, q: nat :: !NamesFinished(s, account, since, i, q) {
      forall q | HasGroup(s, q) && !OpenFor(s, account, q)
        ensures Untouched(s, s', q)
      {
        if q in Named(s, account, since) {
          var i := NamingCandidate(s, account, since, q);
        }
      }
    }
  }
}
