/** Whole reconcile runs, and every history of syncs, order links and runs. */
module Runs {
  import opened Rows
  import opened Ordering
  import opened GroupNet
  import opened Routing
  import opened Books
  import opened Exits
  import opened Membership
  import opened Reconcile
  import opened Attribution
  import opened PassProofs
  import opened RunProofs
  import opened PassTheorems
  import opened Lapse
  import opened LapseProofs
  import opened LapseNets
  import opened Upserts
  import opened Tables

  // One account's run: lapses first, then candidates, then self-heal.
  function Run(s: Ledger, account: AccountId, since: Option<nat>, m: Market, link: Linker): Ledger {
    Pass1(Synthesize(s, account, m, link), account, since, m.secs, link)
  }

  // The groups a run may write to though they are finished: those its candidates' orders name,
  // and those a settlement moved from one group to another leaves or returns to.
  ghost function Reached(s: Ledger, account: AccountId, since: Option<nat>, m: Market): set<nat> {
    Returned(s, account, m) + Named(s, account, since)
  }

  // The groups whose balance a run may shift: those an order names, and those whose settlement
  // is written again.
  ghost function Shifted(s: Ledger, account: AccountId, since: Option<nat>, m: Market): set<nat> {
    Rewritten(s, account, m) + Named(s, account, since)
  }

  // Attributions are write-once; a settlement written again goes to the group its id names.
  ghost predicate WrittenOnce(s: Ledger, s': Ledger) {
    |s.txns| <= |s'.txns|
    && forall i :: 0 <= i < |s.txns| ==>
         s'.txns[i].row.id == s.txns[i].row.id
         && (s.txns[i].group.Some? ==>
               s'.txns[i].group == s.txns[i].group
               || (s.txns[i].row.id.Lapse? && s'.txns[i].group == Some(s.txns[i].row.id.group)))
  }

  // A group is open exactly when its members are not fully closed (terminal statuses up to
  // members whose times tie).
  ghost predicate StatusesAgree(s: Ledger, reached: set<nat> := {}) {
    forall q: nat :: HasGroup(s, q) && q !in reached ==>
      Sound(s, q) && (GroupAt(s, q).status == Open ==> !FullyClosed(LoadRows(s, q)))
  }

  // Groups that are not open are finished: record, members and events stay.
  ghost predicate FinishedStay(s: Ledger, s': Ledger, reached: set<nat> := {}) {
    forall q: nat :: HasGroup(s, q) && GroupAt(s, q).status != Open && q !in reached ==> Untouched(s, s', q)
  }

  // A settlement in the table afterwards is no candidate, so no order of its counts.
  lemma NamedAfter(s: Ledger, account: AccountId, since: Option<nat>, m: Market, link: Linker)
    requires UniqueIds(s.txns)
    ensures Named(Synthesize(s, account, m, link), account, since) <= Named(s, account, since)
  {
    hide Synthesize, Lapses, Settled, UniqueIds, IsCandidate;
    SynthesizeTxns(s, account, m, link);
    var s1 := Synthesize(s, account, m, link);
    forall q | q in Named(s1, account, since)
      ensures q in Named(s, account, since)
    {
      var i :| 0 <= i < |s1.txns| && IsCandidate(s1.txns[i], account, since) && s1.txns[i].orderGroup == Some(q);
      CandidateUngrouped(s1.txns[i], account, since);
      SettledIs(s, account, m, i);
    }
  }

  lemma FrozenBoth(a: Ledger, b: Ledger, c: Ledger, account: AccountId, x: set<nat>, y: set<nat>)
    requires Frozen(a, b, account, x) && Frozen(b, c, account, y) && |a.groups| <= |b.groups|
    ensures Frozen(a, c, account, x + y)
  {
    hide EventsOf, Members;
    forall q: nat | HasGroup(a, q) && !OpenFor(a, account, q) && q !in x + y
      ensures Untouched(a, c, q)
    {
      assert Untouched(a, b, q);
      assert Untouched(b, c, q);
    }
  }

  lemma SoundBoth(a: Ledger, b: Ledger, c: Ledger, x: set<nat>, y: set<nat>)
    requires SoundKept(a, b, x) && SoundKept(b, c, y) && |a.groups| <= |b.groups|
    ensures SoundKept(a, c, x + y)
  {
    SoundThen(a, b, c, x + y, y);
  }

  lemma ConservedBoth(a: Ledger, b: Ledger, c: Ledger, x: set<nat>, y: set<nat>)
    requires Conserved(a, b, x) && Conserved(b, c, y)
    ensures Conserved(a, c, x + y)
  {
    hide Balance;
  }

  // Exempting more groups asks less.
  lemma Exempt(a: Ledger, b: Ledger, account: AccountId, x: set<nat>, y: set<nat>)
    requires x <= y
    ensures Frozen(a, b, account, x) ==> Frozen(a, b, account, y)
    ensures SoundKept(a, b, x) ==> SoundKept(a, b, y)
    ensures Conserved(a, b, x) ==> Conserved(a, b, y)
  {
    hide Balance, Sound;
  }

  // The synthesis moves a settlement only to its own group.
  lemma SynthesisWritesOnce(s: Ledger, account: AccountId, m: Market, link: Linker)
    requires UniqueIds(s.txns)
    ensures WrittenOnce(s, Synthesize(s, account, m, link))
  {
    hide Synthesize, Lapses, Settled, UniqueIds, Preserved;
    SynthesizeTxns(s, account, m, link);
    forall i | 0 <= i < |s.txns|
      ensures i < |Settled(s, account, m)|
      ensures Settled(s, account, m)[i].row.id == s.txns[i].row.id
      ensures Settled(s, account, m)[i].group == s.txns[i].group
           || (s.txns[i].row.id.Lapse? && Settled(s, account, m)[i].group == Some(s.txns[i].row.id.group))
    {
      SettledAt(s, account, m, i);
      SettledOwned(s, account, m, i);
    }
    if s.txns != [] {
      SettledAt(s, account, m, 0);
    }
  }

  lemma AttributedWritesOnce(s: Ledger, s': Ledger, account: AccountId, since: Option<nat>)
    requires UniqueIds(s.txns) && Attributed(s, s', CandidateIds(s, account, since))
    ensures WrittenOnce(s, s')
    ensures forall i :: 0 <= i < |s.txns| && IsCandidate(s.txns[i], account, since) ==> s'.txns[i].group.Some?
  {
    hide IsCandidate, CandidateIds, UniqueIds;
    forall i | 0 <= i < |s.txns|
      ensures s.txns[i].group.Some? ==> s'.txns[i].group == s.txns[i].group
      ensures IsCandidate(s.txns[i], account, since) ==> s'.txns[i].group.Some?
    {
      CandidateId(s, account, since, i);
      if s.txns[i].group.Some? {
        GroupedIsNoCandidate(s.txns[i], account, since);
      }
    }
  }

  lemma GroupedIsNoCandidate(t: Txn, account: AccountId, since: Option<nat>)
    requires t.group.Some?
    ensures !IsCandidate(t, account, since)
  {
  }

  lemma WrittenOnceThen(a: Ledger, b: Ledger, c: Ledger)
    requires WrittenOnce(a, b) && WrittenOnce(b, c)
    ensures WrittenOnce(a, c)
  {
  }

  // A candidate of the run is one after the synthesis, or has its settlement's group.
  lemma CandidateStays(s: Ledger, account: AccountId, since: Option<nat>, m: Market, i: nat)
    requires UniqueIds(s.txns) && i < |s.txns| && IsCandidate(s.txns[i], account, since)
    ensures i < |Settled(s, account, m)|
    ensures IsCandidate(Settled(s, account, m)[i], account, since) || Settled(s, account, m)[i].group.Some?
  {
    hide Lapses, Settled, UniqueIds, IsCandidate;
    SettledAt(s, account, m, i);
    SettledOwned(s, account, m, i);
  }

  /** One run keeps the books. Every candidate ends in a group, no attribution is lost or
      changed, and no open group of the account is left fully closed. For every group it does
      not reach: a group that was not open keeps its record, members and events, and a status
      that was right is right. For every group it does not shift: the events keep their balance
      against the members, and a new group starts balanced. */
  lemma RunTheorem(s: Ledger, account: AccountId, since: Option<nat>, m: Market, link: Linker)
    requires WellKept(s)
    ensures var s' := Run(s, account, since, m, link);
            && WellKept(s') && Healed(s', account) && WrittenOnce(s, s')
            && (forall i :: 0 <= i < |s.txns| && IsCandidate(s.txns[i], account, since) ==> s'.txns[i].group.Some?)
            && Frozen(s, s', account, Reached(s, account, since, m))
            && SoundKept(s, s', Reached(s, account, since, m))
            && Conserved(s, s', Shifted(s, account, since, m))
  {
    hide Synthesize, Lapses, Pass1, Settled, FullyClosed, Balance, Sound, LoadRows, UniqueIds, ValidRefs, Attributed, WrittenOnce,
         IsCandidate, Returned, Rewritten, Named, Healed, CandidateIds, Frozen, SoundKept, Conserved;
    SynthesisTheorem(s, account, m, link);
    var s1, named := Synthesize(s, account, m, link), Named(s, account, since);
    PassTheorem(s1, account, since, m.secs, link);
    NamedAfter(s, account, since, m, link);
    var s' := Run(s, account, since, m, link);
    Exempt(s1, s', account, Named(s1, account, since), named);
    FrozenBoth(s, s1, s', account, Returned(s, account, m), named);
    SoundBoth(s, s1, s', Returned(s, account, m), named);
    ConservedBoth(s, s1, s', Rewritten(s, account, m), named);
    SynthesisWritesOnce(s, account, m, link);
    AttributedWritesOnce(s1, s', account, since);
    WrittenOnceThen(s, s1, s');
    CandidatesGrouped(s, s1, s', account, since, m);
  }

  lemma CandidatesGrouped(s: Ledger, s1: Ledger, s': Ledger, account: AccountId, since: Option<nat>, m: Market)
    requires UniqueIds(s.txns) && s1.txns == Settled(s, account, m) && WrittenOnce(s, s1) && WrittenOnce(s1, s')
    requires forall i :: 0 <= i < |s1.txns| && IsCandidate(s1.txns[i], account, since) ==> s'.txns[i].group.Some?
    ensures |s.txns| <= |s'.txns|
    ensures forall i :: 0 <= i < |s.txns| && IsCandidate(s.txns[i], account, since) ==> s'.txns[i].group.Some?
  {
    hide Lapses, Settled, IsCandidate, UniqueIds;
    forall i | 0 <= i < |s.txns| && IsCandidate(s.txns[i], account, since)
      ensures s'.txns[i].group.Some?
    {
      CandidateStays(s, account, since, m, i);
    }
  }

  predicate ListedVerb(a: Action) {
    a.BuyToOpen? || a.SellToOpen? || a.BuyToClose? || a.SellToClose? || a.Buy? || a.Sell?
  }

  // Activity a run takes up: anything an order is behind, settlements, and what is delivered by
  // one of the six verbs.
  predicate TakenUp(r: Row) {
    || r.orderId.Some?
    || (r.kind.ReceiveDeliver? && (!r.subType.OtherSubType? || ListedVerb(r.action)))
  }

  // Dated on the first day of the run or later, when it has one.
  predicate DatedSince(r: Row, since: Option<nat>) {
    since.None? || (r.at.Some? && r.at.value >= since.value * DAY)
  }

  /** After a run every row of the account from the run's first day on that it takes up has a
      group; and a row it does not take up, or out of its range or account, has none unless it
      had one or is a settlement written again. */
  lemma ActivityIsGrouped(s: Ledger, account: AccountId, since: Option<nat>, m: Market, link: Linker, i: nat)
    requires WellKept(s) && i < |s.txns|
    ensures var r, s' := s.txns[i].row, Run(s, account, since, m, link);
            && i < |s'.txns|
            && (r.account == account && DatedSince(r, since) && TakenUp(r) ==> s'.txns[i].group.Some?)
            && (!(r.account == account && DatedSince(r, since) && TakenUp(r)) && s.txns[i].group.None? && !r.id.Lapse? ==>
                  s'.txns[i].group.None?)
  {
    hide Synthesize, Lapses, Settled, Pass1, CandidateIds, UniqueIds, ValidRefs, WrittenOnce, Frozen, SoundKept, Conserved, Healed;
    RunTheorem(s, account, since, m, link);
    KeptLength(s, Run(s, account, since, m, link));
    SettledAt(s, account, m, i);
    SettledOwned(s, account, m, i);
    SynthesizeTxns(s, account, m, link);
    PassAttributes(Synthesize(s, account, m, link), account, since, m.secs, link);
    CandidateId(Synthesize(s, account, m, link), account, since, i);
    SinceIsRange(s.txns[i].row, since);
    KeptGroup(s, Run(s, account, since, m, link), i);
  }

  lemma KeptLength(s: Ledger, s': Ledger)
    requires WrittenOnce(s, s')
    ensures |s.txns| <= |s'.txns|
  {
  }

  lemma KeptGroup(s: Ledger, s': Ledger, i: nat)
    requires WrittenOnce(s, s') && i < |s.txns|
    ensures i < |s'.txns| && (s.txns[i].group.Some? ==> s'.txns[i].group.Some?)
  {
  }

  lemma SinceIsRange(r: Row, since: Option<nat>)
    ensures DatedSince(r, since) <==> InRange(r.at, since)
  {
  }

  // Without a lapse due nothing is synthesized and nothing is written.
  lemma NoLapseNoWrite(s: Ledger, account: AccountId, m: Market, link: Linker)
    requires Lapses(s, account, m) == []
    ensures Synthesize(s, account, m, link) == s
  {
    NoBuckets(LoadOpen(s, account));
  }

  lemma {:induction false} NoBuckets(groups: seq<MemGroup>)
    ensures LapseBuckets(groups, []) == []
  {
    if groups != [] {
      NoBuckets(groups[..|groups| - 1]);
    }
  }

  /** On any books, a second run with nothing new and no lapse due changes nothing: no group, no
      event, no attribution. */
  lemma RunAgain(s: Ledger, account: AccountId, since: Option<nat>, m: Market, link: Linker)
    requires Lapses(Run(s, account, since, m, link), account, m) == []
    ensures Run(Run(s, account, since, m, link), account, since, m, link) == Run(s, account, since, m, link)
  {
    hide Synthesize, Lapses, Pass1;
    RerunIsNoOp(Synthesize(s, account, m, link), account, since, m.secs, link);
    NoLapseNoWrite(Run(s, account, since, m, link), account, m, link);
  }

  // ------------------------------------------------------------------ accounts of groups

  // Groups never change account, and new ones are the run's.
  ghost predicate AccountsKept(s: Ledger, s': Ledger, account: AccountId) {
    && |s.groups| <= |s'.groups|
    && (forall q: nat :: HasGroup(s, q) ==> GroupAt(s', q).account == GroupAt(s, q).account)
    && (forall q: nat :: HasGroup(s', q) && !HasGroup(s, q) ==> GroupAt(s', q).account == account)
  }

  lemma ExitAccounts(s: Ledger, g: MemGroup, rows: seq<Row>, rolledTo: Option<nat>, delivery: Option<nat>, secs: Securities,
                     account: AccountId)
    ensures AccountsKept(s, ApplyExit(s, g, rows, rolledTo, delivery, secs).ledger, account)
  {
    hide FullyClosed, ExitEvents, GroupRealized, TerminalStatus, Fresh;
  }

  lemma AccountsThen(a: Ledger, b: Ledger, c: Ledger, account: AccountId)
    requires AccountsKept(a, b, account) && AccountsKept(b, c, account)
    ensures AccountsKept(a, c, account)
  {
    forall q: nat | HasGroup(c, q) && !HasGroup(a, q)
      ensures GroupAt(c, q).account == account
    {
      assert HasGroup(b, q) ==> GroupAt(c, q).account == GroupAt(b, q).account;
    }
  }

  lemma {:induction false} BucketsAccounts(st: Pass, groups: seq<MemGroup>, buckets: seq<Bucket>, rest: seq<Row>,
                                           newPk: Option<nat>, secs: Securities, link: Linker, account: AccountId)
    requires BucketsIn(buckets, groups)
    ensures AccountsKept(st.ledger, ApplyBuckets(st, groups, buckets, rest, newPk, secs, link).ledger, account)
  {
    hide ApplyExit;
    if buckets != [] {
      var front, b := buckets[..|buckets| - 1], buckets[|buckets| - 1];
      BucketsAccounts(st, groups, front, rest, newPk, secs, link, account);
      var before := ApplyBuckets(st, groups, front, rest, newPk, secs, link).ledger;
      var rolled, delivery := TargetIf(link.sameUnderlying(b.rows, rest), newPk), TargetIf(link.delivers(b.rows, rest), newPk);
      ExitAccounts(before, groups[b.group], b.rows, rolled, delivery, secs, account);
      AccountsThen(st.ledger, before, ApplyExit(before, groups[b.group], b.rows, rolled, delivery, secs).ledger, account);
    }
  }

  lemma RouteAccounts(st: Pass, account: AccountId, rows: seq<Row>, secs: Securities, link: Linker)
    ensures AccountsKept(st.ledger, RouteRows(st, account, rows, secs, link).ledger, account)
  {
    hide Route, ApplyBuckets, OpenRest, AccountsKept, BucketsIn;
    if rows == [] {
      AccountsSame(st.ledger, account);
    } else {
      RoutedIn(st.open, rows);
      var routed := Route(st.open, rows);
      var newPk := if routed.rest == [] then None else Some(|st.ledger.groups| + 1);
      var withRest := OpenRest(st, account, routed.rest);
      RestAccounts(st, account, routed.rest);
      BucketsAccounts(withRest, st.open, routed.buckets, routed.rest, newPk, secs, link, account);
      AccountsThen(st.ledger, withRest.ledger,
                   ApplyBuckets(withRest, st.open, routed.buckets, routed.rest, newPk, secs, link).ledger, account);
    }
  }

  lemma AccountsSame(s: Ledger, account: AccountId)
    ensures AccountsKept(s, s, account)
  {
  }

  lemma RoutedIn(groups: seq<MemGroup>, rows: seq<Row>)
    ensures BucketsIn(Route(groups, rows).buckets, groups)
  {
    hide Route;
    RoutePartitions(groups, rows);
  }

  lemma RestAccounts(st: Pass, account: AccountId, rest: seq<Row>)
    ensures AccountsKept(st.ledger, OpenRest(st, account, rest).ledger, account)
  {
  }

  lemma IntentAccounts(st: Pass, b: Bucket, secs: Securities, account: AccountId)
    ensures AccountsKept(st.ledger, ApplyIntent(st, b, secs).0.ledger, account)
  {
    hide ApplyExit, Settle, ReplaceGroup, AccountsKept, JoinOpenings;
    var held := WithGroup(st, b.group);
    FindLoaded(st, b.group);
    AccountsSame(st.ledger, account);
    var i := FindGroup(held.open, b.group);
    if i.Some? {
      var opening, closing := Filter(b.rows, IsOpeningRow()), Filter(b.rows, IsClosingRow());
      var (joined, g) := JoinOpenings(held.ledger, held.open[i.value], opening);
      JoinAccounts(held.ledger, held.open[i.value], opening, account);
      ExitAccounts(joined, g, closing, None, None, secs, account);
      AccountsThen(st.ledger, joined, ApplyExit(joined, g, closing, None, None, secs).ledger, account);
    }
  }

  lemma JoinAccounts(s: Ledger, g: MemGroup, rows: seq<Row>, account: AccountId)
    ensures AccountsKept(s, JoinOpenings(s, g, rows).0, account)
  {
    hide FreshGroup, ExtendUnique;
  }

  lemma {:induction false} IntentsAccounts(st: Pass, intents: seq<Bucket>, secs: Securities, account: AccountId)
    ensures AccountsKept(st.ledger, ApplyIntents(st, intents, secs).0.ledger, account)
  {
    hide ApplyIntent, AccountsKept;
    AccountsSame(st.ledger, account);
    if intents != [] {
      var front, b := intents[..|intents| - 1], intents[|intents| - 1];
      IntentsAccounts(st, front, secs, account);
      var before := ApplyIntents(st, front, secs).0;
      IntentAccounts(before, b, secs, account);
      AccountsThen(st.ledger, before.ledger, ApplyIntent(before, b, secs).0.ledger, account);
    }
  }

  lemma {:induction false} ClusterAccounts(st: Pass, account: AccountId, clusters: seq<seq<Txn>>, secs: Securities, link: Linker)
    ensures AccountsKept(st.ledger, ClusterSteps(st, account, clusters, secs, link).ledger, account)
  {
    hide RouteRows, AccountsKept, ApplyIntents;
    AccountsSame(st.ledger, account);
    if clusters != [] {
      var front, last := clusters[..|clusters| - 1], clusters[|clusters| - 1];
      ClusterAccounts(st, account, front, secs, link);
      var before := ClusterSteps(st, account, front, secs, link);
      var (after, back) := ApplyIntents(before, Intents(last), secs);
      var routed := RowsOf(Filter(last, NoIntent())) + back;
      IntentsAccounts(before, Intents(last), secs, account);
      RouteAccounts(after, account, routed, secs, link);
      AccountsThen(before.ledger, after.ledger, RouteRows(after, account, routed, secs, link).ledger, account);
      AccountsThen(st.ledger, before.ledger, RouteRows(after, account, routed, secs, link).ledger, account);
    }
  }

  lemma {:induction false} HealAccounts(s: Ledger, groups: seq<MemGroup>, secs: Securities, account: AccountId)
    ensures AccountsKept(s, HealAll(s, groups, secs), account)
  {
    hide FullyClosed, GroupRealized, TerminalStatus;
    if groups != [] {
      HealAccounts(s, groups[..|groups| - 1], secs, account);
    }
  }

  /** A run changes no group's account, and the groups it creates are its account's. */
  lemma RunAccounts(s: Ledger, account: AccountId, since: Option<nat>, m: Market, link: Linker)
    ensures AccountsKept(s, Run(s, account, since, m, link), account)
  {
    hide Synthesize, ClusterSteps, HealAll, AccountsKept, Pass1;
    var s1 := Synthesize(s, account, m, link);
    SynthesisAccounts(s, account, m, link);
    PassShape(s1, account, since, m.secs, link);
    var s2 := Clustered(s1, account, since, m.secs, link).ledger;
    ClusterAccounts(Pass(s1, LoadOpen(s1, account)), account, ClustersOf(Candidates(s1, account, since)), m.secs, link);
    HealAccounts(s2, LoadOpen(s2, account), m.secs, account);
    AccountsThen(s, s1, s2, account);
    AccountsThen(s, s2, Heal(s2, account, m.secs), account);
  }

  lemma SynthesisAccounts(s: Ledger, account: AccountId, m: Market, link: Linker)
    ensures AccountsKept(s, Synthesize(s, account, m, link), account)
  {
    hide ApplyBuckets, Lapses, LoadOpen;
    var lapses, groups := Lapses(s, account, m), LoadOpen(s, account);
    AllLapses(s, account, m);
    LapseBucketsIn(groups, lapses);
    var s1 := s.(txns := UpsertTxns(s.txns, LapseTxns(lapses, true)));
    BucketsAccounts(Pass(s1, groups), groups, LapseBuckets(groups, lapses), [], None, m.secs, link, account);
  }

  lemma RunStatuses(s: Ledger, s': Ledger, account: AccountId, before: set<nat>, reached: set<nat>)
    requires StatusesAgree(s, before) && SoundKept(s, s', reached) && Frozen(s, s', account, reached) && Healed(s', account)
    requires AccountsKept(s, s', account) && |s.groups| <= |s'.groups|
    ensures StatusesAgree(s', before + reached) && FinishedStay(s, s', reached)
  {
    hide FullyClosed, Sound, LoadRows, EventsOf, Members;
    forall q: nat | HasGroup(s', q) && q !in before + reached
      ensures Sound(s', q) && (GroupAt(s', q).status == Open ==> !FullyClosed(LoadRows(s', q)))
    {
      assert HasGroup(s, q) ==> Sound(s, q);
      if GroupAt(s', q).status == Open {
        if GroupAt(s', q).account == account {
          assert OpenFor(s', account, q);
        } else {
          OtherAccountsGroup(s, s', account, q, reached);
        }
      }
    }
  }

  // A group of another account was there before and has not moved.
  lemma OtherAccountsGroup(s: Ledger, s': Ledger, account: AccountId, q: nat, reached: set<nat>)
    requires Frozen(s, s', account, reached) && q !in reached && HasGroup(s', q) && GroupAt(s', q).account != account
    requires AccountsKept(s, s', account)
    ensures HasGroup(s, q) && GroupAt(s', q) == GroupAt(s, q) && LoadRows(s', q) == LoadRows(s, q)
  {
    hide EventsOf;
    assert HasGroup(s, q);
    assert !OpenFor(s, account, q);
    assert Untouched(s, s', q);
  }

  // ------------------------------------------------------------------------- all histories

  // Transactions are synced, new or again, and carry no group of their own; orders are linked,
  // stamped and relinked; runs happen whenever a caller asks. An order is linked to the rows no
  // group holds yet: in a group the column says nothing more.
  datatype Episode =
    | Synced(rows: seq<Txn>)
    | OrdersLinked(groups: seq<Option<nat>>, orders: seq<Option<nat>>)
    | Reconciled(account: AccountId, since: Option<nat>, market: Market, link: Linker)

  function Linked(t: Txn, group: Option<nat>, order: Option<nat>): Txn {
    t.(orderGroup := group, row := if t.group.None? && t.row.orderId.None? then t.row.(orderId := order) else t.row)
  }

  function Relinked(txns: seq<Txn>, groups: seq<Option<nat>>, orders: seq<Option<nat>>): seq<Txn> {
    seq(|txns|, i requires 0 <= i < |txns| => if i < |groups| && i < |orders| then Linked(txns[i], groups[i], orders[i]) else txns[i])
  }

  function PlayOne(s: Ledger, e: Episode): Ledger {
    match e
    case Synced(rows) => s.(txns := UpsertTxns(s.txns, rows))
    case OrdersLinked(groups, orders) => s.(txns := Relinked(s.txns, groups, orders))
    case Reconciled(account, since, m, link) => Run(s, account, since, m, link)
  }

  function Play(s: Ledger, episodes: seq<Episode>): Ledger {
    if episodes == [] then s else PlayOne(Play(s, episodes[..|episodes| - 1]), episodes[|episodes| - 1])
  }

  // What the source's callers keep to: a synced row names no group.
  predicate Allowed(e: Episode) {
    e.Synced? ==> forall i :: 0 <= i < |e.rows| ==> e.rows[i].group.None?
  }

  predicate Admissible(episodes: seq<Episode>) {
    forall i :: 0 <= i < |episodes| ==> Allowed(episodes[i])
  }

  // The groups whose members a sync rewrites.
  function Resent(s: Ledger, rows: seq<Txn>): set<nat> {
    var after := UpsertTxns(s.txns, rows);
    set i | 0 <= i < |s.txns| && s.txns[i].group.Some? && (i < |after| ==> after[i].row != s.txns[i].row) :: s.txns[i].group.value
  }

  // The groups an episode may touch although they are finished.
  ghost function ReachedBy(s: Ledger, e: Episode): set<nat> {
    match e
    case Synced(rows) => Resent(s, rows)
    case OrdersLinked(_, _) => {}
    case Reconciled(account, since, m, _) => Reached(s, account, since, m)
  }

  // The groups whose balance an episode may shift.
  ghost function ShiftedBy(s: Ledger, e: Episode): set<nat> {
    match e
    case Synced(rows) => Resent(s, rows)
    case OrdersLinked(_, _) => {}
    case Reconciled(account, since, m, _) => Shifted(s, account, since, m)
  }

  ghost function ReachedIn(s: Ledger, episodes: seq<Episode>): set<nat> {
    if episodes == [] then {}
    else ReachedIn(s, episodes[..|episodes| - 1]) + ReachedBy(Play(s, episodes[..|episodes| - 1]), episodes[|episodes| - 1])
  }

  ghost function ShiftedIn(s: Ledger, episodes: seq<Episode>): set<nat> {
    if episodes == [] then {}
    else ShiftedIn(s, episodes[..|episodes| - 1]) + ShiftedBy(Play(s, episodes[..|episodes| - 1]), episodes[|episodes| - 1])
  }

  // A sync keeps every group column, and what it adds has none.
  lemma {:induction false} SyncKeepsGroups(txns: seq<Txn>, rows: seq<Txn>)
    requires forall i :: 0 <= i < |rows| ==> rows[i].group.None?
    ensures var after := UpsertTxns(txns, rows);
            && |txns| <= |after|
            && (forall i :: 0 <= i < |txns| ==> after[i].row.id == txns[i].row.id && after[i].group == txns[i].group)
            && (forall i :: |txns| <= i < |after| ==> after[i].group.None?)
  {
    hide UpsertTxn;
    if rows != [] {
      var before, t := UpsertTxns(txns, rows[..|rows| - 1]), rows[|rows| - 1];
      SyncKeepsGroups(txns, rows[..|rows| - 1]);
      OneSync(before, t);
    }
  }

  lemma OneSync(txns: seq<Txn>, t: Txn)
    requires t.group.None?
    ensures var after := UpsertTxn(txns, t);
            && |txns| <= |after|
            && (forall i :: 0 <= i < |txns| ==> after[i].row.id == txns[i].row.id && after[i].group == txns[i].group)
            && (forall i :: |txns| <= i < |after| ==> after[i].group.None?)
  {
  }

  // A group none of whose members a sync rewrites keeps them.
  lemma SyncMembers(s: Ledger, rows: seq<Txn>, q: nat)
    requires Allowed(Synced(rows)) && q !in Resent(s, rows)
    ensures Members(UpsertTxns(s.txns, rows), q) == Members(s.txns, q)
  {
    hide UpsertTxns;
    SyncKeepsGroups(s.txns, rows);
    var after := UpsertTxns(s.txns, rows);
    var kept, added := after[..|s.txns|], after[|s.txns|..];
    forall i | 0 <= i < |s.txns|
      ensures if s.txns[i].group == Some(q) then kept[i].group == Some(q) && kept[i].row == s.txns[i].row
              else kept[i].group != Some(q)
    {
    }
    SameMembership(s.txns, kept, q);
    NoMembersYet(added, q);
    MembersConcat(kept, added, q);
    assert after == kept + added;
  }

  // An episode that leaves a group's members, record and events leaves all that is said of it.
  lemma SameForGroup(s: Ledger, s': Ledger, q: nat)
    requires s'.groups == s.groups && s'.events == s.events && Members(s'.txns, q) == Members(s.txns, q)
    ensures Untouched(s, s', q) && LoadRows(s', q) == LoadRows(s, q) && Balance(s', q) == Balance(s, q)
    ensures HasGroup(s, q) ==> (Sound(s', q) <==> Sound(s, q))
  {
  }

  lemma SyncKeeps(s: Ledger, rows: seq<Txn>, before: set<nat>)
    requires WellKept(s) && StatusesAgree(s, before) && Allowed(Synced(rows))
    ensures var s' := PlayOne(s, Synced(rows));
            KeptSince(s, s', before + Resent(s, rows), Resent(s, rows), Resent(s, rows))
  {
    hide FullyClosed, LoadRows, Members, Sound, Balance, EventsOf, UpsertTxns, Resent, UniqueIds;
    var s', resent := PlayOne(s, Synced(rows)), Resent(s, rows);
    SyncKeepsGroups(s.txns, rows);
    SyncUnique(s.txns, rows);
    forall q: nat | q !in resent
      ensures Untouched(s, s', q) && LoadRows(s', q) == LoadRows(s, q) && Balance(s', q) == Balance(s, q)
      ensures HasGroup(s, q) ==> (Sound(s', q) <==> Sound(s, q))
    {
      SyncMembers(s, rows, q);
      SameForGroup(s, s', q);
    }
  }

  lemma SyncUnique(txns: seq<Txn>, rows: seq<Txn>)
    requires UniqueIds(txns)
    ensures UniqueIds(UpsertTxns(txns, rows))
  {
    hide UpsertTxns, UniqueIds, UniqueKeys;
    UniqueTxnKeys(txns);
    UpsertsUnique(txns, rows);
    UniqueTxnKeys(UpsertTxns(txns, rows));
  }

  // Linking and stamping orders touches no group.
  lemma RelinkKeeps(s: Ledger, groups: seq<Option<nat>>, orders: seq<Option<nat>>, before: set<nat>)
    requires WellKept(s) && StatusesAgree(s, before)
    ensures KeptSince(s, PlayOne(s, OrdersLinked(groups, orders)), before, {}, {})
  {
    hide FullyClosed, LoadRows, Members, Sound, Balance, EventsOf;
    var s' := PlayOne(s, OrdersLinked(groups, orders));
    forall q: nat
      ensures Untouched(s, s', q) && LoadRows(s', q) == LoadRows(s, q) && Balance(s', q) == Balance(s, q)
      ensures HasGroup(s, q) ==> (Sound(s', q) <==> Sound(s, q))
    {
      SameMembership(s.txns, s'.txns, q);
      SameForGroup(s, s', q);
    }
  }

  ghost predicate KeptSince(s0: Ledger, s: Ledger, wrong: set<nat>, reached: set<nat>, shifted: set<nat>) {
    && WellKept(s) && StatusesAgree(s, wrong) && WrittenOnce(s0, s)
    && FinishedStay(s0, s, reached) && Conserved(s0, s, shifted)
  }

  lemma KeptThen(a: Ledger, b: Ledger, c: Ledger, x: set<nat>, y: set<nat>, u: set<nat>, v: set<nat>)
    requires KeptSince(a, b, x, x, u) && KeptSince(b, c, x + y, y, v)
    ensures KeptSince(a, c, x + y, x + y, u + v)
  {
    hide Members, Balance, EventsOf, StatusesAgree, WellKept, WrittenOnce;
    WrittenOnceThen(a, b, c);
    ConservedBoth(a, b, c, u, v);
    forall q: nat | HasGroup(a, q) && GroupAt(a, q).status != Open && q !in x + y
      ensures Untouched(a, c, q)
    {
      assert Untouched(a, b, q);
      assert Untouched(b, c, q);
    }
  }

  lemma EpisodeKeeps(s: Ledger, e: Episode, before: set<nat>)
    requires WellKept(s) && StatusesAgree(s, before) && Allowed(e)
    ensures KeptSince(s, PlayOne(s, e), before + ReachedBy(s, e), ReachedBy(s, e), ShiftedBy(s, e))
  {
    match e
    case Synced(rows) =>
      SyncKeeps(s, rows, before);
    case OrdersLinked(groups, orders) =>
      RelinkKeeps(s, groups, orders, before);
      assert before + {} == before;
    case Reconciled(account, since, m, link) =>
      RunKeeps(s, account, since, m, link, before);
  }

  lemma RunKeeps(s: Ledger, account: AccountId, since: Option<nat>, m: Market, link: Linker, before: set<nat>)
    requires WellKept(s) && StatusesAgree(s, before)
    ensures KeptSince(s, Run(s, account, since, m, link), before + Reached(s, account, since, m),
                      Reached(s, account, since, m), Shifted(s, account, since, m))
  {
    hide Run, FullyClosed, Sound, LoadRows, Balance, IsCandidate, Reached, Shifted, UniqueIds, ValidRefs, StatusesAgree, Healed,
         Frozen, SoundKept, FinishedStay, WrittenOnce;
    RunTheorem(s, account, since, m, link);
    RunAccounts(s, account, since, m, link);
    RunStatuses(s, Run(s, account, since, m, link), account, before, Reached(s, account, since, m));
  }

  /** Over every history of syncs, order links and runs, for books whose statuses were right.
      No attribution is lost or changed. Every group the history never reached is open exactly
      when its members are not fully closed, and once finished it never changes. Every group the
      history never shifted keeps its event log's balance, and is balanced if it was created on
      the way. */
  lemma {:induction false} EveryHistory(s: Ledger, episodes: seq<Episode>)
    requires WellKept(s) && StatusesAgree(s) && Admissible(episodes)
    ensures KeptSince(s, Play(s, episodes), ReachedIn(s, episodes), ReachedIn(s, episodes), ShiftedIn(s, episodes))
  {
    hide PlayOne, Sound, FullyClosed, LoadRows, Balance, EventsOf, Members, ReachedBy, ShiftedBy, StatusesAgree, Allowed;
    if episodes == [] {
      NothingHappened(s);
    } else {
      var front, e := episodes[..|episodes| - 1], episodes[|episodes| - 1];
      assert Allowed(e) && Admissible(front) by {
        assert forall i :: 0 <= i < |front| ==> front[i] == episodes[i];
      }
      EveryHistory(s, front);
      EpisodeKeeps(Play(s, front), e, ReachedIn(s, front));
      KeptThen(s, Play(s, front), Play(s, episodes), ReachedIn(s, front), ReachedBy(Play(s, front), e),
               ShiftedIn(s, front), ShiftedBy(Play(s, front), e));
    }
  }

  lemma NothingHappened(s: Ledger)
    requires WellKept(s) && StatusesAgree(s)
    ensures KeptSince(s, s, {}, {}, {})
  {
    hide Balance, EventsOf, Sound, FullyClosed;
  }
}
