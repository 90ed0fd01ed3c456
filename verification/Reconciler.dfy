/** The reconciler itself: methods over the store and the open groups it holds in memory, each
    proved to write exactly what its specification (modules Exits, Reconcile, Lapse) says. */
module Reconciler {
  import opened Rows
  import opened Ordering
  import opened GroupNet
  import opened Routing
  import opened Books
  import opened Exits
  import opened Reconcile
  import opened Tables
  import opened Store

  /** An open trade group and its member rows. */
  class OpenGroup {
    const pk: nat
    var rows: seq<Row>

    constructor (pk: nat, rows: seq<Row>)
      ensures View() == MemGroup(pk, rows)
    {
      this.pk, this.rows := pk, rows;
    }

    function View(): MemGroup
      reads this
    {
      MemGroup(pk, rows)
    }

    /** Add rows as members, skipping any transaction already held. */
    method ExtendUnique(more: seq<Row>)
      modifies this
      ensures View() == Books.ExtendUnique(old(View()), more)
    {
      var known := Ids(rows);
      rows := rows + Filter(more, NotAmong(known));
    }
  }

  function Views(groups: seq<OpenGroup>): seq<MemGroup>
    reads groups
  {
    seq(|groups|, i requires 0 <= i < |groups| reads groups => groups[i].View())
  }

  datatype Applied = Applied(rows: seq<Row>, fullyClosed: bool, rolled: bool, closedAt: Option<Time>)

  lemma {:induction false} FilterAgain(rows: seq<Row>, p: Row -> bool)
    ensures Filter(Filter(rows, p), p) == Filter(rows, p)
  {
    if rows != [] && p(rows[|rows| - 1]) {
      FilterAgain(rows[..|rows| - 1], p);
      FilterAppend(Filter(rows[..|rows| - 1], p), rows[|rows| - 1], p);
    } else if rows != [] {
      FilterAgain(rows[..|rows| - 1], p);
    }
  }

  /** Emits one settlement event per kind, in order of first appearance. */
  method EmitSettlements(store: InMemoryStore, pk: nat, rows: seq<Row>, at: Option<Time>, delivery: Option<nat>)
    requires store.Valid()
    modifies store.events
    ensures store.Valid()
    ensures store.Value() == AddEvents(old(store.Value()), SettlementEvents(pk, rows, SettlementKinds(rows), at, delivery))
  {
    hide Table.Contents, Table.Valid, SettlementEventOf, SettlementKinds;
    var kinds := SettlementKinds(rows);
    ghost var was := store.Value();
    assert was.events + [] == was.events;
    for i := 0 to |kinds|
      invariant store.Valid()
      invariant store.Value() == AddEvents(was, SettlementEvents(pk, rows, kinds[..i], at, delivery))
    {
      assert kinds[..i + 1][..i] == kinds[..i];
      ghost var before := SettlementEvents(pk, rows, kinds[..i], at, delivery);
      var e := SettlementEventOf(pk, rows, kinds[i], at, delivery);
      store.AddTradeGroupEvent(e);
      assert (was.events + before) + [e] == was.events + (before + [e]);
    }
    assert kinds[..|kinds|] == kinds;
  }

  method EmitExit(store: InMemoryStore, pk: nat, rows: seq<Row>, fully: bool, rolledTo: Option<nat>, delivery: Option<nat>)
    requires store.Valid()
    modifies store.events
    ensures store.Valid()
    ensures store.Value() == AddEvents(old(store.Value()), ExitEvents(pk, rows, fully, rolledTo, delivery))
  {
    hide Table.Contents, Table.Valid, SettlementEvents, SettlementKinds;
    var at, trades := LatestAt(rows), Filter(rows, IsTradeExit());
    ghost var was := store.Value().events;
    ghost var first := if trades != [] then [TradeExitEvent(pk, trades, fully, at)] else [];
    ghost var middle := SettlementEvents(pk, rows, SettlementKinds(rows), at, delivery);
    if trades != [] {
      store.AddTradeGroupEvent(TradeExitEvent(pk, trades, fully, at));
    }
    assert store.Value().events == was + first;
    EmitSettlements(store, pk, rows, at, delivery);
    assert store.Value().events == was + first + middle;
    if rolledTo.Some? {
      store.AddTradeGroupEvent(Event(pk, Roll, 0.0, 0.0, at, rolledTo));
    }
    assert store.Value().events == was + ExitEvents(pk, rows, fully, rolledTo, delivery);
  }

  /** Attach closing rows to their open group, emit its events, and flip its status once it is
      fully offset. */
  method ApplyExit(store: InMemoryStore, group: OpenGroup, rows: seq<Row>, rolledTo: Option<nat>, delivery: Option<nat>,
                   secs: Securities) returns (applied: Applied)
    requires store.Valid()
    modifies store.Repr(), group
    ensures store.Valid()
    ensures var e := Exits.ApplyExit(old(store.Value()), old(group.View()), rows, rolledTo, delivery, secs);
            && store.Value() == e.ledger && group.View() == e.group
            && applied.rows == e.rows && applied.fullyClosed == e.fullyClosed
            && (applied.rows != [] ==> applied.closedAt == LatestAt(e.rows) && applied.rolled == rolledTo.Some?)
  {
    hide Table.Contents, Table.Valid, ExitEvents, FullyClosed, GroupRealized, AttachAll, TerminalStatus;
    ghost var g, s := group.View(), store.Value();
    var _ := store.AttachTransactions(Ids(rows), group.pk);
    var already := Ids(group.rows);
    var added := Filter(rows, NotAmong(already));
    assert added == Fresh(g, rows);
    if added == [] {
      var tg := store.GetTradeGroupById(group.pk);
      return Applied([], FullyClosed(group.rows), false, if tg.Some? then tg.value.closedAt else None);
    }
    FilterAgain(rows, NotAmong(already));
    group.ExtendUnique(added);
    var fully := FullyClosed(group.rows);
    var at := LatestAt(added);
    EmitExit(store, group.pk, added, fully, rolledTo, delivery);
    if fully {
      var tg := store.GetTradeGroupById(group.pk);
      if tg.Some? {
        var _ := store.UpsertTradeGroup(ClosedGroup(tg.value, group.rows, at, secs));
      }
    }
    return Applied(added, fully, rolledTo.Some?, at);
  }

  method CreateTradeGroup(store: InMemoryStore, account: AccountId, rows: seq<Row>) returns (pk: nat)
    requires store.Valid()
    modifies store.Repr()
    ensures store.Valid() && pk == |old(store.Value().groups)| + 1
    ensures store.Value() == CreateGroup(old(store.Value()), account, rows)
  {
    hide Table.Contents, Table.Valid, FreshGroup, AttachAll;
    var name := |store.groups.Contents()| + 1;
    var g := FreshGroup(name, account, rows);
    FreshGroupName(name, account, rows);
    pk := store.UpsertTradeGroup(g);
    var _ := store.AttachTransactions(Ids(rows), pk);
    store.AddTradeGroupEvent(Event(pk, Entry, g.quantity.GetOr(0.0), g.premium, g.executedAt, None));
  }

  lemma FreshGroupName(name: nat, account: AccountId, rows: seq<Row>)
    ensures FreshGroup(name, account, rows).name == name
  {
  }

  /** The account's open groups, freshly loaded. */
  method LoadOpenGroups(store: InMemoryStore, account: AccountId) returns (groups: seq<OpenGroup>)
    requires store.Valid()
    ensures Views(groups) == LoadOpen(store.Value(), account)
    ensures forall i :: 0 <= i < |groups| ==> fresh(groups[i])
    ensures forall i, j :: 0 <= i < j < |groups| ==> groups[i] != groups[j]
  {
    hide Table.Contents, Table.Valid, LoadRows;
    groups := [];
    var n := |store.groups.Contents()|;
    for pk := 1 to n + 1
      invariant Views(groups) == LoadOpenUpTo(store.Value(), account, pk - 1)
      invariant forall i :: 0 <= i < |groups| ==> fresh(groups[i])
      invariant forall i, j :: 0 <= i < j < |groups| ==> groups[i] != groups[j]
    {
      ghost var before := Views(groups);
      var tg := store.GetTradeGroupById(pk);
      if tg.Some? && tg.value.account == account && tg.value.status == Open {
        var rows := store.GetGroupTransactions(pk);
        var g := new OpenGroup(pk, rows);
        groups := groups + [g];
        assert Views(groups) == before + [MemGroup(pk, rows)];
      }
    }
  }

  method HealGroup(store: InMemoryStore, group: OpenGroup, secs: Securities) returns (heals: bool)
    requires store.Valid()
    modifies store.groups, store.events
    ensures store.Valid() && store.Value() == HealOne(old(store.Value()), group.View(), secs)
    ensures heals == FullyClosed(group.rows)
  {
    hide Table.Contents, Table.Valid, FullyClosed, ClosedGroup;
    heals := FullyClosed(group.rows);
    if !heals {
      return;
    }
    var at := LatestAt(group.rows);
    var tg := store.GetTradeGroupById(group.pk);
    if tg.None? {
      return;
    }
    ClosedGroupName(tg.value, group.rows, at, secs);
    var _ := store.UpsertTradeGroup(ClosedGroup(tg.value, group.rows, at, secs));
    store.AddTradeGroupEvent(Event(group.pk, Adjustment, 0.0, 0.0, at, None));
  }

  /** Flip the status of open groups whose content is already fully closed. */
  method HealFullyClosedGroups(store: InMemoryStore, account: AccountId, secs: Securities) returns (healed: nat)
    requires store.Valid()
    modifies store.groups, store.events
    ensures store.Valid() && store.Value() == Heal(old(store.Value()), account, secs)
    ensures healed == |Filter(LoadOpen(old(store.Value()), account), IsHealable())|
  {
    hide Table.Contents, Table.Valid, FullyClosed, HealOne, LoadOpenUpTo, InMemoryStore.Value, InMemoryStore.Valid;
    healed := 0;
    var groups := LoadOpenGroups(store, account);
    ghost var s, views := store.Value(), Views(groups);
    for i := 0 to |groups|
      invariant store.Valid() && Views(groups) == views
      invariant store.Value() == HealAll(s, views[..i], secs)
      invariant healed == |Filter(views[..i], IsHealable())|
    {
      assert views[..i + 1][..i] == views[..i];
      assert views[i] == groups[i].View();
      var heals := HealGroup(store, groups[i], secs);
      if heals {
        healed := healed + 1;
      }
    }
    assert views[..|groups|] == views;
  }

  lemma ClosedGroupName(g: Group, rows: seq<Row>, at: Option<Time>, secs: Securities)
    ensures ClosedGroup(g, rows, at, secs).name == g.name
  {
  }

  function IsHealable(): MemGroup -> bool {
    (g: MemGroup) => FullyClosed(g.rows)
  }

  // ------------------------------------------------------------------- the in-memory list

  // No group twice, and only groups that exist.
  predicate OpenList(groups: seq<OpenGroup>, n: nat) {
    && (forall i :: 0 <= i < |groups| ==> 1 <= groups[i].pk <= n)
    && (forall i, j :: 0 <= i < j < |groups| ==> groups[i].pk != groups[j].pk)
  }

  predicate Within(groups: seq<OpenGroup>, all: seq<OpenGroup>) {
    forall i :: 0 <= i < |groups| ==> groups[i] in all
  }

  function Without(groups: seq<OpenGroup>, pk: nat): seq<OpenGroup> {
    if groups == [] then []
    else
      var last := groups[|groups| - 1];
      if last.pk != pk then Without(groups[..|groups| - 1], pk) + [last] else Without(groups[..|groups| - 1], pk)
  }

  lemma {:induction false} WithoutViews(groups: seq<OpenGroup>, pk: nat)
    ensures Views(Without(groups, pk)) == RemoveGroup(Views(groups), pk)
  {
    if groups != [] {
      WithoutViews(groups[..|groups| - 1], pk);
      assert Views(groups)[..|groups| - 1] == Views(groups[..|groups| - 1]);
    }
  }

  lemma {:induction false} WithoutWithin(groups: seq<OpenGroup>, pk: nat)
    ensures Within(Without(groups, pk), groups)
  {
    if groups != [] {
      var front := groups[..|groups| - 1];
      WithoutWithin(front, pk);
      assert groups == front + [groups[|groups| - 1]];
    }
  }

  lemma {:induction false} WithoutKeeps(groups: seq<OpenGroup>, pk: nat, n: nat)
    requires OpenList(groups, n)
    ensures OpenList(Without(groups, pk), n) && Within(Without(groups, pk), groups)
  {
    WithoutWithin(groups, pk);
    if groups != [] {
      var front := groups[..|groups| - 1];
      WithoutKeeps(front, pk, n);
      LastStaysNew(groups, Without(front, pk), n);
    }
  }

  lemma LastStaysNew(groups: seq<OpenGroup>, kept: seq<OpenGroup>, n: nat)
    requires groups != [] && OpenList(groups, n) && Within(kept, groups[..|groups| - 1])
    ensures forall i :: 0 <= i < |kept| ==> kept[i].pk != groups[|groups| - 1].pk
  {
    forall i | 0 <= i < |kept|
      ensures kept[i].pk != groups[|groups| - 1].pk
    {
      assert kept[i] in groups[..|groups| - 1];
    }
  }

  lemma WithinSelf(groups: seq<OpenGroup>)
    ensures Within(groups, groups)
  {
  }

  // When only the group object g has changed since, the list of values has one replaced.
  lemma ReplacedViews(groups: seq<OpenGroup>, g: OpenGroup, was: seq<MemGroup>)
    requires |was| == |groups|
    requires forall i :: 0 <= i < |groups| ==> groups[i].pk == was[i].pk
    requires forall i :: 0 <= i < |groups| && groups[i].pk == g.pk ==> groups[i] == g
    requires forall i :: 0 <= i < |groups| && groups[i] != g ==> groups[i].View() == was[i]
    ensures Views(groups) == ReplaceGroup(was, g.View())
  {
  }

  lemma OnlyOne(all: seq<OpenGroup>, groups: seq<OpenGroup>, g: OpenGroup, n: nat)
    requires OpenList(all, n) && Within(groups, all) && g in all
    ensures forall i :: 0 <= i < |groups| && groups[i].pk == g.pk ==> groups[i] == g
  {
  }

  /** Applies one exit and settles the group: out of the list once it is fully closed. */
  method ExitAndSettle(store: InMemoryStore, open: seq<OpenGroup>, group: OpenGroup, rows: seq<Row>, rolledTo: Option<nat>,
                       delivery: Option<nat>, secs: Securities) returns (open': seq<OpenGroup>)
    requires store.Valid() && OpenList(open, |store.Value().groups|)
    requires forall i :: 0 <= i < |open| && open[i].pk == group.pk ==> open[i] == group
    modifies store.Repr(), group
    ensures store.Valid() && |store.Value().groups| == |old(store.Value().groups)|
    ensures var e := Exits.ApplyExit(old(store.Value()), old(group.View()), rows, rolledTo, delivery, secs);
            && store.Value() == e.ledger && group.View() == e.group
            && Views(open') == Settle(old(Views(open)), e)
    ensures OpenList(open', |store.Value().groups|) && Within(open', open)
  {
    hide Table.Contents, Table.Valid, Exits.ApplyExit, ReplaceGroup, RemoveGroup, Without, OpenList, Within, Settle,
      InMemoryStore.Value, InMemoryStore.Valid;
    ghost var n, g, was := |store.Value().groups|, group.View(), Views(open);
    ghost var e := Exits.ApplyExit(store.Value(), g, rows, rolledTo, delivery, secs);
    ExitGroups(store.Value(), g, rows, rolledTo, delivery, secs);
    var applied := ApplyExit(store, group, rows, rolledTo, delivery, secs);
    ReplacedViews(open, group, was);
    WithinSelf(open);
    SettleCases(was, e);
    if !applied.fullyClosed {
      return open;
    }
    WithoutViews(open, group.pk);
    WithoutKeeps(open, group.pk, n);
    return Without(open, group.pk);
  }

  // Settling a closed group removes it whether or not its rows were replaced first.
  lemma SettleCases(open: seq<MemGroup>, e: Exit)
    ensures e.fullyClosed ==> Settle(open, e) == RemoveGroup(ReplaceGroup(open, e.group), e.group.pk)
    ensures !e.fullyClosed ==> Settle(open, e) == ReplaceGroup(open, e.group)
  {
    RemoveReplaced(open, e.group);
  }

  /** Applies a cluster's buckets to the groups they were routed to. */
  method ApplyRouted(store: InMemoryStore, openGroups: seq<OpenGroup>, groups: seq<OpenGroup>, buckets: seq<Bucket>,
                     rest: seq<Row>, newPk: Option<nat>, secs: Securities, link: Linker)
    returns (open: seq<OpenGroup>)
    requires store.Valid() && ValidBuckets(buckets, |groups|)
    requires OpenList(openGroups, |store.Value().groups|) && Within(groups, openGroups) && OpenList(groups, |store.Value().groups|)
    modifies store.Repr(), groups
    ensures store.Valid() && |store.Value().groups| == |old(store.Value().groups)|
    ensures BucketsIn(buckets, old(Views(groups)))
    ensures Pass(store.Value(), Views(open))
         == ApplyBuckets(Pass(old(store.Value()), old(Views(openGroups))), old(Views(groups)), buckets, rest, newPk, secs, link)
    ensures OpenList(open, |store.Value().groups|) && Within(open, openGroups)
  {
    hide Table.Contents, Table.Valid, Exits.ApplyExit, Settle, Draws, InMemoryStore.Value, InMemoryStore.Valid;
    open := openGroups;
    ghost var views, start, n := Views(groups), Pass(store.Value(), Views(openGroups)), |store.Value().groups|;
    for k := 0 to |buckets|
      invariant store.Valid() && |store.Value().groups| == n
      invariant BucketsIn(buckets[..k], views)
      invariant Pass(store.Value(), Views(open)) == ApplyBuckets(start, views, buckets[..k], rest, newPk, secs, link)
      invariant OpenList(open, n) && Within(open, openGroups)
      invariant forall j :: k <= j < |buckets| ==> groups[buckets[j].group].View() == views[buckets[j].group]
    {
      assert buckets[..k + 1][..k] == buckets[..k];
      var b := buckets[k];
      var group := groups[b.group];
      OnlyOne(openGroups, open, group, n);
      open := ExitAndSettle(store, open, group, b.rows, TargetIf(link.sameUnderlying(b.rows, rest), newPk),
                            TargetIf(link.delivers(b.rows, rest), newPk), secs);
    }
    assert buckets[..|buckets|] == buckets;
  }

  lemma ExitGroups(s: Ledger, g: MemGroup, rows: seq<Row>, rolledTo: Option<nat>, delivery: Option<nat>, secs: Securities)
    ensures |Exits.ApplyExit(s, g, rows, rolledTo, delivery, secs).ledger.groups| == |s.groups|
    ensures Exits.ApplyExit(s, g, rows, rolledTo, delivery, secs).group.pk == g.pk
  {
    hide ExitEvents, FullyClosed, ClosedGroup;
  }

  lemma {:induction false} RemoveReplaced(open: seq<MemGroup>, g: MemGroup)
    ensures RemoveGroup(ReplaceGroup(open, g), g.pk) == RemoveGroup(open, g.pk)
  {
    if open != [] {
      var n := |open| - 1;
      RemoveReplaced(open[..n], g);
      assert ReplaceGroup(open, g)[..n] == ReplaceGroup(open[..n], g);
    }
  }

  // ------------------------------------------------------------------ pre-attributed orders

  method GroupForPk(store: InMemoryStore, open: seq<OpenGroup>, pk: nat) returns (open': seq<OpenGroup>, group: OpenGroup?)
    requires store.Valid() && OpenList(open, |store.Value().groups|)
    ensures Pass(store.Value(), Views(open')) == WithGroup(Pass(store.Value(), Views(open)), pk)
    ensures OpenList(open', |store.Value().groups|)
    ensures |open| <= |open'| && open'[..|open|] == open
    ensures forall i :: |open| <= i < |open'| ==> fresh(open'[i])
    ensures group == null ==> FindGroup(Views(open'), pk).None?
    ensures group != null ==>
              && group in open' && group.pk == pk && FindGroup(Views(open'), pk).Some?
              && Views(open')[FindGroup(Views(open'), pk).value] == group.View()
  {
    hide Table.Contents, Table.Valid, LoadRows, FindGroup;
    open' := open;
    for i := 0 to |open|
      invariant forall j :: 0 <= j < i ==> open[j].pk != pk
    {
      if open[i].pk == pk {
        FoundAt(Views(open), pk, i);
        return open, open[i];
      }
    }
    var tg := store.GetTradeGroupById(pk);
    NotFound(Views(open), pk);
    if tg.None? {
      return open, null;
    }
    var rows := store.GetGroupTransactions(pk);
    group := new OpenGroup(pk, rows);
    open' := open + [group];
    assert Views(open') == Views(open) + [MemGroup(pk, rows)];
    FoundAt(Views(open'), pk, |open|);
  }

  lemma FoundAt(open: seq<MemGroup>, pk: nat, i: nat)
    requires i < |open| && open[i].pk == pk && forall j :: 0 <= j < |open| && j != i ==> open[j].pk != pk
    ensures FindGroup(open, pk) == Some(i)
  {
  }

  lemma NotFound(open: seq<MemGroup>, pk: nat)
    requires forall i :: 0 <= i < |open| ==> open[i].pk != pk
    ensures FindGroup(open, pk).None?
  {
  }

  /** Opening fills of a pre-attributed order join its group and refresh its figures. */
  method JoinGroup(store: InMemoryStore, group: OpenGroup, rows: seq<Row>)
    requires store.Valid()
    modifies store.Repr(), group
    ensures store.Valid()
    ensures (store.Value(), group.View()) == JoinOpenings(old(store.Value()), old(group.View()), rows)
  {
    hide Table.Contents, Table.Valid, Refreshed, AttachAll;
    if rows == [] {
      return;
    }
    var _ := store.AttachTransactions(Ids(rows), group.pk);
    group.ExtendUnique(rows);
    var tg := store.GetTradeGroupById(group.pk);
    if tg.Some? {
      RefreshedName(tg.value, group.rows);
      var _ := store.UpsertTradeGroup(Refreshed(tg.value, group.rows));
    }
  }

  lemma RefreshedName(g: Group, rows: seq<Row>)
    ensures Refreshed(g, rows).name == g.name
  {
  }

  lemma JoinGroups(s: Ledger, g: MemGroup, rows: seq<Row>)
    ensures |JoinOpenings(s, g, rows).0.groups| == |s.groups| && JoinOpenings(s, g, rows).1.pk == g.pk
  {
    hide Refreshed, AttachAll;
  }

  lemma AllInSelf(open: seq<OpenGroup>, g: OpenGroup, n: nat)
    requires OpenList(open, n) && g in open
    ensures forall i :: 0 <= i < |open| && open[i].pk == g.pk ==> open[i] == g
  {
  }

  /** Rows whose order names one group: openings join it, closes go through its exit. */
  method ApplyIntentGroup(store: InMemoryStore, open: seq<OpenGroup>, b: Bucket, secs: Securities)
    returns (open': seq<OpenGroup>, back: seq<Row>)
    requires store.Valid() && OpenList(open, |store.Value().groups|)
    modifies store.Repr(), open
    ensures store.Valid() && |store.Value().groups| == |old(store.Value().groups)|
    ensures (Pass(store.Value(), Views(open')), back) == ApplyIntent(old(Pass(store.Value(), Views(open))), b, secs)
    ensures OpenList(open', |store.Value().groups|)
    ensures forall i :: 0 <= i < |open'| ==> open'[i] in open || fresh(open'[i])
  {
    hide Table.Contents, Table.Valid, Exits.ApplyExit, JoinOpenings, Settle, ReplaceGroup, FindGroup, WithGroup, OpenList,
      InMemoryStore.Value, InMemoryStore.Valid;
    var held, group := GroupForPk(store, open, b.group);
    if group == null {
      return held, b.rows;
    }
    ghost var n, was := |store.Value().groups|, Views(held);
    AllInSelf(held, group, n);
    JoinGroups(store.Value(), group.View(), Filter(b.rows, IsOpeningRow()));
    JoinGroup(store, group, Filter(b.rows, IsOpeningRow()));
    ReplacedViews(held, group, was);
    var closing := Filter(b.rows, IsClosingRow());
    if closing == [] {
      return held, [];
    }
    open' := ExitAndSettle(store, held, group, closing, None, None, secs);
    back := [];
  }

  /** Rows by the group their order was pre-attributed to, and the rows without one. */
  method SplitIntents(cluster: seq<Txn>) returns (intents: seq<Bucket>, remaining: seq<Row>)
    ensures intents == Intents(cluster) && remaining == RowsOf(Filter(cluster, NoIntent()))
  {
    intents, remaining := [], [];
    for i := 0 to |cluster|
      invariant intents == Intents(cluster[..i]) && remaining == RowsOf(Filter(cluster[..i], NoIntent()))
    {
      assert cluster[..i + 1][..i] == cluster[..i];
      var t := cluster[i];
      if t.orderGroup.Some? {
        intents := AddTo(intents, t.orderGroup.value, t.row);
      } else {
        remaining := remaining + [t.row];
      }
    }
    assert cluster[..|cluster|] == cluster;
  }

  /** Routes pre-attributed rows; returns the rows left for the heuristics. */
  method ApplyIntentRows(store: InMemoryStore, open: seq<OpenGroup>, cluster: seq<Txn>, secs: Securities)
    returns (open': seq<OpenGroup>, remaining: seq<Row>)
    requires store.Valid() && OpenList(open, |store.Value().groups|)
    modifies store.Repr(), open
    ensures store.Valid() && |store.Value().groups| == |old(store.Value().groups)|
    ensures Pass(store.Value(), Views(open')) == ApplyIntents(old(Pass(store.Value(), Views(open))), Intents(cluster), secs).0
    ensures remaining == RowsOf(Filter(cluster, NoIntent()))
                         + ApplyIntents(old(Pass(store.Value(), Views(open))), Intents(cluster), secs).1
    ensures OpenList(open', |store.Value().groups|)
    ensures forall i :: 0 <= i < |open'| ==> open'[i] in open || fresh(open'[i])
  {
    hide Table.Contents, Table.Valid, ApplyIntent, InMemoryStore.Value, InMemoryStore.Valid, OpenList, Intents, RowsOf, Filter;
    ghost var start, n := Pass(store.Value(), Views(open)), |store.Value().groups|;
    var intents, mine := SplitIntents(cluster);
    var back := [];
    open' := open;
    for k := 0 to |intents|
      invariant store.Valid() && |store.Value().groups| == n
      invariant (Pass(store.Value(), Views(open')), back) == ApplyIntents(start, intents[..k], secs)
      invariant OpenList(open', n)
      invariant forall i :: 0 <= i < |open'| ==> open'[i] in open || fresh(open'[i])
    {
      assert intents[..k + 1][..k] == intents[..k];
      var more;
      open', more := ApplyIntentGroup(store, open', intents[k], secs);
      back := back + more;
    }
    assert intents[..|intents|] == intents;
    remaining := mine + back;
  }

  // -------------------------------------------------------------------------- routed rows

  /** Routes a cluster's remaining rows: a group for the rest, exits for the buckets. */
  method RouteAndApply(store: InMemoryStore, account: AccountId, open: seq<OpenGroup>, rows: seq<Row>, secs: Securities,
                       link: Linker) returns (open': seq<OpenGroup>)
    requires store.Valid() && OpenList(open, |store.Value().groups|)
    modifies store.Repr(), open
    ensures store.Valid()
    ensures Pass(store.Value(), Views(open')) == RouteRows(old(Pass(store.Value(), Views(open))), account, rows, secs, link)
    ensures OpenList(open', |store.Value().groups|)
    ensures forall i :: 0 <= i < |open'| ==> open'[i] in open || fresh(open'[i])
  {
    hide Table.Contents, Table.Valid, InMemoryStore.Value, InMemoryStore.Valid, Exits.CreateGroup, Route, ApplyBuckets;
    open' := open;
    if rows == [] {
      return;
    }
    RoutePartitions(Views(open), rows);
    var buckets, rest := RouteCluster(Views(open), rows);
    ghost var before := Views(open);
    var newPk := None;
    if rest != [] {
      var pk := CreateTradeGroup(store, account, rest);
      CreatedGroups(old(store.Value()), account, rest);
      var created := new OpenGroup(pk, rest);
      newPk, open' := Some(pk), open + [created];
      assert Views(open') == before + [MemGroup(pk, rest)];
    }
    assert Views(open) == before;
    open' := ApplyRouted(store, open', open, buckets, rest, newPk, secs, link);
  }

  lemma CreatedGroups(s: Ledger, account: AccountId, rows: seq<Row>)
    ensures |Exits.CreateGroup(s, account, rows).groups| == |s.groups| + 1
  {
    hide FreshGroup, AttachAll;
  }

  /** One cluster: intent rows first, the rest through the router. */
  method ReconcileCluster(store: InMemoryStore, account: AccountId, open: seq<OpenGroup>, cluster: seq<Txn>, secs: Securities,
                          link: Linker) returns (open': seq<OpenGroup>)
    requires store.Valid() && OpenList(open, |store.Value().groups|)
    modifies store.Repr(), open
    ensures store.Valid()
    ensures Pass(store.Value(), Views(open')) == ClusterStep(old(Pass(store.Value(), Views(open))), account, cluster, secs, link)
    ensures OpenList(open', |store.Value().groups|)
    ensures forall i :: 0 <= i < |open'| ==> open'[i] in open || fresh(open'[i])
  {
    hide Table.Contents, Table.Valid, InMemoryStore.Value, InMemoryStore.Valid, ApplyIntents, RouteRows, OpenList;
    var held, rows := ApplyIntentRows(store, open, cluster, secs);
    open' := RouteAndApply(store, account, held, rows, secs, link);
  }
}
