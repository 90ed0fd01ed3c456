/** The operator's regroup: transactions moved between groups by hand, and every affected group
    recomputed from what it then holds. */
module Regroup {
  import opened Rows
  import opened Ordering
  import opened GroupNet
  import opened Routing
  import opened Books
  import opened Exits
  import opened PassProofs
  import opened Tables
  import opened Store

  // ------------------------------------------------------------------------ the recompute

  function OfAccount(account: AccountId): Row -> bool {
    (r: Row) => r.account == account
  }

  // The rows a group is recomputed from: its members on its own account, in table order.
  function Cluster(txns: seq<Txn>, pk: nat, account: AccountId): seq<Row> {
    Filter(Members(txns, pk), OfAccount(account))
  }

  // Fields derivable from the rows replace what was there, sparse or not.
  function Derived(g: Group, rows: seq<Row>): Group {
    var f := FreshGroup(g.name, g.account, rows);
    g.(premium := f.premium, fees := f.fees, quantity := f.quantity, legCount := f.legCount, security := f.security,
       executedAt := f.executedAt)
  }

  // An emptied group gives up its realized profit; a completed one is settled; any other keeps
  // its status.
  function Recomputed(g: Group, rows: seq<Row>, secs: Securities): Group {
    if rows == [] then Derived(g, rows).(realized := None)
    else if FullyClosed(rows) then ClosedGroup(Derived(g, rows), rows, LatestAt(rows), secs)
    else Derived(g, rows)
  }

  function RecomputeOne(s: Ledger, pk: nat, secs: Securities, at: Time): Ledger {
    if !HasGroup(s, pk) then s
    else
      AddEvents(SetGroup(s, pk, Recomputed(GroupAt(s, pk), Cluster(s.txns, pk, GroupAt(s, pk).account), secs)),
                [Event(pk, Adjustment, 0.0, 0.0, Some(at), None)])
  }

  function RecomputeEach(s: Ledger, affected: seq<nat>, secs: Securities, at: Time): Ledger {
    if affected == [] then s else RecomputeOne(RecomputeEach(s, affected[..|affected| - 1], secs, at), affected[|affected| - 1], secs, at)
  }

  // --------------------------------------------------------------------------- the regroup

  function MoveAll(txns: seq<Txn>, ids: set<nat>, pk: nat): seq<Txn> {
    seq(|txns|, i requires 0 <= i < |txns| => MovedTxn(txns[i], i + 1, ids, Some(pk)))
  }

  // The groups the listed transactions leave.
  function Sources(txns: seq<Txn>, ids: set<nat>): set<nat> {
    set i | 0 <= i < |txns| && i + 1 in ids && txns[i].group.Some? :: txns[i].group.value
  }

  // The first listed transaction names the account of a new group.
  function FirstListed(txns: seq<Txn>, ids: set<nat>): Option<Txn> {
    if txns == [] then None
    else if FirstListed(txns[..|txns| - 1], ids).Some? then FirstListed(txns[..|txns| - 1], ids)
    else if |txns| in ids then Some(txns[|txns| - 1])
    else None
  }

  function EmptyGroup(pk: nat, account: AccountId): Group {
    Group(pk, account, Open, None, 1, 0.0, None, 0.0, None, None, None)
  }

  datatype Outcome = Done(ledger: Ledger) | TargetNotFound

  function TargetOf(s: Ledger, target: Option<nat>): nat {
    if target.Some? then target.value else |s.groups| + 1
  }

  // The books with the transactions moved, before anything is recomputed.
  function Moved(s: Ledger, ids: set<nat>, target: Option<nat>, account: AccountId): Ledger {
    var made := if target.None? then s.(groups := s.groups + [EmptyGroup(|s.groups| + 1, account)]) else s;
    made.(txns := MoveAll(s.txns, ids, TargetOf(s, target)))
  }

  function Affected(s: Ledger, ids: set<nat>, target: Option<nat>): seq<nat> {
    Ascending(Sources(s.txns, ids) + {TargetOf(s, target)})
  }

  function Regroup(s: Ledger, ids: set<nat>, target: Option<nat>, secs: Securities, at: Time): Outcome {
    var first := FirstListed(s.txns, ids);
    if first.None? then Done(s)
    else if target.Some? && !HasGroup(s, target.value) then TargetNotFound
    else Done(RecomputeEach(Moved(s, ids, target, first.value.row.account), Affected(s, ids, target), secs, at))
  }

  // ------------------------------------------------------------------------- over the store

  method RecomputeGroup(store: InMemoryStore, pk: nat, secs: Securities, at: Time)
    requires store.Valid()
    modifies store.groups, store.events
    ensures store.Valid() && store.Value() == RecomputeOne(old(store.Value()), pk, secs, at)
  {
    hide Table.Contents, Table.Valid, Recomputed, Members;
    var tg := store.GetTradeGroupById(pk);
    if tg.None? {
      return;
    }
    var rows := Cluster(store.transactions.Contents(), pk, tg.value.account);
    RecomputedName(tg.value, rows, secs);
    var _ := store.UpsertTradeGroup(Recomputed(tg.value, rows, secs));
    store.AddTradeGroupEvent(Event(pk, Adjustment, 0.0, 0.0, Some(at), None));
  }

  lemma RecomputedName(g: Group, rows: seq<Row>, secs: Securities)
    ensures Recomputed(g, rows, secs).name == g.name && Recomputed(g, rows, secs).account == g.account
  {
    hide FullyClosed, GroupRealized, TerminalStatus;
  }

  method RegroupTransactions(store: InMemoryStore, ids: set<nat>, target: Option<nat>, secs: Securities, at: Time)
    returns (found: bool)
    requires store.Valid()
    modifies store.Repr()
    ensures store.Valid()
    ensures found <==> Regroup(old(store.Value()), ids, target, secs, at).Done?
    ensures store.Value() == if found then Regroup(old(store.Value()), ids, target, secs, at).ledger else old(store.Value())
  {
    hide Table.Contents, Table.Valid, RecomputeOne, InMemoryStore.Value, InMemoryStore.Valid, FirstListed, Sources;
    ghost var s := store.Value();
    var first := FirstListed(store.Value().txns, ids);
    if first.None? {
      return true;
    }
    var pk;
    var sources := Sources(store.Value().txns, ids);
    if target.None? {
      pk := NewGroup(store, first.value.row.account);
    } else {
      var tg := store.GetTradeGroupById(target.value);
      if tg.None? {
        return false;
      }
      pk := target.value;
    }
    var _ := store.MoveTransactions(ids, Some(pk));
    assert store.Value() == Moved(s, ids, target, first.value.row.account);
    RecomputeAll(store, Ascending(sources + {pk}), secs, at);
    found := true;
  }

  method RecomputeAll(store: InMemoryStore, affected: seq<nat>, secs: Securities, at: Time)
    requires store.Valid()
    modifies store.groups, store.events
    ensures store.Valid() && store.Value() == RecomputeEach(old(store.Value()), affected, secs, at)
  {
    hide Table.Contents, Table.Valid, RecomputeOne, InMemoryStore.Value, InMemoryStore.Valid;
    ghost var s := store.Value();
    for i := 0 to |affected|
      invariant store.Valid() && store.Value() == RecomputeEach(s, affected[..i], secs, at)
    {
      assert affected[..i + 1][..i] == affected[..i];
      RecomputeGroup(store, affected[i], secs, at);
    }
    assert affected[..|affected|] == affected;
  }

  method NewGroup(store: InMemoryStore, account: AccountId) returns (pk: nat)
    requires store.Valid()
    modifies store.groups
    ensures store.Valid() && pk == |old(store.Value()).groups| + 1
    ensures store.Value() == old(store.Value()).(groups := old(store.Value()).groups + [EmptyGroup(pk, account)])
  {
    var name := |store.Value().groups| + 1;
    pk := store.UpsertTradeGroup(EmptyGroup(name, account));
  }

  // ----------------------------------------------------------------- what a regroup settles

  // A group's record and events after its recompute, from its members at the time.
  ghost predicate Settled(before: Ledger, after: Ledger, pk: nat, secs: Securities) {
    && |after.groups| == |before.groups| && after.txns == before.txns
    && (HasGroup(before, pk) ==>
          GroupAt(after, pk) == Recomputed(GroupAt(before, pk), Cluster(before.txns, pk, GroupAt(before, pk).account), secs))
    && (forall q: nat :: Premium(after.events, q) == Premium(before.events, q))
  }

  lemma RecomputeSettles(s: Ledger, pk: nat, secs: Securities, at: Time)
    ensures var s' := RecomputeOne(s, pk, secs, at);
            && Settled(s, s', pk, secs)
            && forall q: nat :: q != pk && HasGroup(s, q) ==> GroupAt(s', q) == GroupAt(s, q)
  {
    hide Recomputed, Cluster;
    var e := Event(pk, Adjustment, 0.0, 0.0, Some(at), None);
    forall q: nat
      ensures Premium(s.events + [e], q) == Premium(s.events, q)
    {
      PremiumConcat(s.events, [e], q);
      PremiumOne(e, q);
    }
  }

  lemma {:induction false} EachSettled(s: Ledger, affected: seq<nat>, secs: Securities, at: Time)
    requires NoRepeats(affected)
    ensures var s' := RecomputeEach(s, affected, secs, at);
            && |s'.groups| == |s.groups| && s'.txns == s.txns
            && (forall q: nat :: Premium(s'.events, q) == Premium(s.events, q))
            && (forall q: nat :: q in affected ==> Settled(s, s', q, secs))
            && (forall q: nat :: q !in affected && HasGroup(s, q) ==> GroupAt(s', q) == GroupAt(s, q))
  {
    hide Recomputed, Cluster, RecomputeOne;
    if affected != [] {
      var n := |affected| - 1;
      EachSettled(s, affected[..n], secs, at);
      var before := RecomputeEach(s, affected[..n], secs, at);
      RecomputeSettles(before, affected[n], secs, at);
      NotEarlier(affected);
      assert affected == affected[..n] + [affected[n]];
    }
  }

  lemma NotEarlier(s: seq<nat>)
    requires s != [] && NoRepeats(s)
    ensures s[|s| - 1] !in s[..|s| - 1]
  {
  }

  // A recompute settles what is complete and never reopens: its status says whether it is
  // complete exactly when it was open before or is complete now.
  lemma RecomputedStatus(g: Group, rows: seq<Row>, secs: Securities)
    ensures var g' := Recomputed(g, rows, secs);
            && ((g'.status == Open <==> !FullyClosed(rows)) <==> g.status == Open || FullyClosed(rows))
            && (FullyClosed(rows) ==> g'.realized == Some(GroupRealized(rows, secs)) && g'.closedAt == LatestAt(rows))
            && (!FullyClosed(rows) ==> g'.status == g.status && g'.closedAt == g.closedAt)
            && g'.premium == SumNet(rows) && g'.fees == SumFees(rows)
  {
    hide FullyClosed, GroupRealized, GroupSize;
    NothingIsOpen();
    TerminalIsNotOpen(rows);
  }

  lemma NothingIsOpen()
    ensures !FullyClosed([])
  {
  }

  lemma TerminalIsNotOpen(rows: seq<Row>)
    ensures TerminalStatus(rows) != Open
  {
  }

  /** Every group a regroup leaves or reaches is recomputed from the rows it then holds; any
      other keeps its record. No group's recorded premium events change. */
  lemma RegroupSettles(s: Ledger, ids: set<nat>, target: Option<nat>, secs: Securities, at: Time)
    requires FirstListed(s.txns, ids).Some? && (target.Some? ==> HasGroup(s, target.value))
    ensures var moved := Moved(s, ids, target, FirstListed(s.txns, ids).value.row.account);
            var s' := Regroup(s, ids, target, secs, at).ledger;
            && s'.txns == moved.txns && |s'.groups| == |moved.groups|
            && (forall q: nat :: q in Affected(s, ids, target) ==> Settled(moved, s', q, secs))
            && (forall q: nat :: q !in Affected(s, ids, target) && HasGroup(s, q) ==> GroupAt(s', q) == GroupAt(s, q))
            && (forall q: nat :: Premium(s'.events, q) == Premium(s.events, q))
  {
    hide Settled, FirstListed, Sources, Ascending;
    var affected := Affected(s, ids, target);
    AscendingNoRepeats(Sources(s.txns, ids) + {TargetOf(s, target)});
    EachSettled(Moved(s, ids, target, FirstListed(s.txns, ids).value.row.account), affected, secs, at);
  }

  // The status a group has when its rows have been moved: a new group is open.
  function StatusBefore(s: Ledger, q: nat): Status {
    if HasGroup(s, q) then GroupAt(s, q).status else Open
  }

  /** After a regroup every group it left or reached, emptied ones included, has a status that
      says whether what it now holds is complete, exactly when it was open before or is complete
      now: a finished group that lost what had closed it stays finished. */
  lemma RegroupStatuses(s: Ledger, ids: set<nat>, target: Option<nat>, secs: Securities, at: Time, q: nat)
    requires FirstListed(s.txns, ids).Some? && (target.Some? ==> HasGroup(s, target.value))
    requires q in Affected(s, ids, target)
    ensures var s' := Regroup(s, ids, target, secs, at).ledger;
            HasGroup(s', q) ==>
              var complete := FullyClosed(Cluster(s'.txns, q, GroupAt(s', q).account));
              (GroupAt(s', q).status == Open <==> !complete) <==> StatusBefore(s, q) == Open || complete
  {
    hide Recomputed, FullyClosed, FirstListed, Sources, Ascending, Cluster, RecomputeEach, MoveAll;
    RegroupSettles(s, ids, target, secs, at);
    var moved := Moved(s, ids, target, FirstListed(s.txns, ids).value.row.account);
    if HasGroup(moved, q) {
      var g := GroupAt(moved, q);
      var rows := Cluster(moved.txns, q, g.account);
      RecomputedStatus(g, rows, secs);
      RecomputedName(g, rows, secs);
    }
  }

  lemma AscendingNoRepeats(s: set<nat>)
    ensures NoRepeats(Ascending(s))
  {
  }

  // ------------------------------------------------------------------------ where cash goes

  // Cash of the listed rows that a group held before (leaving) or will hold (arriving).
  function Leaving(txns: seq<Txn>, ids: set<nat>, q: nat): real {
    if txns == [] then 0.0
    else
      var t := txns[|txns| - 1];
      Leaving(txns[..|txns| - 1], ids, q) + (if |txns| in ids && t.group == Some(q) then SignedNet(t.row) else 0.0)
  }

  function Listed(txns: seq<Txn>, ids: set<nat>): real {
    if txns == [] then 0.0
    else Listed(txns[..|txns| - 1], ids) + (if |txns| in ids then SignedNet(txns[|txns| - 1].row) else 0.0)
  }

  lemma MembersLast(txns: seq<Txn>, q: nat)
    requires txns != []
    ensures var n := |txns| - 1;
            SumNet(Members(txns, q)) == SumNet(Members(txns[..n], q)) + (if txns[n].group == Some(q) then SignedNet(txns[n].row) else 0.0)
  {
    hide SignedNet;
    SumNetAppend(Members(txns[..|txns| - 1], q), txns[|txns| - 1].row);
  }

  lemma {:induction false} MovedCash(txns: seq<Txn>, ids: set<nat>, pk: nat, q: nat)
    ensures SumNet(Members(MoveAll(txns, ids, pk), q))
         == SumNet(Members(txns, q)) - Leaving(txns, ids, q) + (if q == pk then Listed(txns, ids) else 0.0)
  {
    hide SignedNet, SumNet;
    if txns != [] {
      hide Members;
      var n := |txns| - 1;
      MovedCash(txns[..n], ids, pk, q);
      assert MoveAll(txns, ids, pk)[..n] == MoveAll(txns[..n], ids, pk);
      MembersLast(txns, q);
      MembersLast(MoveAll(txns, ids, pk), q);
    }
  }

  /** The event log does not follow a regroup: each group's balance shifts by exactly the cash
      that left it, and the target's by what arrived, so a regroup keeps every balance exactly
      when what it moves between groups nets to nothing. */
  lemma RegroupShiftsBalances(s: Ledger, ids: set<nat>, target: Option<nat>, secs: Securities, at: Time, q: nat)
    requires FirstListed(s.txns, ids).Some? && (target.Some? ==> HasGroup(s, target.value))
    ensures var s', arriving := Regroup(s, ids, target, secs, at).ledger, if q == TargetOf(s, target) then Listed(s.txns, ids) else 0.0;
            && Balance(s', q) == Balance(s, q) + Leaving(s.txns, ids, q) - arriving
            && (Balance(s', q) == Balance(s, q) <==> Leaving(s.txns, ids, q) == arriving)
  {
    hide Regroup, FirstListed, Affected, Settled, Members, SumNet;
    RegroupSettles(s, ids, target, secs, at);
    MovedCash(s.txns, ids, TargetOf(s, target), q);
  }

  /** Regrouping the same transactions into the same group again changes no membership. */
  lemma RegroupAgain(txns: seq<Txn>, ids: set<nat>, pk: nat)
    ensures MoveAll(MoveAll(txns, ids, pk), ids, pk) == MoveAll(txns, ids, pk)
    ensures Sources(MoveAll(txns, ids, pk), ids) <= {pk}
    ensures forall i :: 0 <= i < |txns| ==> MoveAll(txns, ids, pk)[i].row == txns[i].row
  {
  }

  /** And recomputing a group again gives the same record. */
  lemma RecomputedOnce(g: Group, rows: seq<Row>, secs: Securities)
    ensures Recomputed(Recomputed(g, rows, secs), rows, secs) == Recomputed(g, rows, secs)
  {
    hide FullyClosed, GroupRealized, GroupSize, TerminalStatus, SumNet, SumFees;
  }

  lemma {:induction false} ListedStays(txns: seq<Txn>, ids: set<nat>, pk: nat)
    ensures FirstListed(MoveAll(txns, ids, pk), ids).Some? <==> FirstListed(txns, ids).Some?
  {
    if txns != [] {
      var n := |txns| - 1;
      ListedStays(txns[..n], ids, pk);
      assert MoveAll(txns, ids, pk)[..n] == MoveAll(txns[..n], ids, pk);
    }
  }

  lemma OnlyOne(pk: nat)
    ensures Ascending({pk}) == [pk]
  {
    var s := Ascending({pk});
    forall i | 0 <= i < |s|
      ensures s[i] == pk
    {
      assert s[i] in s;
    }
    assert pk in s;
  }

  /** Regrouping the same transactions into the same group again logs one more adjustment and
      otherwise changes nothing. */
  lemma RegroupTwice(s: Ledger, ids: set<nat>, target: Option<nat>, secs: Securities, at: Time)
    requires FirstListed(s.txns, ids).Some? && (target.Some? ==> HasGroup(s, target.value))
    ensures var once, pk := Regroup(s, ids, target, secs, at).ledger, TargetOf(s, target);
            Regroup(once, ids, Some(pk), secs, at) == Done(AddEvents(once, [Event(pk, Adjustment, 0.0, 0.0, Some(at), None)]))
  {
    hide Recomputed, Cluster, FirstListed, Settled, RecomputeEach;
    RegroupSettles(s, ids, target, secs, at);
    var once, pk := Regroup(s, ids, target, secs, at).ledger, TargetOf(s, target);
    var moved := Moved(s, ids, target, FirstListed(s.txns, ids).value.row.account);
    ListedStays(s.txns, ids, pk);
    RegroupAgain(s.txns, ids, pk);
    OnlyOne(pk);
    assert Sources(once.txns, ids) + {pk} == {pk};
    SettledAgain(moved, once, pk, secs);
    assert Moved(once, ids, Some(pk), FirstListed(once.txns, ids).value.row.account) == once;
    RecomputeJust(once, pk, secs, at);
    assert once.groups[pk - 1 := GroupAt(once, pk)] == once.groups;
  }

  lemma RecomputeJust(s: Ledger, pk: nat, secs: Securities, at: Time)
    ensures RecomputeEach(s, [pk], secs, at) == RecomputeOne(s, pk, secs, at)
  {
    assert [pk][..0] == [];
  }

  lemma SettledAgain(before: Ledger, after: Ledger, pk: nat, secs: Securities)
    requires Settled(before, after, pk, secs) && HasGroup(before, pk)
    ensures Recomputed(GroupAt(after, pk), Cluster(after.txns, pk, GroupAt(after, pk).account), secs) == GroupAt(after, pk)
  {
    hide Recomputed, Cluster;
    var g := GroupAt(before, pk);
    RecomputedName(g, Cluster(before.txns, pk, g.account), secs);
    RecomputedOnce(g, Cluster(before.txns, pk, g.account), secs);
  }
}
