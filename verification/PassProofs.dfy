/** What every step of a reconcile pass keeps: membership, the event log's balance, frozen
    groups, statuses and attributions. */
module PassProofs {
  import opened Rows
  import opened Ordering
  import opened GroupNet
  import opened Routing
  import opened Books
  import opened Exits
  import opened Membership
  import opened Reconcile
  import opened Attribution

  // ------------------------------------------------------------------------- predicates

  // Surrogate ids in the books refer to groups that exist.
  ghost predicate ValidRefs(s: Ledger) {
    && (forall i :: 0 <= i < |s.txns| && s.txns[i].group.Some? ==> HasGroup(s, s.txns[i].group.value))
    && (forall i :: 0 <= i < |s.events| ==> HasGroup(s, s.events[i].group))
  }

  // Every group a pass holds is open for the account, or one an order names.
  ghost predicate OpenOK(s: Ledger, account: AccountId, open: seq<MemGroup>, named: set<nat> := {}) {
    && (forall k :: 0 <= k < |open| ==> HasGroup(s, open[k].pk) && (OpenFor(s, account, open[k].pk) || open[k].pk in named))
    && (forall k :: 0 <= k < |open| ==> Holds(s.txns, open[k]))
    && (forall j, k :: 0 <= j < k < |open| ==> open[j].pk != open[k].pk)
  }

  ghost predicate Lists(open: seq<MemGroup>, q: nat) {
    exists k :: 0 <= k < |open| && open[k].pk == q
  }

  // No open group of the account is missing from what a pass holds.
  ghost predicate HoldsAllOpen(s: Ledger, account: AccountId, open: seq<MemGroup>) {
    forall q: nat :: OpenFor(s, account, q) ==> Lists(open, q)
  }

  function EventIn(q: nat): Event -> bool {
    (e: Event) => e.group == q
  }

  // A group's own log, in order.
  function EventsOf(events: seq<Event>, q: nat): seq<Event> {
    Filter(events, EventIn(q))
  }

  // A group's record, members and events, each as they were.
  ghost predicate Untouched(s: Ledger, s': Ledger, q: nat) {
    && (HasGroup(s, q) ==> HasGroup(s', q) && GroupAt(s', q) == GroupAt(s, q))
    && Members(s'.txns, q) == Members(s.txns, q)
    && EventsOf(s'.events, q) == EventsOf(s.events, q)
  }

  // Groups that were not open for the account keep their record, members and events. Here and
  // below, groups in named are exempt: the groups a pre-attributed order may reach.
  ghost predicate Frozen(s0: Ledger, s: Ledger, account: AccountId, named: set<nat> := {}) {
    forall q :: HasGroup(s0, q) && !OpenFor(s0, account, q) && q !in named ==> Untouched(s0, s, q)
  }

  // What a group's events say was exchanged, less what its members say.
  function Balance(s: Ledger, q: nat): real {
    Premium(s.events, q) - SumNet(Members(s.txns, q))
  }

  ghost predicate Conserved(s0: Ledger, s: Ledger, named: set<nat> := {}) {
    |s0.groups| <= |s.groups|
    && forall q :: HasGroup(s, q) && q !in named ==> Balance(s, q) == if HasGroup(s0, q) then Balance(s0, q) else 0.0
  }

  // A terminal status says the members are fully closed (when their times do not tie).
  ghost predicate Sound(s: Ledger, q: nat)
    requires HasGroup(s, q)
  {
    GroupAt(s, q).status != Open && GroupAt(s, q).status != Unfilled && DistinctTimes(Members(s.txns, q))
    ==> FullyClosed(LoadRows(s, q))
  }

  // Sound groups stay sound and new ones are.
  ghost predicate SoundKept(s0: Ledger, s: Ledger, named: set<nat> := {}) {
    forall q :: HasGroup(s, q) && q !in named && (HasGroup(s0, q) ==> Sound(s0, q)) ==> Sound(s, q)
  }

  // Named groups may be held though not open; loose ones may change balance.
  ghost predicate PassInv(s0: Ledger, account: AccountId, st: Pass, named: set<nat> := {}, loose: set<nat> := named) {
    && UniqueIds(st.ledger.txns) && SameRows(s0.txns, st.ledger.txns) && ValidRefs(st.ledger)
    && OpenOK(st.ledger, account, st.open, named) && HoldsAllOpen(st.ledger, account, st.open)
    && Frozen(s0, st.ledger, account, named) && Conserved(s0, st.ledger, loose) && SoundKept(s0, st.ledger, named)
  }

  lemma {:induction false} PremiumOfOwn(events: seq<Event>, q: nat)
    ensures Premium(EventsOf(events, q), q) == Premium(events, q)
  {
    if events != [] {
      var front, e := events[..|events| - 1], events[|events| - 1];
      PremiumOfOwn(front, q);
      if e.group == q {
        PremiumConcat(EventsOf(front, q), [e], q);
        PremiumOne(e, q);
      }
    }
  }

  lemma UntouchedBalance(s: Ledger, s': Ledger, q: nat)
    requires Untouched(s, s', q)
    ensures Balance(s', q) == Balance(s, q) && Premium(s'.events, q) == Premium(s.events, q)
    ensures LoadRows(s', q) == LoadRows(s, q)
  {
    PremiumOfOwn(s.events, q);
    PremiumOfOwn(s'.events, q);
  }

  // Events of one group leave every other group's log alone.
  lemma OthersLog(events: seq<Event>, more: seq<Event>, pk: nat, q: nat)
    requires q != pk && forall i :: 0 <= i < |more| ==> more[i].group == pk
    ensures EventsOf(events + more, q) == EventsOf(events, q)
  {
    FilterConcat(events, more, EventIn(q));
    NothingSelected(more, EventIn(q));
  }

  // --------------------------------------------------------------------------- one exit

  // The group's copy may lag behind the table by these very rows, never otherwise.
  ghost predicate ExitReady(s: Ledger, g: MemGroup, rows: seq<Row>) {
    && UniqueIds(s.txns) && HasGroup(s, g.pk) && Attachable(s.txns, rows, g.pk) && DistinctIds(g.rows)
    && (forall r :: r in g.rows ==> r in Members(s.txns, g.pk))
    && (forall r :: r in Members(s.txns, g.pk) ==> r in g.rows || r in rows)
  }

  lemma ExitShape(s: Ledger, g: MemGroup, rows: seq<Row>, rolledTo: Option<nat>, delivery: Option<nat>, secs: Securities)
    requires HasGroup(s, g.pk)
    ensures var e := ApplyExit(s, g, rows, rolledTo, delivery, secs);
            && e.ledger.txns == AttachAll(s.txns, Ids(rows), g.pk)
            && e.group == ExtendUnique(g, rows)
            && |e.ledger.groups| == |s.groups|
            && (forall q :: HasGroup(s, q) && q != g.pk ==> GroupAt(e.ledger, q) == GroupAt(s, q))
            && e.fullyClosed == FullyClosed(e.group.rows)
            && (GroupAt(e.ledger, g.pk) == if Fresh(g, rows) != [] && e.fullyClosed
                  then ClosedGroup(GroupAt(s, g.pk), e.group.rows, LatestAt(Fresh(g, rows)), secs) else GroupAt(s, g.pk))
            && e.ledger.events == s.events + (if Fresh(g, rows) == [] then []
                  else ExitEvents(g.pk, Fresh(g, rows), e.fullyClosed, rolledTo, delivery))
  {
    hide ExitEvents, FullyClosed, ClosedGroup, AttachAll, Members;
    assert g.rows + [] == g.rows;
    assert s.events + [] == s.events;
  }

  lemma ExitHolds(s: Ledger, g: MemGroup, rows: seq<Row>)
    requires ExitReady(s, g, rows)
    ensures Holds(AttachAll(s.txns, Ids(rows), g.pk), ExtendUnique(g, rows))
  {
    var after := AttachAll(s.txns, Ids(rows), g.pk);
    ExtendUniqueIsSetUnion(g, rows);
    forall r
      ensures r in ExtendUnique(g, rows).rows <==> r in Members(after, g.pk)
    {
      AttachMembers(s.txns, rows, g.pk, r);
      AddedMembers(g, rows, r);
      if r in rows && r.id in Ids(g.rows) {
        HeldAlready(s, g, rows, r);
      }
    }
  }

  // Ids identify rows: a row whose id the copy holds is the row the copy holds.
  lemma HeldAlready(s: Ledger, g: MemGroup, rows: seq<Row>, r: Row)
    requires ExitReady(s, g, rows) && r in rows && r.id in Ids(g.rows)
    ensures r in g.rows
  {
    var x :| x in g.rows && x.id == r.id;
    assert x in Members(s.txns, g.pk);
    MembersIn(s.txns, g.pk, x);
    var i :| 0 <= i < |s.txns| && s.txns[i].row == x && s.txns[i].group == Some(g.pk);
    RowWithId(s.txns, rows, g.pk, i);
    var j :| 0 <= j < |s.txns| && s.txns[j].row == r;
    assert i == j;
  }

  /** One exit keeps its group's balance against the rows the group holds, even when the rows
      it is given overlap them. */
  lemma ExitKeepsBalance(s: Ledger, g: MemGroup, rows: seq<Row>, rolledTo: Option<nat>, delivery: Option<nat>,
                         secs: Securities, q: nat)
    requires HasGroup(s, g.pk) && AllLeave(rows)
    ensures var e := ApplyExit(s, g, rows, rolledTo, delivery, secs);
            && (q == g.pk ==> Premium(e.ledger.events, q) - SumNet(e.group.rows) == Premium(s.events, q) - SumNet(g.rows))
            && (q != g.pk ==> Premium(e.ledger.events, q) == Premium(s.events, q))
  {
    ExitShape(s, g, rows, rolledTo, delivery, secs);
    var e, added := ApplyExit(s, g, rows, rolledTo, delivery, secs), Fresh(g, rows);
    forall i | 0 <= i < |added|
      ensures Leaves(added[i])
    {
      AddedMembers(g, rows, added[i]);
    }
    if added == [] {
      assert s.events + [] == s.events && g.rows + [] == g.rows;
    } else {
      ExitPremium(g.pk, added, e.fullyClosed, rolledTo, delivery, q);
      PremiumConcat(s.events, ExitEvents(g.pk, added, e.fullyClosed, rolledTo, delivery), q);
      SumNetConcat(g.rows, added);
    }
  }

  /** Applying an exit again changes nothing: no event, no figure, no member. */
  lemma ExitTwiceIsOnce(s: Ledger, g: MemGroup, rows: seq<Row>, rolledTo: Option<nat>, delivery: Option<nat>, secs: Securities)
    requires ExitReady(s, g, rows)
    ensures var e := ApplyExit(s, g, rows, rolledTo, delivery, secs);
            var again := ApplyExit(e.ledger, e.group, rows, rolledTo, delivery, secs);
            again.ledger == e.ledger && again.group == e.group && again.rows == [] && again.fullyClosed == e.fullyClosed
  {
    ExitShape(s, g, rows, rolledTo, delivery, secs);
    var e := ApplyExit(s, g, rows, rolledTo, delivery, secs);
    ExtendUniqueIsSetUnion(g, rows);
    assert e.group.rows + Fresh(e.group, rows) == e.group.rows;
    assert Fresh(e.group, rows) == [];
    var txns := e.ledger.txns;
    assert AttachAll(txns, Ids(rows), g.pk) == txns;
  }

  /** An exit leaves every other group's record, members and events as they were. */
  lemma ExitOthers(s: Ledger, g: MemGroup, rows: seq<Row>, rolledTo: Option<nat>, delivery: Option<nat>,
                   secs: Securities, q: nat)
    requires ExitReady(s, g, rows) && q != g.pk
    ensures Untouched(s, ApplyExit(s, g, rows, rolledTo, delivery, secs).ledger, q)
  {
    hide ApplyExit, ExitEvents, EventsOf, FullyClosed, ClosedGroup;
    ExitShape(s, g, rows, rolledTo, delivery, secs);
    var e := ApplyExit(s, g, rows, rolledTo, delivery, secs);
    ExitEventsOfGroup(g.pk, Fresh(g, rows), e.fullyClosed, rolledTo, delivery);
    var events := if Fresh(g, rows) == [] then [] else ExitEvents(g.pk, Fresh(g, rows), e.fullyClosed, rolledTo, delivery);
    OthersLog(s.events, events, g.pk, q);
    AttachLeavesOthers(s.txns, Ids(rows), g.pk, q);
  }

  // The closed status an exit stamps agrees with what the table will load.
  lemma HeldClosedIsLoadedClosed(s: Ledger, g: MemGroup)
    requires UniqueIds(s.txns) && Holds(s.txns, g) && DistinctTimes(Members(s.txns, g.pk))
    ensures FullyClosed(g.rows) <==> FullyClosed(LoadRows(s, g.pk))
  {
    HoldsMultiset(s.txns, g);
    LoadHolds(s, g.pk);
    SameMembersSameCauses(Members(s.txns, g.pk), g.rows);
    SameMembersSameCauses(Members(s.txns, g.pk), LoadRows(s, g.pk));
  }

  // ------------------------------------------------------------- carrying the invariant

  // What may differ between two books when only group pk has been written.
  ghost predicate OnlyGroup(s: Ledger, s': Ledger, pk: nat) {
    |s'.groups| >= |s.groups| && forall q :: q != pk ==> Untouched(s, s', q)
  }

  lemma FrozenStep(s0: Ledger, s: Ledger, s': Ledger, account: AccountId, pk: nat, named: set<nat>)
    requires Frozen(s0, s, account, named) && OnlyGroup(s, s', pk) && (OpenFor(s, account, pk) || pk in named)
    ensures Frozen(s0, s', account, named)
  {
    hide EventsOf;
    forall q | HasGroup(s0, q) && !OpenFor(s0, account, q) && q !in named
      ensures Untouched(s0, s', q)
    {
      assert Untouched(s0, s, q);
      assert q != pk;
      assert Untouched(s, s', q);
    }
  }

  lemma ConservedStep(s0: Ledger, s: Ledger, s': Ledger, pk: nat, named: set<nat>)
    requires Conserved(s0, s, named) && OnlyGroup(s, s', pk) && HasGroup(s, pk) && |s'.groups| == |s.groups|
    requires Balance(s', pk) == Balance(s, pk) || pk in named
    ensures Conserved(s0, s', named)
  {
    hide EventsOf, Balance;
    forall q | HasGroup(s', q) && q !in named
      ensures Balance(s', q) == if HasGroup(s0, q) then Balance(s0, q) else 0.0
    {
      assert HasGroup(s, q);
      if q != pk {
        UntouchedBalance(s, s', q);
      }
    }
  }

  lemma SoundStep(s0: Ledger, s: Ledger, s': Ledger, pk: nat, named: set<nat>)
    requires SoundKept(s0, s, named) && OnlyGroup(s, s', pk) && |s'.groups| == |s.groups|
    requires HasGroup(s', pk) && pk !in named ==> Sound(s', pk)
    ensures SoundKept(s0, s', named)
  {
    hide EventsOf, FullyClosed;
    forall q | HasGroup(s', q) && q !in named && (HasGroup(s0, q) ==> Sound(s0, q))
      ensures Sound(s', q)
    {
      if q != pk {
        assert HasGroup(s, q) && Untouched(s, s', q);
        assert Sound(s, q);
      }
    }
  }

  lemma ExitSound(s: Ledger, g: MemGroup, rows: seq<Row>, rolledTo: Option<nat>, delivery: Option<nat>, secs: Securities)
    requires ExitReady(s, g, rows) && GroupAt(s, g.pk).status == Open
    ensures var s' := ApplyExit(s, g, rows, rolledTo, delivery, secs).ledger;
            HasGroup(s', g.pk) && Sound(s', g.pk)
  {
    ExitShape(s, g, rows, rolledTo, delivery, secs);
    ExitHolds(s, g, rows);
    var e := ApplyExit(s, g, rows, rolledTo, delivery, secs);
    AttachKeepsUnique(s.txns, Ids(rows), g.pk);
    if e.fullyClosed && DistinctTimes(Members(e.ledger.txns, g.pk)) {
      HeldClosedIsLoadedClosed(e.ledger, e.group);
    }
  }

  lemma ExitRefs(s: Ledger, g: MemGroup, rows: seq<Row>, rolledTo: Option<nat>, delivery: Option<nat>, secs: Securities)
    requires HasGroup(s, g.pk) && ValidRefs(s)
    ensures ValidRefs(ApplyExit(s, g, rows, rolledTo, delivery, secs).ledger)
  {
    hide ApplyExit, ExitEvents;
    ExitShape(s, g, rows, rolledTo, delivery, secs);
    var e := ApplyExit(s, g, rows, rolledTo, delivery, secs);
    ExitEventsOfGroup(g.pk, Fresh(g, rows), e.fullyClosed, rolledTo, delivery);
    var events := if Fresh(g, rows) == [] then [] else ExitEvents(g.pk, Fresh(g, rows), e.fullyClosed, rolledTo, delivery);
    WrittenRefs(s, e.ledger, Ids(rows), g.pk, events);
  }

  lemma WrittenRefs(s: Ledger, s': Ledger, ids: set<TxnId>, pk: nat, events: seq<Event>)
    requires ValidRefs(s) && |s'.groups| >= |s.groups| && HasGroup(s', pk)
    requires s'.txns == AttachAll(s.txns, ids, pk) && s'.events == s.events + events
    requires forall i :: 0 <= i < |events| ==> events[i].group == pk
    ensures ValidRefs(s')
  {
    forall i | 0 <= i < |s'.txns| && s'.txns[i].group.Some?
      ensures HasGroup(s', s'.txns[i].group.value)
    {
      assert s'.txns[i] == AttachTxn(s.txns[i], ids, pk);
    }
  }

  lemma {:induction false} SettlementEventsOfGroup(pk: nat, rows: seq<Row>, kinds: seq<EventKind>, at: Option<Time>, delivery: Option<nat>)
    ensures forall i :: 0 <= i < |SettlementEvents(pk, rows, kinds, at, delivery)| ==>
              SettlementEvents(pk, rows, kinds, at, delivery)[i].group == pk
  {
    if kinds != [] {
      SettlementEventsOfGroup(pk, rows, kinds[..|kinds| - 1], at, delivery);
    }
  }

  lemma ExitEventsOfGroup(pk: nat, rows: seq<Row>, fully: bool, rolledTo: Option<nat>, delivery: Option<nat>)
    ensures forall i :: 0 <= i < |ExitEvents(pk, rows, fully, rolledTo, delivery)| ==>
              ExitEvents(pk, rows, fully, rolledTo, delivery)[i].group == pk
  {
    SettlementEventsOfGroup(pk, rows, SettlementKinds(rows), LatestAt(rows), delivery);
  }

  // -------------------------------------------------------------------- one routed bucket

  // Rows of the table that no group holds.
  ghost predicate Unattributed(s: Ledger, rows: seq<Row>) {
    && DistinctIds(rows)
    && (forall r :: r in rows ==> exists i :: 0 <= i < |s.txns| && s.txns[i].row == r)
    && (forall i :: 0 <= i < |s.txns| && s.txns[i].row.id in Ids(rows) ==> s.txns[i].group.None?)
  }

  lemma HeldGroupReady(s: Ledger, g: MemGroup, rows: seq<Row>)
    requires UniqueIds(s.txns) && HasGroup(s, g.pk) && Holds(s.txns, g) && Unattributed(s, rows)
    ensures ExitReady(s, g, rows)
  {
  }

  // One held group is replaced by what it has become.
  lemma ReplacedOpen(s: Ledger, s': Ledger, account: AccountId, open: seq<MemGroup>, g: MemGroup, k: nat, named: set<nat>)
    requires OpenOK(s, account, open, named) && k < |open| && open[k].pk == g.pk && OnlyGroup(s, s', g.pk)
    requires Holds(s'.txns, g) && HasGroup(s', g.pk) && (OpenFor(s', account, g.pk) || g.pk in named)
    ensures OpenOK(s', account, ReplaceGroup(open, g), named)
    ensures |ReplaceGroup(open, g)| == |open|
    ensures forall j :: 0 <= j < |open| ==> ReplaceGroup(open, g)[j] == if j == k then g else open[j]
  {
    hide EventsOf;
    var replaced := ReplaceGroup(open, g);
    forall j | 0 <= j < |replaced|
      ensures HasGroup(s', replaced[j].pk) && (OpenFor(s', account, replaced[j].pk) || replaced[j].pk in named)
      ensures Holds(s'.txns, replaced[j]) && replaced[j] == if j == k then g else open[j]
    {
      if j != k {
        assert Untouched(s, s', open[j].pk);
      }
    }
  }

  lemma SettledOpen(s: Ledger, s': Ledger, account: AccountId, open: seq<MemGroup>, e: Exit, k: nat, named: set<nat>)
    requires OpenOK(s, account, open, named) && k < |open| && open[k].pk == e.group.pk
    requires OnlyGroup(s, s', e.group.pk)
    requires !e.fullyClosed ==> (OpenFor(s', account, e.group.pk) || e.group.pk in named)
                                && HasGroup(s', e.group.pk) && Holds(s'.txns, e.group)
    ensures OpenOK(s', account, Settle(open, e), named)
    ensures forall j :: 0 <= j < |open| && j != k ==> open[j] in Settle(open, e)
  {
    hide ReplaceGroup, OpenOK, OnlyGroup, OpenFor, Holds;
    var settled := Settle(open, e);
    if e.fullyClosed {
      OtherPks(s, account, open, k, named);
      RemovedOpen(s, s', account, open, e.group.pk, named);
      forall j | 0 <= j < |open| && j != k
        ensures open[j] in settled
      {
        FilterMember(open, open[j], NotGroup(e.group.pk));
      }
    } else {
      ReplacedOpen(s, s', account, open, e.group, k, named);
      forall j | 0 <= j < |open| && j != k
        ensures open[j] in settled
      {
        assert settled[j] == open[j];
      }
    }
  }

  lemma OtherPks(s: Ledger, account: AccountId, open: seq<MemGroup>, k: nat, named: set<nat>)
    requires OpenOK(s, account, open, named) && k < |open|
    ensures forall j :: 0 <= j < |open| && j != k ==> open[j].pk != open[k].pk
  {
  }

  lemma {:induction false} RemovedOpen(s: Ledger, s': Ledger, account: AccountId, open: seq<MemGroup>, pk: nat, named: set<nat>)
    requires OpenOK(s, account, open, named) && OnlyGroup(s, s', pk)
    ensures OpenOK(s', account, RemoveGroup(open, pk), named)
    ensures forall j :: 0 <= j < |RemoveGroup(open, pk)| ==> RemoveGroup(open, pk)[j] in open
  {
    hide EventsOf;
    if open != [] {
      var front, last := open[..|open| - 1], open[|open| - 1];
      RemovedOpen(s, s', account, front, pk, named);
      var kept := RemoveGroup(front, pk);
      forall j | 0 <= j < |kept|
        ensures kept[j].pk != last.pk
      {
        var i :| 0 <= i < |front| && front[i] == kept[j];
        assert open[i].pk != open[|open| - 1].pk;
      }
      if last.pk != pk {
        assert Untouched(s, s', last.pk);
        assert HasGroup(s, last.pk) && Holds(s.txns, last);
      }
      assert open == front + [last];
    }
  }

  // What a write to one held group owes for the whole invariant to carry over.
  lemma InvStep(s0: Ledger, account: AccountId, st: Pass, s': Ledger, pk: nat, named: set<nat>, loose: set<nat>)
    requires PassInv(s0, account, st, named, loose)
    requires HasGroup(st.ledger, pk) && (OpenFor(st.ledger, account, pk) || pk in named)
    requires OnlyGroup(st.ledger, s', pk) && |s'.groups| == |st.ledger.groups|
    requires pk in loose || Balance(s', pk) == Balance(st.ledger, pk)
    requires pk in named || Sound(s', pk)
    ensures Frozen(s0, s', account, named) && Conserved(s0, s', loose) && SoundKept(s0, s', named)
  {
    hide Sound, Balance, OnlyGroup, OpenOK, UniqueIds, ValidRefs, SameRows;
    FrozenStep(s0, st.ledger, s', account, pk, named);
    ConservedStep(s0, st.ledger, s', pk, loose);
    SoundStep(s0, st.ledger, s', pk, named);
  }

  // An exit that takes its group out of the pass has closed it.
  lemma ExitHoldsAll(s: Ledger, g: MemGroup, rows: seq<Row>, rolledTo: Option<nat>, delivery: Option<nat>, secs: Securities,
                     account: AccountId, open: seq<MemGroup>)
    requires HasGroup(s, g.pk) && Fresh(g, rows) != [] && HoldsAllOpen(s, account, open)
    ensures var e := ApplyExit(s, g, rows, rolledTo, delivery, secs);
            HoldsAllOpen(e.ledger, account, Settle(open, e))
  {
    hide ApplyExit, Fresh, Lists, OpenFor;
    var e := ApplyExit(s, g, rows, rolledTo, delivery, secs);
    forall q: nat | OpenFor(e.ledger, account, q)
      ensures Lists(Settle(open, e), q)
    {
      ExitLeavesOpen(s, g, rows, rolledTo, delivery, secs, account, q);
      SettledLists(open, e, q);
    }
  }

  // A group open after an exit was open before it, and is not the one the exit closed.
  lemma ExitLeavesOpen(s: Ledger, g: MemGroup, rows: seq<Row>, rolledTo: Option<nat>, delivery: Option<nat>,
                       secs: Securities, account: AccountId, q: nat)
    requires HasGroup(s, g.pk) && Fresh(g, rows) != []
    requires OpenFor(ApplyExit(s, g, rows, rolledTo, delivery, secs).ledger, account, q)
    ensures OpenFor(s, account, q)
    ensures ApplyExit(s, g, rows, rolledTo, delivery, secs).fullyClosed ==>
              q != ApplyExit(s, g, rows, rolledTo, delivery, secs).group.pk
  {
    hide ApplyExit, FullyClosed, ClosedGroup, ExitEvents, Fresh;
    ExitShape(s, g, rows, rolledTo, delivery, secs);
    var rows' := ExtendUnique(g, rows).rows;
    ClosedIsTerminal(GroupAt(s, g.pk), rows', LatestAt(Fresh(g, rows)), secs);
  }

  lemma SettledLists(open: seq<MemGroup>, e: Exit, q: nat)
    requires Lists(open, q) && (e.fullyClosed ==> q != e.group.pk)
    ensures Lists(Settle(open, e), q)
  {
    var k :| 0 <= k < |open| && open[k].pk == q;
    if e.fullyClosed {
      FilterMember(open, open[k], NotGroup(e.group.pk));
      var j :| 0 <= j < |Settle(open, e)| && Settle(open, e)[j] == open[k];
    } else {
      assert Settle(open, e)[k].pk == q;
    }
  }

  lemma ReplacedLists(open: seq<MemGroup>, g: MemGroup, q: nat)
    ensures Lists(ReplaceGroup(open, g), q) <==> Lists(open, q)
  {
    var replaced := ReplaceGroup(open, g);
    if k :| 0 <= k < |open| && open[k].pk == q {
      assert replaced[k].pk == q;
    }
    if k :| 0 <= k < |replaced| && replaced[k].pk == q {
      assert open[k].pk == q;
    }
  }

  lemma UnattributedIsFresh(s: Ledger, g: MemGroup, rows: seq<Row>)
    requires Holds(s.txns, g) && Unattributed(s, rows)
    ensures Fresh(g, rows) == rows
  {
    hide Members;
    var held := Ids(g.rows);
    forall k | 0 <= k < |rows|
      ensures NotAmong(held)(rows[k])
    {
      if rows[k].id in held {
        var y :| y in g.rows && y.id == rows[k].id;
        MembersIn(s.txns, g.pk, y);
      }
    }
    AllSelected(rows, NotAmong(held));
  }

  lemma ExitOnly(s: Ledger, g: MemGroup, rows: seq<Row>, rolledTo: Option<nat>, delivery: Option<nat>, secs: Securities)
    requires ExitReady(s, g, rows)
    ensures OnlyGroup(s, ApplyExit(s, g, rows, rolledTo, delivery, secs).ledger, g.pk)
  {
    hide ApplyExit, ExitReady, Untouched;
    ExitTxns(s, g, rows, rolledTo, delivery, secs);
    forall q | q != g.pk
      ensures Untouched(s, ApplyExit(s, g, rows, rolledTo, delivery, secs).ledger, q)
    {
      ExitOthers(s, g, rows, rolledTo, delivery, secs, q);
    }
  }

  lemma HeldAt(s: Ledger, account: AccountId, open: seq<MemGroup>, k: nat, named: set<nat>)
    requires OpenOK(s, account, open, named) && k < |open|
    ensures HasGroup(s, open[k].pk) && Holds(s.txns, open[k])
    ensures OpenFor(s, account, open[k].pk) || open[k].pk in named
  {
  }

  // The table and the group after an exit, as far as the invariant asks.
  lemma ExitWrites(s: Ledger, g: MemGroup, rows: seq<Row>, rolledTo: Option<nat>, delivery: Option<nat>, secs: Securities,
                   account: AccountId)
    requires ExitReady(s, g, rows) && HasGroup(s, g.pk)
    ensures var e := ApplyExit(s, g, rows, rolledTo, delivery, secs);
            && UniqueIds(e.ledger.txns) && SameRows(s.txns, e.ledger.txns) && |e.ledger.groups| == |s.groups|
            && e.group.pk == g.pk && Holds(e.ledger.txns, e.group) && HasGroup(e.ledger, g.pk)
            && (!e.fullyClosed && OpenFor(s, account, g.pk) ==> OpenFor(e.ledger, account, g.pk))
  {
    hide ApplyExit, Holds, Members, Fresh, FullyClosed, ClosedGroup, ExitEvents;
    ExitShape(s, g, rows, rolledTo, delivery, secs);
    ExitHolds(s, g, rows);
    AttachKeepsUnique(s.txns, Ids(rows), g.pk);
  }

  /** A routed bucket, or the closing rows of an order's group, keeps the whole invariant. */
  lemma ExitKeepsInv(s0: Ledger, account: AccountId, st: Pass, k: nat, rows: seq<Row>, rolledTo: Option<nat>,
                     delivery: Option<nat>, secs: Securities, named: set<nat>, loose: set<nat>)
    requires PassInv(s0, account, st, named, loose) && k < |st.open| && Unattributed(st.ledger, rows)
    requires AllLeave(rows) && rows != []
    ensures var e := ApplyExit(st.ledger, st.open[k], rows, rolledTo, delivery, secs);
            && PassInv(s0, account, Pass(e.ledger, Settle(st.open, e)), named, loose)
            && (forall j :: 0 <= j < |st.open| && j != k ==> st.open[j] in Settle(st.open, e))
  {
    hide ApplyExit, Sound, Balance, Frozen, Conserved, SoundKept, EventsOf, OnlyGroup, ExitReady, Leaves, Settle, HoldsAllOpen, Fresh,
         UniqueIds, ValidRefs, OpenOK, Holds, Unattributed;
    var g, s := st.open[k], st.ledger;
    var e := ApplyExit(s, g, rows, rolledTo, delivery, secs);
    HeldAt(s, account, st.open, k, named);
    HeldGroupReady(s, g, rows);
    ExitWrites(s, g, rows, rolledTo, delivery, secs, account);
    ExitOnly(s, g, rows, rolledTo, delivery, secs);
    BucketBalance(s, g, rows, rolledTo, delivery, secs);
    if g.pk !in named {
      ExitSound(s, g, rows, rolledTo, delivery, secs);
    }
    InvStep(s0, account, st, e.ledger, g.pk, named, loose);
    ExitRefs(s, g, rows, rolledTo, delivery, secs);
    UnattributedIsFresh(s, g, rows);
    ExitHoldsAll(s, g, rows, rolledTo, delivery, secs, account, st.open);
    SettledOpen(s, e.ledger, account, st.open, e, k, named);
  }

  /** A routed bucket keeps the whole invariant and attributes exactly its rows. */
  lemma BucketStep(s0: Ledger, account: AccountId, st: Pass, k: nat, rows: seq<Row>, rolledTo: Option<nat>,
                   delivery: Option<nat>, secs: Securities, named: set<nat> := {}, loose: set<nat> := named)
    requires PassInv(s0, account, st, named, loose) && k < |st.open| && Unattributed(st.ledger, rows)
    requires rows != [] && forall i :: 0 <= i < |rows| ==> Draws(rows[i])
    ensures var e := ApplyExit(st.ledger, st.open[k], rows, rolledTo, delivery, secs);
            var st' := Pass(e.ledger, Settle(st.open, e));
            && PassInv(s0, account, st', named, loose)
            && Attributed(st.ledger, e.ledger, Ids(rows))
            && (forall j :: 0 <= j < |st.open| && j != k ==> st.open[j] in st'.open)
            && |e.ledger.groups| == |st.ledger.groups|
  {
    hide ApplyExit, PassInv, Unattributed, Draws, Leaves, Settle;
    DrawsLeave(rows);
    ExitKeepsInv(s0, account, st, k, rows, rolledTo, delivery, secs, named, loose);
    ExitTxns(st.ledger, st.open[k], rows, rolledTo, delivery, secs);
    AttachAttributes(st.ledger, ApplyExit(st.ledger, st.open[k], rows, rolledTo, delivery, secs).ledger, rows, st.open[k].pk);
  }

  lemma BucketBalance(s: Ledger, g: MemGroup, rows: seq<Row>, rolledTo: Option<nat>, delivery: Option<nat>, secs: Securities)
    requires ExitReady(s, g, rows) && Holds(s.txns, g) && AllLeave(rows)
    ensures Balance(ApplyExit(s, g, rows, rolledTo, delivery, secs).ledger, g.pk) == Balance(s, g.pk)
  {
    ExitShape(s, g, rows, rolledTo, delivery, secs);
    ExitHolds(s, g, rows);
    ExitKeepsBalance(s, g, rows, rolledTo, delivery, secs, g.pk);
    AttachKeepsUnique(s.txns, Ids(rows), g.pk);
    HoldsSum(s.txns, g);
    HoldsSum(AttachAll(s.txns, Ids(rows), g.pk), ExtendUnique(g, rows));
  }
}
