/** The writes reconcile makes: attach and exit, group creation, self-heal. Each is the
    specification its method (module Store) is proved against. */
module Exits {
  import opened Rows
  import opened Ordering
  import opened GroupNet
  import opened Routing
  import opened Books

  // ------------------------------------------------------------------------- applying exits

  function IsTradeExit(): Row -> bool {
    (r: Row) => !IsSettlement(r) && (IsClosingVerb(r.action) || IsBare(r.action))
  }

  function SettlementEvent(t: SubType): EventKind {
    match t
    case Expiration => ExpirationEvent
    case Assignment => AssignmentEvent
    case CashSettledAssignment => AssignmentEvent
    case _ => ExerciseEvent
  }

  function SettlesAs(kind: EventKind): Row -> bool {
    (r: Row) => IsSettlement(r) && SettlementEvent(r.subType) == kind
  }

  // Settlement event kinds in order of first appearance.
  function SettlementKinds(rows: seq<Row>): seq<EventKind> {
    if rows == [] then []
    else
      var before, r := SettlementKinds(rows[..|rows| - 1]), rows[|rows| - 1];
      if IsSettlement(r) && SettlementEvent(r.subType) !in before then before + [SettlementEvent(r.subType)] else before
  }

  function TradeExitEvent(pk: nat, trades: seq<Row>, fully: bool, at: Option<Time>): Event {
    Event(pk, if fully then FullExit else PartialExit, -SumQuantity(trades), SumNet(trades), at, None)
  }

  function SettlementEventOf(pk: nat, rows: seq<Row>, kind: EventKind, at: Option<Time>, delivery: Option<nat>): Event {
    var settled := Filter(rows, SettlesAs(kind));
    Event(pk, kind, -SettledQuantity(settled), SumNet(settled),
          if LatestAt(settled).Some? then LatestAt(settled) else at,
          if kind.AssignmentEvent? || kind.ExerciseEvent? then delivery else None)
  }

  function SettlementEvents(pk: nat, rows: seq<Row>, kinds: seq<EventKind>, at: Option<Time>, delivery: Option<nat>): seq<Event> {
    if kinds == [] then []
    else SettlementEvents(pk, rows, kinds[..|kinds| - 1], at, delivery)
         + [SettlementEventOf(pk, rows, kinds[|kinds| - 1], at, delivery)]
  }

  function ExitEvents(pk: nat, rows: seq<Row>, fully: bool, rolledTo: Option<nat>, delivery: Option<nat>): seq<Event> {
    var at, trades := LatestAt(rows), Filter(rows, IsTradeExit());
    (if trades != [] then [TradeExitEvent(pk, trades, fully, at)] else [])
    + SettlementEvents(pk, rows, SettlementKinds(rows), at, delivery)
    + (if rolledTo.Some? then [Event(pk, Roll, 0.0, 0.0, at, rolledTo)] else [])
  }

  // Status, close time, gross profit and complete fees of a group whose content is closed.
  function ClosedGroup(g: Group, rows: seq<Row>, at: Option<Time>, secs: Securities): Group {
    g.(status := TerminalStatus(rows), closedAt := at, realized := Some(GroupRealized(rows, secs)), fees := SumFees(rows))
  }

  datatype Exit = Exit(ledger: Ledger, group: MemGroup, rows: seq<Row>, fullyClosed: bool)

  /** Attach closing rows to their open group, emit its events, flip it once fully offset.
      Rows the group already holds are attached again but otherwise not re-applied. */
  function ApplyExit(s: Ledger, g: MemGroup, rows: seq<Row>, rolledTo: Option<nat>, delivery: Option<nat>,
                     secs: Securities): Exit {
    var attached, added := Attach(s, rows, g.pk), Fresh(g, rows);
    if added == [] then Exit(attached, g, [], FullyClosed(g.rows))
    else
      var held := g.(rows := g.rows + added);
      var fully := FullyClosed(held.rows);
      var logged := AddEvents(attached, ExitEvents(g.pk, added, fully, rolledTo, delivery));
      if fully && HasGroup(logged, g.pk)
      then Exit(SetGroup(logged, g.pk, ClosedGroup(GroupAt(logged, g.pk), held.rows, LatestAt(added), secs)), held, added, true)
      else Exit(logged, held, added, fully)
  }

  // ---------------------------------------------------------------------- creating a group

  function CreateGroup(s: Ledger, account: AccountId, rows: seq<Row>): Ledger {
    var pk := |s.groups| + 1;
    var g := FreshGroup(pk, account, rows);
    AddEvents(Attach(s.(groups := s.groups + [g]), rows, pk),
              [Event(pk, Entry, g.quantity.GetOr(0.0), g.premium, g.executedAt, None)])
  }

  // ------------------------------------------------------------------------------ self-heal

  function HealOne(s: Ledger, g: MemGroup, secs: Securities): Ledger {
    if FullyClosed(g.rows) && HasGroup(s, g.pk) then
      AddEvents(SetGroup(s, g.pk, ClosedGroup(GroupAt(s, g.pk), g.rows, LatestAt(g.rows), secs)),
                [Event(g.pk, Adjustment, 0.0, 0.0, LatestAt(g.rows), None)])
    else s
  }

  function HealAll(s: Ledger, groups: seq<MemGroup>, secs: Securities): Ledger {
    if groups == [] then s else HealOne(HealAll(s, groups[..|groups| - 1], secs), groups[|groups| - 1], secs)
  }

  function Heal(s: Ledger, account: AccountId, secs: Securities): Ledger {
    HealAll(s, LoadOpen(s, account), secs)
  }

  // ---------------------------------------------------------------------------- event sums

  function Premium(events: seq<Event>, pk: nat): real {
    if events == [] then 0.0
    else Premium(events[..|events| - 1], pk) + (if events[|events| - 1].group == pk then events[|events| - 1].premiumChange else 0.0)
  }

  lemma {:induction false} PremiumConcat(a: seq<Event>, b: seq<Event>, pk: nat)
    ensures Premium(a + b, pk) == Premium(a, pk) + Premium(b, pk)
  {
    if b == [] {
      assert a + b == a;
    } else {
      PremiumConcat(a, b[..|b| - 1], pk);
      assert (a + b)[..|a + b| - 1] == a + b[..|b| - 1];
    }
  }

  lemma SumNetAppend(rows: seq<Row>, r: Row)
    ensures SumNet(rows + [r]) == SumNet(rows) + SignedNet(r)
  {
    assert (rows + [r])[..|rows|] == rows;
  }

  lemma {:induction false} SumNetConcat(a: seq<Row>, b: seq<Row>)
    ensures SumNet(a + b) == SumNet(a) + SumNet(b)
  {
    if b == [] {
      assert a + b == a;
    } else {
      SumNetConcat(a, b[..|b| - 1]);
      assert (a + b)[..|a + b| - 1] == a + b[..|b| - 1];
    }
  }

  // Premium of the settlement rows whose kind is listed.
  function NetOfKinds(rows: seq<Row>, kinds: seq<EventKind>): real {
    if kinds == [] then 0.0
    else NetOfKinds(rows, kinds[..|kinds| - 1]) + SumNet(Filter(rows, SettlesAs(kinds[|kinds| - 1])))
  }

  lemma {:induction false} SettlementPremium(pk: nat, rows: seq<Row>, kinds: seq<EventKind>, at: Option<Time>, delivery: Option<nat>)
    ensures Premium(SettlementEvents(pk, rows, kinds, at, delivery), pk) == NetOfKinds(rows, kinds)
    ensures forall q :: q != pk ==> Premium(SettlementEvents(pk, rows, kinds, at, delivery), q) == 0.0
  {
    if kinds != [] {
      SettlementPremium(pk, rows, kinds[..|kinds| - 1], at, delivery);
    }
  }

  lemma SettledAppend(rows: seq<Row>, r: Row, kind: EventKind)
    ensures SumNet(Filter(rows + [r], SettlesAs(kind)))
         == SumNet(Filter(rows, SettlesAs(kind))) + (if IsSettlement(r) && SettlementEvent(r.subType) == kind then SignedNet(r) else 0.0)
  {
    hide SignedNet, SumNet, SettlementEvent, Filter;
    FilterAppend(rows, r, SettlesAs(kind));
    if SettlesAs(kind)(r) {
      SumNetAppend(Filter(rows, SettlesAs(kind)), r);
    } else {
      assert Filter(rows, SettlesAs(kind)) + [] == Filter(rows, SettlesAs(kind));
    }
  }

  lemma {:induction false} NetOfKindsAppend(rows: seq<Row>, r: Row, kinds: seq<EventKind>)
    requires NoRepeats(kinds)
    ensures NetOfKinds(rows + [r], kinds) == NetOfKinds(rows, kinds)
         + (if IsSettlement(r) && SettlementEvent(r.subType) in kinds then SignedNet(r) else 0.0)
  {
    hide SignedNet, SumNet, SettlementEvent, Filter;
    if kinds != [] {
      var front, kind := kinds[..|kinds| - 1], kinds[|kinds| - 1];
      NetOfKindsAppend(rows, r, front);
      SettledAppend(rows, r, kind);
      assert kinds == front + [kind];
    }
  }

  lemma {:induction false} SettlementKindsCover(rows: seq<Row>)
    ensures NoRepeats(SettlementKinds(rows))
    ensures forall r :: r in rows && IsSettlement(r) ==> SettlementEvent(r.subType) in SettlementKinds(rows)
  {
    if rows != [] {
      SettlementKindsCover(rows[..|rows| - 1]);
      assert rows == rows[..|rows| - 1] + [rows[|rows| - 1]];
    }
  }

  lemma {:induction false} NoneOfKind(rows: seq<Row>, kind: EventKind)
    requires kind !in SettlementKinds(rows)
    ensures Filter(rows, SettlesAs(kind)) == []
  {
    if rows != [] {
      NoneOfKind(rows[..|rows| - 1], kind);
    }
  }

  // A row that can take from a position: a closing verb, a settlement, or a bare buy or sell.
  predicate Leaves(r: Row) {
    IsClosing(r) || IsBare(r.action)
  }

  predicate AllLeave(rows: seq<Row>) {
    forall i :: 0 <= i < |rows| ==> Leaves(rows[i])
  }

  lemma DrawsLeave(rows: seq<Row>)
    requires forall i :: 0 <= i < |rows| ==> Draws(rows[i])
    ensures AllLeave(rows)
  {
  }

  // Every row that can close is priced into exactly one event.
  lemma {:induction false} ExitRowsAreEvents(rows: seq<Row>)
    requires AllLeave(rows)
    ensures SumNet(Filter(rows, IsTradeExit())) + NetOfKinds(rows, SettlementKinds(rows)) == SumNet(rows)
  {
    hide SignedNet;
    if rows != [] {
      var front, r := rows[..|rows| - 1], rows[|rows| - 1];
      forall i | 0 <= i < |front|
        ensures Leaves(front[i])
      {
        assert front[i] == rows[i];
      }
      ExitRowsAreEvents(front);
      SettlementKindsCover(front);
      NetOfKindsAppend(front, r, SettlementKinds(front));
      assert rows == front + [r];
      assert Leaves(r);
      if IsSettlement(r) {
        var kind := SettlementEvent(r.subType);
        if kind !in SettlementKinds(front) {
          NoneOfKind(front, kind);
          FilterAppend(front, r, SettlesAs(kind));
          assert Filter(rows, SettlesAs(kind)) == [r];
          SumNetAppend([], r);
          assert [] + [r] == [r];
          var kinds := SettlementKinds(rows);
          assert kinds[..|kinds| - 1] == SettlementKinds(front);
        }
      } else {
        SumNetAppend(Filter(front, IsTradeExit()), r);
      }
    }
  }

  lemma PremiumOne(e: Event, q: nat)
    ensures Premium([e], q) == if e.group == q then e.premiumChange else 0.0
    ensures Premium([], q) == 0.0
  {
    assert [e][..0] == [];
  }

  /** The events of one exit carry exactly the cash of the rows it applied. */
  lemma ExitPremium(pk: nat, rows: seq<Row>, fully: bool, rolledTo: Option<nat>, delivery: Option<nat>, q: nat)
    requires AllLeave(rows)
    ensures Premium(ExitEvents(pk, rows, fully, rolledTo, delivery), q) == if q == pk then SumNet(rows) else 0.0
  {
    var at, trades := LatestAt(rows), Filter(rows, IsTradeExit());
    var exit, roll := TradeExitEvent(pk, trades, fully, at), Event(pk, Roll, 0.0, 0.0, at, rolledTo);
    var first := if trades != [] then [exit] else [];
    var middle := SettlementEvents(pk, rows, SettlementKinds(rows), at, delivery);
    var last := if rolledTo.Some? then [roll] else [];
    ExitRowsAreEvents(rows);
    SettlementPremium(pk, rows, SettlementKinds(rows), at, delivery);
    PremiumOne(exit, q);
    PremiumOne(roll, q);
    PremiumConcat(first, middle, q);
    PremiumConcat(first + middle, last, q);
    assert ExitEvents(pk, rows, fully, rolledTo, delivery) == first + middle + last;
  }
}
