/** What the events of an exit say of the rows it applied, and what ended a group. */
module ExitLog {
  import opened Rows
  import opened Ordering
  import opened GroupNet
  import opened Routing
  import opened Books
  import opened Exits
  import opened Membership
  import opened Reconcile
  import opened Attribution
  import opened PassProofs
  import opened RunProofs
  import opened Headers

  // ------------------------------------------------------------------------- by kind

  predicate TradesOut(r: Row) {
    !IsSettlement(r) && (r.action.BuyToClose? || r.action.SellToClose? || r.action.Buy? || r.action.Sell?)
  }

  predicate Expires(r: Row) {
    r.kind.ReceiveDeliver? && r.subType.Expiration?
  }

  predicate IsAssigned(r: Row) {
    r.kind.ReceiveDeliver? && (r.subType.Assignment? || r.subType.CashSettledAssignment?)
  }

  predicate IsExercised(r: Row) {
    r.kind.ReceiveDeliver? && (r.subType.Exercise? || r.subType.CashSettledExercise?)
  }

  // The rows an event of the kind is for.
  predicate IsFor(kind: EventKind, r: Row) {
    match kind
    case FullExit => TradesOut(r)
    case PartialExit => TradesOut(r)
    case ExpirationEvent => Expires(r)
    case AssignmentEvent => IsAssigned(r)
    case ExerciseEvent => IsExercised(r)
    case _ => false
  }

  function ForKind(kind: EventKind): Row -> bool {
    (r: Row) => IsFor(kind, r)
  }

  function OfKind(kind: EventKind): Event -> bool {
    (e: Event) => e.kind == kind
  }

  // Contracts out of the group: of trades all, of settlements one security at a time, the cash
  // half counting only where there is nothing else.
  function Retires(kind: EventKind, rows: seq<Row>): real {
    if kind.FullExit? || kind.PartialExit? then SumQuantity(rows) else SettledQuantity(rows)
  }

  // When the event happened: trades with the last row of the exit, settlements with the last of
  // their own, if any is dated.
  function Happened(kind: EventKind, mine: seq<Row>, all: seq<Row>): Option<Time> {
    if kind.FullExit? || kind.PartialExit? || LatestAt(mine).None? then LatestAt(all) else LatestAt(mine)
  }

  // The only event of a kind that an exit of these rows logs, if it logs one.
  function EventFor(pk: nat, kind: EventKind, rows: seq<Row>, fully: bool, rolledTo: Option<nat>, delivery: Option<nat>): seq<Event> {
    var mine := Filter(rows, ForKind(kind));
    if kind.Roll? then
      if rolledTo.Some? then [Event(pk, Roll, 0.0, 0.0, LatestAt(rows), rolledTo)] else []
    else if mine == [] || (kind.FullExit? && !fully) || (kind.PartialExit? && fully) then []
    else [Event(pk, kind, -Retires(kind, mine), SumNet(mine), Happened(kind, mine, rows),
                if kind.AssignmentEvent? || kind.ExerciseEvent? then delivery else None)]
  }

  lemma {:induction false} SameRowsChosen(rows: seq<Row>, p: Row -> bool, q: Row -> bool)
    requires forall r: Row :: p(r) == q(r)
    ensures Filter(rows, p) == Filter(rows, q)
  {
    if rows != [] {
      SameRowsChosen(rows[..|rows| - 1], p, q);
    }
  }

  lemma {:induction false} KindsOf(rows: seq<Row>, kind: EventKind)
    ensures kind in SettlementKinds(rows) <==> exists r :: r in rows && IsSettlement(r) && SettlementEvent(r.subType) == kind
  {
    if rows != [] {
      var front, r := rows[..|rows| - 1], rows[|rows| - 1];
      KindsOf(front, kind);
      assert rows == front + [r];
      if x :| x in front && IsSettlement(x) && SettlementEvent(x.subType) == kind {
        assert x in rows;
      }
      if IsSettlement(r) && SettlementEvent(r.subType) == kind {
        assert r in rows;
      }
    }
  }

  // Among the settlement events, exactly one of each listed kind.
  lemma {:induction false} OneOfEach(pk: nat, rows: seq<Row>, kinds: seq<EventKind>, at: Option<Time>, delivery: Option<nat>, kind: EventKind)
    requires NoRepeats(kinds)
    ensures Filter(SettlementEvents(pk, rows, kinds, at, delivery), OfKind(kind))
         == if kind in kinds then [SettlementEventOf(pk, rows, kind, at, delivery)] else []
  {
    hide SettledQuantity, SumNet, LatestAt;
    if kinds != [] {
      var front, last := kinds[..|kinds| - 1], kinds[|kinds| - 1];
      OneOfEach(pk, rows, front, at, delivery, kind);
      assert kinds == front + [last];
      FilterAppend(SettlementEvents(pk, rows, front, at, delivery), SettlementEventOf(pk, rows, last, at, delivery), OfKind(kind));
    }
  }

  lemma SettlementRowsOf(rows: seq<Row>, kind: EventKind)
    requires kind.ExpirationEvent? || kind.AssignmentEvent? || kind.ExerciseEvent?
    ensures Filter(rows, SettlesAs(kind)) == Filter(rows, ForKind(kind))
    ensures kind in SettlementKinds(rows) <==> Filter(rows, ForKind(kind)) != []
  {
    SameRowsChosen(rows, SettlesAs(kind), ForKind(kind));
    KindsOf(rows, kind);
    var mine := Filter(rows, ForKind(kind));
    if mine != [] {
      FilterMember(rows, mine[0], ForKind(kind));
    }
    if x :| x in rows && IsSettlement(x) && SettlementEvent(x.subType) == kind {
      FilterMember(rows, x, ForKind(kind));
    }
  }

  lemma NotASettlementKind(rows: seq<Row>, kind: EventKind)
    requires !(kind.ExpirationEvent? || kind.AssignmentEvent? || kind.ExerciseEvent?)
    ensures kind !in SettlementKinds(rows)
  {
    KindsOf(rows, kind);
  }

  lemma TradeRowsOf(rows: seq<Row>)
    ensures Filter(rows, IsTradeExit()) == Filter(rows, ForKind(FullExit)) == Filter(rows, ForKind(PartialExit))
  {
    SameRowsChosen(rows, IsTradeExit(), ForKind(FullExit));
    SameRowsChosen(rows, IsTradeExit(), ForKind(PartialExit));
  }

  // The three stretches of an exit's events.
  function TradePart(pk: nat, rows: seq<Row>, fully: bool): seq<Event> {
    var trades := Filter(rows, IsTradeExit());
    if trades != [] then [TradeExitEvent(pk, trades, fully, LatestAt(rows))] else []
  }

  function SettledPart(pk: nat, rows: seq<Row>, delivery: Option<nat>): seq<Event> {
    SettlementEvents(pk, rows, SettlementKinds(rows), LatestAt(rows), delivery)
  }

  function RollPart(pk: nat, rows: seq<Row>, rolledTo: Option<nat>): seq<Event> {
    if rolledTo.Some? then [Event(pk, Roll, 0.0, 0.0, LatestAt(rows), rolledTo)] else []
  }

  lemma TradePartIs(pk: nat, rows: seq<Row>, fully: bool, rolledTo: Option<nat>, delivery: Option<nat>, kind: EventKind)
    ensures Filter(TradePart(pk, rows, fully), OfKind(kind))
         == if kind.FullExit? || kind.PartialExit? then EventFor(pk, kind, rows, fully, rolledTo, delivery) else []
  {
    hide SumNet, SumQuantity, LatestAt, Filter, SettledQuantity;
    TradeRowsOf(rows);
    Lone(TradePart(pk, rows, fully), OfKind(kind));
  }

  lemma SettledPartIs(pk: nat, rows: seq<Row>, fully: bool, rolledTo: Option<nat>, delivery: Option<nat>, kind: EventKind)
    ensures Filter(SettledPart(pk, rows, delivery), OfKind(kind))
         == if kind.ExpirationEvent? || kind.AssignmentEvent? || kind.ExerciseEvent?
            then EventFor(pk, kind, rows, fully, rolledTo, delivery) else []
  {
    hide SettledQuantity, SumNet, SumQuantity, LatestAt, SettlementKinds, SettlementEvents, Filter, SettlementEvent;
    SettlementKindsCover(rows);
    OneOfEach(pk, rows, SettlementKinds(rows), LatestAt(rows), delivery, kind);
    if kind.ExpirationEvent? || kind.AssignmentEvent? || kind.ExerciseEvent? {
      SettlementRowsOf(rows, kind);
    } else {
      NotASettlementKind(rows, kind);
    }
  }

  lemma RollPartIs(pk: nat, rows: seq<Row>, fully: bool, rolledTo: Option<nat>, delivery: Option<nat>, kind: EventKind)
    ensures Filter(RollPart(pk, rows, rolledTo), OfKind(kind))
         == if kind.Roll? then EventFor(pk, kind, rows, fully, rolledTo, delivery) else []
  {
    hide LatestAt, Filter;
    Lone(RollPart(pk, rows, rolledTo), OfKind(kind));
  }

  lemma EventsByKind(pk: nat, rows: seq<Row>, fully: bool, rolledTo: Option<nat>, delivery: Option<nat>, kind: EventKind)
    ensures Filter(ExitEvents(pk, rows, fully, rolledTo, delivery), OfKind(kind)) == EventFor(pk, kind, rows, fully, rolledTo, delivery)
  {
    hide EventFor, Filter, LatestAt, SettlementEvents, TradeExitEvent, SettlementKinds;
    var first, middle, last := TradePart(pk, rows, fully), SettledPart(pk, rows, delivery), RollPart(pk, rows, rolledTo);
    assert ExitEvents(pk, rows, fully, rolledTo, delivery) == first + middle + last;
    FilterConcat(first, middle, OfKind(kind));
    FilterConcat(first + middle, last, OfKind(kind));
    TradePartIs(pk, rows, fully, rolledTo, delivery, kind);
    SettledPartIs(pk, rows, fully, rolledTo, delivery, kind);
    RollPartIs(pk, rows, fully, rolledTo, delivery, kind);
    NoneFor(pk, rows, kind, fully, rolledTo, delivery);
  }

  lemma Lone(events: seq<Event>, p: Event -> bool)
    requires |events| <= 1
    ensures Filter(events, p) == if events != [] && p(events[0]) then events else []
  {
    if events != [] {
      assert events[..0] == [];
    }
  }

  lemma NoneFor(pk: nat, rows: seq<Row>, kind: EventKind, fully: bool, rolledTo: Option<nat>, delivery: Option<nat>)
    ensures kind.Entry? || kind.Adjustment? ==> EventFor(pk, kind, rows, fully, rolledTo, delivery) == []
  {
    if kind.Entry? || kind.Adjustment? {
      NothingSelected(rows, ForKind(kind));
    }
  }

  /** An exit logs, of each kind, exactly the event its rows call for: one for the trades, full
      or partial as the group is left; one each for expirations, assignments and exercises, the
      latter two linked to what was delivered; and one for a roll. No row, no event. */
  lemma ExitLogs(s: Ledger, g: MemGroup, rows: seq<Row>, rolledTo: Option<nat>, delivery: Option<nat>, secs: Securities, kind: EventKind)
    requires HasGroup(s, g.pk)
    ensures var e := ApplyExit(s, g, rows, rolledTo, delivery, secs);
            && e.ledger.events[..|s.events|] == s.events && |s.events| <= |e.ledger.events|
            && (Fresh(g, rows) == [] ==> e.ledger.events == s.events)
            && (Fresh(g, rows) != [] ==>
                  Filter(e.ledger.events[|s.events|..], OfKind(kind))
                  == EventFor(g.pk, kind, Fresh(g, rows), e.fullyClosed, rolledTo, delivery))
  {
    hide ApplyExit, ExitEvents, EventFor, Fresh, FullyClosed, ClosedGroup;
    ExitShape(s, g, rows, rolledTo, delivery, secs);
    var e := ApplyExit(s, g, rows, rolledTo, delivery, secs);
    if Fresh(g, rows) != [] {
      var more := ExitEvents(g.pk, Fresh(g, rows), e.fullyClosed, rolledTo, delivery);
      assert e.ledger.events[|s.events|..] == more;
      EventsByKind(g.pk, Fresh(g, rows), e.fullyClosed, rolledTo, delivery, kind);
    }
  }

  // ------------------------------------------------------------------- over a cluster

  // One bucket's part of the log.
  lemma BucketLogs(st: Pass, groups: seq<MemGroup>, buckets: seq<Bucket>, rest: seq<Row>, newPk: Option<nat>, secs: Securities,
                      link: Linker, q: nat)
    requires BucketsIn(buckets, groups) && buckets != []
    requires HasGroup(ApplyBuckets(st, groups, buckets[..|buckets| - 1], rest, newPk, secs, link).ledger,
                      groups[buckets[|buckets| - 1].group].pk)
    ensures var front, b := buckets[..|buckets| - 1], buckets[|buckets| - 1];
            var g, before := groups[b.group], ApplyBuckets(st, groups, front, rest, newPk, secs, link).ledger;
            var fully := FullyClosed(ExtendUnique(g, b.rows).rows);
            EventsOf(ApplyBuckets(st, groups, buckets, rest, newPk, secs, link).ledger.events, q)
            == EventsOf(before.events, q)
               + (if q != g.pk || Fresh(g, b.rows) == [] then []
                  else ExitEvents(q, Fresh(g, b.rows), fully, TargetIf(link.sameUnderlying(b.rows, rest), newPk),
                                  TargetIf(link.delivers(b.rows, rest), newPk)))
  {
    hide ApplyExit, ExitEvents, FullyClosed, Fresh, ExtendUnique, TargetIf, ClosedGroup;
    var b := buckets[|buckets| - 1];
    var g, before := groups[b.group], ApplyBuckets(st, groups, buckets[..|buckets| - 1], rest, newPk, secs, link).ledger;
    var rolled, delivery := TargetIf(link.sameUnderlying(b.rows, rest), newPk), TargetIf(link.delivers(b.rows, rest), newPk);
    ExitShape(before, g, b.rows, rolled, delivery, secs);
    var fully := FullyClosed(ExtendUnique(g, b.rows).rows);
    var more := if Fresh(g, b.rows) == [] then [] else ExitEvents(g.pk, Fresh(g, b.rows), fully, rolled, delivery);
    ExitEventsOfGroup(g.pk, Fresh(g, b.rows), fully, rolled, delivery);
    FilterConcat(before.events, more, EventIn(q));
    if q == g.pk {
      AllSelected(more, EventIn(q));
    } else {
      NothingSelected(more, EventIn(q));
    }
  }

  /** The log of a routed cluster: each bucket's group gains the events of its own exit and no
      others, rolled to the cluster's new group exactly when there is one and the linker takes
      the two for a roll, and linked to it as delivery exactly when it takes it for that. */
  lemma {:induction false} ClusterLogs(st: Pass, groups: seq<MemGroup>, buckets: seq<Bucket>, rest: seq<Row>, newPk: Option<nat>,
                                       secs: Securities, link: Linker, k: nat)
    requires BucketsIn(buckets, groups) && k < |buckets|
    requires forall i, j :: 0 <= i < j < |buckets| ==> groups[buckets[i].group].pk != groups[buckets[j].group].pk
    requires forall i :: 0 <= i < |buckets| ==> HasGroup(st.ledger, groups[buckets[i].group].pk)
    requires Fresh(groups[buckets[k].group], buckets[k].rows) != []
    ensures var b, g := buckets[k], groups[buckets[k].group];
            var rolls, delivers := newPk.Some? && link.sameUnderlying(b.rows, rest), newPk.Some? && link.delivers(b.rows, rest);
            var more := ExitEvents(g.pk, Fresh(g, b.rows), FullyClosed(ExtendUnique(g, b.rows).rows),
                                   if rolls then newPk else None, if delivers then newPk else None);
            EventsOf(ApplyBuckets(st, groups, buckets, rest, newPk, secs, link).ledger.events, g.pk) == EventsOf(st.ledger.events, g.pk) + more
  {
    hide ApplyExit, ExitEvents, FullyClosed, ExtendUnique, Fresh, EventsOf;
    var front, n := buckets[..|buckets| - 1], |buckets| - 1;
    BucketsAttribute(st, groups, front, rest, newPk, secs, link);
    BucketLogs(st, groups, buckets, rest, newPk, secs, link, groups[buckets[k].group].pk);
    if k < n {
      ClusterLogs(st, groups, front, rest, newPk, secs, link, k);
      assert groups[buckets[k].group].pk != groups[buckets[n].group].pk;
    } else {
      UnaddressedLogNothing(st, groups, front, rest, newPk, secs, link, groups[buckets[n].group].pk);
    }
  }

  lemma {:induction false} UnaddressedLogNothing(st: Pass, groups: seq<MemGroup>, buckets: seq<Bucket>, rest: seq<Row>, newPk: Option<nat>,
                                            secs: Securities, link: Linker, q: nat)
    requires BucketsIn(buckets, groups)
    requires forall i :: 0 <= i < |buckets| ==> HasGroup(st.ledger, groups[buckets[i].group].pk) && groups[buckets[i].group].pk != q
    ensures EventsOf(ApplyBuckets(st, groups, buckets, rest, newPk, secs, link).ledger.events, q) == EventsOf(st.ledger.events, q)
  {
    hide ApplyExit, ExitEvents, FullyClosed, ExtendUnique, Fresh, EventsOf;
    if buckets != [] {
      var front := buckets[..|buckets| - 1];
      BucketsAttribute(st, groups, front, rest, newPk, secs, link);
      UnaddressedLogNothing(st, groups, front, rest, newPk, secs, link, q);
      BucketLogs(st, groups, buckets, rest, newPk, secs, link, q);
    }
  }

  /** So when rows are routed, a group some of them go to gains its own exit's events alone: rolled
      to the group the rest has just made exactly when there is a rest that the linker takes
      for a roll, and delivered into it exactly when the linker takes it for that. */
  lemma RoutedLogs(st: Pass, account: AccountId, rows: seq<Row>, secs: Securities, link: Linker, b: Bucket)
    requires forall i, j :: 0 <= i < j < |st.open| ==> st.open[i].pk != st.open[j].pk
    requires forall i :: 0 <= i < |st.open| ==> HasGroup(st.ledger, st.open[i].pk)
    requires b in Route(st.open, rows).buckets
    ensures b.group < |st.open|
    ensures var g, rest, made := st.open[b.group], Route(st.open, rows).rest, |st.ledger.groups| + 1;
            var rolls, delivers := rest != [] && link.sameUnderlying(b.rows, rest), rest != [] && link.delivers(b.rows, rest);
            var more := ExitEvents(g.pk, Fresh(g, b.rows), FullyClosed(ExtendUnique(g, b.rows).rows),
                                   if rolls then Some(made) else None, if delivers then Some(made) else None);
            Fresh(g, b.rows) != [] ==>
              EventsOf(RouteRows(st, account, rows, secs, link).ledger.events, g.pk) == EventsOf(st.ledger.events, g.pk) + more
  {
    hide ExitEvents, FullyClosed, ExtendUnique, Fresh, EventsOf, Route, ApplyBuckets, OpenRest;
    RoutePartitions(st.open, rows);
    var routed, g := Route(st.open, rows), st.open[b.group];
    var k :| 0 <= k < |routed.buckets| && routed.buckets[k] == b;
    var newPk := if routed.rest == [] then None else Some(|st.ledger.groups| + 1);
    RestLogsElsewhere(st, account, routed.rest, g.pk);
    if Fresh(g, b.rows) != [] {
      NoRowsNoBuckets(st.open, rows);
      ClusterLogs(OpenRest(st, account, routed.rest), st.open, routed.buckets, routed.rest, newPk, secs, link, k);
    }
  }

  lemma NoRowsNoBuckets(groups: seq<MemGroup>, rows: seq<Row>)
    ensures rows == [] ==> Route(groups, rows).buckets == []
  {
  }

  // Opening a group for the rest logs nothing for any other.
  lemma RestLogsElsewhere(st: Pass, account: AccountId, rest: seq<Row>, pk: nat)
    requires HasGroup(st.ledger, pk)
    ensures var after := OpenRest(st, account, rest).ledger;
            && EventsOf(after.events, pk) == EventsOf(st.ledger.events, pk)
            && (forall q :: HasGroup(st.ledger, q) ==> HasGroup(after, q))
  {
    hide FreshGroup, AttachAll;
    if rest != [] {
      var after := OpenRest(st, account, rest).ledger;
      var entry := after.events[|st.ledger.events|];
      assert after.events == st.ledger.events + [entry];
      FilterAppend(st.ledger.events, entry, EventIn(pk));
    }
  }

  // ------------------------------------------------------------------ what is settled

  predicate IsCashHalf(r: Row) {
    r.subType.CashSettledAssignment? || r.subType.CashSettledExercise?
  }

  function CashHalves(): Row -> bool {
    (r: Row) => IsCashHalf(r)
  }

  function RemovalHalves(): Row -> bool {
    (r: Row) => !IsCashHalf(r)
  }

  ghost predicate OneSecurityOnly(rows: seq<Row>, x: Option<SecurityId>) {
    forall r :: r in rows ==> r.security == x
  }

  lemma QuantityAppend(rows: seq<Row>, r: Row)
    ensures SumQuantity(rows + [r]) == SumQuantity(rows) + Abs(r.quantity.GetOr(0.0))
  {
    assert (rows + [r])[..|rows|] == rows;
  }

  lemma {:induction false} RetiredAre(rows: seq<Row>, x: Option<SecurityId>)
    requires OneSecurityOnly(rows, x)
    ensures RetiredBy(rows, x, false) == SumQuantity(Filter(rows, RemovalHalves()))
    ensures RetiredBy(rows, x, true) == SumQuantity(Filter(rows, CashHalves()))
  {
    hide SumQuantity;
    if rows == [] {
      NoQuantity();
    } else {
      var front, r := rows[..|rows| - 1], rows[|rows| - 1];
      assert rows == front + [r];
      RetiredAre(front, x);
      QuantityAppend(Filter(front, RemovalHalves()), r);
      QuantityAppend(Filter(front, CashHalves()), r);
    }
  }

  lemma NoQuantity()
    ensures SumQuantity([]) == 0.0
  {
  }

  lemma {:induction false} OneKey(rows: seq<Row>, x: Option<SecurityId>)
    requires OneSecurityOnly(rows, x)
    ensures Keys(rows) == [x] || Keys(rows) == []
    ensures Keys(rows) == [] ==> RetiredBy(rows, x, false) == 0.0 == RetiredBy(rows, x, true)
  {
    if rows != [] {
      var front, r := rows[..|rows| - 1], rows[|rows| - 1];
      assert rows == front + [r];
      OneKey(front, x);
    }
  }

  /** A settlement of one security counts its removal rows, and its cash rows only when those
      remove nothing: the two halves are one event. */
  lemma SettledCounts(rows: seq<Row>, x: Option<SecurityId>)
    requires OneSecurityOnly(rows, x)
    ensures var removed, cash := SumQuantity(Filter(rows, RemovalHalves())), SumQuantity(Filter(rows, CashHalves()));
            SettledQuantity(rows) == if removed != 0.0 then removed else cash
  {
    hide Keys, RetiredBy, SumQuantity;
    RetiredAre(rows, x);
    OneKey(rows, x);
    assert [x][..0] == [];
    assert RetiredOver(rows, [x]) == RetiredOver(rows, []) + RetiredIn(rows, x);
  }

  // --------------------------------------------------------------------- what ended it

  // A bare trade in a security that has come back to zero.
  predicate Flattens(r: Row, rows: seq<Row>) {
    (r.action.Buy? || r.action.Sell?) && r.security.Some? && r.security.value in NetQuantities(rows)
    && NetQuantities(rows)[r.security.value] == 0.0
  }

  /** What can have ended a group is read off its rows: settlements by what they are, whatever
      verb they carry; closing trades; and bare trades in what is flat. */
  lemma CausesAre(rows: seq<Row>)
    ensures Expired in CloseCauses(rows) <==> exists r :: r in rows && Expires(r)
    ensures Assigned in CloseCauses(rows) <==> exists r :: r in rows && IsAssigned(r)
    ensures Exercised in CloseCauses(rows) <==> exists r :: r in rows && IsExercised(r)
    ensures Closed in CloseCauses(rows) <==>
              exists r :: r in rows && !IsSettlement(r) && (r.action.BuyToClose? || r.action.SellToClose? || Flattens(r, rows))
    ensures CloseCauses(rows) <= {Expired, Assigned, Exercised, Closed}
  {
    hide NetQuantities;
    forall r | r in rows
      ensures CauseOf(r, NetQuantities(rows)) == Some(Expired) <==> Expires(r)
      ensures CauseOf(r, NetQuantities(rows)) == Some(Assigned) <==> IsAssigned(r)
      ensures CauseOf(r, NetQuantities(rows)) == Some(Exercised) <==> IsExercised(r)
      ensures CauseOf(r, NetQuantities(rows)) == Some(Closed) <==>
                !IsSettlement(r) && (r.action.BuyToClose? || r.action.SellToClose? || Flattens(r, rows))
    {
    }
  }

  // Something in the group could have opened a position.
  predicate MayOpen(r: Row) {
    r.action.BuyToOpen? || r.action.SellToOpen? || r.action.Buy? || r.action.Sell?
  }

  /** A group is fully closed when it traded something, some row of it could open, and every
      security it traded is back at zero; so a group that never traded, or only closed, is not. */
  lemma FullyClosedIs(rows: seq<Row>)
    ensures FullyClosed(rows) <==>
            && (exists s :: s in NetQuantities(rows)) && (exists r :: r in rows && MayOpen(r))
            && (forall s :: s in NetQuantities(rows) ==> NetQuantities(rows)[s] == 0.0)
    ensures (forall r :: r in rows ==> IsSettlement(r) || r.action.BuyToClose? || r.action.SellToClose?) ==> !FullyClosed(rows)
  {
    hide NetQuantities;
    assert NetQuantities(rows) != map[] <==> exists s :: s in NetQuantities(rows);
    if forall r :: r in rows ==> IsSettlement(r) || r.action.BuyToClose? || r.action.SellToClose? {
      forall r | r in OrderedPositionRows(rows)
        ensures IsClosing(r)
      {
        SortMember(Filter(rows, OnPosition()), r, GroupKey);
        FilterMember(rows, r, OnPosition());
      }
      OnlyClosesNetEmpty(rows);
    }
  }
}
