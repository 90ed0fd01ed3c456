/** Rebuilding positions and closed positions from the transactions, over the tables of the
    in-memory store that replay reads and writes. */
module Rebuild {
  import opened Rows
  import opened Ordering
  import opened Replay
  import opened Lifecycles
  import opened Routing
  import opened Tables
  import opened Upserts
  import Books

  type PositionKey = (AccountId, SecurityId)

  function KeyOfPosition(p: PositionRow): Option<PositionKey> {
    Some((p.account, p.security))
  }

  function KeyOf(c: ClosedRow): Option<ClosedKey> {
    Some(KeyOfClosed(c))
  }

  datatype Book = Book(txns: seq<Txn>, positions: seq<PositionRow>, closed: seq<ClosedRow>)

  // --------------------------------------------------------------------------- the input

  // Only rows with a security, a quantity and a time move a position.
  predicate Counts(r: Row, account: AccountId) {
    r.account == account && r.security.Some? && r.quantity.Some? && r.at.Some?
  }

  function CountsIn(account: AccountId, s: SecurityId): Row -> bool {
    (r: Row) => Counts(r, account) && r.security == Some(s)
  }

  function CountsFor(account: AccountId): Row -> bool {
    (r: Row) => Counts(r, account)
  }

  function SecurityRows(activity: seq<Row>, account: AccountId, s: SecurityId): seq<Row> {
    Sort(Filter(activity, CountsIn(account, s)), ReplayKey)
  }

  lemma {:induction false} FilteredCount(rows: seq<Row>, account: AccountId, s: SecurityId, r: Row)
    requires r in Filter(rows, CountsIn(account, s))
    ensures r in rows && Counts(r, account) && r.security == Some(s)
  {
    FilterMember(rows, r, CountsIn(account, s));
  }

  lemma SecurityRowsCount(activity: seq<Row>, account: AccountId, s: SecurityId)
    ensures Quantified(SecurityRows(activity, account, s))
    ensures forall r :: r in SecurityRows(activity, account, s) ==> r in activity && Counts(r, account) && r.security == Some(s)
  {
    forall r | r in SecurityRows(activity, account, s)
      ensures r in activity && Counts(r, account) && r.security == Some(s)
    {
      SortMember(Filter(activity, CountsIn(account, s)), r, ReplayKey);
      FilteredCount(activity, account, s, r);
    }
  }

  // The account's securities, in order of first appearance.
  function SecuritiesOf(activity: seq<Row>, account: AccountId): seq<SecurityId> {
    Books.Distinct(Filter(activity, CountsFor(account)))
  }

  function LastActivity(activity: seq<Row>, account: AccountId): Option<Time> {
    Books.LatestAt(Filter(activity, CountsFor(account)))
  }

  // ------------------------------------------------------------------------ one security

  // What one security's rows come to: the position carries over what replay has no opinion on.
  function Replayed(activity: seq<Row>, account: AccountId, s: SecurityId, secs: Books.Securities, last: Option<Time>,
                    existing: Option<PositionRow>): (PositionRow, seq<PlanItem>) {
    SecurityRowsCount(activity, account, s);
    var multiplier := Books.MultiplierOf(secs, s);
    var w := Run(SecurityRows(activity, account, s), account, s, multiplier);
    LapseExpiredLot(Replay.PositionOf(account, s, w, multiplier, existing), w.plan, if s in secs then secs[s].expiry else None,
                    multiplier, last)
  }

  function Stored(positions: seq<PositionRow>, account: AccountId, s: SecurityId): Option<PositionRow> {
    var i := Tables.PositionOf(positions, (account, s), KeyOfPosition);
    if i.Some? then Some(positions[i.value]) else None
  }

  type Link = (Option<nat>, Option<nat>)

  function Marked(item: PlanItem, position: nat): Option<nat> {
    if item.marksOpen then Some(position) else None
  }

  // Writes the lifecycles in plan order and collects what each transaction links to.
  function WritePlan(closed: seq<ClosedRow>, plan: seq<PlanItem>, position: nat): (seq<ClosedRow>, map<PlanKey, Link>) {
    if plan == [] then (closed, map[])
    else
      var item := plan[|plan| - 1];
      var (before, links) := WritePlan(closed, plan[..|plan| - 1], position);
      if item.closed.None? then (before, links[item.key := (Marked(item, position), None)])
      else (Upserted(before, item.closed.value, KeyOf),
            links[item.key := (Marked(item, position), Some(UpsertId(before, item.closed.value, KeyOf)))])
  }

  function LinkTxn(t: Txn, links: map<PlanKey, Link>): Txn {
    if OfRow(t.row.id) in links then t.(positionId := links[OfRow(t.row.id)].0, closedId := links[OfRow(t.row.id)].1) else t
  }

  function LinkAll(txns: seq<Txn>, links: map<PlanKey, Link>): seq<Txn> {
    seq(|txns|, i requires 0 <= i < |txns| => LinkTxn(txns[i], links))
  }

  function RebuildSecurity(b: Book, activity: seq<Row>, account: AccountId, s: SecurityId, secs: Books.Securities,
                           last: Option<Time>): Book {
    var (p, plan) := Replayed(activity, account, s, secs, last, Stored(b.positions, account, s));
    var (closed, links) := WritePlan(b.closed, plan, UpsertId(b.positions, p, KeyOfPosition));
    Book(LinkAll(b.txns, links), Upserted(b.positions, p, KeyOfPosition), closed)
  }

  function RebuildEach(b: Book, activity: seq<Row>, account: AccountId, held: seq<SecurityId>, secs: Books.Securities,
                       last: Option<Time>): Book {
    if held == [] then b
    else RebuildSecurity(RebuildEach(b, activity, account, held[..|held| - 1], secs, last), activity, account, held[|held| - 1],
                         secs, last)
  }

  function Rebuild(b: Book, account: AccountId, secs: Books.Securities): Book {
    var activity := RowsOf(b.txns);
    RebuildEach(b, activity, account, SecuritiesOf(activity, account), secs, LastActivity(activity, account))
  }

  // ----------------------------------------------------------------- tables stay addressed

  lemma PositionUnique<K, T>(s: seq<T>, k: K, keyOf: T -> Option<K>, i: nat)
    requires UniqueKeys(s, keyOf) && i < |s| && keyOf(s[i]) == Some(k)
    ensures Tables.PositionOf(s, k, keyOf) == Some(i)
  {
    SameKeySameRow(s, keyOf, Tables.PositionOf(s, k, keyOf).value, i);
  }

  // An upsert puts its row under its key and leaves every other key where it was.
  lemma {:induction false} UpsertedAt<K, T>(s: seq<T>, row: T, keyOf: T -> Option<K>, k: K)
    requires UniqueKeys(s, keyOf) && keyOf(row).Some?
    ensures var after, key, i := Upserted(s, row, keyOf), keyOf(row).value, Tables.PositionOf(s, k, keyOf);
            var j := Tables.PositionOf(after, k, keyOf);
            && UniqueKeys(after, keyOf)
            && (k == key ==> j == Some(UpsertId(s, row, keyOf) - 1) && after[j.value] == row)
            && (k != key ==> j == i && (i.Some? ==> after[i.value] == s[i.value]))
            && (i.Some? ==> j == i)
  {
    hide Tables.PositionOf;
    UpsertedUnique(s, row, keyOf);
    var after, key, i := Upserted(s, row, keyOf), keyOf(row).value, Tables.PositionOf(s, k, keyOf);
    if k == key {
      PositionUnique(after, k, keyOf, UpsertId(s, row, keyOf) - 1);
    } else if i.Some? {
      PositionUnique(after, k, keyOf, i.value);
    }
  }

  // ------------------------------------------------------------------ lifecycles in the table

  // The lifecycle written last under a key.
  function Final(closed: seq<ClosedRow>, k: ClosedKey): (c: Option<ClosedRow>)
    ensures c.Some? ==> c.value in closed && KeyOfClosed(c.value) == k
    ensures c.None? ==> forall d :: d in closed ==> KeyOfClosed(d) != k
  {
    if closed == [] then None
    else if KeyOfClosed(closed[|closed| - 1]) == k then Some(closed[|closed| - 1])
    else
      assert closed == closed[..|closed| - 1] + [closed[|closed| - 1]];
      Final(closed[..|closed| - 1], k)
  }

  function IdIn(closed: seq<ClosedRow>, k: ClosedKey): Option<nat> {
    var i := Tables.PositionOf(closed, k, KeyOf);
    if i.Some? then Some(i.value + 1) else None
  }

  // The row under a key, if any.
  function RowAt(closed: seq<ClosedRow>, k: ClosedKey): Option<ClosedRow> {
    var i := Tables.PositionOf(closed, k, KeyOf);
    if i.Some? then Some(closed[i.value]) else None
  }

  lemma {:induction false} WritePlanAt(closed: seq<ClosedRow>, plan: seq<PlanItem>, position: nat, k: ClosedKey)
    requires UniqueKeys(closed, KeyOf)
    ensures var after := WritePlan(closed, plan, position).0;
            && UniqueKeys(after, KeyOf)
            && (IdIn(closed, k).Some? ==> IdIn(after, k) == IdIn(closed, k))
            && (Final(ClosedRows(plan), k).Some? ==> RowAt(after, k) == Final(ClosedRows(plan), k))
            && (Final(ClosedRows(plan), k).None? ==> RowAt(after, k) == RowAt(closed, k) && IdIn(after, k) == IdIn(closed, k))
  {
    hide Tables.PositionOf, Upserted, UpsertId;
    if plan != [] {
      var item, front := plan[|plan| - 1], plan[..|plan| - 1];
      WritePlanAt(closed, front, position, k);
      if item.closed.Some? {
        UpsertedAt(WritePlan(closed, front, position).0, item.closed.value, KeyOf, k);
        LastIsFinal(ClosedRows(front), item.closed.value, k);
      }
    }
  }

  lemma LastIsFinal(closed: seq<ClosedRow>, c: ClosedRow, k: ClosedKey)
    ensures Final(closed + [c], k) == if KeyOfClosed(c) == k then Some(c) else Final(closed, k)
  {
    assert (closed + [c])[..|closed|] == closed;
  }

  function FinalLinks(plan: seq<PlanItem>, position: nat, closed: seq<ClosedRow>): map<PlanKey, Link> {
    if plan == [] then map[]
    else
      var item := plan[|plan| - 1];
      FinalLinks(plan[..|plan| - 1], position, closed)
      [item.key := (Marked(item, position), if item.closed.Some? then IdIn(closed, KeyOfClosed(item.closed.value)) else None)]
  }

  // Ids, once given, stay: the links collected on the way are those of the table at the end.
  lemma {:induction false} LinksAreFinal(closed: seq<ClosedRow>, plan: seq<PlanItem>, position: nat, later: seq<ClosedRow>)
    requires UniqueKeys(closed, KeyOf)
    requires forall k :: IdIn(WritePlan(closed, plan, position).0, k).Some? ==>
               IdIn(later, k) == IdIn(WritePlan(closed, plan, position).0, k)
    ensures WritePlan(closed, plan, position).1 == FinalLinks(plan, position, later)
  {
    hide IdIn, Upserted;
    if plan != [] {
      var item, front := plan[|plan| - 1], plan[..|plan| - 1];
      var before := WritePlan(closed, front, position).0;
      forall k
        ensures IdIn(before, k).Some? ==> IdIn(later, k) == IdIn(before, k)
        ensures item.closed.Some? && k == KeyOfClosed(item.closed.value) ==>
                  IdIn(later, k) == Some(UpsertId(before, item.closed.value, KeyOf))
      {
        WritePlanAt(closed, front, position, k);
        if item.closed.Some? {
          AfterUpsert(before, item.closed.value, k);
        }
      }
      LinksAreFinal(closed, front, position, later);
    }
  }

  lemma AfterUpsert(closed: seq<ClosedRow>, c: ClosedRow, k: ClosedKey)
    requires UniqueKeys(closed, KeyOf)
    ensures IdIn(closed, k).Some? ==> IdIn(Upserted(closed, c, KeyOf), k) == IdIn(closed, k)
    ensures k == KeyOfClosed(c) ==> IdIn(Upserted(closed, c, KeyOf), k) == Some(UpsertId(closed, c, KeyOf))
  {
    hide Tables.PositionOf, Upserted;
    UpsertedAt(closed, c, KeyOf, k);
  }

  // ------------------------------------------------------------------------- settled books

  ghost predicate Tidy(b: Book) {
    UniqueKeys(b.txns, TxnKey) && UniqueKeys(b.positions, KeyOfPosition) && UniqueKeys(b.closed, KeyOf)
  }

  ghost predicate LifecyclesIn(closed: seq<ClosedRow>, plan: seq<PlanItem>) {
    forall k :: Final(ClosedRows(plan), k).Some? ==> RowAt(closed, k) == Final(ClosedRows(plan), k)
  }

  ghost predicate Linked(txns: seq<Txn>, links: map<PlanKey, Link>) {
    forall i :: 0 <= i < |txns| ==> LinkTxn(txns[i], links) == txns[i]
  }

  // The books say about one security what its rows come to.
  ghost predicate Settled(b: Book, activity: seq<Row>, account: AccountId, s: SecurityId, secs: Books.Securities,
                          last: Option<Time>) {
    var i := Tables.PositionOf(b.positions, (account, s), KeyOfPosition);
    && i.Some?
    && var (p, plan) := Replayed(activity, account, s, secs, last, Some(b.positions[i.value]));
       && p == b.positions[i.value]
       && LifecyclesIn(b.closed, plan)
       && Linked(b.txns, FinalLinks(plan, i.value + 1, b.closed))
  }

  // The plan does not depend on the stored position, and what is carried over is carried on.
  lemma CarriedOn(activity: seq<Row>, account: AccountId, s: SecurityId, secs: Books.Securities, last: Option<Time>,
                  existing: Option<PositionRow>)
    ensures var (p, plan) := Replayed(activity, account, s, secs, last, existing);
            Replayed(activity, account, s, secs, last, Some(p)) == (p, plan) && KeyOfPosition(p) == Some((account, s))
  {
    hide Run, SecurityRows;
    SecurityRowsCount(activity, account, s);
    var multiplier := Books.MultiplierOf(secs, s);
    var w := Run(SecurityRows(activity, account, s), account, s, multiplier);
    var (p, plan) := Replayed(activity, account, s, secs, last, existing);
    assert Replay.PositionOf(account, s, w, multiplier, Some(p)) == Replay.PositionOf(account, s, w, multiplier, existing);
  }

  lemma RebuildSettles(b: Book, activity: seq<Row>, account: AccountId, s: SecurityId, secs: Books.Securities, last: Option<Time>)
    requires Tidy(b)
    ensures var b' := RebuildSecurity(b, activity, account, s, secs, last);
            Tidy(b') && RowsOf(b'.txns) == RowsOf(b.txns) && Settled(b', activity, account, s, secs, last)
  {
    hide Replayed, Tables.PositionOf, Upserted, UpsertId, WritePlan, FinalLinks, Final, ClosedRows;
    var b' := RebuildSecurity(b, activity, account, s, secs, last);
    var existing := Stored(b.positions, account, s);
    var (p, plan) := Replayed(activity, account, s, secs, last, existing);
    CarriedOn(activity, account, s, secs, last, existing);
    UpsertedAt(b.positions, p, KeyOfPosition, (account, s));
    var position := UpsertId(b.positions, p, KeyOfPosition);
    WritePlanAt(b.closed, plan, position, (0, 0, None, None));
    forall k
      ensures Final(ClosedRows(plan), k).Some? ==> RowAt(b'.closed, k) == Final(ClosedRows(plan), k)
    {
      WritePlanAt(b.closed, plan, position, k);
    }
    LinksAreFinal(b.closed, plan, position, b'.closed);
    LinksKeepRows(b.txns, WritePlan(b.closed, plan, position).1);
  }

  lemma LinksKeepRows(txns: seq<Txn>, links: map<PlanKey, Link>)
    ensures RowsOf(LinkAll(txns, links)) == RowsOf(txns)
    ensures UniqueKeys(txns, TxnKey) ==> UniqueKeys(LinkAll(txns, links), TxnKey)
    ensures Linked(LinkAll(txns, links), links)
  {
  }

  // Writing what is already there changes nothing.
  lemma RewriteIsNoOp(closed: seq<ClosedRow>, plan: seq<PlanItem>, position: nat)
    requires UniqueKeys(closed, KeyOf) && LifecyclesIn(closed, plan)
    ensures WritePlan(closed, plan, position).0 == closed
  {
    hide WritePlan, ClosedRows, Final, Tables.PositionOf;
    var after := WritePlan(closed, plan, position).0;
    WritePlanAt(closed, plan, position, (0, 0, None, None));
    forall k
      ensures RowAt(after, k) == RowAt(closed, k) && IdIn(after, k) == IdIn(closed, k)
    {
      WritePlanAt(closed, plan, position, k);
    }
    SameAddresses(closed, after);
  }

  lemma SameAddresses(a: seq<ClosedRow>, b: seq<ClosedRow>)
    requires UniqueKeys(a, KeyOf) && UniqueKeys(b, KeyOf)
    requires forall k :: RowAt(b, k) == RowAt(a, k) && IdIn(b, k) == IdIn(a, k)
    ensures a == b
  {
    Covers(a, b);
    Covers(b, a);
  }

  lemma Covers(a: seq<ClosedRow>, b: seq<ClosedRow>)
    requires UniqueKeys(a, KeyOf)
    requires forall k :: RowAt(b, k) == RowAt(a, k) && IdIn(b, k) == IdIn(a, k)
    ensures |a| <= |b| && forall i :: 0 <= i < |a| ==> b[i] == a[i]
  {
    forall i | 0 <= i < |a|
      ensures i < |b| && b[i] == a[i]
    {
      PositionUnique(a, KeyOfClosed(a[i]), KeyOf, i);
      assert IdIn(b, KeyOfClosed(a[i])) == Some(i + 1) && RowAt(b, KeyOfClosed(a[i])) == Some(a[i]);
    }
    if a != [] {
      var last := a[|a| - 1];
      assert |a| - 1 < |b|;
    }
  }

  lemma SettledIsNoOp(b: Book, activity: seq<Row>, account: AccountId, s: SecurityId, secs: Books.Securities, last: Option<Time>)
    requires Tidy(b) && Settled(b, activity, account, s, secs, last)
    ensures RebuildSecurity(b, activity, account, s, secs, last) == b
  {
    hide Replayed, Tables.PositionOf, WritePlan, FinalLinks, Final, ClosedRows;
    var i := Tables.PositionOf(b.positions, (account, s), KeyOfPosition).value;
    var (p, plan) := Replayed(activity, account, s, secs, last, Some(b.positions[i]));
    CarriedOn(activity, account, s, secs, last, Some(b.positions[i]));
    RewriteIsNoOp(b.closed, plan, i + 1);
    LinksAreFinal(b.closed, plan, i + 1, b.closed);
    assert LinkAll(b.txns, FinalLinks(plan, i + 1, b.closed)) == b.txns;
  }

  // ---------------------------------------------------------- securities do not interfere

  // A plan names the rows it was made from, and the stand-in for a lapse.
  ghost predicate PlanOver(plan: seq<PlanItem>, rows: seq<Row>) {
    forall i :: 0 <= i < |plan| ==> plan[i].key.OfRow? ==> exists r :: r in rows && r.id == plan[i].key.id
  }

  lemma {:induction false} RunPlanOver(rows: seq<Row>, account: AccountId, s: SecurityId, multiplier: nat)
    requires Quantified(rows)
    ensures PlanOver(Run(rows, account, s, multiplier).plan, rows)
  {
    hide WeightedAverage, ClosingGain, FeesOf, ClosedRowOf;
    if rows != [] {
      var front, r := rows[..|rows| - 1], rows[|rows| - 1];
      RunPlanOver(front, account, s, multiplier);
      var w, w' := Run(front, account, s, multiplier), Run(rows, account, s, multiplier);
      assert w'.plan == w.plan + [w'.plan[|w.plan|]] && w'.plan[|w.plan|].key == OfRow(r.id);
      assert rows == front + [r];
    }
  }

  lemma ReplayedOver(activity: seq<Row>, account: AccountId, s: SecurityId, secs: Books.Securities, last: Option<Time>,
                     existing: Option<PositionRow>)
    ensures var plan := Replayed(activity, account, s, secs, last, existing).1;
            && PlanOver(plan, SecurityRows(activity, account, s))
            && forall c :: c in ClosedRows(plan) ==> c.account == account && c.security == s && c.group.None?
  {
    hide Run, SecurityRows, HoldingPeriod;
    SecurityRowsCount(activity, account, s);
    var rows, multiplier := SecurityRows(activity, account, s), Books.MultiplierOf(secs, s);
    var w := Run(rows, account, s, multiplier);
    RunPlanOver(rows, account, s, multiplier);
    ClosedRowsOf(rows, account, s, multiplier);
    ClosedUnlinked(rows, account, s, multiplier);
    var p, expiry := Replay.PositionOf(account, s, w, multiplier, existing), if s in secs then secs[s].expiry else None;
    if Lifecycles.Lapses(p, expiry, last) {
      ClosedRowsAppend(w.plan, PlanItem(Lapsed(s), false, Some(LapsedRow(p, expiry.value, multiplier))));
    }
  }

  lemma {:induction false} ClosedUnlinked(rows: seq<Row>, account: AccountId, s: SecurityId, multiplier: nat)
    requires Quantified(rows)
    ensures forall c :: c in ClosedRows(Run(rows, account, s, multiplier).plan) ==> c.group.None?
  {
    hide WeightedAverage, ClosingGain, FeesOf, HoldingPeriod;
    if rows != [] {
      ClosedUnlinked(rows[..|rows| - 1], account, s, multiplier);
      var w, w' := Run(rows[..|rows| - 1], account, s, multiplier), Run(rows, account, s, multiplier);
      ClosedRowsAppend(w.plan, w'.plan[|w.plan|]);
      assert w'.plan == w.plan + [w'.plan[|w.plan|]];
    }
  }

  lemma {:induction false} LinkKeys(plan: seq<PlanItem>, position: nat, closed: seq<ClosedRow>, rows: seq<Row>, id: TxnId)
    requires PlanOver(plan, rows) && OfRow(id) in FinalLinks(plan, position, closed)
    ensures exists r :: r in rows && r.id == id
  {
    if plan != [] && plan[|plan| - 1].key != OfRow(id) {
      LinkKeys(plan[..|plan| - 1], position, closed, rows, id);
    }
  }

  lemma SameIdSameSecurity(txns: seq<Txn>, account: AccountId, s: SecurityId, x: SecurityId, r: Row, q: Row)
    requires UniqueKeys(txns, TxnKey) && r.id == q.id
    requires r in SecurityRows(RowsOf(txns), account, s) && q in SecurityRows(RowsOf(txns), account, x)
    ensures s == x
  {
    hide SecurityRows;
    SecurityRowsCount(RowsOf(txns), account, s);
    SecurityRowsCount(RowsOf(txns), account, x);
    var i :| 0 <= i < |txns| && RowsOf(txns)[i] == r;
    var j :| 0 <= j < |txns| && RowsOf(txns)[j] == q;
    SameKeySameRow(txns, TxnKey, i, j);
  }

  // Linking one security's rows leaves another's links in place.
  lemma OtherLinksStay(txns: seq<Txn>, account: AccountId, s: SecurityId, x: SecurityId, mine: map<PlanKey, Link>,
                       others: map<PlanKey, Link>)
    requires UniqueKeys(txns, TxnKey) && s != x && Linked(txns, mine)
    requires forall id :: OfRow(id) in mine ==> exists r :: r in SecurityRows(RowsOf(txns), account, s) && r.id == id
    requires forall id :: OfRow(id) in others ==> exists r :: r in SecurityRows(RowsOf(txns), account, x) && r.id == id
    ensures Linked(LinkAll(txns, others), mine)
  {
    hide SecurityRows;
    forall i | 0 <= i < |txns|
      ensures LinkTxn(LinkTxn(txns[i], others), mine) == LinkTxn(txns[i], others)
    {
      var id := txns[i].row.id;
      assert LinkTxn(txns[i], mine) == txns[i];
      if OfRow(id) in mine && OfRow(id) in others {
        var r :| r in SecurityRows(RowsOf(txns), account, s) && r.id == id;
        var q :| q in SecurityRows(RowsOf(txns), account, x) && q.id == id;
        SameIdSameSecurity(txns, account, s, x, r, q);
      }
    }
  }

  lemma {:induction false} LinksStay(plan: seq<PlanItem>, position: nat, closed: seq<ClosedRow>, later: seq<ClosedRow>)
    requires forall c :: c in ClosedRows(plan) ==> IdIn(later, KeyOfClosed(c)) == IdIn(closed, KeyOfClosed(c))
    ensures FinalLinks(plan, position, later) == FinalLinks(plan, position, closed)
  {
    if plan != [] {
      ClosedRowsAppend(plan[..|plan| - 1], plan[|plan| - 1]);
      assert plan == plan[..|plan| - 1] + [plan[|plan| - 1]];
      LinksStay(plan[..|plan| - 1], position, closed, later);
    }
  }

  lemma KeysDiffer(mine: seq<ClosedRow>, others: seq<ClosedRow>, s: SecurityId, x: SecurityId, c: ClosedRow)
    requires s != x && c in mine && forall d :: d in mine ==> d.security == s
    requires forall d :: d in others ==> d.security == x
    ensures Final(others, KeyOfClosed(c)).None? && Final(mine, KeyOfClosed(c)).Some?
  {
  }

  /** Rebuilding one security leaves every other settled. */
  lemma OthersStaySettled(b: Book, activity: seq<Row>, account: AccountId, s: SecurityId, x: SecurityId, secs: Books.Securities,
                          last: Option<Time>)
    requires Tidy(b) && activity == RowsOf(b.txns) && s != x && Settled(b, activity, account, s, secs, last)
    ensures Settled(RebuildSecurity(b, activity, account, x, secs, last), activity, account, s, secs, last)
  {
    hide Replayed, Tables.PositionOf, Upserted, UpsertId, WritePlan, FinalLinks, Final, ClosedRows, SecurityRows, RowAt, IdIn;
    var b' := RebuildSecurity(b, activity, account, x, secs, last);
    var existing := Stored(b.positions, account, x);
    var (p, plan) := Replayed(activity, account, x, secs, last, existing);
    CarriedOn(activity, account, x, secs, last, existing);
    UpsertedAt(b.positions, p, KeyOfPosition, (account, s));
    var at := UpsertId(b.positions, p, KeyOfPosition);
    var i := Tables.PositionOf(b.positions, (account, s), KeyOfPosition).value;
    var mine := Replayed(activity, account, s, secs, last, Some(b.positions[i])).1;
    ReplayedOver(activity, account, s, secs, last, Some(b.positions[i]));
    ReplayedOver(activity, account, x, secs, last, existing);
    forall c | c in ClosedRows(mine)
      ensures IdIn(b'.closed, KeyOfClosed(c)) == IdIn(b.closed, KeyOfClosed(c))
      ensures RowAt(b'.closed, KeyOfClosed(c)) == RowAt(b.closed, KeyOfClosed(c))
    {
      KeysDiffer(ClosedRows(mine), ClosedRows(plan), s, x, c);
      WritePlanAt(b.closed, plan, at, KeyOfClosed(c));
    }
    LinksStay(mine, i + 1, b.closed, b'.closed);
    StayIn(b.closed, b'.closed, mine);
    WriteLinksFinal(b.closed, plan, at);
    var links, others := FinalLinks(mine, i + 1, b.closed), WritePlan(b.closed, plan, at).1;
    forall id
      ensures OfRow(id) in links ==> exists r :: r in SecurityRows(activity, account, s) && r.id == id
      ensures OfRow(id) in others ==> exists r :: r in SecurityRows(activity, account, x) && r.id == id
    {
      if OfRow(id) in links {
        LinkKeys(mine, i + 1, b.closed, SecurityRows(activity, account, s), id);
      }
      if OfRow(id) in others {
        LinkKeys(plan, at, b'.closed, SecurityRows(activity, account, x), id);
      }
    }
    OtherLinksStay(b.txns, account, s, x, links, others);
  }

  lemma WriteLinksFinal(closed: seq<ClosedRow>, plan: seq<PlanItem>, position: nat)
    requires UniqueKeys(closed, KeyOf)
    ensures WritePlan(closed, plan, position).1 == FinalLinks(plan, position, WritePlan(closed, plan, position).0)
  {
    hide WritePlan, FinalLinks, IdIn;
    LinksAreFinal(closed, plan, position, WritePlan(closed, plan, position).0);
  }

  lemma StayIn(closed: seq<ClosedRow>, later: seq<ClosedRow>, plan: seq<PlanItem>)
    requires LifecyclesIn(closed, plan)
    requires forall c :: c in ClosedRows(plan) ==> RowAt(later, KeyOfClosed(c)) == RowAt(closed, KeyOfClosed(c))
    ensures LifecyclesIn(later, plan)
  {
    hide RowAt, ClosedRows;
    forall k | Final(ClosedRows(plan), k).Some?
      ensures RowAt(later, k) == Final(ClosedRows(plan), k)
    {
      var c := Final(ClosedRows(plan), k).value;
      assert c in ClosedRows(plan) && KeyOfClosed(c) == k;
    }
  }

  // ------------------------------------------------------------------------- whole rebuilds

  lemma {:induction false} EachSettles(b: Book, activity: seq<Row>, account: AccountId, held: seq<SecurityId>,
                                       secs: Books.Securities, last: Option<Time>)
    requires Tidy(b) && activity == RowsOf(b.txns)
    ensures var b' := RebuildEach(b, activity, account, held, secs, last);
            && Tidy(b') && RowsOf(b'.txns) == activity
            && forall i :: 0 <= i < |held| ==> Settled(b', activity, account, held[i], secs, last)
  {
    hide Settled, Tidy, RebuildSecurity;
    if held != [] {
      var n := |held| - 1;
      EachSettles(b, activity, account, held[..n], secs, last);
      var before := RebuildEach(b, activity, account, held[..n], secs, last);
      RebuildSettles(before, activity, account, held[n], secs, last);
      forall i | 0 <= i < n && held[i] != held[n]
        ensures Settled(RebuildSecurity(before, activity, account, held[n], secs, last), activity, account, held[i], secs, last)
      {
        assert held[..n][i] == held[i];
        OthersStaySettled(before, activity, account, held[i], held[n], secs, last);
      }
    }
  }

  lemma {:induction false} EachIsNoOp(b: Book, activity: seq<Row>, account: AccountId, held: seq<SecurityId>,
                                      secs: Books.Securities, last: Option<Time>)
    requires Tidy(b) && forall i :: 0 <= i < |held| ==> Settled(b, activity, account, held[i], secs, last)
    ensures RebuildEach(b, activity, account, held, secs, last) == b
  {
    hide Settled, Tidy, RebuildSecurity;
    if held != [] {
      EachIsNoOp(b, activity, account, held[..|held| - 1], secs, last);
      SettledIsNoOp(b, activity, account, held[|held| - 1], secs, last);
    }
  }

  /** A second rebuild changes nothing: not a position, not a lifecycle, not an id, not a link. */
  lemma RebuildTwiceIsOnce(b: Book, account: AccountId, secs: Books.Securities)
    requires Tidy(b)
    ensures Rebuild(Rebuild(b, account, secs), account, secs) == Rebuild(b, account, secs)
  {
    hide RebuildEach, Settled, SecuritiesOf, LastActivity;
    var activity := RowsOf(b.txns);
    var held, last := SecuritiesOf(activity, account), LastActivity(activity, account);
    EachSettles(b, activity, account, held, secs, last);
    EachIsNoOp(Rebuild(b, account, secs), activity, account, held, secs, last);
  }

  // What is replayed for a security of an account's activity.
  function PlanFor(activity: seq<Row>, account: AccountId, s: SecurityId, secs: Books.Securities): seq<PlanItem> {
    Replayed(activity, account, s, secs, LastActivity(activity, account), None).1
  }

  lemma PlanIgnoresPosition(activity: seq<Row>, account: AccountId, s: SecurityId, secs: Books.Securities, last: Option<Time>,
                            existing: Option<PositionRow>)
    ensures Replayed(activity, account, s, secs, last, existing).1 == Replayed(activity, account, s, secs, last, None).1
  {
    hide Run, SecurityRows, LapseExpiredLot;
    SecurityRowsCount(activity, account, s);
    var multiplier := Books.MultiplierOf(secs, s);
    var w := Run(SecurityRows(activity, account, s), account, s, multiplier);
    var p, q := Replay.PositionOf(account, s, w, multiplier, existing), Replay.PositionOf(account, s, w, multiplier, None);
    assert p == q.(carried := p.carried);
    LapseIgnoresCarried(q, p.carried, w.plan, if s in secs then secs[s].expiry else None, multiplier, last);
  }

  lemma LapseIgnoresCarried(p: PositionRow, carried: Carried, plan: seq<PlanItem>, expiry: Option<nat>, multiplier: nat,
                            last: Option<Time>)
    ensures LapseExpiredLot(p.(carried := carried), plan, expiry, multiplier, last).1
         == LapseExpiredLot(p, plan, expiry, multiplier, last).1
  {
    hide HoldingPeriod, LapsedGross;
  }

  /** No lifecycle is lost: when a security's rows have strictly increasing times, every one of
      its lifecycles stands in the table as it was replayed. */
  lemma NoLifecycleLost(b: Book, account: AccountId, secs: Books.Securities, s: SecurityId)
    requires Tidy(b) && s in SecuritiesOf(RowsOf(b.txns), account)
    requires InOrder(SecurityRows(RowsOf(b.txns), account, s), true)
    ensures forall c :: c in ClosedRows(PlanFor(RowsOf(b.txns), account, s, secs)) ==> c in Rebuild(b, account, secs).closed
  {
    hide RebuildEach, SecuritiesOf, LastActivity, SecurityRows, Run, ClosedRows, FinalLinks;
    var activity := RowsOf(b.txns);
    var held, last := SecuritiesOf(activity, account), LastActivity(activity, account);
    EachSettles(b, activity, account, held, secs, last);
    var i :| 0 <= i < |held| && held[i] == s;
    var b' := Rebuild(b, account, secs);
    assert Settled(b', activity, account, held[i], secs, last);
    var p := b'.positions[Tables.PositionOf(b'.positions, (account, s), KeyOfPosition).value];
    PlanIgnoresPosition(activity, account, s, secs, last, Some(p));
    SecurityRowsCount(activity, account, s);
    LapsedApart(SecurityRows(activity, account, s), account, s, Books.MultiplierOf(secs, s), None,
                if s in secs then secs[s].expiry else None, last);
    KeptInTable(b'.closed, PlanFor(activity, account, s, secs));
  }

  lemma KeptInTable(closed: seq<ClosedRow>, plan: seq<PlanItem>)
    requires LifecyclesIn(closed, plan) && DistinctKeys(ClosedRows(plan), KeyOfClosed)
    ensures forall c :: c in ClosedRows(plan) ==> c in closed
  {
    hide ClosedRows;
    forall c | c in ClosedRows(plan)
      ensures c in closed
    {
      OnlyItsKey(ClosedRows(plan), c);
      assert RowAt(closed, KeyOfClosed(c)) == Some(c);
    }
  }

  lemma OnlyItsKey(closed: seq<ClosedRow>, c: ClosedRow)
    requires DistinctKeys(closed, KeyOfClosed) && c in closed
    ensures Final(closed, KeyOfClosed(c)) == Some(c)
  {
    var d := Final(closed, KeyOfClosed(c)).value;
    var i :| 0 <= i < |closed| && closed[i] == c;
    var j :| 0 <= j < |closed| && closed[j] == d;
    if i < j {
      assert KeyOfClosed(closed[i]) != KeyOfClosed(closed[j]);
    } else if j < i {
      assert KeyOfClosed(closed[j]) != KeyOfClosed(closed[i]);
    }
  }

  /** A rebuild overwrites the group a closed position was linked to: every lifecycle it writes
      is unlinked again, until reconcile links it anew. */
  lemma RebuildUnlinks(b: Book, account: AccountId, secs: Books.Securities, s: SecurityId, k: ClosedKey)
    requires Tidy(b) && s in SecuritiesOf(RowsOf(b.txns), account)
    requires Final(ClosedRows(PlanFor(RowsOf(b.txns), account, s, secs)), k).Some?
    ensures var stored := RowAt(Rebuild(b, account, secs).closed, k);
            stored.Some? && stored.value.group.None?
  {
    hide RebuildEach, SecuritiesOf, LastActivity, Replayed, ClosedRows, RowAt;
    var activity := RowsOf(b.txns);
    var held, last := SecuritiesOf(activity, account), LastActivity(activity, account);
    EachSettles(b, activity, account, held, secs, last);
    var i :| 0 <= i < |held| && held[i] == s;
    var b' := Rebuild(b, account, secs);
    assert Settled(b', activity, account, held[i], secs, last);
    var p := b'.positions[Tables.PositionOf(b'.positions, (account, s), KeyOfPosition).value];
    PlanIgnoresPosition(activity, account, s, secs, last, Some(p));
    ReplayedOver(activity, account, s, secs, last, None);
  }

  // ------------------------------------------------------------------------ a lost lifecycle

  lemma StoredIsFinal(plan: seq<PlanItem>, position: nat, c: ClosedRow)
    requires c in WritePlan([], plan, position).0
    ensures Final(ClosedRows(plan), KeyOfClosed(c)) == Some(c)
  {
    hide WritePlan, Final, ClosedRows;
    var after, k := WritePlan([], plan, position).0, KeyOfClosed(c);
    WritePlanAt([], plan, position, k);
    var i :| 0 <= i < |after| && after[i] == c;
    PositionUnique(after, k, KeyOf, i);
    assert RowAt(after, k) == Some(c) && RowAt([], k) == None;
  }

  lemma LaterOfTwo(closed: seq<ClosedRow>, k: ClosedKey)
    requires |closed| == 2 && KeyOfClosed(closed[0]) == KeyOfClosed(closed[1])
    ensures Final(closed, k) == if KeyOfClosed(closed[1]) == k then Some(closed[1]) else None
  {
    assert closed[..1][..0] == [] && Final([], k) == None;
  }

  /** Times that tie can lose a lifecycle: of the two round trips the first is overwritten, and
      only the second's profit is ever stored. */
  lemma CollisionLosesOne(at: Time, gains: (real, real), position: nat)
    ensures var rows := [BareTrade(0, Buy, 100.0, at), BareTrade(1, Sell, 100.0 + gains.0, at),
                         BareTrade(2, Buy, 100.0, at), BareTrade(3, Sell, 100.0 + gains.1, at)];
            && Quantified(rows)
            && forall c :: c in WritePlan([], Run(rows, 0, 0, 1).plan, position).0 ==> c.realized == gains.1
  {
    hide Run, WritePlan, ClosedRows, Final, BareTrade, KeyOfClosed;
    CollisionExample(at, gains);
    var rows := [BareTrade(0, Buy, 100.0, at), BareTrade(1, Sell, 100.0 + gains.0, at),
                 BareTrade(2, Buy, 100.0, at), BareTrade(3, Sell, 100.0 + gains.1, at)];
    var plan := Run(rows, 0, 0, 1).plan;
    forall c | c in WritePlan([], plan, position).0
      ensures c.realized == gains.1
    {
      StoredIsFinal(plan, position, c);
      LaterOfTwo(ClosedRows(plan), KeyOfClosed(c));
    }
  }
}
