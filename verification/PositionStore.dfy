/** The replay pass over the tables it reads and writes, updated in place. */
module PositionStore {
  import opened Rows
  import opened Ordering
  import opened Replay
  import opened Lifecycles
  import opened Routing
  import opened Tables
  import opened Upserts
  import opened Rebuild
  import Books

  // Links by plan key; a key listed again takes the later entry.
  function LinkMap(links: seq<(PlanKey, Link)>): map<PlanKey, Link> {
    if links == [] then map[] else LinkMap(links[..|links| - 1])[links[|links| - 1].0 := links[|links| - 1].1]
  }

  class ReplayStore {
    const transactions: Table<TxnId, Txn>
    const positions: Table<PositionKey, PositionRow>
    const closedPositions: Table<ClosedKey, ClosedRow>

    ghost predicate Valid()
      reads this, transactions, positions, closedPositions
    {
      && transactions.Valid() && positions.Valid() && closedPositions.Valid()
      && transactions.keyOf == TxnKey && positions.keyOf == KeyOfPosition && closedPositions.keyOf == KeyOf
      && (positions as object) != transactions && (closedPositions as object) != transactions
      && (closedPositions as object) != positions
    }

    function Value(): Book
      requires Valid()
      reads this, transactions, positions, closedPositions
    {
      Book(transactions.Contents(), positions.Contents(), closedPositions.Contents())
    }

    ghost function Repr(): set<object> {
      {transactions as object, positions as object, closedPositions as object}
    }

    constructor ()
      ensures Valid() && fresh(Repr()) && Value() == Book([], [], [])
    {
      transactions := new Table<TxnId, Txn>(TxnKey);
      positions := new Table<PositionKey, PositionRow>(KeyOfPosition);
      closedPositions := new Table<ClosedKey, ClosedRow>(KeyOf);
    }

    lemma IsTidy()
      requires Valid()
      ensures Tidy(Value())
    {
      transactions.KeysUnique();
      positions.KeysUnique();
      closedPositions.KeysUnique();
    }

    method GetPosition(account: AccountId, s: SecurityId) returns (p: Option<PositionRow>)
      requires Valid()
      ensures p == Stored(Value().positions, account, s)
    {
      var id := positions.IdOf((account, s));
      p := None;
      if id.Some? {
        p := positions.Get(id.value);
      }
    }

    /** Both link columns of the listed transactions; anything else keeps its own. */
    method LinkTransactionsToPositions(links: seq<(PlanKey, Link)>) returns (linked: nat)
      requires Valid()
      modifies transactions
      ensures Valid() && Value() == old(Value()).(txns := LinkAll(old(Value().txns), LinkMap(links)))
    {
      hide Table.Contents, Table.Valid;
      var byId := map[];
      for i := 0 to |links|
        invariant byId == LinkMap(links[..i])
      {
        assert links[..i + 1][..i] == links[..i];
        byId := byId[links[i].0 := links[i].1];
      }
      assert links[..|links|] == links;
      linked := 0;
      ghost var was := transactions.Contents();
      for id := 1 to |transactions.Contents()| + 1
        invariant transactions.Valid() && transactions.keyOf == TxnKey && |transactions.Contents()| == |was|
        invariant forall i :: 0 <= i < id - 1 ==> transactions.Contents()[i] == LinkTxn(was[i], byId)
        invariant forall i :: id - 1 <= i < |was| ==> transactions.Contents()[i] == was[i]
      {
        var t := transactions.Contents()[id - 1];
        if OfRow(t.row.id) in byId {
          transactions.Write(id, t.(positionId := byId[OfRow(t.row.id)].0, closedId := byId[OfRow(t.row.id)].1));
          linked := linked + 1;
        }
      }
      assert transactions.Contents() == LinkAll(was, byId);
    }

    // Stores the lifecycles of a plan; returns what each transaction links to.
    method WriteLifecycles(plan: seq<PlanItem>, position: nat) returns (links: seq<(PlanKey, Link)>)
      requires Valid()
      modifies closedPositions
      ensures Valid() && Value() == old(Value()).(closed := WritePlan(old(Value().closed), plan, position).0)
      ensures LinkMap(links) == WritePlan(old(Value().closed), plan, position).1
    {
      hide Table.Contents, Table.Valid, Upserted, UpsertId;
      links := [];
      ghost var was := closedPositions.Contents();
      for i := 0 to |plan|
        invariant closedPositions.Valid() && closedPositions.keyOf == KeyOf
        invariant (closedPositions.Contents(), LinkMap(links)) == WritePlan(was, plan[..i], position)
      {
        assert plan[..i + 1][..i] == plan[..i];
        var item := plan[i];
        var closedId: Option<nat> := None;
        if item.closed.Some? {
          var id := closedPositions.Upsert(item.closed.value);
          closedId := Some(id);
        }
        ghost var before := links;
        links := links + [(item.key, (Marked(item, position), closedId))];
        assert links[..|links| - 1] == before;
      }
      assert plan[..|plan|] == plan;
    }

    method RebuildLot(activity: seq<Row>, rows: seq<Row>, account: AccountId, s: SecurityId, secs: Books.Securities,
                      last: Option<Time>)
      requires Valid() && rows == Filter(activity, CountsIn(account, s))
      modifies Repr()
      ensures Valid() && Value() == RebuildSecurity(old(Value()), activity, account, s, secs, last)
    {
      hide Table.Contents, Table.Valid, WritePlan, LinkAll, Run, LapseExpiredLot, Upserted, UpsertId, Stored;
      var ordered := Sort(rows, ReplayKey);
      SecurityRowsCount(activity, account, s);
      var multiplier := Books.MultiplierOf(secs, s);
      var existing := GetPosition(account, s);
      var position, plan := ReplaySecurity(account, s, ordered, multiplier, existing);
      var (stored, whole) := LapseExpiredLot(position, plan, if s in secs then secs[s].expiry else None, multiplier, last);
      var id := positions.Upsert(stored);
      var links := WriteLifecycles(whole, id);
      var _ := LinkTransactionsToPositions(links);
    }

    method BySecurity(activity: seq<Row>, account: AccountId) returns (held: seq<SecurityId>, rowsOf: map<SecurityId, seq<Row>>)
      ensures held == SecuritiesOf(activity, account)
      ensures forall s :: s in held ==> s in rowsOf && rowsOf[s] == Filter(activity, CountsIn(account, s))
    {
      held, rowsOf := [], map[];
      for i := 0 to |activity|
        invariant held == SecuritiesOf(activity[..i], account)
        invariant forall s :: s in held <==> s in rowsOf
        invariant forall s :: s in rowsOf ==> rowsOf[s] == Filter(activity[..i], CountsIn(account, s))
        invariant forall s :: s !in rowsOf ==> Filter(activity[..i], CountsIn(account, s)) == []
      {
        assert activity[..i + 1][..i] == activity[..i];
        var row := activity[i];
        if Counts(row, account) {
          var s := row.security.value;
          if s in rowsOf {
            rowsOf := rowsOf[s := rowsOf[s] + [row]];
          } else {
            held, rowsOf := held + [s], rowsOf[s := [row]];
          }
        }
      }
      assert activity[..|activity|] == activity;
    }

    /** Rebuilds every lot of an account from its whole history. */
    method RebuildForAccount(account: AccountId, secs: Books.Securities) returns (count: nat)
      requires Valid()
      modifies Repr()
      ensures Valid() && Value() == Rebuild.Rebuild(old(Value()), account, secs)
      ensures count == |SecuritiesOf(RowsOf(old(Value().txns)), account)|
      ensures Rebuild.Rebuild(Value(), account, secs) == Value()
    {
      hide Table.Contents, Table.Valid, RebuildSecurity, SecuritiesOf, LastActivity;
      ghost var b := Value();
      IsTidy();
      var activity := RowsOf(transactions.Contents());
      var last := LastActivity(activity, account);
      var held, rowsOf := BySecurity(activity, account);
      for i := 0 to |held|
        invariant Valid() && Value() == RebuildEach(b, activity, account, held[..i], secs, last)
      {
        assert held[..i + 1][..i] == held[..i];
        RebuildLot(activity, rowsOf[held[i]], account, held[i], secs, last);
      }
      assert held[..|held|] == held;
      count := |held|;
      RebuildTwiceIsOnce(b, account, secs);
    }
  }
}
