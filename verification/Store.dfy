/** The in-memory store behind reconcile: tables updated in place, and the reads and writes a
    pass makes on them, each proved against the books (modules Books and Exits). */
module Store {
  import opened Rows
  import opened Ordering
  import opened GroupNet
  import opened Routing
  import opened Books
  import opened Exits
  import opened Tables
  import opened Upserts

  function GroupName(g: Group): Option<nat> {
    Some(g.name)
  }

  function NoKey(e: Event): Option<nat> {
    None
  }

  function MovedTxn(t: Txn, id: nat, ids: set<nat>, pk: Option<nat>): Txn {
    if id in ids then t.(group := pk) else t
  }

  class InMemoryStore {
    const transactions: Table<TxnId, Txn>
    const groups: Table<nat, Group>
    const events: Table<nat, Event>

    ghost predicate Valid()
      reads this, transactions, groups, events
    {
      && transactions.Valid() && groups.Valid() && events.Valid()
      && transactions.keyOf == TxnKey && groups.keyOf == GroupName && events.keyOf == NoKey
      && (groups as object) != transactions && (events as object) != transactions && (events as object) != groups
      && (forall i :: 0 <= i < |groups.Contents()| ==> groups.Contents()[i].name == i + 1)
    }

    function Value(): Ledger
      requires Valid()
      reads this, transactions, groups, events
    {
      Ledger(transactions.Contents(), groups.Contents(), events.Contents())
    }

    ghost function Repr(): set<object> {
      {transactions as object, groups as object, events as object}
    }

    constructor ()
      ensures Valid() && fresh(Repr()) && Value() == Ledger([], [], [])
    {
      transactions := new Table<TxnId, Txn>(TxnKey);
      groups := new Table<nat, Group>(GroupName);
      events := new Table<nat, Event>(NoKey);
    }

    // -------------------------------------------------------------------------- writes

    method UpsertTransactions(rows: seq<Txn>)
      requires Valid()
      modifies transactions
      ensures Valid() && Value() == old(Value()).(txns := UpsertTxns(old(Value().txns), rows))
    {
      ghost var was := transactions.Contents();
      for i := 0 to |rows|
        invariant transactions.Valid() && transactions.keyOf == TxnKey
        invariant transactions.Contents() == UpsertTxns(was, rows[..i])
      {
        assert rows[..i + 1][..i] == rows[..i];
        var row := rows[i];
        var existingId := transactions.IdOf(row.row.id);
        if existingId.Some? {
          var existing := transactions.Get(existingId.value);
          row := Preserved(row, existing);
        }
        var _ := transactions.Upsert(row);
      }
      assert rows[..|rows|] == rows;
    }

    method AttachTransactions(ids: set<TxnId>, pk: nat) returns (attached: nat)
      requires Valid()
      modifies transactions
      ensures Valid() && Value() == old(Value()).(txns := AttachAll(old(Value().txns), ids, pk))
    {
      hide Table.Contents, Table.Valid;
      attached := 0;
      ghost var was := transactions.Contents();
      for id := 1 to |transactions.Contents()| + 1
        invariant transactions.Valid() && transactions.keyOf == TxnKey && |transactions.Contents()| == |was|
        invariant forall i :: 0 <= i < id - 1 ==> transactions.Contents()[i] == AttachTxn(was[i], ids, pk)
        invariant forall i :: id - 1 <= i < |was| ==> transactions.Contents()[i] == was[i]
      {
        var t := transactions.Contents()[id - 1];
        if t.row.id in ids {
          transactions.Write(id, t.(group := Some(pk)));
          attached := attached + 1;
        }
      }
      assert transactions.Contents() == AttachAll(was, ids, pk);
    }

    // The operator's move, by surrogate id; None takes rows out of their group.
    method MoveTransactions(ids: set<nat>, pk: Option<nat>) returns (moved: nat)
      requires Valid()
      modifies transactions
      ensures Valid() && Value().groups == old(Value().groups) && Value().events == old(Value().events)
      ensures |Value().txns| == |old(Value().txns)|
      ensures forall i :: 0 <= i < |Value().txns| ==> Value().txns[i] == MovedTxn(old(Value().txns)[i], i + 1, ids, pk)
    {
      hide Table.Contents, Table.Valid;
      moved := 0;
      ghost var was := transactions.Contents();
      for id := 1 to |transactions.Contents()| + 1
        invariant transactions.Valid() && transactions.keyOf == TxnKey && |transactions.Contents()| == |was|
        invariant forall i :: 0 <= i < id - 1 ==> transactions.Contents()[i] == MovedTxn(was[i], i + 1, ids, pk)
        invariant forall i :: id - 1 <= i < |was| ==> transactions.Contents()[i] == was[i]
      {
        if id in ids {
          var t := transactions.Contents()[id - 1];
          transactions.Write(id, t.(group := pk));
          moved := moved + 1;
        }
      }
    }

    method UpsertTradeGroup(g: Group) returns (pk: nat)
      requires Valid() && 1 <= g.name <= |Value().groups| + 1
      modifies groups
      ensures Valid() && pk == g.name && HasGroup(Value(), pk)
      ensures Value() == old(Value()).(groups := if g.name <= |old(Value().groups)|
                then old(Value().groups)[g.name - 1 := g] else old(Value().groups) + [g])
    {
      hide Table.Contents, Table.Valid;
      NamePosition(groups.Contents(), g.name);
      pk := groups.Upsert(g);
    }

    method AddTradeGroupEvent(e: Event)
      requires Valid()
      modifies events
      ensures Valid() && Value() == AddEvents(old(Value()), [e])
    {
      var _ := events.Insert(e);
    }

    // --------------------------------------------------------------------------- reads

    method GetTradeGroupById(pk: nat) returns (g: Option<Group>)
      requires Valid()
      ensures g == if HasGroup(Value(), pk) then Some(GroupAt(Value(), pk)) else None
    {
      g := groups.Get(pk);
    }

    method GetGroupTransactions(pk: nat) returns (rows: seq<Row>)
      requires Valid()
      ensures rows == LoadRows(Value(), pk)
    {
      rows := [];
      ghost var txns := Value().txns;
      for i := 0 to |transactions.Contents()|
        invariant rows == Members(txns[..i], pk)
      {
        assert txns[..i + 1][..i] == txns[..i];
        var t := transactions.Contents()[i];
        if t.group == Some(pk) {
          rows := rows + [t.row];
        }
      }
      assert txns[..|txns|] == txns;
      rows := Sort(rows, GroupKey);
    }
  }

  lemma {:induction false} NamePosition(groups: seq<Group>, name: nat)
    requires forall i :: 0 <= i < |groups| ==> groups[i].name == i + 1
    ensures PositionOf(groups, name, GroupName) == if 1 <= name <= |groups| then Some(name - 1) else None
  {
    if groups != [] {
      NamePosition(groups[..|groups| - 1], name);
    }
  }
}
