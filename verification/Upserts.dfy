/** Re-syncing transactions: the preserve-if-null upsert. */
module Upserts {
  import opened Rows
  import opened Ordering
  import opened Routing
  import opened Tables

  function TxnKey(t: Txn): Option<TxnId> {
    Some(t.row.id)
  }

  // Linkage columns a re-sync must not wipe: kept when the incoming row leaves them empty.
  function Preserved(t: Txn, existing: Option<Txn>): Txn {
    if existing.None? then t
    else
      var e := existing.value;
      Txn(t.row.(orderId := if t.row.orderId.Some? then t.row.orderId else e.row.orderId),
          if t.group.Some? then t.group else e.group,
          t.orderGroup,
          if t.positionId.Some? then t.positionId else e.positionId,
          if t.closedId.Some? then t.closedId else e.closedId)
  }

  function Existing(txns: seq<Txn>, t: Txn): Option<Txn> {
    var i := PositionOf(txns, t.row.id, TxnKey);
    if i.Some? then Some(txns[i.value]) else None
  }

  function UpsertTxn(txns: seq<Txn>, t: Txn): seq<Txn> {
    Upserted(txns, Preserved(t, Existing(txns, t)), TxnKey)
  }

  function UpsertTxns(txns: seq<Txn>, rows: seq<Txn>): seq<Txn> {
    if rows == [] then txns else UpsertTxn(UpsertTxns(txns, rows[..|rows| - 1]), rows[|rows| - 1])
  }

  /** A re-sync never loses an attribution, whatever it carries otherwise. */
  lemma UpsertKeepsAttribution(txns: seq<Txn>, t: Txn, i: nat)
    requires i < |txns|
    ensures var after := UpsertTxn(txns, t);
            && i < |after| && after[i].row.id == txns[i].row.id
            && (t.group.None? ==> after[i].group == txns[i].group)
            && (t.positionId.None? ==> after[i].positionId == txns[i].positionId)
            && (t.closedId.None? ==> after[i].closedId == txns[i].closedId)
            && (txns[i].group.Some? ==> after[i].group.Some?)
            && (txns[i].row.id != t.row.id ==> after[i] == txns[i])
  {
  }

  /** What it does carry replaces what was stored; only an order, a group and positions it does
      not name stay. A row not stored yet is appended as it comes. */
  lemma UpsertTakesTheRest(txns: seq<Txn>, t: Txn)
    requires UniqueKeys(txns, TxnKey)
    ensures var after := UpsertTxn(txns, t);
            (forall i :: 0 <= i < |txns| && txns[i].row.id == t.row.id ==>
               && |after| == |txns| && after[i].row == t.row.(orderId := after[i].row.orderId) && after[i].orderGroup == t.orderGroup
               && after[i].row.orderId == (if t.row.orderId.Some? then t.row.orderId else txns[i].row.orderId)
               && after[i].group == (if t.group.Some? then t.group else txns[i].group)
               && after[i].positionId == (if t.positionId.Some? then t.positionId else txns[i].positionId)
               && after[i].closedId == (if t.closedId.Some? then t.closedId else txns[i].closedId))
    ensures (forall i :: 0 <= i < |txns| ==> txns[i].row.id != t.row.id) ==> UpsertTxn(txns, t) == txns + [t]
  {
    var j := PositionOf(txns, t.row.id, TxnKey);
    forall i | 0 <= i < |txns| && txns[i].row.id == t.row.id
      ensures j == Some(i)
    {
      assert TxnKey(txns[i]) == Some(t.row.id);
      SameKeySameRow(txns, TxnKey, j.value, i);
    }
  }

  lemma SameKeySameRow<K, T>(s: seq<T>, keyOf: T -> Option<K>, i: nat, j: nat)
    requires UniqueKeys(s, keyOf) && i < |s| && j < |s| && keyOf(s[i]).Some? && keyOf(s[i]) == keyOf(s[j])
    ensures i == j
  {
  }

  /** Syncing the same row again is a no-op. */
  lemma UpsertTwiceIsOnce(txns: seq<Txn>, t: Txn)
    requires UniqueKeys(txns, TxnKey)
    ensures UpsertTxn(UpsertTxn(txns, t), t) == UpsertTxn(txns, t)
  {
    var once := UpsertTxn(txns, t);
    var i, j := PositionOf(txns, t.row.id, TxnKey), PositionOf(once, t.row.id, TxnKey);
    UpsertedUnique(txns, Preserved(t, Existing(txns, t)), TxnKey);
    var k := if i.Some? then i.value else |txns|;
    assert TxnKey(once[k]) == Some(t.row.id);
    assert j.Some?;
    SameKeySameRow(once, TxnKey, j.value, k);
    assert Preserved(t, Some(once[k])) == once[k];
    assert once[k := once[k]] == once;
  }

  // What a batch leaves where a row stood: the row, or the incoming one over it.
  function OverwrittenBy(t: Txn, rows: seq<Txn>): Txn {
    var k := PositionOf(rows, t.row.id, TxnKey);
    if k.Some? then Preserved(rows[k.value], Some(t)) else t
  }

  function Overwritten(txns: seq<Txn>, rows: seq<Txn>): seq<Txn> {
    seq(|txns|, i requires 0 <= i < |txns| => OverwrittenBy(txns[i], rows))
  }

  function NewTo(txns: seq<Txn>): Txn -> bool {
    (t: Txn) => Existing(txns, t).None?
  }

  /** A batch with distinct ids rewrites the rows it names in place and appends the others. */
  lemma {:induction false} UpsertsSplit(txns: seq<Txn>, rows: seq<Txn>)
    requires UniqueKeys(txns, TxnKey) && UniqueKeys(rows, TxnKey)
    ensures UpsertTxns(txns, rows) == Overwritten(txns, rows) + Filter(rows, NewTo(txns))
  {
    hide Preserved;
    if rows == [] {
      assert Overwritten(txns, rows) == txns;
    } else {
      hide UpsertTxn, Overwritten, PositionOf, Filter, NewTo;
      var front, t := rows[..|rows| - 1], rows[|rows| - 1];
      UpsertsSplit(txns, front);
      AddedAreOther(txns, rows);
      OverwrittenStep(txns, rows);
      UpsertOverSplit(txns, Overwritten(txns, front), Filter(front, NewTo(txns)), t);
    }
  }

  lemma AddedAreOther(txns: seq<Txn>, rows: seq<Txn>)
    requires rows != [] && UniqueKeys(rows, TxnKey)
    ensures var added, t := Filter(rows[..|rows| - 1], NewTo(txns)), rows[|rows| - 1];
            && (forall k :: 0 <= k < |added| ==> added[k].row.id != t.row.id)
            && Filter(rows, NewTo(txns)) == if PositionOf(txns, t.row.id, TxnKey).None? then added + [t] else added
  {
    var front, t := rows[..|rows| - 1], rows[|rows| - 1];
    var added := Filter(front, NewTo(txns));
    forall k | 0 <= k < |added|
      ensures added[k].row.id != t.row.id
    {
      FilterMember(front, added[k], NewTo(txns));
      var j :| 0 <= j < |front| && front[j] == added[k];
      assert rows[j] == added[k] && TxnKey(rows[j]) != TxnKey(rows[|rows| - 1]);
    }
  }

  lemma FrontHasNot(rows: seq<Txn>)
    requires rows != [] && UniqueKeys(rows, TxnKey)
    ensures PositionOf(rows[..|rows| - 1], rows[|rows| - 1].row.id, TxnKey).None?
  {
    var front, t := rows[..|rows| - 1], rows[|rows| - 1];
    forall k | 0 <= k < |front|
      ensures TxnKey(front[k]) != Some(t.row.id)
    {
      assert TxnKey(rows[k]) != TxnKey(rows[|rows| - 1]);
    }
  }

  lemma {:induction false} OverwrittenStep(txns: seq<Txn>, rows: seq<Txn>)
    requires rows != [] && UniqueKeys(rows, TxnKey) && UniqueKeys(txns, TxnKey)
    ensures var kept, t := Overwritten(txns, rows[..|rows| - 1]), rows[|rows| - 1];
            var j := PositionOf(txns, t.row.id, TxnKey);
            && (forall i :: 0 <= i < |txns| ==> kept[i].row.id == txns[i].row.id)
            && (j.Some? ==> kept[j.value] == txns[j.value])
            && Overwritten(txns, rows) == if j.Some? then kept[j.value := Preserved(t, Some(txns[j.value]))] else kept
  {
    hide UniqueKeys, PositionOf, Preserved, OverwrittenBy;
    FrontHasNot(rows);
    var front, t := rows[..|rows| - 1], rows[|rows| - 1];
    forall i | 0 <= i < |txns|
      ensures OverwrittenBy(txns[i], front).row.id == txns[i].row.id
      ensures txns[i].row.id == t.row.id ==>
                OverwrittenBy(txns[i], front) == txns[i] && PositionOf(txns, t.row.id, TxnKey) == Some(i)
      ensures OverwrittenBy(txns[i], rows) == if txns[i].row.id == t.row.id then Preserved(t, Some(txns[i])) else OverwrittenBy(txns[i], front)
    {
      OverwrittenByStep(txns[i], rows);
      if txns[i].row.id == t.row.id {
        OnlyPosition(txns, TxnKey, i);
      }
    }
  }

  lemma OverwrittenByStep(e: Txn, rows: seq<Txn>)
    requires rows != [] && PositionOf(rows[..|rows| - 1], rows[|rows| - 1].row.id, TxnKey).None?
    ensures var front, t := rows[..|rows| - 1], rows[|rows| - 1];
            && OverwrittenBy(e, front).row.id == e.row.id
            && (e.row.id == t.row.id ==> OverwrittenBy(e, front) == e)
            && OverwrittenBy(e, rows) == if e.row.id == t.row.id then Preserved(t, Some(e)) else OverwrittenBy(e, front)
  {
  }

  lemma OnlyPosition<K, T>(s: seq<T>, keyOf: T -> Option<K>, i: nat)
    requires UniqueKeys(s, keyOf) && i < |s| && keyOf(s[i]).Some?
    ensures PositionOf(s, keyOf(s[i]).value, keyOf) == Some(i)
  {
    var j := PositionOf(s, keyOf(s[i]).value, keyOf);
    SameKeySameRow(s, keyOf, i, j.value);
  }

  // One more row over a split table.
  lemma {:induction false} UpsertOverSplit(txns: seq<Txn>, kept: seq<Txn>, added: seq<Txn>, t: Txn)
    requires UniqueKeys(txns, TxnKey) && |kept| == |txns|
    requires forall i :: 0 <= i < |txns| ==> kept[i].row.id == txns[i].row.id
    requires var j := PositionOf(txns, t.row.id, TxnKey);
             j.Some? ==> kept[j.value] == txns[j.value]
    requires forall k :: 0 <= k < |added| ==> added[k].row.id != t.row.id
    ensures var j := PositionOf(txns, t.row.id, TxnKey);
            UpsertTxn(kept + added, t) == if j.Some? then kept[j.value := Preserved(t, Some(txns[j.value]))] + added else kept + added + [t]
  {
    hide Preserved, PositionOf, UniqueKeys;
    var all := kept + added;
    var i, j := PositionOf(all, t.row.id, TxnKey), PositionOf(txns, t.row.id, TxnKey);
    forall k | 0 <= k < |all| && TxnKey(all[k]) == Some(t.row.id)
      ensures j == Some(k)
    {
      assert k < |kept| && TxnKey(txns[k]) == Some(t.row.id);
      OnlyPosition(txns, TxnKey, k);
    }
    if j.Some? {
      assert TxnKey(all[j.value]) == Some(t.row.id);
      assert Preserved(t, Existing(all, t)) == Preserved(t, Some(txns[j.value]));
    }
    PreservedKey(t, Existing(all, t));
  }

  lemma PreservedKey(t: Txn, e: Option<Txn>)
    ensures TxnKey(Preserved(t, e)) == TxnKey(t) && (e.None? ==> Preserved(t, e) == t)
  {
  }

  lemma {:induction false} UpsertsUnique(txns: seq<Txn>, rows: seq<Txn>)
    requires UniqueKeys(txns, TxnKey)
    ensures UniqueKeys(UpsertTxns(txns, rows), TxnKey)
  {
    if rows != [] {
      UpsertsUnique(txns, rows[..|rows| - 1]);
      var before, t := UpsertTxns(txns, rows[..|rows| - 1]), rows[|rows| - 1];
      UpsertedUnique(before, Preserved(t, Existing(before, t)), TxnKey);
    }
  }
}
