/** The in-memory table: rows by surrogate id, with an optional natural-key index. */
module Tables {
  import opened Rows

  // ------------------------------------------------------------------------ as a sequence

  // Position of the row that carries the key.
  function PositionOf<K(==), T>(s: seq<T>, k: K, keyOf: T -> Option<K>): (i: Option<nat>)
    ensures i.Some? ==> i.value < |s| && keyOf(s[i.value]) == Some(k)
    ensures i.None? ==> forall j :: 0 <= j < |s| ==> keyOf(s[j]) != Some(k)
  {
    if s == [] then None
    else if keyOf(s[|s| - 1]) == Some(k) then Some(|s| - 1)
    else PositionOf(s[..|s| - 1], k, keyOf)
  }

  // Replace the row with the same natural key, or append; a row without a key always appends.
  function Upserted<K(==), T>(s: seq<T>, row: T, keyOf: T -> Option<K>): seq<T> {
    var i := if keyOf(row).Some? then PositionOf(s, keyOf(row).value, keyOf) else None;
    if i.Some? then s[i.value := row] else s + [row]
  }

  // The surrogate id an upsert returns.
  function UpsertId<K(==), T>(s: seq<T>, row: T, keyOf: T -> Option<K>): nat {
    var i := if keyOf(row).Some? then PositionOf(s, keyOf(row).value, keyOf) else None;
    if i.Some? then i.value + 1 else |s| + 1
  }

  ghost predicate UniqueKeys<K, T>(s: seq<T>, keyOf: T -> Option<K>) {
    forall i, j :: 0 <= i < j < |s| && keyOf(s[i]).Some? ==> keyOf(s[i]) != keyOf(s[j])
  }

  lemma UpsertedUnique<K, T>(s: seq<T>, row: T, keyOf: T -> Option<K>)
    requires UniqueKeys(s, keyOf)
    ensures UniqueKeys(Upserted(s, row, keyOf), keyOf)
  {
  }

  // ----------------------------------------------------------------------------- the class

  class Table<K(==,!new), T(!new)> {
    var rows: map<nat, T>
    var index: map<K, nat>
    var nextId: nat
    const keyOf: T -> Option<K>

    ghost predicate Valid()
      reads this
    {
      && nextId >= 1
      && (forall id: nat :: id in rows <==> 1 <= id < nextId)
      && (forall k :: k in index ==> index[k] in rows && keyOf(rows[index[k]]) == Some(k))
      && (forall id: nat :: id in rows && keyOf(rows[id]).Some? ==>
            keyOf(rows[id]).value in index && index[keyOf(rows[id]).value] == id)
    }

    function Contents(): (s: seq<T>)
      requires Valid()
      reads this
    {
      seq(nextId - 1, i requires 0 <= i < nextId - 1 && i + 1 in rows reads this => rows[i + 1])
    }

    constructor (key: T -> Option<K>)
      ensures Valid() && Contents() == [] && keyOf == key
    {
      rows, index, nextId, keyOf := map[], map[], 1, key;
    }

    lemma KeysUnique()
      requires Valid()
      ensures UniqueKeys(Contents(), keyOf)
    {
    }

    // The index finds exactly the rows that carry a key.
    lemma Indexed(k: K)
      requires Valid()
      ensures k in index <==> PositionOf(Contents(), k, keyOf).Some?
      ensures k in index ==> index[k] == PositionOf(Contents(), k, keyOf).value + 1
    {
      var i := PositionOf(Contents(), k, keyOf);
      if i.Some? {
        assert Contents()[i.value] == rows[i.value + 1];
      }
      if k in index {
        assert Contents()[index[k] - 1] == rows[index[k]];
      }
    }

    method Upsert(row: T) returns (id: nat)
      requires Valid()
      modifies this
      ensures Valid()
      ensures Contents() == Upserted(old(Contents()), row, keyOf)
      ensures id == UpsertId(old(Contents()), row, keyOf)
    {
      hide PositionOf;
      var key := keyOf(row);
      if key.Some? {
        Indexed(key.value);
      }
      if key.Some? && key.value in index {
        id := index[key.value];
        assert Contents()[id - 1] == rows[id];
        rows := rows[id := row];
        assert Contents() == old(Contents())[id - 1 := row];
        return;
      }
      id := nextId;
      nextId := nextId + 1;
      rows := rows[id := row];
      if key.Some? {
        index := index[key.value := id];
      }
      assert Contents() == old(Contents()) + [row];
    }

    // Rows without a natural key: the event log.
    method Insert(row: T) returns (id: nat)
      requires Valid() && keyOf(row).None?
      modifies this
      ensures Valid()
      ensures Contents() == old(Contents()) + [row] && id == |Contents()|
    {
      id := nextId;
      nextId := nextId + 1;
      rows := rows[id := row];
      assert Contents() == old(Contents()) + [row];
    }

    // Assigning fields of a stored row in place; its natural key stays.
    method Write(id: nat, row: T)
      requires Valid() && 1 <= id <= |Contents()| && keyOf(row) == keyOf(Contents()[id - 1])
      modifies this
      ensures Valid()
      ensures Contents() == old(Contents())[id - 1 := row]
    {
      assert Contents()[id - 1] == rows[id];
      rows := rows[id := row];
      assert Contents() == old(Contents())[id - 1 := row];
    }

    method Get(id: nat) returns (row: Option<T>)
      requires Valid()
      ensures row == if 1 <= id <= |Contents()| then Some(Contents()[id - 1]) else None
    {
      row := if id in rows then Some(rows[id]) else None;
    }

    method IdOf(k: K) returns (id: Option<nat>)
      requires Valid()
      ensures id.Some? <==> PositionOf(Contents(), k, keyOf).Some?
      ensures id.Some? ==> id.value == PositionOf(Contents(), k, keyOf).value + 1
    {
      Indexed(k);
      id := if k in index then Some(index[k]) else None;
    }
  }
}
