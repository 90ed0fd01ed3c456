/** Draining a dead consumer's pending list, and the throttle on streamed balances. */
module Drain {
  import opened Rows
  import opened Ordering
  import opened Stream

  ghost predicate Increasing(s: seq<EntryId>) {
    forall i, j :: 0 <= i < j < |s| ==> s[i] < s[j]
  }

  function AtLeast(cursor: EntryId): EntryId -> bool {
    (e: EntryId) => e >= cursor
  }

  // What an autoclaim returns for a wholly idle list: the first entries from the cursor on, and
  // the id to continue from, or zero at the end.
  function Claimed(pending: seq<EntryId>, cursor: EntryId, count: nat): seq<EntryId> {
    var from := Filter(pending, AtLeast(cursor));
    if |from| <= count then from else from[..count]
  }

  function Continue(pending: seq<EntryId>, cursor: EntryId, count: nat): EntryId {
    var from := Filter(pending, AtLeast(cursor));
    if |from| <= count then 0 else from[count]
  }

  function Elements(s: seq<EntryId>): set<EntryId> {
    set e | e in s
  }

  lemma {:induction false} FilterAll(s: seq<EntryId>, cursor: EntryId)
    requires forall i :: 0 <= i < |s| ==> s[i] >= cursor
    ensures Filter(s, AtLeast(cursor)) == s
  {
    if s != [] {
      FilterAll(s[..|s| - 1], cursor);
      assert s == s[..|s| - 1] + [s[|s| - 1]];
    }
  }

  // Everything before the cursor is gone: the batch is a prefix, and the cursor moves to the rest.
  lemma BatchOf(pending: seq<EntryId>, cursor: EntryId, count: nat)
    requires Increasing(pending) && (forall i :: 0 <= i < |pending| ==> pending[i] >= cursor && pending[i] > 0) && count > 0
    ensures var entries, next := Claimed(pending, cursor, count), Continue(pending, cursor, count);
            && entries <= pending && (entries == [] ==> pending == [])
            && var rest := pending[|entries|..];
               && (next == 0 <==> rest == [])
               && (next != 0 ==> rest[0] == next && next > cursor && forall i :: 0 <= i < |rest| ==> rest[i] >= next)
  {
    FilterAll(pending, cursor);
    if |pending| > count {
      var rest := pending[count..];
      forall i | 0 <= i < |rest|
        ensures rest[i] >= rest[0]
      {
        assert rest[i] == pending[count + i] && rest[0] == pending[count];
      }
      assert pending[count] > pending[0];
    }
  }

  class PendingList {
    var pending: seq<EntryId>
    var acked: set<EntryId>
    var attempted: set<EntryId>
    const content: EntryId -> Option<Content>      // None: trimmed away

    ghost predicate Valid()
      reads this
    {
      Increasing(pending) && (forall i :: 0 <= i < |pending| ==> pending[i] > 0)
    }

    // The entries of a list that are messages.
    ghost function MessagesIn(s: seq<EntryId>): set<EntryId> {
      set e | e in s && content(e) == Some(Message)
    }

    // One entry of a reclaimed batch, the consumer running to completion.
    method Replay(e: EntryId)
      requires Valid() && pending != [] && pending[0] == e
      modifies this
      ensures Valid() && pending == old(pending)[1..] && acked == old(acked) + {e}
      ensures attempted == old(attempted) + (if content(e) == Some(Message) then {e} else {})
    {
      if content(e) == Some(Message) {
        attempted := attempted + {e};
      }
      pending, acked := pending[1..], acked + {e};
    }

    lemma Parts(s: seq<EntryId>, k: nat)
      requires k <= |s|
      ensures Elements(s[..k]) + Elements(s[k..]) == Elements(s)
      ensures MessagesIn(s[..k]) + MessagesIn(s[k..]) == MessagesIn(s)
    {
      assert s == s[..k] + s[k..];
    }

    method ReplayBatch(entries: seq<EntryId>)
      requires Valid() && entries <= pending
      modifies this
      ensures Valid() && pending == old(pending)[|entries|..]
      ensures acked == old(acked) + Elements(entries) && attempted == old(attempted) + MessagesIn(entries)
    {
      ghost var all := pending;
      for i := 0 to |entries|
        invariant Valid() && pending == all[i..]
        invariant acked == old(acked) + Elements(entries[..i]) && attempted == old(attempted) + MessagesIn(entries[..i])
      {
        assert entries[..i + 1] == entries[..i] + [entries[i]];
        assert entries[i] == all[i];
        Replay(entries[i]);
      }
      assert entries[..|entries|] == entries;
    }

    /** A drain over a wholly idle list ends, with every entry acknowledged and every message
        among them attempted. */
    method DrainReclaimed(count: nat)
      requires Valid() && count > 0
      modifies this
      ensures pending == [] && acked == old(acked) + Elements(old(pending))
      ensures attempted == old(attempted) + MessagesIn(old(pending))
    {
      hide Elements, MessagesIn, Claimed, Continue, Increasing;
      var cursor: EntryId := 0;
      ghost var done, all, a0, t0 := [], pending, acked, attempted;
      NoElements();
      while true
        invariant Valid() && done + pending == all
        invariant forall i :: 0 <= i < |pending| ==> pending[i] >= cursor
        invariant cursor != 0 ==> pending != [] && cursor == pending[0]
        invariant acked == a0 + Elements(done) && attempted == t0 + MessagesIn(done)
        decreases |pending|
      {
        BatchOf(pending, cursor, count);
        var entries, next := Claimed(pending, cursor, count), Continue(pending, cursor, count);
        ghost var before := done;
        ReplayBatch(entries);
        done := done + entries;
        Parts(done, |before|);
        assert done[..|before|] == before && done[|before|..] == entries;
        if next == 0 || next == cursor || entries == [] {
          break;
        }
        cursor := next;
      }
      assert done == all;
    }

    lemma NoElements()
      ensures Elements([]) == {} && MessagesIn([]) == {}
    {
    }
  }

  // ------------------------------------------------------------------- balance throttling

  datatype Balance = Balance(account: AccountId, at: int, value: Option<real>)

  type LastKept = map<AccountId, (int, Option<real>)>

  // A row is due once the interval has passed; a changed value is never held back.
  predicate Keeps(last: LastKept, b: Balance, interval: nat) {
    b.account !in last || b.at - last[b.account].0 >= interval || b.value != last[b.account].1
  }

  datatype Kept = Kept(last: LastKept, rows: seq<Balance>)

  function KeepStep(k: Kept, b: Balance, interval: nat): Kept {
    if Keeps(k.last, b, interval) then Kept(k.last[b.account := (b.at, b.value)], k.rows + [b]) else k
  }

  function KeptOf(messages: seq<Balance>, interval: nat): Kept {
    if messages == [] then Kept(map[], [])
    else KeepStep(KeptOf(messages[..|messages| - 1], interval), messages[|messages| - 1], interval)
  }

  class BalanceThrottle {
    var last: LastKept
    var rows: seq<Balance>
    const interval: nat

    constructor (interval: nat)
      ensures Kept(last, rows) == KeptOf([], interval) && this.interval == interval
    {
      last, rows, this.interval := map[], [], interval;
    }

    method ApplyBalance(b: Balance)
      modifies this
      ensures Kept(last, rows) == KeepStep(old(Kept(last, rows)), b, interval)
    {
      var due := b.account !in last || b.at - last[b.account].0 >= interval;
      var changed := b.account in last && b.value != last[b.account].1;
      if due || changed {
        rows := rows + [b];
        last := last[b.account := (b.at, b.value)];
      }
    }
  }

  function Latest(messages: seq<Balance>, account: AccountId): Option<Balance> {
    if messages == [] then None
    else if messages[|messages| - 1].account == account then Some(messages[|messages| - 1])
    else Latest(messages[..|messages| - 1], account)
  }

  lemma LatestAppend(rows: seq<Balance>, b: Balance, account: AccountId)
    ensures Latest(rows + [b], account) == if b.account == account then Some(b) else Latest(rows, account)
  {
    assert (rows + [b])[..|rows|] == rows;
  }

  /** However many updates are held back, the last value stored for an account is the last value
      it sent. */
  lemma {:induction false} NoValueLost(messages: seq<Balance>, interval: nat, account: AccountId)
    ensures var kept, sent := KeptOf(messages, interval), Latest(messages, account);
            && (sent.Some? <==> Latest(kept.rows, account).Some?)
            && (sent.Some? <==> account in kept.last)
            && (sent.Some? ==> Latest(kept.rows, account).value.value == sent.value.value
                               && kept.last[account] == (Latest(kept.rows, account).value.at, sent.value.value))
  {
    if messages != [] {
      var front, b := messages[..|messages| - 1], messages[|messages| - 1];
      NoValueLost(front, interval, account);
      NoValueLost(front, interval, b.account);
      LatestAppend(KeptOf(front, interval).rows, b, account);
    }
  }

  // Consecutive stored rows of one account, i before j.
  predicate Consecutive(rows: seq<Balance>, i: nat, j: nat) {
    i < j < |rows| && rows[i].account == rows[j].account
    && forall k :: i < k < j ==> rows[k].account != rows[j].account
  }

  /** Rows are stored no closer than the interval unless the value changed. */
  lemma {:induction false} StoredApart(messages: seq<Balance>, interval: nat, i: nat, j: nat)
    requires Consecutive(KeptOf(messages, interval).rows, i, j)
    ensures var rows := KeptOf(messages, interval).rows;
            rows[j].at - rows[i].at >= interval || rows[j].value != rows[i].value
  {
    var front, b := messages[..|messages| - 1], messages[|messages| - 1];
    var before, rows := KeptOf(front, interval).rows, KeptOf(messages, interval).rows;
    forall k | i < k < j && k < |before|
      ensures before[k].account != rows[j].account
    {
      assert rows[k] == before[k];
    }
    if j < |before| {
      StoredApart(front, interval, i, j);
    } else {
      NoValueLost(front, interval, b.account);
      LatestIs(before, i, b.account);
    }
  }

  lemma {:induction false} LatestIs(rows: seq<Balance>, i: nat, account: AccountId)
    requires i < |rows| && rows[i].account == account && forall k :: i < k < |rows| ==> rows[k].account != account
    ensures Latest(rows, account) == Some(rows[i])
  {
    if i < |rows| - 1 {
      LatestIs(rows[..|rows| - 1], i, account);
    }
  }
}
