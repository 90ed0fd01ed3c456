/** The order a rebuild takes a security's rows in, and what it is for. */
module RebuildOrder {
  import opened Rows
  import opened Ordering
  import opened Replay
  import opened Lifecycles
  import opened Rebuild
  import opened Settlements
  import opened Headers

  // The rows of an account that replay takes up.
  predicate TakenUpBy(r: Row, account: AccountId) {
    r.account == account && r.security.Some? && r.quantity.Some? && r.at.Some?
  }

  /** A rebuild goes over exactly the securities, and is as late as the last, of the account's rows
      that have a security, a quantity and a time; and each security's rows are those in it. */
  lemma RebuildTakesUp(activity: seq<Row>, account: AccountId)
    ensures forall s: SecurityId :: s in SecuritiesOf(activity, account) <==> exists r :: r in activity && TakenUpBy(r, account) && r.security == Some(s)
    ensures NoRepeats(SecuritiesOf(activity, account))
    ensures var last := LastActivity(activity, account);
            && (last.Some? ==> exists r :: r in activity && TakenUpBy(r, account) && r.at == last)
            && (forall r :: r in activity && TakenUpBy(r, account) ==> last.Some? && r.at.value <= last.value)
    ensures forall s: SecurityId, r: Row :: r in SecurityRows(activity, account, s) <==> r in activity && TakenUpBy(r, account) && r.security == Some(s)
  {
    var mine := Filter(activity, CountsFor(account));
    LatestIsLast(mine);
    DistinctAre(mine);
    forall r
      ensures r in mine <==> r in activity && TakenUpBy(r, account)
    {
      FilterMember(activity, r, CountsFor(account));
    }
    forall s: SecurityId, r: Row
      ensures r in SecurityRows(activity, account, s) <==> r in activity && TakenUpBy(r, account) && r.security == Some(s)
    {
      SortMember(Filter(activity, CountsIn(account, s)), r, ReplayKey);
      FilterMember(activity, r, CountsIn(account, s));
    }
  }

  // A row that can only take from what is held: a settlement or an explicit close.
  predicate Lowers(r: Row) {
    (r.kind.ReceiveDeliver? && !r.subType.OtherSubType?) || EndsToClose(r.action)
  }

  function AtInstant(at: Time, lowers: bool): Row -> bool {
    (r: Row) => r.at == Some(at) && Lowers(r) == lowers
  }

  /** A rebuild takes a security's rows by time; those of one instant that can only take from
      what is held come after the others, and otherwise as they are stored. */
  lemma RebuildTakesOpensFirst(activity: seq<Row>, account: AccountId, s: SecurityId)
    ensures var rows := SecurityRows(activity, account, s);
            && (forall i :: 0 <= i < |rows| ==> rows[i].at.Some?)
            && (forall i, j :: 0 <= i < j < |rows| ==> rows[i].at.value <= rows[j].at.value)
            && (forall i, j :: 0 <= i < j < |rows| && rows[i].at == rows[j].at && Lowers(rows[i]) ==> Lowers(rows[j]))
            && (forall at, lowers :: Filter(rows, AtInstant(at, lowers))
                                  == Filter(Filter(activity, CountsIn(account, s)), AtInstant(at, lowers)))
  {
    var mine, rows := Filter(activity, CountsIn(account, s)), SecurityRows(activity, account, s);
    SecurityRowsCount(activity, account, s);
    SortSorted(mine, ReplayKey);
    forall i | 0 <= i < |rows|
      ensures rows[i].at.Some?
    {
      assert rows[i] in rows;
    }
    forall i, j | 0 <= i < j < |rows|
      ensures KeyLe(ReplayKey(rows[i]), ReplayKey(rows[j]))
    {
    }
    forall at, lowers
      ensures Filter(rows, AtInstant(at, lowers)) == Filter(mine, AtInstant(at, lowers))
    {
      AtOneInstant(mine, at, lowers);
    }
  }

  lemma AtOneInstant(rows: seq<Row>, at: Time, lowers: bool)
    ensures Filter(Sort(rows, ReplayKey), AtInstant(at, lowers)) == Filter(rows, AtInstant(at, lowers))
  {
    var p := AtInstant(at, lowers);
    FilterSort(rows, ReplayKey, p);
    var some := Filter(rows, p);
    forall i, j | 0 <= i < j < |some|
      ensures KeyLe(ReplayKey(some[i]), ReplayKey(some[j]))
    {
      FilterMember(rows, some[i], p);
      FilterMember(rows, some[j], p);
    }
    SortFixed(some, ReplayKey);
  }

  // An explicit open, and the close of as much.
  predicate OpenAndClose(a: Row, c: Row) {
    && ((a.action.BuyToOpen? && c.action.SellToClose?) || (a.action.SellToOpen? && c.action.BuyToClose?))
    && a.kind.OtherKind? && c.kind.OtherKind? && a.price.Some? && c.price.Some? && a.at.Some? && a.at == c.at
    && a.quantity.Some? && a.quantity == c.quantity && a.quantity.value > 0.0
  }

  ghost predicate AllEarlier(rows: seq<Row>, at: Time) {
    forall r :: r in rows ==> r.at.Some? && r.at.value < at
  }

  lemma OpenSortsFirst(before: seq<Row>, a: Row, c: Row)
    requires OpenAndClose(a, c) && AllEarlier(before, a.at.value)
    ensures Sort(before + [a, c], ReplayKey) == Sort(before, ReplayKey) + [a] + [c]
    ensures Sort(before + [c, a], ReplayKey) == Sort(before, ReplayKey) + [a] + [c]
  {
    assert before + [a, c] == before + [a] + [c] && before + [c, a] == before + [c] + [a];
    assert (before + [c] + [a])[..|before| + 1] == before + [c] && (before + [a] + [c])[..|before| + 1] == before + [a];
    SortAppendLast(before, a, ReplayKey);
    SortAppendLast(before, c, ReplayKey);
    SortAppendLast(before + [a], c, ReplayKey);
    InsertFront(Sort(before, ReplayKey), c, a, ReplayKey);
    assert (before + [a])[..|before|] == before;
  }

  /** An open and an equal close at one instant, stored in whichever order behind a flat
      history, leave the rebuilt lot flat and one more lifecycle, with the difference of the two
      prices as its profit. */
  lemma OpenAndCloseAtOnce(activity: seq<Row>, account: AccountId, s: SecurityId, multiplier: nat, before: seq<Row>, a: Row, c: Row)
    requires OpenAndClose(a, c) && AllEarlier(before, a.at.value)
    requires var mine := Filter(activity, CountsIn(account, s));
             mine == before + [a, c] || mine == before + [c, a]
    requires Quantified(Sort(before, ReplayKey)) && HeldOf(Sort(before, ReplayKey)) == 0.0
    ensures var rows := SecurityRows(activity, account, s);
            && Quantified(rows)
            && var was, w := Run(Sort(before, ReplayKey), account, s, multiplier), Run(rows, account, s, multiplier);
               && w.lot == FLAT && |ClosedRows(w.plan)| == |ClosedRows(was.plan)| + 1
               && ClosedRows(w.plan)[..|ClosedRows(was.plan)|] == ClosedRows(was.plan)
               && ClosedRows(w.plan)[|ClosedRows(was.plan)|].realized
                  == Worth(if a.action.BuyToOpen? then a.quantity.value else -a.quantity.value, c.price.value, multiplier as real)
                     - Worth(if a.action.BuyToOpen? then a.quantity.value else -a.quantity.value, a.price.value, multiplier as real)
  {
    hide Run, ClosedRows, Worth, Tape, SecurityRows;
    SecurityRowsCount(activity, account, s);
    OpenSortsFirst(before, a, c);
    var done := Sort(before, ReplayKey);
    assert SecurityRows(activity, account, s) == done + [a] + [c] by {
      RowsInOrder(activity, account, s);
    }
    OneMoreRow(done, a, account, s, multiplier);
    TradeMoves(done, a, account, s, multiplier);
    OneMoreRow(done + [a], c, account, s, multiplier);
    TradeMoves(done + [a], c, account, s, multiplier);
    OpensClean(Run(done, account, s, multiplier), a, account, s, multiplier);
    ClosedGrow(Run(done + [a], account, s, multiplier), c, account, s, multiplier);
  }

  lemma RowsInOrder(activity: seq<Row>, account: AccountId, s: SecurityId)
    ensures SecurityRows(activity, account, s) == Sort(Filter(activity, CountsIn(account, s)), ReplayKey)
  {
  }

  lemma OpensClean(w: Walk, a: Row, account: AccountId, s: SecurityId, multiplier: nat)
    requires ValidLot(w.lot) && w.lot.quantity == 0.0 && a.quantity.Some?
    ensures var w' := Step(w, a, account, s, multiplier);
            ClosedRows(w'.plan) == ClosedRows(w.plan) && w'.lot.realized == 0.0
  {
    hide ClosedRows, FeesOf;
    var w' := Step(w, a, account, s, multiplier);
    assert w'.plan == w.plan + [w'.plan[|w.plan|]];
    ClosedRowsAppend(w.plan, w'.plan[|w.plan|]);
  }

  lemma ClosedGrow(w: Walk, c: Row, account: AccountId, s: SecurityId, multiplier: nat)
    requires ValidLot(w.lot) && c.quantity.Some?
    ensures var w' := Step(w, c, account, s, multiplier);
            && |ClosedRows(w.plan)| <= |ClosedRows(w'.plan)| && ClosedRows(w'.plan)[..|ClosedRows(w.plan)|] == ClosedRows(w.plan)
            && (w'.lot.quantity == 0.0 ==> w'.lot == FLAT)
  {
    hide ClosedRows, FeesOf, WeightedAverage, ClosingGain, HoldingPeriod;
    var w' := Step(w, c, account, s, multiplier);
    assert w'.plan == w.plan + [w'.plan[|w.plan|]];
    ClosedRowsAppend(w.plan, w'.plan[|w.plan|]);
  }
}
