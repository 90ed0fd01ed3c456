/** When a group's signed stake is the net its clamped walk arrives at. */
module SignedStakes {
  import opened Rows
  import opened Ordering
  import opened GroupNet
  import opened Routing
  import opened Books
  import opened Membership
  import opened Stakes
  import opened StakeReads

  // ------------------------------------------------------------------------ orderly legs

  predicate OpensLeg(r: Row, long: bool) {
    r.action == (if long then BuyToOpen else SellToOpen) && !IsSettlement(r) && !r.kind.MoneyMovement?
  }

  predicate ClosesLeg(r: Row, long: bool) {
    r.action == (if long then SellToClose else BuyToClose) && !r.kind.MoneyMovement?
  }

  // A settlement row whose sub-type removes the leg and whose action does not.
  predicate RetiresLeg(r: Row) {
    IsSettlement(r) && IsRemoval(r)
  }

  predicate CashOnly(r: Row) {
    r.action.NoAction? && r.subType.OtherSubType?
  }

  predicate NoRemoval(rows: seq<Row>) {
    forall i :: 0 <= i < |rows| ==> !IsRemoval(rows[i])
  }

  /** Opens all one way, closes against them and never beyond what is held, and settlements
      last, each retiring exactly what the trades left. */
  predicate Orderly(rows: seq<Row>, long: bool) {
    rows == [] ||
    (var front, r := rows[..|rows| - 1], rows[|rows| - 1];
     && Orderly(front, long)
     && IsPositionRow(r) && r.quantity.value >= 0.0
     && (|| CashOnly(r)
         || (OpensLeg(r, long) && NoRemoval(front))
         || (ClosesLeg(r, long) && NoRemoval(front) && r.quantity.value <= SlotRun(front).traded)
         || (RetiresLeg(r) && r.quantity.value == SlotRun(front).traded)))
  }

  // What the fold makes of a leg, signed by the side it was opened on.
  function Stake(slot: Slot): real {
    if slot.signedOpen < 0.0 then -(slot.traded - slot.removal) else slot.traded - slot.removal
  }

  // Held so far, on the leg's own side.
  function Side(long: bool, held: real): real {
    if long then held else -held
  }

  ghost predicate Agrees(slot: Slot, walked: real, long: bool, removed: bool) {
    && slot.traded >= 0.0
    && slot.removal == (if removed then slot.traded else 0.0)
    && walked == Side(long, slot.traded - slot.removal)
    && (if long then slot.signedOpen >= slot.traded else -slot.signedOpen >= slot.traded)
  }

  lemma AgreesStep(slot: Slot, walked: real, long: bool, removed: bool, r: Row)
    requires Agrees(slot, walked, long, removed) && IsPositionRow(r) && r.quantity.value >= 0.0
    requires || CashOnly(r)
             || (OpensLeg(r, long) && !removed)
             || (ClosesLeg(r, long) && !removed && r.quantity.value <= slot.traded)
             || (RetiresLeg(r) && r.quantity.value == slot.traded)
    ensures Agrees(SlotStep(slot, r), GroupNetStep(walked, r).GetOr(walked), long, removed || IsRemoval(r))
  {
  }

  lemma {:induction false} OrderlyAgrees(rows: seq<Row>, long: bool)
    requires Orderly(rows, long)
    ensures Positional(rows) && Agrees(SlotRun(rows), Walk(rows).GetOr(0.0), long, !NoRemoval(rows))
  {
    hide SlotStep, Agrees, IsRemoval, GroupNetStep;
    if rows == [] {
      AgreesAtStart(long);
    } else {
      var front, r := rows[..|rows| - 1], rows[|rows| - 1];
      OrderlyAgrees(front, long);
      AgreesStep(SlotRun(front), Walk(front).GetOr(0.0), long, !NoRemoval(front), r);
      RemovalOf(rows);
    }
  }

  lemma AgreesAtStart(long: bool)
    ensures Agrees(NOTHING, 0.0, long, false)
  {
  }

  lemma RemovalOf(rows: seq<Row>)
    requires rows != []
    ensures NoRemoval(rows) <==> NoRemoval(rows[..|rows| - 1]) && !IsRemoval(rows[|rows| - 1])
  {
    hide IsRemoval;
    var front := rows[..|rows| - 1];
    assert rows == front + [rows[|rows| - 1]];
    if NoRemoval(rows) {
      forall i | 0 <= i < |front|
        ensures !IsRemoval(front[i])
      {
        assert front[i] == rows[i];
      }
    }
  }

  /** An orderly leg's stake is its clamped walk's net. */
  lemma StakeIsWalk(rows: seq<Row>, long: bool)
    requires Orderly(rows, long)
    ensures Positional(rows) && Stake(SlotRun(rows)) == Walk(rows).GetOr(0.0)
  {
    OrderlyAgrees(rows, long);
  }

  // The row's signed figure is the stake, truncated.
  lemma SignedIsStake(rows: seq<Row>, k: LegKey)
    ensures SignedNetOpen(LegRow(k, SlotRun(rows))) == Truncate(Stake(SlotRun(rows)))
  {
  }

  // ------------------------------------------------------------------------ over the books

  function HasQuantity(): Row -> bool {
    (r: Row) => r.quantity.Some?
  }

  // A row without a quantity adds nothing to the fold.
  lemma {:induction false} NullsFold(rows: seq<Row>)
    ensures SlotRun(Filter(rows, HasQuantity())) == SlotRun(rows) && SlotRun(rows).removal >= 0.0
  {
    hide SlotStep;
    if rows != [] {
      var front, r := rows[..|rows| - 1], rows[|rows| - 1];
      NullsFold(front);
      NullStep(SlotRun(front), r);
      var kept := Filter(front, HasQuantity());
      assert (kept + [r])[..|kept|] == kept;
    }
  }

  lemma NullStep(slot: Slot, r: Row)
    requires slot.removal >= 0.0
    ensures SlotStep(slot, r).removal >= 0.0 && (r.quantity.None? ==> SlotStep(slot, r) == slot)
  {
  }

  // Nor to the walk: the walk's rows are the leg's rows that have a quantity.
  lemma {:induction false} LegOfMembers(txns: seq<Txn>, g: nat, x: SecurityId)
    ensures Filter(Members(txns, g), OnSecurity(x)) == Filter(GroupLegRows(txns, g, x), HasQuantity())
  {
    if txns != [] {
      var front, t := txns[..|txns| - 1], txns[|txns| - 1];
      LegOfMembers(front, g, x);
      if t.group == Some(g) {
        FilterAppend(Members(front, g), t.row, OnSecurity(x));
        if InLeg(t, g, x) {
          FilterAppend(GroupLegRows(front, g, x), t.row, HasQuantity());
        }
      }
    }
  }

  // The group's rows in one security, in the order its walk takes them.
  function LegInOrder(s: Ledger, g: nat, x: SecurityId): seq<Row> {
    SecurityRows(LoadRows(s, g), x)
  }

  lemma LegInOrderRows(s: Ledger, g: nat, x: SecurityId)
    ensures multiset(LegInOrder(s, g, x)) == multiset(Filter(GroupLegRows(s.txns, g, x), HasQuantity()))
  {
    LegOfMembers(s.txns, g, x);
    FilterSort(Members(s.txns, g), GroupKey, OnSecurity(x));
    SortMultiset(Filter(GroupLegRows(s.txns, g, x), HasQuantity()), GroupKey);
    SortMultiset(Filter(LoadRows(s, g), OnSecurity(x)), GroupKey);
  }

  /** The signed stake the leg read reports for an open group is the net reconcile reasons with,
      truncated, whenever the group's leg is orderly. */
  lemma SignedStakeIsNet(s: Ledger, account: Option<AccountId>, a: AccountId, g: nat, x: SecurityId, long: bool)
    requires HasGroup(s, g) && GroupAt(s, g).status == Open && OneAccount(s.txns, g, a)
    requires account.None? || account.value == a
    requires Orderly(LegInOrder(s, g, x), long)
    ensures SignedNetOpen(LegFrom(OpenRecords(s, account), (a, x, g)))
         == Truncate(Lookup(NetQuantities(LoadRows(s, g)), x).GetOr(0.0))
  {
    hide LegInOrder, SlotRun, LegRows, OpenRecords, NetQuantities, Orderly, Walk, LoadRows, SignedNetOpen, LegRow, Stake, Truncate;
    SameLegRows(s.txns, s, account, a, g, x);
    LegInOrderRows(s, g, x);
    var mine, ordered := GroupLegRows(s.txns, g, x), LegInOrder(s, g, x);
    OpenRecordsAre(s, account);
    NullsFold(mine);
    FoldOrderIndependent(Filter(mine, HasQuantity()), ordered);
    SignedIsStake(mine, (a, x, g));
    StakeIsWalk(ordered, long);
    NetOfSecurity(LoadRows(s, g), x);
    InOrderIs(s, g, x);
  }

  lemma OpenRecordsAre(s: Ledger, account: Option<AccountId>)
    ensures OpenRecords(s, account) == Filter(s.txns, IsOpenRecord(s, account))
  {
  }

  lemma InOrderIs(s: Ledger, g: nat, x: SecurityId)
    ensures LegInOrder(s, g, x) == SecurityRows(LoadRows(s, g), x)
  {
  }

  // ------------------------------------------------------------------- a partial settlement

  // A physical row and its cash row: one event, two rows.
  predicate Pair(p: Row, c: Row, q: real) {
    && RetiresLeg(p) && IsPositionRow(p) && p.quantity == Some(q)
    && RetiresLeg(c) && IsPositionRow(c) && c.quantity == Some(q)
  }

  /** A settlement pair that retires only part of a leg counts once in the fold and twice in the
      walk: the two agree exactly when it retires nothing or everything. */
  lemma PairCountsTwice(rows: seq<Row>, long: bool, p: Row, c: Row, q: real)
    requires Orderly(rows, long) && NoRemoval(rows) && Pair(p, c, q) && 0.0 <= q <= SlotRun(rows).traded
    ensures Positional(rows + [p, c])
    ensures var held := SlotRun(rows).traded;
            && Walk(rows + [p, c]).GetOr(0.0) == Side(long, held - Min(q + q, held))
            && Stake(SlotRun(rows + [p, c])) == Side(long, held - q)
            && (Stake(SlotRun(rows + [p, c])) == Walk(rows + [p, c]).GetOr(0.0) <==> q == 0.0 || q == held)
  {
    OrderlyAgrees(rows, long);
    PairSteps(rows, p, c);
    PairStake(SlotRun(rows), Walk(rows).GetOr(0.0), long, p, c, q);
  }

  lemma OneMore(rows: seq<Row>, r: Row)
    requires Positional(rows) && IsPositionRow(r)
    ensures Positional(rows + [r]) && SlotRun(rows + [r]) == SlotStep(SlotRun(rows), r)
    ensures var walked := Walk(rows).GetOr(0.0);
            Walk(rows + [r]).GetOr(0.0) == GroupNetStep(walked, r).GetOr(walked)
  {
    hide SlotStep, GroupNetStep;
    assert (rows + [r])[..|rows|] == rows;
  }

  lemma PairSteps(rows: seq<Row>, p: Row, c: Row)
    requires Positional(rows) && IsPositionRow(p) && IsPositionRow(c)
    ensures Positional(rows + [p, c])
    ensures SlotRun(rows + [p, c]) == SlotStep(SlotStep(SlotRun(rows), p), c)
    ensures var walked := Walk(rows).GetOr(0.0);
            var once := GroupNetStep(walked, p).GetOr(walked);
            Walk(rows + [p, c]).GetOr(0.0) == GroupNetStep(once, c).GetOr(once)
  {
    hide SlotStep, GroupNetStep, SlotRun, Walk;
    OneMore(rows, p);
    OneMore(rows + [p], c);
    assert rows + [p, c] == rows + [p] + [c];
  }

  lemma PairStake(slot: Slot, walked: real, long: bool, p: Row, c: Row, q: real)
    requires Agrees(slot, walked, long, false) && Pair(p, c, q) && 0.0 <= q <= slot.traded
    ensures Stake(SlotStep(SlotStep(slot, p), c)) == Side(long, slot.traded - q)
    ensures var once := GroupNetStep(walked, p).GetOr(walked);
            GroupNetStep(once, c).GetOr(once) == Side(long, slot.traded - Min(q + q, slot.traded))
  {
  }
}
