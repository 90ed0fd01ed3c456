/** The two reads of what open groups hold, and their agreement with each other and with the
    clamped walk. */
module StakeReads {
  import opened Rows
  import opened Ordering
  import opened GroupNet
  import opened Routing
  import opened Books
  import opened Stakes

  // -------------------------------------------------------------------- the plain count

  datatype Count = Count(traded: int, removed: int)

  function CountStep(c: Count, r: Row): Count {
    var q := Truncate(r.quantity.GetOr(0.0));
    if EndsToOpen(r.action) then c.(traded := c.traded + q)
    else if EndsToClose(r.action) then c.(traded := c.traded - q)
    else if IsRemoval(r) then c.(removed := if c.removed >= q then c.removed else q)
    else c
  }

  function CountRun(rows: seq<Row>): Count {
    if rows == [] then Count(0, 0) else CountStep(CountRun(rows[..|rows| - 1]), rows[|rows| - 1])
  }

  predicate InLeg(t: Txn, g: nat, s: SecurityId) {
    t.group == Some(g) && t.row.security == Some(s)
  }

  function GroupLegRows(txns: seq<Txn>, g: nat, s: SecurityId): seq<Row> {
    if txns == [] then []
    else
      var front, t := GroupLegRows(txns[..|txns| - 1], g, s), txns[|txns| - 1];
      if InLeg(t, g, s) then front + [t.row] else front
  }

  lemma GroupLegRowsAppend(txns: seq<Txn>, t: Txn, g: nat, s: SecurityId)
    ensures GroupLegRows(txns + [t], g, s) == GroupLegRows(txns, g, s) + (if InLeg(t, g, s) then [t.row] else [])
    ensures CountRun(GroupLegRows(txns + [t], g, s))
         == if InLeg(t, g, s) then CountStep(CountRun(GroupLegRows(txns, g, s)), t.row) else CountRun(GroupLegRows(txns, g, s))
  {
    assert (txns + [t])[..|txns|] == txns;
    assert (GroupLegRows(txns, g, s) + [t.row])[..|GroupLegRows(txns, g, s)|] == GroupLegRows(txns, g, s);
  }

  // A leg's net: what was traded, less the largest removal.
  function NetOpenIn(txns: seq<Txn>, g: nat, s: SecurityId): Option<int> {
    var rows := GroupLegRows(txns, g, s);
    if rows == [] then None else Some(CountRun(rows).traded - CountRun(rows).removed)
  }

  type LegId = (nat, SecurityId)

  function RowsIn(txns: seq<Txn>, k: LegId): seq<Row> {
    GroupLegRows(txns, k.0, k.1)
  }

  // What the loop below knows of one leg after the given records.
  ghost predicate Tallied(txns: seq<Txn>, wanted: set<nat>, k: LegId, traded: map<LegId, int>, removed: map<LegId, int>) {
    && (k in traded <==> k.0 in wanted && RowsIn(txns, k) != [])
    && (k in removed ==> k in traded)
    && (k in traded ==> CountRun(RowsIn(txns, k)) == Count(traded[k], if k in removed then removed[k] else 0))
  }

  lemma TallyStep(txns: seq<Txn>, t: Txn, wanted: set<nat>, k: LegId, traded: map<LegId, int>, removed: map<LegId, int>,
                  traded': map<LegId, int>, removed': map<LegId, int>)
    requires Tallied(txns, wanted, k, traded, removed)
    requires k.0 in wanted && InLeg(t, k.0, k.1) ==>
               var c := Count(if k in traded then traded[k] else 0, if k in removed then removed[k] else 0);
               k in traded' && k in removed' && Count(traded'[k], removed'[k]) == CountStep(c, t.row)
    requires !(k.0 in wanted && InLeg(t, k.0, k.1)) ==>
               (k in traded' <==> k in traded) && (k in removed' <==> k in removed)
               && (k in traded ==> traded'[k] == traded[k]) && (k in removed ==> removed'[k] == removed[k])
    ensures Tallied(txns + [t], wanted, k, traded', removed')
  {
    hide CountStep;
    GroupLegRowsAppend(txns, t, k.0, k.1);
  }

  // One leg's entry: present exactly for a wanted group with a record there, and its net.
  ghost predicate Answers(net: map<LegId, int>, txns: seq<Txn>, wanted: set<nat>, k: LegId) {
    && (k in net <==> k.0 in wanted && NetOpenIn(txns, k.0, k.1).Some?)
    && (k in net ==> Some(net[k]) == NetOpenIn(txns, k.0, k.1))
  }

  /** Net open per wanted group and security. Removals are collected on the side and taken off
      once per leg. */
  method NetOpenByGroup(txns: seq<Txn>, wanted: set<nat>) returns (net: map<LegId, int>)
    ensures forall k: LegId :: Answers(net, txns, wanted, k)
  {
    hide CountStep, Tallied, Answers;
    var traded: map<LegId, int>, removed: map<LegId, int> := map[], map[];
    NothingTallied(wanted);
    for i := 0 to |txns|
      invariant forall k: LegId :: Tallied(txns[..i], wanted, k, traded, removed)
    {
      var t := txns[i];
      ghost var read, wasTraded, wasRemoved := txns[..i] + [t], traded, removed;
      assert txns[..i + 1] == read;
      if t.group.Some? && t.group.value in wanted && t.row.security.Some? {
        var leg: LegId := (t.group.value, t.row.security.value);
        var c := CountStep(Count(if leg in traded then traded[leg] else 0, if leg in removed then removed[leg] else 0), t.row);
        traded, removed := traded[leg := c.traded], removed[leg := c.removed];
      }
      forall k: LegId
        ensures Tallied(read, wanted, k, traded, removed)
      {
        TallyStep(txns[..i], t, wanted, k, wasTraded, wasRemoved, traded, removed);
      }
    }
    assert txns[..|txns|] == txns;
    net := map k | k in traded :: traded[k] - (if k in removed then removed[k] else 0);
    forall k: LegId
      ensures Answers(net, txns, wanted, k)
    {
      TalliedNet(txns, wanted, k, traded, removed);
    }
  }

  lemma NothingTallied(wanted: set<nat>)
    ensures forall k: LegId :: Tallied([], wanted, k, map[], map[])
  {
  }

  lemma TalliedNet(txns: seq<Txn>, wanted: set<nat>, k: LegId, traded: map<LegId, int>, removed: map<LegId, int>)
    requires Tallied(txns, wanted, k, traded, removed)
    ensures Answers(map l | l in traded :: traded[l] - (if l in removed then removed[l] else 0), txns, wanted, k)
  {
  }

  // --------------------------------------------------------------------- the two reads agree

  // What truncation drops of a quantity.
  function Fraction(x: real): real {
    x - Truncate(x) as real
  }

  // The fractions of what was traded, opens less closes.
  function FractionTraded(rows: seq<Row>): real {
    if rows == [] then 0.0
    else
      var r := rows[|rows| - 1];
      FractionTraded(rows[..|rows| - 1])
      + (if EndsToOpen(r.action) then Fraction(r.quantity.GetOr(0.0))
         else if EndsToClose(r.action) then -Fraction(r.quantity.GetOr(0.0)) else 0.0)
  }

  function LargestRemoval(rows: seq<Row>): real {
    if rows == [] then 0.0
    else
      var before, r := LargestRemoval(rows[..|rows| - 1]), rows[|rows| - 1];
      if IsRemoval(r) then Max(before, r.quantity.GetOr(0.0)) else before
  }

  // What the count drops of a leg: the fractions traded less that of the largest removal.
  function Dropped(rows: seq<Row>): real {
    FractionTraded(rows) - Fraction(LargestRemoval(rows))
  }

  lemma TruncateOrdered(x: real, y: real)
    ensures x <= y ==> Truncate(x) <= Truncate(y)
  {
  }

  lemma {:induction false} FractionsAdd(rows: seq<Row>)
    ensures SlotRun(rows).traded == CountRun(rows).traded as real + FractionTraded(rows)
    ensures SlotRun(rows).removal == LargestRemoval(rows) && CountRun(rows).removed == Truncate(LargestRemoval(rows))
  {
    hide Truncate;
    NoneRemoved();
    if rows != [] {
      var before, q := LargestRemoval(rows[..|rows| - 1]), rows[|rows| - 1].quantity.GetOr(0.0);
      FractionsAdd(rows[..|rows| - 1]);
      TruncateOrdered(before, q);
      TruncateOrdered(q, before);
    }
  }

  lemma NoneRemoved()
    ensures Truncate(0.0) == 0
  {
  }

  // Whether n and what was dropped truncate back to n.
  predicate Absorbs(n: int, f: real) {
    if n > 0 then 0.0 <= f < 1.0 else if n < 0 then -1.0 < f <= 0.0 else -1.0 < f < 1.0
  }

  lemma TruncatesBack(n: int, f: real)
    ensures Truncate(n as real + f) == n <==> Absorbs(n, f)
  {
    if n < 0 {
      assert -(n as real + f) == (-n) as real - f;
    }
  }

  /** The fold adds exact quantities and truncates the net; the count truncates every quantity
      and adds. They give one net exactly when what the count drops is less than a lot, and on
      the net's own side of zero. */
  lemma NetsAgreeExactlyWhen(rows: seq<Row>)
    ensures Truncate(SlotRun(rows).traded - SlotRun(rows).removal) == CountRun(rows).traded - CountRun(rows).removed
            <==> Absorbs(CountRun(rows).traded - CountRun(rows).removed, Dropped(rows))
  {
    hide SlotRun, CountRun, Truncate, FractionTraded, LargestRemoval;
    FractionsAdd(rows);
    TruncatesBack(CountRun(rows).traded - CountRun(rows).removed, Dropped(rows));
  }

  predicate Integral(rows: seq<Row>) {
    forall i :: 0 <= i < |rows| ==> rows[i].quantity.GetOr(0.0) == rows[i].quantity.GetOr(0.0).Floor as real
  }

  lemma WholeHasNoFraction(x: real)
    requires x == x.Floor as real
    ensures Fraction(x) == 0.0
  {
    hide Truncate;
    TruncateWhole(x.Floor);
  }

  lemma TruncateWhole(n: int)
    ensures Truncate(n as real) == n
  {
    assert -(n as real) == (-n) as real;
  }

  // Whole quantities drop nothing.
  lemma {:induction false} NothingDropped(rows: seq<Row>)
    requires Integral(rows)
    ensures FractionTraded(rows) == 0.0
    ensures LargestRemoval(rows) == LargestRemoval(rows).Floor as real && Fraction(LargestRemoval(rows)) == 0.0
  {
    if rows != [] {
      NothingDropped(rows[..|rows| - 1]);
      WholeHasNoFraction(rows[|rows| - 1].quantity.GetOr(0.0));
    }
    WholeHasNoFraction(LargestRemoval(rows));
  }

  // The records an account's open legs are folded from.
  function IsOpenRecord(s: Ledger, account: Option<AccountId>): Txn -> bool {
    (t: Txn) =>
      t.group.Some? && HasGroup(s, t.group.value) && GroupAt(s, t.group.value).status == Open
      && (account.None? || t.row.account == account.value)
  }

  function OpenRecords(s: Ledger, account: Option<AccountId>): seq<Txn> {
    Filter(s.txns, IsOpenRecord(s, account))
  }

  // The transaction is one of the leg's, in a group that is open.
  ghost predicate OpenMember(s: Ledger, t: Txn, k: LegKey) {
    && t.row.account == k.0 && t.row.security == Some(k.1) && t.group == Some(k.2)
    && HasGroup(s, k.2) && GroupAt(s, k.2).status == Open
  }

  /** The read lists, once each, exactly the legs of open groups that have a transaction on the
      account asked for. */
  lemma OpenLegsAre(s: Ledger, account: Option<AccountId>)
    ensures NoRepeats(Legs(OpenRecords(s, account)))
    ensures forall k :: k in Legs(OpenRecords(s, account)) <==>
              (account.None? || account == Some(k.0)) && exists t :: t in s.txns && OpenMember(s, t, k)
  {
    var records := OpenRecords(s, account);
    LegsOf(records);
    forall k
      ensures k in Legs(records) <==> (account.None? || account == Some(k.0)) && exists t :: t in s.txns && OpenMember(s, t, k)
    {
      if k in Legs(records) {
        var t :| t in records && LegOf(t) == Some(k);
        FilterMember(s.txns, t, IsOpenRecord(s, account));
        assert OpenMember(s, t, k);
      }
      if (account.None? || account == Some(k.0)) && exists t :: t in s.txns && OpenMember(s, t, k) {
        var t :| t in s.txns && OpenMember(s, t, k);
        FilterMember(s.txns, t, IsOpenRecord(s, account));
      }
    }
  }

  lemma {:induction false} LegsOf(records: seq<Txn>)
    ensures NoRepeats(Legs(records))
    ensures forall k :: k in Legs(records) <==> exists t :: t in records && LegOf(t) == Some(k)
  {
    if records != [] {
      var front, last := records[..|records| - 1], records[|records| - 1];
      LegsOf(front);
      assert records == front + [last];
      forall k | k in Legs(records)
        ensures exists t :: t in records && LegOf(t) == Some(k)
      {
        if k in Legs(front) {
          var t :| t in front && LegOf(t) == Some(k);
          assert t in records;
        } else {
          assert last in records && LegOf(last) == Some(k);
        }
      }
    }
  }

  method OpenGroupLegs(s: Ledger, account: Option<AccountId>) returns (legs: seq<OpenGroupLeg>)
    ensures |legs| == |Legs(OpenRecords(s, account))|
    ensures forall i :: 0 <= i < |legs| ==> legs[i] == LegFrom(OpenRecords(s, account), Legs(OpenRecords(s, account))[i])
  {
    legs := FoldOpenGroupLegs(OpenRecords(s, account));
  }

  ghost predicate OneAccount(txns: seq<Txn>, g: nat, account: AccountId) {
    forall i :: 0 <= i < |txns| && txns[i].group == Some(g) ==> txns[i].row.account == account
  }

  lemma {:induction false} SameLegRows(txns: seq<Txn>, s: Ledger, account: Option<AccountId>, a: AccountId, g: nat, x: SecurityId)
    requires HasGroup(s, g) && GroupAt(s, g).status == Open && OneAccount(txns, g, a)
    requires account.None? || account.value == a
    ensures LegRows(Filter(txns, IsOpenRecord(s, account)), (a, x, g)) == GroupLegRows(txns, g, x)
  {
    if txns != [] {
      var front, t := txns[..|txns| - 1], txns[|txns| - 1];
      SameLegRows(front, s, account, a, g, x);
      if IsOpenRecord(s, account)(t) {
        LegRowsAppend(Filter(front, IsOpenRecord(s, account)), t, (a, x, g));
      }
    }
  }

  /** The leg read and the count list the same legs of an open group whose members belong to
      one account, and give a leg the same net exactly when its net absorbs the fractions the
      count drops; on whole quantities always. */
  lemma StakeReadsAgree(s: Ledger, account: Option<AccountId>, a: AccountId, g: nat, x: SecurityId)
    requires HasGroup(s, g) && GroupAt(s, g).status == Open && OneAccount(s.txns, g, a)
    requires account.None? || account.value == a
    ensures (a, x, g) in Legs(OpenRecords(s, account)) <==> NetOpenIn(s.txns, g, x).Some?
    ensures var net := NetOpenIn(s.txns, g, x);
            net.Some? ==> (LegFrom(OpenRecords(s, account), (a, x, g)).netOpen == net.value <==>
                           Absorbs(net.value, Dropped(GroupLegRows(s.txns, g, x))))
    ensures Integral(GroupLegRows(s.txns, g, x)) ==> Dropped(GroupLegRows(s.txns, g, x)) == 0.0
  {
    hide SlotRun, CountRun, Truncate, FractionTraded, LargestRemoval, Integral, Absorbs;
    SameLegRows(s.txns, s, account, a, g, x);
    LegsAppear(OpenRecords(s, account), (a, x, g));
    NetsAgreeExactlyWhen(GroupLegRows(s.txns, g, x));
    if Integral(GroupLegRows(s.txns, g, x)) {
      NothingDropped(GroupLegRows(s.txns, g, x));
    }
  }

  /** Two half lots: the fold holds one, the count none. */
  lemma HalvesDisagree(r: Row)
    requires EndsToOpen(r.action) && r.quantity == Some(0.5)
    ensures Truncate(SlotRun([r, r]).traded - SlotRun([r, r]).removal) == 1
    ensures CountRun([r, r]) == Count(0, 0)
  {
    assert [r, r][..1] == [r] && [r][..0] == [];
    assert SlotRun([r]).traded == 0.5 && SlotRun([r, r]).traded == 1.0;
    assert CountRun([r]) == Count(0, 0);
  }
}
