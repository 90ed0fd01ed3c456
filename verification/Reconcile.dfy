/** One reconcile pass over an account, as a function of the books: intent, routing, creation,
    exits and self-heal, cluster by cluster. */
module Reconcile {
  import opened Rows
  import opened Ordering
  import opened GroupNet
  import opened Routing
  import opened Books
  import opened Exits

  // The open groups as one pass holds them in memory, and the books it has written so far.
  datatype Pass = Pass(ledger: Ledger, open: seq<MemGroup>)

  // The linking heuristics, which only choose the target an event points at.
  datatype Linker = Linker(
    sameUnderlying: (seq<Row>, seq<Row>) -> bool,
    delivers: (seq<Row>, seq<Row>) -> bool)

  function ReplaceGroup(open: seq<MemGroup>, g: MemGroup): seq<MemGroup> {
    seq(|open|, i requires 0 <= i < |open| => if open[i].pk == g.pk then g else open[i])
  }

  function NotGroup(pk: nat): MemGroup -> bool {
    (g: MemGroup) => g.pk != pk
  }

  function RemoveGroup(open: seq<MemGroup>, pk: nat): seq<MemGroup> {
    Filter(open, NotGroup(pk))
  }

  function FindGroup(open: seq<MemGroup>, pk: nat): (i: Option<nat>)
    ensures i.Some? ==> i.value < |open| && open[i.value].pk == pk
    ensures i.None? ==> forall k :: 0 <= k < |open| ==> open[k].pk != pk
  {
    if open == [] then None
    else if open[|open| - 1].pk == pk then Some(|open| - 1)
    else FindGroup(open[..|open| - 1], pk)
  }

  // A fully closed group leaves the pass; any other stays with its new members.
  function Settle(open: seq<MemGroup>, e: Exit): seq<MemGroup> {
    if e.fullyClosed then RemoveGroup(open, e.group.pk) else ReplaceGroup(open, e.group)
  }

  // ------------------------------------------------------------------ pre-attributed orders

  function NoIntent(): Txn -> bool {
    (t: Txn) => t.orderGroup.None?
  }

  // Rows by the group their order names, in order of first appearance.
  function Intents(cluster: seq<Txn>): seq<Bucket> {
    if cluster == [] then []
    else
      var t := cluster[|cluster| - 1];
      if t.orderGroup.Some? then AddTo(Intents(cluster[..|cluster| - 1]), t.orderGroup.value, t.row)
      else Intents(cluster[..|cluster| - 1])
  }

  function IsOpeningRow(): Row -> bool {
    (r: Row) => !IsClosing(r)
  }

  function IsClosingRow(): Row -> bool {
    (r: Row) => IsClosing(r)
  }

  // The pass's copy of a group, loading it (whatever its status) when it is not held yet.
  function WithGroup(st: Pass, pk: nat): Pass {
    if FindGroup(st.open, pk).Some? || !HasGroup(st.ledger, pk) then st
    else st.(open := st.open + [MemGroup(pk, LoadRows(st.ledger, pk))])
  }

  // Opening fills of a pre-attributed order join its group without an event.
  function JoinOpenings(s: Ledger, g: MemGroup, rows: seq<Row>): (Ledger, MemGroup) {
    if rows == [] then (s, g)
    else
      var attached, held := Attach(s, rows, g.pk), ExtendUnique(g, rows);
      (if HasGroup(attached, g.pk) then SetGroup(attached, g.pk, Refreshed(GroupAt(attached, g.pk), held.rows)) else attached,
       held)
  }

  // One intent group; rows that name a missing group are returned for heuristic routing.
  function ApplyIntent(st: Pass, b: Bucket, secs: Securities): (Pass, seq<Row>) {
    var held := WithGroup(st, b.group);
    var i := FindGroup(held.open, b.group);
    if i.None? then (held, b.rows)
    else
      var (joined, g) := JoinOpenings(held.ledger, held.open[i.value], Filter(b.rows, IsOpeningRow()));
      var closing := Filter(b.rows, IsClosingRow());
      if closing == [] then (Pass(joined, ReplaceGroup(held.open, g)), [])
      else
        var e := ApplyExit(joined, g, closing, None, None, secs);
        (Pass(e.ledger, Settle(ReplaceGroup(held.open, g), e)), [])
  }

  function ApplyIntents(st: Pass, intents: seq<Bucket>, secs: Securities): (Pass, seq<Row>) {
    if intents == [] then (st, [])
    else
      var (before, back) := ApplyIntents(st, intents[..|intents| - 1], secs);
      var (after, more) := ApplyIntent(before, intents[|intents| - 1], secs);
      (after, back + more)
  }

  // ---------------------------------------------------------------------- routed activity

  function OpenRest(st: Pass, account: AccountId, rest: seq<Row>): Pass {
    if rest == [] then st
    else Pass(CreateGroup(st.ledger, account, rest), st.open + [MemGroup(|st.ledger.groups| + 1, rest)])
  }

  function TargetIf(flag: bool, pk: Option<nat>): Option<nat> {
    if pk.Some? && flag then pk else None
  }

  predicate BucketsIn(buckets: seq<Bucket>, groups: seq<MemGroup>) {
    forall i :: 0 <= i < |buckets| ==> buckets[i].group < |groups|
  }

  function ApplyBuckets(st: Pass, groups: seq<MemGroup>, buckets: seq<Bucket>, rest: seq<Row>, newPk: Option<nat>,
                        secs: Securities, link: Linker): Pass
    requires BucketsIn(buckets, groups)
  {
    if buckets == [] then st
    else
      var before := ApplyBuckets(st, groups, buckets[..|buckets| - 1], rest, newPk, secs, link);
      var b := buckets[|buckets| - 1];
      var e := ApplyExit(before.ledger, groups[b.group], b.rows, TargetIf(link.sameUnderlying(b.rows, rest), newPk),
                         TargetIf(link.delivers(b.rows, rest), newPk), secs);
      Pass(e.ledger, Settle(before.open, e))
  }

  function RouteRows(st: Pass, account: AccountId, rows: seq<Row>, secs: Securities, link: Linker): Pass {
    if rows == [] then st
    else
      RoutePartitions(st.open, rows);
      var routed := Route(st.open, rows);
      var newPk := if routed.rest == [] then None else Some(|st.ledger.groups| + 1);
      ApplyBuckets(OpenRest(st, account, routed.rest), st.open, routed.buckets, routed.rest, newPk, secs, link)
  }

  function ClusterStep(st: Pass, account: AccountId, cluster: seq<Txn>, secs: Securities, link: Linker): Pass {
    var (after, back) := ApplyIntents(st, Intents(cluster), secs);
    RouteRows(after, account, RowsOf(Filter(cluster, NoIntent())) + back, secs, link)
  }

  function ClusterSteps(st: Pass, account: AccountId, clusters: seq<seq<Txn>>, secs: Securities, link: Linker): Pass {
    if clusters == [] then st
    else ClusterStep(ClusterSteps(st, account, clusters[..|clusters| - 1], secs, link), account,
                     clusters[|clusters| - 1], secs, link)
  }

  // ------------------------------------------------------------------------------- a pass

  predicate IsDelivery(r: Row) {
    r.kind.ReceiveDeliver? && (IsOpeningVerb(r.action) || IsClosingVerb(r.action) || IsBare(r.action))
  }

  predicate InRange(at: Option<Time>, since: Option<nat>) {
    since.None? || (at.Some? && DayOf(at.value) >= since.value)
  }

  predicate IsCandidate(t: Txn, account: AccountId, since: Option<nat>) {
    && t.row.account == account && InRange(t.row.at, since)
    && t.group.None?
    && (t.row.orderId.Some? || IsSettlement(t.row) || IsDelivery(t.row))
  }

  function CandidateOf(account: AccountId, since: Option<nat>): Txn -> bool {
    (t: Txn) => IsCandidate(t, account, since)
  }

  function Candidates(s: Ledger, account: AccountId, since: Option<nat>): seq<Txn> {
    Filter(s.txns, CandidateOf(account, since))
  }

  // Everything a pass does after the lapse synthesis.
  function Pass1(s: Ledger, account: AccountId, since: Option<nat>, secs: Securities, link: Linker): Ledger {
    var st := ClusterSteps(Pass(s, LoadOpen(s, account)), account, ClustersOf(Candidates(s, account, since)), secs, link);
    Heal(st.ledger, account, secs)
  }
}
