/** The transactions read, and its paging in whole bands: a trade group's transactions, or one
    unattributed transaction. */
module Bands {
  import opened Rows
  import opened Ordering
  import opened Division
  import opened Routing

  datatype Item = Item(id: nat, txn: Txn)

  // ------------------------------------------------------------------------ newest first

  // Undated rows last; at one instant the later id first.
  function NewestFirst(item: Item): Key {
    (if item.txn.row.at.None? then 1 else 0 - item.txn.row.at.value, 0 - item.id)
  }

  function Matched(txns: seq<Txn>, matches: Txn -> bool): seq<Item> {
    if txns == [] then []
    else
      var front, t := Matched(txns[..|txns| - 1], matches), txns[|txns| - 1];
      if matches(t) then front + [Item(|txns|, t)] else front
  }

  function Ordered(txns: seq<Txn>, matches: Txn -> bool): seq<Item> {
    Sort(Matched(txns, matches), NewestFirst)
  }

  // items[offset : offset + limit]
  function Page<T>(items: seq<T>, offset: nat, limit: nat): seq<T> {
    if offset >= |items| then []
    else if offset + limit >= |items| then items[offset..]
    else items[offset..offset + limit]
  }

  method QueryTransactions(txns: seq<Txn>, matches: Txn -> bool, offset: nat, limit: nat) returns (page: seq<Item>, total: nat)
    ensures page == Page(Ordered(txns, matches), offset, limit) && total == |Matched(txns, matches)|
  {
    var matched: seq<Item> := [];
    for i := 0 to |txns|
      invariant matched == Matched(txns[..i], matches)
    {
      assert txns[..i + 1][..i] == txns[..i];
      if matches(txns[i]) {
        matched := matched + [Item(i + 1, txns[i])];
      }
    }
    assert txns[..|txns|] == txns;
    page, total := Page(Sort(matched, NewestFirst), offset, limit), |matched|;
  }

  // The transaction is the one stored under the id.
  ghost predicate StoredAs(txns: seq<Txn>, x: Item) {
    0 < x.id <= |txns| && x.txn == txns[x.id - 1]
  }

  // Listed before the other: later, or of the same time and stored later; undated ones last.
  ghost predicate Newer(x: Item, y: Item) {
    || (x.txn.row.at.Some? && y.txn.row.at.None?)
    || (x.txn.row.at.Some? && y.txn.row.at.Some? && x.txn.row.at.value > y.txn.row.at.value)
    || (x.txn.row.at == y.txn.row.at && x.id > y.id)
  }

  /** The read lists exactly the matching transactions under their ids, once each, newest first. */
  lemma NewestListedFirst(txns: seq<Txn>, matches: Txn -> bool)
    ensures var items := Ordered(txns, matches);
            && (forall x :: x in items <==> StoredAs(txns, x) && matches(x.txn))
            && (forall i, j :: 0 <= i < j < |items| ==> Newer(items[i], items[j]))
  {
    var items := Ordered(txns, matches);
    MatchedAre(txns, matches);
    SortSorted(Matched(txns, matches), NewestFirst);
    SortMultiset(Matched(txns, matches), NewestFirst);
    forall x
      ensures x in items <==> x in Matched(txns, matches)
    {
      SortMember(Matched(txns, matches), x, NewestFirst);
    }
    DistinctKeysOfMultiset(Matched(txns, matches), items, (x: Item) => x.id);
    forall i, j | 0 <= i < j < |items|
      ensures Newer(items[i], items[j])
    {
      assert KeyLe(NewestFirst(items[i]), NewestFirst(items[j]));
    }
  }

  lemma {:induction false} MatchedAre(txns: seq<Txn>, matches: Txn -> bool)
    ensures forall x :: x in Matched(txns, matches) <==> StoredAs(txns, x) && matches(x.txn)
    ensures forall i, j :: 0 <= i < j < |Matched(txns, matches)| ==> Matched(txns, matches)[i].id < Matched(txns, matches)[j].id
  {
    if txns != [] {
      MatchedAre(txns[..|txns| - 1], matches);
    }
  }

  // -------------------------------------------------------------------------------- bands

  datatype Band = OfGroup(group: nat) | Alone(id: nat)

  function BandOf(item: Item): Band {
    if item.txn.group.Some? then OfGroup(item.txn.group.value) else Alone(item.id)
  }

  function InBand(b: Band): Item -> bool {
    (item: Item) => BandOf(item) == b
  }

  function BandRows(items: seq<Item>, b: Band): seq<Item> {
    Filter(items, InBand(b))
  }

  /** Two listed transactions share a band when they are in one group, and otherwise only if
      they are the same. */
  lemma BandsAreGroups(txns: seq<Txn>, matches: Txn -> bool, x: Item, y: Item)
    requires x in Ordered(txns, matches) && y in Ordered(txns, matches)
    ensures BandOf(x) == BandOf(y) <==> x == y || (x.txn.group.Some? && x.txn.group == y.txn.group)
  {
    NewestListedFirst(txns, matches);
  }

  // Bands in the order their first row is seen.
  function BandsIn(items: seq<Item>): seq<Band> {
    if items == [] then []
    else
      var front, b := BandsIn(items[..|items| - 1]), BandOf(items[|items| - 1]);
      if b in front then front else front + [b]
  }

  function Laid(items: seq<Item>, bands: seq<Band>): seq<Item> {
    if bands == [] then [] else Laid(items, bands[..|bands| - 1]) + BandRows(items, bands[|bands| - 1])
  }

  datatype BandPage = BandPage(rows: seq<Item>, bandTotal: nat, rowTotal: nat)

  function BandPageOf(txns: seq<Txn>, matches: Txn -> bool, offset: nat, limit: nat): BandPage {
    var items := Ordered(txns, matches);
    BandPage(Laid(items, Page(BandsIn(items), offset, limit)), |BandsIn(items)|, |items|)
  }

  lemma BandRowsAppend(items: seq<Item>, item: Item, b: Band)
    ensures BandRows(items + [item], b) == BandRows(items, b) + (if BandOf(item) == b then [item] else [])
  {
    FilterAppend(items, item, InBand(b));
  }

  // The rows collected per band so far.
  ghost predicate Folded(items: seq<Item>, bands: map<Band, seq<Item>>, b: Band) {
    (b in bands <==> b in BandsIn(items)) && BandRows(items, b) == if b in bands then bands[b] else []
  }

  lemma FoldStep(items: seq<Item>, item: Item, bands: map<Band, seq<Item>>, b: Band)
    requires Folded(items, bands, b) && Folded(items, bands, BandOf(item))
    ensures var mine := BandOf(item);
            Folded(items + [item], bands[mine := (if mine in bands then bands[mine] else []) + [item]], b)
  {
    BandRowsAppend(items, item, b);
    assert (items + [item])[..|items|] == items;
  }

  method FoldBands(items: seq<Item>) returns (keys: seq<Band>, bands: map<Band, seq<Item>>)
    ensures keys == BandsIn(items) && forall b :: Folded(items, bands, b)
  {
    hide Folded, BandRows;
    keys, bands := [], map[];
    NothingYet();
    for i := 0 to |items|
      invariant keys == BandsIn(items[..i]) && forall b :: Folded(items[..i], bands, b)
    {
      assert items[..i + 1] == items[..i] + [items[i]];
      assert (items[..i] + [items[i]])[..i] == items[..i];
      ghost var seen, was := items[..i] + [items[i]], bands;
      var b := BandOf(items[i]);
      FoldedKey(items[..i], bands, b);
      if b !in bands {
        keys := keys + [b];
      }
      bands := bands[b := (if b in bands then bands[b] else []) + [items[i]]];
      forall c
        ensures Folded(seen, bands, c)
      {
        FoldStep(items[..i], items[i], was, c);
      }
    }
    assert items[..|items|] == items;
  }

  lemma FoldedKey(items: seq<Item>, bands: map<Band, seq<Item>>, b: Band)
    requires Folded(items, bands, b)
    ensures b in bands <==> b in BandsIn(items)
    ensures b in bands ==> bands[b] == BandRows(items, b)
  {
  }

  method LayOut(ghost items: seq<Item>, bands: map<Band, seq<Item>>, chosen: seq<Band>) returns (rows: seq<Item>)
    requires forall b :: Folded(items, bands, b)
    requires forall i :: 0 <= i < |chosen| ==> chosen[i] in BandsIn(items)
    ensures rows == Laid(items, chosen)
  {
    hide Folded, BandRows;
    rows := [];
    for i := 0 to |chosen|
      invariant rows == Laid(items, chosen[..i])
    {
      assert chosen[..i + 1][..i] == chosen[..i];
      FoldedKey(items, bands, chosen[i]);
      rows := rows + bands[chosen[i]];
    }
    assert chosen[..|chosen|] == chosen;
  }

  /** The band read: everything in order, folded into bands, one page of bands laid out. */
  method QueryTransactionBands(txns: seq<Txn>, matches: Txn -> bool, offset: nat, limit: nat) returns (page: BandPage)
    ensures page == BandPageOf(txns, matches, offset, limit)
  {
    hide Ordered, Matched, Folded, BandsIn, Laid, Page;
    var items, total := QueryTransactions(txns, matches, 0, |txns| + 1);
    EverythingFits(txns, matches);
    var keys, bands := FoldBands(items);
    PageOf(keys, offset, limit);
    var rows := LayOut(items, bands, Page(keys, offset, limit));
    page := BandPage(rows, |keys|, total);
  }

  lemma NothingYet()
    ensures BandsIn([]) == [] && forall b :: Folded([], map[], b)
  {
  }

  lemma PageOf<T>(items: seq<T>, offset: nat, limit: nat)
    ensures forall i :: 0 <= i < |Page(items, offset, limit)| ==> Page(items, offset, limit)[i] in items
  {
  }

  lemma {:induction false} MatchedFits(txns: seq<Txn>, matches: Txn -> bool)
    ensures |Matched(txns, matches)| <= |txns|
  {
    if txns != [] {
      MatchedFits(txns[..|txns| - 1], matches);
    }
  }

  lemma EverythingFits(txns: seq<Txn>, matches: Txn -> bool)
    ensures |Ordered(txns, matches)| == |Matched(txns, matches)|
    ensures Page(Ordered(txns, matches), 0, |txns| + 1) == Ordered(txns, matches)
  {
    MatchedFits(txns, matches);
    SortMultiset(Matched(txns, matches), NewestFirst);
    var items := Ordered(txns, matches);
    assert items[0..] == items;
  }

  // ---------------------------------------------------------------- every row, exactly once

  lemma {:induction false} BandsCover(items: seq<Item>)
    ensures NoRepeats(BandsIn(items))
    ensures forall x :: x in items ==> BandOf(x) in BandsIn(items)
    ensures forall b :: b in BandsIn(items) ==> BandRows(items, b) != []
  {
    if items != [] {
      var front, x := items[..|items| - 1], items[|items| - 1];
      BandsCover(front);
      assert items == front + [x];
      forall b
        ensures BandRows(items, b) == BandRows(front, b) + (if BandOf(x) == b then [x] else [])
      {
        BandRowsAppend(front, x, b);
      }
    }
  }

  lemma {:induction false} NothingElsewhere(items: seq<Item>, bands: seq<Band>, x: Item)
    requires BandOf(x) !in bands
    ensures Laid(items + [x], bands) == Laid(items, bands)
  {
    if bands != [] {
      NothingElsewhere(items, bands[..|bands| - 1], x);
      BandRowsAppend(items, x, bands[|bands| - 1]);
      assert bands[|bands| - 1] in bands;
    }
  }

  // Each band's rows once: laying out bands without repeats places a row once.
  lemma {:induction false} LaidAppend(items: seq<Item>, bands: seq<Band>, x: Item)
    requires NoRepeats(bands) && BandOf(x) in bands
    ensures multiset(Laid(items + [x], bands)) == multiset(Laid(items, bands)) + multiset{x}
  {
    var n := |bands| - 1;
    BandRowsAppend(items, x, bands[n]);
    assert bands == bands[..n] + [bands[n]];
    if BandOf(x) == bands[n] {
      NotBefore(bands);
      NothingElsewhere(items, bands[..n], x);
      assert Laid(items + [x], bands) == Laid(items, bands) + [x];
    } else {
      LaidAppend(items, bands[..n], x);
    }
  }

  lemma NotBefore<T>(s: seq<T>)
    requires s != [] && NoRepeats(s)
    ensures s[|s| - 1] !in s[..|s| - 1]
  {
  }

  lemma {:induction false} AllLaidStep(front: seq<Item>, x: Item)
    requires multiset(Laid(front, BandsIn(front))) == multiset(front)
    ensures multiset(Laid(front + [x], BandsIn(front + [x]))) == multiset(front) + multiset{x}
  {
    hide Laid, BandRows;
    BandsCover(front);
    if BandOf(x) in BandsIn(front) {
      assert (front + [x])[..|front|] == front;
      LaidAppend(front, BandsIn(front), x);
    } else {
      NothingElsewhere(front, BandsIn(front), x);
      NewBand(front, x);
    }
  }

  /** Laying out all bands lists every row exactly once. */
  lemma {:induction false} AllLaid(items: seq<Item>)
    ensures multiset(Laid(items, BandsIn(items))) == multiset(items)
  {
    hide Laid, BandRows, BandsIn, BandOf;
    if items == [] {
      NothingLaid();
    } else {
      var front, x := items[..|items| - 1], items[|items| - 1];
      AllLaid(front);
      AllLaidStep(front, x);
      assert items == front + [x];
    }
  }

  lemma NothingLaid()
    ensures Laid([], BandsIn([])) == []
  {
  }

  lemma NewBand(front: seq<Item>, x: Item)
    requires BandOf(x) !in BandsIn(front)
    ensures Laid(front + [x], BandsIn(front + [x])) == Laid(front + [x], BandsIn(front)) + [x]
  {
    BandsCover(front);
    assert (front + [x])[..|front|] == front;
    assert BandsIn(front + [x]) == BandsIn(front) + [BandOf(x)];
    assert (BandsIn(front) + [BandOf(x)])[..|BandsIn(front)|] == BandsIn(front);
    BandRowsAppend(front, x, BandOf(x));
    NoneSeen(front, BandOf(x));
  }

  lemma NoneSeen(items: seq<Item>, b: Band)
    requires b !in BandsIn(items)
    ensures BandRows(items, b) == []
  {
    BandsCover(items);
    if BandRows(items, b) != [] {
      var x := BandRows(items, b)[0];
      FilterMember(items, x, InBand(b));
    }
  }

  // The first k pages, one after the other.
  function Pages(txns: seq<Txn>, matches: Txn -> bool, limit: nat, k: nat): seq<Item> {
    if k == 0 then [] else Pages(txns, matches, limit, k - 1) + BandPageOf(txns, matches, (k - 1) * limit, limit).rows
  }

  lemma {:induction false} LaidConcat(items: seq<Item>, a: seq<Band>, b: seq<Band>)
    ensures Laid(items, a + b) == Laid(items, a) + Laid(items, b)
  {
    if b == [] {
      assert a + b == a;
    } else {
      hide BandRows;
      LaidConcat(items, a, b[..|b| - 1]);
      assert (a + b)[..|a + b| - 1] == a + b[..|b| - 1];
    }
  }

  lemma {:induction false} PagesLaid(txns: seq<Txn>, matches: Txn -> bool, limit: nat, k: nat)
    ensures Pages(txns, matches, limit, k) == Laid(Ordered(txns, matches), Page(BandsIn(Ordered(txns, matches)), 0, k * limit))
  {
    hide Ordered, BandsIn, Laid;
    var items := Ordered(txns, matches);
    var bands := BandsIn(items);
    if k == 0 {
      LaidNone(items);
      assert Page(bands, 0, 0) == [];
    } else {
      PagesLaid(txns, matches, limit, k - 1);
      assert k * limit == (k - 1) * limit + limit;
      PagesJoin(bands, (k - 1) * limit, limit);
      LaidConcat(items, Page(bands, 0, (k - 1) * limit), Page(bands, (k - 1) * limit, limit));
    }
  }

  lemma LaidNone(items: seq<Item>)
    ensures Laid(items, []) == []
  {
  }

  lemma PagesJoin<T>(s: seq<T>, offset: nat, limit: nat)
    ensures Page(s, 0, offset) + Page(s, offset, limit) == Page(s, 0, offset + limit)
  {
  }

  /** Reading pages until the band total lists every matching transaction exactly once. */
  lemma PagesPartition(txns: seq<Txn>, matches: Txn -> bool, limit: nat, k: nat)
    requires k * limit >= BandPageOf(txns, matches, 0, limit).bandTotal
    ensures multiset(Pages(txns, matches, limit, k)) == multiset(Matched(txns, matches))
  {
    hide BandsIn, Laid;
    PagesLaid(txns, matches, limit, k);
    var items := Ordered(txns, matches);
    var bands := BandsIn(items);
    assert Page(bands, 0, k * limit) == bands by {
      assert bands[0..] == bands;
    }
    AllLaid(items);
    SortMultiset(Matched(txns, matches), NewestFirst);
  }

  // -------------------------------------------------------------- whole bands, newest first

  lemma {:induction false} FilterSorted(items: seq<Item>, p: Item -> bool)
    requires SortedBy(items, NewestFirst)
    ensures SortedBy(Filter(items, p), NewestFirst)
  {
    SortFixed(items, NewestFirst);
    FilterSort(items, NewestFirst, p);
    SortSorted(Filter(items, p), NewestFirst);
  }

  /** A band's rows are newest first, and all of them: exactly the matching rows of the band. */
  lemma {:induction false} BandComplete(txns: seq<Txn>, matches: Txn -> bool, b: Band)
    ensures var rows := BandRows(Ordered(txns, matches), b);
            SortedBy(rows, NewestFirst) && multiset(rows) == multiset(BandRows(Matched(txns, matches), b))
  {
    SortSorted(Matched(txns, matches), NewestFirst);
    FilterSorted(Ordered(txns, matches), InBand(b));
    SortMultiset(Matched(txns, matches), NewestFirst);
    FilterMultiset(Ordered(txns, matches), Matched(txns, matches), InBand(b));
  }

  // The band at place i among all bands occupies one unbroken stretch of one page.
  function PageOfBand(i: nat, limit: nat): nat
    requires limit > 0
  {
    i / limit
  }

  /** No band is split: the page that lists a band lists its rows in one piece, and no other page
      lists any of them. */
  lemma BandInOnePage(txns: seq<Txn>, matches: Txn -> bool, limit: nat, i: nat, k: nat)
    requires limit > 0 && i < |BandsIn(Ordered(txns, matches))|
    ensures var items := Ordered(txns, matches);
            var b, rows := BandsIn(items)[i], BandPageOf(txns, matches, k * limit, limit).rows;
            if k == PageOfBand(i, limit)
            then exists before, after :: rows == before + BandRows(items, b) + after && NoneOf(before, b) && NoneOf(after, b)
            else NoneOf(rows, b)
  {
    hide Ordered, Laid, BandRows;
    var items := Ordered(txns, matches);
    var bands := BandsIn(items);
    BandsCover(items);
    var page := Page(bands, k * limit, limit);
    var at := i - k * limit;
    PageBounds(i, k, limit);
    if k == i / limit {
      assert page[at] == bands[i];
      assert page == page[..at] + ([bands[i]] + page[at + 1..]);
      LaidConcat(items, page[..at], [bands[i]] + page[at + 1..]);
      LaidConcat(items, [bands[i]], page[at + 1..]);
      LaidOne(items, bands[i]);
      Elsewhere(bands, k * limit, limit, i);
      OtherBands(items, page[..at], bands[i]);
      OtherBands(items, page[at + 1..], bands[i]);
      assert Laid(items, page) == Laid(items, page[..at]) + BandRows(items, bands[i]) + Laid(items, page[at + 1..]);
    } else {
      Elsewhere(bands, k * limit, limit, i);
      OtherBands(items, page, bands[i]);
    }
  }

  ghost predicate NoneOf(rows: seq<Item>, b: Band) {
    forall x :: x in rows ==> BandOf(x) != b
  }

  lemma PageBounds(i: nat, k: nat, limit: nat)
    requires limit > 0
    ensures k == i / limit <==> k * limit <= i < k * limit + limit
  {
    assert i == limit * (i / limit) + i % limit;
    if k * limit <= i < k * limit + limit {
      Remainder(i, limit, k, i - k * limit);
    }
  }

  lemma LaidOne(items: seq<Item>, b: Band)
    ensures Laid(items, [b]) == BandRows(items, b)
  {
    assert [b][..0] == [] && Laid(items, []) == [];
  }

  lemma Elsewhere(bands: seq<Band>, offset: nat, limit: nat, i: nat)
    requires NoRepeats(bands) && i < |bands|
    ensures var page := Page(bands, offset, limit);
            && (offset <= i < offset + limit ==>
                  i - offset < |page| && page[i - offset] == bands[i]
                  && bands[i] !in page[..i - offset] && bands[i] !in page[i - offset + 1..])
            && (!(offset <= i < offset + limit) ==> bands[i] !in page)
  {
  }

  lemma {:induction false} OtherBands(items: seq<Item>, bands: seq<Band>, b: Band)
    requires b !in bands
    ensures NoneOf(Laid(items, bands), b)
  {
    if bands != [] {
      var other := bands[|bands| - 1];
      assert other in bands;
      OtherBands(items, bands[..|bands| - 1], b);
      forall x | x in BandRows(items, other)
        ensures BandOf(x) != b
      {
        FilterMember(items, x, InBand(other));
      }
    }
  }

  /** Bands follow the order of their first rows. */
  lemma {:induction false} BandsFollowFirstRows(items: seq<Item>, i: nat, j: nat)
    requires SortedBy(items, NewestFirst) && i < j < |BandsIn(items)|
    ensures BandRows(items, BandsIn(items)[i]) != [] && BandRows(items, BandsIn(items)[j]) != []
    ensures KeyLe(NewestFirst(BandRows(items, BandsIn(items)[i])[0]), NewestFirst(BandRows(items, BandsIn(items)[j])[0]))
  {
    BandsCover(items);
    var front, x := items[..|items| - 1], items[|items| - 1];
    assert items == front + [x];
    BandsCover(front);
    var bands := BandsIn(items);
    BandRowsAppend(front, x, bands[i]);
    BandRowsAppend(front, x, bands[j]);
    if j < |BandsIn(front)| {
      BandsFollowFirstRows(front, i, j);
      assert bands[i] in BandsIn(front) && bands[j] in BandsIn(front);
    } else {
      assert bands[i] in BandsIn(front) && bands[j] == BandOf(x);
      NoneSeen(front, bands[j]);
      var first := BandRows(front, bands[i])[0];
      FilterMember(front, first, InBand(bands[i]));
      assert first in items;
    }
  }
}
