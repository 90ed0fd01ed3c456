/** Stable sorting, the way `sorted(rows, key=...)` orders rows before every walk. */
module Ordering {

  type Key = (int, int)

  predicate KeyLe(a: Key, b: Key) {
    a.0 < b.0 || (a.0 == b.0 && a.1 <= b.1)
  }

  ghost predicate SortedBy<T>(s: seq<T>, key: T -> Key) {
    forall i, j :: 0 <= i < j < |s| ==> KeyLe(key(s[i]), key(s[j]))
  }

  // Every element of s may be followed by x.
  ghost predicate AllBefore<T>(s: seq<T>, x: T, key: T -> Key) {
    forall y :: y in s ==> KeyLe(key(y), key(x))
  }

  // Puts x behind everything that does not have a larger key.
  function Insert<T>(s: seq<T>, x: T, key: T -> Key): seq<T> {
    if s == [] || KeyLe(key(s[|s| - 1]), key(x)) then s + [x]
    else Insert(s[..|s| - 1], x, key) + [s[|s| - 1]]
  }

  function Sort<T>(s: seq<T>, key: T -> Key): seq<T> {
    if s == [] then [] else Insert(Sort(s[..|s| - 1], key), s[|s| - 1], key)
  }

  function Filter<T>(s: seq<T>, p: T -> bool): seq<T> {
    if s == [] then []
    else if p(s[|s| - 1]) then Filter(s[..|s| - 1], p) + [s[|s| - 1]]
    else Filter(s[..|s| - 1], p)
  }

  lemma {:induction false} InsertMultiset<T>(s: seq<T>, x: T, key: T -> Key)
    ensures multiset(Insert(s, x, key)) == multiset(s) + multiset{x}
  {
    if s == [] || KeyLe(key(s[|s| - 1]), key(x)) {
    } else {
      InsertMultiset(s[..|s| - 1], x, key);
      assert s == s[..|s| - 1] + [s[|s| - 1]];
    }
  }

  lemma {:induction false} SortMultiset<T>(s: seq<T>, key: T -> Key)
    ensures multiset(Sort(s, key)) == multiset(s)
    ensures |Sort(s, key)| == |s|
  {
    if s != [] {
      SortMultiset(s[..|s| - 1], key);
      InsertMultiset(Sort(s[..|s| - 1], key), s[|s| - 1], key);
      assert s == s[..|s| - 1] + [s[|s| - 1]];
    }
    assert |Sort(s, key)| == |multiset(Sort(s, key))| == |multiset(s)| == |s|;
  }

  lemma SortMember<T>(s: seq<T>, x: T, key: T -> Key)
    ensures x in Sort(s, key) <==> x in s
  {
    SortMultiset(s, key);
    assert x in Sort(s, key) <==> x in multiset(Sort(s, key));
    assert x in s <==> x in multiset(s);
  }

  lemma {:induction false} InsertSorted<T>(s: seq<T>, x: T, key: T -> Key)
    requires SortedBy(s, key)
    ensures SortedBy(Insert(s, x, key), key)
  {
    if s == [] || KeyLe(key(s[|s| - 1]), key(x)) {
    } else {
      var front, last := s[..|s| - 1], s[|s| - 1];
      InsertSorted(front, x, key);
      InsertMultiset(front, x, key);
      forall y | y in Insert(front, x, key)
        ensures KeyLe(key(y), key(last))
      {
        assert y in multiset(Insert(front, x, key));
        assert y == x || y in front;
      }
    }
  }

  lemma {:induction false} SortSorted<T>(s: seq<T>, key: T -> Key)
    ensures SortedBy(Sort(s, key), key)
  {
    if s != [] {
      SortSorted(s[..|s| - 1], key);
      InsertSorted(Sort(s[..|s| - 1], key), s[|s| - 1], key);
    }
  }

  // A row no earlier than everything else sorts to the end.
  lemma SortAppendLast<T>(s: seq<T>, x: T, key: T -> Key)
    requires AllBefore(s, x, key)
    ensures Sort(s + [x], key) == Sort(s, key) + [x]
  {
    assert (s + [x])[..|s|] == s;
    var t := Sort(s, key);
    if t != [] {
      SortMember(s, t[|t| - 1], key);
    }
    assert Sort(s + [x], key) == Insert(t, x, key);
  }

  // Sorting leaves an ordered sequence alone.
  lemma {:induction false} SortFixed<T>(s: seq<T>, key: T -> Key)
    requires SortedBy(s, key)
    ensures Sort(s, key) == s
  {
    if s != [] {
      SortFixed(s[..|s| - 1], key);
      assert s == s[..|s| - 1] + [s[|s| - 1]];
    }
  }

  lemma FilterAppend<T>(s: seq<T>, x: T, p: T -> bool)
    ensures Filter(s + [x], p) == Filter(s, p) + (if p(x) then [x] else [])
  {
    assert (s + [x])[..|s|] == s;
  }

  lemma {:induction false} FilterConcat<T>(s: seq<T>, t: seq<T>, p: T -> bool)
    ensures Filter(s + t, p) == Filter(s, p) + Filter(t, p)
  {
    if t == [] {
      assert s + t == s;
    } else {
      var front, last := t[..|t| - 1], t[|t| - 1];
      FilterConcat(s, front, p);
      assert s + t == (s + front) + [last];
      FilterAppend(s + front, last, p);
    }
  }

  lemma {:induction false} FilterMember<T>(s: seq<T>, x: T, p: T -> bool)
    ensures x in Filter(s, p) <==> x in s && p(x)
  {
    if s != [] {
      FilterMember(s[..|s| - 1], x, p);
      assert s == s[..|s| - 1] + [s[|s| - 1]];
    }
  }

  lemma {:induction false} AllSelected<T>(s: seq<T>, p: T -> bool)
    requires forall i :: 0 <= i < |s| ==> p(s[i])
    ensures Filter(s, p) == s
  {
    if s != [] {
      AllSelected(s[..|s| - 1], p);
      assert s == s[..|s| - 1] + [s[|s| - 1]];
    }
  }

  lemma {:induction false} FiltersCommute<T>(s: seq<T>, p: T -> bool, q: T -> bool)
    ensures Filter(Filter(s, p), q) == Filter(Filter(s, q), p)
  {
    if s != [] {
      var front, x := s[..|s| - 1], s[|s| - 1];
      FiltersCommute(front, p, q);
      FilterAppend(Filter(front, p), x, q);
      FilterAppend(Filter(front, q), x, p);
    }
  }

  lemma {:induction false} NothingSelected<T>(s: seq<T>, p: T -> bool)
    requires forall i :: 0 <= i < |s| ==> !p(s[i])
    ensures Filter(s, p) == []
  {
    if s != [] {
      NothingSelected(s[..|s| - 1], p);
    }
  }

  // Taking one occurrence of x out of the middle.
  lemma RemoveMiddle<T>(t: seq<T>, j: nat)
    requires j < |t|
    ensures multiset(t[..j] + t[j + 1..]) == multiset(t) - multiset{t[j]}
  {
    assert t == t[..j] + [t[j]] + t[j + 1..];
    assert multiset(t) == multiset(t[..j]) + multiset{t[j]} + multiset(t[j + 1..]);
  }

  // The last element of s sits somewhere in t, and the two remainders still match.
  lemma FindLast<T>(s: seq<T>, t: seq<T>) returns (j: nat)
    requires s != [] && multiset(s) == multiset(t)
    ensures |s| == |t| && j < |t| && t[j] == s[|s| - 1]
    ensures multiset(s[..|s| - 1]) == multiset(t[..j] + t[j + 1..])
  {
    assert |s| == |multiset(s)| == |multiset(t)| == |t|;
    assert s[|s| - 1] in multiset(t);
    j :| 0 <= j < |t| && t[j] == s[|s| - 1];
    RemoveMiddle(t, j);
    assert s == s[..|s| - 1] + [s[|s| - 1]];
  }

  lemma {:induction false} FilterMultiset<T>(s: seq<T>, t: seq<T>, p: T -> bool)
    requires multiset(s) == multiset(t)
    ensures multiset(Filter(s, p)) == multiset(Filter(t, p))
  {
    if s != [] {
      var j := FindLast(s, t);
      FilterMultiset(s[..|s| - 1], t[..j] + t[j + 1..], p);
      assert t == t[..j] + [t[j]] + t[j + 1..];
      FilterAround(t[..j], t[j], t[j + 1..], p);
    } else {
      assert |t| == |multiset(t)| == 0;
    }
  }

  lemma FilterAround<T>(a: seq<T>, x: T, b: seq<T>, p: T -> bool)
    ensures multiset(Filter(a + [x] + b, p)) == multiset(Filter(a + b, p)) + (if p(x) then multiset{x} else multiset{})
  {
    FilterConcat(a + [x], b, p);
    FilterAppend(a, x, p);
    FilterConcat(a, b, p);
  }

  lemma LastIsGreatest<T>(s: seq<T>, i: nat, key: T -> Key)
    requires SortedBy(s, key) && i < |s|
    ensures KeyLe(key(s[i]), key(s[|s| - 1]))
  {
  }

  // What goes behind all of an ordered sequence goes behind what is selected from it.
  lemma InsertBehindSelected<T>(s: seq<T>, x: T, key: T -> Key, p: T -> bool)
    requires SortedBy(s, key) && (s == [] || KeyLe(key(s[|s| - 1]), key(x)))
    ensures Insert(Filter(s, p), x, key) == Filter(s, p) + [x]
  {
    hide Filter;
    var f := Filter(s, p);
    if f != [] {
      FilterMember(s, f[|f| - 1], p);
      var i :| 0 <= i < |s| && s[i] == f[|f| - 1];
      LastIsGreatest(s, i, key);
    }
  }

  lemma FilterFront<T>(s: seq<T>, p: T -> bool)
    requires s != []
    ensures Filter(s, p) == if p(s[|s| - 1]) then Filter(s[..|s| - 1], p) + [s[|s| - 1]] else Filter(s[..|s| - 1], p)
  {
  }

  lemma InsertFront<T>(s: seq<T>, last: T, x: T, key: T -> Key)
    requires !KeyLe(key(last), key(x))
    ensures Insert(s + [last], x, key) == Insert(s, x, key) + [last]
  {
    assert (s + [last])[..|s|] == s;
  }

  // Inserting and selecting commute on ordered sequences.
  lemma {:induction false} FilterInsert<T>(s: seq<T>, x: T, key: T -> Key, p: T -> bool)
    requires SortedBy(s, key)
    ensures Filter(Insert(s, x, key), p) == if p(x) then Insert(Filter(s, p), x, key) else Filter(s, p)
  {
    hide Filter;
    if s == [] || KeyLe(key(s[|s| - 1]), key(x)) {
      FilterFront(s + [x], p);
      assert (s + [x])[..|s|] == s;
      InsertBehindSelected(s, x, key, p);
    } else {
      var front, last := s[..|s| - 1], s[|s| - 1];
      FilterInsert(front, x, key, p);
      FilterFront(Insert(front, x, key) + [last], p);
      assert (Insert(front, x, key) + [last])[..|Insert(front, x, key)|] == Insert(front, x, key);
      FilterFront(s, p);
      InsertFront(Filter(front, p), last, x, key);
    }
  }

  lemma {:induction false} FilterSort<T>(s: seq<T>, key: T -> Key, p: T -> bool)
    ensures Filter(Sort(s, key), p) == Sort(Filter(s, p), key)
  {
    if s != [] {
      var front, last := s[..|s| - 1], s[|s| - 1];
      FilterSort(front, key, p);
      SortSorted(front, key);
      FilterInsert(Sort(front, key), last, key, p);
      if p(last) {
        assert Filter(s, p) == Filter(front, p) + [last];
        assert Filter(s, p)[..|Filter(s, p)| - 1] == Filter(front, p);
      }
    }
  }

  ghost predicate NoRepeats<T>(s: seq<T>) {
    forall i, j :: 0 <= i < j < |s| ==> s[i] != s[j]
  }

  ghost predicate DistinctKeys<T, K>(s: seq<T>, key: T -> K) {
    forall i, j :: 0 <= i < j < |s| ==> key(s[i]) != key(s[j])
  }

  lemma LastsAgree<T>(s: seq<T>, t: seq<T>, key: T -> Key)
    requires s != [] && multiset(s) == multiset(t)
    requires SortedBy(s, key) && SortedBy(t, key) && DistinctKeys(s, key)
    ensures |s| == |t| && s[|s| - 1] == t[|t| - 1]
    ensures multiset(s[..|s| - 1]) == multiset(t[..|t| - 1])
  {
    var j := FindLast(s, t);
    var i := FindLast(t, s);
    LastIsGreatest(s, i, key);
    LastIsGreatest(t, j, key);
    assert s[..i] + s[i + 1..] == s[..|s| - 1];
  }

  // Two ordered arrangements of the same elements agree when no two keys tie.
  lemma {:induction false} SortedUnique<T>(s: seq<T>, t: seq<T>, key: T -> Key)
    requires multiset(s) == multiset(t)
    requires SortedBy(s, key) && SortedBy(t, key) && DistinctKeys(s, key)
    ensures s == t
  {
    if s == [] {
      assert |t| == |multiset(t)| == 0;
    } else {
      LastsAgree(s, t, key);
      var n := |s| - 1;
      SortedUnique(s[..n], t[..n], key);
      assert s == s[..n] + [s[n]] && t == t[..n] + [t[n]];
    }
  }

  lemma DistinctKeysOfMultiset<T, K>(s: seq<T>, t: seq<T>, key: T -> K)
    requires multiset(s) == multiset(t) && DistinctKeys(s, key)
    ensures DistinctKeys(t, key)
  {
    forall i, j | 0 <= i < j < |t|
      ensures key(t[i]) != key(t[j])
    {
      if key(t[i]) == key(t[j]) {
        assert t[i] in multiset(s) && t[j] in multiset(s);
        var a :| 0 <= a < |s| && s[a] == t[i];
        var b :| 0 <= b < |s| && s[b] == t[j];
        assert a == b;
        TwiceInMultiset(t, i, j);
        OnceInMultiset(s, a, key);
      }
    }
  }

  lemma TwiceInMultiset<T>(t: seq<T>, i: nat, j: nat)
    requires i < j < |t| && t[i] == t[j]
    ensures multiset(t)[t[i]] >= 2
  {
    assert t == t[..j] + [t[j]] + t[j + 1..];
    assert t[i] in t[..j];
    assert multiset(t) == multiset(t[..j]) + multiset{t[j]} + multiset(t[j + 1..]);
    assert t[i] in multiset(t[..j]);
  }

  lemma OnceInMultiset<T, K>(s: seq<T>, a: nat, key: T -> K)
    requires a < |s| && DistinctKeys(s, key)
    ensures multiset(s)[s[a]] == 1
  {
    assert s == s[..a] + [s[a]] + s[a + 1..];
    assert multiset(s) == multiset(s[..a]) + multiset{s[a]} + multiset(s[a + 1..]);
    assert s[a] !in s[..a] && s[a] !in s[a + 1..];
    assert multiset(s[..a])[s[a]] == 0 && multiset(s[a + 1..])[s[a]] == 0;
  }

  // The order rows arrive in is forgotten when no two of their keys tie.
  lemma SortOrderIndependent<T>(s: seq<T>, t: seq<T>, key: T -> Key)
    requires multiset(s) == multiset(t) && DistinctKeys(s, key)
    ensures Sort(s, key) == Sort(t, key)
  {
    SortMultiset(s, key);
    SortMultiset(t, key);
    SortSorted(s, key);
    SortSorted(t, key);
    DistinctKeysOfMultiset(s, Sort(s, key), key);
    SortedUnique(Sort(s, key), Sort(t, key), key);
  }

  // The elements of a set of numbers, least first.
  function Ascending(s: set<nat>): (r: seq<nat>)
    ensures forall x: nat :: x in r <==> x in s
    ensures forall i, j :: 0 <= i < j < |r| ==> r[i] < r[j]
  {
    if s == {} then []
    else
      LeastExists(s);
      var least: nat :| least in s && forall x :: x in s ==> least <= x;
      var rest := Ascending(s - {least});
      LeastFirst(s, least, rest);
      [least] + rest
  }

  lemma LeastFirst(s: set<nat>, least: nat, rest: seq<nat>)
    requires least in s && forall x :: x in s ==> least <= x
    requires forall x: nat :: x in rest <==> x in s - {least}
    ensures forall x: nat :: x in [least] + rest <==> x in s
    ensures forall i :: 0 <= i < |rest| ==> least < rest[i]
  {
    forall i | 0 <= i < |rest|
      ensures least < rest[i]
    {
      assert rest[i] in rest;
    }
    forall x: nat
      ensures x in [least] + rest <==> x in s
    {
      assert x in rest <==> x in s - {least};
    }
  }

  lemma {:induction false} LeastExists(s: set<nat>)
    requires s != {}
    ensures exists x: nat :: x in s && forall y :: y in s ==> x <= y
  {
    var x :| x in s;
    if y :| y in s && y < x {
      LeastBelow(s, x);
    }
  }

  lemma {:induction false} LeastBelow(s: set<nat>, bound: nat)
    requires exists y: nat :: y in s && y <= bound
    ensures exists x: nat :: x in s && forall y :: y in s ==> x <= y
    decreases bound
  {
    var y: nat :| y in s && y <= bound;
    if z: nat :| z in s && z < y {
      assert z in s && z <= bound - 1;
      LeastBelow(s, bound - 1);
    }
  }
}
