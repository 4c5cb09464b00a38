/** The JavaScript collection behaviour the store relies on: the insertion
    order of a `Map`, `Array.prototype.filter`, the stable
    `Array.prototype.sort` with a "newest first" comparator, and
    `Array.prototype.slice(0, end)`. */
module Sequences {

  /** `s` lists each element at most once. */
  ghost predicate Distinct<K>(s: seq<K>) {
    forall i, j :: 0 <= i < j < |s| ==> s[i] != s[j]
  }

  /** `order` is the insertion order of the keys of `m`: every key exactly once. */
  ghost predicate IsKeyOrder<K(!new), V>(order: seq<K>, m: map<K, V>) {
    Distinct(order) && forall k :: k in m <==> k in order
  }

  /** A key not yet in the map goes at the end of its insertion order. */
  lemma KeyOrderAppend<K(!new), V>(order: seq<K>, m: map<K, V>, k: K, v: V)
    requires IsKeyOrder(order, m) && k !in m
    ensures IsKeyOrder(order + [k], m[k := v])
  {
  }

  /** Setting a key keeps its place in the insertion order; a new key goes last. */
  lemma KeyOrderPut<K(!new), V>(order: seq<K>, m: map<K, V>, k: K, v: V)
    requires IsKeyOrder(order, m)
    ensures IsKeyOrder(if k in m then order else order + [k], m[k := v])
  {
  }

  /** Deleting a key drops it from the insertion order. */
  lemma KeyOrderRemove<K(!new), V>(order: seq<K>, m: map<K, V>, k: K)
    requires IsKeyOrder(order, m)
    ensures IsKeyOrder(RemoveKey(order, k), m - {k})
  {
  }

  /** A key order lists as many keys as the map holds. */
  lemma KeyOrderLength<K(!new), V>(order: seq<K>, m: map<K, V>)
    requires IsKeyOrder(order, m)
    ensures |order| == |m|
  {
    // |m| == |m.Keys| and the distinct order has exactly those keys.
    assert m.Keys == set k | k in order;
    DistinctCard(order);
  }

  /** A sequence without repeats has as many elements as its set. */
  lemma {:induction false} DistinctCard<K>(s: seq<K>)
    requires Distinct(s)
    ensures |set k | k in s| == |s|
    decreases |s|
  {
    if s != [] {
      DistinctCard(s[1..]);
      assert (set k | k in s) == (set k | k in s[1..]) + {s[0]};
      assert s[0] !in s[1..];
    }
  }

  /** Without repeats, every element occurs at most once. */
  lemma {:induction false} DistinctCounts<K>(s: seq<K>)
    requires Distinct(s)
    ensures forall x :: multiset(s)[x] <= 1
    decreases |s|
  {
    if s != [] {
      DistinctCounts(s[1..]);
      assert s == [s[0]] + s[1..];
      assert s[0] !in s[1..];
    }
  }

  /** An element that occurs at most once is never repeated. */
  lemma CountsDistinct<K>(s: seq<K>)
    requires forall x :: multiset(s)[x] <= 1
    ensures Distinct(s)
  {
    forall i, j | 0 <= i < j < |s|
      ensures s[i] != s[j]
    {
      var front, back := s[..j], s[j..];
      assert s == front + back;
      assert s[i] in front && s[j] in back;
      assert multiset(s)[s[j]] == multiset(front)[s[j]] + multiset(back)[s[j]];
    }
  }

  /** A permutation of a sequence without repeats has none either. */
  lemma DistinctPermutation<K>(s: seq<K>, t: seq<K>)
    requires Distinct(s) && multiset(s) == multiset(t)
    ensures Distinct(t)
  {
    DistinctCounts(s);
    CountsDistinct(t);
  }

  /** `Array.from(m.values())`: the values of `m`, in the order `order` gives its keys. */
  function ValuesInOrder<K, V>(m: map<K, V>, order: seq<K>): (r: seq<V>)
    requires forall k :: k in order ==> k in m
    ensures |r| == |order|
    ensures forall i :: 0 <= i < |order| ==> r[i] == m[order[i]]
    decreases |order|
  {
    if order == [] then [] else [m[order[0]]] + ValuesInOrder(m, order[1..])
  }

  /** `Map.prototype.delete` on the insertion order: `k` leaves, the other
      keys keep their relative order. */
  function RemoveKey<K(==,!new)>(order: seq<K>, k: K): (r: seq<K>)
    ensures forall x :: x in r <==> x in order && x != k
    ensures Distinct(order) ==> Distinct(r)
    ensures k !in order ==> r == order
    decreases |order|
  {
    if order == [] then []
    else if order[0] == k then RemoveKey(order[1..], k)
    else
      var rest := RemoveKey(order[1..], k);
      assert Distinct(order) ==> order[0] !in order[1..];
      [order[0]] + rest
  }

  /** `s.filter(x => owner(x) === userId)`: exactly the elements owned by
      `userId`, each as often as in `s`. */
  function OwnedBy<T(!new)>(s: seq<T>, owner: T -> int, userId: int): (r: seq<T>)
    ensures forall x :: multiset(r)[x] == if owner(x) == userId then multiset(s)[x] else 0
    decreases |s|
  {
    if s == [] then []
    else
      assert s == [s[0]] + s[1..];
      (if owner(s[0]) == userId then [s[0]] else []) + OwnedBy(s[1..], owner, userId)
  }

  /** `s` is ordered by `key`, largest (newest) first. */
  ghost predicate SortedDesc<T>(s: seq<T>, key: T -> int) {
    forall i, j :: 0 <= i < j < |s| ==> key(s[i]) >= key(s[j])
  }

  /** Putting an element no smaller than the head in front keeps a list sorted. */
  lemma {:induction false} ConsSorted<T>(h: T, t: seq<T>, key: T -> int)
    requires SortedDesc(t, key)
    requires t != [] ==> key(h) >= key(t[0])
    ensures SortedDesc([h] + t, key)
  {
    var r := [h] + t;
    forall i, j | 0 <= i < j < |r|
      ensures key(r[i]) >= key(r[j])
    {
      assert r[j] == t[j - 1];
      if i > 0 {
        assert r[i] == t[i - 1];
      } else {
        assert key(t[0]) >= key(t[j - 1]);
      }
    }
  }

  /** The tail of a sorted list is sorted and starts no higher than its head. */
  lemma TailSorted<T>(s: seq<T>, key: T -> int)
    requires SortedDesc(s, key) && s != []
    ensures SortedDesc(s[1..], key)
    ensures s == [s[0]] + s[1..]
    ensures |s| > 1 ==> key(s[0]) >= key(s[1..][0])
  {
  }

  /** Places `x` in front of the first element of `s` whose key is not larger. */
  function InsertDesc<T>(x: T, s: seq<T>, key: T -> int): (r: seq<T>)
    requires SortedDesc(s, key)
    ensures SortedDesc(r, key)
    ensures multiset(r) == multiset(s) + multiset{x}
    ensures |r| == |s| + 1
    ensures r[0] == x || (s != [] && r[0] == s[0])
    decreases |s|
  {
    if s == [] || key(x) >= key(s[0]) then
      ConsSorted(x, s, key);
      [x] + s
    else
      TailSorted(s, key);
      var rest := InsertDesc(x, s[1..], key);
      ConsSorted(s[0], rest, key);
      [s[0]] + rest
  }

  /** `s.sort((a, b) => key(b) - key(a))`: a stable sort, newest first. */
  function SortDesc<T>(s: seq<T>, key: T -> int): (r: seq<T>)
    ensures SortedDesc(r, key)
    ensures multiset(r) == multiset(s)
    ensures |r| == |s|
    decreases |s|
  {
    if s == [] then []
    else
      assert s == [s[0]] + s[1..];
      InsertDesc(s[0], SortDesc(s[1..], key), key)
  }

  /** The end index `Array.prototype.slice(0, end)` stops at on an array of
      length `len`: a negative `end` counts back from the end. */
  function SliceEnd(len: nat, end: int): (n: nat)
    ensures n <= len
    ensures 0 <= end ==> n == if end < len then end else len
    ensures end < 0 ==> n == if len + end < 0 then 0 else len + end
  {
    if end < 0 then (if len + end < 0 then 0 else len + end)
    else if end < len then end
    else len
  }

  /** A prefix of a list sorted newest first is sorted, is part of the list,
      and whatever it leaves out is no newer than anything it keeps. */
  lemma PrefixHoldsNewest<T>(s: seq<T>, n: nat, key: T -> int)
    requires SortedDesc(s, key) && n <= |s|
    ensures SortedDesc(s[..n], key)
    ensures multiset(s[..n]) <= multiset(s)
    ensures forall d, e :: d in s[..n] && e in multiset(s) - multiset(s[..n]) ==> key(d) >= key(e)
  {
    assert s == s[..n] + s[n..];
    assert multiset(s) - multiset(s[..n]) == multiset(s[n..]);
    forall d, e | d in s[..n] && e in multiset(s[n..])
      ensures key(d) >= key(e)
    {
      var i :| 0 <= i < n && s[..n][i] == d;
      var j :| 0 <= j < |s| - n && s[n..][j] == e;
      assert s[i] == d && s[n + j] == e;
    }
  }

  /** The element whose key is strictly the largest comes first. */
  lemma StrictNewestFirst<T>(s: seq<T>, x: T, key: T -> int)
    requires SortedDesc(s, key) && x in s
    requires forall y :: y in s && y != x ==> key(y) < key(x)
    ensures s[0] == x
  {
    var j :| 0 <= j < |s| && s[j] == x;
    assert key(s[0]) >= key(s[j]);
  }

  /** Every value listed by `ValuesInOrder` is stored under some key of the order. */
  lemma ListedValueHasKey<K, V>(m: map<K, V>, order: seq<K>, y: V) returns (j: K)
    requires forall k :: k in order ==> k in m
    requires y in ValuesInOrder(m, order)
    ensures j in order && j in m && m[j] == y
  {
    var values := ValuesInOrder(m, order);
    var p :| 0 <= p < |values| && values[p] == y;
    j := order[p];
  }

  /** Listing the values of `x`'s owner, newest first, lists `x` and
      nothing that is not among the values. */
  lemma OwnedListed<T(!new)>(values: seq<T>, owner: T -> int, key: T -> int, x: T)
    requires x in values
    ensures
      var listed := SortDesc(OwnedBy(values, owner, owner(x)), key);
      x in listed && forall y :: y in listed ==> y in values
  {
    var owned := OwnedBy(values, owner, owner(x));
    var listed := SortDesc(owned, key);
    assert x in listed by {
      assert multiset(listed)[x] == multiset(owned)[x] == multiset(values)[x];
    }
    forall y | y in listed
      ensures y in values
    {
      assert multiset(owned)[y] == multiset(listed)[y];
      assert multiset(owned)[y] <= multiset(values)[y];
    }
  }

  /** Listing one owner's values of a map, newest first, puts the value
      stamped strictly after every other value of the map at the front. */
  lemma NewestOwnedFirst<K, V(!new)>(m: map<K, V>, order: seq<K>, k: K, owner: V -> int, key: V -> int)
    requires forall j :: j in order ==> j in m
    requires k in order
    requires forall j :: j in m && j != k ==> key(m[j]) < key(m[k])
    ensures
      var listed := SortDesc(OwnedBy(ValuesInOrder(m, order), owner, owner(m[k])), key);
      |listed| > 0 && listed[0] == m[k]
  {
    var x := m[k];
    var values := ValuesInOrder(m, order);
    var listed := SortDesc(OwnedBy(values, owner, owner(x)), key);
    assert x in values by {
      var i :| 0 <= i < |order| && order[i] == k;
      assert values[i] == x;
    }
    OwnedListed(values, owner, key, x);
    forall y | y in listed && y != x
      ensures key(y) < key(x)
    {
      var j := ListedValueHasKey(m, order, y);
    }
    StrictNewestFirst(listed, x, key);
  }
}
