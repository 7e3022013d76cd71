/** The query shapes the controllers use on a collection: `find` with a filter,
    `findOne` (the first match in natural order) and `sort` newest first. */
module Listing {
  import opened Wrappers

  /** `find(filter)`: the records that match, in collection order. */
  function Filter<T>(s: seq<T>, p: T -> bool): (r: seq<T>)
    ensures |r| <= |s|
    ensures forall i :: 0 <= i < |r| ==> p(r[i])
    ensures forall i :: 0 <= i < |r| ==> r[i] in s
    ensures forall i :: 0 <= i < |s| && p(s[i]) ==> s[i] in r
  {
    if s == [] then []
    else
      var rest := Filter(s[1..], p);
      assert s == [s[0]] + s[1..];
      if p(s[0]) then [s[0]] + rest else rest
  }

  /** `findOne(filter)`: the index of the first matching record, if any. */
  function FirstIndex<T>(s: seq<T>, p: T -> bool): (r: Option<nat>)
    ensures r.Some? ==> r.value < |s| && p(s[r.value])
    ensures r.Some? ==> forall j :: 0 <= j < r.value ==> !p(s[j])
    ensures r.None? <==> forall j :: 0 <= j < |s| ==> !p(s[j])
  {
    if s == [] then None
    else if p(s[0]) then Some(0)
    else
      match FirstIndex(s[1..], p)
      case None => None
      case Some(k) => Some(k + 1)
  }

  ghost predicate SortedDesc<T>(s: seq<T>, key: T -> int)
  {
    forall i, j :: 0 <= i < j < |s| ==> key(s[i]) >= key(s[j])
  }

  /** Inserts `x` into a newest-first sequence, before the first older record. */
  function Insert<T>(x: T, s: seq<T>, key: T -> int): (r: seq<T>)
    requires SortedDesc(s, key)
    ensures |r| == |s| + 1
    ensures r[0] == x || (s != [] && r[0] == s[0])
    ensures SortedDesc(r, key)
    ensures multiset(r) == multiset(s) + multiset{x}
  {
    if s == [] || key(x) >= key(s[0]) then [x] + s
    else
      var rest := Insert(x, s[1..], key);
      assert s == [s[0]] + s[1..];
      assert key(s[0]) >= key(rest[0]);
      [s[0]] + rest
  }

  /** `.sort({ createdAt: -1 })`: the same records, newest first. */
  function SortDesc<T>(s: seq<T>, key: T -> int): (r: seq<T>)
    ensures SortedDesc(r, key)
    ensures multiset(r) == multiset(s)
    ensures |r| == |s|
  {
    if s == [] then []
    else
      assert s == [s[0]] + s[1..];
      Insert(s[0], SortDesc(s[1..], key), key)
  }

  /** The collection without its `i`-th record (`findByIdAndDelete` on a match). */
  function RemoveAt<T>(s: seq<T>, i: nat): (r: seq<T>)
    requires i < |s|
    ensures |r| == |s| - 1
    ensures forall j :: 0 <= j < |r| ==> r[j] == s[if j < i then j else j + 1]
  {
    s[..i] + s[i+1..]
  }

  /** A filter every record passes returns the whole collection. */
  lemma {:induction false} FilterKeepsAll<T>(s: seq<T>, p: T -> bool)
    requires forall i :: 0 <= i < |s| ==> p(s[i])
    ensures Filter(s, p) == s
  {
    if s != [] {
      FilterKeepsAll(s[1..], p);
    }
  }

  /** A filter the first record fails and every other record passes drops exactly that one. */
  lemma FilterDropsHead<T>(s: seq<T>, p: T -> bool)
    requires s != [] && !p(s[0])
    requires forall i :: 1 <= i < |s| ==> p(s[i])
    ensures Filter(s, p) == s[1..]
  {
    FilterKeepsAll(s[1..], p);
  }

  /** The first match stays first when that record is replaced by another match. */
  lemma FirstIndexAfterUpdate<T>(s: seq<T>, p: T -> bool, i: nat, x: T)
    requires FirstIndex(s, p) == Some(i) && p(x)
    ensures FirstIndex(s[i := x], p) == Some(i)
  {
    var t := s[i := x];
    assert p(t[i]);
    assert forall j :: 0 <= j < i ==> t[j] == s[j];
  }
}
