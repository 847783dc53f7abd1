/**
 * The comparison of two datasets of the same entity (`compare`): both are
 * sorted by id in place, split by id into the items only one side has and
 * the items both have, and the common items are compared index by index.
 * Reading the JSON files and writing the results are not modelled.
 */
module Compare {
  import opened Wrappers
  import opened Sorting

  /** The fields of an item the comparison reads. */
  datatype NodeAccess<!T> = NodeAccess(id: T -> string, blockHeight: T -> Option<int>, timestamp: T -> Option<int>)

  /** `new Set(items.map(item => item.id))`. */
  function Ids<T(!new)>(id: T -> string, items: seq<T>): (r: set<string>)
    ensures forall i :: 0 <= i < |items| ==> id(items[i]) in r
    ensures forall k :: k in r ==> exists i :: 0 <= i < |items| && id(items[i]) == k
  {
    set i | 0 <= i < |items| :: id(items[i])
  }

  /** `items.filter(keep)`. */
  function Filter<T(!new)>(items: seq<T>, keep: T -> bool): (r: seq<T>)
    ensures |r| <= |items|
    ensures forall x :: x in r <==> x in items && keep(x)
  {
    if |items| == 0 then []
    else (if keep(items[0]) then [items[0]] else []) + Filter(items[1..], keep)
  }

  /** What one filter keeps and its complement keeps make up the whole. */
  lemma {:induction false} FilterComplement<T(!new)>(items: seq<T>, keep: T -> bool, drop: T -> bool)
    requires forall x :: x in items ==> drop(x) == !keep(x)
    ensures multiset(Filter(items, keep)) + multiset(Filter(items, drop)) == multiset(items)
  {
    if |items| > 0 {
      var x, rest := items[0], items[1..];
      FilterComplement(rest, keep, drop);
      assert items == [x] + rest;
      if keep(x) {
        assert Filter(items, keep) == [x] + Filter(rest, keep);
        assert Filter(items, drop) == Filter(rest, drop);
      } else {
        assert Filter(items, keep) == Filter(rest, keep);
        assert Filter(items, drop) == [x] + Filter(rest, drop);
      }
    }
  }

  /** Filtering keeps the order of what it keeps. */
  lemma {:induction false} FilterOrdered<T(!new)>(items: seq<T>, keep: T -> bool, cmp: Comparator<T>)
    requires Ordered(items, cmp)
    ensures Ordered(Filter(items, keep), cmp)
  {
    if |items| > 0 {
      FilterOrdered(items[1..], keep, cmp);
      var rest := Filter(items[1..], keep);
      forall j | 0 <= j < |rest| ensures cmp(items[0], rest[j]) <= 0 {
        assert rest[j] in items[1..];
        var k :| 0 <= k < |items[1..]| && items[1..][k] == rest[j];
        assert items[k + 1] == rest[j];
      }
    }
  }

  /** The items of `items` whose id is not among the ids of `other`. */
  function OnlyIn<T(!new)>(id: T -> string, items: seq<T>, other: seq<T>): (r: seq<T>)
    ensures forall x :: x in r <==> x in items && forall j :: 0 <= j < |other| ==> id(other[j]) != id(x)
  {
    var otherIds := Ids(id, other);
    Filter(items, x => id(x) !in otherIds)
  }

  /** The items of `items` whose id is among the ids of `other`, in their order. */
  function CommonIn<T(!new)>(id: T -> string, items: seq<T>, other: seq<T>): (r: seq<T>)
    ensures forall x :: x in r <==> x in items && exists j :: 0 <= j < |other| && id(other[j]) == id(x)
  {
    var otherIds := Ids(id, other);
    Filter(items, x => id(x) in otherIds)
  }

  /** Every item is in exactly one of the two lists, as often as in the input. */
  lemma Partition<T(!new)>(id: T -> string, items: seq<T>, other: seq<T>)
    ensures multiset(OnlyIn(id, items, other)) + multiset(CommonIn(id, items, other)) == multiset(items)
  {
    var otherIds := Ids(id, other);
    FilterComplement(items, x => id(x) !in otherIds, x => id(x) in otherIds);
  }

  /** Distinct ids. */
  ghost predicate UniqueIds<T(!new)>(id: T -> string, items: seq<T>) {
    forall i, j :: 0 <= i < j < |items| ==> id(items[i]) != id(items[j])
  }

  /** Ids stay unique when the items are permuted, as sorting does. */
  lemma UniqueIdsPermutation<T(!new)>(id: T -> string, a: seq<T>, b: seq<T>)
    requires UniqueIds(id, a) && multiset(a) == multiset(b)
    ensures UniqueIds(id, b)
  {
    forall i, j | 0 <= i < j < |b| ensures id(b[i]) != id(b[j]) {
      assert b[i] in multiset(a);
      var p :| 0 <= p < |a| && a[p] == b[i];
      OtherIndex(a, b, i, j, p);
      var q :| 0 <= q < |a| && q != p && a[q] == b[j];
      if p < q {
        assert id(a[p]) != id(a[q]);
      } else {
        assert id(a[q]) != id(a[p]);
      }
    }
  }

  /** Two positions of a permutation come from two different positions of the original. */
  lemma OtherIndex<T>(a: seq<T>, b: seq<T>, i: nat, j: nat, p: nat)
    requires multiset(a) == multiset(b) && i < j < |b| && p < |a| && a[p] == b[i]
    ensures exists q :: 0 <= q < |a| && q != p && a[q] == b[j]
  {
    var c := b[..j] + b[j + 1..];
    var rest := a[..p] + a[p + 1..];
    assert multiset(b) == multiset(c) + multiset{b[j]} by {
      assert b == b[..j] + [b[j]] + b[j + 1..];
    }
    assert multiset(a) == multiset(rest) + multiset{a[p]} by {
      assert a == a[..p] + [a[p]] + a[p + 1..];
    }
    var x := b[j];
    assert x in multiset(rest) by {
      assert c[i] == b[i];
      assert b[i] in multiset(c);
      assert multiset(rest) + multiset{b[i]} == multiset(c) + multiset{x};
      assert (multiset(rest) + multiset{b[i]})[x] == multiset(rest)[x] + multiset{b[i]}[x];
      assert (multiset(c) + multiset{x})[x] == multiset(c)[x] + 1;
    }
    var k :| 0 <= k < |rest| && rest[k] == b[j];
    if k < p {
      assert a[k] == rest[k];
    } else {
      assert a[k + 1] == rest[k];
    }
  }

  /** Two ids the collation does not tell apart are the same id. */
  ghost predicate Antisymmetric(localeCompare: Comparator<string>) {
    forall a, b :: localeCompare(a, b) <= 0 && localeCompare(b, a) <= 0 ==> a == b
  }

  /**
   * When ids are unique within each dataset and the collation orders them
   * strictly, the two common lists line up: same length, same id at every
   * index. Then the loop over the common lists compares each item with its
   * counterpart.
   */
  lemma CommonAligned<T(!new)>(id: T -> string, localeCompare: Comparator<string>, s1: seq<T>, s2: seq<T>)
    requires Antisymmetric(localeCompare)
    requires UniqueIds(id, s1) && UniqueIds(id, s2)
    requires Ordered(s1, ById(id, localeCompare)) && Ordered(s2, ById(id, localeCompare))
    ensures var c1, c2 := CommonIn(id, s1, s2), CommonIn(id, s2, s1);
            |c1| == |c2| && forall i :: 0 <= i < |c1| ==> id(c1[i]) == id(c2[i])
  {
    CommonKeepsOrder(id, localeCompare, s1, s2);
    CommonKeepsOrder(id, localeCompare, s2, s1);
    CommonCovers(id, s1, s2);
    CommonCovers(id, s2, s1);
    SameIdsAligned(id, localeCompare, CommonIn(id, s1, s2), CommonIn(id, s2, s1));
  }

  /** The common items keep the order and the uniqueness of their ids. */
  lemma CommonKeepsOrder<T(!new)>(id: T -> string, localeCompare: Comparator<string>, items: seq<T>, other: seq<T>)
    requires UniqueIds(id, items) && Ordered(items, ById(id, localeCompare))
    ensures UniqueIds(id, CommonIn(id, items, other)) && Ordered(CommonIn(id, items, other), ById(id, localeCompare))
  {
    var keep := x => id(x) in Ids(id, other);
    FilterOrdered(items, keep, ById(id, localeCompare));
    UniqueFilter(id, items, keep);
  }

  /** Each common item of one side has a common counterpart with its id on the other side. */
  lemma CommonCovers<T(!new)>(id: T -> string, s1: seq<T>, s2: seq<T>)
    ensures var c1, c2 := CommonIn(id, s1, s2), CommonIn(id, s2, s1);
            forall x :: x in c1 ==> exists j :: 0 <= j < |c2| && id(c2[j]) == id(x)
  {
    var c1, c2 := CommonIn(id, s1, s2), CommonIn(id, s2, s1);
    forall x | x in c1 ensures exists j :: 0 <= j < |c2| && id(c2[j]) == id(x) {
      var j :| 0 <= j < |s2| && id(s2[j]) == id(x);
      var i :| 0 <= i < |s1| && s1[i] == x;
      assert id(s1[i]) == id(s2[j]);
      assert s2[j] in c2;
    }
  }

  /** Filtering keeps ids unique. */
  lemma {:induction false} UniqueFilter<T(!new)>(id: T -> string, items: seq<T>, keep: T -> bool)
    requires UniqueIds(id, items)
    ensures UniqueIds(id, Filter(items, keep))
  {
    if |items| > 0 {
      UniqueFilter(id, items[1..], keep);
      var rest := Filter(items[1..], keep);
      forall j | 0 <= j < |rest| ensures id(items[0]) != id(rest[j]) {
        assert rest[j] in items[1..];
        var k :| 0 <= k < |items[1..]| && items[1..][k] == rest[j];
        assert items[k + 1] == rest[j];
      }
    }
  }

  /** The ids of the items, in order. */
  function IdList<T(!new)>(id: T -> string, items: seq<T>): (r: seq<string>)
    ensures |r| == |items| && forall i :: 0 <= i < |items| ==> r[i] == id(items[i])
  {
    seq(|items|, i requires 0 <= i < |items| => id(items[i]))
  }

  /**
   * Two lists ordered by id under an antisymmetric collation, each with
   * unique ids and with the same ids, carry the same id at every index.
   */
  lemma SameIdsAligned<T(!new)>(id: T -> string, localeCompare: Comparator<string>, c1: seq<T>, c2: seq<T>)
    requires Antisymmetric(localeCompare)
    requires UniqueIds(id, c1) && UniqueIds(id, c2)
    requires Ordered(c1, ById(id, localeCompare)) && Ordered(c2, ById(id, localeCompare))
    requires forall x :: x in c1 ==> exists j :: 0 <= j < |c2| && id(c2[j]) == id(x)
    requires forall y :: y in c2 ==> exists i :: 0 <= i < |c1| && id(c1[i]) == id(y)
    ensures |c1| == |c2| && forall i :: 0 <= i < |c1| ==> id(c1[i]) == id(c2[i])
  {
    var a, b := IdList(id, c1), IdList(id, c2);
    forall k | k in a ensures k in b {
      var i :| 0 <= i < |a| && a[i] == k;
      assert c1[i] in c1;
    }
    forall k | k in b ensures k in a {
      var j :| 0 <= j < |b| && b[j] == k;
      assert c2[j] in c2;
    }
    SameSetOrderedEqual(localeCompare, a, b);
  }

  /** Two duplicate-free lists with the same elements, both ordered by an antisymmetric comparator, are equal. */
  lemma {:induction false} SameSetOrderedEqual(cmp: Comparator<string>, a: seq<string>, b: seq<string>)
    requires Antisymmetric(cmp)
    requires forall i, j :: 0 <= i < j < |a| ==> a[i] != a[j]
    requires forall i, j :: 0 <= i < j < |b| ==> b[i] != b[j]
    requires Ordered(a, cmp) && Ordered(b, cmp)
    requires forall k :: k in a <==> k in b
    ensures a == b
    decreases |a|
  {
    if |a| > 0 && |b| > 0 {
      SameHead(cmp, a, b);
      SameTail(a, b);
      SameSetOrderedEqual(cmp, a[1..], b[1..]);
      assert a == [a[0]] + a[1..] && b == [b[0]] + b[1..];
    } else {
      SameElementsEmpty(a, b);
    }
  }

  /** Two lists with the same elements are both empty or both not. */
  lemma SameElementsEmpty(a: seq<string>, b: seq<string>)
    requires forall k :: k in a <==> k in b
    ensures |a| == 0 <==> |b| == 0
  {
    if |a| > 0 {
      assert a[0] in b;
    }
    if |b| > 0 {
      assert b[0] in a;
    }
  }

  /** Their least elements agree. */
  lemma SameHead(cmp: Comparator<string>, a: seq<string>, b: seq<string>)
    requires Antisymmetric(cmp)
    requires Ordered(a, cmp) && Ordered(b, cmp)
    requires |a| > 0 && |b| > 0
    requires forall k :: k in a <==> k in b
    ensures a[0] == b[0]
  {
    assert a[0] in b && b[0] in a;
    var j :| 0 <= j < |b| && b[j] == a[0];
    var i :| 0 <= i < |a| && a[i] == b[0];
  }

  /** After the shared head, the rests have the same elements. */
  lemma SameTail(a: seq<string>, b: seq<string>)
    requires |a| > 0 && |b| > 0 && a[0] == b[0]
    requires forall i, j :: 0 <= i < j < |a| ==> a[i] != a[j]
    requires forall i, j :: 0 <= i < j < |b| ==> b[i] != b[j]
    requires forall k :: k in a <==> k in b
    ensures forall k :: k in a[1..] <==> k in b[1..]
  {
    forall k ensures k in a[1..] ==> k in b[1..] {
      if k in a[1..] {
        var p :| 0 <= p < |a| - 1 && a[1..][p] == k;
        assert a[p + 1] == k && k != a[0] && k in b;
        var q :| 0 <= q < |b| && b[q] == k;
        assert q > 0 && b[1..][q - 1] == k;
      }
    }
    forall k ensures k in b[1..] ==> k in a[1..] {
      if k in b[1..] {
        var q :| 0 <= q < |b| - 1 && b[1..][q] == k;
        assert b[q + 1] == k && k != b[0] && k in a;
        var p :| 0 <= p < |a| && a[p] == k;
        assert p > 0 && a[1..][p - 1] == k;
      }
    }
  }

  /** `subqueryCommon[i]`, which is `undefined` past the end. */
  function At<T(!new)>(items: seq<T>, i: nat): (r: Option<T>)
    ensures r.Some? <==> i < |items|
    ensures r.Some? ==> r.value == items[i]
  {
    if i < |items| then Some(items[i]) else None
  }

  /** `_.isEqual(subsquidCommon[i], subqueryCommon[i])`; no item equals `undefined`. */
  predicate EqualAt<T(!new)>(isEqual: (T, T) -> bool, c1: seq<T>, c2: seq<T>, i: nat)
    requires i < |c1|
  {
    i < |c2| && isEqual(c1[i], c2[i])
  }

  /** The indices below `n` at which the common lists differ, in increasing order. */
  function Mismatches<T(!new)>(isEqual: (T, T) -> bool, c1: seq<T>, c2: seq<T>, n: nat): (r: seq<nat>)
    requires n <= |c1|
    ensures forall k :: 0 <= k < |r| ==> r[k] < n && !EqualAt(isEqual, c1, c2, r[k])
    ensures forall i :: 0 <= i < n && !EqualAt(isEqual, c1, c2, i) ==> i in r
    ensures forall k, l :: 0 <= k < l < |r| ==> r[k] < r[l]
  {
    if n == 0 then []
    else Mismatches(isEqual, c1, c2, n - 1) + (if EqualAt(isEqual, c1, c2, n - 1) then [] else [n - 1])
  }

  /** `subsquidDifferent` and `subqueryDifferent` hold the pairs at the indices `m`, in that order. */
  ghost predicate Reported<T(!new)>(c1: seq<T>, c2: seq<T>, m: seq<nat>, subqueryDifferent: seq<Option<T>>, subsquidDifferent: seq<T>) {
    && |subsquidDifferent| == |subqueryDifferent| == |m|
    && forall k :: 0 <= k < |m| ==>
         m[k] < |c1| && subsquidDifferent[k] == c1[m[k]] && subqueryDifferent[k] == At(c2, m[k])
  }

  lemma ReportedAppend<T(!new)>(c1: seq<T>, c2: seq<T>, m: seq<nat>, dq: seq<Option<T>>, ds: seq<T>, i: nat)
    requires Reported(c1, c2, m, dq, ds) && i < |c1|
    ensures Reported(c1, c2, m + [i], dq + [At(c2, i)], ds + [c1[i]])
  {
  }

  /**
   * The loop of `compare` that collects the differing pairs: index `i` is
   * added to both lists, in index order, exactly when the items there are
   * not deeply equal.
   */
  method Differences<T(!new)>(isEqual: (T, T) -> bool, subsquidCommon: seq<T>, subqueryCommon: seq<T>)
    returns (subqueryDifferent: seq<Option<T>>, subsquidDifferent: seq<T>)
    ensures var m := Mismatches(isEqual, subsquidCommon, subqueryCommon, |subsquidCommon|);
            && |subsquidDifferent| == |subqueryDifferent| == |m|
            && forall k :: 0 <= k < |m| ==>
                 subsquidDifferent[k] == subsquidCommon[m[k]] && subqueryDifferent[k] == At(subqueryCommon, m[k])
  {
    subqueryDifferent, subsquidDifferent := [], [];
    for i := 0 to |subsquidCommon|
      invariant Reported(subsquidCommon, subqueryCommon, Mismatches(isEqual, subsquidCommon, subqueryCommon, i),
                         subqueryDifferent, subsquidDifferent)
    {
      ghost var m := Mismatches(isEqual, subsquidCommon, subqueryCommon, i);
      if !(i < |subqueryCommon| && isEqual(subsquidCommon[i], subqueryCommon[i])) {
        ReportedAppend(subsquidCommon, subqueryCommon, m, subqueryDifferent, subsquidDifferent, i);
        subqueryDifferent := subqueryDifferent + [At(subqueryCommon, i)];
        subsquidDifferent := subsquidDifferent + [subsquidCommon[i]];
      }
    }
  }

  /** What `compare` returns. */
  datatype Comparison<T> = Comparison(
    subsquid: seq<T>,
    subquery: seq<T>,
    subsquidOnly: seq<T>,
    subqueryOnly: seq<T>,
    subqueryCommon: seq<T>,
    subsquidCommon: seq<T>,
    subqueryDifferent: seq<Option<T>>,
    subsquidDifferent: seq<T>)

  /** `new Array(items)` holding the items of a filter result. */
  method ToArray<T(!new)>(items: seq<T>) returns (a: array<T>)
    ensures fresh(a) && a[..] == items
  {
    a := new T[|items|](i requires 0 <= i < |items| => items[i]);
  }

  /**
   * `compare`: sorts both datasets by id in place, then partitions them by
   * id; the only-lists are sorted by block height or timestamp.
   */
  method Compare<T(!new)>(subsquid: array<T>, subquery: array<T>, node: NodeAccess<T>, isEqual: (T, T) -> bool,
                          localeCompare: Comparator<string>)
    returns (r: Comparison<T>)
    modifies subsquid, subquery
    ensures r.subsquid == subsquid[..] && r.subquery == subquery[..]
    ensures subsquid != subquery ==>
              multiset(r.subsquid) == multiset(old(subsquid[..])) && multiset(r.subquery) == multiset(old(subquery[..]))
    ensures Total(localeCompare) && Transitive(localeCompare) ==>
              Ordered(r.subsquid, ById(node.id, localeCompare)) && Ordered(r.subquery, ById(node.id, localeCompare))
    ensures multiset(r.subsquidOnly) == multiset(OnlyIn(node.id, r.subsquid, r.subquery))
    ensures multiset(r.subqueryOnly) == multiset(OnlyIn(node.id, r.subquery, r.subsquid))
    ensures AdjacentOrdered(r.subsquidOnly, BlockHeightOrTimestamp(node.blockHeight, node.timestamp))
    ensures AdjacentOrdered(r.subqueryOnly, BlockHeightOrTimestamp(node.blockHeight, node.timestamp))
    ensures r.subsquidCommon == CommonIn(node.id, r.subsquid, r.subquery)
    ensures r.subqueryCommon == CommonIn(node.id, r.subquery, r.subsquid)
    ensures var m := Mismatches(isEqual, r.subsquidCommon, r.subqueryCommon, |r.subsquidCommon|);
            && |r.subsquidDifferent| == |r.subqueryDifferent| == |m|
            && forall k :: 0 <= k < |m| ==>
                 r.subsquidDifferent[k] == r.subsquidCommon[m[k]] && r.subqueryDifferent[k] == At(r.subqueryCommon, m[k])
    ensures subsquid != subquery && Total(localeCompare) && Transitive(localeCompare) && Antisymmetric(localeCompare)
            && UniqueIds(node.id, old(subsquid[..])) && UniqueIds(node.id, old(subquery[..])) ==>
              && |r.subsquidCommon| == |r.subqueryCommon|
              && forall i :: 0 <= i < |r.subsquidCommon| ==> node.id(r.subsquidCommon[i]) == node.id(r.subqueryCommon[i])
  {
    var subsquidSorted := SortById(subsquid, node.id, localeCompare);
    var subquerySorted := SortById(subquery, node.id, localeCompare);
    var s1, s2 := subsquidSorted[..], subquerySorted[..];

    var subsquidOnly := SortedOnly(s1, s2, node);
    var subqueryOnly := SortedOnly(s2, s1, node);

    var subqueryCommon := CommonIn(node.id, s2, s1);
    var subsquidCommon := CommonIn(node.id, s1, s2);
    var subqueryDifferent, subsquidDifferent := Differences(isEqual, subsquidCommon, subqueryCommon);
    r := Comparison(s1, s2, subsquidOnly, subqueryOnly, subqueryCommon, subsquidCommon,
                    subqueryDifferent, subsquidDifferent);
    if subsquid != subquery && Total(localeCompare) && Transitive(localeCompare) && Antisymmetric(localeCompare)
       && UniqueIds(node.id, old(subsquid[..])) && UniqueIds(node.id, old(subquery[..])) {
      UniqueIdsPermutation(node.id, old(subsquid[..]), s1);
      UniqueIdsPermutation(node.id, old(subquery[..]), s2);
      CommonAligned(node.id, localeCompare, s1, s2);
    }
  }

  /** The items of `items` whose id `other` lacks, sorted by block height or timestamp. */
  method SortedOnly<T(!new)>(items: seq<T>, other: seq<T>, node: NodeAccess<T>) returns (only: seq<T>)
    ensures multiset(only) == multiset(OnlyIn(node.id, items, other))
    ensures AdjacentOrdered(only, BlockHeightOrTimestamp(node.blockHeight, node.timestamp))
  {
    var a := ToArray(OnlyIn(node.id, items, other));
    a := SortByBlockHeightOrTimestamp(a, node.blockHeight, node.timestamp);
    only := a[..];
  }
}
