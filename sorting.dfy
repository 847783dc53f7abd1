/**
 * The in-place sorts of the comparison tooling (`sortById`,
 * `sortByBlockHeight`, `sortByTimestamp`, `sortByBlockHeightOrTimestamp`).
 * Each hands its comparator to `Array.prototype.sort`, which permutes the
 * array it is given and returns that same array. The engine's algorithm is
 * modelled by an insertion sort with adjacent swaps: it promises a
 * permutation for any comparator, and an order for a consistent one.
 */
module Sorting {
  import opened Wrappers

  /** A comparator as `sort` takes it: negative, zero or positive. */
  type Comparator<!T> = (T, T) -> int

  /** Every two elements can be put in some order. */
  ghost predicate Total<T(!new)>(cmp: Comparator<T>) {
    forall x, y :: cmp(x, y) <= 0 || cmp(y, x) <= 0
  }

  /** "Not after" is transitive. */
  ghost predicate Transitive<T(!new)>(cmp: Comparator<T>) {
    forall x, y, z :: cmp(x, y) <= 0 && cmp(y, z) <= 0 ==> cmp(x, z) <= 0
  }

  /** Each element is not after its successor. */
  ghost predicate AdjacentOrdered<T(!new)>(s: seq<T>, cmp: Comparator<T>) {
    forall k :: 0 <= k < |s| - 1 ==> cmp(s[k], s[k + 1]) <= 0
  }

  /** Each element is not after any later one. */
  ghost predicate Ordered<T(!new)>(s: seq<T>, cmp: Comparator<T>) {
    forall i, j :: 0 <= i < j < |s| ==> cmp(s[i], s[j]) <= 0
  }

  /** Each element's key is at most any later one's. */
  ghost predicate KeyOrdered<T(!new)>(s: seq<T>, key: T -> int) {
    forall i, j :: 0 <= i < j < |s| ==> key(s[i]) <= key(s[j])
  }

  /**
   * `a.sort(cmp)`: permutes `a` in place; when the comparator is total, every
   * element ends up not after its successor.
   */
  method SortInPlace<T(!new)>(a: array<T>, cmp: Comparator<T>)
    modifies a
    ensures multiset(a[..]) == multiset(old(a[..]))
    ensures Total(cmp) ==> AdjacentOrdered(a[..], cmp)
  {
    if a.Length == 0 {
      return;
    }
    var i := 1;
    while i < a.Length
      invariant 1 <= i <= a.Length
      invariant multiset(a[..]) == multiset(old(a[..]))
      invariant Total(cmp) ==> AdjacentOrdered(a[..i], cmp)
    {
      Insert(a, i, cmp);
      i := i + 1;
    }
    assert a[..i] == a[..];
  }

  /** Moves `a[i]` down into the ordered prefix `a[..i]` by adjacent swaps. */
  method Insert<T(!new)>(a: array<T>, i: nat, cmp: Comparator<T>)
    requires 0 < i < a.Length
    modifies a
    ensures multiset(a[..]) == multiset(old(a[..]))
    ensures a[i + 1..] == old(a[i + 1..])
    ensures Total(cmp) && AdjacentOrdered(old(a[..i]), cmp) ==> AdjacentOrdered(a[..i + 1], cmp)
  {
    ghost var ordered := Total(cmp) && AdjacentOrdered(a[..i], cmp);
    if ordered {
      InsertionStart(a[..], i, cmp);
    }
    var j := i;
    while j > 0 && cmp(a[j - 1], a[j]) > 0
      invariant 0 <= j <= i
      invariant multiset(a[..]) == multiset(old(a[..]))
      invariant a[i + 1..] == old(a[i + 1..])
      invariant ordered ==> Inserting(a[..], i, j, cmp)
    {
      ghost var s := a[..];
      Swap(a, j);
      assert a[i + 1..] == s[i + 1..];
      if ordered {
        SwapStep(s, i, j, cmp);
      }
      j := j - 1;
    }
    if ordered {
      InsertionDone(a[..], i, j, cmp);
    }
  }

  /**
   * Insertion of `s[j]` in progress: the first `i + 1` elements are in
   * adjacent order except around position `j`, where the bridge over it holds.
   */
  ghost predicate Inserting<T(!new)>(s: seq<T>, i: nat, j: nat, cmp: Comparator<T>) {
    && j <= i < |s|
    && (forall k :: 0 <= k < i && k != j - 1 && k != j ==> cmp(s[k], s[k + 1]) <= 0)
    && (0 < j < i ==> cmp(s[j - 1], s[j + 1]) <= 0)
    && (j < i ==> cmp(s[j], s[j + 1]) <= 0)
  }

  lemma InsertionStart<T(!new)>(s: seq<T>, i: nat, cmp: Comparator<T>)
    requires 0 < i < |s| && AdjacentOrdered(s[..i], cmp)
    ensures Inserting(s, i, i, cmp)
  {
    forall k | 0 <= k < i && k != i - 1 ensures cmp(s[k], s[k + 1]) <= 0 {
      assert s[..i][k] == s[k] && s[..i][k + 1] == s[k + 1];
    }
  }

  lemma SwapStep<T(!new)>(s: seq<T>, i: nat, j: nat, cmp: Comparator<T>)
    requires Total(cmp) && Inserting(s, i, j, cmp)
    requires 0 < j && cmp(s[j - 1], s[j]) > 0
    ensures Inserting(s[j - 1 := s[j]][j := s[j - 1]], i, j - 1, cmp)
  {
    var t := s[j - 1 := s[j]][j := s[j - 1]];
    forall k | 0 <= k < i && k != j - 2 && k != j - 1 ensures cmp(t[k], t[k + 1]) <= 0 {
      if k == j {
        assert t[k] == s[j - 1] && t[k + 1] == s[j + 1];
      } else {
        assert t[k] == s[k] && t[k + 1] == s[k + 1];
      }
    }
  }

  lemma InsertionDone<T(!new)>(s: seq<T>, i: nat, j: nat, cmp: Comparator<T>)
    requires Inserting(s, i, j, cmp)
    requires j == 0 || cmp(s[j - 1], s[j]) <= 0
    ensures AdjacentOrdered(s[..i + 1], cmp)
  {
    var u := s[..i + 1];
    forall k | 0 <= k < |u| - 1 ensures cmp(u[k], u[k + 1]) <= 0 {
      assert u[k] == s[k] && u[k + 1] == s[k + 1];
    }
  }

  /** Exchanges `a[j - 1]` and `a[j]`. */
  method Swap<T>(a: array<T>, j: nat)
    requires 0 < j < a.Length
    modifies a
    ensures a[..] == old(a[..])[j - 1 := old(a[j])][j := old(a[j - 1])]
    ensures multiset(a[..]) == multiset(old(a[..]))
  {
    a[j - 1], a[j] := a[j], a[j - 1];
  }

  /** With a transitive comparator, adjacent order is order. */
  lemma {:induction false} AdjacentToOrdered<T(!new)>(s: seq<T>, cmp: Comparator<T>)
    requires Transitive(cmp) && AdjacentOrdered(s, cmp)
    ensures Ordered(s, cmp)
  {
    if |s| > 1 {
      AdjacentToOrdered(s[1..], cmp);
      forall j | 1 < j < |s| ensures cmp(s[0], s[j]) <= 0 {
        assert s[1..][0] == s[1] && s[1..][j - 1] == s[j];
      }
      forall i, j | 0 < i < j < |s| ensures cmp(s[i], s[j]) <= 0 {
        assert s[1..][i - 1] == s[i] && s[1..][j - 1] == s[j];
      }
    }
  }

  /** Adjacent keys in order give all keys in order. */
  lemma {:induction false} AdjacentKeysToOrdered<T(!new)>(s: seq<T>, key: T -> int)
    requires forall k :: 0 <= k < |s| - 1 ==> key(s[k]) <= key(s[k + 1])
    ensures KeyOrdered(s, key)
  {
    if |s| > 1 {
      AdjacentKeysToOrdered(s[1..], key);
      forall i, j | 0 <= i < j < |s| ensures key(s[i]) <= key(s[j]) {
        if i > 0 {
          assert s[1..][i - 1] == s[i] && s[1..][j - 1] == s[j];
        } else if j > 1 {
          assert s[1..][0] == s[1] && s[1..][j - 1] == s[j];
        }
      }
    }
  }

  /** `(a, b) => Number(key(a) - key(b))`: only the sign of the difference matters to `sort`. */
  function ByKey<T(!new)>(key: T -> int): (cmp: Comparator<T>)
    ensures forall x, y :: cmp(x, y) <= 0 <==> key(x) <= key(y)
  {
    (x, y) => key(x) - key(y)
  }

  /** `(a, b) => a.id.localeCompare(b.id)`. */
  function ById<T(!new)>(id: T -> string, localeCompare: Comparator<string>): (cmp: Comparator<T>)
    ensures forall x, y :: cmp(x, y) == localeCompare(id(x), id(y))
  {
    (x, y) => localeCompare(id(x), id(y))
  }

  /** `sortById`: ids in order under the collation `localeCompare` implements. */
  method SortById<T(!new)>(data: array<T>, id: T -> string, localeCompare: Comparator<string>) returns (r: array<T>)
    modifies data
    ensures r == data
    ensures multiset(r[..]) == multiset(old(data[..]))
    ensures Total(localeCompare) ==> AdjacentOrdered(r[..], ById(id, localeCompare))
    ensures Total(localeCompare) && Transitive(localeCompare) ==> Ordered(r[..], ById(id, localeCompare))
  {
    var cmp := ById(id, localeCompare);
    SortInPlace(data, cmp);
    if Total(localeCompare) && Transitive(localeCompare) {
      AdjacentToOrdered(data[..], cmp);
    }
    r := data;
  }

  /** `sortByBlockHeight`: block heights non-decreasing. */
  method SortByBlockHeight<T(!new)>(data: array<T>, blockHeight: T -> int) returns (r: array<T>)
    modifies data
    ensures r == data
    ensures multiset(r[..]) == multiset(old(data[..]))
    ensures KeyOrdered(r[..], blockHeight)
  {
    SortInPlace(data, ByKey(blockHeight));
    AdjacentKeysToOrdered(data[..], blockHeight);
    r := data;
  }

  /** `sortByTimestamp`: timestamps non-decreasing. */
  method SortByTimestamp<T(!new)>(data: array<T>, timestamp: T -> int) returns (r: array<T>)
    modifies data
    ensures r == data
    ensures multiset(r[..]) == multiset(old(data[..]))
    ensures KeyOrdered(r[..], timestamp)
  {
    SortInPlace(data, ByKey(timestamp));
    AdjacentKeysToOrdered(data[..], timestamp);
    r := data;
  }

  /**
   * The comparator of `sortByBlockHeightOrTimestamp`: by block height when
   * both items have one, else by timestamp when both have one, else 0.
   */
  function BlockHeightOrTimestamp<T(!new)>(blockHeight: T -> Option<int>, timestamp: T -> Option<int>): (cmp: Comparator<T>)
    ensures forall x, y :: blockHeight(x).Some? && blockHeight(y).Some? ==>
              (cmp(x, y) <= 0 <==> blockHeight(x).value <= blockHeight(y).value)
    ensures forall x, y :: !(blockHeight(x).Some? && blockHeight(y).Some?) && timestamp(x).Some? && timestamp(y).Some? ==>
              (cmp(x, y) <= 0 <==> timestamp(x).value <= timestamp(y).value)
    ensures forall x, y :: !(blockHeight(x).Some? && blockHeight(y).Some?) && !(timestamp(x).Some? && timestamp(y).Some?) ==>
              cmp(x, y) == 0
  {
    (x, y) =>
      if blockHeight(x).Some? && blockHeight(y).Some? then blockHeight(x).value - blockHeight(y).value
      else if timestamp(x).Some? && timestamp(y).Some? then timestamp(x).value - timestamp(y).value
      else 0
  }

  /** That comparator is total (though not transitive on items of mixed shape). */
  lemma BlockHeightOrTimestampTotal<T(!new)>(blockHeight: T -> Option<int>, timestamp: T -> Option<int>)
    ensures Total(BlockHeightOrTimestamp(blockHeight, timestamp))
  {
    var cmp := BlockHeightOrTimestamp(blockHeight, timestamp);
    forall x, y ensures cmp(x, y) <= 0 || cmp(y, x) <= 0 {
    }
  }

  /**
   * That comparator is not transitive on items of mixed shape: an item with
   * only a timestamp sits between two items with both, whose block heights
   * are in the opposite order to their timestamps.
   */
  lemma BlockHeightOrTimestampNotTransitive()
    ensures !Transitive(BlockHeightOrTimestamp((p: (Option<int>, Option<int>)) => p.0,
                                               (p: (Option<int>, Option<int>)) => p.1))
  {
    var cmp := BlockHeightOrTimestamp((p: (Option<int>, Option<int>)) => p.0, (p: (Option<int>, Option<int>)) => p.1);
    var x, y, z := (Some(2), Some(1)), (None, Some(5)), (Some(1), Some(9));
    assert cmp(x, y) <= 0 && cmp(y, z) <= 0 && cmp(x, z) > 0;
  }

  /**
   * `sortByBlockHeightOrTimestamp`: a permutation in which each item is not
   * after its successor under the comparator; hence ordered by block height
   * when every item has one, and by timestamp when none has a block height
   * and every one has a timestamp.
   */
  method SortByBlockHeightOrTimestamp<T(!new)>(data: array<T>, blockHeight: T -> Option<int>, timestamp: T -> Option<int>)
    returns (r: array<T>)
    modifies data
    ensures r == data
    ensures multiset(r[..]) == multiset(old(data[..]))
    ensures AdjacentOrdered(r[..], BlockHeightOrTimestamp(blockHeight, timestamp))
    ensures (forall i :: 0 <= i < r.Length ==> blockHeight(r[i]).Some?) ==>
              forall i, j :: 0 <= i < j < r.Length ==> blockHeight(r[i]).value <= blockHeight(r[j]).value
    ensures (forall i :: 0 <= i < r.Length ==> blockHeight(r[i]).None? && timestamp(r[i]).Some?) ==>
              forall i, j :: 0 <= i < j < r.Length ==> timestamp(r[i]).value <= timestamp(r[j]).value
  {
    var cmp := BlockHeightOrTimestamp(blockHeight, timestamp);
    BlockHeightOrTimestampTotal(blockHeight, timestamp);
    SortInPlace(data, cmp);
    r := data;
    if forall i :: 0 <= i < r.Length ==> blockHeight(r[i]).Some? {
      ByBlockHeight(r[..], blockHeight, timestamp);
    }
    if forall i :: 0 <= i < r.Length ==> blockHeight(r[i]).None? && timestamp(r[i]).Some? {
      ByTimestamp(r[..], blockHeight, timestamp);
    }
  }

  /** When every item has a block height, the comparator orders by block height. */
  lemma ByBlockHeight<T(!new)>(s: seq<T>, blockHeight: T -> Option<int>, timestamp: T -> Option<int>)
    requires AdjacentOrdered(s, BlockHeightOrTimestamp(blockHeight, timestamp))
    requires forall i :: 0 <= i < |s| ==> blockHeight(s[i]).Some?
    ensures forall i, j :: 0 <= i < j < |s| ==> blockHeight(s[i]).value <= blockHeight(s[j]).value
  {
    var key := x => blockHeight(x).GetOr(0);
    forall k | 0 <= k < |s| - 1 ensures key(s[k]) <= key(s[k + 1]) {
      assert blockHeight(s[k]).Some? && blockHeight(s[k + 1]).Some?;
    }
    AdjacentKeysToOrdered(s, key);
  }

  /** When no item has a block height and every one has a timestamp, the comparator orders by timestamp. */
  lemma ByTimestamp<T(!new)>(s: seq<T>, blockHeight: T -> Option<int>, timestamp: T -> Option<int>)
    requires AdjacentOrdered(s, BlockHeightOrTimestamp(blockHeight, timestamp))
    requires forall i :: 0 <= i < |s| ==> blockHeight(s[i]).None? && timestamp(s[i]).Some?
    ensures forall i, j :: 0 <= i < j < |s| ==> timestamp(s[i]).value <= timestamp(s[j]).value
  {
    var key := x => timestamp(x).GetOr(0);
    forall k | 0 <= k < |s| - 1 ensures key(s[k]) <= key(s[k + 1]) {
      assert blockHeight(s[k]).None? && timestamp(s[k]).Some? && timestamp(s[k + 1]).Some?;
    }
    AdjacentKeysToOrdered(s, key);
  }
}
