/**
 * The composite string ids of the order-book engine
 * (`OrderBooksStorage.getId` / `parseId` / `getOrderId` and
 * `OrderBooksSnapshotsStorage.getId`) and the facts that make them usable as
 * keys: parsing inverts rendering, and distinct triples give distinct ids.
 */
module OrderBookIds {
  import opened Wrappers
  import opened Text

  /** A JavaScript `number` as far as ids need it: an integer or `NaN`. */
  datatype JsNumber = Finite(n: int) | NaN

  /** `String(x)`. */
  function NumberToString(x: JsNumber): string
  {
    match x
    case Finite(n) => IntToString(n)
    case NaN => "NaN"
  }

  /**
   * `Number(s)` on a piece produced by `split('-')` (or `undefined` when the
   * piece is missing): the empty string is 0, a digit string its value,
   * anything else `NaN`.
   */
  function ParseNumber(s: Option<string>): (r: JsNumber)
    ensures s == Some("") ==> r == Finite(0)
    ensures s.None? ==> r == NaN
  {
    match s
    case None => NaN
    case Some(str) => if AllDigits(str) then Finite(DigitsValue(str)) else NaN
  }

  /**
   * The snapshot resolutions (`SnapshotType`). The enum is generated in the
   * indexer's `model` package; its string values are taken from there.
   */
  datatype SnapshotType = Default | Hour | Day

  /** The string value of a `SnapshotType` member, as it appears in ids. */
  function TypeName(t: SnapshotType): (r: string)
    ensures '-' !in r
  {
    match t
    case Default => "DEFAULT"
    case Hour => "HOUR"
    case Day => "DAY"
  }

  /** The fields `parseId` returns; a missing piece is `undefined`. */
  datatype ParsedId = ParsedId(dexId: JsNumber, baseAssetId: Option<string>, quoteAssetId: Option<string>)

  /** `OrderBooksStorage.getId`: `dexId-baseAssetId-quoteAssetId`. */
  function GetId(dexId: JsNumber, baseAssetId: string, quoteAssetId: string): (r: string)
    ensures '-' !in NumberToString(dexId) && '-' !in baseAssetId && '-' !in quoteAssetId ==>
              Split(r, '-') == [NumberToString(dexId), baseAssetId, quoteAssetId]
  {
    var parts := [NumberToString(dexId), baseAssetId, quoteAssetId];
    assert '-' !in parts[0] && '-' !in parts[1] && '-' !in parts[2] ==> Split(Join(parts, "-"), '-') == parts by {
      if '-' !in parts[0] && '-' !in parts[1] && '-' !in parts[2] {
        SplitJoin(parts, '-');
      }
    }
    Join(parts, "-")
  }

  function Piece(parts: seq<string>, i: nat): Option<string>
  {
    if i < |parts| then Some(parts[i]) else None
  }

  /** `OrderBooksStorage.parseId`: the first three pieces of `id.split('-')`. */
  function ParseId(id: string): (r: ParsedId)
    ensures '-' !in id ==> r == ParsedId(ParseNumber(Some(id)), None, None)
    ensures r.quoteAssetId.Some? ==> r.baseAssetId.Some?
  {
    assert '-' !in id ==> Split(id, '-') == [id] by {
      if '-' !in id {
        SplitWithout(id, '-');
      }
    }
    var parts := Split(id, '-');
    ParsedId(ParseNumber(Some(parts[0])), Piece(parts, 1), Piece(parts, 2))
  }

  /** `OrderBooksStorage.getOrderId`: `orderBookId_orderId`. */
  function GetOrderId(orderBookId: string, orderId: string): (r: string)
    ensures '_' !in orderId ==>
              && LastIndexOf(r, '_') == |orderBookId|
              && r[..LastIndexOf(r, '_')] == orderBookId
              && r[LastIndexOf(r, '_') + 1..] == orderId
  {
    assert [orderBookId, orderId][1..] == [orderId];
    assert Join([orderId], "_") == orderId;
    var r := Join([orderBookId, orderId], "_");
    assert r == orderBookId + ['_'] + orderId;
    assert '_' !in orderId ==> LastIndexOf(r, '_') == |orderBookId| by {
      if '_' !in orderId {
        LastIndexAfter(orderBookId, '_', orderId);
      }
    }
    r
  }

  /** `OrderBooksSnapshotsStorage.getId`: `orderBookId-type-index`. */
  function SnapshotId(orderBookId: string, t: SnapshotType, index: int): (r: string)
    ensures |r| > |orderBookId| && r[..|orderBookId|] == orderBookId
  {
    var n, k := TypeName(t), IntToString(index);
    assert [orderBookId, n, k][1..] == [n, k] && [n, k][1..] == [k];
    assert Join([n, k], "-") == n + "-" + k;
    Join([orderBookId, n, k], "-")
  }

  /** A snapshot id of a natural bucket index ends in that index, after the last hyphen. */
  lemma SnapshotIdIndex(orderBookId: string, t: SnapshotType, index: int)
    requires index >= 0
    ensures var r := SnapshotId(orderBookId, t, index);
            && LastIndexOf(r, '-') == |orderBookId| + 1 + |TypeName(t)|
            && r[LastIndexOf(r, '-') + 1..] == IntToString(index)
  {
    var n, k := TypeName(t), IntToString(index);
    var r := SnapshotId(orderBookId, t, index);
    assert r == (orderBookId + "-" + n) + ['-'] + k by {
      assert [orderBookId, n, k][1..] == [n, k] && [n, k][1..] == [k];
      assert Join([n, k], "-") == n + "-" + k;
    }
    PieceAfterLast(orderBookId, n, k);
  }

  /** The pieces of `o-n-k`: `o` in front, and `k` after the last `'-'` when it has none. */
  lemma PieceAfterLast(o: string, n: string, k: string)
    ensures var r := (o + "-" + n) + ['-'] + k;
            && |r| > |o| && r[..|o|] == o
            && ('-' !in k ==> LastIndexOf(r, '-') == |o| + 1 + |n| && r[|o| + 1 + |n| + 1..] == k)
  {
    var h := o + "-" + n;
    var r := h + ['-'] + k;
    assert r[..|o|] == o;
    if '-' !in k {
      LastIndexAfter(h, '-', k);
      assert r[|h| + 1..] == k;
    }
  }

  /**
   * `parseId` inverts `getId` for a non-negative dex id and asset ids free of
   * the separator.
   */
  lemma ParseGetId(dexId: nat, baseAssetId: string, quoteAssetId: string)
    requires '-' !in baseAssetId && '-' !in quoteAssetId
    ensures ParseId(GetId(Finite(dexId), baseAssetId, quoteAssetId))
            == ParsedId(Finite(dexId), Some(baseAssetId), Some(quoteAssetId))
  {
    var parts := [NatToString(dexId), baseAssetId, quoteAssetId];
    assert NumberToString(Finite(dexId)) == NatToString(dexId);
    SplitJoin(parts, '-');
    DigitsValueOfNat(dexId);
  }

  /** Hence `getId` is injective on such triples: one order book per pair and dex. */
  lemma GetIdInjective(d1: nat, b1: string, q1: string, d2: nat, b2: string, q2: string)
    requires '-' !in b1 && '-' !in q1 && '-' !in b2 && '-' !in q2
    requires GetId(Finite(d1), b1, q1) == GetId(Finite(d2), b2, q2)
    ensures d1 == d2 && b1 == b2 && q1 == q2
  {
    ParseGetId(d1, b1, q1);
    ParseGetId(d2, b2, q2);
  }

  /** The order id is recovered after the last `'_'` when it contains none. */
  lemma GetOrderIdInjective(o1: string, x1: string, o2: string, x2: string)
    requires '_' !in x1 && '_' !in x2
    requires GetOrderId(o1, x1) == GetOrderId(o2, x2)
    ensures o1 == o2 && x1 == x2
  {
    assert [o1, x1][1..] == [x1] && [o2, x2][1..] == [x2];
    assert Join([x1], "_") == x1 && Join([x2], "_") == x2;
    assert GetOrderId(o1, x1) == o1 + ['_'] + x1;
    assert GetOrderId(o2, x2) == o2 + ['_'] + x2;
    LastSeparator(o1, x1, o2, x2, '_');
  }

  /**
   * Exactly one snapshot id per (order book, resolution, bucket index): the
   * snapshot id determines all three, whatever the order-book id contains.
   */
  lemma SnapshotIdInjective(o1: string, t1: SnapshotType, i1: nat, o2: string, t2: SnapshotType, i2: nat)
    requires SnapshotId(o1, t1, i1) == SnapshotId(o2, t2, i2)
    ensures o1 == o2 && t1 == t2 && i1 == i2
  {
    SnapshotIdParts(o1, t1, i1);
    SnapshotIdParts(o2, t2, i2);
    var n1, n2 := TypeName(t1), TypeName(t2);
    LastSeparator(o1 + "-" + n1, IntToString(i1), o2 + "-" + n2, IntToString(i2), '-');
    LastSeparator(o1, n1, o2, n2, '-');
    NatToStringInjective(i1, i2);
  }

  /** A snapshot id is the order-book id, the resolution and the index, in that order, joined by `'-'`. */
  lemma SnapshotIdParts(o: string, t: SnapshotType, i: nat)
    ensures SnapshotId(o, t, i) == (o + "-" + TypeName(t)) + ['-'] + IntToString(i)
    ensures '-' !in TypeName(t) && '-' !in IntToString(i)
  {
    var n, s := TypeName(t), IntToString(i);
    assert [o, n, s][1..] == [n, s] && [n, s][1..] == [s];
    assert Join([n, s], "-") == n + "-" + s;
  }
}
