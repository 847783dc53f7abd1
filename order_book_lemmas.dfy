/**
 * What the order-book engine guarantees, stated over the functions of module
 * OrderBookModel (which the storage classes are proved to implement).
 */
module OrderBookLemmas {
  import opened Wrappers
  import opened JsMaps
  import opened OrderBookIds
  import opened OrderBookModel

  // ---------------------------------------------------------------------------
  // calcVolume

  /** The total over a concatenation is the sum of the totals. */
  lemma {:induction false} CalcVolumeAppend(a: seq<Snapshot>, b: seq<Snapshot>)
    ensures CalcVolume(a + b) == CalcVolume(a) + CalcVolume(b)
    decreases |b|
  {
    if |b| == 0 {
      assert a + b == a;
    } else {
      var c := a + b;
      assert c[..|c| - 1] == a + b[..|b| - 1];
      assert c[|c| - 1] == b[|b| - 1];
      CalcVolumeAppend(a, b[..|b| - 1]);
    }
  }

  // ---------------------------------------------------------------------------
  // lastDeals

  /** The deals of a book after the given deals, oldest first, were pushed one by one. */
  function PushDeals(deals: seq<Deal>, incoming: seq<Deal>): seq<Deal>
    decreases |incoming|
  {
    if |incoming| == 0 then deals else PushDeals(PushDeal(deals, incoming[0]), incoming[1..])
  }

  function Reverse<T>(s: seq<T>): (r: seq<T>)
    ensures |r| == |s|
    ensures forall i :: 0 <= i < |s| ==> r[i] == s[|s| - 1 - i]
  {
    if |s| == 0 then [] else Reverse(s[1..]) + [s[0]]
  }

  lemma PrefixOfPrefix<T>(r: seq<T>, x: seq<T>, m: nat, n: nat)
    requires m <= |x| && n <= |r| + m
    ensures (r + x[..m])[..n] == (r + x)[..n]
  {
  }

  /**
   * `lastDeals` is the newest deals first, at most 20 of them: after any
   * series of deals, the book holds the series reversed followed by what it
   * held before, cut to 20.
   */
  lemma {:induction false} PushDealsNewestFirst(deals: seq<Deal>, incoming: seq<Deal>)
    requires |deals| <= LAST_DEALS_LENGTH
    ensures PushDeals(deals, incoming)
            == (Reverse(incoming) + deals)[..Min(|incoming| + |deals|, LAST_DEALS_LENGTH)]
    decreases |incoming|
  {
    if |incoming| > 0 {
      var d0 := incoming[0];
      var pushed := PushDeal(deals, d0);
      var m1 := Min(|deals| + 1, LAST_DEALS_LENGTH);
      PushDealsNewestFirst(pushed, incoming[1..]);
      var rest := Reverse(incoming[1..]);
      assert Reverse(incoming) == rest + [d0];
      assert pushed == ([d0] + deals)[..m1];
      PrefixOfPrefix(rest, [d0] + deals, m1, Min(|incoming| - 1 + m1, LAST_DEALS_LENGTH));
      assert rest + ([d0] + deals) == (rest + [d0]) + deals;
    }
  }

  /** Hence a book never holds more than 20 deals, whatever it was sent. */
  lemma LastDealsBounded(deals: seq<Deal>, incoming: seq<Deal>)
    requires |deals| <= LAST_DEALS_LENGTH
    ensures |PushDeals(deals, incoming)| <= LAST_DEALS_LENGTH
    ensures |incoming| > 0 ==> |PushDeals(deals, incoming)| > 0
    ensures |incoming| > 0 ==> PushDeals(deals, incoming)[0] == incoming[|incoming| - 1]
  {
    PushDealsNewestFirst(deals, incoming);
  }

  // ---------------------------------------------------------------------------
  // Volumes and OHLC of one snapshot over a series of deals

  /** A deal as a snapshot sees it: price, base amount, USD price of the quote asset. */
  datatype Fill = Fill(price: real, amount: real, quotePriceUSD: real)

  /** A snapshot after the given deals, in order. */
  function ApplyFills(s: Snapshot, fills: seq<Fill>): Snapshot
    decreases |fills|
  {
    if |fills| == 0 then s
    else ApplyFills(AccumulateDeal(s, fills[0].price, fills[0].amount, fills[0].quotePriceUSD), fills[1..])
  }

  function SumBase(fills: seq<Fill>): real
  {
    if |fills| == 0 then 0.0 else fills[0].amount + SumBase(fills[1..])
  }

  function SumQuote(fills: seq<Fill>): real
  {
    if |fills| == 0 then 0.0 else fills[0].amount * fills[0].price + SumQuote(fills[1..])
  }

  function SumUSD(fills: seq<Fill>): real
  {
    if |fills| == 0 then 0.0
    else fills[0].amount * fills[0].price * fills[0].quotePriceUSD + SumUSD(fills[1..])
  }

  /** The base volume is the running sum of the deals' amounts. */
  lemma {:induction false} FillsBaseVolume(s: Snapshot, fills: seq<Fill>)
    ensures ApplyFills(s, fills).baseAssetVolume == s.baseAssetVolume + SumBase(fills)
    decreases |fills|
  {
    if |fills| > 0 {
      var f := fills[0];
      FillsBaseVolume(AccumulateDeal(s, f.price, f.amount, f.quotePriceUSD), fills[1..]);
    }
  }

  /** The quote volume is the running sum of amount times price. */
  lemma {:induction false} FillsQuoteVolume(s: Snapshot, fills: seq<Fill>)
    ensures ApplyFills(s, fills).quoteAssetVolume == s.quoteAssetVolume + SumQuote(fills)
    decreases |fills|
  {
    if |fills| > 0 {
      var f := fills[0];
      var s1 := AccumulateDeal(s, f.price, f.amount, f.quotePriceUSD);
      var q := f.amount * f.price;
      assert s1.quoteAssetVolume == s.quoteAssetVolume + q;
      assert SumQuote(fills) == q + SumQuote(fills[1..]);
      FillsQuoteVolume(s1, fills[1..]);
      assert ApplyFills(s, fills) == ApplyFills(s1, fills[1..]);
    }
  }

  /** The USD volume is the running sum of amount times price times the quote asset's USD price. */
  lemma {:induction false} FillsUSDVolume(s: Snapshot, fills: seq<Fill>)
    ensures ApplyFills(s, fills).volumeUSD == s.volumeUSD + SumUSD(fills)
    decreases |fills|
  {
    if |fills| > 0 {
      var f := fills[0];
      var s1 := AccumulateDeal(s, f.price, f.amount, f.quotePriceUSD);
      var u := f.amount * f.price * f.quotePriceUSD;
      assert s1.volumeUSD == s.volumeUSD + u;
      assert SumUSD(fills) == u + SumUSD(fills[1..]);
      FillsUSDVolume(s1, fills[1..]);
      assert ApplyFills(s, fills) == ApplyFills(s1, fills[1..]);
    }
  }

  /** Nothing but the volumes and the OHLC record changes; `liquidityUSD` in particular is kept. */
  lemma {:induction false} FillsKeepOtherFields(s: Snapshot, fills: seq<Fill>)
    ensures ApplyFills(s, fills).(baseAssetVolume := s.baseAssetVolume, quoteAssetVolume := s.quoteAssetVolume,
                                  volumeUSD := s.volumeUSD, price := s.price) == s
    decreases |fills|
  {
    if |fills| > 0 {
      var f := fills[0];
      FillsKeepOtherFields(AccumulateDeal(s, f.price, f.amount, f.quotePriceUSD), fills[1..]);
    }
  }

  /**
   * After a series of deals at positive prices the OHLC record is well formed,
   * `close` is the last price, every price lies within `[low, high]`, and
   * `open` is the first price when the record started at 0.
   */
  lemma {:induction false} FillsOhlc(s: Snapshot, fills: seq<Fill>)
    requires |fills| > 0
    requires forall i :: 0 <= i < |fills| ==> fills[i].price > 0.0
    requires OhlcValid(s.price) || s.price.open == 0.0
    ensures var o := ApplyFills(s, fills).price;
            && OhlcValid(o)
            && o.close == fills[|fills| - 1].price
            && (forall i :: 0 <= i < |fills| ==> o.low <= fills[i].price <= o.high)
            && o.open == (if s.price.open == 0.0 then fills[0].price else s.price.open)
            && (s.price.open != 0.0 ==> o.low <= s.price.low && s.price.high <= o.high)
    decreases |fills|
  {
    var f := fills[0];
    var s1 := AccumulateDeal(s, f.price, f.amount, f.quotePriceUSD);
    if |fills| > 1 {
      FillsOhlc(s1, fills[1..]);
      var o := ApplyFills(s, fills).price;
      assert o == ApplyFills(s1, fills[1..]).price;
      forall i | 0 <= i < |fills|
        ensures o.low <= fills[i].price <= o.high
      {
        if i > 0 {
          assert fills[i] == fills[1..][i - 1];
        }
      }
    }
  }

  // ---------------------------------------------------------------------------
  // Account resolver

  /** The mappings a series of technical-account entries contributes, later entries overriding earlier ones. */
  function Mappings(env: Env, entries: seq<TechEntry>): map<Address, string>
    decreases |entries|
  {
    if |entries| == 0 then map[]
    else
      var rest := Mappings(env, entries[1..]);
      match KeeperMapping(env, entries[0])
      case Some((address, orderBookId)) => map[address := orderBookId] + rest
      case None => rest
  }

  /** Every mapping comes from an order-book-liquidity-keeper entry whose asset ids resolve. */
  lemma {:induction false} MappingsFromKeepers(env: Env, entries: seq<TechEntry>)
    ensures forall a :: a in Mappings(env, entries) ==>
              exists i :: 0 <= i < |entries| && KeeperMapping(env, entries[i]) == Some((a, Mappings(env, entries)[a]))
    decreases |entries|
  {
    if |entries| > 0 {
      MappingsFromKeepers(env, entries[1..]);
      var rest := Mappings(env, entries[1..]);
      forall a | a in Mappings(env, entries)
        ensures exists i :: 0 <= i < |entries| && KeeperMapping(env, entries[i]) == Some((a, Mappings(env, entries)[a]))
      {
        if a in rest {
          var i :| 0 <= i < |entries[1..]| && KeeperMapping(env, entries[1..][i]) == Some((a, rest[a]));
          assert entries[i + 1] == entries[1..][i];
        } else {
          assert KeeperMapping(env, entries[0]) == Some((a, Mappings(env, entries)[a]));
        }
      }
    }
  }

  /** Whether a scan throws does not depend on the index it starts from. */
  lemma {:induction false} ScanOutcome(env: Env, a1: JsMap<Address, string>, a2: JsMap<Address, string>, entries: seq<TechEntry>)
    ensures ScanAccounts(env, a1, entries).1 == ScanAccounts(env, a2, entries).1
    decreases |entries|
  {
    if |entries| > 0 {
      var e := entries[0];
      if e.techAccountId.Some? {
        match e.techAccountId.value
        case Pure(dexId, OrderBookLiquidityKeeper(baseTech, targetTech)) =>
          var quote := GetAssetIdFromTech(env, baseTech);
          var base := GetAssetIdFromTech(env, targetTech);
          if quote.Ok? && base.Ok? {
            var k := env.toAddress(e.accountId);
            var v := GetId(Finite(dexId), base.value, quote.value);
            ScanOutcome(env, a1.Set(k, v), a2.Set(k, v), entries[1..]);
          }
        case _ =>
          ScanOutcome(env, a1, a2, entries[1..]);
      }
    }
  }

  /** A scan that gets past its first entry goes on with that entry's mapping, if any, set. */
  lemma ScanStep(env: Env, accountIds: JsMap<Address, string>, entries: seq<TechEntry>)
    requires |entries| > 0 && ScanAccounts(env, accountIds, entries).1.Pass?
    ensures var m := KeeperMapping(env, entries[0]);
            ScanAccounts(env, accountIds, entries)
            == if m.Some? then ScanAccounts(env, accountIds.Set(m.value.0, m.value.1), entries[1..])
               else ScanAccounts(env, accountIds, entries[1..])
    ensures var m := KeeperMapping(env, entries[0]);
            Mappings(env, entries) == if m.Some? then map[m.value.0 := m.value.1] + Mappings(env, entries[1..])
                                      else Mappings(env, entries[1..])
  {
  }

  lemma UpdateUnion<K, V>(m: map<K, V>, k: K, v: V, rest: map<K, V>)
    ensures m[k := v] + rest == m + (map[k := v] + rest)
  {
  }

  /** A scan that completes leaves the index overridden by the entries' mappings. */
  lemma {:induction false} ScanMaps(env: Env, accountIds: JsMap<Address, string>, entries: seq<TechEntry>)
    requires ScanAccounts(env, accountIds, entries).1.Pass?
    ensures ScanAccounts(env, accountIds, entries).0.m == accountIds.m + Mappings(env, entries)
    decreases |entries|
  {
    if |entries| == 0 {
      assert accountIds.m + map[] == accountIds.m;
    } else {
      ScanStep(env, accountIds, entries);
      var m := KeeperMapping(env, entries[0]);
      var rest := Mappings(env, entries[1..]);
      if m.Some? {
        var (k, v) := m.value;
        ScanMaps(env, accountIds.Set(k, v), entries[1..]);
        UpdateUnion(accountIds.m, k, v, rest);
      } else {
        ScanMaps(env, accountIds, entries[1..]);
      }
    }
  }

  /** A scan whose every mapping is already a key keeps the key order. */
  lemma {:induction false} ScanKeepsKeys(env: Env, accountIds: JsMap<Address, string>, entries: seq<TechEntry>)
    requires ScanAccounts(env, accountIds, entries).1.Pass?
    requires forall a :: a in Mappings(env, entries) ==> a in accountIds.m
    ensures ScanAccounts(env, accountIds, entries).0.keys == accountIds.keys
    decreases |entries|
  {
    if |entries| > 0 {
      var e := entries[0];
      match e.techAccountId.value
      case Pure(dexId, OrderBookLiquidityKeeper(baseTech, targetTech)) =>
        var quote := GetAssetIdFromTech(env, baseTech);
        var base := GetAssetIdFromTech(env, targetTech);
        var k := env.toAddress(e.accountId);
        var v := GetId(Finite(dexId), base.value, quote.value);
        assert k in Mappings(env, entries);
        ScanKeepsKeys(env, accountIds.Set(k, v), entries[1..]);
      case _ =>
        ScanKeepsKeys(env, accountIds, entries[1..]);
    }
  }

  /**
   * Rebuilding the index a second time changes nothing: the one rebuild that
   * `getAccountId` allows itself on a miss already yields everything the
   * technical accounts say.
   */
  lemma RebuildIdempotent(env: Env, ctx: BlockContext, accountIds: JsMap<Address, string>)
    requires accountIds.Valid()
    requires UpdateAccountIds(env, ctx, accountIds).1.Pass?
    ensures var rebuilt := UpdateAccountIds(env, ctx, accountIds).0;
            UpdateAccountIds(env, ctx, rebuilt) == (rebuilt, Pass)
  {
    if ctx.techAccounts.Some? {
      var entries := ctx.techAccounts.value;
      var rebuilt := ScanAccounts(env, accountIds, entries).0;
      ScanMaps(env, accountIds, entries);
      ScanOutcome(env, rebuilt, accountIds, entries);
      ScanKeepsKeys(env, rebuilt, entries);
      ScanMaps(env, rebuilt, entries);
      var mappings := Mappings(env, entries);
      UnionTwice(accountIds.m, mappings);
    }
  }

  /** Merging the same entries a second time adds nothing. */
  lemma UnionTwice<K, V>(m: map<K, V>, w: map<K, V>)
    ensures (m + w) + w == m + w
  {
  }

  /** `getAccountId` answers null only when no account of the index maps to the order book. */
  lemma ResolveAbsent(env: Env, ctx: BlockContext, accountIds: JsMap<Address, string>, orderBookId: string)
    requires accountIds.Valid()
    ensures var r := ResolveAccount(env, ctx, accountIds, orderBookId);
            r.1 == Ok(None) ==> forall a :: a in r.0.m ==> r.0.m[a] != orderBookId
  {
    var r := ResolveAccount(env, ctx, accountIds, orderBookId);
    if r.1 == Ok(None) {
      var index := r.0;
      assert FindIn(index.Entries(), orderBookId).None?;
      forall a | a in index.m
        ensures index.m[a] != orderBookId
      {
        var i :| 0 <= i < |index.keys| && index.keys[i] == a;
        assert index.Entries()[i].1 == index.m[a];
      }
    }
  }

  // ---------------------------------------------------------------------------
  // Order-book cache

  /** A cache hit returns the cached book and changes nothing. */
  lemma FetchBookCached(env: Env, ctx: BlockContext, s: BookState, id: string)
    requires s.Valid() && id in s.cache.m
    ensures FetchBook(env, ctx, s, id) == BookStep(Ok(s.cache.m[id]), s)
  {
  }

  /** A book found in the store is cached, and nothing else changes. */
  lemma FetchBookStored(env: Env, ctx: BlockContext, s: BookState, id: string)
    requires s.Valid() && id !in s.cache.m && id in s.stored
    ensures FetchBook(env, ctx, s, id) == BookStep(Ok(s.stored[id]), s.(cache := s.cache.Set(id, s.stored[id])))
  {
  }

  /**
   * A book found nowhere is created after one account lookup: id as given,
   * status `Trade`, no reserves, the current height, written to the store
   * at once and cached. A failing lookup throws before anything is created.
   */
  lemma FetchBookCreates(env: Env, ctx: BlockContext, s: BookState, id: string)
    requires s.Valid() && id !in s.cache.m && id !in s.stored
    ensures var r := FetchBook(env, ctx, s, id);
            var account := ResolveAccount(env, ctx, s.accountIds, id);
            && r.state.accountIds == account.0
            && (account.1.Err? ==> r == BookStep(Err(account.1.error), s.(accountIds := account.0)))
            && (account.1.Ok? ==>
                  var book := NewOrderBook(id, ctx.height);
                  && r.result == Ok(book)
                  && book.status == Trade && book.baseAssetReserves == 0 && book.quoteAssetReserves == 0
                  && book.updatedAtBlock == ctx.height
                  && r.state.stored == s.stored[id := book]
                  && r.state.cache == s.cache.Set(id, book))
  {
  }

  /** `getOrderBookByAccountId` on an unmapped account answers null without any lookup. */
  lemma FetchBookByAccountUnmapped(env: Env, ctx: BlockContext, s: BookState, accountId: Address)
    requires s.Valid() && !Truthy(s.accountIds.Get(accountId))
    ensures FetchBookByAccount(env, ctx, s, accountId) == BookStep(Ok(None), s)
  {
  }

  /**
   * The book-level `updateDeal`: the book of the pair gets the deal's price,
   * the deal pushed in front of its last deals (20 at most) and the current
   * height; the rest of the book is as fetched.
   */
  lemma BookDealUpdatesBook(env: Env, ctx: BlockContext, s: BookState, dexId: JsNumber, baseAssetId: AssetId,
                            quoteAssetId: AssetId, orderId: int, price: real, amount: real, isBuy: bool)
    requires s.Valid()
    ensures var id := GetId(dexId, baseAssetId, quoteAssetId);
            var fetched := FetchBook(env, ctx, s, id);
            var r := BookDeal(env, ctx, s, dexId, baseAssetId, quoteAssetId, orderId, price, amount, isBuy);
            && (r.result.Pass? <==> fetched.result.Ok?)
            && (r.result.Pass? ==>
                  var before := fetched.result.value;
                  var deal := Deal(orderId, ctx.timestamp, isBuy, amount, price);
                  && id in r.state.cache.m
                  && var after := r.state.cache.m[id];
                  && after.price == Some(price)
                  && after.lastDeals == PushDeal(before.lastDeals, deal)
                  && |after.lastDeals| <= LAST_DEALS_LENGTH && after.lastDeals[0] == deal
                  && after.updatedAtBlock == ctx.height
                  && after.(price := before.price, lastDeals := before.lastDeals,
                            updatedAtBlock := before.updatedAtBlock) == before)
  {
  }

  // ---------------------------------------------------------------------------
  // Snapshot cache

  /**
   * The snapshot `getSnapshot` hands back for resolution `t` without
   * throwing, if there is one: the cached one, else the stored one, else a
   * new one seeded from the price the book of the pair has now, the cached
   * book or else the stored one.
   */
  function Seed(env: Env, ctx: BlockContext, s: SnapState, dexId: JsNumber, baseAssetId: AssetId,
                quoteAssetId: AssetId, t: SnapshotType): Option<Snapshot>
  {
    var id := CurrentSnapshotId(env, ctx, dexId, baseAssetId, quoteAssetId, t);
    var orderBookId := GetId(dexId, baseAssetId, quoteAssetId);
    var bucket := env.bucketOf(ctx.timestamp, t);
    if id in s.cache then Some(s.cache[id])
    else if id in s.stored then Some(s.stored[id])
    else if orderBookId in s.books.cache.m then
      if s.books.cache.m[orderBookId].price.Some? then
        Some(NewSnapshot(id, orderBookId, bucket, t, s.books.cache.m[orderBookId].price.value))
      else None
    else if orderBookId in s.books.stored && s.books.stored[orderBookId].price.Some? then
      Some(NewSnapshot(id, orderBookId, bucket, t, s.books.stored[orderBookId].price.value))
    else None
  }

  /**
   * The book side once the pair's book has been loaded from the store into
   * the cache, as `getOrderBookById` does on a cache miss.
   */
  function LoadBook(b: BookState, orderBookId: string): (r: BookState)
    ensures b.Valid() ==> r.Valid()
    ensures r.stored == b.stored && r.accountIds == b.accountIds
    ensures orderBookId in b.cache.m || orderBookId in b.stored ==> orderBookId in r.cache.m
    ensures orderBookId !in b.cache.m && orderBookId in b.stored ==> r.cache.m[orderBookId] == b.stored[orderBookId]
  {
    if orderBookId !in b.cache.m && orderBookId in b.stored then
      b.(cache := b.cache.Set(orderBookId, b.stored[orderBookId]))
    else b
  }

  /** The snapshot side with the pair's book loaded; the snapshots are untouched. */
  function Loaded(s: SnapState, orderBookId: string): (r: SnapState)
    ensures s.Valid() ==> r.Valid()
    ensures r.cache == s.cache && r.stored == s.stored && r.books == LoadBook(s.books, orderBookId)
  {
    s.(books := LoadBook(s.books, orderBookId))
  }

  /** The pair's book is cached, or there is none in the store to load. */
  predicate BookSettled(b: BookState, orderBookId: string) {
    orderBookId in b.cache.m || orderBookId !in b.stored
  }

  /** Fetching a book answers the same, and leaves the same state, whether or not it was loaded beforehand. */
  lemma FetchBookLoaded(env: Env, ctx: BlockContext, b: BookState, id: string)
    requires b.Valid()
    ensures FetchBook(env, ctx, b, id) == FetchBook(env, ctx, LoadBook(b, id), id)
  {
    if id !in b.cache.m && id in b.stored {
      FetchBookStored(env, ctx, b, id);
      FetchBookCached(env, ctx, LoadBook(b, id), id);
    }
  }

  /** The book-level `updateDeal` does not depend on whether the pair's book was loaded beforehand. */
  lemma BookDealLoaded(env: Env, ctx: BlockContext, b: BookState, dexId: JsNumber, baseAssetId: AssetId,
                       quoteAssetId: AssetId, orderId: int, price: real, amount: real, isBuy: bool)
    requires b.Valid()
    ensures BookDeal(env, ctx, b, dexId, baseAssetId, quoteAssetId, orderId, price, amount, isBuy)
            == BookDeal(env, ctx, LoadBook(b, GetId(dexId, baseAssetId, quoteAssetId)), dexId, baseAssetId,
                        quoteAssetId, orderId, price, amount, isBuy)
  {
    FetchBookLoaded(env, ctx, b, GetId(dexId, baseAssetId, quoteAssetId));
  }

  /**
   * `getSnapshot` answers the same whether or not the pair's book was loaded
   * beforehand, and the states agree once the book is loaded.
   */
  lemma FetchSnapshotLoaded(env: Env, ctx: BlockContext, s: SnapState, dexId: JsNumber, baseAssetId: AssetId,
                            quoteAssetId: AssetId, t: SnapshotType)
    requires s.Valid()
    ensures var o := GetId(dexId, baseAssetId, quoteAssetId);
            var r1 := FetchSnapshot(env, ctx, s, dexId, baseAssetId, quoteAssetId, t);
            var r2 := FetchSnapshot(env, ctx, Loaded(s, o), dexId, baseAssetId, quoteAssetId, t);
            r1.result == r2.result && Loaded(r1.state, o) == r2.state
  {
    var id := CurrentSnapshotId(env, ctx, dexId, baseAssetId, quoteAssetId, t);
    if id !in s.cache && id !in s.stored {
      FetchSnapshotMissLoaded(env, ctx, s, dexId, baseAssetId, quoteAssetId, t);
    }
  }

  /** The case of `FetchSnapshotLoaded` where the snapshot must be made from the pair's book. */
  lemma FetchSnapshotMissLoaded(env: Env, ctx: BlockContext, s: SnapState, dexId: JsNumber, baseAssetId: AssetId,
                                quoteAssetId: AssetId, t: SnapshotType)
    requires s.Valid()
    requires var id := CurrentSnapshotId(env, ctx, dexId, baseAssetId, quoteAssetId, t);
             id !in s.cache && id !in s.stored
    ensures var o := GetId(dexId, baseAssetId, quoteAssetId);
            var r1 := FetchSnapshot(env, ctx, s, dexId, baseAssetId, quoteAssetId, t);
            var r2 := FetchSnapshot(env, ctx, Loaded(s, o), dexId, baseAssetId, quoteAssetId, t);
            r1.result == r2.result && Loaded(r1.state, o) == r2.state
  {
    var o := GetId(dexId, baseAssetId, quoteAssetId);
    FetchBookLoaded(env, ctx, s.books, o);
    FetchBookSettles(env, ctx, s.books, o);
    FetchSnapshotSameFetch(env, ctx, s, LoadBook(s.books, o), dexId, baseAssetId, quoteAssetId, t);
    FetchSnapshotMissBooks(env, ctx, s, dexId, baseAssetId, quoteAssetId, t);
  }

  /** A snapshot made from the book sees the book side only through the fetch of the pair's book. */
  lemma FetchSnapshotSameFetch(env: Env, ctx: BlockContext, s: SnapState, b: BookState, dexId: JsNumber,
                               baseAssetId: AssetId, quoteAssetId: AssetId, t: SnapshotType)
    requires s.Valid() && b.Valid()
    requires var id := CurrentSnapshotId(env, ctx, dexId, baseAssetId, quoteAssetId, t);
             id !in s.cache && id !in s.stored
    requires var o := GetId(dexId, baseAssetId, quoteAssetId);
             FetchBook(env, ctx, b, o) == FetchBook(env, ctx, s.books, o)
    ensures FetchSnapshot(env, ctx, s.(books := b), dexId, baseAssetId, quoteAssetId, t)
            == FetchSnapshot(env, ctx, s, dexId, baseAssetId, quoteAssetId, t)
  {
  }

  /** When the snapshot is made from the book, the book side afterwards is the one the book fetch leaves. */
  lemma FetchSnapshotMissBooks(env: Env, ctx: BlockContext, s: SnapState, dexId: JsNumber,
                               baseAssetId: AssetId, quoteAssetId: AssetId, t: SnapshotType)
    requires s.Valid()
    requires var id := CurrentSnapshotId(env, ctx, dexId, baseAssetId, quoteAssetId, t);
             id !in s.cache && id !in s.stored
    ensures FetchSnapshot(env, ctx, s, dexId, baseAssetId, quoteAssetId, t).state.books
            == FetchBook(env, ctx, s.books, GetId(dexId, baseAssetId, quoteAssetId)).state
  {
  }

  /** After a fetch, loading the fetched book from the store changes nothing. */
  lemma FetchBookSettles(env: Env, ctx: BlockContext, b: BookState, id: string)
    requires b.Valid()
    ensures LoadBook(FetchBook(env, ctx, b, id).state, id) == FetchBook(env, ctx, b, id).state
  {
    var step := FetchBook(env, ctx, b, id);
    if step.result.Err? {
      assert id !in b.cache.m && id !in b.stored;
      assert step.state.cache == b.cache && step.state.stored == b.stored;
    }
  }

  /** One deal update of a snapshot, with and without the pair's book loaded beforehand. */
  lemma DealIntoLoaded(env: Env, ctx: BlockContext, s: SnapState, dexId: JsNumber, baseAssetId: AssetId,
                       quoteAssetId: AssetId, price: real, amount: real, quotePriceUSD: real, t: SnapshotType)
    requires s.Valid()
    ensures var o := GetId(dexId, baseAssetId, quoteAssetId);
            var r1 := DealInto(env, ctx, s, dexId, baseAssetId, quoteAssetId, price, amount, quotePriceUSD, t);
            var r2 := DealInto(env, ctx, Loaded(s, o), dexId, baseAssetId, quoteAssetId, price, amount, quotePriceUSD, t);
            r1.result == r2.result && Loaded(r1.state, o) == r2.state
  {
    FetchSnapshotLoaded(env, ctx, s, dexId, baseAssetId, quoteAssetId, t);
  }

  /** One liquidity update of a snapshot, with and without the pair's book loaded beforehand. */
  lemma LiquidityIntoLoaded(env: Env, ctx: BlockContext, s: SnapState, dexId: JsNumber, baseAssetId: AssetId,
                            quoteAssetId: AssetId, liquidityUSD: real, t: SnapshotType)
    requires s.Valid()
    ensures var o := GetId(dexId, baseAssetId, quoteAssetId);
            var r1 := LiquidityInto(env, ctx, s, dexId, baseAssetId, quoteAssetId, liquidityUSD, t);
            var r2 := LiquidityInto(env, ctx, Loaded(s, o), dexId, baseAssetId, quoteAssetId, liquidityUSD, t);
            r1.result == r2.result && Loaded(r1.state, o) == r2.state
  {
    FetchSnapshotLoaded(env, ctx, s, dexId, baseAssetId, quoteAssetId, t);
  }

  /** The deal loop, with and without the pair's book loaded beforehand. */
  lemma {:induction false} DealSnapshotsLoaded(env: Env, ctx: BlockContext, s: SnapState, dexId: JsNumber,
                                               baseAssetId: AssetId, quoteAssetId: AssetId, price: real, amount: real,
                                               quotePriceUSD: real, types: seq<SnapshotType>)
    requires s.Valid()
    ensures var o := GetId(dexId, baseAssetId, quoteAssetId);
            var r1 := DealSnapshots(env, ctx, s, dexId, baseAssetId, quoteAssetId, price, amount, quotePriceUSD, types);
            var r2 := DealSnapshots(env, ctx, Loaded(s, o), dexId, baseAssetId, quoteAssetId, price, amount,
                                    quotePriceUSD, types);
            r1.result == r2.result && Loaded(r1.state, o) == r2.state
    decreases |types|
  {
    if |types| > 0 {
      var o := GetId(dexId, baseAssetId, quoteAssetId);
      DealIntoLoaded(env, ctx, s, dexId, baseAssetId, quoteAssetId, price, amount, quotePriceUSD, types[0]);
      var step1 := DealInto(env, ctx, s, dexId, baseAssetId, quoteAssetId, price, amount, quotePriceUSD, types[0]);
      var step2 := DealInto(env, ctx, Loaded(s, o), dexId, baseAssetId, quoteAssetId, price, amount, quotePriceUSD,
                            types[0]);
      assert step1.result == step2.result && Loaded(step1.state, o) == step2.state;
      if step1.result.Pass? {
        DealSnapshotsLoaded(env, ctx, step1.state, dexId, baseAssetId, quoteAssetId, price, amount, quotePriceUSD,
                            types[1..]);
        assert DealSnapshots(env, ctx, s, dexId, baseAssetId, quoteAssetId, price, amount, quotePriceUSD, types)
            == DealSnapshots(env, ctx, step1.state, dexId, baseAssetId, quoteAssetId, price, amount, quotePriceUSD,
                             types[1..]);
        assert DealSnapshots(env, ctx, Loaded(s, o), dexId, baseAssetId, quoteAssetId, price, amount, quotePriceUSD,
                             types)
            == DealSnapshots(env, ctx, step2.state, dexId, baseAssetId, quoteAssetId, price, amount, quotePriceUSD,
                             types[1..]);
      }
    }
  }

  /** The liquidity loop, with and without the pair's book loaded beforehand. */
  lemma {:induction false} LiquiditySnapshotsLoaded(env: Env, ctx: BlockContext, s: SnapState, dexId: JsNumber,
                                                    baseAssetId: AssetId, quoteAssetId: AssetId, liquidityUSD: real,
                                                    types: seq<SnapshotType>)
    requires s.Valid()
    ensures var o := GetId(dexId, baseAssetId, quoteAssetId);
            var r1 := LiquiditySnapshots(env, ctx, s, dexId, baseAssetId, quoteAssetId, liquidityUSD, types);
            var r2 := LiquiditySnapshots(env, ctx, Loaded(s, o), dexId, baseAssetId, quoteAssetId, liquidityUSD, types);
            r1.result == r2.result && Loaded(r1.state, o) == r2.state
    decreases |types|
  {
    if |types| > 0 {
      var o := GetId(dexId, baseAssetId, quoteAssetId);
      LiquidityIntoLoaded(env, ctx, s, dexId, baseAssetId, quoteAssetId, liquidityUSD, types[0]);
      var step1 := LiquidityInto(env, ctx, s, dexId, baseAssetId, quoteAssetId, liquidityUSD, types[0]);
      var step2 := LiquidityInto(env, ctx, Loaded(s, o), dexId, baseAssetId, quoteAssetId, liquidityUSD, types[0]);
      assert step1.result == step2.result && Loaded(step1.state, o) == step2.state;
      if step1.result.Pass? {
        LiquiditySnapshotsLoaded(env, ctx, step1.state, dexId, baseAssetId, quoteAssetId, liquidityUSD, types[1..]);
        assert LiquiditySnapshots(env, ctx, s, dexId, baseAssetId, quoteAssetId, liquidityUSD, types)
            == LiquiditySnapshots(env, ctx, step1.state, dexId, baseAssetId, quoteAssetId, liquidityUSD, types[1..]);
        assert LiquiditySnapshots(env, ctx, Loaded(s, o), dexId, baseAssetId, quoteAssetId, liquidityUSD, types)
            == LiquiditySnapshots(env, ctx, step2.state, dexId, baseAssetId, quoteAssetId, liquidityUSD, types[1..]);
      }
    }
  }

  /** Loading the pair's book changes no seed. */
  lemma SeedLoaded(env: Env, ctx: BlockContext, s: SnapState, dexId: JsNumber, baseAssetId: AssetId,
                   quoteAssetId: AssetId, types: seq<SnapshotType>)
    requires s.Valid()
    ensures forall t :: t in types ==>
              Seed(env, ctx, Loaded(s, GetId(dexId, baseAssetId, quoteAssetId)), dexId, baseAssetId, quoteAssetId, t)
              == Seed(env, ctx, s, dexId, baseAssetId, quoteAssetId, t)
  {
  }

  lemma FetchSnapshotSeed(env: Env, ctx: BlockContext, s: SnapState, dexId: JsNumber, baseAssetId: AssetId,
                          quoteAssetId: AssetId, t: SnapshotType)
    requires s.Valid() && Seed(env, ctx, s, dexId, baseAssetId, quoteAssetId, t).Some?
    ensures var seed := Seed(env, ctx, s, dexId, baseAssetId, quoteAssetId, t).value;
            var id := CurrentSnapshotId(env, ctx, dexId, baseAssetId, quoteAssetId, t);
            var r := FetchSnapshot(env, ctx, s, dexId, baseAssetId, quoteAssetId, t);
            var o := GetId(dexId, baseAssetId, quoteAssetId);
            && seed.id == id
            && r.result == Ok(seed)
            && r.state.cache == s.cache[id := seed] && r.state.stored == s.stored
            && (r.state.books == s.books || r.state.books == LoadBook(s.books, o))
  {
    var id := CurrentSnapshotId(env, ctx, dexId, baseAssetId, quoteAssetId, t);
    var o := GetId(dexId, baseAssetId, quoteAssetId);
    if id in s.cache {
      assert s.cache[id := s.cache[id]] == s.cache;
    } else if id !in s.stored {
      FetchSnapshotSeedMiss(env, ctx, s, dexId, baseAssetId, quoteAssetId, t);
    }
  }

  /** The case of `FetchSnapshotSeed` where the snapshot is made from the pair's book. */
  lemma FetchSnapshotSeedMiss(env: Env, ctx: BlockContext, s: SnapState, dexId: JsNumber, baseAssetId: AssetId,
                              quoteAssetId: AssetId, t: SnapshotType)
    requires s.Valid() && Seed(env, ctx, s, dexId, baseAssetId, quoteAssetId, t).Some?
    requires var id := CurrentSnapshotId(env, ctx, dexId, baseAssetId, quoteAssetId, t);
             id !in s.cache && id !in s.stored
    ensures var seed := Seed(env, ctx, s, dexId, baseAssetId, quoteAssetId, t).value;
            var id := CurrentSnapshotId(env, ctx, dexId, baseAssetId, quoteAssetId, t);
            var r := FetchSnapshot(env, ctx, s, dexId, baseAssetId, quoteAssetId, t);
            var o := GetId(dexId, baseAssetId, quoteAssetId);
            && seed.id == id
            && r.result == Ok(seed)
            && r.state.cache == s.cache[id := seed]
            && (r.state.books == s.books || r.state.books == LoadBook(s.books, o))
  {
    var o := GetId(dexId, baseAssetId, quoteAssetId);
    FetchSnapshotMissBooks(env, ctx, s, dexId, baseAssetId, quoteAssetId, t);
    if o in s.books.cache.m {
      FetchBookCached(env, ctx, s.books, o);
    } else {
      FetchBookStored(env, ctx, s.books, o);
    }
  }

  /** Distinct resolutions of one pair have distinct current snapshot ids. */
  lemma CurrentIdsDistinct(env: Env, ctx: BlockContext, dexId: JsNumber, baseAssetId: AssetId,
                           quoteAssetId: AssetId, t1: SnapshotType, t2: SnapshotType)
    requires env.bucketOf(ctx.timestamp, t1).index >= 0 && env.bucketOf(ctx.timestamp, t2).index >= 0
    requires t1 != t2
    ensures CurrentSnapshotId(env, ctx, dexId, baseAssetId, quoteAssetId, t1)
            != CurrentSnapshotId(env, ctx, dexId, baseAssetId, quoteAssetId, t2)
  {
    var o := GetId(dexId, baseAssetId, quoteAssetId);
    if CurrentSnapshotId(env, ctx, dexId, baseAssetId, quoteAssetId, t1)
       == CurrentSnapshotId(env, ctx, dexId, baseAssetId, quoteAssetId, t2) {
      SnapshotIdInjective(o, t1, env.bucketOf(ctx.timestamp, t1).index, o, t2, env.bucketOf(ctx.timestamp, t2).index);
    }
  }

  /** Bucket indices are non-negative (block timestamps are after the epoch). */
  ghost predicate IndicesNatural(env: Env, ctx: BlockContext, types: seq<SnapshotType>) {
    forall t :: t in types ==> env.bucketOf(ctx.timestamp, t).index >= 0
  }

  ghost predicate Distinct(types: seq<SnapshotType>) {
    forall i, j :: 0 <= i < j < |types| ==> types[i] != types[j]
  }

  /** The current snapshot ids of a pair over the given resolutions. */
  function CurrentIds(env: Env, ctx: BlockContext, dexId: JsNumber, baseAssetId: AssetId, quoteAssetId: AssetId,
                      types: seq<SnapshotType>): set<string>
  {
    set t | t in types :: CurrentSnapshotId(env, ctx, dexId, baseAssetId, quoteAssetId, t)
  }

  /** Writing one current snapshot leaves the seeds of the other resolutions as they were. */
  lemma SeedsKept(env: Env, ctx: BlockContext, s: SnapState, dexId: JsNumber, baseAssetId: AssetId,
                  quoteAssetId: AssetId, t0: SnapshotType, written: Snapshot, types: seq<SnapshotType>)
    requires IndicesNatural(env, ctx, [t0] + types) && t0 !in types
    ensures var s1 := s.(cache := s.cache[CurrentSnapshotId(env, ctx, dexId, baseAssetId, quoteAssetId, t0) := written]);
            forall t :: t in types ==>
              Seed(env, ctx, s1, dexId, baseAssetId, quoteAssetId, t) == Seed(env, ctx, s, dexId, baseAssetId, quoteAssetId, t)
    ensures CurrentSnapshotId(env, ctx, dexId, baseAssetId, quoteAssetId, t0) !in CurrentIds(env, ctx, dexId, baseAssetId, quoteAssetId, types)
  {
    forall t | t in types
      ensures CurrentSnapshotId(env, ctx, dexId, baseAssetId, quoteAssetId, t)
              != CurrentSnapshotId(env, ctx, dexId, baseAssetId, quoteAssetId, t0)
    {
      CurrentIdsDistinct(env, ctx, dexId, baseAssetId, quoteAssetId, t, t0);
    }
  }

  /** One iteration of the deal loop, when the snapshot can be had and the pair's book is settled. */
  lemma DealSnapshotsStep(env: Env, ctx: BlockContext, s: SnapState, dexId: JsNumber, baseAssetId: AssetId,
                          quoteAssetId: AssetId, price: real, amount: real, quotePriceUSD: real, types: seq<SnapshotType>)
    requires s.Valid() && |types| > 0 && Seed(env, ctx, s, dexId, baseAssetId, quoteAssetId, types[0]).Some?
    requires BookSettled(s.books, GetId(dexId, baseAssetId, quoteAssetId))
    ensures var id0 := CurrentSnapshotId(env, ctx, dexId, baseAssetId, quoteAssetId, types[0]);
            var acc := AccumulateDeal(Seed(env, ctx, s, dexId, baseAssetId, quoteAssetId, types[0]).value,
                                      price, amount, quotePriceUSD);
            var s1 := s.(cache := s.cache[id0 := acc]);
            && s1.Valid()
            && DealSnapshots(env, ctx, s, dexId, baseAssetId, quoteAssetId, price, amount, quotePriceUSD, types)
               == DealSnapshots(env, ctx, s1, dexId, baseAssetId, quoteAssetId, price, amount, quotePriceUSD, types[1..])
  {
    var id0 := CurrentSnapshotId(env, ctx, dexId, baseAssetId, quoteAssetId, types[0]);
    var seed := Seed(env, ctx, s, dexId, baseAssetId, quoteAssetId, types[0]).value;
    FetchSnapshotSeed(env, ctx, s, dexId, baseAssetId, quoteAssetId, types[0]);
    assert s.cache[id0 := seed][id0 := AccumulateDeal(seed, price, amount, quotePriceUSD)]
           == s.cache[id0 := AccumulateDeal(seed, price, amount, quotePriceUSD)];
  }

  /** One iteration of the liquidity loop, when the snapshot can be had and the pair's book is settled. */
  lemma LiquiditySnapshotsStep(env: Env, ctx: BlockContext, s: SnapState, dexId: JsNumber, baseAssetId: AssetId,
                               quoteAssetId: AssetId, liquidityUSD: real, types: seq<SnapshotType>)
    requires s.Valid() && |types| > 0 && Seed(env, ctx, s, dexId, baseAssetId, quoteAssetId, types[0]).Some?
    requires BookSettled(s.books, GetId(dexId, baseAssetId, quoteAssetId))
    ensures var id0 := CurrentSnapshotId(env, ctx, dexId, baseAssetId, quoteAssetId, types[0]);
            var updated := Seed(env, ctx, s, dexId, baseAssetId, quoteAssetId, types[0]).value
                           .(liquidityUSD := env.toFixed2(liquidityUSD));
            var s1 := s.(cache := s.cache[id0 := updated]);
            && s1.Valid()
            && LiquiditySnapshots(env, ctx, s, dexId, baseAssetId, quoteAssetId, liquidityUSD, types)
               == LiquiditySnapshots(env, ctx, s1, dexId, baseAssetId, quoteAssetId, liquidityUSD, types[1..])
  {
    var id0 := CurrentSnapshotId(env, ctx, dexId, baseAssetId, quoteAssetId, types[0]);
    var seed := Seed(env, ctx, s, dexId, baseAssetId, quoteAssetId, types[0]).value;
    FetchSnapshotSeed(env, ctx, s, dexId, baseAssetId, quoteAssetId, types[0]);
    assert s.cache[id0 := seed][id0 := seed.(liquidityUSD := env.toFixed2(liquidityUSD))]
           == s.cache[id0 := seed.(liquidityUSD := env.toFixed2(liquidityUSD))];
  }

  /**
   * What a loop over `types` adds to the snapshot cache when the snapshots it
   * needs can be had: each resolution's current snapshot id, mapped to
   * `update` applied to that resolution's seed.
   */
  ghost function Written(env: Env, ctx: BlockContext, s: SnapState, dexId: JsNumber, baseAssetId: AssetId,
                         quoteAssetId: AssetId, update: Snapshot -> Snapshot, types: seq<SnapshotType>)
    : map<string, Snapshot>
    decreases |types|
  {
    if |types| == 0 then map[]
    else
      var rest := Written(env, ctx, s, dexId, baseAssetId, quoteAssetId, update, types[1..]);
      var seed := Seed(env, ctx, s, dexId, baseAssetId, quoteAssetId, types[0]);
      if seed.Some? then rest[CurrentSnapshotId(env, ctx, dexId, baseAssetId, quoteAssetId, types[0]) := update(seed.value)]
      else rest
  }

  /** The update the deal loop applies to each snapshot. */
  ghost function DealUpdate(price: real, amount: real, quotePriceUSD: real): Snapshot -> Snapshot
  {
    (sn: Snapshot) => AccumulateDeal(sn, price, amount, quotePriceUSD)
  }

  /** The update the liquidity loop applies to each snapshot. */
  ghost function LiquidityUpdate(env: Env, liquidityUSD: real): Snapshot -> Snapshot
  {
    (sn: Snapshot) => sn.(liquidityUSD := env.toFixed2(liquidityUSD))
  }

  /** The loop writes exactly the current snapshot ids of its resolutions. */
  lemma {:induction false} WrittenKeys(env: Env, ctx: BlockContext, s: SnapState, dexId: JsNumber, baseAssetId: AssetId,
                                       quoteAssetId: AssetId, update: Snapshot -> Snapshot, types: seq<SnapshotType>)
    requires forall t :: t in types ==> Seed(env, ctx, s, dexId, baseAssetId, quoteAssetId, t).Some?
    ensures Written(env, ctx, s, dexId, baseAssetId, quoteAssetId, update, types).Keys
            == CurrentIds(env, ctx, dexId, baseAssetId, quoteAssetId, types)
    decreases |types|
  {
    if |types| > 0 {
      var rest := types[1..];
      assert types == [types[0]] + rest;
      WrittenKeys(env, ctx, s, dexId, baseAssetId, quoteAssetId, update, rest);
      assert CurrentIds(env, ctx, dexId, baseAssetId, quoteAssetId, types)
             == {CurrentSnapshotId(env, ctx, dexId, baseAssetId, quoteAssetId, types[0])}
                + CurrentIds(env, ctx, dexId, baseAssetId, quoteAssetId, rest);
    } else {
      assert CurrentIds(env, ctx, dexId, baseAssetId, quoteAssetId, types) == {};
    }
  }

  /** Each resolution's current snapshot is written as its seed with the update applied. */
  lemma {:induction false} WrittenAt(env: Env, ctx: BlockContext, s: SnapState, dexId: JsNumber, baseAssetId: AssetId,
                                     quoteAssetId: AssetId, update: Snapshot -> Snapshot, types: seq<SnapshotType>)
    requires IndicesNatural(env, ctx, types)
    requires forall t :: t in types ==> Seed(env, ctx, s, dexId, baseAssetId, quoteAssetId, t).Some?
    ensures forall t :: t in types ==>
              && CurrentSnapshotId(env, ctx, dexId, baseAssetId, quoteAssetId, t)
                 in Written(env, ctx, s, dexId, baseAssetId, quoteAssetId, update, types)
              && Written(env, ctx, s, dexId, baseAssetId, quoteAssetId, update, types)
                   [CurrentSnapshotId(env, ctx, dexId, baseAssetId, quoteAssetId, t)]
                 == update(Seed(env, ctx, s, dexId, baseAssetId, quoteAssetId, t).value)
    decreases |types|
  {
    if |types| > 0 {
      var rest := types[1..];
      assert types == [types[0]] + rest;
      WrittenAt(env, ctx, s, dexId, baseAssetId, quoteAssetId, update, rest);
      forall t | t in types && t != types[0]
        ensures CurrentSnapshotId(env, ctx, dexId, baseAssetId, quoteAssetId, t)
                != CurrentSnapshotId(env, ctx, dexId, baseAssetId, quoteAssetId, types[0])
      {
        CurrentIdsDistinct(env, ctx, dexId, baseAssetId, quoteAssetId, t, types[0]);
      }
    }
  }

  /** What is written depends on the state only through the seeds. */
  lemma {:induction false} WrittenSeedsAgree(env: Env, ctx: BlockContext, s: SnapState, s': SnapState, dexId: JsNumber,
                                             baseAssetId: AssetId, quoteAssetId: AssetId, update: Snapshot -> Snapshot,
                                             types: seq<SnapshotType>)
    requires forall t :: t in types ==>
               Seed(env, ctx, s', dexId, baseAssetId, quoteAssetId, t) == Seed(env, ctx, s, dexId, baseAssetId, quoteAssetId, t)
    ensures Written(env, ctx, s', dexId, baseAssetId, quoteAssetId, update, types)
            == Written(env, ctx, s, dexId, baseAssetId, quoteAssetId, update, types)
    decreases |types|
  {
    if |types| > 0 {
      assert types == [types[0]] + types[1..];
      WrittenSeedsAgree(env, ctx, s, s', dexId, baseAssetId, quoteAssetId, update, types[1..]);
    }
  }

  /** The first resolution is not among the rest. */
  lemma HeadNotInRest(types: seq<SnapshotType>)
    requires |types| > 0 && Distinct(types)
    ensures types[0] !in types[1..] && Distinct(types[1..])
    ensures forall t :: t in types[1..] ==> t in types
  {
    forall j | 0 <= j < |types| - 1 ensures types[1..][j] != types[0] {
      assert types[1..][j] == types[j + 1];
    }
  }

  /** After the first resolution is written, the rest of the loop writes what remains of `Written`. */
  lemma WrittenStep(env: Env, ctx: BlockContext, s: SnapState, dexId: JsNumber, baseAssetId: AssetId,
                    quoteAssetId: AssetId, update: Snapshot -> Snapshot, types: seq<SnapshotType>)
    requires |types| > 0 && Distinct(types) && IndicesNatural(env, ctx, types)
    requires forall t :: t in types ==> Seed(env, ctx, s, dexId, baseAssetId, quoteAssetId, t).Some?
    ensures var id0 := CurrentSnapshotId(env, ctx, dexId, baseAssetId, quoteAssetId, types[0]);
            var s1 := s.(cache := s.cache[id0 := update(Seed(env, ctx, s, dexId, baseAssetId, quoteAssetId, types[0]).value)]);
            && Distinct(types[1..]) && IndicesNatural(env, ctx, types[1..])
            && (forall t :: t in types[1..] ==> Seed(env, ctx, s1, dexId, baseAssetId, quoteAssetId, t).Some?)
            && s1.cache + Written(env, ctx, s1, dexId, baseAssetId, quoteAssetId, update, types[1..])
               == s.cache + Written(env, ctx, s, dexId, baseAssetId, quoteAssetId, update, types)
  {
    var t0, rest := types[0], types[1..];
    var id0 := CurrentSnapshotId(env, ctx, dexId, baseAssetId, quoteAssetId, t0);
    var written := update(Seed(env, ctx, s, dexId, baseAssetId, quoteAssetId, t0).value);
    var s1 := s.(cache := s.cache[id0 := written]);
    HeadNotInRest(types);
    WrittenRest(env, ctx, s, dexId, baseAssetId, quoteAssetId, update, types);
    var w := Written(env, ctx, s, dexId, baseAssetId, quoteAssetId, update, rest);
    assert Written(env, ctx, s, dexId, baseAssetId, quoteAssetId, update, types) == w[id0 := written];
    UpdateThenUnion(s.cache, w, id0, written);
  }

  /** Writing the first resolution changes neither the seeds of the rest nor what they write, and they do not write its id. */
  lemma WrittenRest(env: Env, ctx: BlockContext, s: SnapState, dexId: JsNumber, baseAssetId: AssetId,
                    quoteAssetId: AssetId, update: Snapshot -> Snapshot, types: seq<SnapshotType>)
    requires |types| > 0 && types[0] !in types[1..] && IndicesNatural(env, ctx, types)
    requires forall t :: t in types ==> Seed(env, ctx, s, dexId, baseAssetId, quoteAssetId, t).Some?
    ensures var id0 := CurrentSnapshotId(env, ctx, dexId, baseAssetId, quoteAssetId, types[0]);
            var s1 := s.(cache := s.cache[id0 := update(Seed(env, ctx, s, dexId, baseAssetId, quoteAssetId, types[0]).value)]);
            var w := Written(env, ctx, s, dexId, baseAssetId, quoteAssetId, update, types[1..]);
            && (forall t :: t in types[1..] ==> Seed(env, ctx, s1, dexId, baseAssetId, quoteAssetId, t).Some?)
            && id0 !in w
            && Written(env, ctx, s1, dexId, baseAssetId, quoteAssetId, update, types[1..]) == w
  {
    var t0, rest := types[0], types[1..];
    var id0 := CurrentSnapshotId(env, ctx, dexId, baseAssetId, quoteAssetId, t0);
    var written := update(Seed(env, ctx, s, dexId, baseAssetId, quoteAssetId, t0).value);
    var s1 := s.(cache := s.cache[id0 := written]);
    assert types == [t0] + rest;
    assert IndicesNatural(env, ctx, [t0] + rest);
    SeedsKept(env, ctx, s, dexId, baseAssetId, quoteAssetId, t0, written, rest);
    WrittenKeys(env, ctx, s, dexId, baseAssetId, quoteAssetId, update, rest);
    WrittenSeedsAgree(env, ctx, s, s1, dexId, baseAssetId, quoteAssetId, update, rest);
  }

  /** Updating a key that the right operand lacks commutes with the union. */
  lemma UpdateThenUnion(m: map<string, Snapshot>, w: map<string, Snapshot>, k: string, v: Snapshot)
    requires k !in w
    ensures m[k := v] + w == m + w[k := v]
  {
  }

  /** `DealSnapshotsEffect` for a pair whose book is settled; then the book side is left alone too. */
  lemma {:induction false} DealSnapshotsSettled(env: Env, ctx: BlockContext, s: SnapState, dexId: JsNumber,
                                               baseAssetId: AssetId, quoteAssetId: AssetId, price: real, amount: real,
                                               quotePriceUSD: real, types: seq<SnapshotType>)
    requires s.Valid() && Distinct(types) && IndicesNatural(env, ctx, types)
    requires forall t :: t in types ==> Seed(env, ctx, s, dexId, baseAssetId, quoteAssetId, t).Some?
    requires BookSettled(s.books, GetId(dexId, baseAssetId, quoteAssetId))
    ensures DealSnapshots(env, ctx, s, dexId, baseAssetId, quoteAssetId, price, amount, quotePriceUSD, types)
            == SnapStep(Pass, s.(cache := s.cache + Written(env, ctx, s, dexId, baseAssetId, quoteAssetId,
                                                             DealUpdate(price, amount, quotePriceUSD), types)))
    decreases |types|
  {
    if |types| > 0 {
      var update := DealUpdate(price, amount, quotePriceUSD);
      var seed := Seed(env, ctx, s, dexId, baseAssetId, quoteAssetId, types[0]).value;
      var s1 := s.(cache := s.cache[CurrentSnapshotId(env, ctx, dexId, baseAssetId, quoteAssetId, types[0]) := update(seed)]);
      assert update(seed) == AccumulateDeal(seed, price, amount, quotePriceUSD);
      DealSnapshotsStep(env, ctx, s, dexId, baseAssetId, quoteAssetId, price, amount, quotePriceUSD, types);
      WrittenStep(env, ctx, s, dexId, baseAssetId, quoteAssetId, update, types);
      DealSnapshotsSettled(env, ctx, s1, dexId, baseAssetId, quoteAssetId, price, amount, quotePriceUSD, types[1..]);
    }
  }

  /** `LiquiditySnapshotsEffect` for a pair whose book is settled; then the book side is left alone too. */
  lemma {:induction false} LiquiditySnapshotsSettled(env: Env, ctx: BlockContext, s: SnapState, dexId: JsNumber,
                                                    baseAssetId: AssetId, quoteAssetId: AssetId, liquidityUSD: real,
                                                    types: seq<SnapshotType>)
    requires s.Valid() && Distinct(types) && IndicesNatural(env, ctx, types)
    requires forall t :: t in types ==> Seed(env, ctx, s, dexId, baseAssetId, quoteAssetId, t).Some?
    requires BookSettled(s.books, GetId(dexId, baseAssetId, quoteAssetId))
    ensures LiquiditySnapshots(env, ctx, s, dexId, baseAssetId, quoteAssetId, liquidityUSD, types)
            == SnapStep(Pass, s.(cache := s.cache + Written(env, ctx, s, dexId, baseAssetId, quoteAssetId,
                                                             LiquidityUpdate(env, liquidityUSD), types)))
    decreases |types|
  {
    if |types| > 0 {
      var update := LiquidityUpdate(env, liquidityUSD);
      var seed := Seed(env, ctx, s, dexId, baseAssetId, quoteAssetId, types[0]).value;
      var s1 := s.(cache := s.cache[CurrentSnapshotId(env, ctx, dexId, baseAssetId, quoteAssetId, types[0]) := update(seed)]);
      assert update(seed) == seed.(liquidityUSD := env.toFixed2(liquidityUSD));
      LiquiditySnapshotsStep(env, ctx, s, dexId, baseAssetId, quoteAssetId, liquidityUSD, types);
      WrittenStep(env, ctx, s, dexId, baseAssetId, quoteAssetId, update, types);
      LiquiditySnapshotsSettled(env, ctx, s1, dexId, baseAssetId, quoteAssetId, liquidityUSD, types[1..]);
    }
  }

  /**
   * The loop of the snapshot-level `updateDeal`, when every snapshot it
   * needs can be had: it completes, leaves the store alone, and the cache
   * gains (or has overwritten) exactly the current snapshots of the
   * resolutions, each its seed with the deal accumulated. The book side
   * changes at most by loading the pair's book from the store.
   */
  lemma DealSnapshotsEffect(env: Env, ctx: BlockContext, s: SnapState, dexId: JsNumber, baseAssetId: AssetId,
                            quoteAssetId: AssetId, price: real, amount: real, quotePriceUSD: real,
                            types: seq<SnapshotType>)
    requires s.Valid() && Distinct(types) && IndicesNatural(env, ctx, types)
    requires forall t :: t in types ==> Seed(env, ctx, s, dexId, baseAssetId, quoteAssetId, t).Some?
    ensures var r := DealSnapshots(env, ctx, s, dexId, baseAssetId, quoteAssetId, price, amount, quotePriceUSD, types);
            var o := GetId(dexId, baseAssetId, quoteAssetId);
            && r.result == Pass
            && r.state.cache == s.cache + Written(env, ctx, s, dexId, baseAssetId, quoteAssetId,
                                                  DealUpdate(price, amount, quotePriceUSD), types)
            && r.state.stored == s.stored
            && LoadBook(r.state.books, o) == LoadBook(s.books, o)
  {
    var o := GetId(dexId, baseAssetId, quoteAssetId);
    var l := Loaded(s, o);
    DealSnapshotsLoaded(env, ctx, s, dexId, baseAssetId, quoteAssetId, price, amount, quotePriceUSD, types);
    SeedLoaded(env, ctx, s, dexId, baseAssetId, quoteAssetId, types);
    DealSnapshotsSettled(env, ctx, l, dexId, baseAssetId, quoteAssetId, price, amount, quotePriceUSD, types);
    WrittenSeedsAgree(env, ctx, s, l, dexId, baseAssetId, quoteAssetId, DealUpdate(price, amount, quotePriceUSD), types);
  }

  /**
   * `updateLiquidityUSD`, when every snapshot it needs can be had: it
   * completes, leaves the store alone, and the cache gains (or has
   * overwritten) exactly the current snapshots of the resolutions, each its
   * seed with `liquidityUSD` replaced by the rounded value. The book side
   * changes at most by loading the pair's book from the store.
   */
  lemma LiquiditySnapshotsEffect(env: Env, ctx: BlockContext, s: SnapState, dexId: JsNumber, baseAssetId: AssetId,
                                 quoteAssetId: AssetId, liquidityUSD: real, types: seq<SnapshotType>)
    requires s.Valid() && Distinct(types) && IndicesNatural(env, ctx, types)
    requires forall t :: t in types ==> Seed(env, ctx, s, dexId, baseAssetId, quoteAssetId, t).Some?
    ensures var r := LiquiditySnapshots(env, ctx, s, dexId, baseAssetId, quoteAssetId, liquidityUSD, types);
            var o := GetId(dexId, baseAssetId, quoteAssetId);
            && r.result == Pass
            && r.state.cache == s.cache + Written(env, ctx, s, dexId, baseAssetId, quoteAssetId,
                                                  LiquidityUpdate(env, liquidityUSD), types)
            && r.state.stored == s.stored
            && LoadBook(r.state.books, o) == LoadBook(s.books, o)
  {
    var o := GetId(dexId, baseAssetId, quoteAssetId);
    var l := Loaded(s, o);
    LiquiditySnapshotsLoaded(env, ctx, s, dexId, baseAssetId, quoteAssetId, liquidityUSD, types);
    SeedLoaded(env, ctx, s, dexId, baseAssetId, quoteAssetId, types);
    LiquiditySnapshotsSettled(env, ctx, l, dexId, baseAssetId, quoteAssetId, liquidityUSD, types);
    WrittenSeedsAgree(env, ctx, s, l, dexId, baseAssetId, quoteAssetId, LiquidityUpdate(env, liquidityUSD), types);
  }

  /**
   * The snapshot-level `updateDeal` when every snapshot can be had: the
   * snapshots are updated first, then the book exactly as the book-level
   * `updateDeal` does from the unchanged book state, and the three forwarded
   * calls are returned when the book update succeeds. A snapshot created here
   * is thus seeded with the book's price from before this deal.
   */
  lemma SnapshotDealEffect(env: Env, ctx: BlockContext, s: SnapState, dexId: JsNumber, baseAssetId: AssetId,
                           quoteAssetId: AssetId, orderId: int, price: real, amount: real, isBuy: bool)
    requires s.Valid() && IndicesNatural(env, ctx, ActiveTypes(ctx))
    requires forall t :: t in ctx.activeTypes ==> Seed(env, ctx, s, dexId, baseAssetId, quoteAssetId, t).Some?
    ensures var r := SnapshotDeal(env, ctx, s, dexId, baseAssetId, quoteAssetId, orderId, price, amount, isBuy);
            var bookStep := BookDeal(env, ctx, s.books, dexId, baseAssetId, quoteAssetId, orderId, price, amount, isBuy);
            && r.state.books == bookStep.state
            && r.state.stored == s.stored
            && (r.result.Ok? <==> bookStep.result.Pass?)
            && (r.result.Ok? ==> r.result.value == DealCascades(ctx, baseAssetId, quoteAssetId, price, amount))
            && r.state.cache.Keys == s.cache.Keys + CurrentIds(env, ctx, dexId, baseAssetId, quoteAssetId, ActiveTypes(ctx))
            && (forall k :: k in s.cache && k !in CurrentIds(env, ctx, dexId, baseAssetId, quoteAssetId, ActiveTypes(ctx))
                  ==> r.state.cache[k] == s.cache[k])
            && (forall t :: t in ctx.activeTypes ==>
                  r.state.cache[CurrentSnapshotId(env, ctx, dexId, baseAssetId, quoteAssetId, t)]
                  == AccumulateDeal(Seed(env, ctx, s, dexId, baseAssetId, quoteAssetId, t).value,
                                    price, amount, QuotePriceUSD(ctx, quoteAssetId)))
  {
    var types := ActiveTypes(ctx);
    var q := QuotePriceUSD(ctx, quoteAssetId);
    var update := DealUpdate(price, amount, q);
    DealSnapshotsEffect(env, ctx, s, dexId, baseAssetId, quoteAssetId, price, amount, q, types);
    var step := DealSnapshots(env, ctx, s, dexId, baseAssetId, quoteAssetId, price, amount, q, types);
    BookDealAgrees(env, ctx, step.state.books, s.books, dexId, baseAssetId, quoteAssetId, orderId, price, amount, isBuy);
    var bookStep := BookDeal(env, ctx, s.books, dexId, baseAssetId, quoteAssetId, orderId, price, amount, isBuy);
    assert SnapshotDeal(env, ctx, s, dexId, baseAssetId, quoteAssetId, orderId, price, amount, isBuy).state
        == step.state.(books := bookStep.state);
    WrittenKeys(env, ctx, s, dexId, baseAssetId, quoteAssetId, update, types);
    WrittenAt(env, ctx, s, dexId, baseAssetId, quoteAssetId, update, types);
  }

  /** The book-level deal update only sees the pair's book once it is loaded. */
  lemma BookDealAgrees(env: Env, ctx: BlockContext, b1: BookState, b2: BookState, dexId: JsNumber,
                       baseAssetId: AssetId, quoteAssetId: AssetId, orderId: int, price: real, amount: real,
                       isBuy: bool)
    requires b1.Valid() && b2.Valid()
    requires LoadBook(b1, GetId(dexId, baseAssetId, quoteAssetId)) == LoadBook(b2, GetId(dexId, baseAssetId, quoteAssetId))
    ensures BookDeal(env, ctx, b1, dexId, baseAssetId, quoteAssetId, orderId, price, amount, isBuy)
            == BookDeal(env, ctx, b2, dexId, baseAssetId, quoteAssetId, orderId, price, amount, isBuy)
  {
    BookDealLoaded(env, ctx, b1, dexId, baseAssetId, quoteAssetId, orderId, price, amount, isBuy);
    BookDealLoaded(env, ctx, b2, dexId, baseAssetId, quoteAssetId, orderId, price, amount, isBuy);
  }

  /**
   * The first deal of a pair that has no book yet, cached or stored, throws
   * when the first active resolution has no snapshot either: the book is
   * created (or the account lookup throws) while its price is still
   * undefined, before the book-level update could set it.
   */
  lemma FreshPairDealFails(env: Env, ctx: BlockContext, s: SnapState, dexId: JsNumber, baseAssetId: AssetId,
                           quoteAssetId: AssetId, orderId: int, price: real, amount: real, isBuy: bool)
    requires s.Valid() && |ActiveTypes(ctx)| > 0
    requires var orderBookId := GetId(dexId, baseAssetId, quoteAssetId);
             orderBookId !in s.books.cache.m && orderBookId !in s.books.stored
    requires var id := CurrentSnapshotId(env, ctx, dexId, baseAssetId, quoteAssetId, ActiveTypes(ctx)[0]);
             id !in s.cache && id !in s.stored
    ensures SnapshotDeal(env, ctx, s, dexId, baseAssetId, quoteAssetId, orderId, price, amount, isBuy).result.Err?
  {
    var t0 := ActiveTypes(ctx)[0];
    FetchBookCreates(env, ctx, s.books, GetId(dexId, baseAssetId, quoteAssetId));
    assert FetchSnapshot(env, ctx, s, dexId, baseAssetId, quoteAssetId, t0).result.Err?;
  }

  // ---------------------------------------------------------------------------
  // Locked liquidity

  /** Whether a book has the asset as base or quote. */
  predicate Mentions(env: Env, book: OrderBook, assetId: AssetId) {
    env.toAssetId(book.baseAsset) == assetId || env.toAssetId(book.quoteAsset) == assetId
  }

  /**
   * What one book adds to an asset's total: its reserves on the side where
   * the asset is. When base and quote are the same asset the second `set`
   * overwrites the first, so only the quote reserves count.
   */
  function Contribution(env: Env, book: OrderBook, assetId: AssetId): int {
    var base := env.toAssetId(book.baseAsset);
    var quote := env.toAssetId(book.quoteAsset);
    (if quote == assetId then book.quoteAssetReserves else 0)
    + (if base == assetId && base != quote then book.baseAssetReserves else 0)
  }

  function SumContribution(env: Env, books: seq<OrderBook>, assetId: AssetId): int
  {
    if |books| == 0 then 0 else Contribution(env, books[0], assetId) + SumContribution(env, books[1..], assetId)
  }

  /** One book adds its contribution to each asset's total and mentions the assets it adds. */
  lemma LockedStepGet(env: Env, totals: JsMap<AssetId, int>, book: OrderBook, assetId: AssetId)
    requires totals.Valid()
    ensures var r := LockedStep(env, totals, book);
            && r.Get(assetId).GetOr(0) == totals.Get(assetId).GetOr(0) + Contribution(env, book, assetId)
            && (assetId in r.m <==> assetId in totals.m || Mentions(env, book, assetId))
  {
  }

  /** The loop's totals are the per-asset sums of the books' contributions. */
  lemma {:induction false} LockedTotalsSum(env: Env, totals: JsMap<AssetId, int>, books: seq<OrderBook>, assetId: AssetId)
    requires totals.Valid()
    ensures LockedTotals(env, totals, books).Get(assetId).GetOr(0)
            == totals.Get(assetId).GetOr(0) + SumContribution(env, books, assetId)
    decreases |books|
  {
    if |books| > 0 {
      LockedStepGet(env, totals, books[0], assetId);
      LockedTotalsSum(env, LockedStep(env, totals, books[0]), books[1..], assetId);
    }
  }

  /** ... and hold exactly the assets held before or mentioned by one of the books. */
  lemma {:induction false} LockedTotalsKeys(env: Env, totals: JsMap<AssetId, int>, books: seq<OrderBook>, assetId: AssetId)
    requires totals.Valid()
    ensures assetId in LockedTotals(env, totals, books).m
            <==> assetId in totals.m || exists i :: 0 <= i < |books| && Mentions(env, books[i], assetId)
    decreases |books|
  {
    if |books| > 0 {
      LockedStepGet(env, totals, books[0], assetId);
      LockedTotalsKeys(env, LockedStep(env, totals, books[0]), books[1..], assetId);
      MentionedSplit(env, books, assetId);
    }
  }

  /** Some book mentions the asset iff the first one does or one of the rest does. */
  lemma MentionedSplit(env: Env, books: seq<OrderBook>, assetId: AssetId)
    requires |books| > 0
    ensures (exists i :: 0 <= i < |books| && Mentions(env, books[i], assetId))
            <==> Mentions(env, books[0], assetId)
                 || exists i :: 0 <= i < |books[1..]| && Mentions(env, books[1..][i], assetId)
  {
    if exists i :: 0 <= i < |books[1..]| && Mentions(env, books[1..][i], assetId) {
      var i :| 0 <= i < |books[1..]| && Mentions(env, books[1..][i], assetId);
      assert books[i + 1] == books[1..][i];
    }
    if exists i :: 0 <= i < |books| && Mentions(env, books[i], assetId) {
      var i :| 0 <= i < |books| && Mentions(env, books[i], assetId);
      if i > 0 {
        assert books[1..][i - 1] == books[i];
      }
    }
  }

  /**
   * The calls forwarded for the totals over some books: one per asset the
   * books mention, none twice, each carrying the sum of that asset's
   * reserves over the books.
   */
  lemma LockedCallsSums(env: Env, books: seq<OrderBook>)
    ensures var calls := LiquidityCascades(LockedTotals(env, Empty(), books));
            && (forall i :: 0 <= i < |calls| ==>
                  && calls[i].LiquidityBooks?
                  && calls[i].reserves == SumContribution(env, books, calls[i].assetId)
                  && exists j :: 0 <= j < |books| && Mentions(env, books[j], calls[i].assetId))
            && (forall i, j :: 0 <= i < j < |calls| ==> calls[i].assetId != calls[j].assetId)
            && (forall j, a :: 0 <= j < |books| && Mentions(env, books[j], a) ==>
                  exists i :: 0 <= i < |calls| && calls[i].assetId == a)
  {
    var totals := LockedTotals(env, Empty(), books);
    LockedCallsEach(env, books);
    LockedCallsCover(env, books);
    CascadesPerKey(totals);
    var calls := LiquidityCascades(totals);
    forall j, a | 0 <= j < |books| && Mentions(env, books[j], a)
      ensures exists i :: 0 <= i < |calls| && calls[i].assetId == a
    {
      assert a in totals.m;
    }
  }

  /** Each forwarded call carries the sum for an asset some book mentions. */
  lemma LockedCallsEach(env: Env, books: seq<OrderBook>)
    ensures var calls := LiquidityCascades(LockedTotals(env, Empty(), books));
            forall i :: 0 <= i < |calls| ==>
              && calls[i].LiquidityBooks?
              && calls[i].reserves == SumContribution(env, books, calls[i].assetId)
              && exists j :: 0 <= j < |books| && Mentions(env, books[j], calls[i].assetId)
  {
    var calls := LiquidityCascades(LockedTotals(env, Empty(), books));
    forall i | 0 <= i < |calls|
      ensures calls[i].reserves == SumContribution(env, books, calls[i].assetId)
      ensures exists j :: 0 <= j < |books| && Mentions(env, books[j], calls[i].assetId)
    {
      LockedTotalsSum(env, Empty(), books, calls[i].assetId);
      LockedTotalsKeys(env, Empty(), books, calls[i].assetId);
    }
  }

  /** Every asset some book mentions is a key of the totals. */
  lemma LockedCallsCover(env: Env, books: seq<OrderBook>)
    ensures forall j, a :: 0 <= j < |books| && Mentions(env, books[j], a) ==>
              a in LockedTotals(env, Empty(), books).m
  {
    forall j, a | 0 <= j < |books| && Mentions(env, books[j], a)
      ensures a in LockedTotals(env, Empty(), books).m
    {
      LockedTotalsKeys(env, Empty(), books, a);
    }
  }

  /** The forwarded calls name each key of the totals exactly once. */
  lemma CascadesPerKey(totals: JsMap<AssetId, int>)
    requires totals.Valid()
    ensures var calls := LiquidityCascades(totals);
            && (forall i, j :: 0 <= i < j < |calls| ==> calls[i].assetId != calls[j].assetId)
            && (forall a :: a in totals.m ==> exists i :: 0 <= i < |calls| && calls[i].assetId == a)
  {
    var calls := LiquidityCascades(totals);
    forall a | a in totals.m
      ensures exists i :: 0 <= i < |calls| && calls[i].assetId == a
    {
      var i :| 0 <= i < |totals.keys| && totals.keys[i] == a;
      assert calls[i].assetId == a;
    }
  }

  /**
   * Every cached book sits under the id `getId` gives for its own dex id and
   * assets, so looking its pair up again finds it in the cache.
   */
  ghost predicate SelfKeyed(env: Env, b: BookState) {
    forall k :: k in b.cache.m ==>
      GetId(b.cache.m[k].dexId, env.toAssetId(b.cache.m[k].baseAsset), env.toAssetId(b.cache.m[k].quoteAsset)) == k
  }

  /** `updateLiquidityUSD` for a pair whose book is cached leaves the book side as it was. */
  lemma {:induction false} LiquiditySnapshotsKeepBooks(env: Env, ctx: BlockContext, s: SnapState, dexId: JsNumber,
                                                       baseAssetId: AssetId, quoteAssetId: AssetId, liquidityUSD: real,
                                                       types: seq<SnapshotType>)
    requires s.Valid() && GetId(dexId, baseAssetId, quoteAssetId) in s.books.cache.m
    ensures LiquiditySnapshots(env, ctx, s, dexId, baseAssetId, quoteAssetId, liquidityUSD, types).state.books == s.books
    decreases |types|
  {
    if |types| > 0 {
      FetchBookCached(env, ctx, s.books, GetId(dexId, baseAssetId, quoteAssetId));
      var step := LiquidityInto(env, ctx, s, dexId, baseAssetId, quoteAssetId, liquidityUSD, types[0]);
      assert step.state.books == s.books;
      if step.result.Pass? {
        LiquiditySnapshotsKeepBooks(env, ctx, step.state, dexId, baseAssetId, quoteAssetId, liquidityUSD, types[1..]);
      }
    }
  }

  /** The loop of `getLockedLiquidityUSD` over cached, self-keyed books leaves the book side as it was. */
  lemma {:induction false} LockedLoopKeepsBooks(env: Env, ctx: BlockContext, s: SnapState, totals: JsMap<AssetId, int>,
                                                books: seq<OrderBook>)
    requires s.Valid() && SelfKeyed(env, s.books)
    requires forall i :: 0 <= i < |books| ==> books[i].id in s.books.cache.m && s.books.cache.m[books[i].id] == books[i]
    ensures LockedLoop(env, ctx, s, totals, books).state.books == s.books
    decreases |books|
  {
    if |books| > 0 {
      var book := books[0];
      LiquiditySnapshotsKeepBooks(env, ctx, s, book.dexId, env.toAssetId(book.baseAsset), env.toAssetId(book.quoteAsset),
                                  BookLiquidityUSD(ctx, book), ActiveTypes(ctx));
      var step := LockBook(env, ctx, s, totals, book);
      if step.outcome.Pass? {
        LockedLoopKeepsBooks(env, ctx, step.state, step.totals, books[1..]);
      }
    }
  }

  /**
   * When every cached book is self-keyed, `getLockedLiquidityUSD` leaves the
   * book cache as it found it, so its live iteration over the cached books
   * visits exactly the books cached when it starts, which `LockedLiquidity`
   * iterates over.
   */
  lemma LockedLiquidityKeepsBooks(env: Env, ctx: BlockContext, s: SnapState)
    requires s.Valid() && SelfKeyed(env, s.books)
    ensures LockedLiquidity(env, ctx, s).state.books == s.books
  {
    var books := s.books.cache.Values();
    forall i | 0 <= i < |books|
      ensures books[i].id in s.books.cache.m && s.books.cache.m[books[i].id] == books[i]
    {
      assert books[i] == s.books.cache.m[s.books.cache.keys[i]];
    }
    LockedLoopKeepsBooks(env, ctx, s, Empty(), books);
  }

  /**
   * One iteration of `getLockedLiquidityUSD`, when every active snapshot of
   * the book's pair can be had: it completes, leaves the store alone, and the
   * cache gains (or has overwritten) exactly the pair's current snapshots,
   * each its seed with `liquidityUSD` replaced by the book's base plus quote
   * value rounded to two decimals.
   */
  lemma LockBookEffect(env: Env, ctx: BlockContext, s: SnapState, totals: JsMap<AssetId, int>, book: OrderBook)
    requires s.Valid() && IndicesNatural(env, ctx, ActiveTypes(ctx))
    requires forall t :: t in ActiveTypes(ctx) ==>
               Seed(env, ctx, s, book.dexId, env.toAssetId(book.baseAsset), env.toAssetId(book.quoteAsset), t).Some?
    ensures var r := LockBook(env, ctx, s, totals, book);
            var o := GetId(book.dexId, env.toAssetId(book.baseAsset), env.toAssetId(book.quoteAsset));
            && r.outcome == Pass
            && r.state.stored == s.stored
            && r.state.cache == s.cache + Written(env, ctx, s, book.dexId, env.toAssetId(book.baseAsset),
                                                  env.toAssetId(book.quoteAsset),
                                                  LiquidityUpdate(env, BookLiquidityUSD(ctx, book)), ActiveTypes(ctx))
            && LoadBook(r.state.books, o) == LoadBook(s.books, o)
  {
    LiquiditySnapshotsEffect(env, ctx, s, book.dexId, env.toAssetId(book.baseAsset), env.toAssetId(book.quoteAsset),
                             BookLiquidityUSD(ctx, book), ActiveTypes(ctx));
  }

  /** The current snapshot ids of a book's pair over the active resolutions. */
  function BookSnapshotIds(env: Env, ctx: BlockContext, book: OrderBook): set<string>
  {
    CurrentIds(env, ctx, book.dexId, env.toAssetId(book.baseAsset), env.toAssetId(book.quoteAsset), ActiveTypes(ctx))
  }

  /** The current snapshot ids of each listed book's pair, in list order. */
  function BooksIds(env: Env, ctx: BlockContext, books: seq<OrderBook>): (r: seq<set<string>>)
    ensures |r| == |books|
    ensures forall i :: 0 <= i < |books| ==> r[i] == BookSnapshotIds(env, ctx, books[i])
  {
    seq(|books|, i requires 0 <= i < |books| => BookSnapshotIds(env, ctx, books[i]))
  }

  /** The snapshot of resolution `t` that `getSnapshot` would hand out for a book's pair in state `s`. */
  ghost function BookSeed(env: Env, ctx: BlockContext, s: SnapState, book: OrderBook, t: SnapshotType): Option<Snapshot>
  {
    Seed(env, ctx, s, book.dexId, env.toAssetId(book.baseAsset), env.toAssetId(book.quoteAsset), t)
  }

  /** Every active snapshot of the book's pair can be had in state `s`. */
  ghost predicate Seeded(env: Env, ctx: BlockContext, s: SnapState, book: OrderBook) {
    forall t :: t in ActiveTypes(ctx) ==> BookSeed(env, ctx, s, book, t).Some?
  }

  /**
   * In state `s1`, the book's current snapshot of resolution `t` is the
   * snapshot to be had for it in `s0` with `liquidityUSD` set to the book's
   * base plus quote value rounded to two decimals.
   */
  ghost predicate LiquidityRecorded(env: Env, ctx: BlockContext, s0: SnapState, s1: SnapState, book: OrderBook,
                                    t: SnapshotType) {
    var id := CurrentSnapshotId(env, ctx, book.dexId, env.toAssetId(book.baseAsset), env.toAssetId(book.quoteAsset), t);
    var seed := BookSeed(env, ctx, s0, book, t);
    && seed.Some?
    && id in s1.cache
    && s1.cache[id] == seed.value.(liquidityUSD := env.toFixed2(BookLiquidityUSD(ctx, book)))
  }

  /** Two different self-keyed cached books have no current snapshot id in common. */
  lemma BookSnapshotIdsApart(env: Env, ctx: BlockContext, b: BookState, book1: OrderBook, book2: OrderBook,
                             t: SnapshotType)
    requires SelfKeyed(env, b) && IndicesNatural(env, ctx, ActiveTypes(ctx)) && t in ActiveTypes(ctx)
    requires book1.id in b.cache.m && b.cache.m[book1.id] == book1
    requires book2.id in b.cache.m && b.cache.m[book2.id] == book2
    requires book1.id != book2.id
    ensures CurrentSnapshotId(env, ctx, book2.dexId, env.toAssetId(book2.baseAsset), env.toAssetId(book2.quoteAsset), t)
            !in BookSnapshotIds(env, ctx, book1)
  {
    var o1 := GetId(book1.dexId, env.toAssetId(book1.baseAsset), env.toAssetId(book1.quoteAsset));
    var o2 := GetId(book2.dexId, env.toAssetId(book2.baseAsset), env.toAssetId(book2.quoteAsset));
    assert o1 == book1.id && o2 == book2.id;
    var id := CurrentSnapshotId(env, ctx, book2.dexId, env.toAssetId(book2.baseAsset), env.toAssetId(book2.quoteAsset), t);
    if id in BookSnapshotIds(env, ctx, book1) {
      var t1 :| t1 in ActiveTypes(ctx)
                 && id == CurrentSnapshotId(env, ctx, book1.dexId, env.toAssetId(book1.baseAsset),
                                            env.toAssetId(book1.quoteAsset), t1);
      SnapshotIdInjective(o1, t1, env.bucketOf(ctx.timestamp, t1).index, o2, t, env.bucketOf(ctx.timestamp, t).index);
      assert false;
    }
  }

  /** The cache of `s1` holds at `k` what the cache of `s0` holds there, or nothing when that has nothing. */
  ghost predicate CacheAgreesAt(s0: SnapState, s1: SnapState, k: string) {
    (k in s1.cache <==> k in s0.cache) && (k in s0.cache ==> s1.cache[k] == s0.cache[k])
  }

  /** Seeds of a pair whose current ids were left alone are unaffected by the writes. */
  lemma BookSeedKept(env: Env, ctx: BlockContext, s: SnapState, s': SnapState, book: OrderBook, t: SnapshotType)
    requires s'.books == s.books && s'.stored == s.stored
    requires CacheAgreesAt(s, s', CurrentSnapshotId(env, ctx, book.dexId, env.toAssetId(book.baseAsset),
                                                    env.toAssetId(book.quoteAsset), t))
    ensures BookSeed(env, ctx, s', book, t) == BookSeed(env, ctx, s, book, t)
  {
  }

  /**
   * One iteration of `getLockedLiquidityUSD` on a cached, self-keyed book
   * whose active snapshots can all be had: it completes, leaves the store
   * and the book side alone, records the book's liquidity in each of its
   * pair's current snapshots, and leaves every other cache entry as it was.
   */
  lemma LockBookRecords(env: Env, ctx: BlockContext, s: SnapState, totals: JsMap<AssetId, int>, book: OrderBook)
    requires s.Valid() && SelfKeyed(env, s.books) && IndicesNatural(env, ctx, ActiveTypes(ctx))
    requires book.id in s.books.cache.m && s.books.cache.m[book.id] == book
    requires Seeded(env, ctx, s, book)
    ensures var r := LockBook(env, ctx, s, totals, book);
            && r.outcome == Pass
            && r.state.books == s.books
            && r.state.stored == s.stored
            && (forall t :: t in ActiveTypes(ctx) ==> LiquidityRecorded(env, ctx, s, r.state, book, t))
            && (forall k :: k !in BookSnapshotIds(env, ctx, book) ==> CacheAgreesAt(s, r.state, k))
  {
    LockBookEffect(env, ctx, s, totals, book);
    LiquiditySnapshotsKeepBooks(env, ctx, s, book.dexId, env.toAssetId(book.baseAsset), env.toAssetId(book.quoteAsset),
                                BookLiquidityUSD(ctx, book), ActiveTypes(ctx));
    WrittenRecorded(env, ctx, s, LockBook(env, ctx, s, totals, book).state, book);
  }

  /** Writing a book's liquidity update over the cache records it and touches no other entry. */
  lemma WrittenRecorded(env: Env, ctx: BlockContext, s: SnapState, s': SnapState, book: OrderBook)
    requires IndicesNatural(env, ctx, ActiveTypes(ctx)) && Seeded(env, ctx, s, book)
    requires s'.cache == s.cache + Written(env, ctx, s, book.dexId, env.toAssetId(book.baseAsset),
                                           env.toAssetId(book.quoteAsset),
                                           LiquidityUpdate(env, BookLiquidityUSD(ctx, book)), ActiveTypes(ctx))
    ensures forall t :: t in ActiveTypes(ctx) ==> LiquidityRecorded(env, ctx, s, s', book, t)
    ensures forall k :: k !in BookSnapshotIds(env, ctx, book) ==> CacheAgreesAt(s, s', k)
  {
    var base, quote := env.toAssetId(book.baseAsset), env.toAssetId(book.quoteAsset);
    var update := LiquidityUpdate(env, BookLiquidityUSD(ctx, book));
    WrittenKeys(env, ctx, s, book.dexId, base, quote, update, ActiveTypes(ctx));
    WrittenAt(env, ctx, s, book.dexId, base, quote, update, ActiveTypes(ctx));
  }

  /** The books after the first keep their seeds once the first book's liquidity is recorded. */
  lemma LockedRestSeeded(env: Env, ctx: BlockContext, s: SnapState, s': SnapState, book: OrderBook,
                         rest: seq<OrderBook>)
    requires SelfKeyed(env, s.books) && IndicesNatural(env, ctx, ActiveTypes(ctx))
    requires s'.books == s.books && s'.stored == s.stored
    requires forall k :: k !in BookSnapshotIds(env, ctx, book) ==> CacheAgreesAt(s, s', k)
    requires book.id in s.books.cache.m && s.books.cache.m[book.id] == book
    requires forall i :: 0 <= i < |rest| ==> rest[i].id in s.books.cache.m && s.books.cache.m[rest[i].id] == rest[i]
    requires forall i :: 0 <= i < |rest| ==> rest[i].id != book.id
    ensures forall i, t :: 0 <= i < |rest| && t in ActiveTypes(ctx) ==>
              BookSeed(env, ctx, s', rest[i], t) == BookSeed(env, ctx, s, rest[i], t)
  {
    forall i, t | 0 <= i < |rest| && t in ActiveTypes(ctx)
      ensures BookSeed(env, ctx, s', rest[i], t) == BookSeed(env, ctx, s, rest[i], t)
    {
      BookSnapshotIdsApart(env, ctx, s.books, book, rest[i], t);
      BookSeedKept(env, ctx, s, s', rest[i], t);
    }
  }

  /** `LiquidityRecorded` for every book of the list and every active resolution. */
  ghost predicate AllRecorded(env: Env, ctx: BlockContext, s0: SnapState, s1: SnapState, books: seq<OrderBook>) {
    forall i, t :: 0 <= i < |books| && t in ActiveTypes(ctx) ==> LiquidityRecorded(env, ctx, s0, s1, books[i], t)
  }

  /** `k` is in none of the sets. */
  ghost predicate InNone(k: string, ids: seq<set<string>>) {
    forall i :: 0 <= i < |ids| ==> k !in ids[i]
  }

  /** Every snapshot cached in `s0` whose id is in none of the sets is cached unchanged in `s1`. */
  ghost predicate OthersKept(s0: SnapState, s1: SnapState, ids: seq<set<string>>) {
    forall k :: k in s0.cache && InNone(k, ids) ==> k in s1.cache && s1.cache[k] == s0.cache[k]
  }

  /** The first book's snapshots, recorded by its own step, survive the steps of the other books. */
  lemma LockedFirstKept(env: Env, ctx: BlockContext, s: SnapState, s1: SnapState, s2: SnapState, book: OrderBook,
                        rest: seq<OrderBook>)
    requires SelfKeyed(env, s.books) && IndicesNatural(env, ctx, ActiveTypes(ctx))
    requires book.id in s.books.cache.m && s.books.cache.m[book.id] == book
    requires forall i :: 0 <= i < |rest| ==> rest[i].id in s.books.cache.m && s.books.cache.m[rest[i].id] == rest[i]
    requires forall i :: 0 <= i < |rest| ==> rest[i].id != book.id
    requires forall t :: t in ActiveTypes(ctx) ==> LiquidityRecorded(env, ctx, s, s1, book, t)
    requires OthersKept(s1, s2, BooksIds(env, ctx, rest))
    ensures forall t :: t in ActiveTypes(ctx) ==> LiquidityRecorded(env, ctx, s, s2, book, t)
  {
    FirstApartFromRest(env, ctx, s.books, book, rest);
    RecordingKept(env, ctx, s, s1, s2, book, rest);
  }

  /** The first book's current snapshots are snapshots of none of the other books. */
  lemma FirstApartFromRest(env: Env, ctx: BlockContext, b: BookState, book: OrderBook, rest: seq<OrderBook>)
    requires SelfKeyed(env, b) && IndicesNatural(env, ctx, ActiveTypes(ctx))
    requires book.id in b.cache.m && b.cache.m[book.id] == book
    requires forall i :: 0 <= i < |rest| ==> rest[i].id in b.cache.m && b.cache.m[rest[i].id] == rest[i]
    requires forall i :: 0 <= i < |rest| ==> rest[i].id != book.id
    ensures forall t, j :: t in ActiveTypes(ctx) && 0 <= j < |rest| ==>
              CurrentSnapshotId(env, ctx, book.dexId, env.toAssetId(book.baseAsset), env.toAssetId(book.quoteAsset), t)
              !in BookSnapshotIds(env, ctx, rest[j])
  {
    forall t, j | t in ActiveTypes(ctx) && 0 <= j < |rest|
      ensures CurrentSnapshotId(env, ctx, book.dexId, env.toAssetId(book.baseAsset), env.toAssetId(book.quoteAsset), t)
              !in BookSnapshotIds(env, ctx, rest[j])
    {
      BookSnapshotIdsApart(env, ctx, b, rest[j], book, t);
    }
  }

  /** Recorded snapshots that are no snapshots of the listed books stay recorded. */
  lemma RecordingKept(env: Env, ctx: BlockContext, s: SnapState, s1: SnapState, s2: SnapState, book: OrderBook,
                      rest: seq<OrderBook>)
    requires forall t :: t in ActiveTypes(ctx) ==> LiquidityRecorded(env, ctx, s, s1, book, t)
    requires OthersKept(s1, s2, BooksIds(env, ctx, rest))
    requires forall t, j :: t in ActiveTypes(ctx) && 0 <= j < |rest| ==>
               CurrentSnapshotId(env, ctx, book.dexId, env.toAssetId(book.baseAsset), env.toAssetId(book.quoteAsset), t)
               !in BookSnapshotIds(env, ctx, rest[j])
    ensures forall t :: t in ActiveTypes(ctx) ==> LiquidityRecorded(env, ctx, s, s2, book, t)
  {
    forall t | t in ActiveTypes(ctx) ensures LiquidityRecorded(env, ctx, s, s2, book, t) {
      var id := CurrentSnapshotId(env, ctx, book.dexId, env.toAssetId(book.baseAsset), env.toAssetId(book.quoteAsset), t);
      assert LiquidityRecorded(env, ctx, s, s1, book, t);
      assert InNone(id, BooksIds(env, ctx, rest));
    }
  }

  /** Recordings against seeds that the first step left alone are recordings against the seeds before it. */
  lemma LockedRestRecorded(env: Env, ctx: BlockContext, s: SnapState, s1: SnapState, s2: SnapState,
                           rest: seq<OrderBook>)
    requires forall i, t :: 0 <= i < |rest| && t in ActiveTypes(ctx) ==>
               BookSeed(env, ctx, s1, rest[i], t) == BookSeed(env, ctx, s, rest[i], t)
    requires AllRecorded(env, ctx, s1, s2, rest)
    ensures AllRecorded(env, ctx, s, s2, rest)
  {
    forall i, t | 0 <= i < |rest| && t in ActiveTypes(ctx) ensures LiquidityRecorded(env, ctx, s, s2, rest[i], t) {
      assert LiquidityRecorded(env, ctx, s1, s2, rest[i], t);
    }
  }

  /**
   * Recording the first book's liquidity and then the rest's composes: every
   * book's snapshots end up recorded against the seeds before the first
   * step, and a snapshot of none of the books is left alone.
   */
  lemma LockedCompose(env: Env, ctx: BlockContext, s: SnapState, s1: SnapState, s2: SnapState, book: OrderBook,
                      rest: seq<OrderBook>)
    requires SelfKeyed(env, s.books) && IndicesNatural(env, ctx, ActiveTypes(ctx))
    requires book.id in s.books.cache.m && s.books.cache.m[book.id] == book
    requires forall i :: 0 <= i < |rest| ==> rest[i].id in s.books.cache.m && s.books.cache.m[rest[i].id] == rest[i]
    requires forall i :: 0 <= i < |rest| ==> rest[i].id != book.id
    requires forall t :: t in ActiveTypes(ctx) ==> LiquidityRecorded(env, ctx, s, s1, book, t)
    requires forall k :: k !in BookSnapshotIds(env, ctx, book) ==> CacheAgreesAt(s, s1, k)
    requires forall i, t :: 0 <= i < |rest| && t in ActiveTypes(ctx) ==>
               BookSeed(env, ctx, s1, rest[i], t) == BookSeed(env, ctx, s, rest[i], t)
    requires AllRecorded(env, ctx, s1, s2, rest) && OthersKept(s1, s2, BooksIds(env, ctx, rest))
    ensures AllRecorded(env, ctx, s, s2, [book] + rest) && OthersKept(s, s2, BooksIds(env, ctx, [book] + rest))
  {
    LockedFirstKept(env, ctx, s, s1, s2, book, rest);
    LockedRestRecorded(env, ctx, s, s1, s2, rest);
    AllRecordedCons(env, ctx, s, s2, book, rest);
    OthersKeptCons(s, s1, s2, BookSnapshotIds(env, ctx, book), BooksIds(env, ctx, rest));
    assert BooksIds(env, ctx, [book] + rest) == [BookSnapshotIds(env, ctx, book)] + BooksIds(env, ctx, rest);
  }

  /** Recorded for the first book and for the rest is recorded for the whole list. */
  lemma AllRecordedCons(env: Env, ctx: BlockContext, s: SnapState, s2: SnapState, book: OrderBook, rest: seq<OrderBook>)
    requires forall t :: t in ActiveTypes(ctx) ==> LiquidityRecorded(env, ctx, s, s2, book, t)
    requires AllRecorded(env, ctx, s, s2, rest)
    ensures AllRecorded(env, ctx, s, s2, [book] + rest)
  {
    var books := [book] + rest;
    forall i, t | 0 <= i < |books| && t in ActiveTypes(ctx) ensures LiquidityRecorded(env, ctx, s, s2, books[i], t) {
      if i > 0 {
        assert books[i] == rest[i - 1];
      }
    }
  }

  /** Kept by a first step outside one set of ids, then outside the others, is kept outside all of them. */
  lemma OthersKeptCons(s: SnapState, s1: SnapState, s2: SnapState, ids: set<string>, rest: seq<set<string>>)
    requires forall k :: k !in ids ==> CacheAgreesAt(s, s1, k)
    requires OthersKept(s1, s2, rest)
    ensures OthersKept(s, s2, [ids] + rest)
  {
    forall k | k in s.cache && InNone(k, [ids] + rest) ensures k in s2.cache && s2.cache[k] == s.cache[k] {
      assert k !in ([ids] + rest)[0];
      assert CacheAgreesAt(s, s1, k);
      assert InNone(k, rest) by {
        forall i | 0 <= i < |rest| ensures k !in rest[i] {
          assert rest[i] == ([ids] + rest)[i + 1];
        }
      }
    }
  }

  /**
   * After the first book's step, the other books still meet what the loop
   * needs of them, and keep their seeds.
   */
  lemma LockedTail(env: Env, ctx: BlockContext, s: SnapState, s': SnapState, books: seq<OrderBook>)
    requires |books| > 0 && SelfKeyed(env, s.books) && IndicesNatural(env, ctx, ActiveTypes(ctx))
    requires forall i :: 0 <= i < |books| ==> books[i].id in s.books.cache.m && s.books.cache.m[books[i].id] == books[i]
    requires forall i, j :: 0 <= i < j < |books| ==> books[i].id != books[j].id
    requires forall i :: 0 <= i < |books| ==> Seeded(env, ctx, s, books[i])
    requires s'.books == s.books && s'.stored == s.stored
    requires forall k :: k !in BookSnapshotIds(env, ctx, books[0]) ==> CacheAgreesAt(s, s', k)
    ensures books == [books[0]] + books[1..]
    ensures var rest := books[1..];
            && (forall i :: 0 <= i < |rest| ==> rest[i].id in s'.books.cache.m && s'.books.cache.m[rest[i].id] == rest[i])
            && (forall i, j :: 0 <= i < j < |rest| ==> rest[i].id != rest[j].id)
            && (forall i :: 0 <= i < |rest| ==> rest[i].id != books[0].id)
            && (forall i, t :: 0 <= i < |rest| && t in ActiveTypes(ctx) ==>
                  BookSeed(env, ctx, s', rest[i], t) == BookSeed(env, ctx, s, rest[i], t))
            && (forall i :: 0 <= i < |rest| ==> Seeded(env, ctx, s', rest[i]))
  {
    var rest := books[1..];
    assert forall i :: 0 <= i < |rest| ==> rest[i] == books[i + 1];
    LockedRestSeeded(env, ctx, s, s', books[0], rest);
    forall i | 0 <= i < |rest| ensures Seeded(env, ctx, s', rest[i]) {
      assert Seeded(env, ctx, s, books[i + 1]);
    }
  }

  /**
   * The loop of `getLockedLiquidityUSD` over distinct cached, self-keyed
   * books whose active snapshots can all be had: it completes, leaves the
   * store and the book side alone, records each book's liquidity in each of
   * its pair's current snapshots, and leaves every other cached snapshot as
   * it was.
   */
  lemma {:induction false} LockedLoopWrites(env: Env, ctx: BlockContext, s: SnapState, totals: JsMap<AssetId, int>,
                                            books: seq<OrderBook>)
    requires s.Valid() && SelfKeyed(env, s.books) && IndicesNatural(env, ctx, ActiveTypes(ctx))
    requires forall i :: 0 <= i < |books| ==> books[i].id in s.books.cache.m && s.books.cache.m[books[i].id] == books[i]
    requires forall i, j :: 0 <= i < j < |books| ==> books[i].id != books[j].id
    requires forall i :: 0 <= i < |books| ==> Seeded(env, ctx, s, books[i])
    ensures var r := LockedLoop(env, ctx, s, totals, books);
            && r.outcome == Pass
            && r.state.stored == s.stored
            && r.state.books == s.books
            && AllRecorded(env, ctx, s, r.state, books)
            && OthersKept(s, r.state, BooksIds(env, ctx, books))
    decreases |books|
  {
    if |books| > 0 {
      var book, rest := books[0], books[1..];
      LockBookRecords(env, ctx, s, totals, book);
      var step := LockBook(env, ctx, s, totals, book);
      LockedTail(env, ctx, s, step.state, books);
      LockedLoopWrites(env, ctx, step.state, step.totals, rest);
      var r := LockedLoop(env, ctx, s, totals, books);
      assert r == LockedLoop(env, ctx, step.state, step.totals, rest);
      LockedCompose(env, ctx, s, step.state, r.state, book, rest);
    }
  }

  /** The books `map.values()` yields are the cached books, each under its own id. */
  lemma CachedBooksListed(b: BookState)
    requires b.Valid()
    ensures var books := b.cache.Values();
            && (forall i :: 0 <= i < |books| ==> books[i].id in b.cache.m && b.cache.m[books[i].id] == books[i])
            && (forall i, j :: 0 <= i < j < |books| ==> books[i].id != books[j].id)
            && (forall o :: o in b.cache.m ==> b.cache.m[o] in books)
  {
    var books := b.cache.Values();
    forall o | o in b.cache.m ensures b.cache.m[o] in books {
      var i :| 0 <= i < |b.cache.keys| && b.cache.keys[i] == o;
      assert books[i] == b.cache.m[o];
    }
  }

  /** What is recorded for every book of a list is recorded for every book of a cache the list covers. */
  lemma RecordedForCached(env: Env, ctx: BlockContext, s: SnapState, s': SnapState, books: seq<OrderBook>,
                          b: BookState)
    requires AllRecorded(env, ctx, s, s', books)
    requires forall o :: o in b.cache.m ==> b.cache.m[o] in books
    ensures forall o, t :: o in b.cache.m && t in ActiveTypes(ctx) ==> LiquidityRecorded(env, ctx, s, s', b.cache.m[o], t)
  {
    forall o, t | o in b.cache.m && t in ActiveTypes(ctx) ensures LiquidityRecorded(env, ctx, s, s', b.cache.m[o], t) {
      var i :| 0 <= i < |books| && books[i] == b.cache.m[o];
    }
  }

  /** A snapshot of none of a cache's books is no snapshot of a list of books drawn from that cache. */
  lemma KeptForCached(env: Env, ctx: BlockContext, s: SnapState, s': SnapState, books: seq<OrderBook>, b: BookState)
    requires OthersKept(s, s', BooksIds(env, ctx, books))
    requires forall i :: 0 <= i < |books| ==> books[i].id in b.cache.m && b.cache.m[books[i].id] == books[i]
    ensures forall k :: k in s.cache && (forall o :: o in b.cache.m ==> k !in BookSnapshotIds(env, ctx, b.cache.m[o]))
              ==> k in s'.cache && s'.cache[k] == s.cache[k]
  {
    forall k | k in s.cache && (forall o :: o in b.cache.m ==> k !in BookSnapshotIds(env, ctx, b.cache.m[o]))
      ensures k in s'.cache && s'.cache[k] == s.cache[k]
    {
      assert InNone(k, BooksIds(env, ctx, books));
    }
  }

  /**
   * `getLockedLiquidityUSD` when every cached book is self-keyed and every
   * active snapshot of every cached book's pair can be had: it completes,
   * leaves the store and the book cache alone, and records each cached
   * book's liquidity (base plus quote value, rounded to two decimals) in the
   * current snapshot of each active resolution of its pair. Every other
   * cached snapshot is unchanged.
   */
  lemma LockedLiquidityWrites(env: Env, ctx: BlockContext, s: SnapState)
    requires s.Valid() && SelfKeyed(env, s.books) && IndicesNatural(env, ctx, ActiveTypes(ctx))
    requires forall o :: o in s.books.cache.m ==> Seeded(env, ctx, s, s.books.cache.m[o])
    ensures var r := LockedLiquidity(env, ctx, s);
            && r.result.Ok?
            && r.state.stored == s.stored
            && r.state.books == s.books
            && (forall o, t :: o in s.books.cache.m && t in ActiveTypes(ctx) ==>
                  LiquidityRecorded(env, ctx, s, r.state, s.books.cache.m[o], t))
            && (forall k :: k in s.cache && (forall o :: o in s.books.cache.m ==> k !in BookSnapshotIds(env, ctx, s.books.cache.m[o]))
                  ==> k in r.state.cache && r.state.cache[k] == s.cache[k])
  {
    LockedCacheLoop(env, ctx, s);
  }

  /** `LockedLoopWrites` for the loop over the books cached in `s`, stated per cached book. */
  lemma LockedCacheLoop(env: Env, ctx: BlockContext, s: SnapState)
    requires s.Valid() && SelfKeyed(env, s.books) && IndicesNatural(env, ctx, ActiveTypes(ctx))
    requires forall o :: o in s.books.cache.m ==> Seeded(env, ctx, s, s.books.cache.m[o])
    ensures var r := LockedLoop(env, ctx, s, Empty(), s.books.cache.Values());
            && r.outcome == Pass
            && r.state.stored == s.stored
            && r.state.books == s.books
            && (forall o, t :: o in s.books.cache.m && t in ActiveTypes(ctx) ==>
                  LiquidityRecorded(env, ctx, s, r.state, s.books.cache.m[o], t))
            && (forall k :: k in s.cache && (forall o :: o in s.books.cache.m ==> k !in BookSnapshotIds(env, ctx, s.books.cache.m[o]))
                  ==> k in r.state.cache && r.state.cache[k] == s.cache[k])
  {
    var books := s.books.cache.Values();
    CachedBooksListed(s.books);
    LockedLoopWrites(env, ctx, s, Empty(), books);
    var r := LockedLoop(env, ctx, s, Empty(), books);
    RecordedForCached(env, ctx, s, r.state, books, s.books);
    KeptForCached(env, ctx, s, r.state, books, s.books);
  }

  // ---------------------------------------------------------------------------
  // Sync

  /**
   * `syncSnapshots` writes every cached snapshot to the store and keeps in
   * the cache exactly those whose bucket is still the current one.
   */
  lemma SyncEvictsClosedBuckets(env: Env, ctx: BlockContext, s: SnapState)
    requires s.Valid()
    ensures var r := SyncedSnapshots(env, ctx, s);
            && r.books == s.books
            && (forall k :: k in s.cache ==> k in r.stored && r.stored[k] == s.cache[k])
            && (forall k :: k in s.stored && k !in s.cache ==> k in r.stored && r.stored[k] == s.stored[k])
            && (forall k :: k in r.stored ==> k in s.stored || k in s.cache)
            && (forall k :: k in r.cache <==>
                  k in s.cache && s.cache[k].timestamp >= env.bucketOf(ctx.timestamp, s.cache[k].snapshotType).timestamp)
            && (forall k :: k in r.cache ==> r.cache[k] == s.cache[k])
  {
  }

  /** A second sync in the same block changes nothing more. */
  lemma SyncIdempotent(env: Env, ctx: BlockContext, s: SnapState)
    requires s.Valid()
    ensures SyncedSnapshots(env, ctx, SyncedSnapshots(env, ctx, s)) == SyncedSnapshots(env, ctx, s)
  {
    var r := SyncedSnapshots(env, ctx, s);
    var r2 := SyncedSnapshots(env, ctx, r);
    assert r2.stored == r.stored;
    assert r2.cache == r.cache;
  }
}
