/**
 * The two in-memory caches of the order-book engine as classes over the
 * persistent store. Every method is proved to leave the caches and the store
 * exactly as the matching function of module OrderBookModel says, from the
 * state it started in.
 */
module OrderBookStorage {
  import opened Wrappers
  import opened JsMaps
  import opened OrderBookIds
  import opened OrderBookModel

  /** The persistent entity store of a block context (`ctx.store`), by entity id. */
  class Store {
    var books: map<string, OrderBook>
    var snapshots: map<string, Snapshot>

    ghost predicate Valid()
      reads this
    {
      BooksKeyed(books) && SnapshotsKeyed(snapshots)
    }

    constructor ()
      ensures Valid() && books == map[] && snapshots == map[]
    {
      books := map[];
      snapshots := map[];
    }

    /** `store.save(orderBook)`. */
    method SaveBook(book: OrderBook)
      modifies this
      ensures books == old(books)[book.id := book] && snapshots == old(snapshots)
    {
      books := books[book.id := book];
    }

    /** `store.save([...books])`: every entity under its own id. */
    method SaveBooks(cached: map<string, OrderBook>)
      requires BooksKeyed(cached)
      modifies this
      ensures books == old(books) + cached && snapshots == old(snapshots)
    {
      books := books + cached;
    }

    /** `store.save([...snapshots])`. */
    method SaveSnapshots(cached: map<string, Snapshot>)
      requires SnapshotsKeyed(cached)
      modifies this
      ensures snapshots == old(snapshots) + cached && books == old(books)
    {
      snapshots := snapshots + cached;
    }
  }

  /** `OrderBooksStorage`: the order-book cache and the account index. */
  class OrderBooksStorage {
    const env: Env
    const store: Store
    var storage: JsMap<string, OrderBook>
    var accountIds: JsMap<Address, string>

    ghost function State(): BookState
      reads this, store
    {
      BookState(storage, accountIds, store.books)
    }

    ghost predicate Valid()
      reads this, store
    {
      State().Valid()
    }

    constructor (env: Env, store: Store)
      requires store.Valid()
      ensures this.env == env && this.store == store
      ensures storage == Empty() && accountIds == Empty()
      ensures Valid()
    {
      this.env := env;
      this.store := store;
      storage := Empty();
      accountIds := Empty();
    }

    /** `updateAccountIds`. */
    method UpdateAccountIds(ctx: BlockContext) returns (r: Outcome<Error>)
      requires accountIds.Valid()
      modifies this
      ensures (accountIds, r) == OrderBookModel.UpdateAccountIds(env, ctx, old(accountIds))
      ensures storage == old(storage)
    {
      if ctx.techAccounts.None? {
        return Pass;
      }
      var entries := ctx.techAccounts.value;
      var i := 0;
      while i < |entries|
        invariant 0 <= i <= |entries|
        invariant accountIds.Valid() && storage == old(storage)
        invariant ScanAccounts(env, old(accountIds), entries) == ScanAccounts(env, accountIds, entries[i..])
      {
        var e := entries[i];
        assert entries[i..][0] == e && entries[i..][1..] == entries[i + 1..];
        if e.techAccountId.None? {
          return Fail(TechAccountUndefined);
        }
        match e.techAccountId.value {
          case Pure(dexId, OrderBookLiquidityKeeper(baseTech, targetTech)) =>
            var quote := GetAssetIdFromTech(env, baseTech);
            if quote.Err? {
              return Fail(quote.error);
            }
            var base := GetAssetIdFromTech(env, targetTech);
            if base.Err? {
              return Fail(base.error);
            }
            var orderBookId := GetId(Finite(dexId), base.value, quote.value);
            accountIds := accountIds.Set(env.toAddress(e.accountId), orderBookId);
          case _ =>
        }
        i := i + 1;
      }
      r := Pass;
    }

    /** `findAccountId`: a scan of the index in insertion order. */
    method FindAccountId(orderBookId: string) returns (r: Option<Address>)
      requires accountIds.Valid()
      ensures r == FindIn(accountIds.Entries(), orderBookId)
    {
      var entries := accountIds.Entries();
      var i := 0;
      while i < |entries|
        invariant 0 <= i <= |entries|
        invariant FindIn(entries, orderBookId) == FindIn(entries[i..], orderBookId)
      {
        assert entries[i..][0] == entries[i] && entries[i..][1..] == entries[i + 1..];
        var (key, value) := entries[i];
        if value == orderBookId {
          return Some(key);
        }
        i := i + 1;
      }
      r := None;
    }

    /** `getAccountId`. */
    method GetAccountId(ctx: BlockContext, orderBookId: string) returns (r: Result<Option<Address>, Error>)
      requires accountIds.Valid()
      modifies this
      ensures (accountIds, r) == ResolveAccount(env, ctx, old(accountIds), orderBookId)
      ensures storage == old(storage)
    {
      var accountId := FindAccountId(orderBookId);
      if Truthy(accountId) {
        return Ok(accountId);
      }
      var outcome := UpdateAccountIds(ctx);
      if outcome.Fail? {
        return Err(outcome.error);
      }
      accountId := FindAccountId(orderBookId);
      r := Ok(accountId);
    }

    /** `sync`: write every cached book to the store. */
    method Sync()
      requires Valid()
      modifies store
      ensures store.books == old(store.books) + storage.m
      ensures store.snapshots == old(store.snapshots)
      ensures Valid()
    {
      store.SaveBooks(storage.m);
    }

    /** `save`. */
    method Save(ctx: BlockContext, book: OrderBook, force: bool) returns (saved: OrderBook)
      modifies store
      ensures (saved, store.books) == SaveBook(ctx, old(store.books), book, force)
      ensures store.snapshots == old(store.snapshots)
    {
      saved := book.(updatedAtBlock := ctx.height);
      if force || ctx.flushDue {
        store.SaveBook(saved);
      }
    }

    /** `getOrderBookById`. */
    method GetOrderBookById(ctx: BlockContext, id: string) returns (r: Result<OrderBook, Error>)
      requires Valid()
      modifies this, store
      ensures BookStep(r, State()) == FetchBook(env, ctx, old(State()), id)
      ensures store.snapshots == old(store.snapshots)
      ensures Valid()
    {
      if storage.Has(id) {
        return Ok(storage.m[id]);
      }
      if id in store.books {
        var stored := store.books[id];
        storage := storage.Set(stored.id, stored);
        return Ok(stored);
      }
      var account := GetAccountId(ctx, id);
      if account.Err? {
        return Err(account.error);
      }
      var book := NewOrderBook(id, ctx.height);
      book := Save(ctx, book, true);
      storage := storage.Set(book.id, book);
      r := Ok(book);
    }

    /** `getOrderBook`. */
    method GetOrderBook(ctx: BlockContext, dexId: JsNumber, baseAssetId: AssetId, quoteAssetId: AssetId)
      returns (r: Result<OrderBook, Error>)
      requires Valid()
      modifies this, store
      ensures BookStep(r, State()) == FetchBook(env, ctx, old(State()), GetId(dexId, baseAssetId, quoteAssetId))
      ensures store.snapshots == old(store.snapshots)
      ensures Valid()
    {
      r := GetOrderBookById(ctx, GetId(dexId, baseAssetId, quoteAssetId));
    }

    /** `getOrderBookByAccountId`. */
    method GetOrderBookByAccountId(ctx: BlockContext, accountId: Address) returns (r: Result<Option<OrderBook>, Error>)
      requires Valid()
      modifies this, store
      ensures BookStep(r, State()) == FetchBookByAccount(env, ctx, old(State()), accountId)
      ensures store.snapshots == old(store.snapshots)
      ensures Valid()
    {
      var orderBookId := accountIds.Get(accountId);
      if Truthy(orderBookId) {
        var book := GetOrderBookById(ctx, orderBookId.value);
        match book {
          case Ok(b) => return Ok(Some(b));
          case Err(e) => return Err(e);
        }
      }
      r := Ok(None);
    }

    /** The book-level `updateDeal`. */
    method UpdateDeal(ctx: BlockContext, dexId: JsNumber, baseAssetId: AssetId, quoteAssetId: AssetId,
                      orderId: int, price: real, amount: real, isBuy: bool) returns (r: Outcome<Error>)
      requires Valid()
      modifies this, store
      ensures BookStep(r, State()) == BookDeal(env, ctx, old(State()), dexId, baseAssetId, quoteAssetId,
                                               orderId, price, amount, isBuy)
      ensures store.snapshots == old(store.snapshots)
      ensures Valid()
    {
      var fetched := GetOrderBook(ctx, dexId, baseAssetId, quoteAssetId);
      if fetched.Err? {
        return Fail(fetched.error);
      }
      var book := fetched.value;
      var deal := Deal(orderId, ctx.timestamp, isBuy, amount, price);
      book := book.(price := Some(price), lastDeals := PushDeal(book.lastDeals, deal));
      book := Save(ctx, book, false);
      storage := storage.Set(book.id, book);
      r := Pass;
    }

    /** The body of the loop of `getLockedLiquidityUSD` for one book. */
    method LockBook(ctx: BlockContext, snapshots: OrderBooksSnapshotsStorage, lockedAssets: JsMap<AssetId, int>,
                    book: OrderBook) returns (outcome: Outcome<Error>, totals: JsMap<AssetId, int>)
      requires snapshots.orderBooksStorage == this && snapshots.Valid()
      modifies this, store, snapshots
      ensures LockedStepResult(outcome, snapshots.State(), totals)
              == OrderBookModel.LockBook(env, ctx, old(snapshots.State()), lockedAssets, book)
      ensures snapshots.Valid()
    {
      totals := AddReserves(lockedAssets, book);
      var liquidityUSD := BookLiquidityUSD(ctx, book);
      outcome := snapshots.UpdateLiquidityUSD(ctx, book.dexId, env.toAssetId(book.baseAsset),
                                              env.toAssetId(book.quoteAsset), liquidityUSD);
    }

    /** The book's reserves added to the totals of its two assets, base first. */
    method AddReserves(lockedAssets: JsMap<AssetId, int>, book: OrderBook) returns (totals: JsMap<AssetId, int>)
      ensures totals == LockedStep(env, lockedAssets, book)
    {
      var baseAssetId := env.toAssetId(book.baseAsset);
      var quoteAssetId := env.toAssetId(book.quoteAsset);
      var a := lockedAssets.Get(baseAssetId);
      var b := lockedAssets.Get(quoteAssetId);
      totals := lockedAssets.Set(baseAssetId, a.GetOr(0) + book.baseAssetReserves);
      totals := totals.Set(quoteAssetId, b.GetOr(0) + book.quoteAssetReserves);
    }

    /**
     * `getLockedLiquidityUSD`, over the books cached when it starts: per book,
     * add the reserves to the per-asset totals and record the book's USD
     * liquidity in its snapshots; then forward each total.
     */
    method GetLockedLiquidityUSD(ctx: BlockContext, snapshots: OrderBooksSnapshotsStorage)
      returns (r: Result<(real, seq<Cascade>), Error>)
      requires snapshots.orderBooksStorage == this && snapshots.Valid()
      modifies this, store, snapshots
      ensures SnapStep(r, snapshots.State()) == LockedLiquidity(env, ctx, old(snapshots.State()))
      ensures snapshots.Valid()
    {
      var lockedAssets: JsMap<AssetId, int> := Empty();
      var lockedUSD := 0.0;
      var books := storage.Values();
      ghost var start := snapshots.State();
      var i := 0;
      while i < |books|
        invariant 0 <= i <= |books| && snapshots.Valid() && lockedAssets.Valid()
        invariant LockedLoop(env, ctx, start, Empty(), books)
                  == LockedLoop(env, ctx, snapshots.State(), lockedAssets, books[i..])
      {
        var book := books[i];
        assert books[i..][0] == book && books[i..][1..] == books[i + 1..];
        var outcome;
        outcome, lockedAssets := LockBook(ctx, snapshots, lockedAssets, book);
        if outcome.Fail? {
          return Err(outcome.error);
        }
        i := i + 1;
      }
      var calls := ForwardLiquidityBooks(lockedAssets);
      r := Ok((lockedUSD, calls));
    }
  }

  /** The closing loop of `getLockedLiquidityUSD`: one `updateLiquidityBooks` call per total, in map order. */
  method ForwardLiquidityBooks(lockedAssets: JsMap<AssetId, int>) returns (calls: seq<Cascade>)
    requires lockedAssets.Valid()
    ensures calls == LiquidityCascades(lockedAssets)
  {
    var totals := lockedAssets.Entries();
    calls := [];
    var j := 0;
    while j < |totals|
      invariant 0 <= j <= |totals|
      invariant calls == LiquidityCascades(lockedAssets)[..j]
    {
      var (assetId, liquidity) := totals[j];
      calls := calls + [LiquidityBooks(assetId, liquidity)];
      j := j + 1;
    }
  }

  /** `OrderBooksSnapshotsStorage`: the snapshot cache, over an `OrderBooksStorage`. */
  class OrderBooksSnapshotsStorage {
    const orderBooksStorage: OrderBooksStorage
    var storage: map<string, Snapshot>

    ghost function State(): SnapState
      reads this, orderBooksStorage, orderBooksStorage.store
    {
      SnapState(orderBooksStorage.State(), storage, orderBooksStorage.store.snapshots)
    }

    ghost predicate Valid()
      reads this, orderBooksStorage, orderBooksStorage.store
    {
      State().Valid()
    }

    constructor (orderBooksStorage: OrderBooksStorage)
      requires orderBooksStorage.Valid() && orderBooksStorage.store.Valid()
      ensures this.orderBooksStorage == orderBooksStorage && storage == map[]
      ensures Valid()
    {
      this.orderBooksStorage := orderBooksStorage;
      storage := map[];
    }

    /** `sync` / `syncSnapshots`: save everything cached, then evict closed buckets. */
    method SyncSnapshots(ctx: BlockContext)
      requires Valid()
      modifies this, orderBooksStorage.store
      ensures State() == SyncedSnapshots(orderBooksStorage.env, ctx, old(State()))
      ensures Valid()
    {
      var env := orderBooksStorage.env;
      orderBooksStorage.store.SaveSnapshots(storage);
      ghost var cached := storage;
      var pending := storage.Keys;
      while pending != {}
        modifies this
        invariant pending <= cached.Keys
        invariant storage == map k | k in cached && (k in pending || !Expired(env, ctx, cached[k])) :: cached[k]
        invariant orderBooksStorage.store.snapshots == old(orderBooksStorage.store.snapshots) + cached
        decreases pending
      {
        var id :| id in pending;
        if Expired(env, ctx, storage[id]) {
          storage := storage - {id};
        }
        pending := pending - {id};
      }
    }

    /** `getSnapshot`. */
    method GetSnapshot(ctx: BlockContext, dexId: JsNumber, baseAssetId: AssetId, quoteAssetId: AssetId, t: SnapshotType)
      returns (r: Result<Snapshot, Error>)
      requires Valid()
      modifies this, orderBooksStorage, orderBooksStorage.store
      ensures SnapStep(r, State()) == FetchSnapshot(orderBooksStorage.env, ctx, old(State()), dexId, baseAssetId, quoteAssetId, t)
      ensures Valid()
    {
      var bucket := orderBooksStorage.env.bucketOf(ctx.timestamp, t);
      var orderBookId := GetId(dexId, baseAssetId, quoteAssetId);
      var id := SnapshotId(orderBookId, t, bucket.index);
      if id in storage {
        return Ok(storage[id]);
      }
      var snapshot: Snapshot;
      if id in orderBooksStorage.store.snapshots {
        snapshot := orderBooksStorage.store.snapshots[id];
      } else {
        var fetched := orderBooksStorage.GetOrderBook(ctx, dexId, baseAssetId, quoteAssetId);
        if fetched.Err? {
          return Err(fetched.error);
        }
        var book := fetched.value;
        if book.price.None? {
          return Err(PriceUndefined(book.id));
        }
        snapshot := NewSnapshot(id, book.id, bucket, t, book.price.value);
      }
      storage := storage[snapshot.id := snapshot];
      r := Ok(snapshot);
    }

    /** The loop of the snapshot-level `updateDeal` over the active resolutions. */
    method AccumulateActive(ctx: BlockContext, dexId: JsNumber, baseAssetId: AssetId, quoteAssetId: AssetId,
                            price: real, amount: real, quotePriceUSD: real) returns (r: Outcome<Error>)
      requires Valid()
      modifies this, orderBooksStorage, orderBooksStorage.store
      ensures SnapStep(r, State()) == DealSnapshots(orderBooksStorage.env, ctx, old(State()), dexId, baseAssetId,
                                                    quoteAssetId, price, amount, quotePriceUSD, ActiveTypes(ctx))
      ensures Valid()
    {
      var env := orderBooksStorage.env;
      var types := ActiveTypes(ctx);
      ghost var start := State();
      var i := 0;
      while i < |types|
        invariant 0 <= i <= |types| && Valid()
        invariant DealSnapshots(env, ctx, start, dexId, baseAssetId, quoteAssetId, price, amount, quotePriceUSD, types)
                  == DealSnapshots(env, ctx, State(), dexId, baseAssetId, quoteAssetId, price, amount, quotePriceUSD, types[i..])
      {
        assert types[i..][0] == types[i] && types[i..][1..] == types[i + 1..];
        var outcome := AccumulateInto(ctx, dexId, baseAssetId, quoteAssetId, price, amount, quotePriceUSD, types[i]);
        if outcome.Fail? {
          return outcome;
        }
        i := i + 1;
      }
      r := Pass;
    }

    /** One pass of that loop: the deal added to the snapshot of one resolution. */
    method AccumulateInto(ctx: BlockContext, dexId: JsNumber, baseAssetId: AssetId, quoteAssetId: AssetId,
                          price: real, amount: real, quotePriceUSD: real, t: SnapshotType) returns (r: Outcome<Error>)
      requires Valid()
      modifies this, orderBooksStorage, orderBooksStorage.store
      ensures SnapStep(r, State()) == DealInto(orderBooksStorage.env, ctx, old(State()), dexId, baseAssetId,
                                               quoteAssetId, price, amount, quotePriceUSD, t)
      ensures Valid()
    {
      var fetched := GetSnapshot(ctx, dexId, baseAssetId, quoteAssetId, t);
      if fetched.Err? {
        return Fail(fetched.error);
      }
      var snapshot := AccumulateDeal(fetched.value, price, amount, quotePriceUSD);
      storage := storage[snapshot.id := snapshot];
      r := Pass;
    }

    /**
     * The snapshot-level `updateDeal`: the snapshot of every active
     * resolution, then the book, then the forwarded volume calls.
     */
    method UpdateDeal(ctx: BlockContext, dexId: JsNumber, baseAssetId: AssetId, quoteAssetId: AssetId,
                      orderId: int, price: real, amount: real, isBuy: bool)
      returns (r: Result<seq<Cascade>, Error>)
      requires Valid()
      modifies this, orderBooksStorage, orderBooksStorage.store
      ensures SnapStep(r, State()) == SnapshotDeal(orderBooksStorage.env, ctx, old(State()), dexId, baseAssetId,
                                                   quoteAssetId, orderId, price, amount, isBuy)
      ensures Valid()
    {
      var quotePriceUSD := QuotePriceUSD(ctx, quoteAssetId);
      var accumulated := AccumulateActive(ctx, dexId, baseAssetId, quoteAssetId, price, amount, quotePriceUSD);
      if accumulated.Fail? {
        return Err(accumulated.error);
      }
      var outcome := orderBooksStorage.UpdateDeal(ctx, dexId, baseAssetId, quoteAssetId, orderId, price, amount, isBuy);
      if outcome.Fail? {
        return Err(outcome.error);
      }
      r := Ok(DealCascades(ctx, baseAssetId, quoteAssetId, price, amount));
    }

    /** `updateLiquidityUSD`: the rounded liquidity into every active snapshot. */
    method UpdateLiquidityUSD(ctx: BlockContext, dexId: JsNumber, baseAssetId: AssetId, quoteAssetId: AssetId,
                              liquidityUSD: real) returns (r: Outcome<Error>)
      requires Valid()
      modifies this, orderBooksStorage, orderBooksStorage.store
      ensures SnapStep(r, State()) == LiquiditySnapshots(orderBooksStorage.env, ctx, old(State()), dexId, baseAssetId,
                                                         quoteAssetId, liquidityUSD, ActiveTypes(ctx))
      ensures Valid()
    {
      var env := orderBooksStorage.env;
      var types := ActiveTypes(ctx);
      ghost var start := State();
      var i := 0;
      while i < |types|
        invariant 0 <= i <= |types| && Valid()
        invariant LiquiditySnapshots(env, ctx, start, dexId, baseAssetId, quoteAssetId, liquidityUSD, types)
                  == LiquiditySnapshots(env, ctx, State(), dexId, baseAssetId, quoteAssetId, liquidityUSD, types[i..])
      {
        assert types[i..][0] == types[i] && types[i..][1..] == types[i + 1..];
        var outcome := LiquidityOf(ctx, dexId, baseAssetId, quoteAssetId, liquidityUSD, types[i]);
        if outcome.Fail? {
          return outcome;
        }
        i := i + 1;
      }
      r := Pass;
    }

    /** One pass of that loop: the rounded liquidity into the snapshot of one resolution. */
    method LiquidityOf(ctx: BlockContext, dexId: JsNumber, baseAssetId: AssetId, quoteAssetId: AssetId,
                       liquidityUSD: real, t: SnapshotType) returns (r: Outcome<Error>)
      requires Valid()
      modifies this, orderBooksStorage, orderBooksStorage.store
      ensures SnapStep(r, State()) == LiquidityInto(orderBooksStorage.env, ctx, old(State()), dexId, baseAssetId,
                                                    quoteAssetId, liquidityUSD, t)
      ensures Valid()
    {
      var fetched := GetSnapshot(ctx, dexId, baseAssetId, quoteAssetId, t);
      if fetched.Err? {
        return Fail(fetched.error);
      }
      var snapshot := fetched.value.(liquidityUSD := orderBooksStorage.env.toFixed2(liquidityUSD));
      storage := storage[snapshot.id := snapshot];
      r := Pass;
    }
  }
}
