/**
 * The order-book engine's entities and, as pure functions over value states,
 * what each operation of `OrderBooksStorage` and `OrderBooksSnapshotsStorage`
 * does: the cache lookups with lazy creation, the account resolver, the deal
 * bookkeeping, the liquidity valuation and the snapshot sync. The classes in
 * module OrderBookStorage are proved to behave as these functions say; the
 * lemmas in module OrderBookLemmas state what the functions guarantee.
 *
 * bignumber.js decimals are modelled exactly as `real`.
 */
module OrderBookModel {
  import opened Wrappers
  import opened JsMaps
  import opened OrderBookIds

  type AssetId = string
  type Address = string

  /** `OrderBooksStorage.LAST_DEALS_LENGTH`. */
  const LAST_DEALS_LENGTH: nat := 20

  /** `OrderBookStatus`; this engine only ever writes `Trade`. */
  datatype OrderBookStatus = Trade | PlaceAndCancel | OnlyCancel | Stop

  /** `OrderBookDeal`, one entry of `lastDeals`. */
  datatype Deal = Deal(orderId: int, timestamp: int, isBuy: bool, amount: real, price: real)

  /** The `OrderBook` entity; `price` is `undefined` until the first deal. */
  datatype OrderBook = OrderBook(
    id: string,
    dexId: JsNumber,
    baseAsset: AssetId,
    quoteAsset: AssetId,
    status: OrderBookStatus,
    baseAssetReserves: int,
    quoteAssetReserves: int,
    price: Option<real>,
    lastDeals: seq<Deal>,
    priceChangeDay: Option<real>,
    volumeDayUSD: Option<real>,
    updatedAtBlock: int)

  /** `AssetPrice`, the OHLC record of a snapshot. */
  datatype Ohlc = Ohlc(open: real, close: real, high: real, low: real)

  /** The `OrderBookSnapshot` entity; `orderBook` is the id of the book it refers to. */
  datatype Snapshot = Snapshot(
    id: string,
    orderBook: string,
    timestamp: int,
    snapshotType: SnapshotType,
    baseAssetVolume: real,
    quoteAssetVolume: real,
    volumeUSD: real,
    liquidityUSD: real,
    price: Ohlc)

  /** What `getSnapshotIndex` returns: the bucket index and the bucket start. */
  datatype Bucket = Bucket(index: int, timestamp: int)

  /** `TechAssetId`: a predefined asset by kind, or an escaped asset id. */
  datatype TechAssetId = Wrapped(kind: string) | Escaped(value: string)

  /** The purpose part of a `Pure` technical account. */
  datatype TechPurpose =
    | OrderBookLiquidityKeeper(baseAssetId: TechAssetId, targetAssetId: TechAssetId)
    | OtherPurpose

  /** `TechAccountId`; only `Pure` accounts are looked at. */
  datatype TechAccountId = Pure(dexId: int, purpose: TechPurpose) | OtherTechAccount

  /** One pair of the technical-accounts table; the descriptor may be undefined. */
  datatype TechEntry = TechEntry(accountId: string, techAccountId: Option<TechAccountId>)

  /** The errors the engine throws. */
  datatype Error =
    | NotPredefined(kind: string)       // `... not exists in predefined assets!`
    | NoPredefinedAsset(kind: string)   // `There is not DOT/KSM/USDT in predefinedAssets`
    | TechAccountUndefined              // `assertDefined(techAccountId)`
    | PriceUndefined(orderBookId: string) // `assertDefined(orderBook.price)`

  /** Calls forwarded to the asset-level and network-level aggregators. */
  datatype Cascade =
    | AssetVolume(assetId: AssetId, amount: real)
    | NetworkVolume(volumeUSD: real)
    | LiquidityBooks(assetId: AssetId, reserves: int)

  /**
   * Pure helpers of files that are not part of this model:
   * `getSnapshotIndex`, `toAssetId`, `toAddress`, `predefinedAssets` and the
   * rounding of `toFixed(2)`.
   */
  datatype Env = Env(
    bucketOf: (int, SnapshotType) -> Bucket,
    toAssetId: string -> AssetId,
    toAddress: string -> Address,
    predefinedAssets: map<string, AssetId>,
    toFixed2: real -> real)

  /**
   * One block's context: height and timestamp, whether `shouldUpdate(ctx, 60)`
   * holds, the resolutions `getSnapshotTypes` keeps, the technical-accounts
   * table (`None` when the request failed), and the asset aggregator's answers
   * (`priceUSD` of an asset, `calcTvlUSD` of an amount of it).
   */
  datatype BlockContext = BlockContext(
    height: int,
    timestamp: int,
    flushDue: bool,
    activeTypes: set<SnapshotType>,
    techAccounts: Option<seq<TechEntry>>,
    priceUSD: AssetId -> Option<real>,
    tvlUSD: (AssetId, int) -> real)

  /** `OrderBooksSnapshots` filtered by `getSnapshotTypes`. */
  function ActiveTypes(ctx: BlockContext): (r: seq<SnapshotType>)
    ensures forall t :: t in r <==> t in ctx.activeTypes
    ensures forall i, j :: 0 <= i < j < |r| ==> r[i] != r[j]
  {
    var r := (if Default in ctx.activeTypes then [Default] else [])
             + (if Hour in ctx.activeTypes then [Hour] else [])
             + (if Day in ctx.activeTypes then [Day] else []);
    assert forall t :: t in r <==> t in ctx.activeTypes by {
      forall t ensures t in r <==> t in ctx.activeTypes {
        assert t == Default || t == Hour || t == Day;
      }
    }
    r
  }

  // ---------------------------------------------------------------------------
  // Pure helpers of the module

  /** `calcVolume`: the sum of `volumeUSD` over the snapshots. */
  function CalcVolume(snapshots: seq<Snapshot>): (r: real)
    ensures |snapshots| == 1 ==> r == snapshots[0].volumeUSD
    ensures (forall i :: 0 <= i < |snapshots| ==> snapshots[i].volumeUSD >= 0.0) ==> r >= 0.0
    decreases |snapshots|
  {
    if |snapshots| == 0 then 0.0
    else CalcVolume(snapshots[..|snapshots| - 1]) + snapshots[|snapshots| - 1].volumeUSD
  }

  /** `getAssetIdFromTech`. */
  function GetAssetIdFromTech(env: Env, techAsset: TechAssetId): (r: Result<AssetId, Error>)
    ensures r.Err? <==> techAsset.Wrapped?
                        && (techAsset.kind !in env.predefinedAssets
                            || techAsset.kind in {"DOT", "KSM", "USDT"})
    ensures r.Ok? && techAsset.Wrapped? ==> r.value == env.predefinedAssets[techAsset.kind]
    ensures r.Ok? && techAsset.Escaped? ==> r.value == env.toAssetId(techAsset.value)
  {
    match techAsset
    case Wrapped(kind) =>
      if kind !in env.predefinedAssets then Err(NotPredefined(kind))
      else if kind == "DOT" || kind == "KSM" || kind == "USDT" then Err(NoPredefinedAsset(kind))
      else Ok(env.predefinedAssets[kind])
    case Escaped(value) => Ok(env.toAssetId(value))
  }

  function Min(a: int, b: int): int { if a <= b then a else b }

  function MaxReal(a: real, b: real): real { if a >= b then a else b }

  function MinReal(a: real, b: real): real { if a <= b then a else b }

  /**
   * `lastDeals.unshift(deal)` followed by `slice(0, LAST_DEALS_LENGTH)`: the
   * new deal first, then the previous deals, at most 20 in all.
   */
  function PushDeal(deals: seq<Deal>, deal: Deal): (r: seq<Deal>)
    ensures |r| == Min(|deals| + 1, LAST_DEALS_LENGTH)
    ensures r[0] == deal
    ensures forall i :: 1 <= i < |r| ==> r[i] == deals[i - 1]
  {
    ([deal] + deals)[..Min(|deals| + 1, LAST_DEALS_LENGTH)]
  }

  /** Low and high bracket the open and the close price. */
  ghost predicate OhlcValid(o: Ohlc) {
    o.low <= o.open <= o.high && o.low <= o.close <= o.high
  }

  /**
   * The per-snapshot part of the snapshot-level `updateDeal`: accumulate the
   * three volumes, then update the OHLC record (open and low are taken from
   * the deal when `open` is 0).
   */
  function AccumulateDeal(s: Snapshot, price: real, amount: real, quotePriceUSD: real): (r: Snapshot)
    ensures r.baseAssetVolume == s.baseAssetVolume + amount
    ensures r.quoteAssetVolume == s.quoteAssetVolume + amount * price
    ensures r.volumeUSD == s.volumeUSD + amount * price * quotePriceUSD
    ensures r.price.low <= price <= r.price.high && r.price.close == price
    ensures r.price.open == (if s.price.open == 0.0 then price else s.price.open)
    ensures OhlcValid(s.price) || s.price.open == 0.0 ==> OhlcValid(r.price)
    ensures s.price.open != 0.0 ==> r.price.low <= s.price.low && s.price.high <= r.price.high
    ensures r.(baseAssetVolume := s.baseAssetVolume, quoteAssetVolume := s.quoteAssetVolume,
               volumeUSD := s.volumeUSD, price := s.price) == s
  {
    var quoteAmount := amount * price;
    var quoteVolumeUSD := quotePriceUSD * quoteAmount;
    var o := s.price;
    var o1 := if o.open == 0.0 then o.(open := price, low := price) else o;
    var o2 := o1.(close := price, high := MaxReal(o1.high, price), low := MinReal(o1.low, price));
    s.(baseAssetVolume := s.baseAssetVolume + amount,
       quoteAssetVolume := s.quoteAssetVolume + quoteAmount,
       volumeUSD := s.volumeUSD + quoteVolumeUSD,
       price := o2)
  }

  /** The book `getOrderBookById` creates for an id found neither in cache nor in store. */
  function NewOrderBook(id: string, height: int): (r: OrderBook)
    ensures r.id == id && r.status == Trade
    ensures r.baseAssetReserves == 0 && r.quoteAssetReserves == 0
    ensures r.updatedAtBlock == height && r.price.None? && r.lastDeals == []
    ensures r.dexId == ParseId(id).dexId
  {
    var parsed := ParseId(id);
    OrderBook(id, parsed.dexId, parsed.baseAssetId.GetOr(""), parsed.quoteAssetId.GetOr(""),
              Trade, 0, 0, None, [], None, None, height)
  }

  /** The snapshot `getSnapshot` creates: zero volumes, every OHLC field the book's price. */
  function NewSnapshot(id: string, orderBookId: string, bucket: Bucket, t: SnapshotType, price: real): (r: Snapshot)
    ensures r.id == id && r.orderBook == orderBookId && r.timestamp == bucket.timestamp
    ensures r.snapshotType == t
    ensures r.baseAssetVolume == 0.0 && r.quoteAssetVolume == 0.0 && r.volumeUSD == 0.0
    ensures r.liquidityUSD == 0.0
    ensures r.price == Ohlc(price, price, price, price) && OhlcValid(r.price)
  {
    Snapshot(id, orderBookId, bucket.timestamp, t, 0.0, 0.0, 0.0, 0.0, Ohlc(price, price, price, price))
  }

  // ---------------------------------------------------------------------------
  // Account resolver

  /** The first key (in insertion order) whose value is `orderBookId` (`findAccountId`). */
  function FindIn(entries: seq<(Address, string)>, orderBookId: string): (r: Option<Address>)
    ensures r.None? <==> forall i :: 0 <= i < |entries| ==> entries[i].1 != orderBookId
    ensures r.Some? ==> exists i :: 0 <= i < |entries| && entries[i] == (r.value, orderBookId)
                                    && forall j :: 0 <= j < i ==> entries[j].1 != orderBookId
  {
    if |entries| == 0 then None
    else if entries[0].1 == orderBookId then Some(entries[0].0)
    else
      var r := FindIn(entries[1..], orderBookId);
      assert r.Some? ==> exists i :: 0 <= i < |entries[1..]| && entries[1..][i] == (r.value, orderBookId)
                                    && forall j :: 0 <= j < i ==> entries[1..][j].1 != orderBookId;
      assert r.Some? ==> exists i :: 1 <= i < |entries| && entries[i] == (r.value, orderBookId)
                                    && forall j :: 0 <= j < i ==> entries[j].1 != orderBookId;
      r
  }

  /** The mapping one technical-account entry contributes to `accountIds`, if any. */
  function KeeperMapping(env: Env, e: TechEntry): Option<(Address, string)>
  {
    if e.techAccountId.None? then None
    else match e.techAccountId.value
      case Pure(dexId, OrderBookLiquidityKeeper(baseTech, targetTech)) =>
        var quote := GetAssetIdFromTech(env, baseTech);
        var base := GetAssetIdFromTech(env, targetTech);
        if quote.Err? || base.Err? then None
        else Some((env.toAddress(e.accountId), GetId(Finite(dexId), base.value, quote.value)))
      case _ => None
  }

  /**
   * The loop of `updateAccountIds` over the entries: every `Pure`
   * order-book-liquidity-keeper entry maps its address to the order-book id;
   * an undefined descriptor or an unknown asset kind throws, keeping the
   * mappings set so far.
   */
  function ScanAccounts(env: Env, accountIds: JsMap<Address, string>, entries: seq<TechEntry>)
    : (r: (JsMap<Address, string>, Outcome<Error>))
    ensures accountIds.Valid() ==> r.0.Valid()
    decreases |entries|
  {
    if |entries| == 0 then (accountIds, Pass)
    else
      var e := entries[0];
      if e.techAccountId.None? then (accountIds, Fail(TechAccountUndefined))
      else match e.techAccountId.value
        case Pure(dexId, OrderBookLiquidityKeeper(baseTech, targetTech)) =>
          var quote := GetAssetIdFromTech(env, baseTech);
          if quote.Err? then (accountIds, Fail(quote.error))
          else
            var base := GetAssetIdFromTech(env, targetTech);
            if base.Err? then (accountIds, Fail(base.error))
            else
              var orderBookId := GetId(Finite(dexId), base.value, quote.value);
              ScanAccounts(env, accountIds.Set(env.toAddress(e.accountId), orderBookId), entries[1..])
        case _ => ScanAccounts(env, accountIds, entries[1..])
  }

  /** `updateAccountIds`: nothing happens when the table could not be read. */
  function UpdateAccountIds(env: Env, ctx: BlockContext, accountIds: JsMap<Address, string>)
    : (r: (JsMap<Address, string>, Outcome<Error>))
    ensures accountIds.Valid() ==> r.0.Valid()
  {
    if ctx.techAccounts.None? then (accountIds, Pass)
    else ScanAccounts(env, accountIds, ctx.techAccounts.value)
  }

  /** JavaScript truthiness of a lookup result: missing or empty is false. */
  predicate Truthy(s: Option<string>) {
    s.Some? && s.value != ""
  }

  /**
   * `getAccountId`: look the order book up; on a miss rebuild the index once
   * and look again. The index is either unchanged or rebuilt exactly once.
   */
  function ResolveAccount(env: Env, ctx: BlockContext, accountIds: JsMap<Address, string>, orderBookId: string)
    : (r: (JsMap<Address, string>, Result<Option<Address>, Error>))
    requires accountIds.Valid()
    ensures r.0.Valid()
    ensures r.0 == accountIds || r.0 == UpdateAccountIds(env, ctx, accountIds).0
    ensures Truthy(FindIn(accountIds.Entries(), orderBookId)) ==> r == (accountIds, Ok(FindIn(accountIds.Entries(), orderBookId)))
    ensures r.1.Ok? && r.1.value.Some? ==> r.1.value.value in r.0.m && r.0.m[r.1.value.value] == orderBookId
  {
    var found := FindIn(accountIds.Entries(), orderBookId);
    if Truthy(found) then (accountIds, Ok(found))
    else
      var (rebuilt, outcome) := UpdateAccountIds(env, ctx, accountIds);
      if outcome.Fail? then (rebuilt, Err(outcome.error))
      else (rebuilt, Ok(FindIn(rebuilt.Entries(), orderBookId)))
  }

  // ---------------------------------------------------------------------------
  // Order-book cache

  ghost predicate BooksKeyed(m: map<string, OrderBook>) {
    forall k :: k in m ==> m[k].id == k
  }

  ghost predicate SnapshotsKeyed(m: map<string, Snapshot>) {
    forall k :: k in m ==> m[k].id == k
  }

  /**
   * The state `OrderBooksStorage` works on: its cache, its account index, and
   * the order books in the persistent store.
   */
  datatype BookState = BookState(
    cache: JsMap<string, OrderBook>,
    accountIds: JsMap<Address, string>,
    stored: map<string, OrderBook>)
  {
    ghost predicate Valid() {
      cache.Valid() && accountIds.Valid() && BooksKeyed(cache.m) && BooksKeyed(stored)
    }
  }

  /** A result together with the state after the operation. */
  datatype BookStep<+R> = BookStep(result: R, state: BookState)

  /** `save`: stamp the block height; write to the store when forced or due. */
  function SaveBook(ctx: BlockContext, stored: map<string, OrderBook>, book: OrderBook, force: bool)
    : (r: (OrderBook, map<string, OrderBook>))
    ensures r.0 == book.(updatedAtBlock := ctx.height)
    ensures r.1 == if force || ctx.flushDue then stored[book.id := r.0] else stored
  {
    var saved := book.(updatedAtBlock := ctx.height);
    (saved, if force || ctx.flushDue then stored[book.id := saved] else stored)
  }

  /**
   * `getOrderBookById`: the cached book; else the stored one, now cached;
   * else, after one account lookup, a new book saved with `force = true`.
   */
  function FetchBook(env: Env, ctx: BlockContext, s: BookState, id: string): (r: BookStep<Result<OrderBook, Error>>)
    requires s.Valid()
    ensures r.state.Valid()
    ensures r.result.Ok? ==> r.result.value.id == id && r.state.cache.Get(id) == Some(r.result.value)
  {
    if s.cache.Has(id) then BookStep(Ok(s.cache.m[id]), s)
    else if id in s.stored then
      var book := s.stored[id];
      BookStep(Ok(book), s.(cache := s.cache.Set(book.id, book)))
    else
      var (accountIds, account) := ResolveAccount(env, ctx, s.accountIds, id);
      if account.Err? then BookStep(Err(account.error), s.(accountIds := accountIds))
      else
        var (book, stored) := SaveBook(ctx, s.stored, NewOrderBook(id, ctx.height), true);
        BookStep(Ok(book), BookState(s.cache.Set(book.id, book), accountIds, stored))
  }

  /** `getOrderBookByAccountId`: `null` without any lookup when the address is unmapped. */
  function FetchBookByAccount(env: Env, ctx: BlockContext, s: BookState, accountId: Address)
    : (r: BookStep<Result<Option<OrderBook>, Error>>)
    requires s.Valid()
    ensures r.state.Valid()
  {
    var orderBookId := s.accountIds.Get(accountId);
    if Truthy(orderBookId) then
      var step := FetchBook(env, ctx, s, orderBookId.value);
      match step.result
      case Ok(book) => BookStep(Ok(Some(book)), step.state)
      case Err(e) => BookStep(Err(e), step.state)
    else BookStep(Ok(None), s)
  }

  /**
   * The book-level `updateDeal`: push the deal onto `lastDeals`, set the
   * price, and save (not forced).
   */
  function BookDeal(env: Env, ctx: BlockContext, s: BookState, dexId: JsNumber, baseAssetId: AssetId,
                    quoteAssetId: AssetId, orderId: int, price: real, amount: real, isBuy: bool)
    : (r: BookStep<Outcome<Error>>)
    requires s.Valid()
    ensures r.state.Valid()
  {
    var id := GetId(dexId, baseAssetId, quoteAssetId);
    var step := FetchBook(env, ctx, s, id);
    if step.result.Err? then BookStep(Fail(step.result.error), step.state)
    else
      var book := step.result.value;
      var deal := Deal(orderId, ctx.timestamp, isBuy, amount, price);
      var updated := book.(price := Some(price), lastDeals := PushDeal(book.lastDeals, deal));
      var (saved, stored) := SaveBook(ctx, step.state.stored, updated, false);
      BookStep(Pass, step.state.(cache := step.state.cache.Set(saved.id, saved), stored := stored))
  }

  /** One book's contribution to the per-asset locked totals (`lockedAssets`). */
  function LockedStep(env: Env, totals: JsMap<AssetId, int>, book: OrderBook): (r: JsMap<AssetId, int>)
    ensures totals.Valid() ==> r.Valid()
  {
    var baseAssetId := env.toAssetId(book.baseAsset);
    var quoteAssetId := env.toAssetId(book.quoteAsset);
    var a := totals.Get(baseAssetId).GetOr(0);
    var b := totals.Get(quoteAssetId).GetOr(0);
    totals.Set(baseAssetId, a + book.baseAssetReserves).Set(quoteAssetId, b + book.quoteAssetReserves)
  }

  /** `lockedAssets` after the loop over the given books. */
  function LockedTotals(env: Env, totals: JsMap<AssetId, int>, books: seq<OrderBook>): (r: JsMap<AssetId, int>)
    ensures totals.Valid() ==> r.Valid()
    decreases |books|
  {
    if |books| == 0 then totals else LockedTotals(env, LockedStep(env, totals, books[0]), books[1..])
  }

  /** The USD liquidity of a book: base value plus quote value (`calcTvlUSD`). */
  function BookLiquidityUSD(ctx: BlockContext, book: OrderBook): (r: real)
    ensures (ctx.tvlUSD(book.baseAsset, book.baseAssetReserves) >= 0.0
             && ctx.tvlUSD(book.quoteAsset, book.quoteAssetReserves) >= 0.0) ==> r >= 0.0
  {
    ctx.tvlUSD(book.baseAsset, book.baseAssetReserves) + ctx.tvlUSD(book.quoteAsset, book.quoteAssetReserves)
  }

  // ---------------------------------------------------------------------------
  // Snapshot cache

  /** The state `OrderBooksSnapshotsStorage` works on, including the book side it calls into. */
  datatype SnapState = SnapState(
    books: BookState,
    cache: map<string, Snapshot>,
    stored: map<string, Snapshot>)
  {
    ghost predicate Valid() {
      books.Valid() && SnapshotsKeyed(cache) && SnapshotsKeyed(stored)
    }
  }

  datatype SnapStep<+R> = SnapStep(result: R, state: SnapState)

  /** The id of the snapshot of the current bucket of a pair and resolution. */
  function CurrentSnapshotId(env: Env, ctx: BlockContext, dexId: JsNumber, baseAssetId: AssetId,
                             quoteAssetId: AssetId, t: SnapshotType): (r: string)
    ensures var orderBookId := GetId(dexId, baseAssetId, quoteAssetId);
            |r| > |orderBookId| && r[..|orderBookId|] == orderBookId
  {
    SnapshotId(GetId(dexId, baseAssetId, quoteAssetId), t, env.bucketOf(ctx.timestamp, t).index)
  }

  /**
   * `getSnapshot`: the cached snapshot of the current bucket; else the stored
   * one; else a new one seeded from the book's current price, which must be
   * defined.
   */
  function FetchSnapshot(env: Env, ctx: BlockContext, s: SnapState, dexId: JsNumber, baseAssetId: AssetId,
                         quoteAssetId: AssetId, t: SnapshotType): (r: SnapStep<Result<Snapshot, Error>>)
    requires s.Valid()
    ensures r.state.Valid()
    ensures r.state.stored == s.stored
    ensures var id := CurrentSnapshotId(env, ctx, dexId, baseAssetId, quoteAssetId, t);
            r.result.Ok? ==> r.result.value.id == id && r.state.cache == s.cache[id := r.result.value]
    ensures r.result.Err? ==> r.state.cache == s.cache
  {
    var bucket := env.bucketOf(ctx.timestamp, t);
    var orderBookId := GetId(dexId, baseAssetId, quoteAssetId);
    var id := SnapshotId(orderBookId, t, bucket.index);
    if id in s.cache then SnapStep(Ok(s.cache[id]), s)
    else if id in s.stored then
      var snapshot := s.stored[id];
      SnapStep(Ok(snapshot), s.(cache := s.cache[snapshot.id := snapshot]))
    else
      var step := FetchBook(env, ctx, s.books, orderBookId);
      if step.result.Err? then SnapStep(Err(step.result.error), s.(books := step.state))
      else
        var book := step.result.value;
        if book.price.None? then SnapStep(Err(PriceUndefined(book.id)), s.(books := step.state))
        else
          var snapshot := NewSnapshot(id, book.id, bucket, t, book.price.value);
          SnapStep(Ok(snapshot), SnapState(step.state, s.cache[snapshot.id := snapshot], s.stored))
  }

  /** One resolution of the snapshot-level `updateDeal`: fetch its snapshot and add the deal to it. */
  function DealInto(env: Env, ctx: BlockContext, s: SnapState, dexId: JsNumber, baseAssetId: AssetId,
                    quoteAssetId: AssetId, price: real, amount: real, quotePriceUSD: real, t: SnapshotType)
    : (r: SnapStep<Outcome<Error>>)
    requires s.Valid()
    ensures r.state.Valid()
    ensures r.state.stored == s.stored
  {
    var step := FetchSnapshot(env, ctx, s, dexId, baseAssetId, quoteAssetId, t);
    if step.result.Err? then SnapStep(Fail(step.result.error), step.state)
    else
      var snapshot := AccumulateDeal(step.result.value, price, amount, quotePriceUSD);
      SnapStep(Pass, step.state.(cache := step.state.cache[snapshot.id := snapshot]))
  }

  /** The loop of the snapshot-level `updateDeal` over the remaining resolutions. */
  function DealSnapshots(env: Env, ctx: BlockContext, s: SnapState, dexId: JsNumber, baseAssetId: AssetId,
                         quoteAssetId: AssetId, price: real, amount: real, quotePriceUSD: real,
                         types: seq<SnapshotType>): (r: SnapStep<Outcome<Error>>)
    requires s.Valid()
    ensures r.state.Valid()
    ensures r.state.stored == s.stored
    decreases |types|
  {
    if |types| == 0 then SnapStep(Pass, s)
    else
      var step := DealInto(env, ctx, s, dexId, baseAssetId, quoteAssetId, price, amount, quotePriceUSD, types[0]);
      if step.result.Fail? then step
      else DealSnapshots(env, ctx, step.state, dexId, baseAssetId, quoteAssetId, price, amount, quotePriceUSD, types[1..])
  }

  /** The USD price of the quote asset, 0 when unknown (`quoteAsset.priceUSD ?? '0'`). */
  function QuotePriceUSD(ctx: BlockContext, quoteAssetId: AssetId): (r: real)
    ensures ctx.priceUSD(quoteAssetId).Some? ==> r == ctx.priceUSD(quoteAssetId).value
    ensures ctx.priceUSD(quoteAssetId).None? ==> r == 0.0
  {
    ctx.priceUSD(quoteAssetId).GetOr(0.0)
  }

  /**
   * The calls the snapshot-level `updateDeal` forwards: the base and quote
   * volumes to the asset aggregator, the USD volume to the network one.
   */
  function DealCascades(ctx: BlockContext, baseAssetId: AssetId, quoteAssetId: AssetId, price: real, amount: real)
    : (r: seq<Cascade>)
    ensures |r| == 3
    ensures r[0] == AssetVolume(baseAssetId, amount) && r[1] == AssetVolume(quoteAssetId, amount * price)
    ensures r[2] == NetworkVolume(QuotePriceUSD(ctx, quoteAssetId) * (amount * price))
  {
    var quoteAmount := amount * price;
    var usd := QuotePriceUSD(ctx, quoteAssetId) * quoteAmount;
    assert usd == QuotePriceUSD(ctx, quoteAssetId) * (amount * price);
    [AssetVolume(baseAssetId, amount), AssetVolume(quoteAssetId, quoteAmount), NetworkVolume(usd)]
  }

  /**
   * The snapshot-level `updateDeal`: every active snapshot first, then the
   * book (so a snapshot created here is seeded with the book's previous
   * price), then the calls forwarded to the asset and network aggregators.
   */
  function SnapshotDeal(env: Env, ctx: BlockContext, s: SnapState, dexId: JsNumber, baseAssetId: AssetId,
                        quoteAssetId: AssetId, orderId: int, price: real, amount: real, isBuy: bool)
    : (r: SnapStep<Result<seq<Cascade>, Error>>)
    requires s.Valid()
    ensures r.state.Valid()
  {
    var step := DealSnapshots(env, ctx, s, dexId, baseAssetId, quoteAssetId, price, amount,
                              QuotePriceUSD(ctx, quoteAssetId), ActiveTypes(ctx));
    if step.result.Fail? then SnapStep(Err(step.result.error), step.state)
    else
      var bookStep := BookDeal(env, ctx, step.state.books, dexId, baseAssetId, quoteAssetId, orderId, price, amount, isBuy);
      var state := step.state.(books := bookStep.state);
      if bookStep.result.Fail? then SnapStep(Err(bookStep.result.error), state)
      else SnapStep(Ok(DealCascades(ctx, baseAssetId, quoteAssetId, price, amount)), state)
  }

  /** One resolution of `updateLiquidityUSD`: fetch its snapshot and set its rounded liquidity. */
  function LiquidityInto(env: Env, ctx: BlockContext, s: SnapState, dexId: JsNumber, baseAssetId: AssetId,
                         quoteAssetId: AssetId, liquidityUSD: real, t: SnapshotType): (r: SnapStep<Outcome<Error>>)
    requires s.Valid()
    ensures r.state.Valid()
    ensures r.state.stored == s.stored
  {
    var step := FetchSnapshot(env, ctx, s, dexId, baseAssetId, quoteAssetId, t);
    if step.result.Err? then SnapStep(Fail(step.result.error), step.state)
    else
      var snapshot := step.result.value.(liquidityUSD := env.toFixed2(liquidityUSD));
      SnapStep(Pass, step.state.(cache := step.state.cache[snapshot.id := snapshot]))
  }

  /** The loop of `updateLiquidityUSD` over the remaining resolutions. */
  function LiquiditySnapshots(env: Env, ctx: BlockContext, s: SnapState, dexId: JsNumber, baseAssetId: AssetId,
                              quoteAssetId: AssetId, liquidityUSD: real, types: seq<SnapshotType>)
    : (r: SnapStep<Outcome<Error>>)
    requires s.Valid()
    ensures r.state.Valid()
    ensures r.state.stored == s.stored
    decreases |types|
  {
    if |types| == 0 then SnapStep(Pass, s)
    else
      var step := LiquidityInto(env, ctx, s, dexId, baseAssetId, quoteAssetId, liquidityUSD, types[0]);
      if step.result.Fail? then step
      else LiquiditySnapshots(env, ctx, step.state, dexId, baseAssetId, quoteAssetId, liquidityUSD, types[1..])
  }

  /** The state and totals of the loop of `getLockedLiquidityUSD` over the remaining books. */
  datatype LockedStepResult = LockedStepResult(outcome: Outcome<Error>, state: SnapState, totals: JsMap<AssetId, int>)

  /**
   * One iteration of `getLockedLiquidityUSD`: add the book's reserves to the
   * totals, then record its USD liquidity in the snapshots of the pair.
   */
  function LockBook(env: Env, ctx: BlockContext, s: SnapState, totals: JsMap<AssetId, int>, book: OrderBook)
    : (r: LockedStepResult)
    requires s.Valid()
    ensures r.state.Valid()
    ensures r.totals == LockedStep(env, totals, book)
  {
    var step := LiquiditySnapshots(env, ctx, s, book.dexId, env.toAssetId(book.baseAsset),
                                   env.toAssetId(book.quoteAsset), BookLiquidityUSD(ctx, book), ActiveTypes(ctx));
    LockedStepResult(step.result, step.state, LockedStep(env, totals, book))
  }

  /** The loop of `getLockedLiquidityUSD` over the remaining books. */
  function LockedLoop(env: Env, ctx: BlockContext, s: SnapState, totals: JsMap<AssetId, int>, books: seq<OrderBook>)
    : (r: LockedStepResult)
    requires s.Valid()
    ensures r.state.Valid()
    ensures r.outcome.Pass? ==> r.totals == LockedTotals(env, totals, books)
    decreases |books|
  {
    if |books| == 0 then LockedStepResult(Pass, s, totals)
    else
      var step := LockBook(env, ctx, s, totals, books[0]);
      if step.outcome.Fail? then step
      else LockedLoop(env, ctx, step.state, step.totals, books[1..])
  }

  /** The calls `assetStorage.updateLiquidityBooks` receives, in `lockedAssets` order. */
  function LiquidityCascades(totals: JsMap<AssetId, int>): (r: seq<Cascade>)
    requires totals.Valid()
    ensures |r| == |totals.keys|
    ensures forall i :: 0 <= i < |r| ==> r[i] == LiquidityBooks(totals.keys[i], totals.m[totals.keys[i]])
  {
    seq(|totals.keys|, i requires 0 <= i < |totals.keys| => LiquidityBooks(totals.keys[i], totals.m[totals.keys[i]]))
  }

  /**
   * `getLockedLiquidityUSD` over the books cached when it starts: the
   * returned USD total (never updated, so 0) and the forwarded per-asset
   * totals.
   */
  function LockedLiquidity(env: Env, ctx: BlockContext, s: SnapState): (r: SnapStep<Result<(real, seq<Cascade>), Error>>)
    requires s.Valid()
    ensures r.state.Valid()
    ensures r.result.Ok? ==> r.result.value == (0.0, LiquidityCascades(LockedTotals(env, Empty(), s.books.cache.Values())))
  {
    var loop := LockedLoop(env, ctx, s, Empty(), s.books.cache.Values());
    if loop.outcome.Fail? then SnapStep(Err(loop.outcome.error), loop.state)
    else SnapStep(Ok((0.0, LiquidityCascades(loop.totals))), loop.state)
  }

  /** Whether a snapshot's bucket has closed at the block's timestamp. */
  predicate Expired(env: Env, ctx: BlockContext, s: Snapshot)
  {
    env.bucketOf(ctx.timestamp, s.snapshotType).timestamp > s.timestamp
  }

  /** `syncSnapshots`: save every cached snapshot, then evict those whose bucket has closed. */
  function SyncedSnapshots(env: Env, ctx: BlockContext, s: SnapState): (r: SnapState)
    requires s.Valid()
    ensures r.Valid()
  {
    s.(stored := s.stored + s.cache,
       cache := map k | k in s.cache && !Expired(env, ctx, s.cache[k]) :: s.cache[k])
  }
}
