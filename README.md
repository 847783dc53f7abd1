# sora-indexer order books and comparison tooling, in Dafny

This project models two parts of the sora-indexer repository and proves
properties of them.

**The order-book engine of the Subsquid indexer**
(`packages/subsquid/src/utils/orderBook.ts`). It has two cooperating stores.
- `OrderBooksStorage` keeps one `OrderBook` entity per trading pair in a
  write-back `Map` cache. It keeps an index from technical accounts to order
  books. It creates missing books with fixed defaults, and it records every
  deal: the last price and the 20 newest deals. It also totals the locked
  reserves per asset.
- `OrderBooksSnapshotsStorage` keeps time-bucketed `OrderBookSnapshot`
  statistics, one per book, resolution and bucket index.
  - On each deal it accumulates base, quote and USD volume in every active
    resolution, and it updates the OHLC record.
  - It overwrites `liquidityUSD` when the locked liquidity is valued.
  - On sync it writes every snapshot to the store and evicts those whose
    bucket has closed.

**The data-comparison tooling** (`packages/compare-data`).
- GraphQL query builders render a field scheme and the paging variables into
  query text.
- In-place sorts by id, block height and timestamp.
- `compare` partitions two datasets by id into only / common / different
  lists.
- The history-element processing renames snake_case keys to camelCase,
  parses id-valued arguments with `parseInt`, and reshapes each node.

**How the model is built.**
- Entities are datatypes. The two storages and the persistent store are
  classes whose methods update their fields as the source does.
- Each method is proved equal to a pure function over a value state. Those
  functions live in `OrderBookModel`, and the lemmas in `OrderBookLemmas`
  state what they guarantee.
- A JavaScript `Map` keeps insertion order. It is modelled as a key sequence
  plus a map (`JsMaps.JsMap`), because `Object.entries`, `Map.entries()` and
  `Map.values()` follow that order.
- bignumber.js decimals are `real`. `bigint` reserves are `int`.
- Helpers from files outside this model are parameters, grouped in `Env` for
  pure helpers and `BlockContext` for per-block answers:
  - `getSnapshotIndex`, `toAssetId`, `toAddress`, `predefinedAssets` and the
    rounding of `toFixed(2)` are in `Env`;
  - `shouldUpdate(ctx, 60)`, `getSnapshotTypes`, the technical-accounts table,
    an asset's `priceUSD` and `calcTvlUSD` are in `BlockContext`.
- Calls into the asset and network aggregators are returned as `Cascade`
  records, in call order:
  - `assetSnapshotsStorage.updateVolume`;
  - `networkSnapshotsStorage.updateVolumeStats`;
  - `assetStorage.updateLiquidityBooks`.

Two behaviours of the code are modelled as written.
- **First deal on a pair throws.** A first deal on a pair that has never
  traded throws, because the snapshot-level `updateDeal` fetches the
  snapshots before the book-level `updateDeal` sets the price
  (`orderBook.ts:425-451`). A snapshot created for such a book hits
  `assertDefined(orderBook.price)` (`orderBook.ts:373`).
  `FreshPairDealFails` states this.
- **Base equal to quote.** In `getLockedLiquidityUSD` both running totals are
  read before either is written (`orderBook.ts:296-300`). A book whose base
  and quote asset coincide therefore adds only its quote reserves.
  `Contribution` models this, and `LockedCallsSums` is stated with it.

## Model

| member | source | states |
|---|---|---|
| OrderBookIds.ParseGetId | packages/subsquid/src/utils/orderBook.ts:152-164 | `parseId(getId(d, b, q))` gives back `d`, `b` and `q` when `d` is a non-negative integer and neither asset id contains `'-'` |
| OrderBookIds.GetIdInjective | packages/subsquid/src/utils/orderBook.ts:152-154 | distinct (dex, base, quote) triples without `'-'` in the asset ids get distinct order-book ids |
| OrderBookIds.GetOrderIdInjective | packages/subsquid/src/utils/orderBook.ts:166-168 | the order id after the last `'_'` and the book id before it are recovered from `getOrderId` when the order id has no `'_'` |
| OrderBookIds.SnapshotIdInjective | packages/subsquid/src/utils/orderBook.ts:327-329 | a snapshot id determines its order-book id, resolution and bucket index, whatever the book id contains |
| OrderBookIds.SnapshotIdParts | packages/subsquid/src/utils/orderBook.ts:327-329 | a snapshot id is book id, resolution name and index joined by `'-'`, and the last two contain no `'-'` |
| OrderBookIds.ParseNumber | packages/subsquid/src/utils/orderBook.ts:160 | `Number` of a missing piece is `NaN`, of the empty string 0 |
| OrderBookIds.GetId | packages/subsquid/src/utils/orderBook.ts:152-154 | the book id splits at `'-'` into the dex id's text and the two asset ids when none of them contains `'-'` |
| OrderBookIds.ParseId | packages/subsquid/src/utils/orderBook.ts:156-164 | an id without `'-'` parses to its number and two missing asset ids; a quote asset id is only present after a base asset id |
| OrderBookIds.GetOrderId | packages/subsquid/src/utils/orderBook.ts:166-168 | the last `'_'` of an order id sits right after the book id, with the order id after it, when the order id has no `'_'` |
| OrderBookIds.SnapshotId | packages/subsquid/src/utils/orderBook.ts:327-329 | a snapshot id starts with its order-book id and is longer than it |
| OrderBookIds.SnapshotIdIndex | packages/subsquid/src/utils/orderBook.ts:327-329 | for a natural bucket index, the last `'-'` of a snapshot id follows the book id and resolution name, and the index's text comes after it |
| OrderBookIds.TypeName | packages/subsquid/src/utils/orderBook.ts:328 | the resolution's name in a snapshot id contains no `'-'` |
| OrderBookModel.ActiveTypes | packages/subsquid/src/utils/orderBook.ts:92 | the resolutions a deal or a liquidity update visits are exactly the active ones, each once |
| OrderBookModel.CalcVolume | packages/subsquid/src/utils/orderBook.ts:15-23 | `calcVolume` of one snapshot is its `volumeUSD`, and non-negative volumes sum to a non-negative total |
| OrderBookModel.GetAssetIdFromTech | packages/subsquid/src/utils/orderBook.ts:71-90 | throws exactly on a `Wrapped` kind missing from `predefinedAssets` or equal to DOT, KSM or USDT; otherwise gives the predefined asset or `toAssetId` of the escaped value |
| OrderBookModel.PushDeal | packages/subsquid/src/utils/orderBook.ts:239-243 | the new deal first, then the old deals in order, cut to at most `LAST_DEALS_LENGTH` = 20 |
| OrderBookModel.AccumulateDeal | packages/subsquid/src/utils/orderBook.ts:427-443 | adds amount, amount × price and amount × price × quote USD price to the three volumes; an `open` of 0 takes the price; then `close` is the price and `low ≤ price ≤ high`; the OHLC record stays well formed and only widens; no other field changes |
| OrderBookModel.NewOrderBook | packages/subsquid/src/utils/orderBook.ts:189-199 | a created book has the given id, the parsed dex id, status `Trade`, zero reserves, no price, no deals and the current height |
| OrderBookModel.NewSnapshot | packages/subsquid/src/utils/orderBook.ts:375-389 | a created snapshot has zero volumes and liquidity, the bucket start as timestamp, and an OHLC record of four equal prices |
| OrderBookModel.FindIn | packages/subsquid/src/utils/orderBook.ts:128-133 | the first account in insertion order that maps to the book, or none exactly when no account does |
| OrderBookModel.ScanAccounts | packages/subsquid/src/utils/orderBook.ts:110-125 | scanning the technical accounts keeps the index well formed |
| OrderBookModel.UpdateAccountIds | packages/subsquid/src/utils/orderBook.ts:105-126 | rebuilding the index from the technical-accounts table keeps it well formed |
| OrderBookModel.ResolveAccount | packages/subsquid/src/utils/orderBook.ts:135-145 | a hit answers from the index untouched; the index is then either unchanged or rebuilt once; an address returned maps to the book |
| OrderBookModel.SaveBook | packages/subsquid/src/utils/orderBook.ts:170-178 | `save` stamps the current height and writes to the store only when forced or when the flush is due |
| OrderBookModel.FetchBook | packages/subsquid/src/utils/orderBook.ts:180-207 | a returned book carries the requested id and is then cached under it |
| OrderBookModel.FetchBookByAccount | packages/subsquid/src/utils/orderBook.ts:215-223 | the lookup through an account keeps the book state well formed |
| OrderBookModel.BookDeal | packages/subsquid/src/utils/orderBook.ts:225-248 | a book-level deal keeps the book state well formed |
| OrderBookModel.LockedStep | packages/subsquid/src/utils/orderBook.ts:293-300 | one book's reserves keep the per-asset totals well formed |
| OrderBookModel.LockedTotals | packages/subsquid/src/utils/orderBook.ts:292-307 | the totals over all cached books stay well formed |
| OrderBookModel.BookLiquidityUSD | packages/subsquid/src/utils/orderBook.ts:302-304 | a book's USD liquidity is non-negative when both its base and quote valuations are |
| OrderBookModel.FetchSnapshot | packages/subsquid/src/utils/orderBook.ts:352-397 | a returned snapshot carries the current id for the pair and resolution and is cached under it; on error the snapshot cache is unchanged; the snapshot store is never written |
| OrderBookModel.CurrentSnapshotId | packages/subsquid/src/utils/orderBook.ts:359-362 | the current snapshot id of a pair starts with the pair's book id |
| OrderBookModel.DealInto | packages/subsquid/src/utils/orderBook.ts:426-443 | one resolution's deal update keeps the state well formed and leaves the snapshot store alone |
| OrderBookModel.DealSnapshots | packages/subsquid/src/utils/orderBook.ts:425-449 | the loop over resolutions keeps the state well formed and leaves the snapshot store alone |
| OrderBookModel.QuotePriceUSD | packages/subsquid/src/utils/orderBook.ts:419-420 | the quote asset's USD price when it has one, else 0 |
| OrderBookModel.DealCascades | packages/subsquid/src/utils/orderBook.ts:415-455 | three forwarded calls, in order: the base volume `amount`, the quote volume `amount × price`, and the USD volume `amount × price × quote USD price` |
| OrderBookModel.SnapshotDeal | packages/subsquid/src/utils/orderBook.ts:405-456 | the snapshot-level deal keeps the state well formed |
| OrderBookModel.LiquidityInto | packages/subsquid/src/utils/orderBook.ts:468-470 | one resolution's liquidity update keeps the state well formed and leaves the snapshot store alone |
| OrderBookModel.LiquiditySnapshots | packages/subsquid/src/utils/orderBook.ts:458-472 | the loop over resolutions keeps the state well formed and leaves the snapshot store alone |
| OrderBookModel.LockBook | packages/subsquid/src/utils/orderBook.ts:293-300 | one book adds its reserves to the totals as `LockedStep` does; what it writes to the snapshots is stated by `OrderBookLemmas.LockBookEffect` |
| OrderBookModel.LockedLoop | packages/subsquid/src/utils/orderBook.ts:292-307 | when no snapshot fetch throws, the loop's totals are those of `LockedTotals` over the books in cache order |
| OrderBookModel.LiquidityCascades | packages/subsquid/src/utils/orderBook.ts:310-312 | one `updateLiquidityBooks` call per total, in insertion order, with that asset's total |
| OrderBookModel.LockedLiquidity | packages/subsquid/src/utils/orderBook.ts:287-315 | `getLockedLiquidityUSD` returns 0 and forwards the totals over the cached books; what it writes to the snapshots is stated by `OrderBookLemmas.LockedLiquidityWrites` |
| OrderBookModel.SyncedSnapshots | packages/subsquid/src/utils/orderBook.ts:335-350 | a sync keeps the state well formed |
| OrderBookLemmas.CalcVolumeAppend | packages/subsquid/src/utils/orderBook.ts:15-23 | `calcVolume` of two lists concatenated is the sum of their volumes |
| OrderBookLemmas.PushDealsNewestFirst | packages/subsquid/src/utils/orderBook.ts:239-243 | after several deals `lastDeals` is the deals newest first, then the old list, cut to 20 |
| OrderBookLemmas.LastDealsBounded | packages/subsquid/src/utils/orderBook.ts:239-243 | `lastDeals` never exceeds 20 entries, and its head is the latest deal |
| OrderBookLemmas.FillsBaseVolume | packages/subsquid/src/utils/orderBook.ts:427-431 | after a series of deals the base volume is the running sum of the amounts |
| OrderBookLemmas.FillsQuoteVolume | packages/subsquid/src/utils/orderBook.ts:427-433 | the quote volume is the running sum of amount × price |
| OrderBookLemmas.FillsUSDVolume | packages/subsquid/src/utils/orderBook.ts:427-433 | the USD volume is the running sum of amount × price × the quote asset's USD price |
| OrderBookLemmas.FillsKeepOtherFields | packages/subsquid/src/utils/orderBook.ts:427-443 | deals change only the three volumes and the OHLC record; `liquidityUSD` in particular is kept |
| OrderBookLemmas.FillsOhlc | packages/subsquid/src/utils/orderBook.ts:436-443 | after deals at positive prices the OHLC record is well formed, `close` is the last price, every price lies in `[low, high]`, and `open` is the first price when it started at 0 |
| OrderBookLemmas.MappingsFromKeepers | packages/subsquid/src/utils/orderBook.ts:113-122 | every mapping the scan adds comes from a `Pure` `OrderBookLiquidityKeeper` entry, keyed by its address and pointing at `getId(dexId, target, base)` |
| OrderBookLemmas.ScanOutcome | packages/subsquid/src/utils/orderBook.ts:110-125 | whether the scan throws depends only on the table, not on the index it starts from |
| OrderBookLemmas.ScanStep | packages/subsquid/src/utils/orderBook.ts:110-123 | one entry of the scan: a keeper entry sets its mapping, any other entry is skipped |
| OrderBookLemmas.ScanMaps | packages/subsquid/src/utils/orderBook.ts:110-125 | the rebuilt index is the old one overridden by the keepers' mappings |
| OrderBookLemmas.ScanKeepsKeys | packages/subsquid/src/utils/orderBook.ts:122 | re-setting addresses already present keeps the insertion order |
| OrderBookLemmas.RebuildIdempotent | packages/subsquid/src/utils/orderBook.ts:105-145 | rebuilding the index a second time changes nothing, so the one rebuild `getAccountId` allows itself already yields everything |
| OrderBookLemmas.ResolveAbsent | packages/subsquid/src/utils/orderBook.ts:135-145 | `getAccountId` answers null only when no account of the index maps to the book |
| OrderBookLemmas.FetchBookCached | packages/subsquid/src/utils/orderBook.ts:181-183 | a cache hit returns the cached book and changes nothing |
| OrderBookLemmas.FetchBookStored | packages/subsquid/src/utils/orderBook.ts:184-205 | a stored book is returned and cached, and nothing else changes |
| OrderBookLemmas.FetchBookCreates | packages/subsquid/src/utils/orderBook.ts:187-206 | a book found nowhere is created with the defaults, written to the store (forced save) and cached; a throw of the account lookup propagates |
| OrderBookLemmas.FetchBookByAccountUnmapped | packages/subsquid/src/utils/orderBook.ts:215-223 | an unmapped account answers null without any lookup or rebuild |
| OrderBookLemmas.LoadBook | packages/subsquid/src/utils/orderBook.ts:184-205 | loading a stored book into the cache keeps the state well formed, the store and the account index, and caches the stored book when it was not cached |
| OrderBookLemmas.FetchBookLoaded | packages/subsquid/src/utils/orderBook.ts:180-207 | fetching a book answers the same and leaves the same state whether or not it was loaded from the store beforehand |
| OrderBookLemmas.FetchBookSettles | packages/subsquid/src/utils/orderBook.ts:180-207 | after a fetch there is nothing left to load for that book |
| OrderBookLemmas.BookDealLoaded | packages/subsquid/src/utils/orderBook.ts:225-248 | the book-level deal is the same whether or not the pair's book was loaded beforehand |
| OrderBookLemmas.BookDealAgrees | packages/subsquid/src/utils/orderBook.ts:225-248 | two book states that agree once the pair's book is loaded give the same book-level deal |
| OrderBookLemmas.BookDealUpdatesBook | packages/subsquid/src/utils/orderBook.ts:225-245 | after a book-level deal the cached book has the deal's price, the deal pushed onto `lastDeals` (at most 20, the deal first), the current height, and no other change; it fails exactly when the fetch fails |
| OrderBookLemmas.FetchSnapshotSeed | packages/subsquid/src/utils/orderBook.ts:352-397 | the snapshot fetched is the cached one, else the stored one, else a new one seeded from the price of the pair's book, whether that book is cached or only stored; it is cached under its id, the snapshot store is not written, and the book side is unchanged or has the stored book loaded into the cache |
| OrderBookLemmas.FetchSnapshotSeedMiss | packages/subsquid/src/utils/orderBook.ts:368-396 | the case of `FetchSnapshotSeed` where the snapshot is created from the book's price |
| OrderBookLemmas.Loaded | packages/subsquid/src/utils/orderBook.ts:368-372 | the snapshot side with the pair's book loaded: snapshots and store untouched, book side as `LoadBook` says |
| OrderBookLemmas.FetchSnapshotLoaded | packages/subsquid/src/utils/orderBook.ts:352-397 | `getSnapshot` answers the same whether or not the pair's book was loaded beforehand, and the states agree once it is loaded |
| OrderBookLemmas.FetchSnapshotMissLoaded | packages/subsquid/src/utils/orderBook.ts:368-396 | the same when the snapshot must be created from the book |
| OrderBookLemmas.DealIntoLoaded | packages/subsquid/src/utils/orderBook.ts:426-443 | one deal iteration answers the same whether or not the pair's book was loaded beforehand |
| OrderBookLemmas.LiquidityIntoLoaded | packages/subsquid/src/utils/orderBook.ts:468-470 | one liquidity iteration answers the same whether or not the pair's book was loaded beforehand |
| OrderBookLemmas.DealSnapshotsLoaded | packages/subsquid/src/utils/orderBook.ts:425-449 | the whole deal loop answers the same whether or not the pair's book was loaded beforehand |
| OrderBookLemmas.LiquiditySnapshotsLoaded | packages/subsquid/src/utils/orderBook.ts:458-472 | the whole liquidity loop answers the same whether or not the pair's book was loaded beforehand |
| OrderBookLemmas.CurrentIdsDistinct | packages/subsquid/src/utils/orderBook.ts:360-362 | two resolutions never share a current snapshot id |
| OrderBookLemmas.SeedsKept | packages/subsquid/src/utils/orderBook.ts:425-426 | writing one resolution's snapshot leaves the other resolutions' snapshots as they were |
| OrderBookLemmas.DealSnapshotsStep | packages/subsquid/src/utils/orderBook.ts:425-443 | once the pair's book is cached (or in neither cache nor store), one iteration of the deal loop writes the accumulated snapshot under its id and continues with the rest |
| OrderBookLemmas.LiquiditySnapshotsStep | packages/subsquid/src/utils/orderBook.ts:467-470 | once the pair's book is cached (or in neither cache nor store), one iteration of the liquidity loop writes the rounded liquidity under its id and continues with the rest |
| OrderBookLemmas.WrittenKeys | packages/subsquid/src/utils/orderBook.ts:425-426 | the loop writes exactly the current snapshot ids of the resolutions it visits |
| OrderBookLemmas.WrittenAt | packages/subsquid/src/utils/orderBook.ts:425-443 | each visited resolution's snapshot is the updated version of the one fetched |
| OrderBookLemmas.WrittenSeedsAgree | packages/subsquid/src/utils/orderBook.ts:425-426 | what the loop writes depends only on the snapshots it fetches |
| OrderBookLemmas.WrittenStep | packages/subsquid/src/utils/orderBook.ts:425-443 | peeling off the first resolution keeps the writes of the whole loop |
| OrderBookLemmas.WrittenRest | packages/subsquid/src/utils/orderBook.ts:425-426 | the first resolution's write neither appears in nor alters the writes of the rest |
| OrderBookLemmas.DealSnapshotsSettled | packages/subsquid/src/utils/orderBook.ts:425-449 | once the pair's book is cached (or in neither cache nor store), the deal loop completes with each visited snapshot replaced by its accumulated version and nothing else changed |
| OrderBookLemmas.LiquiditySnapshotsSettled | packages/subsquid/src/utils/orderBook.ts:458-472 | once the pair's book is cached (or in neither cache nor store), the liquidity loop completes with each visited snapshot's liquidity overwritten and nothing else changed |
| OrderBookLemmas.DealSnapshotsEffect | packages/subsquid/src/utils/orderBook.ts:425-449 | whether or not the pair's book is cached, the deal loop completes, leaves the snapshot store alone, replaces each visited snapshot in the cache by its accumulated version, and changes the book side at most by loading the pair's book from the store |
| OrderBookLemmas.LiquiditySnapshotsEffect | packages/subsquid/src/utils/orderBook.ts:458-472 | whether or not the pair's book is cached, the liquidity loop completes, leaves the snapshot store alone, overwrites each visited snapshot's `liquidityUSD` by `toFixed(2)` of the value, and changes the book side at most by loading the pair's book from the store |
| OrderBookLemmas.SnapshotDealEffect | packages/subsquid/src/utils/orderBook.ts:405-456 | a snapshot-level deal, whether or not the pair's book was cached, accumulates into exactly the active resolutions' current snapshots, leaves every other snapshot and the snapshot store alone, leaves the book side as the book-level deal on the original books does, forwards the volume calls, and succeeds exactly when the book-level deal does |
| OrderBookLemmas.FreshPairDealFails | packages/subsquid/src/utils/orderBook.ts:368-451 | the first deal of a pair unknown to cache and store throws, because its snapshot is seeded before the book has a price |
| OrderBookLemmas.LockedStepGet | packages/subsquid/src/utils/orderBook.ts:296-300 | one book adds its contribution to each asset's total and adds exactly the assets it mentions |
| OrderBookLemmas.LockedTotalsSum | packages/subsquid/src/utils/orderBook.ts:292-300 | each asset's total is the sum of the books' contributions |
| OrderBookLemmas.LockedTotalsKeys | packages/subsquid/src/utils/orderBook.ts:292-300 | the totals hold exactly the assets some book mentions |
| OrderBookLemmas.LockedCallsSums | packages/subsquid/src/utils/orderBook.ts:288-312 | `getLockedLiquidityUSD` forwards one call per asset the books mention, none twice, each with the sum of that asset's reserves |
| OrderBookLemmas.LockedCallsEach | packages/subsquid/src/utils/orderBook.ts:296-312 | each forwarded call carries the reserve sum of an asset some book mentions |
| OrderBookLemmas.LockedCallsCover | packages/subsquid/src/utils/orderBook.ts:296-300 | every asset some book mentions gets a total |
| OrderBookLemmas.CascadesPerKey | packages/subsquid/src/utils/orderBook.ts:310-312 | the forwarded calls name each total's asset exactly once |
| OrderBookLemmas.LiquiditySnapshotsKeepBooks | packages/subsquid/src/utils/orderBook.ts:458-472 | when the pair's book is cached, `updateLiquidityUSD` leaves the book side unchanged |
| OrderBookLemmas.LockedLoopKeepsBooks | packages/subsquid/src/utils/orderBook.ts:292-307 | when every cached book sits under the id of its own pair, the locked-liquidity loop over cached books leaves the book side unchanged |
| OrderBookLemmas.LockedLiquidityKeepsBooks | packages/subsquid/src/utils/orderBook.ts:287-315 | under the same condition `getLockedLiquidityUSD` leaves the book cache as it found it, so iterating over the books cached at its start is iterating over the live cache |
| OrderBookLemmas.LockBookEffect | packages/subsquid/src/utils/orderBook.ts:302-306 | when every active snapshot of the book's pair can be had, one iteration completes, leaves the snapshot store alone and writes exactly the pair's current snapshots, each the snapshot `getSnapshot` hands out with `liquidityUSD` set to the base plus quote value rounded to 2 decimals |
| OrderBookLemmas.BookSnapshotIdsApart | packages/subsquid/src/utils/orderBook.ts:361-362 | two different cached books, each under the id of its own pair, have no current snapshot id in common |
| OrderBookLemmas.LockBookRecords | packages/subsquid/src/utils/orderBook.ts:293-306 | for a cached book under the id of its own pair, one iteration also leaves the book side alone and changes no cache entry other than the pair's current snapshots |
| OrderBookLemmas.LockedLoopWrites | packages/subsquid/src/utils/orderBook.ts:292-307 | over distinct cached books, each under the id of its own pair and with all active snapshots to be had, the loop completes, leaves store and book side alone, records each book's rounded liquidity in every current snapshot of its pair, and leaves every other cached snapshot unchanged |
| OrderBookLemmas.LockedLiquidityWrites | packages/subsquid/src/utils/orderBook.ts:287-315 | under the same conditions for every cached book, `getLockedLiquidityUSD` succeeds, and each cached book's current snapshot of each active resolution ends as the snapshot `getSnapshot` hands out beforehand with `liquidityUSD` the book's base plus quote value rounded to 2 decimals; every other cached snapshot is unchanged |
| OrderBookLemmas.SyncEvictsClosedBuckets | packages/subsquid/src/utils/orderBook.ts:335-350 | sync writes every cached snapshot to the store and keeps in cache exactly those whose bucket is still open |
| OrderBookLemmas.SyncIdempotent | packages/subsquid/src/utils/orderBook.ts:335-350 | a second sync in the same block changes nothing |
| OrderBookStorage.Store.constructor | packages/subsquid/src/utils/orderBook.ts:174 | the persistent store starts empty |
| OrderBookStorage.Store.SaveBook | packages/subsquid/src/utils/orderBook.ts:174 | `ctx.store.save(orderBook)` writes one book under its id |
| OrderBookStorage.Store.SaveBooks | packages/subsquid/src/utils/orderBook.ts:149 | saving the cached books writes each under its id |
| OrderBookStorage.Store.SaveSnapshots | packages/subsquid/src/utils/orderBook.ts:338 | saving the cached snapshots writes each under its id |
| OrderBookStorage.OrderBooksStorage.constructor | packages/subsquid/src/utils/orderBook.ts:100-103 | the book cache and the account index start empty |
| OrderBookStorage.OrderBooksStorage.UpdateAccountIds | packages/subsquid/src/utils/orderBook.ts:105-126 | the loop over the technical accounts rebuilds the index as `UpdateAccountIds` says |
| OrderBookStorage.OrderBooksStorage.FindAccountId | packages/subsquid/src/utils/orderBook.ts:128-133 | the loop returns the first account mapping to the book, as `FindIn` says |
| OrderBookStorage.OrderBooksStorage.GetAccountId | packages/subsquid/src/utils/orderBook.ts:135-145 | the lookup, one rebuild on a miss, and a second lookup, as `ResolveAccount` says |
| OrderBookStorage.OrderBooksStorage.Sync | packages/subsquid/src/utils/orderBook.ts:147-150 | every cached book is written to the store |
| OrderBookStorage.OrderBooksStorage.Save | packages/subsquid/src/utils/orderBook.ts:170-178 | stamps the height and writes when forced or due, as `SaveBook` says |
| OrderBookStorage.OrderBooksStorage.GetOrderBookById | packages/subsquid/src/utils/orderBook.ts:180-207 | the cache, store and create path, as `FetchBook` says |
| OrderBookStorage.OrderBooksStorage.GetOrderBook | packages/subsquid/src/utils/orderBook.ts:209-213 | fetches the book under `getId(dexId, base, quote)` |
| OrderBookStorage.OrderBooksStorage.GetOrderBookByAccountId | packages/subsquid/src/utils/orderBook.ts:215-223 | as `FetchBookByAccount` says |
| OrderBookStorage.OrderBooksStorage.UpdateDeal | packages/subsquid/src/utils/orderBook.ts:225-248 | as `BookDeal` says |
| OrderBookStorage.OrderBooksStorage.LockBook | packages/subsquid/src/utils/orderBook.ts:293-306 | one iteration of the locked-liquidity loop, as `LockBook` says |
| OrderBookStorage.OrderBooksStorage.AddReserves | packages/subsquid/src/utils/orderBook.ts:296-300 | the two reads and two writes of the totals, as `LockedStep` says |
| OrderBookStorage.OrderBooksStorage.GetLockedLiquidityUSD | packages/subsquid/src/utils/orderBook.ts:287-315 | as `LockedLiquidity` says |
| OrderBookStorage.ForwardLiquidityBooks | packages/subsquid/src/utils/orderBook.ts:310-312 | the loop over the totals issues the calls of `LiquidityCascades` |
| OrderBookStorage.OrderBooksSnapshotsStorage.constructor | packages/subsquid/src/utils/orderBook.ts:322-325 | the snapshot cache starts empty and is tied to the book storage |
| OrderBookStorage.OrderBooksSnapshotsStorage.SyncSnapshots | packages/subsquid/src/utils/orderBook.ts:335-350 | the save and the eviction loop, as `SyncedSnapshots` says |
| OrderBookStorage.OrderBooksSnapshotsStorage.GetSnapshot | packages/subsquid/src/utils/orderBook.ts:352-397 | as `FetchSnapshot` says |
| OrderBookStorage.OrderBooksSnapshotsStorage.AccumulateActive | packages/subsquid/src/utils/orderBook.ts:425-449 | the loop over active resolutions, as `DealSnapshots` says |
| OrderBookStorage.OrderBooksSnapshotsStorage.AccumulateInto | packages/subsquid/src/utils/orderBook.ts:426-443 | one iteration of that loop, as `DealInto` says |
| OrderBookStorage.OrderBooksSnapshotsStorage.UpdateDeal | packages/subsquid/src/utils/orderBook.ts:405-456 | as `SnapshotDeal` says |
| OrderBookStorage.OrderBooksSnapshotsStorage.UpdateLiquidityUSD | packages/subsquid/src/utils/orderBook.ts:458-472 | as `LiquiditySnapshots` says |
| OrderBookStorage.OrderBooksSnapshotsStorage.LiquidityOf | packages/subsquid/src/utils/orderBook.ts:468-470 | one iteration of that loop, as `LiquidityInto` says |
| QueryBuilders.Names | packages/compare-data/src/utils/queryBuilders.ts:5 | the names of a scheme's entries, nested entries by their first component |
| QueryBuilders.FieldsScheme | packages/compare-data/src/utils/queryBuilders.ts:9 | the inner field list of a nested entry is a flat scheme with those names |
| QueryBuilders.SubqueryNodeSchemeToString | packages/compare-data/src/utils/queryBuilders.ts:4-6 | splitting the rendering of a non-empty scheme at `'\n'` gives back the entry names, when no name contains `'\n'` |
| QueryBuilders.SubsquidNodeSchemeToString | packages/compare-data/src/utils/queryBuilders.ts:8-10 | on a scheme without nested entries the Subsquid rendering is the Subquery rendering |
| QueryBuilders.NestedEntryRendering | packages/compare-data/src/utils/queryBuilders.ts:8-10 | a nested entry renders as `name { f1\n…\nfn }` |
| QueryBuilders.VariableEntries | packages/compare-data/src/utils/queryBuilders.ts:12-16 | the rendered entries are no more than the variables |
| QueryBuilders.VariablesToString | packages/compare-data/src/utils/queryBuilders.ts:12-16 | all-null variables render as the empty text, and a single non-null variable as `key: value` |
| QueryBuilders.NullsDropped | packages/compare-data/src/utils/queryBuilders.ts:14 | a trailing variable whose value is null adds nothing to the rendered text |
| QueryBuilders.NullEntryDropped | packages/compare-data/src/utils/queryBuilders.ts:14 | a trailing null variable adds no entry |
| QueryBuilders.TwoEntries | packages/compare-data/src/utils/queryBuilders.ts:15 | two non-null variables render as `k0: v0, k1: v1`, strings quoted, numbers bare |
| QueryBuilders.EntryThenNull | packages/compare-data/src/utils/queryBuilders.ts:14-15 | a null second variable leaves only `k0: v0` |
| QueryBuilders.SubqueryArguments | packages/compare-data/src/utils/queryBuilders.ts:18-23 | the Subquery builder always passes `first: limit, offset: offset` |
| QueryBuilders.SubsquidArguments | packages/compare-data/src/utils/queryBuilders.ts:39-44 | the Subsquid builder passes `after: "offset"` exactly when `offset > 0`, and `first: limit` always |
| QueryBuilders.CursorArguments | packages/compare-data/src/utils/queryBuilders.ts:42 | with a positive offset the cursor is `String(offset)` in quotes |
| QueryBuilders.SubqueryQueryBuilder | packages/compare-data/src/utils/queryBuilders.ts:18-37 | the query is the template with head `name(first: limit, offset: offset)` and the Subquery field rendering |
| QueryBuilders.SubsquidQueryBuilder | packages/compare-data/src/utils/queryBuilders.ts:39-59 | the query is the template with head `name(orderBy: id_ASC, first: limit, after: "offset")` for a positive offset, else `name(orderBy: id_ASC, first: limit)`, and the Subsquid field rendering |
| QueryBuilders.TemplateInjective | packages/compare-data/src/utils/queryBuilders.ts:18-59 | for field renderings of equal length, the query text determines the model head and the field rendering placed in it |
| QueryBuilders.SubqueryPagesDistinct | packages/compare-data/src/utils/queryBuilders.ts:18-37 | two Subquery pages with different offsets are different queries |
| QueryBuilders.SubsquidFirstPage | packages/compare-data/src/utils/queryBuilders.ts:42 | every non-positive offset gives the first-page Subsquid query |
| QueryBuilders.SubsquidPagesDistinct | packages/compare-data/src/utils/queryBuilders.ts:39-59 | two Subsquid pages with different positive offsets are different queries |
| Sorting.SortInPlace | packages/compare-data/src/utils/sort.ts:2 | permutes the array in place, and with a total comparator the model's insertion sort leaves neighbours in comparator order |
| Sorting.Insert | packages/compare-data/src/utils/sort.ts:2 | one insertion step permutes the prefix, extends the sorted prefix by one, and leaves the rest alone |
| Sorting.InsertionStart | packages/compare-data/src/utils/sort.ts:2 | the insertion invariant holds before the first swap |
| Sorting.SwapStep | packages/compare-data/src/utils/sort.ts:2 | swapping an out-of-order pair keeps the insertion invariant |
| Sorting.InsertionDone | packages/compare-data/src/utils/sort.ts:2 | when no swap is due the prefix is sorted |
| Sorting.Swap | packages/compare-data/src/utils/sort.ts:2 | exchanges two neighbours, a permutation |
| Sorting.AdjacentToOrdered | packages/compare-data/src/utils/sort.ts:1-5 | with a transitive comparator, neighbours in order means the whole array is in order |
| Sorting.AdjacentKeysToOrdered | packages/compare-data/src/utils/sort.ts:7-17 | keys non-decreasing between neighbours are non-decreasing throughout |
| Sorting.ByKey | packages/compare-data/src/utils/sort.ts:7-17 | the subtraction comparator orders by the key |
| Sorting.ById | packages/compare-data/src/utils/sort.ts:3 | the id comparator is `localeCompare` of the ids |
| Sorting.SortById | packages/compare-data/src/utils/sort.ts:1-5 | returns the same array, permuted, with ids in `localeCompare` order |
| Sorting.SortByBlockHeight | packages/compare-data/src/utils/sort.ts:7-11 | returns the same array, permuted, with block heights non-decreasing |
| Sorting.SortByTimestamp | packages/compare-data/src/utils/sort.ts:13-17 | returns the same array, permuted, with timestamps non-decreasing |
| Sorting.BlockHeightOrTimestamp | packages/compare-data/src/utils/sort.ts:20-27 | compares by block height when both items have one, else by timestamp when both have one, else reports them equal |
| Sorting.BlockHeightOrTimestampTotal | packages/compare-data/src/utils/sort.ts:20-27 | that comparator is total |
| Sorting.BlockHeightOrTimestampNotTransitive | packages/compare-data/src/utils/sort.ts:20-27 | that comparator is not transitive when some items have a block height and others only a timestamp |
| Sorting.SortByBlockHeightOrTimestamp | packages/compare-data/src/utils/sort.ts:19-28 | returns the same array, permuted, neighbours in comparator order; all block heights present means sorted by height, all timestamps and no heights means sorted by time |
| Sorting.ByBlockHeight | packages/compare-data/src/utils/sort.ts:21-22 | items that all have a block height end up sorted by it |
| Sorting.ByTimestamp | packages/compare-data/src/utils/sort.ts:23-24 | items without block heights but with timestamps end up sorted by time |
| Compare.Ids | packages/compare-data/src/utils/compare.ts:14-15 | the id set holds exactly the items' ids |
| Compare.Filter | packages/compare-data/src/utils/compare.ts:17-22 | `filter` keeps exactly the items passing the test |
| Compare.FilterComplement | packages/compare-data/src/utils/compare.ts:17-22 | filtering by a test and by its negation splits the items |
| Compare.FilterOrdered | packages/compare-data/src/utils/compare.ts:20-22 | filtering keeps the sorted order |
| Compare.OnlyIn | packages/compare-data/src/utils/compare.ts:17-18 | the only-list holds exactly the items whose id the other dataset lacks |
| Compare.CommonIn | packages/compare-data/src/utils/compare.ts:20-22 | the common list holds exactly the items whose id the other dataset has |
| Compare.Partition | packages/compare-data/src/utils/compare.ts:17-22 | only-list and common list together are the dataset, as a multiset |
| Compare.UniqueIdsPermutation | packages/compare-data/src/utils/compare.ts:11-12 | sorting in place keeps ids unique |
| Compare.CommonAligned | packages/compare-data/src/utils/compare.ts:11-22 | for inputs sorted by id with unique ids and an antisymmetric `localeCompare`, the two common lists have equal length and the same id at every index |
| Compare.CommonKeepsOrder | packages/compare-data/src/utils/compare.ts:20-22 | a common list keeps the sorted order and unique ids of its dataset |
| Compare.CommonCovers | packages/compare-data/src/utils/compare.ts:20-22 | every id of one common list occurs in the other |
| Compare.UniqueFilter | packages/compare-data/src/utils/compare.ts:20-22 | filtering keeps ids unique |
| Compare.IdList | packages/compare-data/src/utils/compare.ts:14-15 | the ids of the items, in order |
| Compare.SameIdsAligned | packages/compare-data/src/utils/compare.ts:20-22 | two id-sorted lists with unique ids and the same id set are aligned index by index |
| Compare.SameSetOrderedEqual | packages/compare-data/src/utils/compare.ts:11-12 | two sorted duplicate-free id lists with the same elements are equal |
| Compare.SameHead | packages/compare-data/src/utils/compare.ts:11-12 | such lists start with the same id |
| Compare.SameTail | packages/compare-data/src/utils/compare.ts:11-12 | and their tails hold the same ids |
| Compare.SameElementsEmpty | packages/compare-data/src/utils/compare.ts:11-12 | two id lists with the same elements are both empty or both not |
| Compare.At | packages/compare-data/src/utils/compare.ts:29 | `subqueryCommon[i]`: the item, or `undefined` past the end |
| Compare.Mismatches | packages/compare-data/src/utils/compare.ts:27-32 | the indices, in increasing order, where the common items are not deeply equal |
| Compare.ReportedAppend | packages/compare-data/src/utils/compare.ts:28-31 | pushing one pair extends the report by that index |
| Compare.Differences | packages/compare-data/src/utils/compare.ts:24-32 | both difference lists have equal length, and entry k is the pair at the k-th mismatching index |
| Compare.ToArray | packages/compare-data/src/utils/compare.ts:17-18 | a fresh array holding the filtered items |
| Compare.SortedOnly | packages/compare-data/src/utils/compare.ts:17-18 | an only-list is the filtered items, sorted by block height or timestamp |
| Compare.Compare | packages/compare-data/src/utils/compare.ts:11-57 | returns the id-sorted inputs, the only-lists as permutations of the id filters sorted by height or time, the common lists in sorted order, and the aligned differences; with a total, transitive and antisymmetric `localeCompare` and unique ids the two common lists have equal length and the same id at every index |
| HistoryElements.NestedAfterFlat | packages/compare-data/src/modules/historyElements.ts:25-28 | a flat scheme plus one nested entry renders for Subsquid as the Subquery rendering plus that entry |
| HistoryElements.SubquerySchemeFlat | packages/compare-data/src/modules/historyElements.ts:11-21 | the Subquery scheme is nine plain fields |
| HistoryElements.SchemesRendering | packages/compare-data/src/modules/historyElements.ts:25-28 | the Subsquid scheme renders as the Subquery scheme plus `calls { id … data }` |
| HistoryElements.ToUpper | packages/compare-data/src/modules/historyElements.ts:79 | upper-cases an ASCII lower-case letter |
| HistoryElements.ToCamelCase | packages/compare-data/src/modules/historyElements.ts:78-80 | renaming never lengthens a key |
| HistoryElements.CamelWithoutUnderscore | packages/compare-data/src/modules/historyElements.ts:78-80 | a key without `_` is kept |
| HistoryElements.CamelHeadAfterUnderscore | packages/compare-data/src/modules/historyElements.ts:78-80 | a key starting with `_` renames to one starting with no lower-case letter |
| HistoryElements.CamelLeavesNoSnakePair | packages/compare-data/src/modules/historyElements.ts:78-80 | no `_` followed by `[a-z]` survives the renaming |
| HistoryElements.CamelFixedPoint | packages/compare-data/src/modules/historyElements.ts:78-80 | a key without such a pair is kept |
| HistoryElements.CamelIdempotent | packages/compare-data/src/modules/historyElements.ts:78-80 | renaming twice is renaming once |
| HistoryElements.CamelAppend | packages/compare-data/src/modules/historyElements.ts:78-80 | renaming distributes over a split before a character that is not a lower-case letter |
| HistoryElements.CamelAppendPair | packages/compare-data/src/modules/historyElements.ts:78-80 | the same when the key starts with a replaced pair |
| HistoryElements.CamelKept | packages/compare-data/src/modules/historyElements.ts:78-80 | a first character that starts no pair is kept |
| HistoryElements.CamelAppendKept | packages/compare-data/src/modules/historyElements.ts:78-80 | renaming distributes over the split when the key starts with a kept character |
| HistoryElements.TransformValue | packages/compare-data/src/modules/historyElements.ts:82-87 | an id-valued key gets a number or `NaN`, any other key keeps its value |
| HistoryElements.IsIdKey | packages/compare-data/src/modules/historyElements.ts:83 | an id key ends in `id`, and in `_id` unless it is `id` itself |
| HistoryElements.IdValuesParsed | packages/compare-data/src/modules/historyElements.ts:83-84 | an id given as a number or as its decimal text becomes that number |
| HistoryElements.MissingIdsAreNaN | packages/compare-data/src/modules/historyElements.ts:83-84 | undefined, null, booleans, `NaN` and objects under an id key become `NaN` |
| HistoryElements.IdDecidedBeforeRenaming | packages/compare-data/src/modules/historyElements.ts:92-93 | a `…_id` key is parsed although its renamed `…Id` form is not an id key |
| HistoryElements.TransformEntries | packages/compare-data/src/modules/historyElements.ts:89-97 | the output dictionary is well formed |
| HistoryElements.TransformArgs | packages/compare-data/src/modules/historyElements.ts:89-97 | the loop over `Object.entries` builds the dictionary `TransformEntries` describes |
| HistoryElements.TransformEntriesStep | packages/compare-data/src/modules/historyElements.ts:91-93 | one iteration sets the renamed key to the transformed value |
| HistoryElements.TransformedKeys | packages/compare-data/src/modules/historyElements.ts:89-97 | the output keys are exactly the renamed input keys |
| HistoryElements.TransformedLastWins | packages/compare-data/src/modules/historyElements.ts:91-93 | when two keys rename alike the later entry's value wins |
| HistoryElements.RenamedKeys | packages/compare-data/src/modules/historyElements.ts:92 | the renamed input keys, in order |
| HistoryElements.TransformedOrder | packages/compare-data/src/modules/historyElements.ts:89-97 | when no two keys rename alike the output keys are the renamed keys in input order |
| HistoryElements.ProcessCall | packages/compare-data/src/modules/historyElements.ts:48-57 | a call throws exactly when it is null or undefined; a non-object is kept; an object keeps its keys in order and every field but `data` |
| HistoryElements.ProcessCalls | packages/compare-data/src/modules/historyElements.ts:48-57 | the map fails only with the read of `data`, and otherwise gives one result per call |
| HistoryElements.ProcessSubqueryNode | packages/compare-data/src/modules/historyElements.ts:44-66 | a node whose `data` is not an array keeps `data` and gets `calls = []`; a result copies every other field, keeps the node's key order with `data` and `calls` appended when missing, and is well formed |
| HistoryElements.ProcessCallArgs | packages/compare-data/src/modules/historyElements.ts:49-56 | a call with truthy `data.args` gets `data = transformArgs(args)` in place of its old `data`, any other call is kept |
| HistoryElements.ProcessCallsEffect | packages/compare-data/src/modules/historyElements.ts:48-57 | mapping the calls throws exactly when some element is null or undefined, and otherwise maps element-wise |
| HistoryElements.ProcessArrayData | packages/compare-data/src/modules/historyElements.ts:47-65 | when `data` is an array the result has `data = null` and `calls` the mapped elements |
| JsValues.Property | packages/compare-data/src/modules/historyElements.ts:49 | a property read gives the own value or `undefined` |
| JsValues.Truthy | packages/compare-data/src/modules/historyElements.ts:49 | arrays and objects are truthy |
| JsValues.FalsyTexts | packages/compare-data/src/modules/historyElements.ts:49 | a falsy value renders as `undefined`, `null`, `false`, `0`, `NaN` or the empty text |
| JsValues.ToJsString | packages/compare-data/src/modules/historyElements.ts:84 | the text of undefined, null, a boolean, `NaN` or an object contains no digit |
| JsValues.OwnEntries | packages/compare-data/src/modules/historyElements.ts:91 | `Object.entries` of an object is its entries in insertion order, of an array its indices as strings |
| JsValues.ParseInt | packages/compare-data/src/modules/historyElements.ts:84 | `parseInt` gives a number or `NaN` |
| JsValues.ParseIntReadsInteger | packages/compare-data/src/modules/historyElements.ts:84 | `parseInt` skips leading white space and reads a signed decimal up to the first non-digit |
| JsValues.ParseIntOfString | packages/compare-data/src/modules/historyElements.ts:84 | `parseInt(String(n))` is `n` |
| JsValues.ParseIntWithoutDigits | packages/compare-data/src/modules/historyElements.ts:84 | text without digits parses to `NaN` |
| JsValues.SignedDecimal | packages/compare-data/src/modules/historyElements.ts:84 | a rendered integer followed by a non-digit reads back as that integer |
| JsMaps.JsMap.Get | packages/subsquid/src/utils/orderBook.ts:216 | `Map.get` answers the value or `undefined` |
| JsMaps.JsMap.Set | packages/subsquid/src/utils/orderBook.ts:122 | `Map.set` updates the value and appends a new key at the end of the insertion order |
| JsMaps.JsMap.Entries | packages/subsquid/src/utils/orderBook.ts:129 | `Map.entries()` lists the pairs in insertion order |
| JsMaps.JsMap.Values | packages/subsquid/src/utils/orderBook.ts:149 | `Map.values()` lists the values in insertion order |
| JsMaps.Empty | packages/subsquid/src/utils/orderBook.ts:101-102 | `new Map()` is empty |
| Text.SplitJoin | packages/subsquid/src/utils/orderBook.ts:152-158 | splitting a `c`-joined list of pieces without `c` gives back the pieces |
| Text.LastSeparator | packages/subsquid/src/utils/orderBook.ts:167 | text before and after the last separator is recovered when the tail has none |
| Text.DigitsValueOfNat | packages/subsquid/src/utils/orderBook.ts:160 | reading the decimal rendering of `n` gives `n` |
| Text.NatToStringInjective | packages/subsquid/src/utils/orderBook.ts:153 | distinct naturals render differently |
| Text.IntToStringInjective | packages/subsquid/src/utils/orderBook.ts:328 | distinct integers render differently |

## Left out

- Chain and store I/O is not modelled. This covers `getAllOrderBooks`, `getTechnicalAccounts` and `getOrderBookAssetBalance`. The technical-accounts table is a field of `BlockContext`, and `None` stands for a failed request. The store is the `Store` class: two maps of saved entities.
- Logging is not modelled: every `debug`/`error` call, and the `console.log` in `transformArgs` and `subsquidQueryBuilder`.
- `calcStats`, `updateDailyStats` and `getSnapshotsByIds` are not part of this model. They depend on parallel store reads and on `calcPriceChange` and `prevSnapshotsIndexesRow`, whose files are not part of it. `calcVolume` is modelled.
- Helpers from other files are parameters without an interpretation:
  - `getSnapshotIndex`, `toAssetId`, `toAddress`, `predefinedAssets` and `toFixed(2)` rounding;
  - `shouldUpdate`, `getSnapshotTypes`, an asset's `priceUSD` and `calcTvlUSD`.
- The asset and network aggregators are left out. The model returns the calls made to them as `Cascade` records and does not model what those calls do.
- Aliasing is represented, not reproduced. The source mutates the cached entity objects in place. The model writes the updated value back under the same key, which is equivalent because the source always mutates the cached object. A snapshot's reference to its book is its book id.
- OrderBookModel.LockedLiquidity: iterates over the books cached when `getLockedLiquidityUSD` starts. The source iterates the live `Map`, which would also visit a book added during the loop. `updateLiquidityUSD` fetches a snapshot, and on a miss `getSnapshot` loads or creates the pair's book under `getId(dexId, toAssetId(base), toAssetId(quote))`. `OrderBookLemmas.LockedLiquidityKeepsBooks` proves the book cache is unchanged when every cached book sits under the id of its own pair. A cache holding a book under another id is not covered.
- OrderBookLemmas.LockedCallsSums: stated over the books cached when the loop starts, for the same reason as `OrderBookModel.LockedLiquidity`.
- OrderBookLemmas.LockedLiquidityWrites: stated only when every cached book sits under the id of its own pair and every active snapshot of every cached pair can be had. When `assertDefined(orderBook.price)` throws for some pair, `OrderBookModel.LockedLoop` returns the error with the writes made before it, and no lemma describes those partial writes.
- OrderBookIds.TypeName: the strings "DEFAULT", "HOUR" and "DAY" come from the generated `SnapshotType` enum of the indexer's `model` package, imported at `orderBook.ts:3`, which is not part of this model. The contract promises only that a name holds no '-', which is what splitting a snapshot id needs.
- The `lastDeals` JSON string is a `seq<Deal>`. `JSON.parse` and `JSON.stringify` are not modelled.
- `Number(snapshot.price.open) === 0` is decimal equality with 0.
- Stability of `Array.prototype.sort` is not modelled. Nothing is claimed about the relative order of items the comparator calls equal.
- `localeCompare` and lodash's `_.isEqual` are parameters without an interpretation.
- Sorting.SortInPlace: the neighbour order is a property of the model's insertion sort. `Array.prototype.sort` leaves the order implementation-defined when the comparator is not consistent (total and transitive). The permutation holds for any conforming sort.
- Sorting.SortByBlockHeightOrTimestamp: the comparator is not transitive when heights and timestamps are mixed (`Sorting.BlockHeightOrTimestampNotTransitive`). So the neighbour order is the model sort's. The height order (all items have a height) and the time order (no heights, all timestamps) hold for any conforming sort, because there the comparator is consistent.
- Sorting.SortById: the id order is promised only when `localeCompare` is total (neighbours) and also transitive (the whole array).
- Compare.Compare: the inputs are promised in id order only when `localeCompare` is total and transitive. The permutation facts are stated for two distinct arrays. The only-lists' neighbour order comes from the model sort; see `Sorting.SortByBlockHeightOrTimestamp`.
- Compare.CommonAligned: assumes `localeCompare` is antisymmetric, so that two different ids never compare equal.
- `Sorting.SortByBlockHeight` and `Sorting.SortByTimestamp` treat the `Number(a - b)` comparator as exact integer subtraction. Rounding of huge `bigint` differences to a float is not modelled.
- `Sorting.SortByBlockHeightOrTimestamp` models `'blockHeight' in a` as the item having a block height, not as a JavaScript property test.
- JavaScript numbers are integers or `NaN`. Fractions, exponents and the rendering of non-integer numbers are not modelled, and neither is `parseInt` on the text of a fractional number.
- JsValues.ParseIntOfString: holds only for integers below 10^21 in magnitude. `JsValues.ToJsString` writes every integer in plain digits, while JavaScript writes a number of magnitude 10^21 or more in exponent form (`String(1e21)` is `"1e+21"`), which `parseInt` reads back as 1.
- HistoryElements.IdValuesParsed: holds only for integer ids below 10^21 in magnitude, for the same reason as `JsValues.ParseIntOfString`.
- OrderBookIds.ParseNumber: only the empty text and all-digit texts are numbers. `Number` also accepts surrounding white space, a sign, `0x`/`0o`/`0b` prefixes, `Infinity`, fractions and exponents; the model gives `NaN` for those.
- JsValues.ParseInt: the result is the exact integer. `parseInt` rounds to a double, which is inexact beyond 2^53; that rounding is not modelled.
- Integer-like keys in a JavaScript object are not enumerated first. Object keys keep plain insertion order, which matches the non-numeric keys the comparison data uses.
- `processSubqueryNode` models only the `data`, `calls` and `args` properties it reads. A property read on a primitive value gives `undefined`.
- `QueryBuilders.VariableEntries` and the other query-builder members treat the `gql` tag as the identity on the template text.
- The `compare` function's `require` of the JSON inputs, its `mkdir` and its `writeFile` calls are not modelled, nor are `fetchData` and `compare` in `historyElements.ts`.
