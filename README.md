# Arbitrage bot core, modelled in Dafny

This project models the core of a cross-venue arbitrage bot for Uniswap V2 style
constant-product pools. It covers:

- the **fetch pipeline** (`src/fetcher.ts`). For one chain and one venue it turns a
  list of token pairs into reserve rows in five stages: resolve the pool addresses
  through the factory's `getPair`, read `getReserves` at one reference block, read
  each pool's `token0`/`token1`, read token `decimals` through a process-wide cache,
  and join everything into one row per input pair. Every stage sends at most one
  or two multicall `tryAggregate` batches.
- the **cache helpers** (`src/utils/helper.ts`): the `keyFactory` cache key, and the
  process-wide `decimalsCache` and `pairAddrCache` maps, modelled as the fields of a
  class that the pipeline updates in place.
- the **arbitrage engine** (`src/arbitrage.ts`). It compares every two rows of the
  same token pair, normalizes their reserves to the lower-addressed token, and
  simulates a round trip of 1000 units to report a profitable buy/sell couple.
- the **BigInt simulator** (`src/simulator.ts`): the integer `getAmountOut` formula
  and a two-venue round trip built on it.

Layout:

| file | module | content |
|---|---|---|
| `wrappers.dfy` | `Wrappers` | `Option`, `Result` |
| `text.dfy` | `Text` | `toLowerCase` on ASCII letters; the `<` order on strings |
| `numbers.dfy` | `Numbers` | JavaScript numbers: exact finite reals, plus both infinities and NaN |
| `types.dfy` | `Types` | the records passed between stages |
| `chain.dfy` | `Chain` | calls and call results; the ABI decoders as a `Codec`; the `Multicall` class |
| `helper.dfy` | `Helper` | `KeyFactory`; the `Caches` class |
| `fetcher.dfy` | `Fetcher` | the pipeline stages and their loops, as methods proved against specification functions |
| `simulator.dfy` | `Simulator` | `GetAmountOutRaw`, `SimulateRoundTripRaw` |
| `arbitrage.dfy` | `Arbitrage` | the engine, with the double loop as methods |

How the environment is modelled:

- The multicall contract is a class with two members:
  - `respond`, a fixed oracle that gives the chain's answer to a batch;
  - `batches`, a log of every batch issued, in order.

  The log lets the contracts count round trips. For example: no batch is sent when
  nothing needs querying, and a second decimals fetch sends none.
- ABI decoding and `getAddress` are function fields of a `Codec` value. A decoder
  that throws is modelled as returning `None`.
- The provider's `getBlockNumber()` and `getBlock(n)` are parameters of the pipeline:
  a block number and an optional block.
- A JavaScript `null` in an aligned array is `None`. A missing pair in the input list
  is `None` too.

The engine's double loop is written as three methods:

- `CompareVenues`: one comparison of two rows;
- `CompareWithLater`: the inner loop, one row against every later row;
- `CompareAll`: the outer loop.

`CalculateArbitrage` calls `CompareAll`. Each method is proved equal to a specification
function: `CompareVenues` to `Compare`, the loops to the `Pairs` combinators, and
`CalculateArbitrage` to `ArbitrageSpec`. The lemmas state their properties about those
functions.

The loop methods take a ghost function parameter `cmp`. Their precondition ties `cmp`
to `Compare` pointwise. This keeps the large definition of `Compare` out of the loop
proofs; it is a proof device only and does not change what is computed.

## Model

| member | source | states |
|---|---|---|
| Helper.KeyFactory | src/utils/helper.ts:6-8 | the key's length is the three components' lengths plus two separators; what the key holds is stated by `KeyFactoryIsLower` and `KeyFactoryEqualIff` |
| Helper.KeyFactoryIsLower | src/utils/helper.ts:6-8 | a key never holds an upper-case letter |
| Helper.KeyFactoryEqualIff | src/utils/helper.ts:6-8 | for colon-free factory and first-token components, two keys are equal exactly when factory, first token and second token agree up to letter case (both directions) |
| Helper.KeyFactoryOrderMatters | src/utils/helper.ts:6-8 | swapping two tokens that differ up to case gives a different key: the key records the caller's token order |
| Helper.KeyFactoryIdempotent | src/utils/helper.ts:6-8 | lowercasing the components first gives back the same key |
| Helper.Caches.constructor | src/utils/helper.ts:2-3 | both process-wide caches start empty |
| Chain.Multicall.TryAggregate | src/fetcher.ts:89-97 | one `tryAggregate(false, calls)` appends exactly one batch to the log and returns the chain's answer to it |
| Text.LowerAt | src/utils/helper.ts:7 | `toLowerCase` maps each character on its own, and its result holds no upper-case letter |
| Text.LexTotal | src/arbitrage.ts:10 | string `<` is total: of two different strings, one sorts before the other |
| Numbers.Div | src/arbitrage.ts:77-78 | a quotient is finite exactly when the divisor is non-zero; division by zero gives an infinity or NaN |
| Fetcher.SafeAddr | src/fetcher.ts:57-66 | safeAddr returns an address only for a present string that `getAddress` accepts, and then returns `getAddress`'s checksummed form |
| Fetcher.ResolveCalls | src/fetcher.ts:80-87 | the `getPair` batch holds one call per input pair, to the factory, in input order |
| Fetcher.ResolvedAtIff | src/fetcher.ts:101-125 | an entry is an address exactly when its result exists, succeeded, is not `0x`, decodes to a non-empty non-zero address and that address validates (both directions) |
| Fetcher.AddressesStage | src/fetcher.ts:99-125 | the resolution stage's output is aligned with the input pairs |
| Fetcher.ResolvePairAddresses | src/fetcher.ts:71-137 | exactly one `getPair` batch; the output is aligned with the input, entry `i` being the decoding of answer `i` (`AddressesStage`); the address cache becomes the old cache with each index's key written, in order, to that index's entry |
| Fetcher.ResolveCacheFacts | src/fetcher.ts:127-131 | after resolution every pair's key is cached; a key written once holds that pair's entry; a key not written keeps its old value |
| Fetcher.Existing | src/fetcher.ts:162-164 | the filtered entries are the non-null addresses, each with its own original index, in strictly increasing index order |
| Fetcher.RankLocates | src/fetcher.ts:162-164 | a non-null index's entry sits at that index's rank among the non-null addresses |
| Fetcher.EntryRank | src/fetcher.ts:197-203 | the `k`-th entry's index has rank `k`: batch answer `k` belongs to that index and no other |
| Fetcher.ExistingEmpty | src/fetcher.ts:166-169 | the filtered list is empty exactly when every address is null |
| Fetcher.ReserveCalls | src/fetcher.ts:172-175 | the `getReserves` batch holds one call per non-null address |
| Fetcher.SnapshotAt | src/fetcher.ts:197-230 | a null address gets no snapshot; every snapshot carries the batch's block number and timestamp |
| Fetcher.ScatterSnapshots | src/fetcher.ts:188-230 | the output is aligned with the addresses; entry `j` is the decoding of the answer at `j`'s rank, or null |
| Fetcher.ReservesStage | src/fetcher.ts:188-230 | the reserves stage's output is aligned with the addresses |
| Fetcher.FetchReserves | src/fetcher.ts:144-233 | with no non-null address: no batch, all null. With one and no block: failure before any batch. Otherwise: exactly one `getReserves` batch, the answers scattered back to their indices (`ReservesStage`), every snapshot stamped with the one reference block |
| Fetcher.TokenCalls | src/fetcher.ts:253-261 | a token batch holds one call per non-null address |
| Fetcher.PairTokensAt | src/fetcher.ts:278-305 | an index gets tokens only when its address is non-null and both decoded tokens are non-empty |
| Fetcher.ScatterTokens | src/fetcher.ts:268-308 | the output is aligned with the addresses; entry `j` joins the two answers at `j`'s rank, or is null |
| Fetcher.TokensStage | src/fetcher.ts:268-308 | the token stage's output is aligned with the addresses |
| Fetcher.FetchPairTokens | src/fetcher.ts:239-309 | with no non-null address: no batch, all null. Otherwise: exactly a `token0` batch and a `token1` batch, joined per index (`TokensStage`); every present entry has a non-null address and two non-empty tokens |
| Fetcher.DecimalsKeyInjective | src/fetcher.ts:335 | on one chain, distinct tokens have distinct decimals-cache keys |
| Fetcher.AddTokenFacts | src/fetcher.ts:326-327 | adding a token to the insertion-ordered set keeps it duplicate-free and adds exactly the lowercased non-empty token |
| Fetcher.AddPairTokensFacts | src/fetcher.ts:324-328 | adding one pool's tokens keeps the set duplicate-free and adds exactly the tokens that pool mentions |
| Fetcher.CollectTokensFacts | src/fetcher.ts:322-329 | the collected tokens repeat nothing and are exactly the lowercased non-empty tokens of the present pools (both directions) |
| Fetcher.CollectTokenSet | src/fetcher.ts:322-329 | the collection loop computes `CollectTokens` |
| Fetcher.MissesFacts | src/fetcher.ts:334-342 | a token is queried exactly when it was collected and its key is not cached; duplicate-free tokens give duplicate-free misses |
| Fetcher.PrepareDecimalsCalls | src/fetcher.ts:331-342 | the calls and `callIndexToToken` are the misses, one `decimals` call each, in parallel |
| Fetcher.PopulateDecimals | src/fetcher.ts:350-371 | the cache becomes the old cache with one entry written per miss, in order |
| Fetcher.DecimalsResultMap | src/fetcher.ts:373-381 | the returned map has exactly the collected tokens as keys, each with its cached count, or null for a missing or NaN entry |
| Fetcher.FetchTokenDecimals | src/fetcher.ts:316-382 | no batch when the cache misses nothing, else exactly one batch over the misses; the cache is filled for them (`DecimalsStageCache`) and earlier entries are untouched; the result maps every collected token to its cached value (`DecimalsMapOf`) |
| Fetcher.DecimalsCoverTokens | src/fetcher.ts:350-371 | after a fetch, every collected token has a cache entry |
| Fetcher.DecimalsCacheMonotone | src/fetcher.ts:334-371 | a fetch never changes or removes an entry that was already cached |
| Fetcher.SecondFetchQueriesNothing | src/fetcher.ts:331-348 | fetching the same tokens again finds no miss, so no decimals batch is sent |
| Fetcher.MissesNone | src/fetcher.ts:334-342 | when every token's key is cached there are no misses |
| Fetcher.DecimalsEntryOfMiss | src/fetcher.ts:351-370 | each queried token's entry is the decoding of its own answer, even though later writes follow it |
| Fetcher.DecimalsBatchDistinct | src/fetcher.ts:322-342 | the decimals batch asks for each token at most once |
| Fetcher.At | src/fetcher.ts:418-420 | reading past the end of a stage's array gives null |
| Fetcher.PairKeyOf | src/fetcher.ts:430 | a non-empty `pairKey` is kept; a missing or empty one falls back to `symbol0-symbol1`, a missing symbol printed as `undefined` |
| Fetcher.AssembleRow | src/fetcher.ts:422-441 | a row carries the chain, venue, pair key and pool address; it has reserves and block stamps exactly when its snapshot exists, and then they are the snapshot's; it has tokens exactly when its tokens exist, and then they are those tokens; each decimals field is the map's entry for the lowercased non-empty token when the map has one, and null otherwise |
| Fetcher.AssembleUpTo | src/fetcher.ts:412-444 | the rows number the defined pairs, one row each |
| Fetcher.AssembleProvenance | src/fetcher.ts:412-444 | every row is the row made from some defined input pair |
| Fetcher.AssembleIndex | src/fetcher.ts:412-444 | the row of a defined pair `i` sits at position "number of defined pairs before `i`" |
| Fetcher.AssembleOrdered | src/fetcher.ts:412-444 | every defined pair has its row at that position, and the positions grow with the index: rows keep the input order |
| Fetcher.AssembleAligned | src/fetcher.ts:386-387 | when no pair is missing, row `i` is made from input index `i`, as the function's doc comment promises |
| Fetcher.AssembleResults | src/fetcher.ts:388-447 | the loop computes `AssembleUpTo` over all pairs |
| Fetcher.AssembledRowsWellFormed | src/fetcher.ts:412-444 | stage outputs that line up give rows that are all well formed: reserves and tokens only where an address was found, reserves stamped with the reference block |
| Fetcher.FetchTokensAndAssemble | src/fetcher.ts:35-51 | the token stage's output is `TokensStage`; the decimals cache becomes `DecimalsStageCache` and the decimals map `DecimalsMapOf`; the batches sent are the token batches then the decimals batch; the rows are `AssembleUpTo` over those outputs: one well-formed row per defined pair, and every cached decimals entry kept |
| Fetcher.FetchFromAddresses | src/fetcher.ts:32-51 | the reserves are `ReservesStage`; it fails, with no batch sent and the cache unchanged, exactly when some address resolved and the block is missing; otherwise the batches are the reserves, token and decimals batches in that order and the rows are `AssembleUpTo` over the stages' outputs |
| Fetcher.FetchPairsAndReserves | src/fetcher.ts:13-53 | the addresses are `AddressesStage` and the address cache is written with them; the reserves are `ReservesStage`; it fails exactly when some address resolved and the block is missing; otherwise the batches are the `getPair`, reserves, token and decimals batches in order, and the rows are `AssembleUpTo` over the four stages' outputs, each well formed; cached decimals are never overwritten |
| Simulator.TDiv | src/simulator.ts:9 | BigInt `/`: the magnitude is the floor of the magnitudes' quotient, the sign is the product of the signs |
| Simulator.GetAmountOutRaw | src/simulator.ts:1-10 | the result is undefined (a thrown division by zero) exactly when the denominator is zero |
| Simulator.GetAmountOutRawFloor | src/simulator.ts:1-10 | on a real swap the output is the floor of `amountIn·num·reserveOut / (reserveIn·den + amountIn·num)` |
| Simulator.GetAmountOutRawBounds | src/simulator.ts:1-10 | the output lies in `[0, reserveOut]`, is below `reserveOut` when that is positive, and is zero for a zero input |
| Simulator.GetAmountOutRawSpot | src/simulator.ts:1-10 | a swap never beats the spot price: `out · reserveIn <= amountIn · reserveOut` |
| Simulator.GetAmountOutRawMonotone | src/simulator.ts:1-10 | a larger input never yields a smaller output |
| Simulator.FeeNumeratorRange | src/simulator.ts:18-19 | a fee in [0, 1] gives a numerator in [0, 1000]; a fee of 0.003 gives 997 |
| Simulator.SimulateRoundTripRaw | src/simulator.ts:12-24 | swap on venue A, then swap the proceeds back through venue B's reserves, undefined when either swap divides by zero; its bounds are `RoundTripSpotBound` and `RoundTripSamePoolNoProfit` |
| Simulator.RoundTripSpotBound | src/simulator.ts:12-24 | a round trip returns at most what the two spot prices allow: `out · A.in · B.out <= in · A.out · B.in` |
| Simulator.RoundTripSamePoolNoProfit | src/simulator.ts:12-24 | going out and back through equal reserves never gains |
| Arbitrage.GetAmountOut | src/arbitrage.ts:3-6 | a non-finite input gives NaN |
| Arbitrage.GetAmountOutBounds | src/arbitrage.ts:3-6 | on a funded pool with a fee in [0, 1], the output is finite, lies in `[0, reserveOut]`, is below `reserveOut` when that is positive, and never beats the spot price |
| Arbitrage.GetAmountOutNonneg | src/arbitrage.ts:3-6 | with non-negative reserves, a non-negative input gives NaN or a non-negative finite number, never an infinity |
| Arbitrage.GetAmountOutMonotone | src/arbitrage.ts:3-6 | a larger input never yields a smaller output |
| Arbitrage.NormalizePair | src/arbitrage.ts:9-13 | the two lowercased addresses, the smaller first; proved by `NormalizePairSorted` |
| Arbitrage.NormalizePairSorted | src/arbitrage.ts:9-13 | the result is the two lowercased addresses, the smaller first |
| Arbitrage.NormalizePairSymmetric | src/arbitrage.ts:9-13 | the argument order does not matter |
| Arbitrage.NormalizePairCaseInsensitive | src/arbitrage.ts:9-13 | letter case does not matter |
| Arbitrage.SortedPairUnique | src/arbitrage.ts:9-13 | two ordered pairs that hold the same two strings are equal |
| Arbitrage.IsSamePair | src/arbitrage.ts:16-20 | two rows normalize to the same pair; characterized by `IsSamePairIff` |
| Arbitrage.IsSamePairIff | src/arbitrage.ts:16-20 | two rows are the same pair exactly when they hold the same two addresses up to case, in either order (both directions) |
| Arbitrage.IsSamePairSymmetric | src/arbitrage.ts:16-20 | isSamePair is symmetric and ignores either row's token order |
| Arbitrage.ShiftDecimalsIsQuotient | src/arbitrage.ts:31-32 | shifting off `n` decimal places is dividing by `10 ** n` |
| Arbitrage.DecimalsOrDefault | src/arbitrage.ts:31-32 | `decimals \|\| 18`: a given non-zero count is kept; a missing or zero count gives 18 |
| Arbitrage.Scaled | src/arbitrage.ts:31-32 | a scaled reserve is never negative |
| Arbitrage.GetNormalizedReserves | src/arbitrage.ts:23-42 | both normalized reserves are non-negative; the order and pairing of tokens and reserves is `GetNormalizedReservesOrder` |
| Arbitrage.GetNormalizedReservesOrder | src/arbitrage.ts:23-42 | the lower-addressed token comes first; each reserve stays with its own token; both reserves are non-negative |
| Arbitrage.GetNormalizedReservesSwap | src/arbitrage.ts:23-42 | listing a pool's two distinct tokens the other way round gives the same normalized reserves |
| Arbitrage.TwoSwaps | src/arbitrage.ts:89-90 | a two-hop path feeds the first swap's output into the second |
| Arbitrage.RoundTrip | src/arbitrage.ts:87-99 | the amount of tokenA a route gets back for 1000 units, through two swaps; bounded by `AsWrittenRoundTripLoses` and `CorrectedRoundTripBound` |
| Arbitrage.Leg | src/arbitrage.ts:87-113 | one direction of a comparison yields at most one opportunity, and that one buys on the first row, sells on the second and has a positive profit; its bounds per route are `AsWrittenLegLoses` and `CorrectedLegBound` |
| Arbitrage.Compare | src/arbitrage.ts:56-141 | one comparison yields at most one opportunity |
| Arbitrage.CompareVenues | src/arbitrage.ts:53-141 | the loop body's comparison of two rows returns `Compare` on the corrected route |
| Arbitrage.CompareWithLater | src/arbitrage.ts:52-142 | the inner loop returns row `i` compared, on the corrected route, with every later row, in order |
| Arbitrage.CompareAll | src/arbitrage.ts:51-143 | the outer loop returns every pair `i < j` compared on the corrected route, in loop order |
| Arbitrage.CalculateArbitrage | src/arbitrage.ts:44-157 | calculateArbitrage with the corrected route: the result is `ArbitrageSpec` |
| Arbitrage.ArbitrageSpec | src/arbitrage.ts:44-157 | every pair of rows `i < j` compared, in the double loop's order; its members are characterized by `ArbitrageSpecMember` and `ArbitrageSpecFacts` |
| Arbitrage.PairsRowMember | src/arbitrage.ts:52 | an item of an inner-loop result comes from a column `k > i` |
| Arbitrage.PairsMember | src/arbitrage.ts:51-52 | an item of the double loop's result comes from one row `i` and a later column `k` |
| Arbitrage.CompareFacts | src/arbitrage.ts:56-141 | an opportunity of one comparison is well formed and comes from those two rows: both usable, the same pair, one the buy side and the other the sell side |
| Arbitrage.EqualPricesNothing | src/arbitrage.ts:87-141 | equal prices on the two rows give nothing, on either route |
| Arbitrage.ArbitrageSpecMember | src/arbitrage.ts:51-143 | every opportunity of the double loop comes from comparing rows `i < j` |
| Arbitrage.PairsComplete | src/arbitrage.ts:51-52 | whatever one row `i` and a later column `k` yield appears in the double loop's result |
| Arbitrage.ArbitrageSpecComplete | src/arbitrage.ts:44-157 | every opportunity of comparing rows `i < j` is in the result; with `ArbitrageSpecMember`, the result holds exactly the comparisons' opportunities |
| Arbitrage.ArbitrageSpecFacts | src/arbitrage.ts:44-157 | every reported opportunity is well formed and comes from two rows `i < j` holding the same pair |
| Arbitrage.PriceFacts | src/arbitrage.ts:77-78 | with non-negative reserves the price is finite exactly when the first reserve is positive, and is never negative |
| Arbitrage.AsWrittenRoundTripLoses | src/arbitrage.ts:87-99 | as written, when the buy price is lower, the round trip returns no more than the trade size |
| Arbitrage.AsWrittenLegLoses | src/arbitrage.ts:87-113 | as written, with fees in [0, 1], one direction never reports an opportunity |
| Arbitrage.AsWrittenCompareEmpty | src/arbitrage.ts:86-141 | as written, with fees in [0, 1], a comparison reports nothing |
| Arbitrage.AsWrittenNeverEmits | src/arbitrage.ts:44-157 | as written, with fees in [0, 1], calculateArbitrage reports nothing for any rows |
| Arbitrage.CorrectedRoundTripBound | src/arbitrage.ts:87-99 | on the corrected route, a positive profit is finite and bounded by the spot prices |
| Arbitrage.CorrectedLegBound | src/arbitrage.ts:87-113 | a reported corrected opportunity has a finite profit with `(profit + 1000) · priceBuy <= 1000 · priceSell` |
| Arbitrage.CorrectedCompareBound | src/arbitrage.ts:86-141 | the same bound for every opportunity of a corrected comparison |
| Arbitrage.CorrectedProfitBound | src/arbitrage.ts:44-157 | every opportunity calculateArbitrage reports has a finite positive profit bounded by the two spot prices |
| Arbitrage.ExampleNormalized | src/arbitrage.ts:23-42 | the example rows normalize to `0xa` first, one decimal shifted off each reserve |
| Arbitrage.ExampleRoundTrip | src/arbitrage.ts:89-95 | on the example rows the corrected round trip returns more than 1000 |
| Arbitrage.ExampleCompare | src/arbitrage.ts:56-141 | on the example rows the corrected comparison yields exactly one opportunity: buy on B, sell on A |
| Arbitrage.FindingExample | src/arbitrage.ts:44-157 | on the example rows the source's route reports nothing, while the corrected route reports the one arbitrage |

## Left out

- Logging (`console.log`, `console.warn`) and the analysis printout at the end of calculateArbitrage are not modelled.
- Floating point: every finite JavaScript number is an exact real. Rounding is not modelled; NaN and the infinities from division by zero are. `toFixed`, `profitPercent` formatting and `Math.abs(priceA - priceB) / Math.min(...)` feed only the log and are left out.
- `toLowerCase` is modelled on ASCII letters only. That covers hexadecimal addresses and the other keys the core builds.
- ABI encoding and decoding, and `getAddress`'s checksum, are the function fields of `Codec`. Call data is a symbolic constructor, not bytes.
- Reserves are unbounded integers instead of the decimal strings `toString` produces; `Number(...)` of them is exact.
- The typeof checks for `tryAggregate` and `callStatic.tryAggregate`, and the error raised when neither exists, are not modelled. The model assumes the attached `tryAggregate` (src/fetcher.ts:89-97).
- The `Promise.all` over the two token batches is modelled as two batches in sequence. Concurrency and asynchrony are not modelled.
- A batch or provider call that rejects is not modelled: the `tryAggregate` awaits (src/fetcher.ts:92, 94, 185, 263-266, 347) and `getBlockNumber`/`getBlock` (src/fetcher.ts:178-179) always answer. So the missing block is the only failure the pipeline's contracts describe; a rejected promise, which aborts the whole fetch in the source, has no counterpart.
- Fetcher.FetchPairsAndReserves, Fetcher.FetchFromAddresses: "fails exactly when the block is missing" holds only because rejected calls are not modelled (see the line above).
- `getProvider`, `getMulticall` and the ABI interfaces are outside the core. The provider's block number and block are parameters of `FetchPairsAndReserves`, so the model does not capture that they are read between resolution and the reserves batch.
- Arbitrage.CalculateArbitrage, Arbitrage.CompareVenues, Arbitrage.CompareWithLater, Arbitrage.CompareAll: the double loop and its body compute the corrected route rather than the route as written at src/arbitrage.ts:89-90 and 117-118 (see Findings); on rows with different prices the loop body's simulated round trip differs from the source's. The route as written is the `AsWritten` value of `ArbitrageSpec`.
- Arbitrage.GetNormalizedReservesOrder: `Number(raw) / 10 ** (decimals || 18)` is computed one decimal place at a time. `ShiftDecimalsIsQuotient` proves this equals the quotient.
- The loop methods of the engine take a ghost `cmp` function tied pointwise to `Compare`; this is a proof device with no counterpart in the source.
- `server.ts`, `detector.ts`, `utils/multicall.ts` and the configuration files are not part of this model.

## Findings

| source | as written | input that shows it | evidently intended | confidence | as-written member | corrected member |
|---|---|---|---|---|---|---|
| src/arbitrage.ts:87-141 | When `priceA < priceB`, the code sells the trade size of tokenA on the venue where tokenA is cheaper (A) and buys tokenA back on the dearer one (B); the other branch mirrors this. With fees in [0, 1] this round trip never returns more than it started with, so no opportunity is ever reported. | Two rows of tokens `0xa`/`0xb`, one decimal each, fee 0.003: venue A with reserves (1000000, 2000000) and venue B with (1000000, 1900000). The source reports nothing. | Sell tokenA on the dearer venue and buy it back on the cheaper one. On this input that returns more than 1000 and reports buying on B and selling on A. | not executed | Arbitrage.AsWrittenNeverEmits | Arbitrage.CorrectedProfitBound |
