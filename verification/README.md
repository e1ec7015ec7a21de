# pumpfun_mm market maker: a Dafny model

The repository is a market-making bot for one token pool. A fleet of wallets, whose private keys
come from a text file, is driven by order builders. A builder turns a request into a list of
trade orders:

- buy from every wallet;
- sell from every wallet;
- sell a share of the fleet's tokens;
- buy for a given amount of ETH;
- sell slowly against the volume observed in the pool.

Each builder hands its list to `sendTxFromList`. That loop checks gas price and balances, submits
each order once, counts attempts and successes, then refreshes the wallets it used and recomputes
the fleet totals. A constant-product pool simulator (`UniswapAMMSimulator`) stands in for the
pool when simulation is switched on. A swap monitor keeps a window of recent pool swaps, fills
it from history and measures their net token volume.

The model has nine modules, one per file:

| file | module | models |
|---|---|---|
| wrappers.dfy | `Wrappers` | `Outcome` / `Result` for operations that throw |
| utils.dfy | `Utils` | `bufferFromUInt64` over an `array<byte>`, `getRandomDecimalInRange` and `getRandomIntInRange` with the random number as an argument, `round` over reals, `shuffle` |
| fleet.dfy | `Fleet` | wallet records, orders that name a wallet by fleet position, fleet sums, and the two wallet sorts as permutations of positions |
| orders.dfy | `Orders` | the walks the builders make over the fleet: which wallets they take, what they order for them, when the primary walk stops, and how many noise orders it asks for |
| keyfile.dfy | `KeyFile` | the split / filter / trim of the wallet key file |
| sandbox.dfy | `Sandbox` | class `UniswapAMMSimulator`: two reserves and two `map<string, real>` ledgers updated in place |
| dispatch.dfy | `Dispatcher` | the guards and counters of the `sendTxFromList` loop, as a fold with lemmas about it |
| mm.dfy | `MarketMaker` | class `MM`: the builders, `sendTxFromList`, `getAllBalance` and `createWalletsFromFile`, each as a method with its loops |
| monitor.dfy | `SwapMonitor` | class `Monitor`: the swap list kept in place, history selection, compaction, volume |

Amounts are `real`, so the pool algebra is exact. The network's answers and the random draws are
inputs to the methods:

- an order's gas price, a fresh token balance (a number or NaN) and whether the trade succeeded,
  as a `Feed` per order;
- the balances a refresh reads;
- `Math.random()` values;
- the shuffle's index draws;
- the token price;
- `convertUSDC2ETH`, as an uninterpreted function argument;
- the current time.

An order refers to its wallet by fleet position. The source keeps a reference to the same
`Wallet` object, so a refresh through the order updates the fleet entry.

Two facts about the code shape the model:

- `moveWindow` can keep fewer than `MIN_LATEST_TX_AMOUNT` swaps (see Findings).
- `sendTxFromList` tries each order once. `errorMaxTries` (components/interfaces.ts:16) and
  `SENDING_ERRORS` (components/constants.ts:27) are not used by any loop.

## Model

| member | source | states |
|---|---|---|
| Utils.LittleEndianRoundTrip | components/utils.ts:3 | decoding the n little-endian bytes of any v below 256^n gives back v |
| Utils.EightByteEncoding | components/utils.ts:3 | byte i of the 8-byte encoding of a uint64 is floor(v / 256^i) mod 256, and the 8 bytes decode to v |
| Utils.BufferFromUInt64 | components/utils.ts:1-5 | for 0 <= value < 2^64, a fresh buffer of exactly 8 bytes, byte i being floor(value / 256^i) mod 256, which decodes back to value |
| Utils.GetRandomDecimalInRange | components/utils.ts:7-9 | for r in [0, 1): a point of [min, max) when min < max, exactly min when min = max, a point of (max, min] when max < min |
| Utils.GetRandomIntInRange | mm.ts:369 | an integer between min and max, both ends included (the helper is imported at mm.ts:3) |
| Utils.Round | components/utils.ts:11-14 | the result is an integer multiple of 10^-d lying within half a unit of 10^-d of x, halves going up |
| Utils.RoundUnique | components/utils.ts:13 | those two properties determine round's result: any multiple of 10^-d that close to x is round(x, d) |
| Utils.RoundIdempotent | components/utils.ts:13 | rounding a rounded number again changes nothing |
| Utils.RoundHalves | components/utils.ts:13 | exact halves go toward +infinity: round(2.5, 0) = 3, round(-2.5, 0) = -2, round(0.0005, 3) = 0.001 |
| Utils.RoundWholeAtLeastOne | mm.ts:541-542 | a positive whole-unit rounding is at least 1 |
| Utils.Shuffle | mm.ts:395 | the result is a permutation of the input: the same length and the same multiset |
| Fleet.FleetSumsAppend | mm.ts:339-341 | both fleet sums (ETH and token balances) split over a concatenation of fleets |
| Fleet.SortBy | mm.ts:374 | the fleet positions, each exactly once, ordered by the key: descending when asc is false, ascending when asc is true |
| Fleet.SortDescendingExample | __tests__/utils.test.ts:11-19 | the token balances 100, 50, 200, 150 sort descending to positions 2, 3, 0, 1 |
| Fleet.SortAscendingExample | __tests__/utils.test.ts:21-29 | the same balances sort ascending to positions 1, 0, 3, 2 |
| Orders.BuyAmountBelowBalance | mm.ts:130 | when more than half a thousandth is left for fees, round(balance - leaveOnFee, 3) is below the balance |
| Orders.OrdersForFacts | mm.ts:351-365 | a walk makes one order per visited wallet its rule takes, in visiting order, and each of its orders is the rule's order for such a wallet |
| Orders.OrdersForAppend | mm.ts:351-365 | a walk over a concatenation of visiting orders is the concatenation of the two walks |
| Orders.Consumed | mm.ts:351 | the point where the primary walk stops: the first point at or after m where the ordered amount reaches the target, or the end of the visiting order |
| Orders.PrimaryStops | mm.ts:351-365 | the primary walk's orders either reach the target, with the orders before the last one below it, or take every wallet the rule accepts |
| Orders.Take | mm.ts:376-393 | the first m entries of a list, or all of it when it is shorter |
| Orders.NoiseCount | mm.ts:370 | max(round(pct * n / 100, 0), 1) as a whole number, at least 1 |
| Orders.NoiseSellsAsWritten | mm.ts:441-459 | the noise loop of buyAmountSol as written gets through only when at most one order is requested, and then yields exactly that many; otherwise it throws the TypeError of reading `tokenBalance` of undefined |
| Orders.NoiseSellsAsWrittenAgrees | mm.ts:441-458 | where the noise loop of buyAmountSol gets through, it picks the first requested orders of the forward walk; from two requested orders on it always throws |
| Orders.NoiseSellsCounterexample | mm.ts:441-454 | for two wallets holding 50 and 60 tokens and two noise orders requested, the loop as written throws while the forward walk picks both wallets |
| KeyFile.Trim | mm.ts:73 | a slice of the line that neither starts nor ends with white space, with only white space cut at either end; empty exactly when the line is blank |
| KeyFile.TrimIdempotent | mm.ts:73 | trimming twice is trimming once |
| KeyFile.Split | mm.ts:68 | at least one piece, none holding the separator |
| KeyFile.SplitJoin | mm.ts:68 | joining the pieces of a split with the separator gives back the text |
| KeyFile.JoinSplit | mm.ts:68 | splitting a join of separator-free pieces gives back the pieces |
| KeyFile.SplitExample | mm.ts:68 | an empty line between two newlines is kept as an empty piece |
| KeyFile.NonBlank | mm.ts:68 | the lines that do not trim to nothing: a sub-multiset of the input, and a line is kept exactly when it is not blank |
| KeyFile.KeyLines | mm.ts:68 | the key lines are exactly the non-blank pieces of the file, none holding a newline |
| KeyFile.Keys | mm.ts:68-73 | one key per key line, in file order: that line trimmed, non-empty, with no newline and no white space at either end |
| KeyFile.TrimExample | mm.ts:73 | a Windows line ending leaves a carriage return, which trimming removes |
| Sandbox.Credit | components/sandbox.ts:77-80 | the entry of the key becomes its old value (0 when absent) plus amount; other entries keep their values; the ledger's sum rises by amount |
| Sandbox.SumCredit | components/sandbox.ts:77-80 | crediting one entry raises a ledger's sum by exactly the amount credited |
| Sandbox.ConstantProductOut | components/sandbox.ts:67-75 | the product of the reserves is the same after paying out; for positive reserves and a non-negative input the output lies in [0, reserveOut), and it is positive for a positive input |
| Sandbox.UniswapAMMSimulator.constructor | components/sandbox.ts:12-22 | token reserve = tokenSupply, ETH reserve = pooledEthLiquidity, empty ledgers, not running, and the conservation invariant holds |
| Sandbox.UniswapAMMSimulator.SetIsRunning | components/sandbox.ts:24-26 | only the running flag changes |
| Sandbox.UniswapAMMSimulator.GetTokenOutputForEthInput | components/sandbox.ts:67-70 | the quote keeps the product of the reserves; for positive reserves and a non-negative input it lies in [0, token reserve), and it is positive for a positive input |
| Sandbox.UniswapAMMSimulator.GetEthOutputForTokenInput | components/sandbox.ts:72-75 | the mirror image: the product is kept and the output lies in [0, ETH reserve) |
| Sandbox.UniswapAMMSimulator.Buy | components/sandbox.ts:28-44 | fails with "Slippage too high" exactly when the quote is below minTokenOutput, and then changes nothing. Otherwise the token reserve falls by the quote, the ETH reserve rises by ethInput, the product of the reserves is kept, the buyer is credited the quote and debited ethInput + fee, every other address is untouched, and conservation holds |
| Sandbox.UniswapAMMSimulator.SettleBuy | components/sandbox.ts:35-43 | the state change of an accepted buy: both reserves, both ledger entries of the buyer, the fee added to the fees charged |
| Sandbox.UniswapAMMSimulator.Sell | components/sandbox.ts:46-57 | no check at all: the token reserve rises by tokenInput, the ETH reserve falls by minEthOutput - fee, and the seller's token entry falls by tokenInput (possibly below zero) while their ETH entry rises by minEthOutput - fee; conservation holds |
| Sandbox.UniswapAMMSimulator.GetPoolState | components/sandbox.ts:59-64 | the two current reserves |
| Sandbox.UniswapAMMSimulator.GetAddressHoldings | components/sandbox.ts:82-87 | an address's ledger entries, (0, 0) for one that never traded |
| Sandbox.SimulatorScenario | __tests__/UniswapAMMSimulator.test.ts:10-23 | a pool created with 10^6 tokens and 100 ETH reports exactly those reserves; after a buy at its own quote the token reserve is lower and the ETH reserve higher; an address that never traded holds (0, 0); a buy of 999999 tokens for 0.0001 ETH fails on slippage |
| Dispatcher.SellGuardBalance | mm.ts:208-220 | the SELL guard's balance is the cached one when positive; with a non-positive cache and a NaN fetch it is 0; any non-zero value is the cached or the fetched balance |
| Dispatcher.FateOf | mm.ts:183-236 | one order's outcome: skipped for gas exactly when the gas price exceeds the limit; skipped as of no known type exactly when gas passes and it is neither BUY nor SELL; submitted exactly when gas passes and it is a BUY for less than the cached ETH balance or a SELL for less than the guard balance |
| Dispatcher.FetchedInto | mm.ts:213-216 | a wallet with positive cached tokens is left as it is; a SELL that passed the gas check from a wallet caching none stores the fetched number as its token balance; nothing else ever changes a wallet, and address and ETH balance never change |
| Dispatcher.FleetAtKeeps | mm.ts:176-237 | the dispatch loop changes no wallet's address or ETH balance, never changes a wallet with positive cached tokens, and leaves untouched every wallet no order names |
| Dispatcher.FatesAt | mm.ts:176-237 | the k-th outcome of the loop is FateOf of the k-th order against its wallet as the k earlier orders left it |
| Dispatcher.DispatchSubmitted | mm.ts:176-237 | an order is handed to its wallet exactly when its gas price is within the limit and it is a BUY whose cached balance exceeds the amount, or a SELL whose guard token balance (cached if positive, else fetched, NaN read as 0) exceeds the amount |
| Dispatcher.DispatchSucceeded | mm.ts:198-229 | the orders reported successful are exactly the submitted ones whose trade succeeded |
| Dispatcher.TalliedInOrder | mm.ts:176 | the submitted and successful positions strictly increase, so each order is handled at most once, in list order |
| Dispatcher.DispatchAttempts | mm.ts:181-207 | buyAmount / sellAmount count the orders of each type that passed the gas check, whether or not the balance guard then let them through |
| Dispatcher.DispatchSuccesses | mm.ts:200-229 | the success counters are the number of successful BUYs / SELLs and never exceed the attempt counters; totalEthSum / totalTokenSum are the sums of their amounts |
| Dispatcher.FullBalanceNeverSubmitted | mm.ts:188-229 | an order the balance guard rejects is never submitted, in particular one for at least the wallet's whole balance |
| Dispatcher.WholeBalanceSellExample | mm.ts:221 | a wallet caching 5 tokens told to sell those 5 at an acceptable gas price: skipped as written, submitted with the intended guard |
| Dispatcher.IntendedFateOf | mm.ts:221 | with the SELL guard as intended, the outcome differs from the code's only for a SELL of exactly the guard balance, which the code skips |
| Dispatcher.WholeBalanceSell | mm.ts:221 | with the intended guard, selling exactly the guard balance is submitted exactly when gas allows; with the code's guard, never |
| MarketMaker.DedupCovers | mm.ts:249-257 | the unique wallets have pairwise distinct addresses and cover the address of every order, skipped ones included |
| MarketMaker.DedupFirst | mm.ts:249-257 | each unique wallet is the wallet of the first order with its address, in first-occurrence order |
| MarketMaker.Refreshed | mm.ts:262-268 | exactly the wallets listed are replaced by their refreshed balances; all others are as they were |
| MarketMaker.ApplyAll | mm.ts:105-121 | each wallet is updated by its own fetch, in place |
| MarketMaker.AllFetchedTotals | mm.ts:101-123 | when every fetch succeeds, getAllBalance's totals are the sums over the refreshed fleet |
| MarketMaker.LoadedKeys | mm.ts:66-92 | the wallets of the keys up to the first whose construction throws: at most one per key, the i-th built from the i-th key, and when fewer than the keys, the next key's construction failed |
| MarketMaker.LoadedExactly | mm.ts:66-92 | those three facts determine the loaded wallets: any list meeting them is the one loaded |
| MarketMaker.DedupSameAddresses | mm.ts:249-257 | deduplication looks at addresses only: two fleets with the same addresses position by position give the same unique wallets |
| MarketMaker.SlowSellsChunks | mm.ts:545-570 | every startSlowSelling chunk is a SELL of a draw in [lo, hi) from a wallet of the sorted list, and wallets are visited in sorted order |
| MarketMaker.SlowSellsSpent | mm.ts:553-566 | what is recorded as already taken from a chunk's wallet is the sum of that wallet's earlier chunks |
| MarketMaker.SlowSellsBalances | mm.ts:553 | every chunk was cut while its wallet still kept more than lo |
| MarketMaker.SlowSellsBelowTarget | mm.ts:554-557 | every chunk was cut while the earlier chunks totalled less than the target |
| MarketMaker.SlowSellsValid | mm.ts:559-563 | every chunk names a wallet of the fleet |
| MarketMaker.CutFromLater | mm.ts:546-550 | nothing has been cut from a sorted position past the last one visited |
| MarketMaker.DrainedBefore | mm.ts:545-570 | when every sorted wallet before position i keeps at most lo and no chunk was cut past i, every wallet passed over before a chunk's own wallet keeps at most lo |
| MarketMaker.CutWallets | mm.ts:545-570 | the outer loop yields a valid chunk run whose wallets lie in the sorted list; when it falls short of the target, every sorted wallet keeps at most lo; and a wallet is only passed over once it keeps at most lo, so every wallet before a chunk's own wallet is drained |
| MarketMaker.CutWallet | mm.ts:552-569 | the inner loop extends the chunk run from one wallet; it stops only when the total reached the target, otherwise it leaves that wallet with at most lo, and no other wallet is touched |
| MarketMaker.MM.constructor | mm.ts:31-46 | an empty fleet, zero totals, and a fresh simulator with supply 10^18, 100 ETH and 18 decimals, running exactly when simulation is configured |
| MarketMaker.MM.CreateWalletsFromFile | mm.ts:65-93 | the fleet grows by the loaded wallets of the file's keys, in order, stopping at the first key whose wallet fails to initialise; the totals rise by the new wallets' balance sums |
| MarketMaker.MM.AppendWallets | mm.ts:66-92 | the loop over the keys inside the try: wallets appended in key order with the totals accumulated, the loop left at the first failed initialisation with everything before it kept |
| MarketMaker.MM.GetAllBalance | mm.ts:101-123 | every wallet updated by its fetch; the totals restart from zero and count only the wallets whose both fetches succeeded |
| MarketMaker.MM.BuyFromAllOrders | mm.ts:125-134 | exactly one BUY per wallet, in fleet order, for round(balance - leaveOnFee, 3) |
| MarketMaker.MM.SellFromAllOrders | mm.ts:286-294 | exactly one SELL per wallet, in fleet order, for its cached token balance |
| MarketMaker.MM.ExecuteOrders | mm.ts:176-247 | the counters and sums of the dispatch loop are those of the fold the Dispatcher lemmas are about, and the fleet afterwards is the fleet with each SELL's fetched token balance written back |
| MarketMaker.MM.HandleOrder | mm.ts:177-237 | one pass of the loop body is one step of that fold, and writes back the token balance it fetched for a SELL whose wallet cached none |
| MarketMaker.MM.HandleBuy | mm.ts:188-205 | a BUY counts one attempt; it is submitted when the cached balance exceeds the amount, and a success adds to the BUY count and the ETH sum only |
| MarketMaker.MM.HandleSell | mm.ts:206-229 | a SELL counts one attempt; it is submitted when the guard token balance exceeds the amount, and a success adds to the SELL count and the token sum only |
| MarketMaker.MM.UniqueWallets | mm.ts:249-257 | the deduplication loop computes the unique wallets, in first-occurrence order |
| MarketMaker.MM.SendTxFromList | mm.ts:159-284 | the fold's tally and the unique wallets of the orders; the fleet is the dispatched fleet, fetched token balances written back; when balances are to be updated and some wallet was used, those wallets are then refreshed and the totals recomputed over the whole fleet; otherwise the totals are unchanged |
| MarketMaker.MM.RefreshWallets | mm.ts:259-269 | exactly the unique wallets are refreshed |
| MarketMaker.MM.RecomputeTotals | mm.ts:274-282 | the totals become the sums of cached balances over the whole fleet |
| MarketMaker.MM.BuyFromAll | mm.ts:125-136 | the all-wallet BUY list is dispatched and the wallets it used are refreshed |
| MarketMaker.MM.SellFromAll | mm.ts:286-296 | exactly one SELL per wallet for its cached token balance, dispatched as SendTxFromList states, refreshing as asked |
| MarketMaker.SellFromAllFleet | mm.ts:206-216 | after the first n orders of sellFromAll, wallet k < n holds what its own fetch wrote back and every later wallet is as it was |
| MarketMaker.BuyFromAllSubmitted | mm.ts:188-205 | with more than half a thousandth left for fees, a buyFromAll order is submitted exactly when its gas price is within the limit |
| MarketMaker.SellFromAllSubmitted | mm.ts:206-221 | a sellFromAll order is submitted exactly when gas allows, the cached balance is not positive and the fetched balance exceeds it: a wallet with cached tokens is never sold |
| MarketMaker.MM.SelectSellers | mm.ts:346-365 | the primary loop of sellAmountInPercents computes the primary walk from the last wallet down over wallets holding more than 10 tokens, and the sum it ordered |
| MarketMaker.MM.SelectBuyers | mm.ts:409-432 | the primary loop of buyAmountSol computes the primary walk from the first wallet up over wallets holding fewer than 20 tokens, and the sum it ordered |
| MarketMaker.MM.PickNoise | mm.ts:372-393 | a forward noise loop picks the first requested orders of the walk over the sorted wallets |
| MarketMaker.MM.PickNoiseSellsAsWritten | mm.ts:438-459 | the noise loop of buyAmountSol as written, with its index running 0, -1 |
| MarketMaker.MM.TotalSupply | mm.ts:338-341 | the fleet's token sum |
| MarketMaker.MM.SellAmountInPercentsOrders | mm.ts:337-396 | the primary walk for amountInPercents percent of the fleet's tokens; with randomTx, the first requested noise BUYs over the ascending token sort, shuffled in, the orders' multiset being primary plus noise; without it, the primary orders in order |
| MarketMaker.MM.SellNoise | mm.ts:368-396 | the noise BUYs and the shuffle of sellAmountInPercents |
| MarketMaker.MM.BuyAmountSolOrders | mm.ts:406-463 | the primary walk for amountSol; with randomTx, the noise loop as written, whose failure the method reports; the orders are a permutation of primary plus noise |
| MarketMaker.MM.BuyNoise | mm.ts:434-461 | the noise SELLs of buyAmountSol as written, or the TypeError it throws |
| MarketMaker.MM.StartSlowSellingOrders | mm.ts:521-573 | no orders when the volume is not positive; otherwise valid SELL chunks from the wallets sorted by descending token balance, each drawn between the two whole-token bounds while its wallet keeps more than the lower bound and the total is below the volume share; every wallet passed over before a chunk's wallet keeps at most the lower bound, and a run that falls short of the share leaves every wallet so |
| MarketMaker.MM.SellAmountInPercents | mm.ts:337-404 | the built list is dispatched with refreshing, its orders as SellAmountInPercentsOrders states |
| MarketMaker.MM.BuyAmountSol | mm.ts:406-469 | when building throws, nothing is sent and the state is unchanged; otherwise the list is dispatched with refreshing |
| MarketMaker.MM.StartSlowSelling | mm.ts:521-577 | the chunk list as StartSlowSellingOrders states it, drain-before-next included; nothing is sent and the state is unchanged when the volume is not positive; otherwise the list is dispatched with refreshing |
| SwapMonitor.CheckIsInWindow | components/Monitor.ts:128-132 | a number is in the window exactly when now - timestamp < windowSizeMin * 60 * 1000; NaN never is |
| SwapMonitor.NetVolumeAppend | components/Monitor.ts:116-126 | net volume is additive over concatenation |
| SwapMonitor.NetVolumeSingle | components/Monitor.ts:119-123 | a buy counts its amountOut, a sell minus its amountIn |
| SwapMonitor.Filter | components/Monitor.ts:138-143 | the first compaction loop keeps no more entries than it visits, and only entries that pass the window test |
| SwapMonitor.FilterFacts | components/Monitor.ts:138-143 | the first compaction loop keeps exactly the in-window entries, in order, none twice |
| SwapMonitor.FilterKeeps | components/Monitor.ts:138-143 | an in-window entry appended to the list is kept |
| SwapMonitor.NothingKeptAsWritten | components/Monitor.ts:128-143 | handed whole records, the window test never holds, so the first loop keeps nothing |
| SwapMonitor.Compact | components/Monitor.ts:135-151 | a list of at most MIN entries is left alone; a longer one ends with all its entries from index MIN on, in order, preceded by at most len - MIN kept entries |
| SwapMonitor.MoveWindowAsWritten | components/Monitor.ts:135-151 | as written, compaction leaves a list of length at most MIN alone and otherwise yields exactly its entries from MIN on, len - MIN of them |
| SwapMonitor.MoveWindowBelowMinimum | components/Monitor.ts:135-151 | three fresh swaps compacted with MIN = 2 leave one swap, fewer than MIN |
| SwapMonitor.MoveWindowRepeats | components/Monitor.ts:146-148 | even with timestamps passed, the second loop starting at MIN repeats entries: [a, b, c] with MIN = 1 becomes [a, b, b, c] |
| SwapMonitor.CompactKeepsNewest | components/Monitor.ts:146-148 | whatever the window test, the newest entry survives compaction as the last one |
| SwapMonitor.IntendedCompact | components/Monitor.ts:135-151 | the compaction intended: a list of at most MIN entries is kept; otherwise at least MIN entries remain, ending with the newest MIN entries in order, no entry repeated, and an older entry kept exactly when it is in the window |
| SwapMonitor.Monitor.constructor | components/Monitor.ts:14-22 | an empty swap list, with the window size and MIN_LATEST_TX_AMOUNT given |
| SwapMonitor.Monitor.PreprocessLogs | components/Monitor.ts:80-102 | one swap per log, in order: amountIn the sum of both inputs, amountOut the sum of both outputs, a buy exactly when amount0In > amount0Out |
| SwapMonitor.Monitor.CalcTokenVolume | components/Monitor.ts:116-126 | the net volume of the current list; nothing changes |
| SwapMonitor.Monitor.SelectHistory | components/Monitor.ts:42-60 | a newest-first contiguous run of the logs, each stamped with its own timestamp; every visited log in the window is kept; it stops only at an out-of-window log met once MIN entries are kept; at least min(MIN, number of logs) entries |
| SwapMonitor.Monitor.LoadHistoryTransactions | components/Monitor.ts:32-69 | the swap list becomes the decoded selection, and the volume returned is its net volume |
| SwapMonitor.Monitor.MoveWindow | components/Monitor.ts:135-154 | the list becomes its compaction as written, the window test being handed whole records |
| SwapMonitor.Monitor.ProcessNewTX | components/Monitor.ts:104-114 | the decoded swap is appended and the list compacted; the new swap is then the last entry |

## Left out

- Network I/O is not modelled. Its answers are inputs: viem clients, gas-price and token-price
  queries, the wallets' buy / sell / balance calls, log queries, event subscriptions and block
  timestamps.
- The `setTimeout` sleeps, `randomSleepTime`, logging and `console.log` are left out. They only
  pace the bot.
- File access is left out: reading the key file (its text is an input), the `logs.json` write at
  components/Monitor.ts:100, `saveStatistic` and `generateWallets`.
- `init`, `reloadConfig`, `getWallets`, `getGasPrice`, `start`, `getLastWalletBalance`,
  `sellLastWallet`, `transferTokens` and `watchLogs` are glue around network calls and are not
  part of this model.
- components/Token.ts, components/Wallet.ts, components/dispatcher.ts and main.ts are not part
  of this model. A wallet is its cached record. `wallet.init()` and `getBalance` /
  `getTokenBalance` become inputs (`init`, `refreshed`, `Fetch`).
- The unawaited `sendTxFromList` calls (mm.ts:403, 468, 572) are modelled as run to completion
  before the builder returns. Overlapping batches are a concurrency concern and are not modelled.
- MarketMaker.MM.HandleOrder: a NaN token balance fetched inside the SELL branch (mm.ts:215) is
  not written back, because the cached record holds a number; the wallet keeps its non-positive
  cached balance, which every later guard treats as the NaN (a fetch, then 0). Only a later
  unrefreshed fleet sum could tell the two apart.
- `MIN_LATEST_TX_AMOUNT` is not defined in components/constants.ts, so it is a constructor
  parameter of `Monitor`.
- `Utils.Round` does not model the `Number.EPSILON` nudge or floating point. Over exact reals the
  nudge is zero.
- Utils.BufferFromUInt64: the string form of the argument is not modelled. Values outside
  [0, 2^64), for which `writeBigUInt64LE` throws, are excluded by the precondition.
- `Utils.Shuffle` takes its random indices as an argument, so only its permutation property is
  stated, not its distribution.
- Utils.GetRandomIntInRange: `getRandomIntInRange` is imported at mm.ts:3 but not defined in
  components/utils.ts. Only its range is specified, with the random number as an argument.
- Sandbox.UniswapAMMSimulator.GetTokenOutputForEthInput requires reserve + input to be non-zero:
  with a zero denominator the TypeScript code returns an infinity or NaN, which a real cannot hold.
- Sandbox.UniswapAMMSimulator.GetEthOutputForTokenInput requires reserve + input to be non-zero,
  for the same reason.
- Sandbox.UniswapAMMSimulator.Buy requires the ETH reserve plus the input to be non-zero, for the
  same reason, since it quotes through GetTokenOutputForEthInput.
- Fleet.SortBy fixes a stable order among wallets with equal keys: `sortWalletsByBalance` and
  `sortWalletsByTokenBalance` are imported at mm.ts:3 but their bodies are not in
  components/utils.ts. The noise picks (MarketMaker.MM.SellNoise, MarketMaker.MM.BuyNoise)
  depend on that tie order.
- `createWalletsFromFile` catches any error of its loop (mm.ts:90-92). The model's `init` returns
  `Err` for a wallet whose construction or `init()` throws; the file read itself is an input and
  cannot fail.
- MarketMaker.MM.StartSlowSellingOrders requires both rounded chunk bounds to be positive. With a
  bound of 0 the source's inner loop may never end, which a terminating method cannot model.
  It also requires a non-zero token price, and it does not model a NaN volume.
- The dispatcher's counters are reals and integers without floating-point rounding of the sums.
- The try/catch of `getAllBalance` is modelled by the `Fetch` variants: both fetches succeed, only
  the ETH fetch succeeds, or neither does.
- The noise loops of the builders take the random percentage as an argument. The log lines that
  report their sums are left out.

## Findings

| source | as written | input that shows it | evidently intended | confidence | as-written member | corrected member |
|---|---|---|---|---|---|---|
| components/Monitor.ts:140 | passes the whole swap record to `checkIsInWindow`; the subtraction gives NaN and the test is always false, so compaction keeps only `transactions[MIN..]` and can fall below MIN | three fresh swaps with MIN = 2 leave one swap | pass `currentTx.timestamp`, keeping in-window older swaps and never fewer than MIN | high (not executed) | SwapMonitor.MoveWindowBelowMinimum | SwapMonitor.IntendedCompact |
| components/Monitor.ts:146 | once line 140 passes the timestamp, the second loop starting at index MIN instead of len - MIN keeps the entries in [MIN, len - MIN) twice | once line 140 passes the timestamp, [a, b, c] with a and b in the window and MIN = 1 gives [a, b, b, c] (as written, with line 140 unchanged, it gives [b, c]) | start at len - MIN, so each entry is kept at most once | high (not executed) | SwapMonitor.MoveWindowRepeats | SwapMonitor.IntendedCompact |
| mm.ts:441-454 | the noise loop of buyAmountSol starts at 0 and decrements its index (with `<=` as the bound), so its second pass reads `sortedWallets[-1]` and throws a TypeError | two wallets with 50 and 60 tokens, two noise orders requested | walk forward while ix < length, taking the first requested wallets with at least 20 tokens | high (not executed) | Orders.NoiseSellsCounterexample | MarketMaker.MM.PickNoise |
| mm.ts:221 | the SELL guard skips when the token balance is <= the amount, so a SELL of a wallet's whole cached balance, which sellFromAll builds for every wallet, is never submitted | a wallet caching 5 tokens told to sell 5 at an acceptable gas price | skip only when the balance is below the amount | medium (not executed) | Dispatcher.WholeBalanceSellExample | Dispatcher.WholeBalanceSell |

The class `MM` and the class `Monitor` follow the code as written. The corrected definitions
(`IntendedCompact`, the forward walk of `PickNoise` with `Take`, `IntendedFateOf`) are stated
and proved beside them and are not used by the classes.
