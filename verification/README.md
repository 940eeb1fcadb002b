# defitracker core in Dafny

defitracker tracks a user's crypto accounts. Each account is an address. The
enrichment service classifies the address by its shape. For an Ethereum address it
fetches the portfolio from DeBank. If reading DeBank's answer raises, it falls back
to scanning three EVM chains (ethereum, base, arbitrum) through Alchemy. In that scan the DeFi protocol detector
recognises receipt tokens, CoinGecko prices (through a five-minute cache) value the
tokens, and the groups of all chains are merged by protocol name. The service writes
balances, rounded to cents, and a JSON list of protocol groups into the account. It
moves the account through `syncing` to `synced` or `error`. `NormalizedPosition`
reads the stored groups back as flat positions. `PortfolioAggregationService` then
sums, groups and ranks them for the dashboard. The `Account` model decides when a
sync is due and enqueues `AccountEnrichmentJob`, which runs the service.

The model is functional:

- Accounts, provider answers, positions and groups are immutable datatypes.
- Money is `real`. Ruby's `.round(n)` is rounding half away from zero at `n`
  decimals (`Money.Round`).
- Time is an `int` count of seconds, passed in as `now`.
- Every answer from DeBank, Alchemy and CoinGecko is an input value. `None` stands
  for the `nil` that `make_request` returns on a transport failure or a non-2xx
  status.
- An exception the Ruby code raises on malformed data is a `Result` error
  carrying the class name and message. Examples: `to_f` on a JSON boolean, a
  missing `result`.
- The class-level price cache is a value threaded through each call and returned.

Modules follow the source files:

| module | models |
|---|---|
| `Accounts` | `app/models/account.rb` |
| `AddressClassifier` | `detect_blockchain_type` |
| `AlchemyClient`, `DebankClient`, `PriceService` | the three provider clients, minus HTTP |
| `ProtocolDetector` | `DefiProtocolDetector` |
| `Enrichment` | `AccountEnrichmentService` |
| `EnrichmentJob` | `AccountEnrichmentJob` |
| `Payload` | what `serialize :defi_positions, coder: JSON` reads back |
| `NormalizedPositions` | `NormalizedPosition` |
| `Aggregation` | `PortfolioAggregationService` |

`Values`, `Money`, `Text`, `Sequences`, `Grouping` and `Wrappers` are shared
helpers: JSON scalars, rounding and sums, string predicates, filters, sorting and
`group_by`.

### Where the description of the system and its code differ (the model follows the code)

- **When the fallback runs.** The fallback to Alchemy is described as running when
  DeBank returns nothing or fails. In the code, `get_portfolio_breakdown` rescues
  everything and never returns `nil`, so `unless portfolio` is dead. The fallback
  runs only when extracting the groups from DeBank's protocols raises (a `to_f` on
  a non-numeric field).
- **Top-asset percentage, denominator.** The percentage divides by
  |Σ `balance_usd`| of the active accounts. That sum has nothing to do with the
  positions, so a percentage can exceed 100 (`Aggregation.PercentageCanExceedHundred`).
- **Top-asset percentage, zero denominator.** When the denominator is 0 the
  percentage is left unset, not set to 0.
- **`protocol_id` fallback.** The comment at `normalized_position.rb:54` promises
  to tell duplicate names apart. The code does not: two id-less groups with the
  same name share a `protocol_id` (`NormalizedPositions.DuplicateNamesShareId`).
- **`health_rate`.** The enrichment service never writes it, so for
  service-written data it reads back as `nil`.
- **A string holding one JSON object.** A `defi_positions` string that parses to
  a single JSON object is returned unwrapped. Iterating it then raises, and the
  account yields no positions (`NormalizedPositions.TextObjectIsDropped`).
- **Token ordering in `scan_chain`.** `sort_by!` is not stable. The model takes
  the stable DeFi-first partition, which is one of the orders Ruby may produce.
- **Alchemy position records.** They carry `contract_address` and no `protocol`.
  For the normalizer they read as groups named after the detected protocol.
- **Non-ethereum classifications.** These zero the three balances but keep
  `defi_positions` unchanged.
- **`blockchain` and `account_type`.** These are written before the fetch, so
  they persist even when the fetch raises.
- **Price platform.** The scan prices every chain's tokens on CoinGecko's
  `ethereum` platform, whatever the chain.
- **Balance skip.** The `balance <= 0` skip in the valuation loop never fires for
  a token Alchemy listed, because `get_token_balances` keeps only positive
  balances (`Enrichment.ListedDefiTokensYield`).
- **Account creation.** The enqueue on creation is unconditional.
  `Accounts.AfterCreate` states its effect for the usual case of a new account
  without a sync status.

## Model

| member | source | states |
|---|---|---|
| Accounts.FreshAfterSync | app/models/account.rb:27-29 | an account synced at t needs a sync again exactly when now is strictly past t + 5 minutes |
| Accounts.Enqueue | app/models/account.rb:33-39 | refused, with nothing changed, while syncing; otherwise exactly one job for this account is queued and the status becomes pending; it reports success exactly when a job was added |
| Accounts.EnqueuePreservesValid | app/models/account.rb:7-10 | enqueueing keeps every validation satisfied |
| Accounts.SyncIfNeeded | app/models/account.rb:43-46 | nothing happens unless a sync is due; otherwise it is an enqueue; a job is queued exactly when a sync is due and the account is not syncing |
| Accounts.AfterCreate | app/models/account.rb:12 | a new account without a sync status gets status pending and one queued job |
| Accounts.ShortenedAddress | app/models/account.rb:22-25 | a blank address is kept; otherwise the result is the first six characters, "...", then the last four, with those lengths |
| Accounts.DisplayName | app/models/account.rb:18-20 | a non-blank name wins; otherwise the shortened address |
| AddressClassifier.Classify | app/services/account_enrichment_service.rb:44-62 | every address gets one of four labels; solana exactly for base58 strings of length 32 to 44; cosmos exactly for cosmos1 addresses; ethereum for 0x addresses and for anything no test accepts |
| AddressClassifier.EvmIsNotSolana | app/services/account_enrichment_service.rb:46-48 | no 0x address passes the base58 test, so the first two branches never compete |
| AddressClassifier.ClassifiedBinanceIff | app/services/account_enrichment_service.rb:46-52 | an address is labelled binance exactly when it has the bnb1 shape and fails the base58 test |
| AddressClassifier.BinanceShadowedBySolana | app/services/account_enrichment_service.rb:48-52 | a bnb1 address without '0' or 'l' is reported as solana |
| AlchemyClient.NewClient | app/services/blockchain/alchemy_client.rb:7-20 | a client exists exactly for the five whitelisted chains; any other chain raises RuntimeError naming the chain |
| AlchemyClient.ParseHexRoundTrip | app/services/blockchain/alchemy_client.rb:26-27 | hex decoding inverts hex encoding: a 0x-prefixed rendering of n decodes to n |
| AlchemyClient.GetBalance | app/services/blockchain/alchemy_client.rb:23-30 | no answer gives nil; a missing result raises ArgumentError; otherwise the balance in ether times 10^18 equals the decoded wei quantity |
| AlchemyClient.ZeroLiteralTestRedundant | app/services/blockchain/alchemy_client.rb:40-42 | the filter keeps a balance exactly when it is present and decodes to a positive value; the "0x0" comparison adds nothing |
| AlchemyClient.GetTokenBalances | app/services/blockchain/alchemy_client.rb:33-44 | no answer or no list gives []; the result is an order-preserving subsequence of the list holding exactly its positive-balance entries |
| AlchemyClient.GetTokenMetadata | app/services/blockchain/alchemy_client.rb:47-58 | no answer gives nil; a missing result raises NoMethodError; otherwise the answered metadata |
| AlchemyClient.ResolveEns | app/services/blockchain/alchemy_client.rb:72-76 | always nil |
| DebankClient.GetTotalBalance | app/services/blockchain/debank_client.rb:28-39 | nil stays nil; a missing total reads 0.0 and a missing chain list []; a non-numeric total raises |
| DebankClient.SumAll | app/services/blockchain/debank_client.rb:149-153 | a sum whose terms may raise succeeds exactly when every term does, and otherwise raises the first term's exception in order |
| DebankClient.SumAllAppend | app/services/blockchain/debank_client.rb:149-153 | summing a concatenation is adding the two sums |
| DebankClient.ItemNet | app/services/blockchain/debank_client.rb:151 | an item without stats counts 0.0; otherwise its net value as read |
| DebankClient.ProtocolNet | app/services/blockchain/debank_client.rb:150-152 | a protocol without an item list counts 0.0; it succeeds exactly when every item's net value reads |
| DebankClient.ProtocolBalance | app/services/blockchain/debank_client.rb:148-154 | the nested sum succeeds exactly when every protocol's does; no protocols give 0.0 |
| DebankClient.TokenValue | app/services/blockchain/debank_client.rb:141-145 | price times amount, a missing field reading 0.0; raises exactly for an unreadable field |
| DebankClient.WalletBalance | app/services/blockchain/debank_client.rb:139-146 | succeeds exactly when every token's value reads |
| DebankClient.AmountlessTokensAddNothing | app/services/blockchain/debank_client.rb:143-144 | tokens whose amount is missing add up to 0.0 |
| DebankClient.VerifyBalances | app/services/blockchain/debank_client.rb:115-137 | a wallet strictly between -1 and 0 becomes 0.0, any other wallet is kept; the result is never in (-1, 0) and moves up by less than 1 |
| DebankClient.PortfolioBreakdown | app/services/blockchain/debank_client.rb:79-109 | any exception gives all zeros with empty lists; otherwise total (0.0 for nil), protocol balance, protocols and tokens pass through and the wallet is total minus protocol after the clamp of verify_balances, so wallet + protocol equals the total except when the clamp fired, and then exceeds it by less than 1 |
| DebankClient.SilentDebankGivesZeros | app/services/blockchain/debank_client.rb:28-65 | with no answers at all, the breakdown is all zeros |
| PriceService.GetFromCache | app/services/blockchain/price_service.rb:156-166 | a hit exactly when the key has an expiry strictly after now, returning the stored value with the cache unchanged; a miss deletes both entries of that key and nothing else |
| PriceService.SetCache | app/services/blockchain/price_service.rb:168-171 | stores the value with expiry now + 5 minutes and touches no other key; the two maps keep equal key sets |
| PriceService.TtlWindow | app/services/blockchain/price_service.rb:11 | a value stored at T is read back for every now < T + 5 minutes and missed from T + 5 minutes on |
| PriceService.LookupLocal | app/services/blockchain/price_service.rb:156-166 | a lookup depends only on the entries under its own key |
| PriceService.ReplyPrice | app/services/blockchain/price_service.rb:41-42 | a reply yields a price exactly when it quotes a readable non-null number |
| PriceService.TokenCacheKey | app/services/blockchain/price_service.rb:24 | the key is the platform, ':', then the lower-cased address |
| PriceService.TokenCacheKeyInjective | app/services/blockchain/price_service.rb:24 | on one platform two addresses share a key exactly when they agree up to case |
| PriceService.CachedFetch | app/services/blockchain/price_service.rb:26-47 | a cache hit is returned, even 0.0, without a fetch; on a miss the reply's price or 0.0 is returned, and only an actual price is stored |
| PriceService.TokenPrice | app/services/blockchain/price_service.rb:23-51 | reads under the key platform:lower-cased address with the hit and miss rules of CachedFetch; entries under every other key are untouched |
| PriceService.FetchedPriceIsMemoised | app/services/blockchain/price_service.rb:23-47 | a price fetched and stored at now is served from the cache, with no fetch, until now + 5 minutes |
| PriceService.CoinGeckoId | app/services/blockchain/price_service.rb:114-128 | the table entry of the lower-cased symbol, if any |
| PriceService.CoinGeckoIdIgnoresCase | app/services/blockchain/price_service.rb:127 | the id lookup does not depend on case |
| PriceService.NativePrice | app/services/blockchain/price_service.rb:54-85 | the cached read under "native:" + lower-cased symbol; an unmapped symbol gives 0.0 after a miss; no other key is touched |
| PriceService.QueryKeepsExpected | app/services/blockchain/price_service.rb:98-104 | a further query in a batch does not change the price any address reads |
| PriceService.FrameStep | app/services/blockchain/price_service.rb:98-104 | keys no query of the batch touched keep their entries |
| PriceService.BatchQueried | app/services/blockchain/price_service.rb:96 | the batch queries the first min(n, 10) addresses |
| PriceService.PricesAreBatchPrices | app/services/blockchain/price_service.rb:103 | any map with the reported keys and values is the batch's price map |
| PriceService.GetMultiplePrices | app/services/blockchain/price_service.rb:89-110 | empty input gives {} and the cache unchanged; keys are exactly the original queried addresses whose price is above 0, each with the price it read; min(n, 10) - 1 delays; entries under unqueried keys are kept |
| ProtocolDetector.StablecoinPeg | app/services/blockchain/defi_protocol_detector.rb:91-104 | 1.0 exactly when symbol or name mentions usd, dai or frax, ignoring case; nil otherwise |
| ProtocolDetector.PegPatternsReduce | app/services/blockchain/defi_protocol_detector.rb:92-103 | the eight listed patterns match exactly what usd, dai and frax match |
| ProtocolDetector.FirstMatch | app/services/blockchain/defi_protocol_detector.rb:64-85 | nil exactly when no entry matches; otherwise the descriptor built from the first matching entry in table order. An entry matches on its symbol prefix, its symbol suffix or its name test, and a `head.*tail` name test needs head and tail on one line |
| ProtocolDetector.DetectProtocol | app/services/blockchain/defi_protocol_detector.rb:58-88 | nil metadata and unrecognised tokens give nil, with `.*` in the name regexes not crossing a line break; a match reports the first matching entry's key, name and type, copies symbol and name, sets the debt flag exactly for a "debt" mention and the peg by the stablecoin rule |
| ProtocolDetector.EarlierNameBeatsLaterSymbol | app/services/blockchain/defi_protocol_detector.rb:64-85 | a token whose name passes some entry's name test is recognised and is never reported as a later entry, whatever its symbol |
| ProtocolDetector.CUsdcNamedLikeAaveIsAave | app/services/blockchain/defi_protocol_detector.rb:64-85 | a token with Aave's name shape and Compound's symbol shape is reported as Aave |
| ProtocolDetector.PatternKeysDistinct | app/services/blockchain/defi_protocol_detector.rb:6-51 | the table's entries have distinct keys |
| ProtocolDetector.FirstEntryWins | app/services/blockchain/defi_protocol_detector.rb:64-85 | a token matching the first entry's name test is Aave, whatever else it matches |
| ProtocolDetector.CompoundShapedSymbol | app/services/blockchain/defi_protocol_detector.rb:16 | cUSDC has Compound's c-then-capital symbol shape |
| ProtocolDetector.AaveInterestNamesMatch | app/services/blockchain/defi_protocol_detector.rb:10 | every name beginning "Aave interest" passes Aave's name regex |
| ProtocolDetector.NewlineBreaksNameTest | app/services/blockchain/defi_protocol_detector.rb:10 | "Aave\nDebt" fails Aave's name regex, because `.` does not match a newline, while "Aave Debt" passes |
| ProtocolDetector.SymbolTestsAreCaseSensitive | app/services/blockchain/defi_protocol_detector.rb:9-46 | no symbol prefix or suffix test of the table accepts a lower-cased symbol, while aUSDC has Aave's shape: the symbol tests are case-sensitive |
| ProtocolDetector.NameTestsIgnoreCase | app/services/blockchain/defi_protocol_detector.rb:10-47 | every name test gives the same answer for a name and its lower-cased form |
| ProtocolDetector.UnderlyingValueOf | app/services/blockchain/defi_protocol_detector.rb:107-172 | underlying balance is balance times the rate; the rate is 1.02 for Compound and 1.0 otherwise; Stake DAO reports Aave; GMX and unknown keys report Unknown |
| Values.ToF | app/services/account_enrichment_service.rb:133-134 | to_f raises exactly on a JSON boolean, array or object; nil reads 0.0, a number itself, and a string the value of its numeric prefix (0.0 without one) |
| Values.SafeToF | app/models/normalized_position.rb:28 | nil stays nil; a number or a numeric string reads as `to_f` reads it; a boolean, array or object raises |
| Values.Describe | app/services/account_enrichment_service.rb:37 | the stored error text is the class name, ": ", then the message |
| Money.RoundError | app/services/account_enrichment_service.rb:270-272 | rounding at n places moves a value by at most half a unit in the last place |
| Money.Round2Error | app/services/account_enrichment_service.rb:270-272 | cents rounding moves a value by at most half a cent |
| Money.RoundNegate | app/services/account_enrichment_service.rb:157-165 | debts round like the matching credits: rounding commutes with negation |
| Money.RoundSign | app/services/account_enrichment_service.rb:143-165 | rounding keeps the sign of the value |
| Enrichment.EvmChainsSupported | app/services/account_enrichment_service.rb:4 | the Alchemy client accepts every chain the fallback scans |
| Enrichment.DebankSymbol | app/services/account_enrichment_service.rb:140 | the symbol, else the optimized symbol, else "Unknown" |
| Enrichment.DebankTokenName | app/services/account_enrichment_service.rb:141-193 | the token's name; failing that, the protocol's name for supply, "Borrowed " or "Debt " plus the symbol for the two debt lists |
| Enrichment.TokenPosition | app/services/account_enrichment_service.rb:130-210 | raises exactly when amount or price is unreadable; a supplied token is worth amount times price, a borrowed or owed one minus that, stored rounded to cents with the token name of the naming rule, the item's chain and the protocol's name |
| Enrichment.ListPositions | app/services/account_enrichment_service.rb:131-210 | one position per token in order, or the first exception |
| Enrichment.DebtUsdValue | app/services/account_enrichment_service.rb:214 | absent stats give nil; otherwise the debt value read as an optional number |
| Enrichment.SyntheticDebt | app/services/account_enrichment_service.rb:212-234 | exactly when the debt value is positive, one debt position named "Borrowed (Synthetic)", with no contract address, balance 0 and value minus the debt rounded to cents |
| Enrichment.ItemPositions | app/services/account_enrichment_service.rb:127-235 | raises exactly when a supplied, borrowed or owed token is unreadable, or the debt value is when both debt lists are empty; otherwise the supplied, then borrowed, then owed tokens' positions, each list in order, then the synthetic debt only when both debt lists are empty; every position carries the item's chain and the protocol's name |
| Enrichment.ItemsPositions | app/services/account_enrichment_service.rb:125-236 | fails exactly when some item fails; otherwise the items' positions concatenated in item order |
| Enrichment.ProtocolKind | app/services/account_enrichment_service.rb:114 | lending exactly when the site URL contains "aave", defi otherwise |
| Enrichment.ProtocolEntry | app/services/account_enrichment_service.rb:113-251 | one group {name, type, positions} for a protocol, or none, or the exception of its items |
| Enrichment.EmittedIffPositions | app/services/account_enrichment_service.rb:238-251 | the value moves only with a position, so a group is emitted exactly when the protocol yields a position |
| Enrichment.ExtractGroups | app/services/account_enrichment_service.rb:112-252 | fails exactly when some protocol does; otherwise the groups of the protocols that yield a position, one each, in protocol order, each non-empty and lending or defi |
| Enrichment.ExtractCountsEmitting | app/services/account_enrichment_service.rb:238-251 | the number of groups is the number of protocols that yield positions |
| Enrichment.Upsert | app/services/account_enrichment_service.rb:307-314 | a known name keeps the list of names, and the positions are appended to the first group of that name with every other group unchanged; an unknown name appends a new group at the end |
| Enrichment.UpsertJoinsNamedGroup | app/services/account_enrichment_service.rb:307-314 | with distinct names, the group carrying the name grows by the new positions and every other group is unchanged |
| Enrichment.UpsertKeepsNamesDistinct | app/services/account_enrichment_service.rb:307-314 | upserting keeps group names distinct |
| Enrichment.UpsertAdds | app/services/account_enrichment_service.rb:307-314 | upserting adds exactly the new positions: to the count and to every sum |
| Enrichment.MergeKeepsNames | app/services/account_enrichment_service.rb:307-314 | merging keeps the earlier groups' names, in order, as a prefix |
| Enrichment.MergeNamesDistinct | app/services/account_enrichment_service.rb:307-314 | merging keeps group names distinct |
| Enrichment.MergeNamesCover | app/services/account_enrichment_service.rb:307-314 | a name is in the merge exactly when it is on either side |
| Enrichment.MergeAdds | app/services/account_enrichment_service.rb:307-314 | merging loses and duplicates no position: counts and sums add up |
| Enrichment.Candidates | app/services/account_enrichment_service.rb:360-384 | fails with NoMethodError exactly when some metadata answer lacks a result; each kept token comes from the list, in order, with its answered metadata and the classifier's verdict on it (the scan passes the protocol detector) |
| Enrichment.CandidatesKeepAnswered | app/services/account_enrichment_service.rb:362-384 | the kept tokens are exactly the tokens whose metadata came back, in listing order |
| Enrichment.PriceRequest | app/services/account_enrichment_service.rb:386-391 | at most 20 addresses, taken in DeFi-first order |
| Enrichment.DefiPricedFirst | app/services/account_enrichment_service.rb:386-391 | while DeFi tokens remain, the i-th requested address is the i-th DeFi token's |
| Enrichment.TokenAmount | app/services/account_enrichment_service.rb:403-407 | the amount times 10^decimals (18 when the metadata has none) is the decoded hex balance; a positive raw balance gives a positive amount |
| Enrichment.ChosenPrice | app/services/account_enrichment_service.rb:409-418 | a non-zero quote if there is one, else the DeFi token's peg, else 0 |
| Enrichment.ReceiptPosition | app/services/account_enrichment_service.rb:420-445 | a DeFi token's record carries its address, chain, debt flag, symbol and name, its amount rounded to six places and its value rounded to cents, negated for debt |
| Enrichment.ReceiptJoinsProtocolGroup | app/services/account_enrichment_service.rb:430-445 | a DeFi token's record is appended to the group named after its protocol, created at the end when new; every other group is unchanged |
| Enrichment.ValueTokensTotals | app/services/account_enrichment_service.rb:395-459 | the valuation loop adds every plain token's value to the wallet, every DeFi token's signed value to the protocol balance, and one position per positive DeFi token; group names stay distinct |
| Enrichment.ListedDefiTokensYield | app/services/account_enrichment_service.rb:403-407 | among listed tokens, exactly the DeFi ones yield a position |
| Enrichment.NativeSymbol | app/services/account_enrichment_service.rb:346 | matic exactly on polygon, eth elsewhere |
| Enrichment.DefiFirstValuation | app/services/account_enrichment_service.rb:386-459 | valuing in DeFi-first order gives the native value plus the plain tokens' values as wallet and the DeFi tokens' values as protocol balance, one position per DeFi token |
| Enrichment.NativeHolding | app/services/account_enrichment_service.rb:343-352 | no or non-positive native balance adds nothing and leaves the cache alone; a positive one adds balance times the native price read under "native:" and the chain's symbol, and only that key's entries change |
| Enrichment.ListedTokens | app/services/account_enrichment_service.rb:355 | every listed token has a positive balance |
| Enrichment.ScanTokens | app/services/account_enrichment_service.rb:355-464 | with no tokens the scan is the native value alone; otherwise its totals are the DeFi-first valuation under the batch prices of the requested addresses |
| Enrichment.ScanChain | app/services/account_enrichment_service.rb:335-465 | succeeds exactly when the client is built and no answer is malformed, otherwise raises the client's error, else the balance read's, else the first missing metadata's; the totals are the native value plus the DeFi-first valuation at the prices the batch reports; group names are distinct |
| Enrichment.MergeAllFacts | app/services/account_enrichment_service.rb:299-315 | merging all chains keeps names distinct and loses no position |
| Enrichment.FallbackPortfolio | app/services/account_enrichment_service.rb:289-333 | succeeds exactly when every chain scan does, and otherwise raises the exception of the first chain that fails; wallet and protocol totals are the sums over the chains in order; the groups are the chains' groups merged by name |
| Enrichment.ScanEvmChains | app/services/account_enrichment_service.rb:296-315 | the chains are scanned in order, stopping at the first that fails, whose exception is raised; otherwise the sums and merge of all chains |
| Enrichment.FallbackErrorAt | app/services/account_enrichment_service.rb:296-315 | when chain i fails and every earlier chain succeeds, the fallback's exception is chain i's |
| Enrichment.StoredTotalWithinCents | app/services/account_enrichment_service.rb:317-328 | the stored fallback total differs from the sum of the stored parts by at most 1.5 cents |
| Enrichment.StoredPartsCanMissTotal | app/services/account_enrichment_service.rb:317-328 | parts of half a cent each store 0.02 in total while the stored total is 0.01 |
| Enrichment.DebankStoredTotal | app/services/account_enrichment_service.rb:268-274 | the stored DeBank parts add up to the stored total within 1.5 cents, plus less than 1 when the wallet clamp fired |
| Enrichment.FetchCompletePortfolio | app/services/account_enrichment_service.rb:64-77 | non-ethereum chains store zero balances and keep the groups; ethereum stores DeBank's balances and groups, or the fallback's when the extraction raises, failing only when a chain scan fails and then with the first failing chain's exception |
| Enrichment.Call | app/services/account_enrichment_service.rb:12-40 | an unsaved account is untouched; otherwise it is classified, and success writes synced, now and no error, while failure writes error with the class and message of the first failing chain's exception, and keeps balances, groups and the last sync time |
| Enrichment.DebankSyncReadsBack | app/services/account_enrichment_service.rb:268-274 | after a DeBank sync the normalizer reads back exactly the written groups' positions |
| EnrichmentJob.Perform | app/jobs/account_enrichment_job.rb:4-13 | runs exactly for an existing account that is not syncing and touches no other account; afterwards the account is synced or in error and not syncing, so it can be enqueued again |
| EnrichmentJob.JobGuardIsEnqueueGuard | app/jobs/account_enrichment_job.rb:9 | the job runs for an account exactly when enqueue_enrichment would accept it |
| EnrichmentJob.EnqueuedJobRuns | app/jobs/account_enrichment_job.rb:9 | the account that an enqueue leaves behind is not syncing, so its job runs |
| Payload.Encode | app/services/account_enrichment_service.rb:269-274 | the stored payload is an array with one group object per written group, in order |
| Payload.EncodeGroup | app/services/account_enrichment_service.rb:246-250 | a written group reads back with its name, type and positions, and no id or health rate |
| Payload.EncodePosition | app/services/account_enrichment_service.rb:139-147 | a written position reads back with the same fields, numbers as JSON numbers, and an is_debt that is truthy exactly for a debt |
| NormalizedPositions.SignedValue | app/models/normalized_position.rb:24-27 | a debt's value is non-positive with the same magnitude; a non-debt or non-positive value is kept |
| NormalizedPositions.SignedValueIdempotent | app/models/normalized_position.rb:24-27 | applying the sign rule twice is applying it once |
| NormalizedPositions.PositionChain | app/models/normalized_position.rb:46-51 | the position's own chain, unless it is missing or reads "unknown" in any case, then the account's blockchain |
| NormalizedPositions.ProtocolId | app/models/normalized_position.rb:55 | the id, else the name, else "protocol_" and the index |
| NormalizedPositions.DuplicateNamesShareId | app/models/normalized_position.rb:53-55 | id-less groups with the same name share a protocol id whatever their positions in the list |
| NormalizedPositions.Normalize | app/models/normalized_position.rb:8-72 | raises exactly on an unreadable balance, value or health rate; otherwise the position belongs to the account, is a debt exactly when is_debt is truthy, keeps the sign rule, carries the derived chain and protocol id, the group's name (else "Unknown Protocol") and type, and the position's token symbol and name |
| NormalizedPositions.AbsValue | app/models/normalized_position.rb:116-118 | the magnitude of the value; the negated value for a debt |
| NormalizedPositions.ProtocolKeyParts | app/models/normalized_position.rb:120-122 | the key reads as the protocol id, '_', then the chain |
| NormalizedPositions.ProtocolKeyInjective | app/models/normalized_position.rb:120-122 | when chains contain no '_', equal keys mean equal ids and chains |
| NormalizedPositions.GroupPositions | app/models/normalized_position.rb:43-73 | one position per element in order, up to the first element that raises, which is not accepted; a string element is read like an object whose keys are the words it contains |
| NormalizedPositions.TextPositionNormalizes | app/models/normalized_position.rb:43-72 | a string element of positions is a position: chain "chain" when that word occurs in it, else the account's; balance and value 0; a debt exactly when "is_debt" occurs in it |
| NormalizedPositions.GroupPositionsOwned | app/models/normalized_position.rb:57-72 | every collected position names the account and keeps the sign rule |
| NormalizedPositions.EntriesPositions | app/models/normalized_position.rb:42-79 | positions collected from an account's groups belong to it |
| NormalizedPositions.EntriesPositionsAll | app/models/normalized_position.rb:42-79 | when no element raises, the account's positions are every element's positions concatenated in order |
| NormalizedPositions.EntriesPositionsStop | app/models/normalized_position.rb:42-79 | when element k is the first to raise, the positions of the elements before it are kept, followed by those element k collected, and the account stops there |
| NormalizedPositions.TextGroupSkipped | app/models/normalized_position.rb:42-43 | a string element of the stored array raises exactly when "positions" occurs in it; otherwise the account goes on with the next element |
| NormalizedPositions.ParseDefiPositions | app/models/normalized_position.rb:85-105 | nil, bad JSON and other classes give []; an array is kept; a hash is wrapped; a string yields its parse, a parsed object or scalar unwrapped |
| NormalizedPositions.AccountPositions | app/models/normalized_position.rb:36-79 | the account's positions belong to it; an unwrapped parse yields none |
| NormalizedPositions.TextObjectIsDropped | app/models/normalized_position.rb:89-100 | a JSON string holding one group yields nothing, while the same group stored as a hash yields its positions |
| NormalizedPositions.AllForUserFromActive | app/models/normalized_position.rb:33-82 | every aggregated position comes from an active account and keeps the sign rule |
| NormalizedPositions.FromRecord | app/models/normalized_position.rb:57-72 | a record reads back well formed, with no health rate and its own debt flag |
| NormalizedPositions.GroupRecords | app/models/normalized_position.rb:43-73 | one read-back position per written record, in order |
| NormalizedPositions.WrittenGroupReadsBack | app/models/normalized_position.rb:43-73 | reading back a written group raises nowhere and gives one position per record |
| NormalizedPositions.WrittenEntriesReadBack | app/models/normalized_position.rb:42-79 | reading back written groups gives their positions group after group |
| NormalizedPositions.WrittenPayloadReadsBack | app/models/normalized_position.rb:36-79 | an account holding a written payload reads back exactly the written positions |
| Aggregation.ActiveAccounts | app/services/portfolio_aggregation_service.rb:4 | exactly the active accounts |
| Aggregation.TotalsIgnorePositions | app/services/portfolio_aggregation_service.rb:23-33 | the three totals depend only on the accounts' stored balances, not on their positions |
| Aggregation.TotalVersusParts | app/services/portfolio_aggregation_service.rb:23-33 | total minus idle minus deployed is bounded by the accounts' own gaps between stored total and parts |
| Aggregation.MakeAsset | app/services/portfolio_aggregation_service.rb:55-63 | an asset's value and balance are the sums over the positions with its symbol |
| Aggregation.AssetsOf | app/services/portfolio_aggregation_service.rb:55-64 | one asset per given symbol |
| Aggregation.AssetsOfSum | app/services/portfolio_aggregation_service.rb:55-64 | the assets' values add up to the group sums of their symbols |
| Aggregation.GroupedAssets | app/services/portfolio_aggregation_service.rb:55-64 | one asset per distinct symbol of the positions (as many entries as symbols), each the symbol's own entry with its summed value and balance |
| Aggregation.GroupedAssetsConserveValue | app/services/portfolio_aggregation_service.rb:55-64 | the grouped values add up to the sum of all position values |
| Aggregation.GroupedAssetsDistinct | app/services/portfolio_aggregation_service.rb:55-64 | the grouped assets are entries for distinct symbols |
| Aggregation.SymbolEntriesDistinct | app/services/portfolio_aggregation_service.rb:55 | distinct entries of group_by have distinct symbols |
| Aggregation.PermutedAssets | app/services/portfolio_aggregation_service.rb:67 | any reordering of the grouped assets, whatever the tie order, still has one entry per distinct symbol |
| Aggregation.RankedAssets | app/services/portfolio_aggregation_service.rb:55-68 | min(limit, number of symbols) entries for distinct symbols, non-increasing by absolute value; every symbol left out has a summed value no larger in magnitude than any listed entry |
| Aggregation.WithPercentages | app/services/portfolio_aggregation_service.rb:72-76 | each entry gains its percentage and nothing else changes |
| Aggregation.PercentagesKeepEntries | app/services/portfolio_aggregation_service.rb:72-76 | adding percentages keeps symbols, sums, order and distinctness |
| Aggregation.EntryTotals | app/services/portfolio_aggregation_service.rb:55-63 | an entry of group_by carries its symbol's value and balance sums |
| Aggregation.RankedTotals | app/services/portfolio_aggregation_service.rb:67-78 | the ranked entries keep their sums, order and distinctness; a percentage is present exactly when the total is non-zero |
| Aggregation.TopAssets | app/services/portfolio_aggregation_service.rb:51-79 | no positions give []; otherwise min(limit, number of symbols) entries for distinct symbols, non-increasing by absolute value, no omitted symbol larger in magnitude than a listed one, each with its symbol's sums and, exactly when the total is non-zero, its share of the total rounded to cents |
| Aggregation.PercentageCanExceedHundred | app/services/portfolio_aggregation_service.rb:71-74 | a 150 dollar position against a total of 100 dollars is reported as 150 percent |
| Aggregation.FirstHealthRate | app/services/portfolio_aggregation_service.rb:97 | nil exactly when no position has a health rate; otherwise the first one |
| Aggregation.Summarize | app/services/portfolio_aggregation_service.rb:84-99 | a protocol entry covers at least one position |
| Aggregation.SummarizeKey | app/services/portfolio_aggregation_service.rb:84-92 | an entry's id and chain reproduce the key it was grouped under |
| Aggregation.NetIsSuppliedMinusBorrowed | app/services/portfolio_aggregation_service.rb:94-96 | under the sign rule, net value is supplied value minus borrowed value |
| Aggregation.SummariesOf | app/services/portfolio_aggregation_service.rb:84-100 | one entry per given key |
| Aggregation.SummariesNetSum | app/services/portfolio_aggregation_service.rb:94 | the entries' net values add up to their groups' value sums |
| Aggregation.SummariesCountSum | app/services/portfolio_aggregation_service.rb:98 | the entries' position counts add up to their groups' sizes |
| Aggregation.PermutedSummaries | app/services/portfolio_aggregation_service.rb:100 | any reordering of the entries, whatever the tie order, still has one entry per distinct key |
| Aggregation.EntriesCarryTotals | app/services/portfolio_aggregation_service.rb:84-99 | every entry carries its key's net, supplied, borrowed and count |
| Aggregation.ProtocolBreakdown | app/services/portfolio_aggregation_service.rb:81-101 | no positions give []; one entry per distinct protocol key, sorted by net value non-increasing, each carrying its group's totals |
| Aggregation.ProtocolBreakdownConserves | app/services/portfolio_aggregation_service.rb:84-100 | net values add up to the sum of all position values, and counts to the number of positions |
| Aggregation.BreakdownNetSplits | app/services/portfolio_aggregation_service.rb:94-96 | for the user's positions every entry's net is supplied minus borrowed |
| Aggregation.LastSynced | app/services/portfolio_aggregation_service.rb:103-105 | nil exactly when no account has synced; otherwise the latest sync time of some account |
| Aggregation.StatusSummary | app/services/portfolio_aggregation_service.rb:107-114 | counts of synced and pending accounts, and the four counts plus the accounts with another status make up all accounts |
| Aggregation.StatusCountsPartition | app/services/portfolio_aggregation_service.rb:107-114 | the four status counts and the uncounted accounts partition the accounts |
| Aggregation.StatusCountsBound | app/services/portfolio_aggregation_service.rb:107-114 | the four counts add up to at most the number of accounts |
| Aggregation.Aggregate | app/services/portfolio_aggregation_service.rb:8-19 | totals are sums over the active accounts' stored balances; idle and deployed are repeated in the category breakdown with futures 0; top assets, protocols, last sync and statuses as above |

## Left out

- HTTP transport (`make_request`, `make_get_request`, Net::HTTP, timeouts) is not modelled. Each provider answer is an input, and `None` stands for the `nil` of a failed request.
- API keys and credentials are not modelled, including the raise when a key is missing: they are environment lookups.
- `JSON.parse` is not modelled: the parse outcome of a stored string is an input.
- Logging is not modelled: every `Rails.logger` call, `log_portfolio_summary` and the log-only mismatch check in `verify_balances` have no observable effect.
- `sleep` in `get_multiple_prices` is counted, not timed.
- Icons and logo URLs (`logo_url`, `icon_url`, `protocol_icon`, `token_icon`) are left out: they are display-only.
- Float representation is not modelled: money is exact `real`, and `10 ** decimals` cannot underflow.
- Ruby regular expressions are written as string predicates with whole-string anchors. Multi-line `^`/`$` behaviour is left out. An unanchored `.*` is modelled as Ruby reads it without `/m`: it does not cross a newline.
- Sort tie order is not modelled. `sort_by` results are one sorted permutation, and the contracts state sortedness plus the per-entry facts that hold for every permutation. In `scan_chain` the stable DeFi-first partition is used.
- ActiveRecord mechanics are not modelled: persistence, SQL sums and counts, and `update` failing a validation (updates always succeed here). Accounts are records in a sequence or a map keyed by id.
- Concurrency is not modelled: the race between the guards and the queue, and the queue's at-least-once delivery.
- Controllers, `Rails.cache`, the schema and the migrations are request plumbing and declarative schema.
- Placeholders with no behaviour are left out: `resolve_ens_name`, `detect_extensions`, `ethereum_based?`, `get_nfts`, `get_nft_summary` and `get_portfolio`.
- Two input shapes are not modelled: a `tokenBalance` default for nil entries (unreachable after the filter), and non-hash elements inside DeBank lists.
- The detector's `alchemy_client` constructor argument is never used by the modelled methods.
- Text.ToLower: folds ASCII letters only, while Ruby's `downcase` also folds non-ASCII letters. This matters only for the "unknown" chain test, the case-insensitive name tests and the price-cache keys, where inputs are ASCII.
- Text.IsBlank: counts ASCII whitespace only, while Ruby's `blank?` also accepts Unicode spaces.
- AlchemyClient.ParseHex: models `to_i(16)` on the strings JSON-RPC returns, an optional `0x` and hex digits. Ruby also skips leading whitespace, accepts a sign and allows underscores between digits (" 0x10" and "0x1_0" both read 16); these shapes are not modelled, and the result is a `nat`.
- Stored `chain`, `token_symbol` and `token_name` fields are modelled as strings or null. A number there would be stringified by `to_s` for the "unknown" test and passed through otherwise.
- NormalizedPositions.Normalize: the normalized position keeps only the truthiness of `is_debt`, not the JSON value itself. Every reader of it (`supplied?`, `borrowed?`, the sign rule, the aggregation's filters) uses it only as a condition.
- PriceService.GetMultiplePrices: CoinGecko's answer is one fixed reply per queried key for the whole enrichment, and the clock is one value `now`. In Ruby a failed request is not cached and may be asked again with a different outcome: for a repeated or case-variant address in one batch, or on a later chain. The cache expiry is also read at the current time on every lookup, while up to 4.5 seconds of `sleep` pass per batch. The stated prices hold for that fixed reply and that frozen clock.
- Enrichment.NativeHolding: the native price is one fixed reply per symbol, read at one frozen `now`. So a "native:eth" request that failed on ethereum gives the same answer when base and arbitrum ask again, where in Ruby a re-ask can succeed. The contract states the value under that single reply.
- Enrichment.ScanChain: the cache it returns is described only as consistent, not entry by entry, because the native read and the batch both write to it.
- Enrichment.FetchCompletePortfolio: on the fallback path, the stored account is stated to be some scan's write-back with distinct group names; the scan itself is stated by `Enrichment.FallbackPortfolio`.
- DebankClient.TokenValue, DebankClient.WalletBalance and DebankClient.AmountlessTokensAddNothing model the private `calculate_wallet_balance` (app/services/blockchain/debank_client.rb:138-145). No other method of the client calls it, so it has no effect on an enrichment, and nothing else in the model uses these members.
- Aggregation.StatusSummary: the syncing and error counts are stated through `Aggregation.StatusCountsPartition`, not one by one in the contract.
- Accounts.AfterCreate: the contract covers a new account with no sync status. A record created with status syncing would be refused, as `Accounts.Enqueue` states.
