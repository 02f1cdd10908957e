# fearless-Android core, modelled in Dafny

This project models the decision logic at the core of the fearless wallet
for Android, written in Kotlin, and proves properties of it. The
coroutine and stream plumbing is removed. Each rule becomes a pure
function over immutable data, a fold over a sequence, or a small state
machine stepped over a trace of events.

- **NFT interactor** (`NFTInteractorImpl`), in three modules:
  - `NftChains`: which chains take part, how one chain's page result becomes
    `Empty`/`Data`/`Error` collections, and how the per-chain lists are
    concatenated.
  - `StaleFallback`: the combiner both flows use
    (`rememberAndZipAsPreviousIf` followed by the "previous data if the
    current has none" choice), with its no-regression property.
  - `NftFlows`: the owned-collections flow; the collection-detail flow with
    its two producers behind the "non-blocking semaphore" gate, stepped
    over a trace of requests and answers; the filter map; the two point
    queries.
- **`AssetBalance`**: the `sumAssetBalances` fold, as written and as
  evidently intended (see Findings).
- **`BalanceList`**: the pure parts of `BalanceListViewModel`. These are the
  chain selector, the de-duplicated asset list, the fiat-symbol flag, the
  network-issue banner, click routing, the hidden-assets toggle, and the
  chain selection remembered per account address.
- **`StakingRewards`**: the indexer dispatch of `sync` and the reward sums.
- **`AccountDataSource`**: the per-chain account table, the stored
  authentication type, the crypto-type default, and the selected account
  kept in a one-slot cache and in preferences.
- **`TokenModel`**: the rate-change colour and the fiat amount.
- **Shared modules:**
  - `Base` holds `Option`, Kotlin's `Result` and `Outcome`. An `Outcome` is
    either a returned value or a thrown exception.
  - `Seqs` and `Text` hold the standard-library operations the code uses:
    `filter`, `find`, `sortedWith` and case-insensitive `contains`.

Amounts are exact: `BigDecimal` and `BigInteger` become `real` and `int`.
Exceptions a function throws become `Throws` values, and a Kotlin
`Result` becomes `Success`/`Failure`. Calls into code outside this model
are parameters of the functions that make them. These are the
repositories and APIs, `defaultChainSort` (a rank function),
`AppVersion.isSupported`, the JSON mappers, `toAccountIdHex` (the
address to hex account id conversion), and the converters to light and
full NFTs (`toLightNFTCollection`, `toFullNFTCollection`, `toFullNFT`).
The address conversion and each converter return a value or throw.

What the code does that a reader might not expect:
- A chain's page maps to one `Light` collection per contract, so one chain
  can contribute several entries to an aggregate, not exactly one.
- In the detail flow the unknown-chain error is raised when the chain list
  is combined with the selection. The token flips on every hand-over
  event and always re-signals, whether or not the token already had that
  value.
- An `Error` never counts as real data for the stale fallback.

## Model

| member | source | states |
|---|---|---|
| Seqs.Filter | feature-nft-impl/src/main/java/jp/co/soramitsu/nft/impl/domain/NFTInteractorImpl.kt:63 | `filter` keeps exactly the elements satisfying the predicate, each from the input, and never more of a value than the input has |
| Seqs.FilterMultiset | feature-nft-impl/src/main/java/jp/co/soramitsu/nft/impl/domain/NFTInteractorImpl.kt:63-66 | after `filter` a value satisfying the predicate occurs as often as in the input, any other value not at all |
| Seqs.Find | feature-nft-impl/src/main/java/jp/co/soramitsu/nft/impl/domain/NFTInteractorImpl.kt:135 | `find` gives the first element satisfying the predicate, and nothing exactly when no element does |
| Seqs.Sort | feature-wallet-impl/src/main/java/jp/co/soramitsu/wallet/impl/presentation/balance/list/BalanceListViewModel.kt:137 | `sortedWith` returns a permutation of its input |
| Seqs.SortSorted | feature-wallet-impl/src/main/java/jp/co/soramitsu/wallet/impl/presentation/balance/list/BalanceListViewModel.kt:137 | for a comparator that is a total preorder, the result of `sortedWith` is ordered by it |
| Text.ContainsIgnoreCase | feature-wallet-impl/src/main/java/jp/co/soramitsu/wallet/impl/presentation/balance/list/BalanceListViewModel.kt:135 | `contains(query, ignoreCase = true)` holds exactly when the query occurs at some position of the text, letters compared without case |
| Text.LexLeTotal | feature-wallet-impl/src/main/java/jp/co/soramitsu/wallet/impl/presentation/balance/list/BalanceListViewModel.kt:137 | the string order used by `thenBy { title }` relates every pair of strings |
| Text.LexLeTransitive | feature-wallet-impl/src/main/java/jp/co/soramitsu/wallet/impl/presentation/balance/list/BalanceListViewModel.kt:137 | that string order is transitive |
| NftChains.EligibleChains | feature-nft-impl/src/main/java/jp/co/soramitsu/nft/impl/domain/NFTInteractorImpl.kt:62-67 | a chain takes part exactly when it supports NFTs, has a non-empty Alchemy id, and, when the selection is neither null nor empty, carries the selected id |
| NftChains.EligibleChainsCount | feature-nft-impl/src/main/java/jp/co/soramitsu/nft/impl/domain/NFTInteractorImpl.kt:62-67 | with no selection every NFT-capable chain takes part as often as it is listed; a chain without NFT support, or with another id than a given selection, never takes part |
| NftChains.DetailChain | feature-nft-impl/src/main/java/jp/co/soramitsu/nft/impl/domain/NFTInteractorImpl.kt:131-141 | the detail pipeline works on the first NFT-capable chain with the selected id; when there is none it fails with `IllegalStateException` |
| NftChains.FindInFilter | feature-nft-impl/src/main/java/jp/co/soramitsu/nft/impl/domain/NFTInteractorImpl.kt:132-135 | finding in the NFT-capable chains is finding the first chain that is both NFT-capable and matching |
| NftChains.OwnedCollections | feature-nft-impl/src/main/java/jp/co/soramitsu/nft/impl/domain/NFTInteractorImpl.kt:83-106 | one chain's answer maps to one converted `Light` collection per contract, in contract order, for a non-empty page whose contracts all convert; to exactly one `Empty` for any other event or an empty page; to exactly one `Error` with the cause for a failed request, or with the exception of the first contract whose conversion throws; every entry carries the chain's id and name |
| NftChains.AggregateConcat | feature-nft-impl/src/main/java/jp/co/soramitsu/nft/impl/domain/NFTInteractorImpl.kt:109 | the aggregate of two groups of chain answers is the concatenation of their aggregates |
| NftChains.UnaskedChainHasNoEntries | feature-nft-impl/src/main/java/jp/co/soramitsu/nft/impl/domain/NFTInteractorImpl.kt:80-111 | no entry of the aggregate carries the id of a chain that was not asked |
| NftChains.ChainIsolation | feature-nft-impl/src/main/java/jp/co/soramitsu/nft/impl/domain/NFTInteractorImpl.kt:80-111 | the aggregate's entries carrying a chain's id are exactly that chain's own mapping, whatever the other chains answered |
| NftChains.AggregateCoversEveryChain | feature-nft-impl/src/main/java/jp/co/soramitsu/nft/impl/domain/NFTInteractorImpl.kt:80-111 | every chain asked contributes at least one entry tagged with its own id and name |
| NftChains.AggregatePermutation | feature-nft-impl/src/main/java/jp/co/soramitsu/nft/impl/domain/NFTInteractorImpl.kt:80-111 | the order in which chains answer changes only the order of the aggregate, never its contents |
| NftChains.MixedBatchScenario | feature-nft-impl/src/main/java/jp/co/soramitsu/nft/impl/domain/NFTInteractorImpl.kt:83-109 | a contract from one chain and a failure from another give one `Data` entry and one `Error` entry, each tagged with its own chain |
| NftChains.ConverterFailureScenario | feature-nft-impl/src/main/java/jp/co/soramitsu/nft/impl/domain/NFTInteractorImpl.kt:83-105 | a page whose second contract fails to convert becomes one `Error` with that exception, although the first contract converts; the next chain's entries follow unchanged |
| StaleFallback.LastSatisfying | feature-nft-impl/src/main/java/jp/co/soramitsu/nft/impl/domain/NFTInteractorImpl.kt:112-113 | the value remembered for the combiner is the last earlier value counting as real data, and none exactly when no earlier value counts |
| StaleFallback.RememberedIsLastReal | feature-nft-impl/src/main/java/jp/co/soramitsu/nft/impl/domain/NFTInteractorImpl.kt:112-113 | the combiner's stepped state is the last real value of the trace so far |
| StaleFallback.RunAt | feature-nft-impl/src/main/java/jp/co/soramitsu/nft/impl/domain/NFTInteractorImpl.kt:114-122 | the value sent for an event depends only on the events up to it |
| StaleFallback.FallbackShowsLastReal | feature-nft-impl/src/main/java/jp/co/soramitsu/nft/impl/domain/NFTInteractorImpl.kt:114-122 | a real value is sent as it is; a value that is not real is replaced by the last real value before it; with no real value before it, it is sent as it is |
| StaleFallback.FallbackShowsLastRealAt | feature-nft-impl/src/main/java/jp/co/soramitsu/nft/impl/domain/NFTInteractorImpl.kt:114-122 | the same, with the replacement located in the trace: the last real value before the event, with none between |
| StaleFallback.SentWasReceived | feature-nft-impl/src/main/java/jp/co/soramitsu/nft/impl/domain/NFTInteractorImpl.kt:114-122 | every value sent is a value that came in no later than its turn |
| StaleFallback.RealSentWasSeen | feature-nft-impl/src/main/java/jp/co/soramitsu/nft/impl/domain/NFTInteractorImpl.kt:114-122 | a real value is sent only when a real value has come in by then |
| StaleFallback.RealSeenIsSent | feature-nft-impl/src/main/java/jp/co/soramitsu/nft/impl/domain/NFTInteractorImpl.kt:114-122 | once a real value has come in, every later value sent is real |
| StaleFallback.NoRegression | feature-nft-impl/src/main/java/jp/co/soramitsu/nft/impl/domain/NFTInteractorImpl.kt:112-122 | once a real value has been sent, every later value sent is real |
| NftFlows.UserOwnedShowsLastData | feature-nft-impl/src/main/java/jp/co/soramitsu/nft/impl/domain/NFTInteractorImpl.kt:112-122 | the owned flow shows a request's aggregate when it holds `Data`; otherwise the last earlier aggregate holding `Data`, if any; otherwise the aggregate itself |
| NftFlows.UserOwnedNeverRegresses | feature-nft-impl/src/main/java/jp/co/soramitsu/nft/impl/domain/NFTInteractorImpl.kt:112-122 | once the owned flow has shown a list holding `Data`, every later list it shows holds `Data` |
| NftFlows.DataThenEndScenario | feature-nft-impl/src/main/java/jp/co/soramitsu/nft/impl/domain/NFTInteractorImpl.kt:83-122 | a page with a contract followed by `AllNextPagesLoaded` shows the contract twice, never an `Empty` list |
| NftFlows.Gate | feature-nft-impl/src/main/java/jp/co/soramitsu/nft/impl/domain/NFTInteractorImpl.kt:159-166 | a request passes to the producer whose `unlockOn` equals the token: exactly one producer for token 0 or 1, none otherwise |
| NftFlows.DetailCollection | feature-nft-impl/src/main/java/jp/co/soramitsu/nft/impl/domain/NFTInteractorImpl.kt:177-198 | a page result maps to `Data` holding the converted page exactly for a non-empty page the converter accepts; to `Error` exactly for a failed request (its cause) or a conversion that throws (its exception); to `Empty` otherwise; always tagged with the chain |
| NftFlows.DetailStep | feature-nft-impl/src/main/java/jp/co/soramitsu/nft/impl/domain/NFTInteractorImpl.kt:159-263 | a request is gated by the current token; `AllNextPagesLoaded` from the owned producer or `AllPreviousPagesLoaded` from the available one flips the token to the other producer and re-delivers the latest request to it; any other answer leaves the token; an answer is sent through its own producer's fallback and leaves the other producer's memory alone |
| NftFlows.TokenStaysValid | feature-nft-impl/src/main/java/jp/co/soramitsu/nft/impl/domain/NFTInteractorImpl.kt:149-152 | the token is always `UserOwnedNFTsStartedLoading` or `AvailableNFTsStartedLoading` |
| NftFlows.RequestReachesOneProducer | feature-nft-impl/src/main/java/jp/co/soramitsu/nft/impl/domain/NFTInteractorImpl.kt:159-169 | every request of the screen reaches exactly one producer, the one the token names at that moment |
| NftFlows.TokenIsLastHandOver | feature-nft-impl/src/main/java/jp/co/soramitsu/nft/impl/domain/NFTInteractorImpl.kt:180-183 | the token names the producer the last hand-over passed the floor to, or the owned producer before any hand-over |
| NftFlows.TokenAfterHandOver | feature-nft-impl/src/main/java/jp/co/soramitsu/nft/impl/domain/NFTInteractorImpl.kt:180-183 | after a producer hands over, the token names the other producer until that one hands back |
| NftFlows.HandOffToAvailable | feature-nft-impl/src/main/java/jp/co/soramitsu/nft/impl/domain/NFTInteractorImpl.kt:180-183 | after the owned producer reports `AllNextPagesLoaded`, requests go to the available producer until it reports `AllPreviousPagesLoaded` |
| NftFlows.HandBackToOwned | feature-nft-impl/src/main/java/jp/co/soramitsu/nft/impl/domain/NFTInteractorImpl.kt:228-231 | after the available producer reports `AllPreviousPagesLoaded`, requests go to the owned producer until it reports `AllNextPagesLoaded` |
| NftFlows.ProducerFallbackIsolated | feature-nft-impl/src/main/java/jp/co/soramitsu/nft/impl/domain/NFTInteractorImpl.kt:201-215 | each producer has a fallback of its own: what it sends is the combiner run over its own answers alone |
| NftFlows.DetailNeverRegresses | feature-nft-impl/src/main/java/jp/co/soramitsu/nft/impl/domain/NFTInteractorImpl.kt:249-263 | once a producer has sent `Data`, everything it sends later is `Data`, possibly an old pair with its old request |
| NftFlows.FiltersMap | feature-nft-impl/src/main/java/jp/co/soramitsu/nft/impl/domain/NFTInteractorImpl.kt:49-55 | every filter is in the map, and it maps to true exactly when its name is not stored |
| NftFlows.SetNFTFilter | feature-nft-impl/src/main/java/jp/co/soramitsu/nft/impl/domain/NFTInteractorImpl.kt:45-47 | the filter's name is stored exactly when `isApplied` is false; other names are untouched |
| NftFlows.SetThenObserveFilter | feature-nft-impl/src/main/java/jp/co/soramitsu/nft/impl/domain/NFTInteractorImpl.kt:45-55 | after `setNFTFilter(f, isApplied)` the filter map reports `isApplied` for `f` and the old value for every filter with another name |
| NftFlows.GetOwnersForNFT | feature-nft-impl/src/main/java/jp/co/soramitsu/nft/impl/domain/NFTInteractorImpl.kt:283-305 | an unknown chain throws; a null contract address or token id is a failed result; otherwise the owners the repository returns |
| NftFlows.GetNFTDetails | feature-nft-impl/src/main/java/jp/co/soramitsu/nft/impl/domain/NFTInteractorImpl.kt:268-281 | an unknown chain throws; a repository failure is passed on with its cause; a repository answer is converted to a full NFT, and a conversion that throws escapes the call, since `Result.map` does not catch it |
| AssetBalance.FirstWithId | feature-account-impl/src/main/java/jp/co/soramitsu/account/impl/domain/AssetBalanceUseCaseImpl.kt:40-41 | `firstOrNull { id }`: a chain asset with the id and none of that id before it, and none exactly when no chain asset has it |
| AssetBalance.FirstWithIdIsFind | feature-account-impl/src/main/java/jp/co/soramitsu/account/impl/domain/AssetBalanceUseCaseImpl.kt:40-41 | the lookup is the standard `find` with the predicate "has this id" |
| AssetBalance.FiatAmount | feature-account-impl/src/main/java/jp/co/soramitsu/account/impl/domain/AssetBalanceUseCaseImpl.kt:44-47 | an asset has a fiat value exactly when its token has a rate |
| AssetBalance.FiatAmountNullIsZero | feature-account-impl/src/main/java/jp/co/soramitsu/account/impl/domain/AssetBalanceUseCaseImpl.kt:44-45 | a missing free or reserved amount gives the same fiat value as a zero one |
| AssetBalance.FiatAmountIsFreePlusReserved | feature-account-impl/src/main/java/jp/co/soramitsu/account/impl/domain/AssetBalanceUseCaseImpl.kt:44-47 | with a rate, the fiat value is the value of the free amount plus the value of the reserved amount |
| AssetBalance.FiatAmountScalesWithPrecision | feature-account-impl/src/main/java/jp/co/soramitsu/account/impl/domain/AssetBalanceUseCaseImpl.kt:46 | one more digit of precision makes the same planks worth a tenth, so planks are divided by ten to the precision |
| AssetBalance.RateChange | feature-account-impl/src/main/java/jp/co/soramitsu/account/impl/domain/AssetBalanceUseCaseImpl.kt:55-58 | the rate is zero for a zero balance, and otherwise the change as a percentage of the balance |
| AssetBalance.AddAsset | feature-account-impl/src/main/java/jp/co/soramitsu/account/impl/domain/AssetBalanceUseCaseImpl.kt:40-65 | a listed asset adds its fiat value to the balance and its fiat change to the change, recomputes the rate and takes the symbol rule; an unlisted asset yields `AssetBalance.Empty` |
| AssetBalance.FoldAssets | feature-account-impl/src/main/java/jp/co/soramitsu/account/impl/domain/AssetBalanceUseCaseImpl.kt:39-66 | the fold throws exactly when some asset's chain is missing from the chain map |
| AssetBalance.PolkadotCurrency | feature-account-impl/src/main/java/jp/co/soramitsu/account/impl/domain/AssetBalanceUseCaseImpl.kt:35 | the fallback symbol is the token symbol of the first asset on Polkadot, and is absent when no asset is on Polkadot |
| AssetBalance.SumAssetBalances | feature-account-impl/src/main/java/jp/co/soramitsu/account/impl/domain/AssetBalanceUseCaseImpl.kt:34-67 | no assets give `AssetBalance.Empty`; the call throws exactly when some asset's chain is unknown |
| AssetBalance.ResolvedFoldIsSum | feature-account-impl/src/main/java/jp/co/soramitsu/account/impl/domain/AssetBalanceUseCaseImpl.kt:39-66 | when every asset is listed by its chain, the balance and change are the plain sums of what each asset contributes |
| AssetBalance.UnlistedAssetResets | feature-account-impl/src/main/java/jp/co/soramitsu/account/impl/domain/AssetBalanceUseCaseImpl.kt:40-42 | as written, an unlisted asset wipes out every asset before it: the result is what the assets after it give alone |
| AssetBalance.UnlistedAssetDropsEarlierValue | feature-account-impl/src/main/java/jp/co/soramitsu/account/impl/domain/AssetBalanceUseCaseImpl.kt:40-42 | a priced asset worth 10 followed by an unlisted one sums to `AssetBalance.Empty`, while the assets are worth 10 |
| AssetBalance.AddAssetSkipping | feature-account-impl/src/main/java/jp/co/soramitsu/account/impl/domain/AssetBalanceUseCaseImpl.kt:40-42 | intended step: an unlisted asset leaves the accumulator as it is; a listed one adds as before |
| AssetBalance.FoldAssetsSkipping | feature-account-impl/src/main/java/jp/co/soramitsu/account/impl/domain/AssetBalanceUseCaseImpl.kt:39-66 | the intended fold throws exactly when some asset's chain is unknown |
| AssetBalance.SumAssetBalancesSkipping | feature-account-impl/src/main/java/jp/co/soramitsu/account/impl/domain/AssetBalanceUseCaseImpl.kt:34-67 | the intended sum: no assets give `AssetBalance.Empty`, and it throws exactly when some asset's chain is unknown |
| AssetBalance.SkippingFoldIsSum | feature-account-impl/src/main/java/jp/co/soramitsu/account/impl/domain/AssetBalanceUseCaseImpl.kt:39-66 | with skipping, the balance and change are the sums over all assets, unlisted ones adding nothing |
| AssetBalance.SkippingRateIsConsistent | feature-account-impl/src/main/java/jp/co/soramitsu/account/impl/domain/AssetBalanceUseCaseImpl.kt:55-58 | with skipping, the rate shown is always the change as a percentage of the balance shown, and zero for a zero balance |
| AssetBalance.FoldsAgreeWhenResolved | feature-account-impl/src/main/java/jp/co/soramitsu/account/impl/domain/AssetBalanceUseCaseImpl.kt:39-66 | the written and the intended fold agree whenever every asset is listed by its chain |
| BalanceList.SomeSymbolContains | feature-wallet-impl/src/main/java/jp/co/soramitsu/wallet/impl/presentation/balance/list/BalanceListViewModel.kt:135 | some token symbol of the chain contains the query, ignoring case |
| BalanceList.ChainOrderIsTotalPreorder | feature-wallet-impl/src/main/java/jp/co/soramitsu/wallet/impl/presentation/balance/list/BalanceListViewModel.kt:137 | ordering by `defaultChainSort` then title is a total preorder |
| BalanceList.MatchingChains | feature-wallet-impl/src/main/java/jp/co/soramitsu/wallet/impl/presentation/balance/list/BalanceListViewModel.kt:133-136 | the chains whose title or some token symbol contains the query, ignoring case, each as often as listed; all chains for an empty query |
| BalanceList.ChainsState | feature-wallet-impl/src/main/java/jp/co/soramitsu/wallet/impl/presentation/balance/list/BalanceListViewModel.kt:132-144 | the selector lists every chain matching the query as often as it is listed, ordered by rank then title, with the selection and query passed on |
| BalanceList.ListedAssets | feature-wallet-impl/src/main/java/jp/co/soramitsu/wallet/impl/presentation/balance/list/BalanceListViewModel.kt:191-193 | an asset is listed exactly when it has an account or is not marked as not needed, and lies on the selected chain when one is selected; listed assets keep their multiplicity |
| BalanceList.AssetLeTransitive | feature-wallet-impl/src/main/java/jp/co/soramitsu/wallet/impl/presentation/balance/list/BalanceListViewModel.kt:278-282 | the five-key asset order is transitive |
| BalanceList.AssetOrderIsTotalPreorder | feature-wallet-impl/src/main/java/jp/co/soramitsu/wallet/impl/presentation/balance/list/BalanceListViewModel.kt:278-282 | the five-key asset order is a total preorder |
| BalanceList.SortedAssets | feature-wallet-impl/src/main/java/jp/co/soramitsu/wallet/impl/presentation/balance/list/BalanceListViewModel.kt:191-194 | the listed assets, each as often as listed, ordered by `defaultAssetListSort` |
| BalanceList.FindChain | feature-wallet-impl/src/main/java/jp/co/soramitsu/wallet/impl/presentation/balance/list/BalanceListViewModel.kt:199 | a chain with the id and none of that id before it, and none exactly when no chain has it |
| BalanceList.ChainUrls | feature-wallet-impl/src/main/java/jp/co/soramitsu/wallet/impl/presentation/balance/list/BalanceListViewModel.kt:208-210 | exactly the chains having an asset shown with the symbol appear, each with the icon of the last such chain of that id, as `associate` keeps the later entry |
| BalanceList.BuildItem | feature-wallet-impl/src/main/java/jp/co/soramitsu/wallet/impl/presentation/balance/list/BalanceListViewModel.kt:195-233 | a row shows the asset's display name and ids; it is supported when its chain is unknown or has no minimum version, else as the version check says; it has a network issue exactly when its chain is connecting; chain icons only with no chain selected; hidden exactly when disabled |
| BalanceList.FirstOfEachName | feature-wallet-impl/src/main/java/jp/co/soramitsu/wallet/impl/presentation/balance/list/BalanceListViewModel.kt:214-215 | the positions picked are increasing, carry pairwise different names, are each the first position of their name, and every name occurs among them |
| BalanceList.RowsByFirstName | feature-wallet-impl/src/main/java/jp/co/soramitsu/wallet/impl/presentation/balance/list/BalanceListViewModel.kt:214-236 | one row per display name, built from the first asset with that name, and every name present |
| BalanceList.AssetStates | feature-wallet-impl/src/main/java/jp/co/soramitsu/wallet/impl/presentation/balance/list/BalanceListViewModel.kt:189-238 | no two rows share a display name; every row is built from the first listed asset in sort order with its name; every listed asset's name has a row |
| BalanceList.IsTokenFiatChanged | feature-wallet-impl/src/main/java/jp/co/soramitsu/wallet/impl/presentation/balance/list/BalanceListViewModel.kt:160-164 | the flag is set exactly when both symbols are known and differ |
| BalanceList.HasNetworkIssues | feature-wallet-impl/src/main/java/jp/co/soramitsu/wallet/impl/presentation/balance/list/BalanceListViewModel.kt:307 | the banner shows exactly when some row has no account or a network issue |
| BalanceList.AssetClicked | feature-wallet-impl/src/main/java/jp/co/soramitsu/wallet/impl/presentation/balance/list/BalanceListViewModel.kt:392-436 | a network issue wins (node list for more than one node, else an alert), then a missing account (add-account sheet), then an unsupported chain (alert), and otherwise the details |
| BalanceList.OnHiddenAssetClicked | feature-wallet-impl/src/main/java/jp/co/soramitsu/wallet/impl/presentation/balance/list/BalanceListViewModel.kt:450-454 | the expansion flag flips; with no state it becomes collapsed |
| BalanceList.HiddenToggleIsInvolution | feature-wallet-impl/src/main/java/jp/co/soramitsu/wallet/impl/presentation/balance/list/BalanceListViewModel.kt:450-454 | two clicks restore the expansion flag |
| BalanceList.OnAccountChanged | feature-wallet-impl/src/main/java/jp/co/soramitsu/wallet/impl/presentation/balance/list/BalanceListViewModel.kt:456-465 | an address seen for the first time clears the selection and is remembered with none; a known address gets its remembered selection back |
| BalanceList.OnChainSelected | feature-wallet-impl/src/main/java/jp/co/soramitsu/wallet/impl/presentation/balance/list/BalanceListViewModel.kt:438-444 | the selection changes and is remembered for the current address only: no other address is added or changed |
| BalanceList.SelectionSurvivesAccountSwitch | feature-wallet-impl/src/main/java/jp/co/soramitsu/wallet/impl/presentation/balance/list/BalanceListViewModel.kt:438-465 | switching to another account and back restores the chain chosen for the first |
| BalanceList.ReturningToAccountIsStable | feature-wallet-impl/src/main/java/jp/co/soramitsu/wallet/impl/presentation/balance/list/BalanceListViewModel.kt:456-465 | seeing the same account twice changes nothing more than seeing it once |
| StakingRewards.SyncQuery | feature-staking-impl/src/main/java/jp/co/soramitsu/staking/impl/data/repository/datasource/SubqueryStakingRewardsDataSource.kt:37-62 | an unknown chain id throws from the registry lookup; no staking URL, no type or an unknown type is `RewardsNotSupportedWarning`; `SUBQUERY` asks Subquery; `SUBSQUID` asks the Ethereum query on an Ethereum-based chain and the relay query otherwise; `GIANTSQUID` asks by hex account id, and an address that does not convert throws its exception |
| StakingRewards.EthTotalIsSumOfPresent | feature-staking-impl/src/main/java/jp/co/soramitsu/staking/impl/data/repository/datasource/SubqueryStakingRewardsDataSource.kt:66 | counting a missing Ethereum reward amount as zero is summing the amounts present |
| StakingRewards.RelayTotalIsSumOfPresent | feature-staking-impl/src/main/java/jp/co/soramitsu/staking/impl/data/repository/datasource/SubqueryStakingRewardsDataSource.kt:72 | an element without a reward, or a reward without an amount, adds nothing to the relay total |
| StakingRewards.Sync | feature-staking-impl/src/main/java/jp/co/soramitsu/staking/impl/data/repository/datasource/SubqueryStakingRewardsDataSource.kt:37-92 | the stored total is keyed by the given account address; for Subsquid it is the sum of the amounts present, for Giantsquid the sum of the rewards for the hex account id, for Subquery the mapped total the endpoint gives; it throws exactly on an unknown chain id, an unsupported staking section, or a Giantsquid address that does not convert, each with its own exception |
| StakingRewards.TotalsAreAdditive | feature-staking-impl/src/main/java/jp/co/soramitsu/staking/impl/data/repository/datasource/SubqueryStakingRewardsDataSource.kt:64-80 | every endpoint's total over two pages of answers is the sum of the pages' totals |
| AccountDataSource.SelectedAccountMapping | feature-account-impl/src/main/java/jp/co/soramitsu/account/impl/data/repository/datasource/AccountDataSourceImpl.kt:82-97 | every chain account appears under its chain id; every other chain of the map gets a derived entry; nothing else is a key |
| AccountDataSource.MergedMappingIsUnique | feature-account-impl/src/main/java/jp/co/soramitsu/account/impl/data/repository/datasource/AccountDataSourceImpl.kt:88-94 | the merged table does not depend on the order the chains are visited in |
| AccountDataSource.ValueOf | feature-account-impl/src/main/java/jp/co/soramitsu/account/impl/data/repository/datasource/AccountDataSourceImpl.kt:111 | `valueOf` returns the constant with that name, and throws `IllegalArgumentException` exactly when no constant has it, with the JVM's "No enum constant" message naming the class and the name |
| AccountDataSource.SaveAuthType | feature-account-impl/src/main/java/jp/co/soramitsu/account/impl/data/repository/datasource/AccountDataSourceImpl.kt:101-103 | the type's name is stored under `auth_type`, other preferences untouched |
| AccountDataSource.GetAuthType | feature-account-impl/src/main/java/jp/co/soramitsu/account/impl/data/repository/datasource/AccountDataSourceImpl.kt:105-113 | no stored value is `PINCODE`; a stored value is parsed, throwing exactly when it names no constant |
| AccountDataSource.AuthTypeRoundTrip | feature-account-impl/src/main/java/jp/co/soramitsu/account/impl/data/repository/datasource/AccountDataSourceImpl.kt:101-113 | a saved auth type is read back |
| AccountDataSource.PreferredCryptoTypeOrSelected | feature-account-impl/src/main/java/jp/co/soramitsu/account/impl/data/repository/datasource/AccountDataSourceImpl.kt:138-151 | a given meta account's crypto type; with none, the selected account's; with no account selected, `SR25519` |
| AccountDataSource.RetrieveAccountFromStorage | feature-account-impl/src/main/java/jp/co/soramitsu/account/impl/data/repository/datasource/AccountDataSourceImpl.kt:279-284 | the stored account parsed, and `IllegalArgumentException` exactly when nothing is stored |
| AccountDataSource.GetSelectedAccount | feature-account-impl/src/main/java/jp/co/soramitsu/account/impl/data/repository/datasource/AccountDataSourceImpl.kt:153-155 | the cached account when there is one, storage otherwise; it fails exactly when both are empty |
| AccountDataSource.SaveSelectedAccount | feature-account-impl/src/main/java/jp/co/soramitsu/account/impl/data/repository/datasource/AccountDataSourceImpl.kt:127-132 | the account is cached and its JSON stored under `selected_address`, other preferences untouched and no other key added |
| AccountDataSource.StartUp | feature-account-impl/src/main/java/jp/co/soramitsu/account/impl/data/repository/datasource/AccountDataSourceImpl.kt:267-277 | at start-up the cache holds an account exactly when one is stored |
| AccountDataSource.SelectedAccountRoundTrip | feature-account-impl/src/main/java/jp/co/soramitsu/account/impl/data/repository/datasource/AccountDataSourceImpl.kt:127-155 | the account just saved is the selected one |
| AccountDataSource.SelectedAccountSurvivesRestart | feature-account-impl/src/main/java/jp/co/soramitsu/account/impl/data/repository/datasource/AccountDataSourceImpl.kt:267-284 | after a restart the last saved account is selected, when the JSON mapping round-trips |
| AccountDataSource.StartUpAgreesWithStorage | feature-account-impl/src/main/java/jp/co/soramitsu/account/impl/data/repository/datasource/AccountDataSourceImpl.kt:267-284 | right after start-up the selected account is what storage holds |
| TokenModel.DetermineChangeColor | feature-wallet-impl/src/main/java/jp/co/soramitsu/wallet/impl/presentation/model/TokenModel.kt:16-20 | gray exactly without a change, green exactly for a change that is not negative, red exactly for a negative one |
| TokenModel.FiatAmount | feature-wallet-impl/src/main/java/jp/co/soramitsu/wallet/impl/presentation/model/TokenModel.kt:22 | no fiat amount exactly without a rate; otherwise the rate times the amount |
| TokenModel.FiatAmountIsLinear | feature-wallet-impl/src/main/java/jp/co/soramitsu/wallet/impl/presentation/model/TokenModel.kt:22 | the fiat amount of a sum is the sum of the fiat amounts, and zero tokens are worth zero |
| TokenModel.ColorFollowsSign | feature-wallet-impl/src/main/java/jp/co/soramitsu/wallet/impl/presentation/model/TokenModel.kt:16-20 | a change and its negation get different colours unless the change is zero, which is green |

## Left out

- Concurrency and stream machinery are not modelled: `channelFlow`, `launchIn`, `flowOn`, `mapLatest` cancellation, `shareIn`, `GlobalScope` and the unordered completion of the per-chain fan-out. The flows are sequential systems over an event trace, and the fan-out order is covered by `NftChains.AggregatePermutation`.
- The gate's re-signal is modelled as an immediate re-delivery of the latest request in the step that flips the token. With a one-slot replay buffer that drops the oldest value, a later signal can only repeat that request.
- `rememberAndZipAsPreviousIf` is not part of this model. Its meaning is taken as "the last earlier value satisfying the predicate" (`StaleFallback.LastSatisfying`).
- `NftChains.OwnedCollections`: the light converter's payload is taken to become a `Data` collection tagged with the chain's id and name. The converter itself may throw, and that path is modelled.
- `NftFlows.DetailCollection`: the full converter's payload is likewise taken to become a `Data` collection tagged with the chain's id and name. A conversion that throws is modelled.
- `NftFlows.UserOwnedCollections` and `NftFlows.RunDetail` state only their lengths, because their meaning is given by the lemmas that follow them.
- The repository's `setNFTFilter(name, flag)` is not part of this model. It is taken to store the name for a true flag and remove it for a false one (`NftFlows.StoreFilterFlag`).
- The upper-casing of the stored filter names passed to the repository as exclusion filters is not modelled, because it only feeds the repository.
- `chainsRepository.getChain` and `chainRegistry.getChain` are not part of this model. An unknown chain id is taken to throw, with an assumed `NoSuchElementException` message (`Base.UnknownChain`); `StakingRewards.Sync` and `NftFlows.GetNFTDetails` state that exception.
- `StakingRewards.Sync`: `toAccountId().toHexString(true)` is a parameter that returns the hex id or throws; which addresses it rejects is not modelled.
- `NftFlows.GetOwnersForNFT`: `tokenOwners(...).getOrThrow().ownersList` is a parameter returning the owners or a failure.
- `applyFiatRate`, `percentageToFraction` and `fractionToPercentage` are not part of this model. They are taken to be multiplication by the rate, division by 100 and multiplication by 100. `toBigDecimal(scale = precision)` is taken as division by 10 to the precision.
- `AssetBalance.RateChange`: the `HALF_UP` rounding of the division is not modelled, because amounts are exact reals.
- `AssetBalance.Empty` is taken as zero balance, change and rate with the dollar sign.
- `AssetBalance.PolkadotChainId` is the Polkadot genesis hash. The `polkadotChainId` constant's own definition is not part of this model.
- All formatting is left out: `formatAsCurrency`, `formatAsChange` and `format`. Rows carry the raw amounts.
- `buildInitialAssetsList`, the list shown before any asset arrives, is not modelled. It is a second, simpler row builder over the chain configuration.
- `BalanceList.SortedAssets` does not prove that `sortedWith` is stable. The insertion sort is stable, but the proofs need only ordering and permutation.
- Case-insensitive comparison folds ASCII letters only.
- `defaultChainSort` is a parameter `string -> int` giving a rank.
- Kotlin's string `compareTo` is modelled as lexicographic comparison of characters.
- `StakingRewards.Sync`: `mapSubqueryHistoryToTotalReward` is not part of this model. The Subquery endpoint is given already mapped to a total, and that branch stores it.
- The Giantsquid request goes to the relay endpoint with a different body. It is modelled as its own answer function.
- `AccountDataSource.SaveAuthType`: `AuthType.toString()` is taken to be the constant's name. The set of constant names is a parameter.
- `AccountDataSource.PreferredCryptoTypeOrSelected`: the meta-account lookups are parameters. `getMetaAccount` failing for an unknown id is not modelled.
- `AccountDataSource.StartUp`: the asynchronous start-up read is taken to have finished.
- `AccountDataSource.SelectedAccountMapping`: the iteration order of `chainsById` is left open. `AccountDataSource.MergedMappingIsUnique` shows it does not matter.
- Persistence and I/O are not modelled: DAOs, preferences, encrypted preferences, secret stores, the network and Gson. Preferences are a map from string to string.
- PIN-code storage, account deletion and migration in `AccountDataSourceImpl` are outside the modelled core.
- The UI, navigation and dependency-injection files are not modelled. Nor are the staking helpers, which are data holders and glue.

## Findings

| source | as written | input that shows it | evidently intended | confidence | as-written member | corrected member |
|---|---|---|---|---|---|---|
| feature-account-impl/src/main/java/jp/co/soramitsu/account/impl/domain/AssetBalanceUseCaseImpl.kt:40-42 | an asset whose id its chain does not list makes the fold step return `AssetBalance.Empty`, discarding everything summed before it | the same asset id `dot` on two chains: chain `a` lists `dot`, chain `b` does not; assets (`dot` on `a`, 10 planks, precision 0, rate 1) then (`dot` on `b`): the result is `AssetBalance.Empty` with balance 0, while the assets are worth 10 | an unlisted asset is skipped and leaves the accumulator unchanged | not executed | AssetBalance.UnlistedAssetDropsEarlierValue | AssetBalance.SkippingFoldIsSum |
