# Coinage, airdrop and their supporting pallets: a Dafny model

The project models the parts of the Individuality runtime in which value or a scarce right changes hands, and proves what holds of them over every run.

* **Coinage** (`pallets/coinage`). A wallet of power-of-two coins backed by a held asset balance. A transaction is validated, prepared (the coin is taken out, or the first alias is marked), dispatched, and closed; a failed dispatch rolls back and then restores the coin or records a penalty. The main theorem: after every transaction of every run, whatever its outcome, the held balance equals the coins, plus the members waiting or in live rings that were not unloaded, plus the destroyed value. With it every unit ever deposited is accounted for, payments and fees included. Around it: every transaction's conditions and effects, no alias is paid out twice, no key is paid out more often than it was loaded, no other owner's coin is touched, free movements are paid for by recycled units, failures lock with exponential back-off, the denomination arithmetic is exact, and the split validation accepts exactly the valid splits.
* **Unload tokens and unpaid loads** (`pallets/coinage`). Free tokens are accepted in a one-hour-extended window, paid tokens per period; both at most once, although their records are eventually erased; a prepaid unload is included only on such a token, so those of a key and period are at most its purchases. An accepted unpaid batch dispatches every item, with the exact condition under which it does not.
* **Airdrop** (`pallets/airdrop`). Events with a lifecycle, a shared prize pot, a time index and a batched cyclic draw. Over any interleaving of calls on any number of events the pot holds exactly the outstanding prizes, the index is exact, the counters count what is stored, the batched draw is the one-shot draw, and an event past its end disappears within a number of worker ticks computed from its state and the registrations still to come.
* **Supporting cores**. The alias-to-account bijection (`pallets/alias-accounts`), the paged chunk read (`pallets/chunks-manager`) and the big-endian key codec (`support`).

## How the project is organised

Each core has a specification made of functions on an immutable state, run lemmas about it, and a class that updates the storage in place, with loops where the source has them, and whose methods are proved to follow the specification.

| files | content |
|---|---|
| `Prelude`, `Powers`, `Sums`, `Ordered` | machine-integer helpers, powers of two, sums of maps, sorted iteration |
| `Denomination`, `SplitValidation`, `CoinLedger` | coin values, split validation, totals over coins |
| `Recyclers`, `RecyclerInvariant`, `RecyclerLaws`, `RecyclerManager`, `RecyclerOutcomes` | recycler storage, its invariant, what each operation is worth, the class, when each operation succeeds |
| `Coinage`, `CoinageBalance`, `CoinageUnload`, `CoinageRuns`, `CoinageFlow` | the transaction, conservation call by call, runs, where deposits go |
| `CoinageOutcomes`, `CoinageUnloadOutcomes`, `CoinageSignedOutcome` | what each whole transaction does, in terms of storage and payments only |
| `CoinageAccounting`, `CoinageDust`, `CoinageSafety`, `CoinageSpending`, `CoinageKeys`, `CoinageLimits`, `CoinageMoves` | the accounting equation of the tests, runs on which it fails, spent aliases, double spends, pay-outs per key, back-off, free movements |
| `CoinageValidation`, `CoinagePallet` | the validation loops, the class |
| `FreeTokens`, `PaidTokens`, `PaidTokenTimes`, `PaidTokenKeys`, `PaidTokenUses`, `PaidTokenManager`, `CoinageTokens` | unload tokens, their life on the clock, the keys registered for them, uses against purchases, the class, tokens inside transactions |
| `UnpaidBatch`, `CoinageUnpaid` | the unpaid batch alone and inside a transaction |
| `CyclicDraw`, `Airdrop`, `AirdropInvariant`, `AirdropDraw`, `AirdropRuns`, `AirdropLaws`, `AirdropOutcomes`, `AirdropProgress`, `AirdropPallet` | the draw, the pallet, its invariant, runs, consequences, call by call, termination, the class and the worker |
| `AliasAccounts`, `AliasOutcomes`, `Chunks`, `BigEndian` | the supporting cores |

## What the outside is assumed to do

* Ring proofs either fail or yield the alias of a member of the ring; aliases of one context are injective. The member service appends members to rings, and never reuses a removed ring index. Its queue handling, ring building and sealing are environment steps of a run.
* Asset transfers, key signatures, the price feed behind the unload fee and the member-service calls may refuse at any point; their answers are parameters, so the theorems hold for all of them. Holds and releases are exact; a best-effort release gives what is held, up to the request.
* `clear_prefix` with a limit removes that many entries, or all of them when there are fewer, and reports the end exactly when none is left.
* Time is a parameter of every step. It is monotone and below 2^32 seconds only where a statement says so.

## What was found to depend on a condition

* The free-token window of the documentation is the accepted one if and only if a period lasts at least the grace hour (`FreeTokens.WindowIffLongPeriods`, counterexample `FreeTokens.ShortPeriodSkips`). Safe forgetting holds for every period length.
* The next ring to be cleaned is never cleanable and spendable at once if and only if its sealing time plus the expiry stays within 32 bits, or it has no root left (`CoinageSafety.CleanableIsUnspendable`): cleaning compares 32-bit seconds, spending 64-bit ones.
* An accepted all-`Expendable` unpaid batch dispatches if and only if it has one item or the account stays at the minimum balance until the last one (`UnpaidBatch.AcceptedDispatchesIff`, counterexample `UnpaidBatch.SmallDenominationFails`).
* A key bought for a paid-token period outlives the period, registered and unusable, if and only if it was still queued when the period was deleted or joined a ring the clean-up cursor had already passed (`PaidTokenKeys.RegisteredIff`, `PaidTokenKeys.NoneOutlivesIff`, counterexample `PaidTokenKeys.LateJoinerOutlives`); the source assumes that neither happens.
* A draw records one winner per drawn slot if and only if the slots drawn belong to different registrants (`AirdropDraw.FirstWinnersCount`); `register_slot` documents one slot per registrant as an assumption. Held funds, schedule, progress and claims do not depend on it.
* The unit balance of `unload_recycler_into_coins` is the asset balance if and only if the fee cap, in minimum coins, fits 32 bits (`Denomination.UnitBalanceIff`). A configuration rules the bad case out if and only if `MaxConsolidation` is below `u32::MAX` or no balance reaches 2^32 minimum coins (`Denomination.UnloadsBalanceIff`, counterexample `Denomination.SaturatedFeeBreaksBalance`).
* The test helper `check_accounting` counts members of active rings only and subtracts the marks of all rings, removed ones included. Its sum never exceeds the held balance, and equals it if and only if for every value nobody waits in the queue, and no mark of a removed ring is left or no live coin is (`CoinageAccounting.HelperHoldsIff`, counterexample `CoinageDust.DustHidesLiveCoin`, for every accepted configuration, value and ring capacity). The solvency proved here counts queued members and the marks of live rings, which is what the storage backs.

## Model

| member | source | states |
|---|---|---|
| `CoinageRuns.ReachableIsSolvent` | pallets/coinage/src/lib.rs:1685-2732 | from genesis, after every run, held balance = coins + recycler members queued or in live rings and not unloaded + destroyed value, and all storage invariants hold |
| `CoinageFlow.DepositsAccounted` | pallets/coinage/src/lib.rs:1685-2732 | from genesis, after every run: deposits = coins + recycler members not unloaded + destroyed value + what accounts received + fees |
| `CoinageAccounting.HelperHoldsIff` | pallets/coinage/src/mock.rs:696-736 | in every reachable state the sum of the test helper is at most the held balance, and equal to it if and only if for every value the queue is empty and no dust of a removed ring is left or no live coin is |
| `CoinageDust.DustHidesLiveCoin` | pallets/coinage/src/mock.rs:696-736 | for every accepted configuration, coin value and ring capacity whose coins fit the balance: a run whose rings open and seal only when full, after which the storage is solvent and the equation of the helper is false |
| `CoinageDust.DustHidesLiveCoinAt255` | support/src/traits/reality.rs:74-92 | its instance for the smallest ring, with one denomination of a 64-bit asset |
| `CoinageRuns.RunKeeps` | pallets/coinage/src/lib.rs:1685-2655 | every run of transactions, member-service steps and time keeps the invariant (ranges, ages, marks, locks, solvency) |
| `CoinageRuns.TransactKeeps` | pallets/coinage/src/extension.rs:342-798 | one transaction of any kind, accepted, rejected or failed in dispatch, keeps the invariant |
| `CoinageRuns.CoinFailure` | pallets/coinage/src/extension.rs:738-769 | a failed coin dispatch leaves the identical coin at its owner, and only the lock changes |
| `CoinageRuns.Premark` | pallets/coinage/src/extension.rs:711-719 | preparing a from-output unload moves exactly one coin's worth out of the ring |
| `CoinageRuns.PenaltyConserves` | pallets/coinage/src/extension.rs:772-784 | a failed from-output unload destroys the premarked coin's value, without saturating |
| `CoinageOutcomes.SplitOutcome` | pallets/coinage/src/lib.rs:1685-1711 | a split transaction takes effect exactly for an unlocked, young, divisible coin and a valid split, replaces it by the named coins one use older, and clears the lock; otherwise nothing changes |
| `CoinageOutcomes.TransferOutcome` | pallets/coinage/src/lib.rs:1726-1741 | a transfer moves an unlocked young coin, one use older, to an account without a coin, or nothing changes |
| `CoinageOutcomes.LoadCoinOutcome` | pallets/coinage/src/lib.rs:1762-1793 | a coin becomes a fresh key at the end of the queue of its value; refused, or put back and locked, otherwise |
| `CoinageOutcomes.PayTokenOutcome` | pallets/coinage/src/lib.rs:2100-2149 | the fee destination gets exactly the fee out of the coin, and the rest of its worth is destroyed |
| `CoinageOutcomes.OffboardOutcome` | pallets/coinage/src/lib.rs:2634-2655 | a coin never moved is paid out in full to the account named; refused, or put back and locked, otherwise |
| `CoinageOutcomes.LoadExternalOutcome` | pallets/coinage/src/lib.rs:1825-1865 | a load deposits and holds exactly the price and queues the key, under exactly the stated conditions |
| `CoinageOutcomes.CleanOutcome` | pallets/coinage/src/lib.rs:2700-2732 | the oldest ring is removed, and what it owes destroyed, exactly when it is sealed, expired on the 32-bit clock and the destroyed total has room |
| `CoinageOutcomes.WrongExtensionDoesNothing` | pallets/coinage/src/extension.rs:342-674 | under any extension but its own a call changes nothing |
| `CoinageOutcomes.DispatchGuards` | pallets/coinage/src/lib.rs:2280-2655 | dispatch on its own refuses again what validation refuses: an aged coin, a missing fee, an alias not marked beforehand, empty inputs |
| `CoinageUnloadOutcomes.UnknownRevisionDoesNothing` | pallets/coinage/src/recycler_manager.rs:160-181 | an unload of any kind that names a removed, expired or unknown ring, or a revision the ring does not know, leaves the state unchanged |
| `CoinageUnloadOutcomes.IntoCoinOutcome` | pallets/coinage/src/lib.rs:1966-2009 | 2^k good aliases become one new coin k values above, or nothing changes |
| `CoinageUnloadOutcomes.IntoCoinNeedsPower` | pallets/coinage/src/lib.rs:1990-1996 | any other number of aliases is refused |
| `CoinageUnloadOutcomes.PrepaidAssetOutcome` | pallets/coinage/src/lib.rs:2038-2075 | with a prepaid token the recipient gets the whole worth of the aliases, and each is marked |
| `CoinageUnloadOutcomes.FromOutputAssetOutcome` | pallets/coinage/src/lib.rs:3136-3157 | with the fee from the output the fee destination gets the fee and the recipient the rest; a failure costs exactly the first alias |
| `CoinageUnloadOutcomes.PrepaidMixedOutcome` | pallets/coinage/src/lib.rs:2280-2338 | aliases become the asset output and queued vouchers, to the unit, or nothing changes |
| `CoinageUnloadOutcomes.FromOutputMixedOutcome` | pallets/coinage/src/lib.rs:2280-2338 | likewise with the fee taken out of the asset output; a failure costs exactly the first alias |
| `CoinageUnloadOutcomes.PrepaidCoinsOutcome` | pallets/coinage/src/lib.rs:2491-2615 | aliases become exactly the coins named, each of age one, or nothing changes |
| `CoinageUnloadOutcomes.FromOutputCoinsOutcome` | pallets/coinage/src/lib.rs:2590-2600 | exactly the fee leaves the hold for the fee destination and the rest of the cap is destroyed; a failure costs exactly the first alias |
| `CoinageSignedOutcome.SignedOutcome` | pallets/coinage/src/lib.rs:2394-2439 | all inputs are taken with their own proofs and their worth paid to the recipient, or nothing changes |
| `CoinageBalance.SplitConserves` | pallets/coinage/src/lib.rs:1685-1711 | a split mints exactly the value of the coin it takes |
| `CoinageBalance.TransferConserves` | pallets/coinage/src/lib.rs:1726-1741 | a transfer conserves value |
| `CoinageBalance.LoadCoinConserves` | pallets/coinage/src/lib.rs:1762-1793 | a coin loaded into a recycler keeps its value there |
| `CoinageBalance.LoadOneConserves` | pallets/coinage/src/lib.rs:1825-1865 | an external load holds exactly what the new member is worth |
| `CoinageBalance.LoadUnpaidConserves` | pallets/coinage/src/lib.rs:1922-1935 | so does every item of an unpaid batch |
| `CoinageBalance.PayTokenConserves` | pallets/coinage/src/lib.rs:2100-2149 | a coin paid for a token splits into the fee and destroyed value, without saturating |
| `CoinageBalance.OffboardConserves` | pallets/coinage/src/lib.rs:2634-2655 | offboarding pays out exactly the coin's value |
| `CoinageUnload.IntoCoinConserves` | pallets/coinage/src/lib.rs:1966-2009 | consolidating 2^k members of value v mints one coin of v + k of the same worth |
| `CoinageUnload.IntoAssetConserves` | pallets/coinage/src/lib.rs:2038-2075 | unloading into the asset pays out what the aliases are worth, fee included |
| `CoinageUnload.MixedConserves` | pallets/coinage/src/lib.rs:2280-2338 | asset output, new vouchers and fee together equal the aliases unloaded |
| `CoinageUnload.IntoCoinsConserves` | pallets/coinage/src/lib.rs:2491-2615 | minted coins, fee and destroyed change together equal the aliases unloaded |
| `CoinageUnload.SignedConserves` | pallets/coinage/src/lib.rs:2394-2439 | the non-anonymous unload pays out the sum over all inputs |
| `CoinageUnload.SignedTotalExact` | pallets/coinage/src/lib.rs:2394-2439 | its saturating total never saturates when the inputs are backed |
| `CoinageUnload.CleanConserves` | pallets/coinage/src/lib.rs:2700-2732 | cleaning a ring moves its unspent value into the destroyed total |
| `CoinageUnload.DustConserves` | pallets/coinage/src/recycler_manager.rs:423-437 | deleting dust changes no value |
| `CoinLedger.MintContents` | pallets/coinage/src/lib.rs:1700-1707 | minting creates exactly the outputs and touches no other coin |
| `CoinLedger.SplitTally` | pallets/coinage/src/lib.rs:1700-1707 | a weight proportional to units totals proportionally over a split's outputs |
| `CoinageSpending.PaidOutAtMostOnce` | pallets/coinage/src/recycler_manager.rs:187-437 | over every run, clean-ups and dusting included, at most one transaction pays out for an alias of a ring |
| `CoinageKeys.PaidOutAtMostLoaded` | pallets/coinage/src/recycler_manager.rs:187-437 | from genesis, over every run, the pay-outs of a value that name a key, in any ring and counting repetitions, are at most the loads of that key at that value |
| `CoinageSpending.PayOutSpends` | pallets/coinage/src/lib.rs:3186-3270 | a transaction that pays out for an alias finds it live and leaves it dead, in every unload call and fee mode |
| `CoinageSpending.DeadNeverPaysOut` | pallets/coinage/src/recycler_manager.rs:350-437 | once spent, or once its ring is removed, an alias is never paid out again |
| `CoinageSafety.UnloadKills` | pallets/coinage/src/recycler_manager.rs:249-297 | an accepted unload names live aliases only and kills each |
| `CoinageSafety.DeadForever` | pallets/coinage/src/recycler_manager.rs:350-437 | a spent alias, or one whose ring is removed, stays so, although marks are deleted later |
| `CoinageSafety.DeadIsRefused` | pallets/coinage/src/recycler_manager.rs:305-336 | such an alias is refused by dispatch and by the extension |
| `CoinageSafety.FeeAliasSpentOnce` | pallets/coinage/src/extension.rs:546-628 | the fee alias of a from-output unload was live and is dead however the call ends |
| `CoinageSafety.CleanableIsUnspendable` | pallets/coinage/src/recycler_manager.rs:350-370 | the ring next to be cleaned is at no time both cleanable and spendable, if and only if sealing time plus expiry fits 32 bits or no root is left |
| `CoinageSafety.OthersCoinsUntouched` | pallets/coinage/src/lib.rs:3335-3476 | no step changes or overwrites a coin of an account that did not sign it |
| `CoinageLimits.BackoffIsExponential` | pallets/coinage/src/extension.rs:738-769 | the retry counter and saturating powers give min(2^64 - 1, 2^(k-1) * base) for the k-th failure |
| `CoinageLimits.RunTracks` | pallets/coinage/src/extension.rs:738-769 | over every run the stored lock is that of the number of consecutive failures and the time of the last |
| `CoinageLimits.LockedIsRefused` | pallets/coinage/src/extension.rs:372-385 | while the back-off lasts no use of the coin is accepted |
| `CoinageLimits.FailureRestores` | pallets/coinage/src/extension.rs:738-769 | a failed use changes nothing but the lock |
| `CoinageLimits.FreeMoveCosts` | pallets/coinage/src/lib.rs:1685-1741 | a split or transfer lowers the sum of (max age - age) * units by the coin's units |
| `CoinageMoves.FreeMovesArePaidFor` | pallets/coinage/src/lib.rs:1685-2615 | over every run, free movements made and left together are at most those left at the start plus max age times the units that successful unloads turned into coins |
| `CoinageMoves.FreeMovesAreBounded` | pallets/coinage/src/lib.rs:3397-3476 | hence a run in which no unload into coins succeeds, whatever else it does, has at most as many free movements as were left |
| `RecyclerLaws.UnloadLaw` | pallets/coinage/src/recycler_manager.rs:249-297 | an unload of n aliases lowers the recycler value by n coins and keeps the invariant |
| `RecyclerLaws.EnqueueInv` | pallets/coinage/src/recycler_manager.rs:187-206 | a load keeps every backed member recorded once |
| `RecyclerLaws.EnqueueValue` | pallets/coinage/src/recycler_manager.rs:187-206 | and adds one coin's worth |
| `RecyclerLaws.CleanInv` | pallets/coinage/src/recycler_manager.rs:376-404 | cleaning forgets exactly the ring's members and keeps marks backed |
| `RecyclerLaws.CleanValue` | pallets/coinage/src/recycler_manager.rs:376-404 | and lowers the value by the coins never unloaded |
| `RecyclerLaws.CleanDustInv` | pallets/coinage/src/recycler_manager.rs:423-437 | marks are deleted only for rings already removed |
| `RecyclerLaws.OnboardValue` | pallets/members/src/lib.rs:1529-1660 | moving members from queue to rings changes no value |
| `RecyclerInvariant.MarksWithinRing` | pallets/coinage/src/recycler_manager.rs:401-403 | a live ring never has more marks than members, so the remaining count does not saturate |
| `RecyclerOutcomes.UnloadExactly` | pallets/coinage/src/recycler_manager.rs:249-297 | an unload succeeds if and only if the ring stands, knows the revision and has not expired, every alias is proven by a member, and none was spent or is repeated; then exactly these are marked |
| `RecyclerOutcomes.LoadExactly` | pallets/coinage/src/recycler_manager.rs:187-206 | when a load succeeds, which error it gives, and that only the queue of its value grows |
| `RecyclerOutcomes.GroupedExactly` | pallets/coinage/src/recycler_manager.rs:212-242 | when a batch is loaded, and that every queue gets its members in order |
| `RecyclerOutcomes.CleanableExactly` | pallets/coinage/src/recycler_manager.rs:350-370 | when the next ring may be cleaned |
| `RecyclerOutcomes.CleanExactly` | pallets/coinage/src/recycler_manager.rs:376-404 | what is forgotten, kept and queued for dusting, and the coins reported |
| `RecyclerOutcomes.DustExactly` | pallets/coinage/src/recycler_manager.rs:423-437 | exactly the batch goes, and the ring leaves the queue with its last mark |
| `RecyclerOutcomes.OnboardExactly` | pallets/members/src/lib.rs:1529-1660 | the head of the queue joins the last open ring or one of its own |
| `RecyclerOutcomes.RebuildExactly` | pallets/members/src/lib.rs:1410-1523 | a build sets the revisions of one ring, and its sealing time once |
| `RecyclerManager.GroupedIsOneByOne` | pallets/coinage/src/recycler_manager.rs:212-242 | grouping vouchers by value leaves the same storage as loading them one by one |
| `RecyclerManager.Manager.LoadBatchGrouped` | pallets/coinage/src/recycler_manager.rs:212-242 | the two loops accept exactly the fresh valid batches and perform that load |
| `RecyclerManager.Manager.Load` | pallets/coinage/src/recycler_manager.rs:187-206 | a load that succeeds keeps the storage invariant and, at any prices, makes the recyclers owe exactly one coin more |
| `RecyclerManager.Manager.Unload` | pallets/coinage/src/recycler_manager.rs:249-297 | the check-and-mark loop succeeds exactly for proven, matching, unspent, distinct aliases, marks them all, and leaves the recyclers owing one coin less for each |
| `RecyclerManager.Manager.VerifyProofs` | pallets/coinage/src/recycler_manager.rs:265-284 | the batch verification yields the alias of every proof, or fails if any is bad |
| `RecyclerManager.Manager.CleanUnchecked` | pallets/coinage/src/recycler_manager.rs:376-404 | the removal loop forgets the ring's members, queues its marks and reports the unspent coins |
| `RecyclerManager.Manager.CleanDustUnchecked` | pallets/coinage/src/recycler_manager.rs:423-437 | deleting marks of a queued ring keeps the invariant and changes nothing the recyclers owe |
| `CoinagePallet.Pallet.SubmitTransaction` | pallets/coinage/src/extension.rs:342-798 | validation by the loops below, prepare, dispatch with rollback and post-dispatch on the live storage follow the specified transaction and keep the invariant, solvency included |
| `CoinageValidation.ValidateTransaction` | pallets/coinage/src/extension.rs:342-674 | the checks of every extension mode yield the origin exactly when the declared conditions hold |
| `CoinageValidation.ValidateMixedOutput` | pallets/coinage/src/lib.rs:3411-3462 | accepts if and only if input and vouchers balance without overflow and all voucher keys are valid, unused and distinct |
| `CoinageValidation.SumVouchers` | pallets/coinage/src/lib.rs:3431-3451 | the loop with its seen set and checked sum yields the voucher total, and fails exactly on a bad value, a used, repeated or malformed key, or an overflow |
| `CoinageValidation.ValidateDestinations` | pallets/coinage/src/lib.rs:3815-3839 | the early destination loop accepts exactly non-empty groups of free accounts within the output limit |
| `CoinageValidation.ValidateSplit` | pallets/coinage/src/lib.rs:3397-3408 | a young enough coin is split exactly into a valid split of its units |
| `CoinageValidation.ValidateRevisions` | pallets/coinage/src/lib.rs:3895-3935 | a non-anonymous unload passes exactly when every input names a spendable ring and revision |
| `CoinagePallet.Pallet.ExecuteRun` | pallets/coinage/src/lib.rs:1685-2732 | a live pallet stays solvent through any run |
| `CoinagePallet.Pallet.MintGroups` | pallets/coinage/src/lib.rs:1700-1707 | the nested minting loops create the outputs in order |
| `CoinagePallet.Pallet.ProcessUnloadInputs` | pallets/coinage/src/lib.rs:3186-3232 | each input takes the next proofs and none may be left over |
| `CoinagePallet.Pallet.SumInputs` | pallets/coinage/src/lib.rs:2394-2439 | the value loop computes the specified total or fails on the first bad input |
| `CoinagePallet.Pallet.ProcessUnloadInput` | pallets/coinage/src/lib.rs:3239-3270 | the recyclers owe one coin less per alias, except for the one marked beforehand when the fee is taken from the output |
| `CoinagePallet.Pallet.UnloadToCoins` | pallets/coinage/src/lib.rs:2491-2615 | after the split validation loop accepts, minted coins and fee cap are worth the aliases if and only if the cap fits its word; the new storage is the specified one |
| `CoinagePallet.Pallet.UnloadToMixed` | pallets/coinage/src/lib.rs:2280-2338 | after the voucher loop accepts, asset output and vouchers add up to the aliases; the new storage is the specified one |
| `CoinagePallet.Pallet.CleanRecyclerRing` | pallets/coinage/src/lib.rs:2700-2732 | a successful clean-up keeps owed plus destroyed value constant |
| `Denomination.AssetAmountExact` | pallets/coinage/src/lib.rs:3089-3131 | shift and shift back succeeds exactly when the scaling is exact and fits, with the exact amount |
| `Denomination.AmountIsUnits` | pallets/coinage/src/lib.rs:3318-3324 | under the integrity conditions the amount of v is the minimum amount times its units |
| `Denomination.ConsolidationPreservesValue` | pallets/coinage/src/lib.rs:1990-1996 | 2^k coins of v are worth one coin of v + k |
| `Denomination.UnitBalanceIff` | pallets/coinage/src/lib.rs:2520-2544 | the accepted u32 unit balance is the balance of asset amounts if and only if the fee cap in minimum coins fits 32 bits |
| `Denomination.UnloadsBalanceIff` | pallets/coinage/src/lib.rs:2520-2544 | a configuration makes every accepted unload balance if and only if its alias limit is below u32::MAX or no balance reaches 2^32 minimum coins |
| `Denomination.SaturatedFeeBreaksBalance` | pallets/coinage/src/lib.rs:2520-2544 | with u32::MAX minimum coins a fee cap of 2^32 of them is accepted and breaks it |
| `Denomination.MinimumPositive` | pallets/coinage/src/lib.rs:1346-1394 | the integrity conditions make every coin worth something |
| `SplitValidation.ValidateSplitParams` | pallets/coinage/src/lib.rs:3335-3394 | accepts if and only if groups are non-empty, in range and ascending, outputs fit, units add up, destinations are free and distinct |
| `SplitValidation.DuplicatesAreAdjacent` | pallets/coinage/src/lib.rs:3388-3391 | after sorting, any duplicate shows up next to its equal |
| `FreeTokens.WindowExact` | pallets/coinage/src/lib.rs:3684-3697 | for periods of at least an hour, p is accepted exactly from pP to (p+1)P + 3600 |
| `FreeTokens.WindowIffLongPeriods` | pallets/coinage/src/lib.rs:3684-3697 | and that window is the accepted one only for such periods |
| `FreeTokens.ShortPeriodSkips` | pallets/coinage/src/lib.rs:3684-3697 | with shorter periods, period 1 is refused inside its window |
| `FreeTokens.CleanableIffClosed` | pallets/coinage/src/lib.rs:2737-2771 | for every period length, records are cleanable exactly once the window has closed |
| `FreeTokens.AcceptedExactly` | pallets/coinage/src/extension.rs:427-506 | for every period length, a free token is accepted if and only if it is genuine, within the limit, unspent, and of the period of now or of an hour ago |
| `FreeTokens.CleanedExactly` | pallets/coinage/src/lib.rs:2737-2771 | a clean-up takes records of one closed period, up to the limit |
| `FreeTokens.AcceptedAtMostOnce` | pallets/coinage/src/extension.rs:427-506 | over any chronological run with clean-ups a token is accepted at most once |
| `PaidTokens.AcceptedAtMostOnce` | pallets/coinage/src/paid_tkn_manager.rs:258-314 | over any chronological run with deletions and dusting a token is accepted at most once |
| `PaidTokens.ErasedOnlyAfterExpiry` | pallets/coinage/src/paid_tkn_manager.rs:234-348 | a consumed record disappears only after its period has expired for validation |
| `PaidTokenTimes.PeriodOfTime` | pallets/coinage/src/paid_tkn_manager.rs:41-44 | a purchase is for the period its time falls into |
| `PaidTokenTimes.ConsumedExactly` | pallets/coinage/src/paid_tkn_manager.rs:258-314 | a genuine unspent token of a ring member is accepted if and only if now is before the end of its period plus the expiry |
| `PaidTokenTimes.TokenLasts` | pallets/coinage/src/paid_tkn_manager.rs:47-51 | a token lasts at least the expiry time from its purchase |
| `PaidTokenTimes.BoughtExactly` | pallets/coinage/src/paid_tkn_manager.rs:88-114 | a purchase succeeds exactly for a new valid key of its owner and queues it for the current period |
| `PaidTokenTimes.CleanedExactly` | pallets/coinage/src/paid_tkn_manager.rs:131-190 | a ring is cleaned in order and only once its period has closed, and its keys are free again |
| `PaidTokenTimes.DeletedExactly` | pallets/coinage/src/paid_tkn_manager.rs:200-251 | a period is deleted only once it has closed and its rings were cleaned |
| `PaidTokenTimes.DustedExactly` | pallets/coinage/src/paid_tkn_manager.rs:319-348 | a dust batch takes records of the earliest deleted period, up to the limit |
| `PaidTokenUses.UsedAtMostBought` | pallets/coinage/src/paid_tkn_manager.rs:88-348 | over any chronological run, the uses of a key for a period, in any ring, are at most its purchases for that period |
| `CoinageTokens.PaidUnloadsAreBought` | pallets/coinage/src/extension.rs:508-545 | over any history of transactions and token storage under one clock, the prepaid unloads included on paid tokens of a key and period are at most its purchases |
| `CoinageTokens.FreeUnloadsOnce` | pallets/coinage/src/extension.rs:427-506 | and at most one is included on a free token |
| `CoinageTokens.HistoryIsSolvent` | pallets/coinage/src/extension.rs:676-727 | the pallet stays solvent through every such history |
| `PaidTokenKeys.RegisteredIff` | pallets/coinage/src/paid_tkn_manager.rs:88-251 | over every run a key is registered if and only if it waits or sits in an uncleaned ring of an existing period, or was stranded by a deletion or a late join, and never both |
| `PaidTokenKeys.NoneOutlivesIff` | pallets/coinage/src/paid_tkn_manager.rs:200-251 | no registered key outlives its period if and only if no deletion met a queued key and no key joined a ring behind the cursor |
| `PaidTokenKeys.LateJoinerOutlives` | pallets/coinage/src/paid_tkn_manager.rs:131-251 | a run in which the queue is empty at deletion and a key stays registered without a period |
| `PaidTokenManager.Manager.AddMember` | pallets/coinage/src/paid_tkn_manager.rs:88-114 | the in-place purchase follows its specification, rollback included |
| `PaidTokenManager.Manager.CleanRing` | pallets/coinage/src/paid_tkn_manager.rs:131-190 | the ring at the cursor is unregistered member by member and the cursor moves |
| `UnpaidBatch.ValidateBatch` | pallets/coinage/src/lib.rs:3605-3642 | accepts if and only if all items are valid, keys are distinct and the balance covers the total under the strictest mode |
| `UnpaidBatch.AcceptedExactly` | pallets/coinage/src/lib.rs:3534-3642 | acceptance in terms of keys, values, collections and the balance alone |
| `UnpaidBatch.LoadedExactly` | pallets/coinage/src/lib.rs:1609-1658 | a dispatched batch costs its total, and the remainder too when it is reaped |
| `UnpaidBatch.AcceptedDispatchesIff` | pallets/coinage/src/lib.rs:1609-1658 | an accepted batch dispatches all items if and only if not all may reap, or there is one, or the minimum stays until the last |
| `UnpaidBatch.AcceptedIsInfallible` | pallets/coinage/src/lib.rs:1922-1935 | with no denomination below the minimum balance every accepted batch loads every item |
| `CoinageUnpaid.AcceptedBatchIsIncluded` | pallets/coinage/src/lib.rs:1922-1935 | inside a transaction an accepted batch takes its whole effect, or leaves no trace, by exactly that condition |
| `CoinageUnpaid.AcceptedIsIncluded` | pallets/coinage/src/extension.rs:629-668 | with no denomination below the minimum balance the branch for a batch that is not included is never reached |
| `UnpaidBatch.SmallDenominationFails` | pallets/coinage/src/lib.rs:3534-3642 | two 6-unit items from 12 with minimum 10: accepted, then the second fails |
| `UnpaidBatch.DispatchBatch` | pallets/coinage/src/lib.rs:1922-1935 | the loop stops at the first failing item |
| `Ordered.AscendingUnique` | pallets/airdrop/src/lib.rs:608-611 | a set of slots has one ascending listing, which fixes what a prefix iteration yields |
| `CyclicDraw.OrderIsPermutation` | pallets/airdrop/src/lib.rs:586-633 | the cyclic order lists every registration once |
| `CyclicDraw.OrderIsCyclic` | pallets/airdrop/src/lib.rs:586-633 | keys above the target come first and ascend, the others follow and ascend |
| `CyclicDraw.BatchContinues` | pallets/airdrop/src/lib.rs:604-611 | a batch continues the order exactly where the cursor stands and is never short |
| `CyclicDraw.DrawIsLimitIndependent` | pallets/airdrop/src/lib.rs:586-633 | for every positive limit the batches draw the first winners of the order, as one unbounded draw would |
| `AirdropDraw.EffectiveBounds` | pallets/airdrop/src/lib.rs:546-547 | the number of winners is between 1 and both the maximum and the participants |
| `AirdropOutcomes.CloseOutcome` | pallets/airdrop/src/lib.rs:513-571 | registration closes at the draw time: refund without participants, wait without randomness, otherwise a draw of the most winners the cap allows, at least one, with the unused prizes released |
| `AirdropOutcomes.CancelOutcome` | pallets/airdrop/src/lib.rs:980-1025 | what a cancellation makes of each status: its next status, time and released prizes |
| `AirdropOutcomes.ScheduleOutcome` | pallets/airdrop/src/lib.rs:914-954 | an event is scheduled exactly when it is admissible, with all its prizes held |
| `AirdropOutcomes.RemoveOutcome` | pallets/airdrop/src/lib.rs:957-965 | a scheduled event can be removed and is refunded in full |
| `AirdropOutcomes.StartOutcome` | pallets/airdrop/src/lib.rs:483-503 | registration opens at its time |
| `AirdropOutcomes.RegisterOutcome` | pallets/airdrop/src/lib.rs:1196-1217 | a free slot is taken and counted, or nothing changes |
| `AirdropOutcomes.DrawBatchOutcome` | pallets/airdrop/src/lib.rs:586-633 | a batch counts as many winners as the limit allows and are missing |
| `AirdropOutcomes.CloseDrawingOutcome` | pallets/airdrop/src/lib.rs:646-664 | claiming opens once all winners are drawn |
| `AirdropOutcomes.ClaimOutcome` | pallets/airdrop/src/lib.rs:1278-1346 | a winner takes one prize out of the pot before the end, once |
| `AirdropOutcomes.CloseClaimingOutcome` | pallets/airdrop/src/lib.rs:678-704 | claiming ends at the end time |
| `AirdropOutcomes.CleanRegistrationsOutcome` | pallets/airdrop/src/lib.rs:1067-1109 | registrations are cleared batch by batch, then winners are next |
| `AirdropOutcomes.CleanWinnersOutcome` | pallets/airdrop/src/lib.rs:1113-1150 | winners are cleared batch by batch, then the event can be finalized |
| `AirdropOutcomes.FinalizeOutcome` | pallets/airdrop/src/lib.rs:764-786 | the unclaimed prizes go back and the event leaves every storage |
| `AirdropDraw.FirstWinnersAre` | pallets/airdrop/src/lib.rs:608-616 | a registrant is recorded exactly when one of its slots is among the first n of the order, with the last such slot |
| `AirdropDraw.FirstWinnersCount` | pallets/airdrop/src/lib.rs:1196-1217 | for every n, at most n winners are recorded, and exactly n if and only if the first n slots have different registrants |
| `AirdropDraw.DrawContinues` | pallets/airdrop/src/lib.rs:586-633 | one batch takes the recorded winners and the cursor exactly k further |
| `AirdropInvariant.ReleaseIsFull` | pallets/airdrop/src/lib.rs:1348-1372 | a release of at most the outstanding prizes is never cut short and touches no other asset |
| `AirdropRuns.RunKeeps` | pallets/airdrop/src/lib.rs:388-786 | any interleaving of calls, without assumptions on the callers, keeps counters, schedule and held funds in agreement |
| `AirdropRuns.CancelKeeps` | pallets/airdrop/src/lib.rs:980-1025 | so does a cancellation in any status |
| `AirdropRuns.ScheduleKeeps` | pallets/airdrop/src/lib.rs:914-954 | keeps the invariant: scheduling holds what the event may pay and indexes it once |
| `AirdropRuns.RegisterKeeps` | pallets/airdrop/src/lib.rs:1196-1217 | keeps the invariant for any registrant and slot: the registration is counted |
| `AirdropRuns.CloseRegistrationKeeps` | pallets/airdrop/src/lib.rs:513-571 | keeps the invariant: what stays held is what the drawn winners may claim, and an empty event is refunded whole |
| `AirdropRuns.ClaimKeeps` | pallets/airdrop/src/lib.rs:1278-1346 | keeps the invariant: hold and outstanding prizes drop together |
| `AirdropRuns.CleanRegistrationsKeeps` | pallets/airdrop/src/lib.rs:1067-1109 | keeps the invariant: counters follow each batch, and the phase ends with nothing left |
| `AirdropRuns.CleanWinnersKeeps` | pallets/airdrop/src/lib.rs:1113-1150 | likewise for winners |
| `AirdropRuns.FinalizeKeeps` | pallets/airdrop/src/lib.rs:764-786 | keeps the invariant: the outstanding prizes are released and the event leaves nothing behind |
| `AirdropRuns.TransitionKeeps` | pallets/airdrop/src/lib.rs:1054-1062 | keeps the invariant under any coherent status change: the index entry moves with the status |
| `AirdropRuns.HoldConservation` | pallets/airdrop/src/lib.rs:914-1037 | from genesis the hold per asset equals amount times outstanding prizes summed over events |
| `AirdropRuns.CleanRemoval` | pallets/airdrop/src/lib.rs:764-786 | an absent event has no registrations, winners, entropy or schedule entry |
| `AirdropLaws.CountersAgree` | pallets/airdrop/src/types.rs:97-151 | in every reachable state participants are counted exactly, winners at most, and exactly if and only if the slots drawn have different registrants |
| `AirdropLaws.CountersExact` | pallets/airdrop/src/types.rs:97-151 | in runs that keep to one slot per registrant, every winner counted is stored or claimed |
| `AirdropLaws.ScheduleIsExact` | pallets/airdrop/src/lib.rs:1041-1062 | the index has exactly one entry per event, at its next action's time |
| `AirdropLaws.DrawOutcome` | pallets/airdrop/src/lib.rs:586-633 | after a finished draw the winners are exactly the registrants of the first effective_winners slots after the entropy point, each with the last slot drawn for it |
| `AirdropLaws.ClaimSucceedsExactly` | pallets/airdrop/src/lib.rs:1278-1346 | a claim fails only on status, time, asset, winner or transfer, never on the pot |
| `AirdropLaws.ReleasesAreFull` | pallets/airdrop/src/lib.rs:957-1037 | in every reachable state a removal, cancellation, closing or finalization asks for at most the outstanding prizes, without saturating, and takes exactly that out of the pot, so the warning branches of a release are unreachable |
| `AirdropProgress.TickIsAccepted` | pallets/airdrop/src/lib.rs:790-911 | past the end time the call the worker picks passes its checks and dispatches |
| `AirdropProgress.CallCloser` | pallets/airdrop/src/lib.rs:586-786 | no call but a registration raises the tick bound, and a tick lowers it |
| `AirdropProgress.OthersLeaveAlone` | pallets/airdrop/src/lib.rs:388-786 | a call naming another event leaves this one's storage unchanged |
| `AirdropProgress.EventuallyRemoved` | pallets/airdrop/src/lib.rs:346-385 | over every run, an event past its end is gone within its bound of ticks plus four per registration that still takes effect |
| `AirdropPallet.WalkIsChronological` | support/src/lib.rs:123-143 | walking the index in key order is walking it in time order |
| `AirdropPallet.WalkIsReady` | pallets/airdrop/src/lib.rs:108-112 | in every run whose times and ids have their widths the index is exact and its keys encode, which is what the walk relies on |
| `AirdropPallet.EffectIffAuthorized` | pallets/airdrop/src/lib.rs:790-911 | the authorization checks let through exactly the lifecycle calls that dispatch |
| `AirdropPallet.Pallet.OffchainWorker` | pallets/airdrop/src/lib.rs:346-385 | the stop-at-first-future walk submits for every due event, once, its authorized call, and for no other |
| `AirdropPallet.DrawLoop` | pallets/airdrop/src/lib.rs:604-616 | the chained-iterator loop records the batch, moves the cursor and counts |
| `AirdropPallet.Pallet.DrawWinnersAuthorized` | pallets/airdrop/src/lib.rs:586-633 | the in-place draw call follows its specification |
| `AirdropPallet.Pallet.Execute` | pallets/airdrop/src/lib.rs:388-786 | a live pallet keeps the invariant through any run |
| `AliasAccounts.RunKeeps` | pallets/alias-accounts/src/lib.rs:285-501 | over every run both indices are mutually inverse and the sufficients contribution is 1 if bound, else 0 |
| `AliasAccounts.OneAccountPerPerson` | pallets/alias-accounts/src/lib.rs:526-543 | two accounts are never recognised as one person of one context |
| `AliasOutcomes.LookupExactly` | pallets/alias-accounts/src/lib.rs:526-543 | a lookup answers if and only if the account is bound in the context and the ring retains the revision, as its newest or at most a grace period old |
| `AliasOutcomes.NewestIsHonoured` | pallets/alias-accounts/src/lib.rs:667-685 | a binding at the newest revision is honoured for ever and cannot be cleaned up |
| `AliasOutcomes.SetExactly` | pallets/alias-accounts/src/lib.rs:310-383 | a binding succeeds exactly for an acceptable proof, fee and holder, and replaces the former holder alone |
| `AliasOutcomes.SetMovesReference` | pallets/alias-accounts/src/lib.rs:365-371 | one reference moves from the former holder to the new one |
| `AliasOutcomes.SetRefusals` | pallets/alias-accounts/src/lib.rs:310-383 | which error a refused binding gives |
| `AliasOutcomes.ReproveExactly` | pallets/alias-accounts/src/lib.rs:394-448 | a re-proof succeeds exactly for the same alias at a newer revision or another ring, and changes only these |
| `AliasOutcomes.ReproveRefusals` | pallets/alias-accounts/src/lib.rs:394-448 | which error a refused re-proof gives |
| `AliasOutcomes.CleanUpExactly` | pallets/alias-accounts/src/lib.rs:475-501 | a mapping is cleaned up if and only if its ring lost its root, or its revision is not honoured and the newest root is a grace period old |
| `AliasOutcomes.CleanUpRefusals` | pallets/alias-accounts/src/lib.rs:588-620 | which error a refused clean-up gives |
| `AliasOutcomes.UnsetExactly` | pallets/alias-accounts/src/lib.rs:285-294 | unsetting removes both entries and the reference of a bound account |
| `AliasAccounts.CleanUpSparesLiveAliases` | pallets/alias-accounts/src/lib.rs:475-501 | stale clean-up changes no lookup that is still honoured |
| `AliasAccounts.Pallet.SetAliasAccount` | pallets/alias-accounts/src/lib.rs:310-383 | the in-place set or swap follows its specification, error by error |
| `AliasAccounts.UnbindKeeps` | pallets/alias-accounts/src/lib.rs:285-294 | removing a binding keeps the indices inverse and gives back the reference |
| `AliasAccounts.RenewKeeps` | pallets/alias-accounts/src/lib.rs:394-448 | a renewed proof for the same alias keeps both |
| `AliasAccounts.Pallet.Execute` | pallets/alias-accounts/src/lib.rs:285-501 | a live pallet keeps the bijection through any run |
| `Chunks.GetChunks` | pallets/chunks-manager/src/lib.rs:400-434 | the paged read returns the single reads in order and fails exactly when one of them fails |
| `Chunks.ReadPage` | pallets/chunks-manager/src/lib.rs:412-430 | one loop step reads what the page holds of the range, or some single read fails |
| `Chunks.LocationIsModulo` | pallets/chunks-manager/src/lib.rs:367-380 | with power-of-two pages the mask is reduction modulo the page count |
| `Chunks.ReadsArePeriodic` | pallets/chunks-manager/src/lib.rs:385-394 | reads repeat with period max(ring size, page size) |
| `Chunks.ReadsWhatIsStored` | pallets/chunks-manager/src/lib.rs:367-394 | with the chunks of the ring stored page by page, a read at any index answers the chunk at that index around the ring |
| `BigEndian.NumberOfEncode` | support/src/lib.rs:51-71 | decoding inverts encoding on every value of the width |
| `BigEndian.EncodeOfNumber` | support/src/lib.rs:123-143 | encoding inverts decoding, so no two keys stand for one number |
| `BigEndian.EncodeOrder` | support/src/lib.rs:195-215 | byte order of keys is numeric order, in both directions |
| `BigEndian.TimestampKeyOrder` | pallets/airdrop/src/lib.rs:108-112 | schedule keys sort by time, then by event id |
| `BigEndian.Decode` | support/src/lib.rs:66-71 | the buffer loop fails exactly on short input and otherwise returns the number its bytes encode, and the rest |

## Left out

- Ring-VRF, VRF and signature cryptography, hashing and message construction: proofs carry the member they were made by and whether they verify.
- Weights, fees in the native token, events, logging, transaction-pool tags, nonces and benchmarks: they carry no storage meaning here.
- Dispatch error kinds of the coinage and airdrop calls: a failed call is one value, since every failure rolls back alike; the alias and recycler classes keep the kinds.
- The asset-id gate, pallet initialisation and the eager creation of collections in `on_poll`: a run starts from empty storage and collections appear on first load.
- The native-token and external-asset purchases of paid tokens: they differ from the coin purchase only in what they charge.
- The price conversion behind the unload fee: the fee is an arbitrary value or a failure in each transaction.
- The unload fee a signer of a non-anonymous unload pays from the own account: it may refuse, and moves nothing of the pallet.
- The pot's free balance in the airdrop pallet and the accounts that receive prizes: only the held part is tracked.
- `clear_prefix` on entries written in the same block: the host removes those regardless of the limit; the model applies the limit to all entries.
- The offchain worker of the coinage pallet: it only submits the maintenance calls that are modelled.
- Bounds of the configured vectors other than the alias list: a longer alias list does not decode.
- CoinageRuns.ReachableIsSolvent: a configuration with `MaxConsolidation` equal to `u32::MAX` and balances of 2^32 minimum coins or more is excluded, because there the unit balance of the coin unload fails (`Denomination.UnloadsBalanceIff`).
- CoinagePallet.Pallet.CleanRecyclerDustBatch: takes any queued ring and any batch instead of the first ring and at most 1000 marks, which covers the source's choice and more.
- `add_chunks` and the page hashes of the chunks manager, and the origin types of the alias pallet: storage writes and predicates with nothing to relate.
