# Routstr verification

A Dafny model of the parts of Routstr in which money, routing and evidence can go wrong, with proofs over all
inputs, all runs and all interleavings. `dafny verify dfyconfig.toml` checks everything.

## What is modelled

**The prepaid-balance ledger.** A key row holds a balance, a reserved balance, a spent total and a spending limit. A
request reserves its maximum cost on the billing key (and on the child key that made it) and is settled later by one
of six routes. `ApiKeyRows` is one row and the SQL statements that touch it. `KeyTable` is the table with the
handlers that update it statement by statement. `LedgerProtocol` is the same system as a state machine in which
every `UPDATE` is one step, so that any number of requests, refunds, top-ups, child-key sales, limit resets and
restarts interleave between any two statements. `LedgerRuns` states what every run keeps, and exactly when the rest
holds. `LedgerRefinement` shows that the handlers of `KeyTable` are runs of it. `LedgerCounterexamples` gives
reachable states for what does not hold. `FeeLedger` does the same for the platform fee, `Invoices` for Lightning
invoices, `Swap` for tokens of other mints, and `Failover` for the loop that tries providers in order while one
reservation is open.

**The routing maps.** `ProviderSelection` validates providers, keeps the cheapest per URL and puts OpenRouter last.
`RoutingCandidates` admits models under their aliases, with stored overrides, and builds the candidate lists.
`RoutingMaps` ranks them. `RoutingPublication` publishes the maps, plain or restricted to verified providers.
`AttestationSnapshot` persists attestation rows and loads the snapshot that routing checks.

**Policies and evidence.** `PolicyGenerator` writes the workload part of a Privatemode policy, `PolicyParsers` has
the runtime parser and the separately written live checker, and `PolicyRoundTrip` connects generator and parser.
`AttestationTargets`, `ResultRows` and `ResultsFold` load the targets and fold result rows into statuses.

## What does not hold

For each of these there is a failing input or run and the exact condition under which the wished-for property holds.

- Two requests of a child key can pass its limit check together and exceed the limit: run
  `LedgerCounterexamples.LimitCheckRaces`, condition `LedgerRuns.ChildLimitHoldsIff`.
- A child key keeps the cost of a request that lost the race for the parent's balance: run
  `LedgerCounterexamples.LostRaceLeaksOnChild`, condition `LedgerRuns.ChildReservedIsOutstandingPlusLeaks`.
- After an overrun another settlement can push a balance below zero: run
  `LedgerCounterexamples.BalanceGoesNegativeAfterOverrun`, condition `LedgerRuns.SolventThroughoutIff`.
- A refund that fails can refuse requests while it holds the balance: input `ApiKeyRows.FailedRefundCanShow`,
  condition `ApiKeyRows.FailedRefundNeverShowsIff`.
- A refund of a key without a recorded currency pays a thousand times the balance: inputs and condition
  `KeyTable.RefundPaysWhatWasDebited`.
- A child-key sale overwrites the balance it read, so a concurrent credit is lost: input
  `KeyTable.SpawnLosesConcurrentCredit`, condition `KeyTable.SpawnKeepsMoneyIff`.
- A 200 answer that cannot be priced is released by the settlement and then reverted by the failover loop, taking
  another request's reservation: input `Failover.ReleaseThenRevertTakesAnothers`, conditions
  `Failover.ReservationGivenBackIff` and `Failover.FailedRequestLeavesNoTraceIff`.
- A request without a body asks for the model "unknown". If an alias of that name is routed, it is served without a
  reservation (`Failover.Serve`), and settled or reverted all the same: inputs
  `Failover.BodylessRequestTakesAnothers` and `Failover.BodylessAnswerTakesAnothers`, conditions
  `Failover.BodylessFailureIsHarmlessIff` and `Failover.BodylessAnswerSparesOthersIff`.
- Two first charges at once drop one platform fee: run `FeeLedger.FirstInsertRaceDropsAFee`, conditions
  `FeeLedger.FeesAreDroppedIff` and `FeeLedger.AllFeesAreRecordedIff`.
- A fee payout whose subtraction fails after the payment is sent again: run `FeeLedger.FailedSubtractionPaysTwice`,
  condition `FeeLedger.SentIsRecordedIff`.
- The invoice watcher can mark an invoice paid that was never credited, for good: run
  `Invoices.WatcherLosesAnInvoice`, condition `Invoices.PaidMeansCreditedIff`.
- A poll that saw the quote unpaid, or could not read it, can turn a paid invoice expired: run
  `Invoices.PaidCanTurnExpired`, condition `Invoices.PaidIsFinalIff`.
- A poll that cannot read the quote can expire an invoice that was paid for, for good: run
  `Invoices.UnreadableQuoteLosesAPayment`, condition `Invoices.PaymentsAreNotLostIff`.
- In confidential mode only the last of several OpenRouter providers is used: input
  `ProviderSelection.ConfidentialModeDropsAnOpenRouter`, condition `ProviderSelection.NoProviderIsSkippedIff`.
- Attestation rows that differ only in letter case let the read order decide: input
  `AttestationSnapshot.ReadOrderDecides`, conditions `AttestationSnapshot.LoadsAlikeIff` and
  `AttestationSnapshot.EveryOrderAgreesIff`.
- A model stays verified when a later row fails its host: documents `ResultsFold.LaterRowFailsTheHostAlone` and, for
  PPQ, `ResultsFold.PpqHostFails`, condition `ResultsFold.ModelOutlivesItsHostIff`.
- A PPQ host that has failed turns verified again: document `ResultsFold.PpqHostRecovers`, condition
  `ResultsFold.HostVerifiedIff`.
- A check id repeated across two entries of one provider goes unnoticed and can resolve to a host and a model that no
  check declares together: input `AttestationTargets.EntriesMixFacts`, condition
  `AttestationTargets.ResolvesForAllIff`.
- The live checker accepts lists whose spellings disagree, which the runtime refuses: inputs
  `PolicyParsers.LiveMergesDisagreeingSpellings`, condition `PolicyParsers.LiveRefinesRuntime`.

## Conventions

A handler that works from a row it read earlier takes that row as a parameter (`seen…`), unrelated to the current
one. Answers of mints, wallets and upstream providers, clock readings and calendar decisions are parameters.
Money is in msats and unbounded; costs and fees that the program computes in floating point are exact. Text
operations are those of ASCII. The program's exceptions are `Failure` or `None`.

## Model

| member | source | states |
|---|---|---|
| ApiKeyRows.ReservedNeverNegative | routstr/auth.py:629-1150 | any sequence of reserve, revert, release, settle, refund and reset statements, duplicates and unmatched amounts included, keeps a row's reserved balance non-negative |
| ApiKeyRows.SecondSettlementIsNoOp | routstr/auth.py:803-839 | a settlement arriving after its reservation is gone changes nothing if and only if it is a guarded one or has nothing to charge or clamp; the clamped ones charge again |
| ApiKeyRows.FailedRefundLeavesNoTrace | routstr/balance.py:334-433 | debit, any interleaved statements, failed mint and restore leave every column as if only the interleaved statements had run, unless one of them was decided by the missing balance |
| ApiKeyRows.FailedRefundIsVisibleIff | routstr/balance.py:238-255 | for one interleaved statement that condition is exact |
| ApiKeyRows.FailedRefundNeverShowsIff | routstr/balance.py:334-433 | for any interleaved statements, a failed refund leaves no trace at whatever moment it is restored if and only if none of them is decided by the missing balance |
| ApiKeyRows.FailedRefundCanShow | routstr/balance.py:356-374 | a reservation refused only because a refund that fails holds the balance |
| ApiKeyRows.DifferenceCanVanish | routstr/balance.py:238-255 | after the last statement alone a difference can have vanished again |
| KeyTable.RefundPaysWhatWasDebited | routstr/balance.py:340-394 | something is sent if and only if the balance is a sat for a sat key, an msat otherwise; then the payout covers the debited balance up to less than one sat if and only if the key records a currency; otherwise it pays a thousandfold |
| KeyTable.Table.PayForRequest | routstr/auth.py:444-626 | accepted if and only if the rows read afford the raised cost, the key is not expired and within its limit, and the current billing row still affords it; each refusal is given for exactly one of these reasons; the cost then is reserved on both rows and leaves the billing row solvent; the refusing checks change nothing; a lost race still reaches the child row |
| KeyTable.Table.RevertPayForRequest | routstr/auth.py:629-687 | each of the two rows gives up the cost if and only if it has that much reserved; no other row changes |
| KeyTable.Table.ReleaseReservationOnly | routstr/auth.py:713-762 | releases the cost on each row that covers it, and moves no money |
| KeyTable.Table.AdjustPaymentForTokens | routstr/auth.py:690-1231 | only the billing key pays, out of its balance into its spent total; a cost within the reservation is charged in full, an overrun up to the balance and only against a reservation that is still there; the fee follows, none when the overrun guard fired |
| KeyTable.Table.RefundWallet | routstr/balance.py:267-433 | pays out if and only if the key is a root with nothing reserved and enough to send, its row is still the one read, and the mint sends; the balance is restored if and only if the mint alone failed; every other refusal has exactly one reason and changes nothing |
| KeyTable.FailedRefundRows | routstr/balance.py:384-433 | after a failed refund all other rows saw only the interleaved statements, and so did the refunded one under the condition above |
| KeyTable.UpdatesSplitByRow | routstr/balance.py:340-374 | interleaved statements act on each row independently |
| KeyTable.Table.CreateChildKeys | routstr/balance.py:543-610 | sells if and only if the count is from 1 to 50, the key is a root and the balance read affords the price, with one reason for each refusal; the sale adds empty rows with the parent and limit, and writes the parent's balance from the row read earlier |
| KeyTable.SpawnKeepsMoneyIff | routstr/balance.py:563-599 | the sale charges exactly its price if and only if the row it overwrites still has the balance and spent total it read |
| KeyTable.SpawnLosesConcurrentCredit | routstr/balance.py:563-599 | a credit between the read and the write of a sale disappears |
| LedgerProtocol.StepKeepsInv | routstr/auth.py:444-1231 | every one of the fourteen kinds of step keeps exact reservations, conservation, refund accounting and solvency up to the overrun excess |
| LedgerProtocol.ReserveBillingKeepsInv | routstr/auth.py:549-559 | the guarded statement keeps every invariant whether or not it matches, at any moment after the check |
| LedgerProtocol.ReserveOnChildKeepsInv | routstr/auth.py:561-575 | the unguarded child statement is accounted for as held or as left behind |
| LedgerProtocol.SettleKeepsInv | routstr/auth.py:803-1150 | every settlement of a held reservation, of any route, keeps all invariants |
| LedgerProtocol.SettleOnChildKeepsInv | routstr/auth.py:824-839 | the later child statement releases exactly the cost that the child still holds |
| LedgerProtocol.SellChildrenKeepsInv | routstr/balance.py:543-599 | a sale keeps all invariants and its new rows start empty |
| LedgerProtocol.DebitKeepsInv | routstr/balance.py:356-374 | a debit, matching or not, after any interleaved steps moves the balance into the refund |
| LedgerProtocol.TopUpAndResetKeepInv | routstr/auth.py:52-91 | top-ups and limit resets keep the accounts, the reset spent total included |
| LedgerProtocol.SettleTouchesBilling | routstr/auth.py:1114-1150 | settling a held reservation releases exactly its cost on the billing row and adds to the excess only what goes beyond it |
| LedgerProtocol.MintKeepsInv | routstr/balance.py:376-394 | a paid refund splits its debit into payout and less than a sat of dust |
| LedgerProtocol.RestoreKeepsInv | routstr/balance.py:238-255 | a restore puts the debit back whatever happened in between |
| LedgerProtocol.RestartKeepsInv | routstr/core/db.py:90-94 | dropping all reservations at start is consistent because the requests that held them are gone |
| LedgerRuns.ReservationsAreExact | routstr/auth.py:549-559 | in every run a reserved balance equals the sum of outstanding reservations, and balance minus reserved is at least minus the total overrun excess |
| LedgerRuns.MoneyIsConserved | routstr/balance.py:340-374 | deposits equal balance, spent totals, resets, refunds in flight, payouts and less than a sat of dust per payout; payouts of concurrent refunds never exceed the debits that were not restored |
| LedgerRuns.ChildCreditsAreStuck | routstr/auth.py:423-441 | a credit to a child key is never charged and never refunded |
| LedgerRuns.NoOverrunMeansSolvent | routstr/auth.py:549-559 | without an overrun every billing key has 0 <= reserved <= balance at all times |
| LedgerRuns.SolventThroughoutIff | routstr/auth.py:1002-1021 | every billing key holds 0 <= reserved <= balance throughout a run if and only if no settlement takes more beyond its own reservation than the balance that is free at that moment |
| LedgerRuns.StepKeepsSolventIff | routstr/auth.py:803-1150 | the same for each single step |
| LedgerRuns.SettlementsFindTheirReservation | routstr/auth.py:636-646 | whenever a reservation is about to be settled both rows still cover it, so no guard refuses and no clamp bites |
| LedgerRuns.ChildReservedIsOutstandingPlusLeaks | routstr/auth.py:561-575 | a child's reserved balance is its outstanding sum plus every cost refused by a lost race, and exact if and only if there was none |
| LedgerRuns.ChildLimitHoldsIff | routstr/auth.py:511-517 | without overruns spent plus reserved stays within every child's limit throughout a run if and only if each reservation reaches the child while its check still holds |
| LedgerRuns.StepKeepsLimits | routstr/auth.py:444-1231 | one step without overrun keeps all limits if and only if it is not a child reservation whose check is stale |
| LedgerRuns.UninterruptedRequestIsFresh | routstr/auth.py:511-575 | a request with nothing between check and statements meets that condition |
| LedgerRuns.UninterruptedLimitsHold | routstr/auth.py:511-575 | in runs in which the check and the statements of every child request are not interrupted, and without overruns, all limits hold throughout |
| LedgerCounterexamples.LimitCheckRaces | routstr/auth.py:511-575 | a reachable state, without overrun, in which a child exceeds its limit |
| LedgerCounterexamples.LostRaceLeaksOnChild | routstr/auth.py:561-595 | a reachable state with nothing outstanding in which the child has msats reserved |
| LedgerCounterexamples.BalanceGoesNegativeAfterOverrun | routstr/auth.py:1002-1021 | a reachable state with a negative balance |
| LedgerRefinement.ReservationIsARun | routstr/auth.py:511-575 | an admitted reservation does to the table what the handler's two statements do one after the other, and holds the cost if and only if the billing row affords it |
| LedgerRefinement.SettlementIsARun | routstr/auth.py:690-1231 | settling a held reservation does to the table what the handlers' statements do, on both rows, and closes the request |
| LedgerRefinement.RefundIsARun | routstr/balance.py:334-433 | a refund may start exactly when the endpoint's checks pass; its steps empty the row and count the payout, or put back what they took |
| LedgerRefinement.SaleMayHappenIff | routstr/balance.py:543-563 | a sale may happen if and only if the key is a root and its current balance affords the price |
| LedgerRefinement.SaleIsAStep | routstr/balance.py:563-599 | a sale does to every row what the endpoint does when nothing comes between its read and its write |
| FeeLedger.StepKeepsInv | routstr/core/db.py:307-340 | accruals, inserts and the steps of a payout keep the fee total within its bounds and the accumulated amount above what is being paid |
| FeeLedger.FeesAreAccountedFor | routstr/auth.py:765-774 | in every interleaving from an empty table the rounded-up fees are all accounted for, lie in [S, S + n), and no more is recorded as paid than was sent |
| FeeLedger.NoFeeIsLostOnceTheRowExists | routstr/wallet.py:727-749 | once the row exists, accumulated plus paid grows by exactly the fees accrued, those between a payout's read and its subtraction included |
| FeeLedger.FeesAreDroppedIff | routstr/core/db.py:307-317 | in every run a fee is lost if and only if some insert finds the row already there |
| FeeLedger.AllFeesAreRecordedIff | routstr/core/db.py:307-340 | accumulated plus paid equals all fees if and only if no insert came too late and none is under way |
| FeeLedger.FirstInsertRaceDropsAFee | routstr/core/db.py:307-317 | a run in which one of two first fees is dropped |
| FeeLedger.SentIsRecordedIff | routstr/wallet.py:727-749 | in every run all that was sent is recorded as paid, or about to be, if and only if no subtraction failed after its payment |
| FeeLedger.FailedSubtractionPaysTwice | routstr/wallet.py:727-749 | a run in which a fee of 210 sats is sent twice |
| FeeLedger.RoundIsARun | routstr/wallet.py:727-749 | the steps of a payout round with charges in between do what the handler does: all whole sats from 200 up are paid if they can be sent, and every fee accrued meanwhile is kept |
| FeeLedger.FeeTable.Accumulate | routstr/core/db.py:307-317 | a fee is added to the row, or inserted as the first one, or lost to another insert |
| FeeLedger.FeeTable.PayoutRound | routstr/wallet.py:727-749 | a round pays all whole sats from 200 up and keeps every fee accrued meanwhile |
| Failover.EligibleExactly | routstr/proxy.py:1345-1407 | a request goes on if and only if some provider supports the path and, in confidential mode, is attested, and then to exactly those; nobody unattested slips through; a refusal says whether there is no provider, none for the path, or none attested |
| Failover.FilterKeepsOrder | routstr/proxy.py:1345-1398 | the filters go through the list piece by piece, so the ranking order stays |
| Failover.RetriesExactly | routstr/proxy.py:1556-1661 | the loop goes on after upstream errors and the statuses 400, 401, 403, 404, 429 and 502 alone, never after an answer that settled |
| Failover.KnownModelExactly | routstr/proxy.py:578-598 | a request asks for the model it names, else for "unknown"; that is known if and only if an alias is its lowercased name, with or without a suffix of a dash and eight digits |
| Failover.TryInOrder | routstr/proxy.py:1535-1661 | for every list, all outcomes and whatever other requests do meanwhile, the deciding provider answers, the statement after the loop is unreachable, and the reservation ends once unless a contacted provider released it |
| Failover.Serve | routstr/proxy.py:1308-1661 | from rows that may be stale, with a limit reset that may be due: served if and only if the model name is published, a provider is eligible, the platform is ready and a request with a body is accepted for payment, and each refusal has its reason in that order; one reservation per request with a body, of the amount that is reverted, and one end for it unless a contacted provider released it before; a request without a body reserves nothing and is served only when an alias "unknown" is routed |
| Failover.RevertUndoesReserve | routstr/auth.py:629-687 | a revert restores both rows of an accepted reservation exactly, counters included |
| Failover.FailedRequestLeavesNoTraceIff | routstr/proxy.py:1535-1661 | a failed request leaves the whole table as it was if and only if no contacted provider released the reservation |
| Failover.ReservationGivenBackIff | routstr/upstream/base.py:3719-3743 | for any contacts that all failed, the request's key and its billing key each end with the reserved balance they had if and only if none released it or nobody else has that much reserved there |
| Failover.ReleaseThenRevertTakesAnothers | routstr/auth.py:1208-1229 | a child's request that takes another request's reservation from both rows |
| Failover.UnpairedRevert | routstr/auth.py:629-687 | a revert that no reservation precedes is harmless if and only if neither row has that much reserved |
| Failover.BodylessRequestTakesAnothers | routstr/proxy.py:1316-1661 | with an alias "unknown" routed, a failed request without a body that takes another request's reservation |
| Failover.BodylessAnswerTakesAnothers | routstr/auth.py:803-839 | with an alias "unknown" routed, an answered request without a body that charges what it never reserved and clamps another request's reservation |
| Failover.BodylessFailureIsHarmlessIff | routstr/proxy.py:1535-1661 | a request without a body that ends without an answer leaves the table as it was if and only if neither row has that much reserved |
| Failover.BodylessAnswerSparesOthersIff | routstr/auth.py:690-1231 | an answer to it spares the reservations of others on both rows if and only if there are none, or, where the settlement is guarded, none that large |
| Invoices.StepKeepsInv | routstr/lightning.py:222-294 | at most one call holds the tokens of an invoice, and then it is not credited yet |
| Invoices.MintIsTruthful | routstr/lightning.py:222-294 | what is taken for granted of the mint: it tells paid quotes from unpaid ones when it can be asked, and honours each once, whether or not its answer arrives |
| Invoices.CreditedAtMostOnce | routstr/lightning.py:222-294 | over all interleavings of watcher, polls and recover calls an invoice is credited at most once, given only that the mint honours a quote once |
| Invoices.PaidMeansCredited | routstr/lightning.py:149-220 | calls with their own session never leave an invoice paid without its credit |
| Invoices.PaidMeansCreditedIff | routstr/lightning.py:222-326 | in every run paid invoices are credited throughout if and only if no watcher batch commits marks of invoices that failed before in it |
| Invoices.UnbackedGrowsOnlyByWatcher | routstr/lightning.py:301-326 | a step makes an invoice paid without credit if and only if it commits a watcher session that had marked it |
| Invoices.ForgottenForGood | routstr/lightning.py:163-168 | an invoice that left the pending state without credit is never credited |
| Invoices.WatcherLosesAnInvoice | routstr/lightning.py:301-326 | a run in which the watcher marks an uncredited invoice paid |
| Invoices.PaidCanTurnExpired | routstr/lightning.py:163-168 | runs in which a poll that saw the quote unpaid, or could not read it, overwrites a credited invoice with expired |
| Invoices.PaidLeavesIff | routstr/lightning.py:163-168 | a step takes an invoice out of the paid state if and only if it is the expiry write of a poll of that invoice, whether that poll saw the quote unpaid or could not read it; the watcher never expires one |
| Invoices.PaidIsFinalIff | routstr/lightning.py:149-220 | in every run paid invoices stay paid if and only if no poll writes expired over a row that has become paid since |
| Invoices.PaymentsAreNotLostIff | routstr/lightning.py:149-326 | in every run an invoice that is paid for is pending or credited at every moment if and only if no poll expires one that is paid for and uncredited, none is paid for after it was closed, and the watcher commits no failed marks |
| Invoices.UnreadableQuoteLosesAPayment | routstr/lightning.py:163-168 | a run in which a paid-for invoice is expired for good because its quote could not be read |
| Invoices.Watcher.WatchBatch | routstr/lightning.py:301-326 | after one batch exactly the successful invoices are credited, and those are paid that succeed or break after being marked with a later success in the batch |
| Invoices.VisitIsARun | routstr/lightning.py:222-294 | an uninterrupted check of one invoice leaves nothing behind, or a mark in the watcher's session alone, or a credit that pays the invoice and, from the watcher, whatever its session had marked |
| Swap.CalculateSwapAmount | routstr/wallet.py:120-183 | a token of the primary mint yields all its whole units; another succeeds if and only if its value minus estimated fees is at least one primary unit, and yields all whole units of that |
| Swap.SwapToPrimaryMint | routstr/wallet.py:193-381 | a swap succeeds if and only if at least one primary unit is left after the estimated fees, the token pays the quoted melt, the melt goes through and the wallet really holds the amount, which is all whole units left; a failure tells the first of these that is missing |
| Swap.ReceiveToken | routstr/wallet.py:39-57 | a token is accepted if and only if it has one keyset and is redeemed at its own trusted or primary mint, or is of a known unit and can be swapped; its reasons for refusal; what a trusted one yields is its face amount in its own unit |
| Swap.CreditBalance | routstr/wallet.py:384-433 | credits if and only if the token is accepted and worth something; a token of a trusted mint counts at face value whatever its unit; for a swapped one credit plus estimated fees never exceeds its value and falls short by less than one primary unit, and a recovered mint is credited only if the wallet gained it |
| ProviderSelection.ValidatedExactly | routstr/algorithm.py:2557-2597 | a provider takes part if and only if it has a base URL, a positive fee and a database id or a kind; its key is the id or kind and URL in lower case, and it counts as OpenRouter by its exact base URL |
| ProviderSelection.ValidatedInOrder | routstr/algorithm.py:2576-2597 | validated providers keep their order |
| ProviderSelection.OneCheapestPerUrl | routstr/algorithm.py:2605-2623 | exactly one provider survives per normalised URL and none sharing it has a lower fee |
| ProviderSelection.CheapestIsFirst | routstr/algorithm.py:2605-2617 | among equal fees the first provider is kept |
| ProviderSelection.GroupedInOrder | routstr/algorithm.py:2605-2617 | URLs come in the order of their first provider, and the providers of a URL in theirs |
| ProviderSelection.KeepCheapest | routstr/algorithm.py:2605-2623 | the two grouping loops keep the first cheapest provider of each URL in order of appearance |
| ProviderSelection.ValidatedUpstreams | routstr/algorithm.py:2576-2597 | the loop keeps exactly the valid providers, in order |
| ProviderSelection.OpenRouterLast | routstr/algorithm.py:2623-2631 | the loop separates the last OpenRouter provider from all others |
| ProviderSelection.SetApartExactly | routstr/algorithm.py:2619-2631 | the others keep their order and the last OpenRouter provider is the one set apart |
| ProviderSelection.OpenRouterHasOneUrl | routstr/algorithm.py:2605-2631 | providers recognised as OpenRouter share one normalised URL, so grouping leaves one |
| ProviderSelection.NoProviderIsSkippedIff | routstr/algorithm.py:2613-2631 | every kept provider is processed if and only if at most one is OpenRouter, which always holds outside confidential mode |
| ProviderSelection.ConfidentialModeDropsAnOpenRouter | routstr/algorithm.py:2613-2631 | of two OpenRouter providers in confidential mode the first is not processed |
| ProviderSelection.DiscoveryProviders | routstr/algorithm.py:2576-2631 | the providers of the discovery pass in their order |
| RoutingCandidates.ResolveAliasExactly | routstr/upstream/helpers.py:35-82 | the aliases are exactly the id, its base, both without a date, the slug and its base with and without date unless the slug is among those, and the declared ones; none twice unless declared so |
| RoutingCandidates.PrefixAndBase | routstr/algorithm.py:2633-2635 | a name splits at its first slash into prefix and base |
| RoutingCandidates.DateIsDropped | routstr/upstream/helpers.py:57-66 | a date at the end of a name is dropped, and nothing else |
| RoutingCandidates.AliasesExactly | routstr/algorithm.py:2751-2766 | the registered aliases are exactly those, the id under the provider's name when it has no prefix, and the forwarded id |
| RoutingCandidates.RouteOfExactly | routstr/algorithm.py:649-682 | a model is routed if and only if no name it has is blank, by its names without outer space |
| RoutingCandidates.DiscoveredExactly | routstr/algorithm.py:2668-2770 | discovery offers exactly the enabled, well-named catalogue entries that are not disabled, as themselves when no row is stored for them, else as the model of the first such row, with the catalogue's route shape for gated providers in confidential mode |
| RoutingCandidates.EnabledEntriesAreOffered | routstr/algorithm.py:2668-2714 | every such entry is offered, unless its stored row does not convert to a well-named model |
| RoutingCandidates.OffersExactly | routstr/algorithm.py:2782-2833 | everything on offer comes from discovery or from a stored row that is not disabled, belongs to the last provider with its id, was not seen with that provider before and converts to an enabled model, and every such row is on offer |
| RoutingCandidates.StoredOffersAreNew | routstr/algorithm.py:2782-2889 | the pass over stored rows keeps what discovery found and never admits a model of a provider twice |
| RoutingCandidates.CandidatesAreOffers | routstr/algorithm.py:2659-2666 | an alias has a candidate list if and only if an admitted model has that alias up to letter case, and the list holds exactly those models with their providers |
| RoutingCandidates.CandidatesAreInOfferOrder | routstr/algorithm.py:2659-2666 | a candidate list holds the offers in the order they were made, once per matching alias |
| RoutingCandidates.KeyOrderExactly | routstr/algorithm.py:2659-2666 | the keys of the candidate lists are the aliases of what is on offer, each once |
| RoutingCandidates.KeyOrderGrows | routstr/algorithm.py:2659-2666 | later offers add their keys behind those that are there |
| RoutingCandidates.DirectProvidersArePublished | routstr/algorithm.py:2732-2748 | outside confidential mode a unique model comes from OpenRouter only if no other provider offers its key |
| RoutingCandidates.PrefixesShareAKey | routstr/algorithm.py:2719-2731 | a model is listed under its forwarded id, else under its id without prefix, whatever the prefix |
| RoutingCandidates.Builder.AddCandidate | routstr/algorithm.py:2659-2666 | appends to the lowercased alias's list and keeps the insertion order of keys |
| RoutingCandidates.Builder.Admit | routstr/algorithm.py:2732-2770 | one offer reaches the published models, the candidate lists and the seen set together |
| RoutingCandidates.Builder.MissedModel | routstr/algorithm.py:2782-2833 | decides from the seen set alone whether a stored row still has to be offered |
| RoutingCandidates.Builder.ProcessProviderModels | routstr/algorithm.py:2668-2770 | adds the offers of one provider to all four structures |
| RoutingCandidates.Builder.ProcessOverrides | routstr/algorithm.py:2782-2889 | adds the stored rows that discovery missed |
| RoutingMaps.RankedExactly | routstr/algorithm.py:2948-2959 | the ranking is the only order with better ranks first and ties as they came |
| RoutingMaps.StableRankingExactly | routstr/algorithm.py:2948-2959 | an alias's ranking is the one list with better ranks first, ties as they came, nothing lost and nothing repeated |
| RoutingMaps.RankedIsSorted | routstr/algorithm.py:2896-2925 | a ranked list has the same candidates, by descending priority and then ascending penalised cost |
| RoutingMaps.PriorityExactly | routstr/algorithm.py:2896-2925 | the five levels of a match: forwarded id, id, base of the id, base of the slug, anything else |
| RoutingMaps.MoreSpecificWins | routstr/algorithm.py:2896-2925 | a match of the forwarded id beats any other, then one of the id, then one of its base, whatever the candidates cost |
| RoutingMaps.OpenRouterIsPenalised | routstr/algorithm.py:2491-2513 | between equally specific matches a provider elsewhere beats OpenRouter if and only if it costs less than 0.1% more |
| RoutingMaps.CheaperWins | routstr/algorithm.py:2948-2959 | between equally specific matches that both are on OpenRouter, or both are not, the cheaper one wins |
| RoutingMaps.OnOpenRouterExactly | routstr/algorithm.py:2491-2513 | a provider is penalised if and only if its lowercased base URL contains openrouter.ai |
| RoutingPublication.PlainListIsRanking | routstr/algorithm.py:2948-2973 | outside confidential mode an alias keeps all its candidates, best first |
| RoutingPublication.RoutableItems | routstr/algorithm.py:2961-2973 | keeps exactly the candidates that pass the three checks, in order |
| RoutingPublication.ItemsOfShape | routstr/algorithm.py:2982-2988 | keeps exactly the candidates of one forwarding shape, in order |
| RoutingPublication.ShapeExactly | routstr/algorithm.py:2927-2946 | models share a forwarding shape if and only if id, forwarded id and the collection of endpoints agree up to letter case and outer space |
| RoutingPublication.ConfidentialListIsVerified | routstr/algorithm.py:2961-2988 | a confidential list is empty only if nothing passes; else it holds exactly the passing candidates of the head's forwarding shape, and the head is outranked by no passing candidate |
| RoutingPublication.PlainMapsAreRankings | routstr/algorithm.py:2948-2988 | outside confidential mode both maps have exactly the aliases of admitted models as keys and every list is the non-empty stable ranking of the offers in the order they were made, headed by the provider of the alias's model |
| RoutingPublication.ConfidentialMapsAreVerified | routstr/algorithm.py:2927-2988 | in confidential mode an alias is published if and only if something offered under it passes all checks; both maps agree, and a list is the stable ranking without what fails or has another shape |
| RoutingPublication.EveryProviderIsTrusted | routstr/algorithm.py:2961-2988 | in confidential mode an alias is published if and only if something is offered under it that is proven, reachable and publishable; every provider listed has such an offer, the first with the published model |
| RoutingPublication.AdvertisedIsRoutable | routstr/algorithm.py:2719-2748 | every listed unique model can be routed, by its published id and by its key |
| RoutingPublication.PublishAll | routstr/algorithm.py:2948-3007 | the final loop builds the maps, and in confidential mode advertises only published aliases with their best provider, for each key the first alias in order that has it |
| RoutingPublication.AdvertKeyExactly | routstr/algorithm.py:2989-2994 | the advertised key is the lowercased forwarded id of the published model, or the alias when it has none |
| RoutingPublication.CreateModelMappings | routstr/algorithm.py:2516-3022 | the whole builder yields maps with the properties above, in both modes |
| AttestationSnapshot.PersistThenLoadAgrees | routstr/proxy.py:737-806 | right after a refresh a model covered by an exact selector of a current status passes the database check, in any read order, unless a stored row differs only in letter case |
| AttestationSnapshot.PassesAfterRefreshIff | routstr/proxy.py:737-806 | after a refresh a model passes the database check if and only if the status has a mode and a complete policy digest and some row of the provider, read last under its lowercased key and written just now or stored before, is fresh evidence for it |
| AttestationSnapshot.DbCoversExactly | routstr/algorithm.py:2003-2042 | the check passes if and only if a loaded row under the status's mode names the model or alias, with or without a prefix, is verified, in force at this moment, of the same policy, and has a complete evidence digest and a named verifier; nothing expired passes |
| AttestationSnapshot.LoadedExactly | routstr/proxy.py:785-806 | a snapshot holds, under each lowercased key, the row read last, and nothing else |
| AttestationSnapshot.RouteIdentifiersExactly | routstr/algorithm.py:2057-2081 | the names the in-memory check compares: the alias and, except for PPQ, a forwarded id that is the alias behind a prefix; without an alias all names of the model |
| AttestationSnapshot.UnlistedModelsFailClosed | routstr/algorithm.py:1990-2042 | a provider whose status names no model passes the database check only through a row of an earlier status that still stands |
| AttestationSnapshot.EveryOrderAgreesIff | routstr/proxy.py:785-806 | an entry stands in every read order if and only if its lowercased key has a row and all case variants stand |
| AttestationSnapshot.LoadsAlikeIff | routstr/proxy.py:785-806 | what a lowercased key loads is independent of the read order if and only if all its case variants hold the same row |
| AttestationSnapshot.ReadOrderDecides | routstr/proxy.py:798-805 | rows for "M" and "m" of which the one read last is loaded |
| AttestationSnapshot.SelectorsArePersisted | routstr/algorithm.py:308-320 | every selector routing compares with was persisted under a spelling of it |
| AttestationSnapshot.PersistedExactly | routstr/algorithm.py:323-326 | all ids of a status that are not blank are persisted, stripped |
| AttestationSnapshot.SelectorsExactly | routstr/algorithm.py:307-320 | routing reads them lowercased, and none at all from a list with a blank or repeated id or from another collection |
| AttestationSnapshot.AttestationTable.PersistProviderModelAttestations | routstr/proxy.py:737-782 | upserts one row per provider, model and mode |
| AttestationSnapshot.AttestationTable.LoadProviderModelAttestations | routstr/proxy.py:785-806 | groups the rows by provider with later rows overwriting |
| PolicyParsers.StrictPolicyStringValues | routstr/algorithm.py:1517-1535 | the loop computes the runtime's reading of one list |
| PolicyParsers.RuntimeAcceptsIff | routstr/algorithm.py:1517-1535 | a list is accepted if and only if every present spelling is well formed and all say the same, and then it is the canonical form of any of them |
| PolicyParsers.ListedExactly | routstr/algorithm.py:1517-1535 | a well-formed spelling is a non-empty list of strings that are not blank and differ beyond letter case, read without outer space |
| PolicyParsers.LiveAcceptsIff | scripts/confidential_routing_live_check.py:2186-2206 | the live checker accepts a list if and only if every present spelling is well formed |
| PolicyParsers.LiveValuesExactly | scripts/confidential_routing_live_check.py:2186-2206 | the merged list is sorted and keeps, of the values alike up to letter case, the one that comes first |
| PolicyParsers.NoCaseIsLost | scripts/confidential_routing_live_check.py:2196-2206 | dropping duplicates loses no value but for its letter case |
| PolicyParsers.KeptAreDistinct | scripts/confidential_routing_live_check.py:2196-2206 | and keeps no two values alike up to letter case |
| PolicyParsers.StrictPolicySortedStrings | scripts/confidential_routing_live_check.py:2186-2206 | the two loops compute the live checker's reading of one list |
| PolicyParsers.LiveRefinesRuntime | scripts/confidential_routing_live_check.py:2186-2206 | where the runtime accepts both readings are equal, and it accepts if and only if the live checker does and the spellings agree |
| PolicyParsers.LiveMergesDisagreeingSpellings | scripts/confidential_routing_live_check.py:2186-2206 | a family of lists that only the live checker accepts |
| PolicyParsers.PrivatemodeModelWorkloadBindings | routstr/algorithm.py:1577-1623 | the loops of the runtime's parser of the bindings |
| PolicyParsers.RuntimeBindingsExactly | routstr/algorithm.py:1577-1623 | the runtime reads given bindings if and only if some spelling of the key is present and every present one parses to them |
| PolicyParsers.AcceptedBindsEveryModel | routstr/algorithm.py:1587-1615 | a value parses if and only if it is a non-empty dict of such entries, and then to a non-empty one of stripped names |
| PolicyParsers.ParseEntries | routstr/algorithm.py:1587-1615 | the loop over one dict, in both checkers |
| PolicyParsers.EntriesExactly | routstr/algorithm.py:1587-1615 | a dict is accepted if and only if every entry names a model, no two alike up to letter case, and binds it by at least one given list, all of them readable; then exactly the named models are bound, each to some workload |
| PolicyParsers.EntryIsBinding | routstr/algorithm.py:1601-1615 | each model is bound to what its own entry says |
| PolicyParsers.NoModelIsUnbound | scripts/confidential_routing_live_check.py:2375-2412 | neither checker ever accepts a model that is bound to no workload |
| PolicyParsers.BoundExactly | routstr/algorithm.py:1646-1662 | the early-exit loop decides whether bound and expected workloads are equal sets |
| PolicyParsers.LivePrivatemodeModelWorkloadBindings | scripts/confidential_routing_live_check.py:2375-2412 | the loop of the live checker's parser of the bindings |
| PolicyParsers.FirstNonNullExactly | scripts/confidential_routing_live_check.py:2375-2386 | the live checker reads the first spelling that is present and not null |
| PolicyParsers.LiveCheckerRefinesRuntime | scripts/confidential_routing_live_check.py:2330-2426 | for every policy the runtime accepts, the live checker reads the same lists and the same bindings, hence the same digest inputs |
| PolicyParsers.WorkloadBindingsCoverExpectedWorkloads | routstr/algorithm.py:1633-1662 | true if and only if the bound workloads are exactly the expected ones, of which there are some |
| PolicyGenerator.NonEmptyUniqueStrings | scripts/generate_privatemode_policy.py:99-111 | accepts exactly non-blank values distinct up to letter case, and strips them |
| PolicyGenerator.UniqueStringsExactly | scripts/generate_privatemode_policy.py:99-111 | values are accepted if and only if none is blank and no two are alike up to letter case, and then without outer space |
| PolicyGenerator.NormalizeModelIds | scripts/generate_privatemode_policy.py:114-121 | the loop accepts exactly such lists of privatemode models |
| PolicyGenerator.NormalModelIdsExactly | scripts/generate_privatemode_policy.py:114-121 | models are accepted if and only if, lowercased and without outer space, all start with privatemode/ and differ |
| PolicyGenerator.ParseBindingValues | scripts/generate_privatemode_policy.py:245-263 | groups the pairs per model in order and makes each group unique |
| PolicyGenerator.SplitAtFirst | scripts/generate_privatemode_policy.py:245-257 | a value splits at its first equals sign, model before and workload after it |
| PolicyGenerator.GroupedIsPerModel | scripts/generate_privatemode_policy.py:245-263 | the pairs are accepted if and only if each has both sides, and a model gets the workloads of its own pairs in order |
| PolicyGenerator.BuildModelWorkloadBindings | scripts/generate_privatemode_policy.py:266-332 | succeeds if and only if the selected models are exactly those bound, each to something, and the bound workloads are exactly the expected ones |
| PolicyGenerator.BuiltFromGiven | scripts/generate_privatemode_policy.py:290-332 | explicit bindings are accepted if and only if the models are exactly those bound, each to something, and the bound workloads are exactly the expected ones; each model gets its own, sorted |
| PolicyGenerator.BuiltForOne | scripts/generate_privatemode_policy.py:275-290 | without explicit bindings one model alone is accepted, when something is expected, and gets all of it |
| PolicyGenerator.BindEach | scripts/generate_privatemode_policy.py:297-327 | the loop stops exactly when some binding is empty or exceeds the expected workloads |
| PolicyGenerator.BindAll | scripts/generate_privatemode_policy.py:297-332 | with the leftover check at the end, bindings result if and only if bound and expected workloads coincide |
| PolicyGenerator.UniquePerModel | scripts/generate_privatemode_policy.py:258-263 | each model's workloads are made unique, or the values are refused |
| PolicyGenerator.AllUniqueExactly | scripts/generate_privatemode_policy.py:258-263 | one model with repeated workloads refuses all; else every model has its workloads made unique |
| PolicyRoundTrip.BindingBack | routstr/algorithm.py:1596-1620 | a written binding is read back unchanged |
| PolicyRoundTrip.DocumentIsAccepted | scripts/generate_privatemode_policy.py:356-418 | the document of normalised inputs parses to its bindings and covers |
| PolicyRoundTrip.GeneratedPolicyIsAccepted | scripts/generate_privatemode_policy.py:377-460 | whenever the generator succeeds, the runtime parses its policy to bindings over exactly the selected models, accepts them as covering, and the live checker reads the same |
| PolicyRoundTrip.PrivatemodeIsWellSpelled | routstr/algorithm.py:1554-1600 | the key spellings in use meet the assumption of the round trip |
| Text.SortIsCanonical | routstr/algorithm.py:1517-1535 | sorted lists are equal if and only if they hold the same values |
| Text.NormalFormsAreStable | routstr/algorithm.py:492-503 | stripped and lowercased text is unchanged by doing it again |
| Text.StripExactly | routstr/algorithm.py:492-503 | stripping takes spaces off both ends, all of them and nothing else |
| Text.LowerExactly | routstr/algorithm.py:492-503 | lowering replaces capital letters one by one and nothing else |
| Text.LeqExactly | routstr/algorithm.py:1517-1535 | the sorting order is that of a dictionary by character codes |
| AttestationTargets.ModelFactsAreUnambiguous | scripts/confidential_routing_live_check.py:432-559 | a model has model-level facts if and only if exactly one usable check of the document names it, and then that check's; it is ambiguous if and only if several do |
| AttestationTargets.LastDeclaredWins | scripts/confidential_routing_live_check.py:446-541 | across entries of one provider a check id resolves, for its host, model, backend host and backend repository each, to the last usable check that declares it |
| AttestationTargets.ResolvesForAllIff | scripts/confidential_routing_live_check.py:446-541 | a check id resolves alike for all its checks if and only if those that declare a fact agree on it |
| AttestationTargets.EntriesMixFacts | scripts/confidential_routing_live_check.py:513-541 | an id that resolves to the host of one check and the model of another |
| AttestationTargets.LoadTargets | scripts/confidential_routing_live_check.py:432-559 | the loops build that directory |
| AttestationTargets.LoadBlock | scripts/confidential_routing_live_check.py:459-548 | one provider entry contributes exactly its checks with an unrepeated id |
| AttestationTargets.UsableExactly | scripts/confidential_routing_live_check.py:459-494 | a check is used if and only if it has an id that no other check of its entry has |
| AttestationTargets.CheckModelExactly | scripts/confidential_routing_live_check.py:497-521 | a check stands for the model it names unless it is a router, or, naming none, for the first in order of those its Tinfoil host is known for |
| AttestationTargets.TargetModelsExactly | scripts/confidential_routing_live_check.py:506-521 | the targeted models are exactly those that usable checks name or host |
| ResultRows.RowVerifiesIff | scripts/confidential_routing_live_check.py:602-874 | a row verifies if and only if it says so, matches its target, repeats no check id, meets its provider's proof gates and is fresh |
| ResultRows.RulingIsFirstClosedGate | scripts/confidential_routing_live_check.py:656-874 | the status and error of every row: mismatches in order of precedence, then the row's own status, then the first gate of its provider that is closed, freshness last |
| ResultRows.FreshExactly | scripts/confidential_routing_live_check.py:855-874 | a row is fresh if and only if its own time or, lacking one, the document's is neither in the future nor older than allowed; an unreadable time is never fresh |
| ResultRows.TargetedExactly | scripts/confidential_routing_live_check.py:832-854 | a model is targeted if and only if the targets name it or some check id of the provider stands for it |
| ResultRows.ExpectedExactly | scripts/confidential_routing_live_check.py:762-801 | backend facts go by the check id and, where that has none, by the model |
| ResultRows.SubjectExactly | scripts/confidential_routing_live_check.py:602-682 | which rows are skipped, what host and model the others count for, and when a row contradicts its target |
| ResultRows.TargetsExactly | scripts/confidential_routing_live_check.py:623-649 | the target's model goes by the check id, its host by the check id and else by the model the row names |
| ResultRows.UnmismatchedRowIsItsTarget | scripts/confidential_routing_live_check.py:602-682 | a row without mismatches counts for its target's host and, unless it is a router, for its target's model |
| ResultRows.TinfoilVerifiesIff | scripts/confidential_routing_live_check.py:701-731 | the Tinfoil gates pass if and only if TLS binding, release digest and all required fields are proved |
| ResultRows.PpqVerifiesIff | scripts/confidential_routing_live_check.py:748-831 | the PPQ gates pass if and only if model, backend host and repository match the target and both digests and all required fields are proved |
| ResultsFold.ModelVerifiedIff | scripts/confidential_routing_live_check.py:875-935 | a model ends verified if and only if exactly one counting row concerns it, that row verifies, and no earlier row claimed its host |
| ResultsFold.RepeatedModelFails | scripts/confidential_routing_live_check.py:905-917 | a second row for a model fails it for good with the reason on record |
| ResultsFold.SoleRowDecides | scripts/confidential_routing_live_check.py:875-935 | a model that one row concerns has that row's status and error, or fails for the repeated host |
| ResultsFold.HostErrorExactly | scripts/confidential_routing_live_check.py:877-917 | a host's error is what the last row recorded that did so, if no verified row of a model cleared it since; what a row records is a repeated model before a repeated host before its own issue |
| ResultsFold.HostVerifiedIff | scripts/confidential_routing_live_check.py:875-917 | a host ends verified if and only if some row on it verifies, claims a new model, and is scoped or the first there, and every later row on it is scoped with a new model; scoped rows are those of PPQ models |
| ResultsFold.ModelOutlivesItsHostIff | scripts/confidential_routing_live_check.py:875-917 | a verified model's host has failed if and only if a later row repeats the host, or a model on it, and no row after that recovers it |
| ResultsFold.LaterRowFailsTheHostAlone | scripts/confidential_routing_live_check.py:875-917 | a document of two rows on one host after which the host has failed and the first model is verified |
| ResultsFold.PpqHostFails | scripts/confidential_routing_live_check.py:877-893 | a PPQ document after which the host has failed and its model is verified |
| ResultsFold.PpqHostRecovers | scripts/confidential_routing_live_check.py:884-893 | a PPQ document that fails a host and then verifies it again |
| ResultsFold.VerifiedModelIsProved | scripts/confidential_routing_live_check.py:562-941 | every verified model goes back to a row of the document that met every gate |
| ResultsFold.RepeatsExactly | scripts/confidential_routing_live_check.py:588-601 | a row repeats a check id if and only if another row of its provider has it up to letter case |
| ResultsFold.MarkedExactly | scripts/confidential_routing_live_check.py:896-903 | a model's row leaves its error on the host if and only if it failed for a repeated id or another target |
| ResultsFold.EntriesInOrder | scripts/confidential_routing_live_check.py:602-655 | every row that is not skipped counts, in the order of the document |
| ResultsFold.Directory.AddRow | scripts/confidential_routing_live_check.py:875-934 | one row's effect on the four status and error maps |
| ResultsFold.Directory.CountCheckIds | scripts/confidential_routing_live_check.py:588-601 | counts every row with a provider and a check id, with or without a status |
| ResultsFold.Directory.LoadResults | scripts/confidential_routing_live_check.py:562-941 | the two loops fold the whole document |

## Left out

- HTTP, streaming, logging, caches and the user interface: no state of interest.
- The refund response cache, the x-cashu and unauthenticated loops of the proxy and the periodic refund sweep: variants of what is modelled.
- `calculate_cost`: any outcome whose maximum is a non-negative number; only `NoOverrunMeansSolvent` and the limit theorems assume costs within the reservation.
- LedgerProtocol.Next: child-key sales are one step there, so the lost credit of `SpawnKeepsMoneyIff` does not occur in its runs; top-ups and invoice credits are the atomic `UPDATE` in both.
- LedgerRuns.ChildLimitHoldsIff: speaks of child keys; a root key's limit is not claimed because its children's reservations bypass it.
- KeyTable.Table.AdjustPaymentForTokens: the parent's balance that the child's overrun statement uses is arbitrary, because the program does not fix when the session refreshes it.
- Failover.ReservationGivenBackIff: speaks of a request with no other request in between, as the other conditions on failed and bodyless requests do. `Failover.TryInOrder` gives the table with others in between as well, but the runs of the ledger settle each reservation once, so a release followed by a revert does not occur in them.
- ApiKeyRows.FailedRefundLeavesNoTrace: one direction for the row after the last statement; the exact condition is for the row at every moment, since a difference can vanish again.
- A reserved balance that is NULL is read as 0, as the statements do.
- Calendar arithmetic of limit resets and validity dates: whether one is due is a parameter.
- Floating-point rounding: fee, cost and penalty arithmetic is exact; the fee rate is 21/1000 and the penalty 1.001.
- Unicode: strip and lower act on ASCII.
- Cost scores of models: any real number per model.
- Claim checks of single providers and endpoint capability tables: a truth value per provider, model and alias.
- Strict digest and string pin groups of policies: the workload lists and bindings are the part both checkers canonicalise.
- SHA-256, JSON encoding, URL and timestamp parsing: results are values of the rows.
- Result details copied beside a model's status: carried, never read by the fold.
- ResultsFold.Directory.LoadResults: a document that is not a list of rows, or a negative maximum age, is refused before the loops.
- RoutingCandidates.Builder.ProcessProviderModels: an exception of a provider's own catalogue call is not modelled.
- Swap.CreditBalance: input fees a primary mint takes from a token of its own are not subtracted, as in the program.
- Wallet internals behind mint, melt and recovery: outcomes.
