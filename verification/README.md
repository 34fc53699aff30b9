# Verified model of the terranames contracts

Two CosmWasm contracts and the arithmetic they share, as Dafny programs with proofs.

**The root collector** pools the income of the name auctions and pays it to token stakers. A deposit raises one global
18-decimal `multiplier`, rounded down, and carries a `residual`; a staker's dividend is settled lazily, against the
multiplier kept in the staker's own record. Staked tokens leave through a timed unstaking stage whose single timer
every new unstake call restarts. `StakeState.dfy` holds the record (as a stored value and as the object updated in
place), `Pool.dfy` the transition system and the runs beside an observer's ledger that pays every staker eagerly,
`PoolInvariant.dfy` the invariant and its step-by-step proof, `PoolOutcomes.dfy` the full effect of single calls,
`PoolTheorems.dfy` and `PoolSolvency.dfy` the results over all runs, `PoolExamples.dfy` runs that reach the bounds,
`RootCollector.dfy` the contract with its mutable fields.

**The auction** leases names. A record and the block time determine a status (counter delay, transition delay, valid,
expired); bids, funding, changes of rate, transfers and appointments of a controller act on it. Rent accrues per
second and is charged rounded up, while the length of a lease is rounded down. `NameState.dfy` holds the record and
its status, `Auctions.dfy` the transition system, the view and the runs beside a rent book, `AuctionInvariant.dfy`
what every run keeps, `AuctionOutcomes.dfy` the full effect of every call and where the money goes, `Ownership.dfy`,
`BiddingWar.dfy`, `Acceptance.dfy`, `Payments.dfy`, `Views.dfy` and `Paging.dfy` the results, `AuctionExamples.dfy`
runs that reach the corners, `AuctionContract.dfy` the contract with its mutable store.

`Joint.dfy` puts the two contracts together: the auction's payments to its collector are deposits into the pool.

**Shared arithmetic**: `Prelude.dfy` (machine integers, aborts, rounding), `Terra.dfy` (chain tax), `LeaseMath.dfy`
(rate, deposit and seconds), `MapSum.dfy` (totals over maps).

Conventions. `Uint64` and `Uint128` are bounded naturals; every sum, difference and quotient that the contracts check
is checked, in their order, and products in front of a division are wide except where the contract computes them
in 128 bits. A returned error and a panic both become an `Err` that leaves storage as it was. A call is an action
with the block time, the sender, the attached stable funds and the tax policy of the moment; block time never runs
backwards along a run, calls may be refused, and any staker or bidder may call at any time. Messages record
the amount handed to the message builder (`gross`) and the coin sent (`net`).

What the code does not promise, each with its exact condition and an ordinary run that shows it:

- The pool is not exactly solvent. A deposit conserves value exactly when dividing it by the stake leaves whole units
  over (`DepositConservesIff`); otherwise the fraction cut off stays in the residual although it has been credited
  to the stakers. A run leaves the pool solvent exactly when no more was credited twice than was rounded away
  (`SolventIff`). `CommitmentBound` gives the resulting bound, `CommitmentBoundIsReached` the two-staker run of the
  tests, one unit short, and `CommitmentBoundReachedAtEveryLength` runs that are short by any number of units.
- A funding can bring an expired name back to its last owner: exactly when the whole deposit pays for one more second
  than has gone by (`FundRevivesIff`, `ExpiredNameIsRevived`).
- A name can be viewed only up to its expiry second (`ViewDefinedIff`). Later the query fails on an unguarded
  subtraction, and with it any listing page that holds such a name (`ExpiredNameBlocksPage`,
  `ExpiredNameCannotBeViewed`).
- The view takes a zero reference time for "no transition delay" where the status does not
  (`ViewAgreesWithStatusIff`, `ViewAheadOfStatus`). The two can differ only while the block time, in seconds since the
  epoch, is below the sum of the counter and transition delays.
- The unstaking query and the stored update disagree at the last instant of the delay
  (`ProjectionOnReachableStates`, `ProjectionLagsOneInstant`).
- A name owner's transfer inside a counter delay lasts only as long as the delay
  (`TransferOutlivesCounterDelayIff`, `TransferReverts`).
- `deduct_tax` may keep back one unit more than it has to: exactly when the rate decides and its division leaves a
  remainder above the rate (`DeductTaxMaximalIff`, `DeductTaxNotMaximal`).

## Model

| member | source | states |
|---|---|---|
| PoolTheorems.LazyRefinesEager | contracts/terranames_root_collector/src/state.rs:76-94 | After any run a staker's paid, stored and accrued dividends are at most their eager credit, and short of it by less than one unit per settlement plus one; the record's multiplier never passes the global one |
| PoolTheorems.CommitmentBound | contracts/terranames_root_collector/src/contract.rs:128-156 | After any run claims, payments and residual together exceed the deposits by at most (distributions - 1) units and fall short of them by at most settlements plus stakers |
| PoolSolvency.SolventIff | contracts/terranames_root_collector/src/contract.rs:136-147 | After any run commitments plus fractions rounded away equal deposits plus fractions credited twice, so the pool is solvent iff no more was credited twice than rounded away; double credits are read from inputs of the deposits |
| PoolSolvency.RunAccount | contracts/terranames_root_collector/src/contract.rs:136-147 | After any run the eager credit beyond the released funds is the sum of the fractions credited twice, and the eager credit no longer owed is the sum of the fractions that settlements cut off |
| PoolExamples.CommitmentBoundIsReached | contracts/terranames_root_collector/src/tests.rs:180-277 | On the two-staker run of the tests the commitments are one unit above the deposits |
| PoolExamples.CommitmentBoundReachedAtEveryLength | contracts/terranames_root_collector/src/contract.rs:135-147 | For every n up to 10^18 a run of n distributions is committed to n - 1 units more than was deposited |
| PoolInvariant.DepositConservesIff | contracts/terranames_root_collector/src/contract.rs:135-147 | A deposit conserves value iff dividing the incoming amount, in fractions, by the stake leaves a whole number of units; otherwise the surplus is the complementary fraction |
| PoolInvariant.DepositResidual | contracts/terranames_root_collector/src/contract.rs:128-156 | For every pool a deposit aborts exactly on overflow of the inflow or, with a stake T, of the multiplier; with nothing staked it only carries the inflow as residual, otherwise the multiplier rises by the floored inflow over T, the checked subtraction never fails and the residual is at most ceil((T-1)/10^18) |
| PoolInvariant.NextKeepsInv | contracts/terranames_root_collector/src/contract.rs:101-126 | Every call, accepted or refused, keeps the pool invariant (tracking of the eager credit, unstaking queue, totals, scaled balance) |
| PoolTheorems.SettlementNeverOverflows | contracts/terranames_root_collector/src/state.rs:78-89 | While deposits plus distributions fit in 128 bits no settlement of any staker can overflow |
| PoolTheorems.TokensNeverOverflow | contracts/terranames_root_collector/src/state.rs:112-120 | While the tokens ever received fit in 128 bits the amounts of every record do, so no release overflows |
| PoolTheorems.WithdrawDividendsAcceptedIff | contracts/terranames_root_collector/src/contract.rs:237-275 | A dividend withdrawal succeeds iff the sender has a positive claim below 2^128 and the tax can be worked out; the coin is the claim less exactly the deducted tax, within two units of the most that could be sent at rates up to one; it goes to the right recipient, nothing is owed afterwards and nothing else changes |
| PoolTheorems.UnstakeAcceptedIff | contracts/terranames_root_collector/src/contract.rs:158-193 | Unstaking succeeds iff the amount is at most the staked amount, with the three possible overflows spelled out |
| PoolTheorems.WithdrawTokensAcceptedIff | contracts/terranames_root_collector/src/contract.rs:195-235 | A token withdrawal succeeds iff a due release fits and the amount is at most what was ever unstaked and not yet withdrawn once the timer is over, or the stored unstaked amount before; it sends that amount |
| PoolOutcomes.ReceiveOutcome | contracts/terranames_root_collector/src/contract.rs:277-332 | For every pool a stake call succeeds iff it comes from the base token, total and stake do not overflow and an existing claim fits; it adds the amount to the stake, keeps what is owed, and a new staker starts at the global multiplier with nothing owed |
| PoolOutcomes.UnstakeOutcome | contracts/terranames_root_collector/src/contract.rs:158-193 | For every pool: refused for want of tokens iff more than the stake is asked for; otherwise the whole new record and totals, with due tokens freed first, the rest joined and the timer restarted |
| PoolOutcomes.WithdrawTokensOutcome | contracts/terranames_root_collector/src/contract.rs:195-235 | For every pool: refused for want of tokens iff more than the free tokens is asked for; otherwise the whole new record and exactly that amount to the addressee |
| PoolOutcomes.WithdrawDividendsRefused | contracts/terranames_root_collector/src/contract.rs:237-255 | Refused for want of funds iff nothing is owed, otherwise only on overflow |
| PoolTheorems.UnstakeDelaySafety | contracts/terranames_root_collector/src/state.rs:112-120 | At any time the withdrawn and withdrawable tokens are at most those asked for at least one delay earlier, however often the timer restarted |
| PoolTheorems.TokensConserved | contracts/terranames_root_collector/src/contract.rs:158-332 | Total stake is the sum of stakes, tokens held are tokens received less sent, no timer means nothing unstaking |
| PoolTheorems.OthersUntouched | contracts/terranames_root_collector/src/contract.rs:101-126 | A call changes only its sender's record, or that of the staker reported by the base token contract, and never lowers another's claim |
| PoolTheorems.ProjectionOnReachableStates | contracts/terranames_root_collector/src/state.rs:97-120 | On every reachable record query and stored update split alike iff it is not the instant at which a running delay of a positive amount ends; their sums always agree |
| PoolExamples.ProjectionLagsOneInstant | contracts/terranames_root_collector/src/state.rs:97-120 | A run after which query and update disagree at the last instant of the delay |
| StakeStates.StakeState.UpdateDividend | contracts/terranames_root_collector/src/state.rs:91-94 | Settles the record in place to the specified value, or leaves it on overflow |
| StakeStates.StakeState.UpdateUnstakedAmount | contracts/terranames_root_collector/src/state.rs:112-120 | Releases a due unstaking amount in place as specified, or leaves the record on overflow |
| RootCollectors.RootCollector.constructor | contracts/terranames_root_collector/src/contract.rs:75-98 | Starts with empty storage in a valid state |
| RootCollectors.RootCollector.Deposit | contracts/terranames_root_collector/src/contract.rs:128-156 | Moves the stored fields as the transition system's deposit, or not at all |
| RootCollectors.RootCollector.UnstakeTokens | contracts/terranames_root_collector/src/contract.rs:158-193 | Moves the stored fields as the transition system's unstake, or not at all |
| RootCollectors.RootCollector.WithdrawTokens | contracts/terranames_root_collector/src/contract.rs:195-235 | Moves the stored fields and sends as the transition system's token withdrawal, or not at all |
| RootCollectors.RootCollector.WithdrawDividends | contracts/terranames_root_collector/src/contract.rs:237-275 | Moves the stored fields and sends as the transition system's dividend withdrawal, or not at all |
| RootCollectors.RootCollector.ReceiveStake | contracts/terranames_root_collector/src/contract.rs:277-332 | Moves the stored fields as the transition system's stake, or not at all; refuses any sender but the base token |
| RootCollectors.RootCollector.Execute | contracts/terranames_root_collector/src/contract.rs:101-126 | Each call on a valid contract is one step of the run and leaves it valid |
| LeaseMath.RentGalois | packages/terranames/src/auction.rs:142-161 | A deposit covers the rounded-up rent of s seconds iff it buys at least s seconds |
| LeaseMath.ConversionGalois | packages/terranames/src/auction.rs:149-161 | The same on the code's functions; the cut to 64 bits is harmless exactly when the lease fits |
| LeaseMath.FloorBoundsLease | packages/terranames/src/auction.rs:142-144 | A deposit within the floor bound for s seconds buys at most s seconds |
| LeaseMath.RentRoundTrip | packages/terranames/src/auction.rs:149-161 | The deposit asked for s seconds buys at least s seconds, exactly s from one unit per second on |
| LeaseMath.RateIsDaily | packages/terranames/src/auction.rs:142-161 | A rate is the rent of one day, and a deposit of the rate buys one day |
| NameStates.StoredStatus | contracts/terranames_auction/src/state.rs:151-193 | Closed form of the status on stored records: no clock fallback, true expiry time, one possible overflow |
| NameStates.RentCovered | contracts/terranames_auction/src/contract.rs:428-430 | On a name that has not run out the rent so far never exceeds the deposit, so the saturating subtractions never saturate |
| NameStates.CurrentDepositDefined | contracts/terranames_auction/src/state.rs:131-138 | The remaining deposit is defined iff the rent product fits and the time is at most the expiry, and is deposit less rent |
| NameStates.CurrentDepositFalls | contracts/terranames_auction/src/state.rs:131-138 | The remaining deposit never rises with time |
| Ownership.NameOwnerIs | contracts/terranames_auction/src/state.rs:151-193 | Nobody owns a name that has run out; otherwise the owner on record inside the counter delay and the highest bidder after it |
| AuctionInvariant.NextKeepsInv | contracts/terranames_auction/src/contract.rs:121-147 | Every call, accepted or refused, keeps the auction invariant on every name |
| AuctionInvariant.LeaseLengthInvariant | contracts/terranames_auction/src/contract.rs:318-389 | After any run timestamps are ordered, a lease lasts at least the minimum from its beginning and at most the maximum from now, and its seconds are never truncated |
| AuctionInvariant.ClockFallbacksUnreachable | contracts/terranames_auction/src/contract.rs:199-202 | After any run no call meets the impossible block time and an expired status carries the true expiry |
| AuctionInvariant.RentLedger | contracts/terranames_auction/src/contract.rs:382-441 | Paid in = charged + on deposit, and charges lie between the exact rent and less than one unit more per charge |
| AuctionInvariant.StoredSetRate | contracts/terranames_auction/src/contract.rs:427-443 | A change of rate happens only on a name that has not run out, charges exactly the rent since the last charge, and stores the rate asked for from now on, the owner and reference time put on record, owner, controller and reference unchanged |
| AuctionInvariant.OutbidSettlesTenancy | contracts/terranames_auction/src/contract.rs:216-269 | An outbid refunds to the previous bidder exactly what was paid in less the charges; the tenancy cost its exact rent rounded up once per period |
| AuctionInvariant.MessagesBalance | contracts/terranames_auction/src/contract.rs:256-284 | Gross refund plus gross payment to the collector equals the funds of a bid or funding; other calls send nothing |
| AuctionInvariant.FlowsBalance | contracts/terranames_auction/src/contract.rs:256-402 | The same over any run of the whole contract |
| AuctionOutcomes.FreeBidOutcome | contracts/terranames_auction/src/contract.rs:306-360 | A bid on a missing or run-out name stores a record that starts over with the bidder and the lost expiry, sends the whole deposit, taxed, to the collector and nothing to anyone else; refused for its interval iff the deposit is not affordable |
| AuctionOutcomes.OutbidOutcome | contracts/terranames_auction/src/contract.rs:184-304 | A bid on a running name stores exactly the new leader, rate and deposit with the holder and their reference time on record, refunds the rest of the old deposit and pays the collector the remainder, coins exact; a refusal for bidder, rate, deposit or interval is reported iff that check is the first to fail |
| AuctionOutcomes.FundOutcome | contracts/terranames_auction/src/contract.rs:362-409 | A funding, on a running or a run-out name, only raises the deposit by its funds and sends them all to the collector; each refusal with its exact reason |
| AuctionOutcomes.SetRateRefused | contracts/terranames_auction/src/contract.rs:411-437 | A change of rate is unauthorized iff the sender is not the owner past the counter delay of a running name, and refused for its interval iff the rest is not affordable |
| AuctionOutcomes.TransferOutcome | contracts/terranames_auction/src/contract.rs:453-491 | A transfer is accepted iff it comes from the highest bidder or the holder of a running name; it replaces that one in the record and nothing else |
| AuctionOutcomes.SetControllerOutcome | contracts/terranames_auction/src/contract.rs:493-516 | A controller is appointed iff the sender is the name owner, and nothing else changes |
| AuctionOutcomes.NotFoundIff | contracts/terranames_auction/src/contract.rs:362-516 | A call fails for a missing name iff the name is missing and the call is not a bid |
| AuctionOutcomes.RunFlows | contracts/terranames_auction/src/contract.rs:256-402 | Over any run the bidders get back exactly what was left of the deposits that were outbid, and the collector exactly the rest of what was attached |
| Payments.TransactionPaysForItself | contracts/terranames_auction/src/contract.rs:44-90 | Coins sent plus chain tax never exceed the attached funds, and leave at most two units of dust per message at rates up to one |
| Ownership.BidKeepsOwnerIff | contracts/terranames_auction/src/contract.rs:239-252 | An accepted bid on a running owned name leaves its owner exactly when there is a counter delay and the bid buys a second |
| Ownership.SetRateKeepsOwnerIff | contracts/terranames_auction/src/contract.rs:439-443 | An accepted change of rate comes from the owner and keeps the name exactly when the remaining deposit buys a second |
| Ownership.FundKeepsStatus | contracts/terranames_auction/src/contract.rs:362-409 | Funding a running name leaves its status as it is at every later time before the old expiry |
| Ownership.FundRevivesIff | contracts/terranames_auction/src/contract.rs:373-402 | An accepted funding of a name that ran out brings it back, with its status as on record, iff the whole deposit pays for one second more than has gone by; otherwise it stays expired, and the collector gets the funds either way |
| AuctionExamples.ExpiredNameIsRevived | contracts/terranames_auction/src/contract.rs:362-409 | A reachable expired name without owner that a funding gives back to its last owner |
| Ownership.TransferMovesOwner | contracts/terranames_auction/src/contract.rs:467-483 | The name moves to the addressee iff the sender is its owner; a bid transfer leaves the owner |
| Ownership.TransferOutlivesCounterDelayIff | contracts/terranames_auction/src/contract.rs:467-483 | A transfer lasts beyond the counter delay iff it is not the name owner's inside one |
| AuctionExamples.TransferReverts | contracts/terranames_auction/src/contract.rs:467-483 | A reachable transfer inside a counter delay whose name is back with the sender after it |
| Ownership.BidNewSchedule | contracts/terranames_auction/src/contract.rs:173-180 | A name won after expiry is in transition delay counted from that expiry, a fresh one from zero |
| Ownership.ControllerChanges | contracts/terranames_auction/src/contract.rs:493-516 | The controller is set by the name owner only and cleared by a bid on an expired name only |
| Ownership.OwnerChangesHaveCauses | contracts/terranames_auction/src/state.rs:151-193 | Along any run from a reachable state the owner changes only by own transfer, end of a counter delay, running out, or a funding that revives a name that ran out |
| BiddingWar.WarOpens | contracts/terranames_auction/src/contract.rs:167-172 | An accepted bid on a running name, inside a counter delay or after it, or the owner's change of rate puts the holder, nobody for a fresh name, and their reference time on record |
| BiddingWar.WarGoesOn | contracts/terranames_auction/src/contract.rs:239-252 | Each accepted call in the counter delay keeps that record, whether of an owner or of nobody, and only a bid changes leader and time, and raises the rate |
| BiddingWar.WarRestoresOwner | contracts/terranames_auction/src/contract.rs:184-252 | Over any such war the holder, if any, and reference time stay on record, the last accepted bid leads, rates rise, and the winner's reference time is the old one for the holder and the bid's time for a rival |
| BiddingWar.WarEnds | contracts/terranames_auction/src/state.rs:176-192 | After any such war a holder who won has the status of the old reference time, a rival a full transition delay from the last accepted bid |
| BiddingWar.FreeNameFoughtOver | contracts/terranames_auction/src/contract.rs:248-252 | A free name claimed and then outbid in its first counter delay, by any number of bids, has no previous owner and reference, and its winner is in transition delay until both delays have passed since the last accepted bid |
| AuctionExamples.FreshNameOutbid | contracts/terranames_auction/src/contract.rs:248-252 | A reachable fresh name outbid in its first counter delay, in transition delay from the rival's bid |
| BiddingWar.WarIsWonBack | contracts/terranames_auction/src/contract.rs:184-252 | A three-bid run that meets the hypotheses of the restoration and ends with the first owner back at the old reference time and a higher rate |
| Joint.EverythingIsPaidFor | contracts/terranames_auction/src/contract.rs:68-90 | Over any interleaving of calls to both contracts, the pool's commitments plus the refunds to bidders are covered by the funds of bids and fundings and the direct deposits, up to (distributions - 1) units; the pool is given exactly the coins that the auction sends, if the denominations agree |
| Joint.NextKeepsInv | contracts/terranames_auction/src/contract.rs:74-89 | Every call to either contract, with the deposits it triggers, keeps both invariants and the pool deposits equal to direct deposits plus the auction's coins |
| Acceptance.IntervalIsExact | contracts/terranames_auction/src/contract.rs:318-322 | The rounded interval check accepts exactly the deposits within the exact bounds, and overflows exactly when its bounds do |
| Acceptance.ConfigUsableIff | contracts/terranames_auction/src/contract.rs:101-103 | Instantiation admits exactly the configurations under which some bid at a positive rate is accepted on a fresh name |
| Acceptance.BidOnFreeNameAcceptedIff | contracts/terranames_auction/src/contract.rs:306-322 | A bid on a free or expired name is accepted iff its deposit is affordable, overflows spelled out |
| Acceptance.BidOnRunningNameAcceptedIff | contracts/terranames_auction/src/contract.rs:195-235 | A bid on a running name is accepted iff it passes the five stated checks, overflows spelled out |
| Acceptance.FundAcceptedIff | contracts/terranames_auction/src/contract.rs:373-386 | Funding is accepted iff it names the highest bidder, adds something and pays for at most the longest lease from now, overflows spelled out; never at a zero rate |
| Acceptance.SetRateAcceptedIff | contracts/terranames_auction/src/contract.rs:421-437 | A change of rate is accepted iff it comes from the owner past the counter delay of a running name with an affordable rest, overflows spelled out |
| Views.ViewDefinedIff | contracts/terranames_auction/src/contract.rs:553-588 | A view succeeds exactly up to the expiry second (overflows spelled out), reports no owner at that second only, and shows the owner the contract obeys, the highest bidder, the record's entries, the deposit less rent and the true ends of delays and lease |
| AuctionExamples.ExpiredNameCannotBeViewed | contracts/terranames_auction/src/contract.rs:553-588 | A reachable name that is viewed without owner at its expiry second, and at the next makes view and page fail |
| Views.ViewAgreesWithStatusIff | contracts/terranames_auction/src/state.rs:93-193 | The reported times classify now as the status does, except for a never-owned name in its first transition delay |
| AuctionExamples.ViewAheadOfStatus | contracts/terranames_auction/src/state.rs:98-106 | A reachable fresh name whose reported times place it in force while its status is a transition delay |
| Views.ClosedForBidsIff | contracts/terranames_auction/src/contract.rs:204-208 | A rival's bid is refused as closed exactly between the reported ends of counter delay and bid delay |
| Views.OwnBidRefused | contracts/terranames_auction/src/contract.rs:195-197 | The highest bidder's own bid on a running name is refused as unauthorized |
| Paging.ZeroByteSuccessor | contracts/terranames_auction/src/state.rs:21-27 | A key with a zero byte appended is its immediate lexicographic successor |
| Paging.PageIs | contracts/terranames_auction/src/state.rs:266-283 | A page is the first names after the given one, ten by default, never more than thirty, fewer only where no more are left |
| Paging.PagingComplete | contracts/terranames_auction/src/state.rs:266-283 | With any positive limit, paging by last name ends and returns every name once in ascending order |
| Paging.PageAnsweredIff | contracts/terranames_auction/src/contract.rs:601-628 | A page is answered exactly when each of its names can be viewed, in page order |
| Paging.ExpiredNameBlocksPage | contracts/terranames_auction/src/contract.rs:614-623 | A page with a name past its expiry second aborts |
| AuctionContracts.Auction.Instantiate | contracts/terranames_auction/src/contract.rs:93-118 | Sets up a valid empty contract iff the shortest lease is at most the longest, and otherwise refuses the configuration |
| AuctionContracts.Auction.constructor | contracts/terranames_auction/src/contract.rs:105-115 | Under an admitted configuration, starts with an empty store in a valid state |
| AuctionContracts.Auction.BidName | contracts/terranames_auction/src/contract.rs:149-182 | Dispatches on the status and moves the store as the transition system's bid, or not at all |
| AuctionContracts.Auction.BidExisting | contracts/terranames_auction/src/contract.rs:184-304 | Reassigns the record field by field to the specified outbid, with the specified messages, or not at all |
| AuctionContracts.Auction.BidNew | contracts/terranames_auction/src/contract.rs:306-360 | Stores the specified fresh record, or nothing |
| AuctionContracts.Auction.FundName | contracts/terranames_auction/src/contract.rs:362-409 | Moves the store as the transition system's funding, or not at all |
| AuctionContracts.Auction.SetNameRate | contracts/terranames_auction/src/contract.rs:411-451 | Moves the store as the transition system's change of rate, or not at all |
| AuctionContracts.Auction.TransferNameOwner | contracts/terranames_auction/src/contract.rs:453-491 | Moves the store as the transition system's transfer, or not at all |
| AuctionContracts.Auction.SetNameController | contracts/terranames_auction/src/contract.rs:493-516 | Moves the store as the transition system's appointment, or not at all |
| AuctionContracts.Auction.Execute | contracts/terranames_auction/src/contract.rs:121-147 | Each call on a valid contract is one step of the run and leaves it valid |
| Terra.DeductTaxDefined | packages/terranames/src/terra.rs:9-27 | The deduction aborts only for a tax rate to which one cannot be added |
| Terra.AddedTaxDefined | packages/terranames/src/terra.rs:32-41 | The added tax is defined iff the uncapped product fits in 128 bits, and is then the capped floor |
| Terra.DeductTaxInvertsAddedTax | packages/terranames/src/terra.rs:17-75 | Net plus added tax on net, as a number and as `calculate_added_tax` computes it, never exceeds the gross amount, for every rate, cap and amount; the slack is one rounded division, at most 2 for rates up to one |
| Terra.DeductTaxNearlyMaximal | packages/terranames/src/terra.rs:63-75 | Nothing beyond net + 1 could have been sent out of the gross amount |
| Terra.DeductTaxMaximalIff | packages/terranames/src/terra.rs:17-26 | The deducted amount is the largest that can be sent iff the cap decides or the division leaves a remainder of at most the rate |
| Terra.DeductTaxNotMaximal | packages/terranames/src/terra.rs:63-75 | At rate one half, net is one below the largest amount that could be sent out of 1 |
| Terra.DeductCoinTaxPays | packages/terranames/src/terra.rs:48-61 | The same for the message builder's denomination switch |
| Terra.DeductCoinTaxIs | packages/terranames/src/terra.rs:9-61 | The coin of a message is all of it for Luna, otherwise what the rate leaves or all but the cap, whichever is more; it fails, by overflow, only for a rate to which one cannot be added |

## Left out

- The resolver contract: a controller check in front of a key-value store.
- Storage encoding, JSON schemas, message attributes, error backtraces, address validation, UTF-8 decoding of keys and `migrate`.
- Config and state queries, which copy fields; the stake query is represented by its two projections.
- Submessages other than the auction's payments to the pool; a payment that aborts undoes the whole auction call.
- The bank module, the token contract and the treasury: a stake call counts its amount as received, and the tax rate and cap come with each call.
- Coins of other denominations and repeated entries in the attached funds: one stable amount per call.
- Whether the bank balance suffices for a message: `CommitmentBound` says by how much it can fall short.
- Funds attached to calls that ignore them stay in the contract and are in no book.
