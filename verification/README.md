# COMPUT3: verified model of the money, the audit trail and the event loops

A Dafny model of the parts of COMPUT3 that must not go wrong, with proofs. `dafny verify dfyconfig.toml` checks everything.

**The contracts.** `DeploymentEscrow`, `ProviderRegistry` and `JobAuction` live together on one chain. `EscrowSpec`,
`RegistrySpec` and `AuctionSpec` give each function as a step up to its next external call; `Machine` composes them into
whole transactions. Arithmetic is checked at 256 bits, a revert restores everything, time never runs backwards, and whoever
is paid may refuse or first send any number of transactions of its own, nested to any depth. `Contracts` is the same program
as classes that update their storage in place around those calls; each method is proved to end as the machine does.

What has to be true is stated apart from the code. Each escrow session and deposit, each stake and each job has a ledger
that is replayed from the emitted events alone (`EscrowLedger`, `RegistrySound`, `AuctionSound`); an illegal event breaks
the ledger. `Guarantee` proves, by induction over nested transactions, what any activity leaves intact while a call waits
for its payment to return. `Payments` does the same for the ETH itself: the chain keeps its own record of every transfer,
which no contract reads, and what each contract has sent is compared with what its events announce. `ChainTheorems`,
`PaymentTheorems`, `SettlementTheorems` and `StreamTheorems` draw the consequences for all runs, `AttemptTheorems` and
`WhoTheorems` say who can change which record, `CompletionTheorems` exactly when a call goes through, and `CallTheorems` what
the calls without a payment leave.

**The audit trail.** `Merkle` has the tree and the proofs over any node type and pair hash; nothing is assumed of the hash
except, where a lemma says so, that no two of the pairs actually hashed collide (an injective hash onto 32 bytes does not
exist). The repository generates proofs but never checks one; the fold that checks them is written from the labels at
backend/internal/agent/session.go line 726. `ActionHash` has the hexadecimal and JSON texts, `JsonValues` that a text
has one value, `Audit` the action hash and the assembly of the audit.

**The agent.** `Agent` is the loop as a step machine over arbitrary model replies and tool outcomes, `AgentRuns` says how a
run ends and what it leaves from the replies alone, `Session` is the class that runs it, `ZeroG` the stored log and what
becomes of it when several writers share it.

**The auto-bidder.** `EventLogs` has the decoders, the encoding they read and the block cursor; `Bidder` the loop and what
becomes of its bids in the contract.

## Findings

- The auction keeps no deposit per job. With two jobs open at once the first settlement moves both deposits:
  `SettlementTheorems.OverlapMovesBothDeposits` gives the run, `OwnDepositExactly` says exactly when it cannot happen.
- A session opened by `closeAuction` has the auction as its user. The auction cannot receive ETH and never stops a session,
  so the remainder can only be streamed to the provider; slashing such a session reverts while money is left in it.
  `StreamTheorems.AwardedSessionFate` has the exact conditions, `AuctionSessionReachable` the run that gets there.
- If elapsed time times rate overflows, a session can be neither drained nor stopped by its user, ever. Only
  `slashProvider`, which does not multiply, still ends it: `StreamTheorems.OverflowLocksStream` and `OverflowReachable`.
- A provider that refuses its instalment stops the user from stopping: `stopSession` pays the provider first and reverts if
  that fails. `CompletionTheorems.StopFate` says exactly when a stop goes through, `StreamTheorems.StopNeedsProvider` shows
  it on a reachable session.
- Below 3600 wei an hour the rate is rounded up to one wei a second, so an hour costs more than the price that was bid, or
  than the ceiling. From 3600 on it never does.
- "advance past the last seen block to avoid re-processing" (backend/internal/chain/auction.go line 211) does not hold in
  the cursor's own block: its logs come back on every poll until a log above them is found. The contract's duplicate check
  makes that harmless.
- A log with a malformed block number but readable topics and data makes the poller read through a nil pointer:
  `Cursor.CrashesExactly` has the exact condition, `LostBlockCrashes` the logs.
- docs/implementation.md (lines 299-308) has the action hash over undelimited fields with a nanosecond timestamp. The code
  separates the fields with bars and prints whole seconds, and the model follows the code: two actions that differ only
  below the second have the same hash.
- The comment on `Append` says "updated atomically"; the code reads, extends and writes back with nothing in between to
  stop a second writer: `LogWriters.NothingLost` says exactly when entries survive, `SecondWriterWins` shows one lost.

## Model

| member | source | states |
|---|---|---|
| ChainTheorems.ReachableInv | contracts/contracts/DeploymentEscrow.sol:104-315 | After every run of transactions from deployment, with any re-entrant behaviour of whoever is paid: escrow balance equals open deposits plus sessions' remaining balances plus fees, registry balance equals the stakes, auction balance equals the deposits posted since the last settlement; no guard is held; every session, deposit, stake and job agrees with an independent ledger replayed from the events |
| ChainTheorems.CallPointsSolvent | contracts/contracts/DeploymentEscrow.sol:131-132 | At every point where outside code runs, at any depth of re-entry, the escrow holds at least what it owes, the registry and the auction hold exactly what they owe, and all ledgers still agree with storage |
| ChainTheorems.RunKeepsTotal | contracts/contracts/JobAuction.sol:155-158 | No run creates or destroys ETH over all wallets and contracts |
| ChainTheorems.GuardsHold | contracts/contracts/DeploymentEscrow.sol:104-104 | While a contract waits for a payment to return, nothing the receiver does can move a session, a fee, a stake, a job or that contract's balance; only dispute, bids and the setters run |
| ChainTheorems.RunGrows | contracts/contracts/DeploymentEscrow.sol:104-315 | Over every run storage only moves forward: logs are extended, ids keep their terms, final states stay final, bids are only added while a job is open and its window has not closed |
| ChainTheorems.ClosedBookIsFinal | contracts/contracts/JobAuction.sol:166-170 | Once a job's window has closed its bid list is the same after every further run |
| ChainTheorems.DepositsAreFinal | contracts/contracts/DeploymentEscrow.sol:104-183 | Deposit ids are never reused, terms never change, and a released or refunded deposit stays exactly as it is through every run |
| Guarantee.StepSound | contracts/contracts/DeploymentEscrow.sol:121-133 | One transaction with every possible reaction of the receivers, by induction over nested transactions, keeps the relation from which the run results follow |
| Guarantee.ReactSound | contracts/contracts/DeploymentEscrow.sol:209-210 | The same for whatever a receiver does before its payment returns |
| Guarantee.WaitingThen | contracts/contracts/DeploymentEscrow.sol:238-247 | What an interrupted call relies on survives anything the receiver does |
| Guarantee.SlashBegins | contracts/contracts/DeploymentEscrow.sol:257-271 | slashProvider, whether the registry slashes, refuses, or fails later and is swallowed |
| Guarantee.OpenSessionSound | contracts/contracts/JobAuction.sol:206-228 | closeAuction's nested startSession keeps both contracts' books |
| EscrowSound.BeginSound | contracts/contracts/DeploymentEscrow.sol:104-293 | Every escrow function, from any storage: obligations change by exactly the value received less what it pays out and still owes; per-id ledgers, which check payees too, stay in agreement; it pays exactly the address and amount its events announce, in order, and sets aside exactly what they announce and it has yet to pay; fees go to the owner, and the provider slashed is the session's |
| EscrowSound.ResumeSound | contracts/contracts/DeploymentEscrow.sol:239-247 | The part of a function after its external call does the same, payees included |
| EscrowSound.DripOnSchedule | contracts/contracts/DeploymentEscrow.sol:297-304 | What one drip owes is exactly the gap between an ideal stream at this time and what has been paid so far |
| EscrowSound.ScheduleStep | contracts/contracts/DeploymentEscrow.sol:299-304 | Capping each instalment by the remaining balance composes: min(escrowed, rate times total time) |
| EscrowSound.DripAccount | contracts/contracts/DeploymentEscrow.sol:306-310 | Fee rounding loses less than one wei a drip against 10 percent of gross |
| StreamTheorems.DripIsPathIndependent | contracts/contracts/DeploymentEscrow.sol:213-229 | After a completed drip, in any reachable state and whatever earlier drips there were, gross paid is min(escrowed, rate times time since start), pendingPayment had predicted the amount, and the ETH sent is exactly the provider's nine tenths of it |
| StreamTheorems.StopRefundsRemainder | contracts/contracts/DeploymentEscrow.sol:232-248 | A completed stopSession at t leaves gross paid at the ideal stream's value for t; the ETH it has sent is exactly the provider's share of that, then escrowed minus gross to its caller, who is the session's user |
| StreamTheorems.OverflowLocksStream | contracts/contracts/DeploymentEscrow.sol:302-302 | Once seconds since the last payment times the rate exceed 2^256 - 1, pendingPayment, drips and the user's stop revert, then and at every later time |
| StreamTheorems.OverflowReachable | contracts/contracts/DeploymentEscrow.sol:232-302 | From every deployment: a session at the highest rate is, from two seconds on, beyond drips and stop, while a slash by the owner goes through and sends its user all that is left |
| StreamTheorems.StopNeedsProvider | contracts/contracts/DeploymentEscrow.sol:238-314 | Without overflow, at one wei a second: the user's stop goes through if and only if the provider takes its instalment and the user the rest |
| CompletionTheorems.StopFate | contracts/contracts/DeploymentEscrow.sol:232-248 | In every reachable state stopSession completes if and only if a wallet user calls it on its own active session, seconds since the last payment times the rate fit 256 bits, the provider is no contract and accepts if that comes to anything, and the user accepts if it does not use up the balance |
| CompletionTheorems.SlashFate | contracts/contracts/DeploymentEscrow.sol:251-272 | slashProvider completes, overflow or not and whatever the registry does, if and only if an authority calls it on an active session and nothing is left or its user, no contract, accepts |
| CompletionTheorems.NeverShort | contracts/contracts/DeploymentEscrow.sol:104-315 | In every reachable state, and in every state outside code is shown at any depth, the payment any call comes to is covered by the paying contract's balance, the second payment too; and no call makes a third |
| CompletionTheorems.RefundFate | contracts/contracts/DeploymentEscrow.sol:121-133 | refund completes if and only if the depositor of a pending deposit calls it, at least 24 hours after depositing, and accepts; isLockupExpired says exactly that of the time |
| CompletionTheorems.ReleaseFate | contracts/contracts/DeploymentEscrow.sol:137-151 | release completes if and only if an authority calls it on a pending deposit whose provider, no contract, accepts; no arithmetic ever stops it |
| CompletionTheorems.ResolveFate | contracts/contracts/DeploymentEscrow.sol:164-183 | resolveDispute completes if and only if the owner calls it on a disputed deposit and the party it pays, no contract, accepts |
| CompletionTheorems.StartSessionFate | contracts/contracts/DeploymentEscrow.sol:191-211 | startSession completes if and only if it comes with a payment, a rate and a fresh id, and the provider, no contract, accepts |
| CompletionTheorems.DripFate | contracts/contracts/DeploymentEscrow.sol:214-219 | releasePayment completes if and only if the session is active, seconds times rate fit 256 bits, and the provider, no contract, accepts what there is |
| CompletionTheorems.ProofFate | contracts/contracts/DeploymentEscrow.sol:222-229 | submitProof completes exactly when releasePayment would, and the proof authority or the owner sends it |
| CompletionTheorems.PendingIsEarned | contracts/contracts/DeploymentEscrow.sol:325-330 | In every reachable state pendingPayment of an active session is min(seconds since the last payment times rate, remaining balance) if that product is at most 2^256 - 1, and reverts otherwise; of any other id it is 0 |
| CompletionTheorems.UnstakeFate | contracts/contracts/ProviderRegistry.sol:114-130 | unstake completes if and only if the amount is positive, within the caller's stake, and the caller accepts |
| CompletionTheorems.CancelFate | contracts/contracts/JobAuction.sol:145-159 | cancelJob completes if and only if the user of an open job calls it, no bid waits in an open window, and it accepts |
| CompletionTheorems.CloseFate | contracts/contracts/JobAuction.sol:189-229 | closeAuction completes if and only if the open job's window has closed, there is a winner or a fallback that is no contract and accepts, the auction holds a deposit, and no session has the job's id yet |
| StreamTheorems.SessionConserved | contracts/contracts/DeploymentEscrow.sol:196-211 | deposit = upfront + net + fees + refund + remaining in every reachable state; with k drips of gross G and fees F, 0 <= G - 10F <= 9k |
| StreamTheorems.ContractUserNeverRefunded | contracts/contracts/DeploymentEscrow.sol:199-206 | In every reachable state a session whose user is a contract has refunded nothing: its deposit is upfront, net, fees and what is still there |
| StreamTheorems.AwardedSessionFate | contracts/contracts/DeploymentEscrow.sol:232-272 | The session of an awarded job: no stop ever changes anything, a slash completes if and only if an authority calls it while it is active and empty, and nothing has been refunded |
| StreamTheorems.AuctionSessionReachable | contracts/contracts/JobAuction.sol:189-207 | From every deployment with a fallback: post, wait out the window and close gives an awarded job whose session holds four fifths of the deposit |
| StreamTheorems.PaymentKeepsSessions | contracts/contracts/DeploymentEscrow.sol:238-241 | stopSession's second half finds the sessions as its first half left them, although the provider's code ran in between |
| SettlementTheorems.DepositPaidAtMostOnce | contracts/contracts/DeploymentEscrow.sol:121-183 | Over every run everything that has left the escrow is what its events announce, and for each deposit they announce one payment at most: the whole to the depositor if it is Refunded, all but a tenth to its provider if it is Released, nothing otherwise |
| SettlementTheorems.RefundWaitsForLockup | contracts/contracts/DeploymentEscrow.sol:126-132 | Every refund in the log of a reachable state was of the full amount, after a dispute or at least 24 hours after the deposit, and the depositor got the ETH, right after what had been sent before |
| AttemptTheorems.EndedByRight | contracts/contracts/DeploymentEscrow.sol:104-315 | For any fact about storage that transactions without a certain right leave alone: over any run, through any depth of calls back, if the fact has ceased to hold then somebody with the right tried while it still held |
| WhoTheorems.MovedByEntitled | contracts/contracts/DeploymentEscrow.sol:121-183 | Over any run, if a deposit's record has changed, some transaction at some depth was sent, while the record was still unchanged, by somebody entitled to: the owner resolving a dispute; the release authority or the owner releasing or disputing a pending deposit; its user taking it back after 24 hours |
| WhoTheorems.DisputeWaitsForOwner | contracts/contracts/DeploymentEscrow.sol:164-183 | Over any run in which no owner of the moment sends resolveDispute for it, at any depth, a disputed deposit stays as it is |
| WhoTheorems.PendingWaits | contracts/contracts/DeploymentEscrow.sol:121-161 | Over any run in which nobody entitled sends release, dispute or refund for it, at any depth, a pending deposit stays as it is |
| WhoTheorems.DrawnByEntitled | contracts/contracts/DeploymentEscrow.sol:213-272 | The same for a session's record: changed only while it runs, by a releasePayment, by a proof or a slash of an authority, or by its user's stop |
| WhoTheorems.AppointedByOwner | contracts/contracts/DeploymentEscrow.sol:285-293 | The same for the three owners, the three authorities and the fallback provider: changed only by that contract's owner through a setter of that contract |
| WhoTheorems.EditedByEntitled | contracts/contracts/ProviderRegistry.sol:90-187 | The same for a provider's record: changed only by the provider's own calls, by the registry's authority or owner slashing it or counting a job, or by the escrow's authorities slashing one of its sessions |
| WhoTheorems.SettledByEntitled | contracts/contracts/JobAuction.sol:145-229 | The same for a job's record: changed only while it is open, by its user cancelling or by anybody closing it more than 30 seconds after it was posted |
| Payments.StepTraced | contracts/contracts/DeploymentEscrow.sol:121-133 | One transaction, with every reaction: each contract's payments keep up with its announcements, in order and payee by payee, a contract whose guard is held neither pays nor announces, the escrow pays no contract, and every awarded job keeps its session |
| PaymentTheorems.PaidAsAnnounced | contracts/contracts/DeploymentEscrow.sol:104-315 | Over every run what has left each of the three contracts is exactly what its events announced: the same addresses and amounts in the same order; the escrow has never paid a contract |
| PaymentTheorems.AwardHasItsSession | contracts/contracts/JobAuction.sol:189-229 | In every reachable state an awarded job has a session under its id, in the auction's name, with the job's winning provider and rate, opened with a fifth paid out |
| PaymentTheorems.CompletedEscrowCallPays | contracts/contracts/DeploymentEscrow.sol:121-283 | Every completed escrow call has sent exactly what storage and the views said was due before it, to whom, in order, and nothing else, whatever receivers did in between |
| PaymentTheorems.CompletedRegistryCallPays | contracts/contracts/ProviderRegistry.sol:114-169 | Every completed registry call: unstake sends its caller the amount, a slash sends the owner half the stake, others send nothing |
| PaymentTheorems.SessionAsAsked | contracts/contracts/DeploymentEscrow.sol:191-211 | A completed startSession has recorded its caller's terms under a fresh id and sent that provider a fifth |
| CallTheorems.DepositFate | contracts/contracts/DeploymentEscrow.sol:104-118 | deposit goes through if and only if it comes with ETH and a fresh id; then storage and log gain exactly the caller's terms and nothing else changes |
| CallTheorems.DisputeFate | contracts/contracts/DeploymentEscrow.sol:154-161 | dispute goes through if and only if an authority names a pending deposit; then only that status changes, with its event |
| CallTheorems.EscrowAuthorities | contracts/contracts/DeploymentEscrow.sol:285-293 | Each authority setter goes through for the owner alone and changes that authority alone, with its event |
| CallTheorems.EscrowOwnership | contracts/contracts/DeploymentEscrow.sol:95-95 | Ownership is handed on, never to address zero, or given up by the owner alone, and nothing else changes |
| CallTheorems.WithdrawFate | contracts/contracts/DeploymentEscrow.sol:276-283 | withdrawFees completes if and only if the owner calls it, there are fees and it accepts; it is then sent exactly those, and none are left |
| CallTheorems.SlashReachesRegistry | contracts/contracts/DeploymentEscrow.sol:257-271 | A completed slashProvider has had the registry halve the session's provider's stake, with its event, if the escrow is its authority or owner, the provider registered and the registry's owner accepts; otherwise the registry is as it was; for a user that makes no calls of its own |
| PaymentTheorems.DepositAsAsked | contracts/contracts/DeploymentEscrow.sol:104-118 | A completed deposit has recorded its caller's terms under a fresh id and sent nothing |
| RegistrySound.BeginSound | contracts/contracts/ProviderRegistry.sol:70-187 | Every registry function keeps: stakes sum to the balance less what is being paid, active implies the minimum stake, the list is duplicate-free and is exactly the set of records, storage agrees with a replay of the events; an unstake pays its caller and a slash the owner, as their events say |
| RegistrySound.SlashesHalve | contracts/contracts/ProviderRegistry.sol:157-158 | k slashes with no staking between leave ceil(s / 2^k) |
| SettlementTheorems.SlashesHalveStake | contracts/contracts/ProviderRegistry.sol:152-169 | The same over any run of transactions and re-entrant calls in which the provider's own stake moves do not occur |
| CallTheorems.RegisterFate | contracts/contracts/ProviderRegistry.sol:70-87 | register goes through if and only if a new wallet brings 0.01 ether and an endpoint; the record, the list and the log gain exactly what it asked for and sent |
| CallTheorems.UpdateFate | contracts/contracts/ProviderRegistry.sol:90-96 | update goes through if and only if a registered wallet names an endpoint; its endpoint and price become exactly those, with its event, and nothing else changes |
| CallTheorems.StakeFate | contracts/contracts/ProviderRegistry.sol:101-110 | stake goes through for a registered wallet with ETH; its stake grows by that, and it is active if it was or if that reaches 0.01 ether, with the events |
| CallTheorems.UnstakeWrites | contracts/contracts/ProviderRegistry.sol:114-127 | What unstake has written when it pays: the stake less the amount, inactive below 0.01 ether, the events, and nothing else |
| CallTheorems.UnstakeMoves | contracts/contracts/ProviderRegistry.sol:114-130 | A completed unstake has taken the amount off the caller's stake and off no other, whatever the caller did on being paid |
| CallTheorems.ActivityFate | contracts/contracts/ProviderRegistry.sol:134-145 | deactivate goes through for any registered wallet and reactivate for one with 0.01 ether staked; each sets that flag alone, with its event |
| CallTheorems.StakeSlashFate | contracts/contracts/ProviderRegistry.sol:152-169 | slash completes if and only if the authority or the owner names a registered provider and the owner, no contract, accepts |
| CallTheorems.SlashWrites | contracts/contracts/ProviderRegistry.sol:152-166 | What slash has written when it pays: half the stake rounded up, one more slash, inactive below 0.01 ether, the events, and nothing else |
| CallTheorems.SlashMoves | contracts/contracts/ProviderRegistry.sol:152-169 | A completed slash has taken half the stake off the provider it names and off no other |
| CallTheorems.JobCountFate | contracts/contracts/ProviderRegistry.sol:175-180 | recordJobCompleted goes through for the authority or the owner and raises that provider's counter by one, with its event |
| CallTheorems.RegistrySettings | contracts/contracts/ProviderRegistry.sol:184-187 | Setting the slash authority and handing on or giving up ownership go through for the owner alone and change that role alone |
| SettlementTheorems.RegistryBooks | contracts/contracts/ProviderRegistry.sol:70-169 | In every reachable state: balance is the sum of stakes, an active provider is staked, the list has each registered wallet exactly once |
| AuctionSound.ScanEqualsLookup | contracts/contracts/JobAuction.sol:262-271 | _requireSufficientStake over getActiveProviders succeeds exactly when the wallet's own record is active |
| AuctionSound.BeginSound | contracts/contracts/JobAuction.sol:118-236 | Every auction function keeps the bid book, the per-job record and the pooled balance; a payment is the one announced; an award forwards the pool with the provider and rate it has stored for that job, and awards no other |
| AuctionSound.BidKeepsBook | contracts/contracts/JobAuction.sol:166-183 | A stored bid is within window and ceiling, times stay in order, one bid a provider |
| AuctionSound.WinnerIsFirstBest | contracts/contracts/JobAuction.sol:211-218 | closeAuction's loop ends with the first bid that no other beats by price and then time |
| AuctionSound.LowestIsFirstCheapest | contracts/contracts/JobAuction.sol:247-250 | lowestBid's loop ends with the first cheapest bid |
| AuctionSound.WinnerIsLowest | contracts/contracts/JobAuction.sol:210-252 | With times in order the two different comparisons name the same bid |
| AuctionSound.RateBounds | contracts/contracts/JobAuction.sol:220-221 | p - 3600 < 3600 * rate <= p when p >= 3600; the upper bound holds if and only if p >= 3600 |
| AuctionSound.PostedOnce | contracts/contracts/JobAuction.sol:129-141 | A job is posted at most once, and what its event announced stays true of it |
| AuctionSound.AwardRespectsRecord | contracts/contracts/JobAuction.sol:200-228 | Every award announces a price within the ceiling and the rate that goes with it; every fallback award the ceiling's rate |
| AuctionSound.WithoutOverlap | contracts/contracts/JobAuction.sol:155-155 | If no job was ever posted while another was open, the pooled balance is the open job's own deposit |
| AuctionSound.AloneInPool | contracts/contracts/JobAuction.sol:195-195 | The pool is worth a job's deposit if and only if that job is alone in it |
| SettlementTheorems.AwardIsLowestBid | contracts/contracts/JobAuction.sol:210-252 | In every reachable state an awarded job with bids names the first lowest-price bid, which lowestBid still returns, with its rate, within the ceiling |
| SettlementTheorems.FallbackRespectsCeiling | contracts/contracts/JobAuction.sol:198-206 | 3600 times the fallback rate is within the ceiling if and only if the ceiling is at least 3600 |
| SettlementTheorems.BidderIsStaked | contracts/contracts/JobAuction.sol:173-180 | A bid goes in only for an active provider with the minimum stake that had none on the job, and is appended with the block time |
| CallTheorems.PostFate | contracts/contracts/JobAuction.sol:118-142 | postJob goes through if and only if it comes with a deposit, a duration, a fresh id and a time within range; the job and the event hold exactly the caller's terms, the value sent and a deadline 30 seconds on; nothing else changes and nothing is sent |
| CallTheorems.BidStored | contracts/contracts/JobAuction.sol:166-183 | submitBid goes through if and only if the job is open, 30 seconds have not passed, the price is within the ceiling and the caller is active and has not bid; the bid is appended at its price and time, with its event, and nothing else changes |
| CallTheorems.AuctionSettings | contracts/contracts/JobAuction.sol:233-236 | Setting the fallback and handing on or giving up ownership go through for the owner alone and change that role alone |
| SettlementTheorems.SecondBidIsIgnored | contracts/contracts/JobAuction.sol:171-171 | A second submission for the job by the same wallet, at any later time, changes nothing |
| SettlementTheorems.CancelMovesBalance | contracts/contracts/JobAuction.sol:155-158 | A completed cancelJob has sent the auction's whole balance to the job's user, who called it, and nothing else |
| SettlementTheorems.CloseMovesBalance | contracts/contracts/JobAuction.sol:195-229 | A completed closeAuction has sent the auction's whole balance to the escrow and a fifth of it on to the winner, and opened a session on it in the auction's name with the winner, the lowest bid's provider or the fallback, at the winning rate; nothing else is sent and no other session changes |
| SettlementTheorems.SettlementMovesOwnDeposit | contracts/contracts/JobAuction.sol:145-229 | In a run in which jobs never overlap, a completed cancel or close moves exactly the deposit of that job's own posting: to its user, or into the winner's session |
| SettlementTheorems.OwnDepositExactly | contracts/contracts/JobAuction.sol:155-195 | For a job still in the pool, that balance is its own deposit if and only if no other deposit is in the pool; in runs without overlapping jobs always |
| SettlementTheorems.OverlapMovesBothDeposits | contracts/contracts/JobAuction.sol:155-158 | With overlap it fails: from every deployment, for any two funded users, the first to cancel takes both deposits and the other job stays open with nothing behind it |
| Contracts.Chain.Execute | contracts/contracts/DeploymentEscrow.sol:121-133 | A transaction run on the objects ends in exactly the machine's state, or in the state before it |
| Contracts.Chain.Send | contracts/contracts/DeploymentEscrow.sol:131-132 | call{value}: the ETH moves, the receiver's code runs, failure is reported |
| Contracts.DeploymentEscrow.constructor | contracts/contracts/DeploymentEscrow.sol:95-99 | Empty storage and the given authorities |
| Contracts.DeploymentEscrow.Deposit | contracts/contracts/DeploymentEscrow.sol:104-118 | deposit, updating storage in place around its external calls: same outcome and same final state of the whole chain as the machine |
| Contracts.DeploymentEscrow.Refund | contracts/contracts/DeploymentEscrow.sol:121-133 | refund, updating storage in place around its external calls: same outcome and same final state of the whole chain as the machine |
| Contracts.DeploymentEscrow.Release | contracts/contracts/DeploymentEscrow.sol:137-151 | release, updating storage in place around its external calls: same outcome and same final state of the whole chain as the machine |
| Contracts.DeploymentEscrow.Dispute | contracts/contracts/DeploymentEscrow.sol:154-161 | dispute, updating storage in place around its external calls: same outcome and same final state of the whole chain as the machine |
| Contracts.DeploymentEscrow.ResolveDispute | contracts/contracts/DeploymentEscrow.sol:164-183 | resolveDispute, updating storage in place around its external calls: same outcome and same final state of the whole chain as the machine |
| Contracts.DeploymentEscrow.StartSession | contracts/contracts/DeploymentEscrow.sol:191-211 | startSession, updating storage in place around its external calls: same outcome and same final state of the whole chain as the machine |
| Contracts.DeploymentEscrow.Accrue | contracts/contracts/DeploymentEscrow.sol:297-312 | _releaseAccrued up to its payment, updating storage in place around its external calls: same outcome and same final state of the whole chain as the machine |
| Contracts.DeploymentEscrow.ReleaseAccrued | contracts/contracts/DeploymentEscrow.sol:297-315 | _releaseAccrued with its payment, updating storage in place around its external calls: same outcome and same final state of the whole chain as the machine |
| Contracts.DeploymentEscrow.ReleasePayment | contracts/contracts/DeploymentEscrow.sol:214-219 | releasePayment, updating storage in place around its external calls: same outcome and same final state of the whole chain as the machine |
| Contracts.DeploymentEscrow.SubmitProof | contracts/contracts/DeploymentEscrow.sol:222-229 | submitProof, updating storage in place around its external calls: same outcome and same final state of the whole chain as the machine |
| Contracts.DeploymentEscrow.StopSession | contracts/contracts/DeploymentEscrow.sol:232-248 | stopSession, both payments, updating storage in place around its external calls: same outcome and same final state of the whole chain as the machine |
| Contracts.DeploymentEscrow.SlashProvider | contracts/contracts/DeploymentEscrow.sol:251-272 | slashProvider with its try and catch, updating storage in place around its external calls: same outcome and same final state of the whole chain as the machine |
| Contracts.DeploymentEscrow.WithdrawFees | contracts/contracts/DeploymentEscrow.sol:276-283 | withdrawFees, updating storage in place around its external calls: same outcome and same final state of the whole chain as the machine |
| Contracts.DeploymentEscrow.SetReleaseAuthority | contracts/contracts/DeploymentEscrow.sol:285-288 | setReleaseAuthority, updating storage in place around its external calls: same outcome and same final state of the whole chain as the machine |
| Contracts.DeploymentEscrow.SetProofAuthority | contracts/contracts/DeploymentEscrow.sol:290-293 | setProofAuthority, updating storage in place around its external calls: same outcome and same final state of the whole chain as the machine |
| Contracts.ProviderRegistry.constructor | contracts/contracts/ProviderRegistry.sol:61-63 | Empty storage and the given authorities |
| Contracts.ProviderRegistry.Register | contracts/contracts/ProviderRegistry.sol:70-87 | register: same outcome and final state as the machine |
| Contracts.ProviderRegistry.Update | contracts/contracts/ProviderRegistry.sol:90-96 | update: same outcome and final state as the machine |
| Contracts.ProviderRegistry.Stake | contracts/contracts/ProviderRegistry.sol:101-110 | stake: same outcome and final state as the machine |
| Contracts.ProviderRegistry.Unstake | contracts/contracts/ProviderRegistry.sol:114-130 | unstake: same outcome and final state as the machine |
| Contracts.ProviderRegistry.Deactivate | contracts/contracts/ProviderRegistry.sol:134-138 | deactivate: same outcome and final state as the machine |
| Contracts.ProviderRegistry.Reactivate | contracts/contracts/ProviderRegistry.sol:140-145 | reactivate: same outcome and final state as the machine |
| Contracts.ProviderRegistry.Slash | contracts/contracts/ProviderRegistry.sol:152-169 | slash: same outcome and final state as the machine |
| Contracts.ProviderRegistry.RecordJobCompleted | contracts/contracts/ProviderRegistry.sol:175-180 | recordJobCompleted: same outcome and final state as the machine |
| Contracts.ProviderRegistry.SetSlashAuthority | contracts/contracts/ProviderRegistry.sol:184-187 | setSlashAuthority: same outcome and final state as the machine |
| Contracts.ProviderRegistry.GetActiveProviders | contracts/contracts/ProviderRegistry.sol:192-205 | The two passes fill an array of exactly the counted size, in bounds, with the active records in list order |
| Contracts.JobAuction.constructor | contracts/contracts/JobAuction.sol:99-108 | Empty storage, owner and fallback as given |
| Contracts.JobAuction.PostJob | contracts/contracts/JobAuction.sol:118-142 | postJob: same outcome and final state as the machine |
| Contracts.JobAuction.CancelJob | contracts/contracts/JobAuction.sol:145-159 | cancelJob: same outcome and final state as the machine |
| Contracts.JobAuction.SubmitBid | contracts/contracts/JobAuction.sol:166-183 | submitBid: same outcome and final state as the machine |
| Contracts.JobAuction.CloseAuction | contracts/contracts/JobAuction.sol:189-229 | closeAuction with the nested startSession: same outcome and final state as the machine |
| Contracts.JobAuction.SetFallbackProvider | contracts/contracts/JobAuction.sol:233-236 | setFallbackProvider: same outcome and final state as the machine |
| Contracts.JobAuction.HasSufficientStake | contracts/contracts/JobAuction.sol:262-271 | The scanning loop decides as the specification does |
| Contracts.JobAuction.PickWinner | contracts/contracts/JobAuction.sol:211-218 | The loop computes the specified winner |
| Contracts.JobAuction.LowestBid | contracts/contracts/JobAuction.sol:244-252 | The view computes the specified lowest bid, or nothing |
| Merkle.ComputeRoot | backend/internal/agent/session.go:710-723 | The loop-and-recursion root, duplicating the last node of odd levels |
| Merkle.BuildLevel | backend/internal/agent/session.go:717-721 | One level: node i is the hash of nodes 2i and 2i+1 |
| Merkle.ComputeProof | backend/internal/agent/session.go:739-762 | The separate walk that collects siblings |
| Merkle.ProofFolds | backend/internal/agent/session.go:710-762 | For every list and index, folding the generated proof from the leaf by its labels gives the root |
| Merkle.ProofLength | backend/internal/agent/session.go:739-762 | Every proof has as many links as the tree has levels |
| Merkle.HeightIsCeilLog2 | backend/internal/agent/session.go:710-723 | The number of levels is ceil(log2 n) |
| Merkle.BottomUpIsTopDown | backend/internal/agent/session.go:710-723 | The root built bottom-up equals the top-down root of the perfect tree over the leaves padded by repeating the last block of each odd level |
| Merkle.OddListSharesRoot | backend/internal/agent/session.go:714-716 | An odd list longer than 1 has the same root as itself with its last leaf repeated, so length has to be fixed for binding |
| Merkle.PathStartsAtLeaf | backend/internal/agent/session.go:710-762 | A path of the tree's height that folds to the root starts at the leaf its labels name, unless two hashed pairs collide |
| Merkle.ProofSound | backend/internal/agent/session.go:710-762 | The same in terms of the padded leaf list: its start is the padded leaf at the labels' position, and one of the leaves |
| Merkle.RootBinds | backend/internal/agent/session.go:710-723 | Lists of one length with one root are equal, unless two hashed pairs collide |
| Hex.ParseInto | backend/internal/agent/session.go:764-776 | hexToHash fills a 32-byte array with the parse of each pair of characters |
| Hex.ParsePrinted | backend/internal/agent/session.go:764-776 | Parsing a printed hash gives it back, with or without the sha256: prefix |
| JsonText.EncodeReads | backend/internal/agent/session.go:688-689 | Every encoded JSON value opens and closes its strings and has no bar outside them (section 7 of RFC 8259) |
| JsonText.ParityDiffers | backend/internal/agent/session.go:690-691 | A well-quoted text read from inside a string does not end well quoted |
| Actions.LastFieldUnique | backend/internal/agent/session.go:690-691 | The last field of a bar-separated text is determined, whatever stands before it |
| Actions.PreimageDetermines | backend/internal/agent/session.go:687-694 | Two preimages are equal if and only if index, tool, input value, result value and timestamp text agree, for all tool names and JSON values; the error is not covered |
| Actions.FormatDetermines | backend/internal/agent/session.go:690-691 | Two timestamps of four-digit years are written alike if and only if they agree to the second |
| JsonValues.EncodeDetermines | backend/internal/agent/session.go:688-689 | JSON text determines the value: no two values are encoded alike, whatever characters their strings hold |
| JsonValues.EncodeUnique | backend/internal/agent/session.go:688-689 | The same in front of anything that may follow a value: encoded values are told apart by what they start with |
| Actions.TwoDigits | backend/internal/agent/session.go:690-691 | The timestamp in the preimage is written to the second, digit by digit |
| Actions.ObjectReads | backend/internal/agent/session.go:688-689 | An encoded object with an escaped string, character by character |
| Audit.SmallRoots | backend/internal/agent/session.go:697-723 | The roots of no, one, two and three actions written out over SHA-256: of nothing, of the one hash, of the two in order, and of both pairs with the odd one doubled |
| Audit.ComputeMerkleRoot | backend/internal/agent/session.go:697-708 | computeMerkleRoot, the empty log included |
| Audit.ParseHashes | backend/internal/agent/session.go:701-705 | The leaves are the parsed hashes in order |
| Audit.ComputeMerkleProof | backend/internal/agent/session.go:727-737 | ComputeMerkleProof, nothing for an index out of range |
| Audit.AuditEntries | backend/internal/api/handlers.go:552-555 | One entry an action, each with the action's own proof |
| Audit.AuditChecks | backend/internal/api/handlers.go:552-561 | Every entry is its action with a proof of ceil(log2 n) links that folds to the reported root, through every print and parse |
| Audit.EntryChecks | backend/internal/api/handlers.go:552-561 | Every entry's proof has ceil(log2 n) links and folds from its action's hash to the reported root, through every print and parse |
| Audit.RootDeterminesLog | backend/internal/agent/session.go:687-723 | Equal roots for two logs of one length mean equal index, tool, input, result and timestamp text entry by entry, unless hashes collide |
| Sessions.Session.constructor | backend/internal/agent/session.go:124-156 | A running session without actions or root |
| Sessions.Session.Run | backend/internal/agent/session.go:173-292 | The loop, updating the session's fields, ends in exactly the step machine's state for every sequence of replies and tool outcomes |
| Sessions.Session.ExecuteToolAndRecord | backend/internal/agent/session.go:651-675 | One more action at the end, stored if a store is configured |
| Sessions.Session.BootstrapInitialPlan | backend/internal/agent/session.go:631-649 | Analyse, select, confirm, with its three ways to fail |
| Sessions.Session.ExecuteToolCalls | backend/internal/agent/session.go:228-276 | The inner loop over one reply's tool calls |
| Sessions.Session.WithoutTools | backend/internal/agent/session.go:198-219 | The branch for replies without tool calls |
| AgentSound.RunBounds | backend/internal/agent/session.go:173-292 | Every run: at most 3T + 6 model calls; the plan bootstrapped at most once and before any tool turn; each conversation sent follows the protocol; actions numbered in order; the root set, to the root of all actions, exactly on completion; the store an in-order part of the actions |
| AgentSound.CompleteOk | backend/internal/agent/session.go:173-292 | The invariant holds at the end of every run, the log only grows, and the state has left running |
| AgentSound.TurnOk | backend/internal/agent/session.go:181-277 | Every turn keeps the invariant and extends the log |
| AgentRuns.RunFate | backend/internal/agent/session.go:173-292 | How every run ends, read off the replies alone: it completes, at the n-th call, if and only if no call fails before and replies n-2 to n are the first three in a row without tools, counted from the start, or, where those are the very first three and there is a URL, from after them, given that the bootstrap made a plan; it fails if and only if the bootstrap makes none, or a call fails or the context ends before any of that |
| AgentRuns.RunLeaves | backend/internal/agent/session.go:223-276 | What every run leaves, read off the replies alone: one action a tool run, in order, with its tool, input, result or error, time and hash, the bootstrap's runs included; and one conversation a call, exactly the one the replies before had led to |
| AgentRuns.NothingForNothing | backend/internal/agent/session.go:197-219 | With a URL in the prompt no run completes without an action |
| AgentRuns.ToolsThenTalk | backend/internal/agent/session.go:197-281 | A run that uses tools once and then answers three times without completes with its fourth call |
| AgentRuns.AuditTellsRun | backend/internal/api/handlers.go:552-561 | Every entry of a completed run's audit says what the run did at that point, and folds to the root |
| AgentSound.RunToolsLog | backend/internal/agent/session.go:228-262 | A tool turn adds one action a call, in order, field by field: position, tool, arguments if they are an object or null and an empty object otherwise, the returned value and no error or null and the error, the time, the hash |
| AgentSound.RunBootstrapLog | backend/internal/agent/session.go:631-675 | The bootstrap adds its analyse, select and plan actions by the same rules, as far as it gets, and succeeds exactly when the analysis returned a plan and the planning tool did not fail |
| AgentSound.RunToolsMessages | backend/internal/agent/session.go:264-276 | A tool turn adds one result a call, in order, with that call's id and its result as JSON, or the error |
| AgentSound.RecordOk | backend/internal/agent/session.go:237-262 | Recording keeps numbering, hashes and the store's order |
| AgentSound.RunBootstrapRecords | backend/internal/agent/session.go:631-675 | The bootstrap path records by the same rules |
| AgentSound.StoredLogIsActionLog | backend/internal/agent/session.go:255-262 | When no append fails the stored log is the action log |
| AgentSound.CompletedRunAudits | backend/internal/agent/session.go:279-281 | Every entry of a completed run's audit checks out against its root |
| ZeroG.Store.Append | backend/integrations/zerog/client.go:119-136 | Read, extend, write back: the list gains the entry or stays, according to the fault; no other key changes |
| ZeroG.Store.ReadLog | backend/integrations/zerog/client.go:139-160 | All decodable entries in order |
| ZeroG.AppendedEntries | backend/integrations/zerog/client.go:119-160 | What a reader sees after an append is what it saw before, plus the entry exactly when the write reached the store |
| ZeroG.GarbledStartsAfresh | backend/integrations/zerog/client.go:125-135 | A stored list that cannot be read is replaced by the first append that gets through |
| ZeroG.LongerSuper | backend/integrations/zerog/client.go:119-136 | A log that is an in-order part of the actions stays one when an action is added without it |
| LogWriters.NothingLost | backend/integrations/zerog/client.go:119-136 | However the gets and puts of several writers interleave, readers find every entry written, in order, if and only if no put falls between another's get and its put |
| LogWriters.SecondWriterWins | backend/integrations/zerog/client.go:119-136 | Of two appends that both read first, the first one's entry is gone |
| EventLogs.PostedRoundTrip | backend/internal/chain/auction.go:266-308 | A JobPosted log as the contract encodes it decodes field by field, slot 4 dropped |
| EventLogs.AwardedRoundTrip | backend/internal/chain/auction.go:227-264 | A JobAwarded log gives back winner, price and rate |
| EventLogs.FallbackRoundTrip | backend/internal/chain/auction.go:247-250 | A JobAwardedToFallback log gives back the rate, and 3600 times it as price |
| EventLogs.TopicsDiffer | backend/internal/chain/auction.go:231-231 | The case-insensitive topic test holds if and only if the topics are equal |
| EventLogs.SlotOfWords | backend/internal/chain/auction.go:239-245 | Slot k of encoded words is the k-th word |
| EventLogs.AddressOfWord | backend/internal/chain/auction.go:232-232 | The address is read back from its padded topic |
| Cursor.PollJobPostedEvents | backend/internal/chain/auction.go:178-216 | The loop computes the decodable postings in order and the next cursor |
| Cursor.CrashesExactly | backend/internal/chain/auction.go:200-211 | A poll crashes if and only if the answer has a log with at least two topics, an id of 32 bytes and data that decodes, whose block number does not parse |
| Cursor.LostBlockCrashes | backend/internal/chain/auction.go:296-306 | Any posting as the contract encodes it does that, anywhere in an answer, once its block number is lost |
| Cursor.NextNeverBack | backend/internal/chain/auction.go:198-215 | Whatever a node answers, the cursor goes back if and only if it is shown block 2^64 - 1 above a positive cursor, and then to 0 |
| Cursor.PollMoves | backend/internal/chain/auction.go:198-215 | A poll of a proper chain never crashes, moves exactly when it shows a log above the cursor, and passes every block shown |
| Cursor.CursorNeverDecreases | backend/internal/chain/auction.go:213-215 | Over any run of successful and failed polls the cursor never decreases |
| Cursor.NothingSkipped | backend/internal/chain/auction.go:178-216 | The first successful poll whose head has reached a log's block shows it, for every log at or after the start |
| Cursor.DeliveredEvent | backend/internal/chain/auction.go:200-211 | A shown log that decodes is among the returned events |
| Cursor.ShownAgain | backend/internal/chain/auction.go:212-215 | A shown log is shown again by a later successful poll if and only if it is in the cursor's own block and no successful poll since has found a log above it; so one above the cursor is shown once |
| Cursor.StartBlockShownTwice | backend/internal/chain/auction.go:212-215 | A lone log in the starting block is shown by two polls in a row |
| Bidder.StartProviderBidder | backend/internal/api/handlers.go:692-758 | The ticker loop: cursor, polls and bids as specified, for every sequence of answers |
| Bidder.BidOnEvents | backend/internal/api/handlers.go:720-755 | Deadline, price, ceiling, bid, event by event |
| Bidder.LookUpPrice | backend/internal/api/handlers.go:727-739 | The price of the first entry with our wallet, the ceiling otherwise |
| Bidder.PriceIsRegistered | backend/internal/api/handlers.go:727-739 | Against the registry's list that is our registered price while we are active, the ceiling otherwise |
| Bidder.BidIsAsking | backend/internal/api/handlers.go:720-749 | A posting gets a bid if and only if its deadline has not passed and what we ask is within its ceiling, and then for that: our registered price if a registry is configured, readable and has us active, the ceiling otherwise |
| Bidder.EveryBidIsAsked | backend/internal/api/handlers.go:706-755 | Over any run every bid made was for a polled job, in time, and at exactly what we asked when the bidder came to it |
| Bidder.NeverAboveCeiling | backend/internal/api/handlers.go:741-745 | Over any run, whatever nodes answer, each bid is for a job some poll returned and not above its ceiling |
| Bidder.BidderCursor | backend/internal/api/handlers.go:712-718 | The bidder's cursor over a run is the poller's |
| Bidder.NoJobMissed | backend/internal/api/handlers.go:706-755 | The first successful poll to reach a posting's block puts it before the bidder, who bids then, at what it asks, unless the deadline has passed or that is above the ceiling |
| BidderTheorems.BidFate | contracts/contracts/JobAuction.sol:166-183 | A bid for a posted job is taken if and only if it is within the posted ceiling, the posted deadline has not passed, the job is open, the wallet is an active provider and has not bid |
| BidderTheorems.BidderChecksAreTheContracts | backend/internal/api/handlers.go:721-745 | From the log alone the bidder bids exactly while the contract's window is open and what it asks is within the contract's ceiling, and bids that |
| BidderTheorems.BidIsTaken | backend/internal/api/handlers.go:720-755 | An active provider that reads the registry as it is bids its registered price on an open job it has not bid on, and does so exactly when the contract takes that bid |
| BidderTheorems.OneStoredBid | contracts/contracts/JobAuction.sol:171-180 | At most one stored bid a job and provider in every reachable state |
| BidderTheorems.DecodedAwardRespectsCeiling | backend/internal/chain/auction.go:247-256 | The price decoded from an award is within the job's ceiling, for a fallback if and only if the ceiling is at least 3600 |

## Left out

- Frontend, containers, LUKS, the repository scanner, PostgreSQL, JWT, secrets, webhooks, EAS and KeeperHub: other effects, no state modelled here.
- RPC transport, signing, gas, nonces, chain reorganisations: a transaction is given, a poll's answer is given; the cursor results assume that all logs up to the head are visible and block numbers are below 2^64 - 1.
- SHA-256 and keccak: parameters, of which only the stated freedom from collisions is assumed; `Merkle.TermsNeverCollide` shows that some hash has it.
- ETH forced into a contract without a call: balances are what the contracts themselves received and paid.
- OpenZeppelin's Ownable and ReentrancyGuard: modelled from their use here (owner checks, one guard flag a contract); the constructor's rejection of a zero owner is not modelled.
- Each contract has its own event log in the model, PaymentReleased carries the fee and the registry's Slashed the owner it pays as well, so that the ledgers and the payees can be replayed from events; a payment of zero leaves no entry in the record of transfers.
- `stateHash` in submitProof is ignored by the code and has no parameter here; bytes32 ids and evidence are natural numbers, addresses are symbolic until they go on the wire.
- getAllProviders, providerCount, getBids, isBidWindowOpen: plain reads.
- Agreement of session and job ids across components: ids are opaque.
- Model calls and tools: replies and outcomes are arbitrary inputs; the event channel of a session drops what does not fit and carries no state.
- JSON and base64 decoding libraries: a tool call's argument text comes with its decoding, a stored item is decodable or not; a list that decodes in part is treated as not decoding at all.
- JSON strings are characters: the encoder's replacement of invalid UTF-8, and its sorting of map keys, happen before a value is modelled.
- The year of a timestamp is printed with at least four digits; time zones do not occur because the code converts to UTC.
- Faults among concurrent writers of one 0G log: there every get and put succeeds.
- handleGetAudit's choice between memory and database: the actions and the root are given.
- WatchJobAwarded's waiting loop: only its decoder is modelled.
