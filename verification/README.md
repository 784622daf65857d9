# OurDAO lending contract: a Dafny model

OurDAO is a member-owned lending DAO on Soroban. Members pay a fee to join, lend the pooled treasury
to each other by weighted vote, share the interest as yield, stake for extra votes, and take their
share of the treasury when they leave. This project models the contract's core as a transition system
and proves what its entrypoints keep, step by step and over every run.

## How it is organised

- `Types`, `Arithmetic`, `Pricing`: records, checked and saturating `i128`/`u64` arithmetic, the
  digit-by-digit square root, loan quotes.
- `Storage`: the ledger, as a `State` value and as a class `Env` whose fields the entrypoints update.
- `Voting`, `Membership`, `StakingOps`, `TreasuryOps`, `Lending`, `Migration`: one module per source file.
  Each entrypoint is a method over `Env` with the source's loops and guards, proved equal to a function
  on `State` (`Follows`: success commits the specified state, an error leaves everything as it was).
- `System`: every entrypoint as an action; `Step` and `Run`; the states that initialisation leaves.
- `History`: reference bookkeeping kept beside the state and never read by it (credit every member on every
  repayment, list every ballot with its weight and every payment), with which the contract's counters,
  accumulator and tallies are compared. It holds more than the published events do.
- `Sums`, `Frames`: sums over maps; what each kind of action leaves alone.
- `Books`, `Lifecycle`, `Credit`, `Ballots`, `Withdrawals`, `Quota`, `Delegation`, `Interest`: one family of
  invariants each, kept by every step. `Reachability` puts them together; `Guarantees` states them for
  reachable states.
- `StakeLock`, `Exits`, `Contributions`, `Exposure`, `Cash`, `Commitments`, `LoanTerms`, `InnerFailures`,
  `LoanFlags`: results over runs, orders of exit, payments, commitments, loan terms, swallowed errors and flags.
- `Fields`, `RepaymentLaws`, `LoanLaws`, `LoanChanges`, `ProposalLaws`, `TreasuryLaws`, `MemberLaws`: for each
  entrypoint when it succeeds and what it changes, read off stored fields alone (balances, dates, tallies, the
  policy's numbers), without the functions the entrypoints are specified by. `Guarantees.LawsApply` shows that
  reachable states meet what the laws ask for.
- `EarlyRejection`, `Turnout`: when a rejected tally is really lost; the stakes that later ballots can carry.
- `LeaverRun`, `RejectionRun`: concrete runs from initialisation that break documented properties.

## Reading the model

- Amounts are unbounded integers except where the code checks or saturates. The build sets
  `overflow-checks`, so any other overflow traps and reverts; the model therefore allows at least the
  runs the contract allows. Ids are `u32` and ledger time is a `u64` that never decreases. A method that
  computes the square root asks that stored stakes are `i128`, which their type says.
- A token is a balance map. A transfer the payer cannot cover traps, and a trap reverts the step.
- SHA-256 and the address encoding are parameters. A hash of unbounded input cannot be injective, so the
  claims about commitments name the two concrete inputs that would have to collide.
- Stored policies satisfy `validate_policy` by type. Administration appears as one action that may set
  any valid policy, threshold, whitelist and pause flag at any moment.
- `OutsideTransfer` lets wallets change at will and the contract's own balance grow.

## What the code does not keep

Where the code and `docs/INVARIANTS.md` differ, the model follows the code.

- The cached contributions equal the scan exactly in the runs where no default slashes a borrower who has
  left (`Contributions.CacheAgreesIff`): the slash is taken from a total that no longer holds the leaver's
  contribution. The document's A2, exit shares within the treasury, then holds exactly while the treasury times
  that drift is at most what flooring keeps back (`Exits.SharesCoveredIff`, `Guarantees.SharesCovered`);
  `LeaverRun.LeaverDefaultOverpays` is a run from initialisation that breaks it. A4 names a
  `TotalContributions` counter the entrypoints do not read.
- A1's "each member receives exactly `interest / active_members`, the remainder stays in the treasury"
  is superseded by the carried remainder: the share is that quotient exactly when the remainders do not fill
  another share (`Books.EqualShareIff`; `LeaverRun.RemainderSharedLater` is a run where they do). What holds
  throughout is `Guarantees.InterestConserved`.
- L2, one active loan exactly when the flag is set: a disbursement does not repeat the eligibility check, and
  rejoining clears the flag whatever is owed. It holds throughout a run exactly when no step pays a loan to a
  borrower who owes one and no member rejoins owing one (`LoanFlags.FlagMeansOneLoanFromStart`).
  `LeaverRun.FlagCoversTwoLoans` and `LeaverRun.FlagDownWhileOwing` are reachable states that break it either
  way; `Guarantees.CountersMatchLoans` states what holds throughout.
- G1's band of one to six votes holds exactly while nobody has delegated (`Delegation.WeightBandIff`).
- Early rejection counts six votes for each active member beyond those counted, whoever they are. That is sound
  exactly when the ballots the contract would still accept cannot come to weigh more (`EarlyRejection.BoundSoundIff`):
  on a loan those of active members other than the borrower, on a private withdrawal only those committed in favour
  (`LoanVotersAccepted`, `WithdrawalVotersAccepted`). Votes handed to a delegate can outweigh it. One rejected tally
  is really lost exactly when the sum of what those ballots can come to weigh does not lift it to the bar
  (`EarlyRejection.OutOfReachIff`); `RejectionRun` has a withdrawal and a loan, each rejected at the end of a run,
  that it would lift.
- `docs/INVARIANTS.md` lists floors for the pricing ratio and rate in one table and ceilings in another; the
  code uses ceilings.
- Re-sending a batch corrects members (`Migration.ResendingCorrects`). It corrects stakes exactly when the first
  batch had no negative entry (`Migration.ResendingStakesIff`); `Migration.NegativeStakeSticks` is one that had.

## Model

| member | source | states |
|---|---|---|
| Arithmetic.CeilDivUnique | contracts/dao/src/util.rs:182-185 | a quotient is the ceiling exactly when `(q-1)*d < value <= q*d`; with the bounds on `CeilDiv` this fixes the function without its body |
| Arithmetic.RequiredVotesExact | contracts/dao/src/util.rs:189-193 | reaching the rounded consensus bar is the same as reaching the unrounded percentage, `votes*10000 >= active*threshold` |
| Arithmetic.LoopStep | contracts/dao/src/util.rs:149-158 | one round of the digit loop keeps its invariant, for either digit, and no intermediate sum exceeds `2n`, so `u128` never overflows |
| Arithmetic.Isqrt | contracts/dao/src/util.rs:138-160 | for every `i128`: 0 up to zero, otherwise the `r` with `r*r <= n < (r+1)*(r+1)`; the loop terminates and stays inside `u128` |
| Arithmetic.RootUnique | contracts/dao/src/util.rs:132-137 | that `r` is unique, so the loop computes *the* floored square root |
| Arithmetic.ComputeStakeBoost | contracts/dao/src/util.rs:122-130 | the capped root of the whole staked units is the documented price list 100/400/900/1600/2500 |
| Arithmetic.StakeBoostBands | contracts/dao/src/util.rs:114-130 | boost is `k` exactly when `100k^2 <= staked` and, below the cap, `staked < 100(k+1)^2` |
| Arithmetic.StakeBoostMonotone | contracts/dao/src/util.rs:114-121 | more stake never lowers the boost, which stays within 0 and 5 |
| Pricing.RateCurve | contracts/dao/src/loans.rs:19-58 | under a valid policy the rate is `min + ceil(ratio*spread/10000)`; the overflow fallbacks of the rate and its final clamp never fire |
| Pricing.QuoteWithinBounds | contracts/dao/src/loans.rs:19-58 | every quote, through every overflow fallback: rate inside the policy band, `amount <= total_repayment <= i128::MAX` |
| Pricing.QuoteMonotoneInAmount | contracts/dao/src/loans.rs:19-58 | a larger loan never owes less |
| Pricing.QuoteAntitoneInTreasury | contracts/dao/src/loans.rs:19-58 | a richer treasury never quotes a dearer loan |
| Pricing.SplittingGainsAtMostOne | contracts/dao/src/loans.rs:19-58 | away from the overflow fallback, splitting a loan at a fixed treasury raises total interest by at most 1 |
| Credit.PenaltiesRoundUp | contracts/dao/src/loans.rs:572-580 | away from overflow the late penalty, and the slash on default (lines 693-703), are ceilings; the slash never exceeds the contribution |
| Storage.Env.GetOpenProposals | contracts/dao/src/storage.rs:293-326 | the two id loops count exactly the member's pending proposals whose deadline (saturating sums) has not passed, and cache the count |
| Storage.Env.SetLoanProposal | contracts/dao/src/storage.rs:337-342 | writes the record and refreshes the borrower's cached count; nothing else changes |
| Storage.Env.SetTreasuryProposal | contracts/dao/src/storage.rs:368-373 | writes the record and refreshes the proposer's cached count; nothing else changes |
| Voting.ComputeVotingWeight | contracts/dao/src/util.rs:99-112 | zero for a delegator, otherwise own votes plus those of every listed member who delegated to the voter |
| Voting.DelegateVote | contracts/dao/src/membership.rs:226-245 | records the delegation or fails with the source's error and changes nothing |
| Membership.RegisterMember | contracts/dao/src/membership.rs:12-70 | joins or rejoins exactly as `RegisterStep` specifies: counters kept across a rejoin, snapshot taken, totals bumped, fee moved; any failure leaves the ledger as it was |
| Membership.ExitDao | contracts/dao/src/membership.rs:73-137 | pays share, stake and pending yield, then leaves the record inactive and the totals reduced; any failure changes nothing |
| Membership.ClaimRewards | contracts/dao/src/membership.rs:140-162 | pays exactly the pending yield, positive, and advances the snapshot; any failure changes nothing |
| StakingOps.Stake | contracts/dao/src/staking.rs:17-41 | adds to the stake and the total and restarts the cooldown; moves no tokens |
| StakingOps.ScanForLocks | contracts/dao/src/staking.rs:73-116 | the three scanning loops answer true exactly when an own request, a cast or committed treasury ballot, or a loan ballot is still open |
| StakingOps.Unstake | contracts/dao/src/staking.rs:44-129 | subtracts from stake and total exactly when no guard fails and the scans find no lock; any failure changes nothing |
| TreasuryOps.ReservedLoanCommitments | contracts/dao/src/util.rs:200-213 | the id loop sums the approved, undisbursed loans of one asset; that sum is pinned by `TreasuryLaws.ReservedLaw` |
| TreasuryOps.CheckProposal | contracts/dao/src/treasury.rs:37-57 | the guards of a withdrawal proposal in the order the source checks them; a refused call leaves the quota cache alone |
| TreasuryOps.ProposeWithdrawalInAsset | contracts/dao/src/treasury.rs:28-91 | opens the proposal under the next id with the policy of the moment, or fails and changes nothing; when it opens is pinned by `TreasuryLaws.ProposalAcceptedIff` |
| TreasuryOps.SettleVote | contracts/dao/src/treasury.rs:150-172 | approves and pays, parks, rejects early or keeps pending exactly as `Settle` specifies |
| TreasuryOps.TallyVote | contracts/dao/src/treasury.rs:111-173 | the shared vote path equals `Tally`; a trap is reported so that the caller can undo everything |
| TreasuryOps.ExecutePayout | contracts/dao/src/treasury.rs:189-207 | pays and marks executed, refuses having written nothing, or traps |
| TreasuryOps.Vote | contracts/dao/src/treasury.rs:93-105 | open ballots only; success commits `Tally`, any failure changes nothing |
| TreasuryOps.ExecuteApproved | contracts/dao/src/treasury.rs:175-186 | pays a parked proposal once, or fails and changes nothing |
| TreasuryOps.CancelTreasuryProposal | contracts/dao/src/treasury.rs:214-244 | only the proposer, only while pending, only inside the editing window |
| TreasuryOps.ExpireTreasuryProposal | contracts/dao/src/treasury.rs:245-263 | expires a pending proposal strictly after one voting period, private ones included |
| TreasuryOps.ComputeCommitment | contracts/dao/src/privacy.rs:19-35 | the byte-appending loop builds `xdr(voter) ++ big-endian id ++ support byte ++ salt` and hashes it |
| TreasuryOps.CommitVote | contracts/dao/src/privacy.rs:41-75 | records one commitment per voter and proposal inside the first window, or fails and changes nothing |
| TreasuryOps.RevealVote | contracts/dao/src/privacy.rs:78-120 | consumes a matching commitment inside the second window and tallies it, or fails and changes nothing, the commitment included |
| Lending.RequestLoanInAsset | contracts/dao/src/loans.rs:98-175 | opens a quoted proposal under the next id, or fails with the first failing guard and changes nothing |
| Lending.EditLoanProposal | contracts/dao/src/loans.rs:178-230 | re-quotes an editable proposal, or fails and changes nothing |
| Lending.CancelLoanProposal | contracts/dao/src/loans.rs:236-260 | cancels an editable proposal, or fails and changes nothing |
| Lending.ExpireLoanProposal | contracts/dao/src/loans.rs:634-658 | persists an expiry once; repeat calls change nothing |
| Lending.VoteInternal | contracts/dao/src/loans.rs:310-387 | the guarded, weighted ballot equals `CastLoanVote` |
| Lending.SettleLoanVote | contracts/dao/src/loans.rs:352-386 | approve and disburse, park, reject early, or keep pending; the bar, the tally and the payment are pinned by `LoanLaws.LoanBallotEffect` |
| Lending.VoteOnLoanProposal | contracts/dao/src/loans.rs:282-292 | one ballot, or nothing |
| Lending.VoteBatch | contracts/dao/src/loans.rs:294-307 | the ballots in order, all or nothing: the first refused one reverts the rest |
| Lending.DisburseLoan | contracts/dao/src/loans.rs:404-469 | re-checks funds and cap, re-quotes, writes loan and borrower, pays; reports a refusal apart from a trap; price, cap and records are pinned by `LoanLaws.DisbursalPaidIff` and `LoanLaws.DisbursalEffect` |
| Lending.DisburseApprovedLoan | contracts/dao/src/loans.rs:389-401 | pays a parked loan, or fails and changes nothing |
| Lending.DistributeInterest | contracts/dao/src/loans.rs:755-778 | carries the remainder and bumps the accumulator by the floored share |
| Lending.BookPayment | contracts/dao/src/loans.rs:593-612 | books the payment, closes the loan on its last unit of debt, and returns the interest component |
| Lending.TakePayment | contracts/dao/src/loans.rs:591-620 | books, distributes base-token interest and collects the payment, or reverts all of it |
| Lending.RepayLoan | contracts/dao/src/loans.rs:548-627 | full and partial repayment with the late penalty kept as principal, or a failure that changes nothing; what is owed and what changes is pinned by `RepaymentLaws.RepaymentAcceptedIff` and `RepaymentLaws.RepaymentEffect` |
| Lending.RepayLoanInAsset | contracts/dao/src/loans.rs:482-515 | full repayment when the asset is the loan's, otherwise `AssetMismatch` |
| Lending.MarkLoanDefaulted | contracts/dao/src/loans.rs:673-731 | closes an overdue loan, slashes the borrower and the cached contributions, forfeits pending yield; date and cost are pinned by `RepaymentLaws.DefaultAcceptedIff` and `RepaymentLaws.DefaultEffect` |
| Books.YieldDistribute | contracts/dao/src/loans.rs:755-771 | bumping one number by the floored share is crediting every active member by it, remainder included |
| Books.YieldExit | contracts/dao/src/membership.rs:81-101 | the pending amount paid at exit is the leaver's eager credit, and the refinement survives the exit |
| Books.YieldDefault | contracts/dao/src/loans.rs:716-722 | advancing the snapshot is forfeiting the eager credit |
| Books.MemberJoins | contracts/dao/src/membership.rs:18-60 | joining or rejoining keeps roster counts and cached contributions exact |
| Books.MemberLeaves | contracts/dao/src/membership.rs:115-125 | leaving keeps them exact, and the member count cannot underflow |
| Books.MemberSlashed | contracts/dao/src/loans.rs:704-715 | a slash keeps the cached contributions exact when the borrower is active, and drifts by the slash when not |
| Books.RunBooks | contracts/dao/src/membership.rs:12-162 | over every run: roster counts, cached contributions up to recorded drift, staked total, and yield accumulator against the eager ledger |
| Guarantees.AccumulatorRefinesLedger | contracts/dao/src/loans.rs:742-771 | in every reachable state, for each active member, accumulator minus snapshot is what crediting everyone on each repayment would show |
| Guarantees.InterestConserved | contracts/dao/src/loans.rs:755-778 | in every reachable state, accepted interest = remainder + pending of active members + claimed + paid at exit + forfeited at default |
| Guarantees.YieldTracesLoans | contracts/dao/src/loans.rs:614-618 | in every reachable state the interest components handed over by all loans sum to the accepted interest plus what arrived while nobody was active; loans in other assets hand over none; pending yield never exceeds accepted interest |
| Interest.StepHanded | contracts/dao/src/loans.rs:755-762 | every step keeps that sum, the early return without active members included |
| Books.EqualShareIff | contracts/dao/src/loans.rs:765-771 | each member receives exactly `interest / active` iff `interest % active` and the carried remainder do not fill another share |
| LeaverRun.RemainderSharedLater | contracts/dao/src/loans.rs:765-771 | a reachable repayment of one unit among two members that credits each of them one, where half a unit rounds to nothing |
| Guarantees.CachedTotalsExact | contracts/dao/src/storage.rs:199-271 | in every reachable state: staked total = sum of stakes, active count = active records, total = length of a duplicate-free list, cached contributions = O(n) scan minus recorded drift |
| Guarantees.SharesCovered | contracts/dao/src/membership.rs:164-185 | in every reachable state, whatever the treasury and the overflow guard: shares offered to everyone at once stay within the treasury iff treasury times recorded drift is at most what flooring keeps back |
| Guarantees.CountersMatchLoans | contracts/dao/src/loans.rs:445-450 | in every reachable state a member's active, repaid and total loan counters are the loan table's, and the flag implies an active loan |
| RepaymentLaws.RepaymentAcceptedIff | contracts/dao/src/loans.rs:556-590 | a repayment is accepted iff the borrower of an active loan offers a positive amount up to `open + surcharge` and holds it, where `open` is what is stored as unpaid and the surcharge of a late loan is `ceil(open*bps/10000)` |
| RepaymentLaws.RepaymentEffect | contracts/dao/src/loans.rs:566-620 | the stored loan gains the surcharge on debt and principal alike and the payment on `amount_repaid`, and closes when nothing is left; the closing borrower's record, the shared interest and exactly one token move follow; nothing else changes |
| RepaymentLaws.RepaymentInTokenIff | contracts/dao/src/loans.rs:482-515 | naming the token changes nothing but that a wrong one is refused with `AssetMismatch` |
| RepaymentLaws.DefaultAcceptedIff | contracts/dao/src/loans.rs:673-685 | unpaused, an existing loan defaults iff it is active and `now >= due_time + grace`; too early is `LoanNotOverdue` |
| RepaymentLaws.DefaultEffect | contracts/dao/src/loans.rs:687-722 | the loan closes, the contribution and the cached total lose `ceil(contribution*bps/10000)`, at most all of it, the loan counters and the yield snapshot follow, and no token moves |
| LoanLaws.DisbursalPaidIff | contracts/dao/src/loans.rs:404-420 | an approved loan is paid iff the pool of its token holds it and `amount*10000 <= pool*ratio`, read off balances and stake; otherwise nothing is written |
| LoanLaws.DisbursalEffect | contracts/dao/src/loans.rs:422-456 | the new loan is priced at the pool right before it was paid (ratio, rate and interest each rounded up), starts now with nothing repaid, and the borrower's record and one token move follow |
| LoanLaws.DisbursementAcceptedIff | contracts/dao/src/loans.rs:389-401 | a parked loan can be paid iff it is approved, unpaid and payable |
| LoanLaws.DisbursementEffect | contracts/dao/src/loans.rs:389-456 | and then its proposal is approved, its loan opened, and nothing else changes |
| LoanLaws.LoanBallotAcceptedIff | contracts/dao/src/loans.rs:310-336 | a ballot is accepted iff cast once by an active member other than the borrower from the end of editing to just before the deadline |
| LoanLaws.LoanBallotEffect | contracts/dao/src/loans.rs:338-386 | the tally grows on its own side by the voter's weight; it is approved iff `for*10000 >= active*bar` (quorum, else threshold), then paid iff payable, else rejected iff six votes from each uncounted member would not reach the bar, else open; only an approved, payable loan moves money |
| LoanChanges.BatchIsBallots | contracts/dao/src/loans.rs:294-307 | a batch is its ballots in turn, and the first refusal refuses all |
| LoanChanges.EveryLoanPriced | contracts/dao/src/loans.rs:422-439 | whatever the step from a reachable state, a loan that appears in it has its proposal's borrower and amount, runs from now for the policy's duration, and is priced at the pool right before it was paid, inside a batch too |
| LoanChanges.EveryLoanChange | contracts/dao/src/loans.rs:548-731 | whatever the step, a loan changes only by its borrower's payment of no more than is owed, or by a default after the grace period |
| LoanChanges.NoEarlyDefault | contracts/dao/src/loans.rs:681-685 | whatever the step, an active loan that is defaulted after it was at least the grace period past its due date |
| ProposalLaws.RequestAcceptedIff | contracts/dao/src/loans.rs:98-134 | a request opens iff made by an active member without flagged loan, past the membership minimum and the cooldown, with fewer than three open proposals counted as sets, for a positive amount of an admitted token with `amount*10000 <= pool*ratio` |
| ProposalLaws.RequestEffect | contracts/dao/src/loans.rs:136-175 | it takes the next id with the policy's dates and the price at the pool, and nothing else changes |
| ProposalLaws.EditLaw | contracts/dao/src/loans.rs:178-214 | iff and effect of an edit: borrower only, before the end of editing, priced anew |
| ProposalLaws.CancelLaw | contracts/dao/src/loans.rs:236-260 | iff and effect of a cancellation |
| ProposalLaws.ExpireLaw | contracts/dao/src/loans.rs:264-280 | a pending request expires iff the clock is past its voting deadline; one that has ended otherwise is left as it is |
| TreasuryLaws.ReservedLaw | contracts/dao/src/util.rs:200-213 | the id loop is the sum over all loans of a token that are approved and unpaid |
| TreasuryLaws.ProposalAcceptedIff | contracts/dao/src/treasury.rs:37-57 | past the other guards a withdrawal opens iff `amount` plus that sum is within the pool, and is refused with `InsufficientTreasury` otherwise |
| TreasuryLaws.ProposalEffect | contracts/dao/src/treasury.rs:59-84 | it takes the next id with the policy of the moment, and nothing else changes |
| TreasuryLaws.OpenVoteAcceptedIff | contracts/dao/src/treasury.rs:93-132 | an open vote is accepted iff cast once by an active member on a pending public withdrawal within one period |
| TreasuryLaws.OpenVoteEffect | contracts/dao/src/treasury.rs:133-172 | the tally grows on its own side; it is approved iff `for*10000 >= active*threshold`, then paid iff the pool covers it, else rejected iff six votes from each uncounted member would not reach that |
| TreasuryLaws.CommitmentLaw | contracts/dao/src/privacy.rs:41-75 | iff and effect of a commitment |
| TreasuryLaws.RevealAcceptedIff | contracts/dao/src/privacy.rs:78-112 | a vote is revealed iff by an active member whose recorded digest is the hash of `xdr(voter) ++ id ++ support ++ salt`, in the second period of a pending private withdrawal |
| TreasuryLaws.RevealEffect | contracts/dao/src/privacy.rs:113-120 | it uses the commitment up and counts like an open vote |
| TreasuryLaws.PayoutLaw | contracts/dao/src/treasury.rs:175-207 | a parked withdrawal is paid iff the pool covers it, once, to its destination |
| TreasuryLaws.CancelWithdrawalLaw | contracts/dao/src/treasury.rs:214-244 | iff and effect of a cancellation |
| TreasuryLaws.ExpireWithdrawalLaw | contracts/dao/src/treasury.rs:245-263 | iff and effect of an expiry, private withdrawals included |
| MemberLaws.JoiningLaw | contracts/dao/src/membership.rs:12-70 | anyone not active who holds the fee can join; record, list, counts, cached contributions, snapshot and one token move follow |
| MemberLaws.LeavingAcceptedIff | contracts/dao/src/membership.rs:73-101 | an active member can leave iff no loan is flagged and the contract holds portion, stake and yield together; otherwise `HasActiveLoan` or `InsufficientTreasury` |
| MemberLaws.LeavingEffect | contracts/dao/src/membership.rs:102-137 | the leaver is paid `floor(pool*contribution/contributions)` plus stake plus yield in one move; record, stake, snapshot and totals follow |
| MemberLaws.ClaimLaw | contracts/dao/src/membership.rs:140-162 | iff and effect of a claim: accumulator minus snapshot is paid and settled |
| MemberLaws.StakingLaw | contracts/dao/src/staking.rs:17-41 | iff and effect of staking |
| MemberLaws.UnstakingLaw | contracts/dao/src/staking.rs:44-129 | stake comes back iff within what there is, after the cooldown, and with no pending proposal within its deadline that the member voted on, committed to or asked for, deadlines written out |
| MemberLaws.OwnVotesLaw | contracts/dao/src/util.rs:114-130 | own votes are one plus the largest step up to five whose square in hundreds the stake covers |
| MemberLaws.WeightLaw | contracts/dao/src/util.rs:99-112 | a ballot weighs the own votes plus the sum over listed members who delegated to the voter; nothing for one who has delegated |
| MemberLaws.DelegationLaw | contracts/dao/src/membership.rs:226-245 | iff and effect of a delegation |
| LoanFlags.FlagMeansOneLoanIff | contracts/dao/src/loans.rs:404-450 | from exact flags, `has_active_loan` means exactly one active loan for every member at every state of a run iff no step of the run pays a loan to a borrower who owes one and no member rejoins owing one |
| LoanFlags.FlagMeansOneLoanFromStart | contracts/dao/src/membership.rs:27-45 | the same for every run from initialisation |
| LeaverRun.FlagCoversTwoLoans | contracts/dao/src/loans.rs:445-450 | a reachable state whose borrower has the flag and two active loans |
| LeaverRun.FlagDownWhileOwing | contracts/dao/src/loans.rs:603-611 | a reachable state whose borrower has an active loan and no flag |
| Guarantees.RepaymentTelescopes | contracts/dao/src/loans.rs:566-612 | in every reachable state: interest as quoted at disbursement, yield handed out = `min(amount_repaid, interest)` in the base token and 0 otherwise, repaid exactly when nothing is owed |
| Guarantees.LoansOnlyMoveForward | contracts/dao/src/loans.rs:548-731 | over any run a loan keeps its interest and dates, debt and payments only grow, and a closed loan never changes |
| Guarantees.LoanProposalsConsistent | contracts/dao/src/loans.rs:236-469 | in every reachable state phase and status agree, the loan exists exactly when approved, and it was disbursed once if approved and never otherwise |
| Guarantees.LoanProposalsOnlyMoveForward | contracts/dao/src/loans.rs:178-280 | over any run: same borrower and deadlines, status and phase only forward; amount, rate, duration and total never change once the clock has reached the end of editing, even while the stored phase still says editing |
| LoanTerms.StepTerms | contracts/dao/src/loans.rs:178-230 | the one-step form: only an edit changes the terms, and only before the end of editing |
| Guarantees.InnerFailuresAreClean | contracts/dao/src/loans.rs:365-372 | in every state inside a ballot cast from a reachable state, a refused disbursement or payout has written nothing, and one that passes its checks cannot trap |
| InnerFailures.NothingTraps | contracts/dao/src/treasury.rs:145-158 | from a reachable state no ballot, batch, reveal, disbursement or execution is brought down by its transfer |
| InnerFailures.SwallowedLoanClean | contracts/dao/src/loans.rs:361-372 | a ballot from a reachable state that leaves its loan approved but unpaid has written the ballot, the approval and the quota cache, and nothing else |
| InnerFailures.SwallowedWithdrawalClean | contracts/dao/src/treasury.rs:145-158 | the same for a withdrawal decided by an open or a revealed ballot |
| Guarantees.LoanTalliesExact | contracts/dao/src/loans.rs:332-346 | in every reachable state votes cast = distinct recorded voters, for and against = sums of their weights, borrower never among them |
| Guarantees.WithdrawalsExact | contracts/dao/src/treasury.rs:133-207 | the same for withdrawals, and the destination was paid the amount exactly once if executed and never otherwise |
| Guarantees.WithdrawalsOnlyMoveForward | contracts/dao/src/treasury.rs:111-263 | over any run a withdrawal keeps its terms and its status only moves forward |
| Guarantees.WithdrawalVoteDecides | contracts/dao/src/treasury.rs:150-171 | after a counted ballot: approved iff `for*10000 >= active*threshold`, rejected iff no remaining votes could reach the bar, decided once as many voted as are active |
| Guarantees.CommitRevealDiscipline | contracts/dao/src/privacy.rs:41-120 | in every reachable state: nothing counted while the commit window is open; every counted vote opened its voter's in-time digest, strictly later and within the second window, with the same support; nobody both committed and counted |
| Guarantees.QuotaHolds | contracts/dao/src/storage.rs:289-326 | in every reachable state at most three proposals of a member are pending and within their deadlines, counted as sets of ids, and the cached count is never below that |
| Guarantees.WeightConserved | contracts/dao/src/util.rs:99-112 | in every reachable state weights over the member list sum to at most the own votes, at most 6 each, with equality iff no delegate has delegated |
| Guarantees.StakeStaysBehindBallots | contracts/dao/src/staking.rs:70-116 | over any run without the member's exit, stake never falls below its value at the ballot while that proposal stays open |
| Lifecycle.SettleLoanShape | contracts/dao/src/loans.rs:361-386 | every decision either lends at once or only rewrites the proposal |
| Lifecycle.Disbursed | contracts/dao/src/loans.rs:404-450 | loan, approved status and payment appear together, and only where no loan existed |
| Lifecycle.RunLife | contracts/dao/src/loans.rs:236-468 | over every run the lifecycle invariant holds and proposals and loans evolve forward |
| Credit.CountersClose | contracts/dao/src/loans.rs:603-611 | closing an active loan moves it between the counted sets; the saturating subtraction does not saturate |
| Credit.CountersJoin | contracts/dao/src/membership.rs:27-45 | a first-timer starts at zero loans, a returning member keeps the counters, and both match the loan table |
| Credit.PaymentKeeps | contracts/dao/src/loans.rs:593-612 | one partial or full payment keeps interest-first accounting exact |
| Credit.StepCredit | contracts/dao/src/loans.rs:445-731 | every step keeps counters equal to the loan table and repayment accounting exact |
| Ballots.LoanVoteDecides | contracts/dao/src/loans.rs:352-384 | after a counted loan ballot, with the policy quorum as bar where it is set and the threshold otherwise: approved iff `for*10000 >= active*bar`, rejected iff the rest could not reach it, decided once as many voted as are active |
| Ballots.BallotsCounted | contracts/dao/src/loans.rs:339-346 | a ballot updates its own tally and leaves every other one alone |
| Withdrawals.RunWithdrawal | contracts/dao/src/treasury.rs:93-263 | tallies, payouts and commitments over every run |
| Withdrawals.CountedPrivate | contracts/dao/src/privacy.rs:94-119 | opening a commitment keeps every clause of the commit-reveal invariant |
| Quota.OpenLoansShrink | contracts/dao/src/storage.rs:296-305 | deadlines do not move, pending is not re-entered and time does not run back, so open counts only fall without a new proposal |
| Quota.StepQuota | contracts/dao/src/loans.rs:124-126 | every step keeps open proposals at most three and the cache no lower than the live count; the withdrawal guard is at treasury.rs:47-49 |
| StakeLock.UnstakeRefusedIffTied | contracts/dao/src/staking.rs:70-116 | past its other guards an unstake is refused iff some pending proposal the member voted on, committed to or asked for is still inside its window, deadline second included: the scans, which read stored phases and deadlines, miss no such tie and report no other; an approved, unpaid loan ties nothing |
| StakeLock.StakeFallsOnlyUnlocked | contracts/dao/src/staking.rs:44-129 | in any step a stake falls only by the member's exit or by an unstake that nothing locks |
| StakeLock.StakeStaysLocked | contracts/dao/src/staking.rs:86-116 | the run-level form, for a loan ballot, a treasury ballot or commitment, or an own request |
| Exits.SharesCoveredIff | contracts/dao/src/membership.rs:164-185 | the exact condition for one state: the kept-back amounts are the remainders of treasury times contribution by the cached total, or the whole product where the guard on overflow offers nothing |
| Exits.SharesWithinTreasury | contracts/dao/src/membership.rs:164-185 | so without drift the shares never exceed the treasury |
| Exits.SharesOverdrawTreasury | contracts/dao/src/membership.rs:164-185 | and they always do once treasury times drift exceeds members times cached contributions |
| Exits.OneLeaves | contracts/dao/src/membership.rs:73-137 | a covered exit succeeds, pays its floor share out of the treasury, and leaves everyone else able to leave |
| Exits.EveryoneLeaves | contracts/dao/src/membership.rs:73-137 | in any order all can leave; together they get exactly the treasury, each at least the floor of the original pro-rata share |
| Exits.EveryoneIsPaidFairly | contracts/dao/src/membership.rs:73-137 | the same measured against the treasury and contributions at the start |
| Contributions.ScanIsSum | contracts/dao/src/membership.rs:187-194 | the scan over the member list counts every active record once |
| Contributions.CacheAgreesIff | contracts/dao/src/membership.rs:187-194 | from a state without drift, cached total = scan at the end of a run iff no default along it slashed a borrower who had left |
| Contributions.Drift | contracts/dao/src/loans.rs:704-715 | in every state the cached total falls short of the scan by exactly those slashes |
| LeaverRun.LeaverDefaultOverpays | contracts/dao/src/loans.rs:710-715 | a concrete run from initialisation (two loans to one member, one repaid, exit, default) after which the one remaining member is offered 180 out of a treasury of 90 and cannot leave |
| Delegation.DelegationConservesWeight | contracts/dao/src/util.rs:99-112 | total weight = own votes minus votes handed to someone who has delegated too; equality with own votes iff there are none |
| Delegation.WeightBandIff | contracts/dao/src/util.rs:97-112 | the documented band of 1 to 6 votes holds for every member iff nobody has delegated |
| Delegation.WeightMonotone | contracts/dao/src/util.rs:97-121 | more stake anywhere never lowers anyone's weight, delegated or not |
| EarlyRejection.OutOfReachIff | contracts/dao/src/util.rs:99-112 | for any fixed delegations and active members and any set of members who may still vote: no ballots of theirs, at stakes they can come to hold, lift a tally to the bar iff the sum of the most each can come to weigh does not (six for each active holder, present votes for one who has left, zero for a delegator) |
| Turnout.RunAttainable | contracts/dao/src/staking.rs:17-41 | those stakes bound every run: while nobody registers, only active members add to a stake |
| Turnout.FullTurnoutReached | contracts/dao/src/staking.rs:17-41 | and a run of stakes alone makes every ballot weigh that most at once |
| EarlyRejection.BoundSoundIff | contracts/dao/src/loans.rs:373-377 | the contract's bound of six votes per uncounted member is sound at every tally and bar iff the remaining ballots cannot come to weigh more |
| EarlyRejection.BoundSoundWithoutDelegation | contracts/dao/src/loans.rs:373-377 | without delegations that is: iff the voters who have left are at most the active members barred from voting, or nobody remains |
| EarlyRejection.LoanVotersAccepted | contracts/dao/src/loans.rs:320-336 | had the ballot not rejected the loan, the next ballot of a member would be accepted iff the member is active, not the borrower, and has not voted |
| EarlyRejection.EarlyLoanRejectionSound | contracts/dao/src/loans.rs:373-384 | a rejected loan is out of reach of exactly those members iff what their ballots can come to weigh falls short; always within the contract's count, and always while nobody has delegated and no voter has left |
| EarlyRejection.LoanRejectionExact | contracts/dao/src/loans.rs:373-384 | the same in every reachable state, under any delegations |
| EarlyRejection.WithdrawalVotersAccepted | contracts/dao/src/privacy.rs:94-110 | had the ballot not rejected the withdrawal, a member's vote in favour would be accepted iff the member is active, has not voted and, on a private one, committed to such a vote; nobody can commit any more, then or later |
| EarlyRejection.EarlyWithdrawalRejectionSound | contracts/dao/src/treasury.rs:160-170 | a withdrawal rejected by an open or a revealed ballot in a reachable state is out of reach of exactly those members iff what their ballots can come to weigh falls short |
| EarlyRejection.LostByCommitments | contracts/dao/src/privacy.rs:94-110 | before anything is opened: lost whenever the ballots of all who committed could not reach the bar |
| RejectionRun.DelegationDefeatsEarlyRejection | contracts/dao/src/treasury.rs:161-169 | a concrete run of fourteen members, twelve of whom delegate to the first, after which a withdrawal is rejected that the two remaining ballots would have approved |
| RejectionRun.DelegationDefeatsEarlyLoanRejection | contracts/dao/src/loans.rs:373-384 | the same for a loan: the borrower may not vote, and the one remaining ballot would have approved it after one unit of stake |
| Exposure.VoteShrinks | contracts/dao/src/loans.rs:361-372 | a ballot that pays a loan takes at most the capped share of that asset's treasury, and no stake, whoever the borrower is |
| Exposure.NeverPaysIsQuiet | contracts/dao/src/loans.rs:98-260 | requests, edits, cancellations, expiries, defaults, delegations, commitments, treasury proposals and their closings, and time move no tokens or stake and keep the cap; an administrative change does iff it keeps the cap ratio |
| Exposure.CapCompounds | contracts/dao/src/loans.rs:404-420 | over any run of ballots, batches, disbursals and steps that move nothing: `k` loans paid in an asset under a cap of `r` leave `T_k*10000^k >= T_0*(10000-r)^k`, so lending alone never makes a treasury negative |
| Cash.StepPays | contracts/dao/src/loans.rs:452-456 | every successful entrypoint makes exactly the payments due, to the parties due them, in the right asset, and no other; a vote pays only if it approves |
| Cash.RunConserves | contracts/dao/src/treasury.rs:197-201 | over any run without outside transfers the supply of every asset is conserved |
| Commitments.BigEndianRoundTrip | contracts/dao/src/privacy.rs:29-31 | the four id bytes read back as the id |
| Commitments.PreimageDecodes | contracts/dao/src/privacy.rs:19-35 | two preimages are equal iff encoded voter, id, support and salt are, whatever the address encoding |
| Commitments.PreimageInjective | contracts/dao/src/privacy.rs:17-35 | for an injective encoding the preimage is injective in voter, id, support and salt |
| Commitments.CountedAsCommitted | contracts/dao/src/privacy.rs:106-119 | a counted private vote is the one its digest committed to, unless two named inputs collide |
| Commitments.CopiedCommitmentUseless | contracts/dao/src/privacy.rs:17-35 | a digest copied from another member or proposal cannot be revealed, unless two named inputs collide |
| Reachability.ReachableInv | contracts/dao/src/lib.rs:123-356 | every state reached from an unseeded initialisation by any sequence of these entrypoints, time steps and administrative changes satisfies all invariants together |
| Migration.Recount | contracts/dao/src/migration.rs:51-71 | one record of a batch: the overwritten record's counters are undone, saturating, before the new ones apply |
| Migration.SeedMembers | contracts/dao/src/migration.rs:36-82 | the batch loop with its local totals equals the fold over the batch, or traps and changes nothing |
| Migration.SeedingKeepsTotals | contracts/dao/src/migration.rs:31-82 | any batch, with addresses repeated or already present, keeps list, counts and contributions equal to their sums; no subtraction saturates |
| Migration.SeededCacheIsScanIff | contracts/dao/src/migration.rs:54-69 | the seeded contributions equal the O(n) scan iff no active record is negative |
| Migration.SeededBooks | contracts/dao/src/migration.rs:36-82 | non-negative records leave the roster as every later run needs it |
| Migration.ResendingCorrects | contracts/dao/src/migration.rs:12-13 | re-sending a corrected batch over the same addresses gives the records and totals of sending only the correction |
| Migration.SeedStakes | contracts/dao/src/migration.rs:84-102 | the batch loop equals the fold over the batch, or traps and changes nothing |
| Migration.SeededStakesExactIff | contracts/dao/src/migration.rs:84-102 | after any number of calls, the cached total equals the sum of stakes iff no entry of any batch is negative |
| Migration.ResendingStakesIff | contracts/dao/src/migration.rs:12-13 | re-sending a correction over the same addresses puts the stakes right; the total comes out as if only the correction had been sent iff the first batch had no negative entry, and as the sum of the stakes iff neither had one |
| Migration.NegativeStakeSticks | contracts/dao/src/migration.rs:12-13 | a negative stake entry is not put right by re-sending: total 15 over stakes of 10 |
| Migration.SeedPendingYield | contracts/dao/src/migration.rs:107-121 | the loop stores minus the clamped amount as snapshot, the last entry of an address winning |
| Migration.SeededYieldPending | contracts/dao/src/migration.rs:104-121 | those snapshots reconstruct the migrated yield exactly on a zero accumulator; earlier interest comes on top |

## Left out

- Authorisation (`require_auth`, admin and pauser roles), `require_initialized`, and the seeding lock: simple guards.
- Events as data, time-to-live and archival, instance extension, CPU budgets: host concerns. Events are kept only as `History`.
- `admin.rs` beyond `validate_policy`, `registry.rs`, `docs.rs`, whitelist timelocks, views such as `member_overview`: they would add only easy members. Releasing a name on exit goes with the registry.
- `repay_partial` (`contracts/dao/src/loans.rs:527`): dead code without an entrypoint.
- `seed_loans`, `seed_names`, `seed_docs`: they overwrite records without aggregates. Whole-run claims start from an unseeded contract; `Migration.SeededBooks` connects seeded members to the roster invariant only.
- Token internals: a token is a balance map, and a token contract that calls back is not part of this model.
- Exits.EveryoneLeaves: assumes an unpaused contract, no recorded drift (`slashedInactive == 0`), a covered treasury, and that every active member is not the contract itself (`a != self`), holds a positive contribution, and has no active loan, pending yield or overflow in the share product.
- Exits.EveryoneIsPaidFairly: assumes the same.
- Reachability.ReachableInv: the `seed_*` entrypoints are not actions of a run, so it covers contracts that were not seeded.
- EarlyRejection.OutOfReachIff: the ballots still to come are counted with delegations and active members as they are; a delegation, exit or join between them changes the sum and the bar, and is not a continuation.
- Lending.VoteInternal: a ballot is keyed by the proposal's own id, which `Lifecycle.ProposalOk` shows is its storage key.
- Contract balance against total stake is not claimed: `stake` and `unstake` move no tokens, and yield is paid from the same balance.
- Expiry after one voting period also applies to private proposals, so it is not claimed that every commitment can be revealed.
