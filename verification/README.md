# MetabaseNet in Dafny

A model of the parts of the MetabaseNet node (`src/blockchain`) that decide who is paid, which block is
next and what is asked of whom, with proofs of what they promise. MetabaseNet is a delegated
proof-of-stake chain: a primary chain whose producers are drawn by ballot, sub-forks whose blocks refer
to primary blocks, and rewards that delegates share with their voters once per period.

`dafny verify dfyconfig.toml` checks everything.

| module | what it models |
|---|---|
| `Common`, `BlockTree`, `Transactions` | identifiers, ordered containers, 256-bit words; the tree of block headers; transactions |
| `VoteReward`, `RewardPeriod` | how a period's block rewards are collected and split between project, foundation, delegate and voters |
| `RewardTx` | how the split is regrouped by recipient and cut into one transaction list per block |
| `Release` | which list a block must carry, the cache behind it, and what an accepted branch has released |
| `Ledger` | balances and nonces while a block is verified, and money over a chain |
| `Economy` | rewards and ledger together: all periods of a fork against what its blocks have earned |
| `SubFork` | the rules for subsidiary, extended and vacant blocks |
| `BlockMaker` | the producer's task queue for sub-forks, and the filling of gaps with vacant blocks |
| `Ballot` | the weighted draw of the next producer |
| `Reorg` | which blocks to undo and replay when a tip moves |
| `Orphan`, `Inventory`, `Schedule` | the inventory scheduler: announcements, requests, deliveries and orphans |
| `TxChannel`, `NetChannel` | the worklists that store waiting blocks and hand on waiting transactions, and whole runs of the scheduler |
| `BlockCache` | the cache of blocks that arrive before their parents |
| `Bulletin` | the window of anchors for distribute and publish data |

Conventions. Hashes and addresses are natural numbers, 0 being null. Iteration over a `std::map` or
`std::set` is iteration in ascending key order. 256-bit amounts wrap around explicitly; theorems name the
sums and products that must fit. Pointers to block indexes are values of an inductive tree. Clocks,
storage, signatures, contract execution and the answers of other components are parameters. Where a
loop updates state in the source, it is a method here, proved against a function that the lemmas are
about.

Results that go beyond reading one body:

* **Rewards, end to end.** `RewardPeriod.PeriodConserves`, `RewardTx.EndVoteRewardExact` and
  `Release.ReleasedWithinPeriod`: from the rewards of a period's blocks to the transactions released in
  the next period, nothing is created, nobody is paid twice, and `Release.ReleasedExactly` says which
  transactions are out at every block of an accepted branch. `VoteReward.DistributeEntries` and
  `RewardTx.EndVoteRewardPays` give every single entry and payment in plain arithmetic.
* **Exact verdicts.** `Ledger.VerdictIff`, `SubFork.VerifyBlockIff`, `RewardPeriod.PeriodRewardsIff` and
  `RewardTx.EndVoteRewardIff` say exactly which inputs pass, from the inputs alone.
* **Money.** `Ledger.RunMoney`, `Ledger.RunBalance` and `Ledger.ChainMoney`. `Economy.ReleasedWithinEarned` goes
  by induction over all periods of a fork, and `Economy.ForkMoney` bounds the money by block rewards alone.
* **Scheduler.** `NetChannel.Run` (any run of events), `NetChannel.AddNewBlock` (ancestor-first, complete,
  stopped exactly at an obstacle), `TxChannel.AddNewTx` (nonce order), `Schedule.Scheduler.ScheduleKnownInv`.
* **Windows.** `BlockCache.Run` and `Bulletin.Run`, over any run of their events.
* **Producer meets verifier.** `BlockMaker.NextEffect` says what every task does; `BlockMaker.ExtendedAccepted`,
  `BlockMaker.SubsidiaryAccepted`, `BlockMaker.VacancyAcceptedIff` and `Release.ProducerStarts` meet it with
  the verifier.

Some promises hold only under a condition, which is then given exactly:

* `Reorg.ExactIff`: the reorganisation lists are right if and only if the common ancestor is strictly
  earlier than the first block above it on the old side. `Reorg.EqualTimesFault` is the family of inputs
  with equal times where the walk runs past the root.
* `Reorg.NullOldTip`: without an old tip the call never delivers a real branch. The -1 given to a null tip is
  compared unsigned, so the walk follows the null old tip unless every block has the largest 64-bit time.
* `Release.PrimaryReleasesAllIff`: the primary chain releases every list if and only if there are fewer
  lists than heights in a period; later lists are never released. `Release.LateListsLost` is the case of one
  reward transaction to a block.
* `BlockMaker.AllSlotsPassIff`: every slot the producer queues is accepted if and only if the extended
  spacing divides the target spacing (or exceeds it). `BlockMaker.LastSlotFails` names the slot.
* `BlockMaker.SubsidiaryNumberIff`: a subsidiary block put on a fork that is level or ahead gets the number
  after its parent's if and only if its parent is still the block that was last when the number was
  prepared. `BlockMaker.StaleNumber` is a fork that has run ahead.
* `BlockMaker.VacancyPassesIff`: a vacant block passes if and only if the tip's chain has, at the shifted
  height, the time of the reference's chain. While the reference is on the tip's chain, that is exactly when
  it is the tip (`VacancyOnChainIff`; `MovedTipFails` has one block more). After a reorganisation to the same
  height, the blocks up to the fork point still pass (`VacancyBelowForkPasses`).
* `Ballot.AlwaysDrawsIff`: the draw never comes out empty if and only if no weight is lost to a delegate
  that is listed twice. `Ballot.ListedTwice` is such a list.
* `RewardPeriod.PeriodConserves`: a period pays out all its rewards if and only if every rewarded height
  has a voter to take what the commission leaves. `RewardPeriod.NoVotersLoses` is a height that has none.
* `Bulletin.KeysAreAnchorsIff`: the entries stay exactly the window's anchors if and only if every
  distribution names a candidate anchor. `Bulletin.StrayDistribution` is one that does not.

## Model

| member | source | states |
|---|---|---|
| VoteReward.ShareBounds | src/blockchain/blockchain.cpp:2733 | a voter's share is the exact floor of its proportional part and at most the reward |
| VoteReward.UserPartFloor | src/blockchain/blockchain.cpp:2744-2754 | a voter keeps exactly the floor of its rate of its share, and all of it at the full rate |
| VoteReward.PayVoterExact | src/blockchain/blockchain.cpp:2731-2756 | paying one voter moves exactly its share, into its entry and into the destroyed part |
| VoteReward.PayVotersExact | src/blockchain/blockchain.cpp:2727-2757 | paying all voters conserves; what is distributed is at most the reward and within the number of positive voters of the proportional amount |
| VoteReward.GiveResidueSum | src/blockchain/blockchain.cpp:2764-2798 | the rounding residue is added to exactly one entry, whichever branch finds it |
| VoteReward.ToVotersSum | src/blockchain/blockchain.cpp:2719-2800 | handing a reward to voters conserves it exactly when there is a voter |
| VoteReward.SplitExact | src/blockchain/blockchain.cpp:2680-2713 | in numbers: the project takes the floor of 42 percent and the foundation of 40; of the rest the delegate takes exactly the floor of its ratio and the voters all that is left, so the parts add up to the reward |
| VoteReward.DistributeConserves | src/blockchain/blockchain.cpp:2669-2803 | one height adds the whole reward when somebody can take the voters' rest, otherwise exactly the project, foundation and commission parts |
| VoteReward.ResidueIsSmall | src/blockchain/blockchain.cpp:2727-2766 | with votes summing to the total the residue is smaller than the number of voters with votes |
| VoteReward.FixedAt | src/blockchain/blockchain.cpp:2681-2713 | the project, foundation and delegate entries grow by exactly their parts, and no other entry does |
| VoteReward.FixedRecipient | src/blockchain/blockchain.cpp:2684-2711 | each fixed part is paid to its own address, and no other recipient changes |
| VoteReward.PayVotersAt | src/blockchain/blockchain.cpp:2727-2757 | every voter's entry grows by exactly what its own vote earns in plain arithmetic, and no other entry does |
| VoteReward.PayVotersTotals | src/blockchain/blockchain.cpp:2727-2757 | what counts as distributed is all shares, and what is kept back is all that voters forgo |
| VoteReward.PayVotersRecipient | src/blockchain/blockchain.cpp:2734-2743 | a voter is paid itself or through its owner, as its vote says |
| VoteReward.ResidueStaysWithVoters | src/blockchain/blockchain.cpp:2764-2798 | when anybody's vote counts, the residue goes to a voter and to nobody else |
| VoteReward.DistributeEntries | src/blockchain/blockchain.cpp:2669-2803 | every entry after one height in full: fixed parts to their own addresses, each voter its part, what voters forgo to the surplus address, the residue to one address, a voter's whenever some vote counts |
| VoteReward.DayVoteWalker.PayAll | src/blockchain/blockchain.cpp:2727-2757 | the voter loop computes PayVoters, about which PayVotersExact speaks |
| VoteReward.DayVoteWalker.GiveRest | src/blockchain/blockchain.cpp:2764-2798 | the residue goes to the first voter with an entry, else to the first entry, else to the first voter |
| VoteReward.DayVoteWalker.PayFixed | src/blockchain/blockchain.cpp:2680-2713 | the fixed parts of Split, pinned down by SplitExact and FixedAt, are paid and the voters' rest is returned |
| VoteReward.DayVoteWalker.Walk | src/blockchain/blockchain.cpp:2669-2804 | the walker's new map is Distribute of the old one for the block above the height, about which DistributeEntries speaks |
| RewardPeriod.AppliedMatches | src/storage/votedb.cpp:571-586 | a vote change keeps every delegate's total equal to the sum of its votes |
| RewardPeriod.VotesAtMatch | src/storage/votedb.cpp:549-587 | at every height of the day every delegate's total is the sum of its votes |
| RewardPeriod.VoteIsLastChange | src/storage/votedb.cpp:567-587 | a voter's vote for a delegate at a height is that of the last change at or below it |
| RewardPeriod.VoteIsFirst | src/storage/votedb.cpp:549-558 | before any change it is the vote of the day's first height |
| RewardPeriod.CollectHolds | src/blockchain/blockchain.cpp:2587-2637 | the collected heights and the surplus entry hold exactly the rewards of the blocks walked |
| RewardPeriod.CollectWithin | src/blockchain/blockchain.cpp:2585-2592 | only heights of the period are collected, with commissions that are proper ratios |
| RewardPeriod.CollectAt | src/blockchain/blockchain.cpp:2587-2637 | every height is due exactly the rewards of its own blocks |
| RewardPeriod.RewardsAtIs | src/blockchain/blockchain.cpp:2585-2592 | the walk meets all blocks of the period on the fork and no others |
| RewardPeriod.CollectSurplus | src/blockchain/blockchain.cpp:2626-2634 | the rewards of mined primary blocks go to the surplus address and to no other |
| RewardPeriod.CollectExplained | src/blockchain/blockchain.cpp:2592-2622 | a height's delegate and commission are those of the highest block of that height on the branch that earns anything |
| RewardPeriod.CollectSomeIff | src/blockchain/blockchain.cpp:2594-2622 | collecting succeeds exactly when the commission of every height's highest block is known |
| RewardPeriod.DayOfIff | src/blockchain/blockchain.cpp:2638-2660 | the votes looked up are those between the primary block a period below the boundary and the last primary block below it |
| RewardPeriod.PeriodDue | src/blockchain/blockchain.cpp:2585-2637 | each height above the last boundary is due what its blocks earn, no other height anything, and the surplus address starts with the mined rewards |
| RewardPeriod.PeriodRewardsIff | src/blockchain/blockchain.cpp:2552-2660 | a period's rewards can be computed exactly when its boundary is a multiple of the period's length and its commissions and votes are known |
| RewardPeriod.WalkConserves | src/storage/votedb.cpp:549-596 | conservation over any number of heights |
| RewardPeriod.PeriodConserves | src/blockchain/blockchain.cpp:2552-2819 | what a period pays is at most the rewards of its blocks, and all of them if and only if every rewarded height has voters for its rest |
| RewardPeriod.NoVotersLoses | src/blockchain/blockchain.cpp:2714-2724 | a height whose delegate has no votes pays 82 percent of its reward |
| RewardPeriod.CollectRewards | src/blockchain/blockchain.cpp:2587-2637 | the walk down the branch collects CollectedOf, or fails with it |
| RewardPeriod.SumVotes | src/storage/votedb.cpp:553-557 | a delegate's total is the 256-bit sum of its votes |
| RewardPeriod.WalkThroughDayVote | src/storage/votedb.cpp:516-596 | every height of the day is walked once, in order, with its votes; fails exactly for a day of the wrong length |
| RewardPeriod.CalcDistributeVoteReward | src/blockchain/blockchain.cpp:2552-2819 | the reward map of a boundary block is PeriodRewards, which fails exactly as PeriodRewardsIff says |
| RewardTx.RegroupFailsIff | src/blockchain/blockchain.cpp:2437-2462 | regrouping fails exactly when a needed function address is missing |
| RewardTx.RegroupExact | src/blockchain/blockchain.cpp:2436-2470 | a recipient gets exactly the sum of the entries directed to it, which DirectedIsOwed gives address by address |
| RewardTx.DirectedIsOwed | src/blockchain/blockchain.cpp:2437-2469 | what is directed to an address is what is paid to it, unless it is a function address, and all that is paid to the function addresses that point to it |
| RewardTx.RegroupFlag | src/blockchain/blockchain.cpp:2459-2469 | a payee may be a plain public-key address unless the last entry that pays it is its own or comes through a function address |
| RewardTx.RegroupConserves | src/blockchain/blockchain.cpp:2436-2470 | regrouping conserves the total |
| RewardTx.RewardTxsInOrder | src/blockchain/blockchain.cpp:2495-2506 | recipients and nonces of the reward transactions both increase strictly |
| RewardTx.SlotInRange | src/blockchain/blockchain.cpp:2480-2493 | every list index written is in range |
| RewardTx.ChunksExact | src/blockchain/blockchain.cpp:2480-2546 | every list but the last is full, the last is neither empty nor overfull, and together they are the transactions in order |
| RewardTx.EndVoteRewardExact | src/blockchain/blockchain.cpp:2419-2550 | the lists pay the rewards' total, to strictly increasing recipients with strictly increasing nonces, cut evenly |
| RewardTx.EndVoteRewardPays | src/blockchain/blockchain.cpp:2495-2547 | every reward transaction pays its recipient all it is owed, from nobody and free of charge, with its place in the order as nonce; whoever is owed anything has one |
| RewardTx.EndVoteRewardIff | src/blockchain/blockchain.cpp:2419-2550 | the lists can be computed exactly when the fork is known, no needed function address is missing and, unless there is nothing to pay, blocks may carry rewards and every payee that needs an address context has one |
| RewardTx.RegroupRewards | src/blockchain/blockchain.cpp:2436-2470 | the regrouping loop computes Regroup |
| RewardTx.MakeLists | src/blockchain/blockchain.cpp:2474-2547 | the transaction loop computes the even cut, or fails exactly when a recipient that needs an address context has none |
| RewardTx.CalcEndVoteReward | src/blockchain/blockchain.cpp:2419-2550 | the lists are EndVoteReward, which fails exactly as EndVoteRewardIff says |
| Release.BoundaryExists | src/blockchain/blockchain.cpp:1960-1970 | at height D or more the walk down finds a stored boundary block, itself at height D or more |
| Release.EndRewardIsLists | src/blockchain/blockchain.cpp:1994-2011 | the previous block decides whether the calculation succeeds, not what it yields, so the lists may be cached |
| Release.RewardCache.constructor | src/blockchain/blockchain.cpp:1979 | the cache starts empty |
| Release.RewardCache.Evict | src/blockchain/blockchain.cpp:1979-1992 | exactly eight entries are left of more, the smallest keys go but never the needed one, and the iterator never runs off the end |
| Release.RewardCache.ListsFor | src/blockchain/blockchain.cpp:1979-2020 | what is returned is the lists of the boundary, from the cache or not; it fails exactly when they are neither cached nor computable |
| Release.RewardCache.CalcBlockVoteRewardTx | src/blockchain/blockchain.cpp:1940-2048 | the result is what is due after the previous block whatever the cache holds; it fails exactly when Answered does not hold, and what was answered once is answered again |
| Release.RewardCache.VerifyVoteRewardTx | src/blockchain/blockchain.cpp:2277-2306 | a block passes exactly when it starts with the transactions due, and their number is returned |
| Release.RewardCache.ArrangeBlockTx | src/blockchain/blockmaker.cpp:353-384 | the producer puts the transactions due first, all of them, or fails exactly when they cannot be had or do not fit; VerifyVoteRewardTx accepts what it made |
| Release.VerifiedStarts | src/blockchain/blockchain.cpp:2316-2354 | a block that passes both verifications starts with the rewards due and has no others |
| Release.AcceptedRewards | src/blockchain/blockchain.cpp:2316-2354 | the vote-reward transactions of an accepted block are exactly those due |
| Release.ProducerStarts | src/blockchain/blockmaker.cpp:358-376 | what the producer arranges is what the verifier demands |
| Release.PrimaryIndex | src/blockchain/blockchain.cpp:2022-2029 | on the primary chain the height above the boundary counts the blocks that carry lists |
| Release.DueAbove | src/blockchain/blockchain.cpp:2022-2046 | a block above the boundary must carry the list that counts the non-vacant blocks below it; vacant blocks carry none |
| Release.OnlyBetweenBoundaries | src/blockchain/blockchain.cpp:1944-1977 | rewards are due only to primary, subsidiary and extended blocks strictly between two boundaries, after the first period, when the boundary below belongs to the fork |
| Release.ReleasedExactly | src/blockchain/blockchain.cpp:1940-2048 | at every block of an accepted branch the rewards released since the boundary are the first lists in order, one per non-vacant block |
| Release.AllReleasedIff | src/blockchain/blockchain.cpp:2022-2046 | everything is released exactly when there were as many non-vacant blocks as lists |
| Release.PrimaryReleasesAllIff | src/blockchain/blockchain.cpp:1944-2029 | before the next boundary the primary chain has released everything exactly when there are fewer lists than the period has heights |
| Release.ListCount | src/blockchain/blockchain.cpp:2480-2492 | a boundary has as many lists as its recipients fill |
| Release.LateListsLost | src/blockchain/blockchain.cpp:1944-2029 | with one reward transaction to a block and at least D recipients, the primary chain never releases everything |
| Release.ReleasedWithinPeriod | src/blockchain/blockchain.cpp:1940-2048 | a branch never releases more than the rewards of the period below its boundary, and pays no recipient twice |
| Economy.EarnedSplit | src/blockchain/blockchain.cpp:2585-2637 | a period's rewards and those before it are all rewards of the fork so far |
| Economy.ReleasedWithinEarned | src/blockchain/blockchain.cpp:1940-2048 | over all periods of an accepted branch, the vote rewards released are at most the rewards its blocks had earned by the boundary the current period started from |
| Economy.GrantedIsReleased | src/blockchain/blockchain.cpp:2316-2354 | what the ledger counts as granted on a branch is what was released and what the mints may claim |
| Economy.ForkMoney | src/blockchain/blockchain.cpp:2308-2417 | the money of a fork never exceeds its start, what its blocks have earned, and what their mints were granted |
| Ledger.VerifyBlockTx | src/blockchain/blockchain.cpp:2308-2417 | the loop computes Verdict; where no sum overflows, a block passes exactly when every transaction's kind fits its place, its sender can pay out of its stored balance and the block so far, its nonce is the next, nothing else is refused, and the mint is within fees and reward |
| Ledger.RunDoneIff | src/blockchain/core.cpp:717-734 | a block's transactions are all accepted if and only if each is admissible, told from the stored ledger and the earlier transactions alone |
| Ledger.FirstComplaint | src/blockchain/core.cpp:717-734 | the first transaction that is not decides the error: wrong kind, not enough funds, wrong nonce or another check, in this order |
| Ledger.VerdictIff | src/blockchain/blockchain.cpp:2308-2417 | the verdict in full, with the mint against fees and reward |
| Ledger.ApplyTx | src/blockchain/blockchain.cpp:2318-2405 | one transaction's effect on the running states, loading an address when first needed |
| Ledger.ApplyMoney | src/blockchain/blockchain.cpp:2365-2402 | one transaction moves money apart from its fee, or issues it when it has no sender |
| Ledger.RunMoney | src/blockchain/blockchain.cpp:2308-2407 | the money after an accepted run is the money before, plus what is issued, minus the fees |
| Ledger.RunBalance | src/blockchain/core.cpp:717-725 | no balance goes negative: each ends at start plus received minus sent with fees, exactly |
| Ledger.NonceAt | src/blockchain/core.cpp:726-734 | a sender's nonces are used in order without gaps |
| Ledger.NoncesIncrease | src/blockchain/core.cpp:726-734 | two transactions of one sender in a block carry increasing nonces, so there is no replay |
| Ledger.KindsSeparated | src/blockchain/blockchain.cpp:2319-2354 | exactly the first transactions of an accepted block, as many as are due, are vote rewards |
| Ledger.BlockMoney | src/blockchain/blockchain.cpp:2408-2416 | a block adds at most its vote rewards and its block reward to the money |
| Ledger.BlockBalance | src/blockchain/blockchain.cpp:2308-2417 | every balance after a block is its start plus what it received and the minter's mint, minus what it sent with fees |
| Ledger.ChainMoney | src/blockchain/blockchain.cpp:2308-2417 | over any accepted chain the money grows by at most the vote rewards and block rewards |
| Ledger.ChainNonce | src/blockchain/core.cpp:726-734 | over any accepted chain a sender's nonce counts its transactions |
| SubFork.SameChainIff | src/storage/blockbase.cpp:4906-4929 | the height test never cuts the ancestor search short |
| SubFork.VerifySameChain | src/storage/blockbase.cpp:4906-4929 | the answer is whether one block is an ancestor of the other, and the walk never meets a null pointer |
| SubFork.GetPrimaryHeightBlockTime | src/storage/blockbase.cpp:4989-5009 | the time of the primary ancestor at a height, if there is one |
| SubFork.VerifySubsidiaryIff | src/blockchain/core.cpp:665-715 | a subsidiary or extended block meets the slot, time and ballot rules exactly when its mint is the ballot, it is later than its parent and its time is that of its slot |
| SubFork.CheckRefIff | src/blockchain/blockchain.cpp:1370-1393 | the reference check passes exactly when the parent starts the fork or refers to an ancestor of the new reference |
| SubFork.VerifyBlockIff | src/blockchain/blockchain.cpp:1328-1510 | a subsidiary, extended or vacant block passes if and only if it is lawful: drawn by ballot with the agreement of its reference, continuing the fork's references, and opening a round, carrying one on or filling a gap as its kind demands |
| SubFork.RefsOrdered | src/blockchain/blockchain.cpp:1370-1393 | all references of an accepted branch lie on one primary branch in non-decreasing order |
| SubFork.ExtendedOnSubsidiary | src/blockchain/blockchain.cpp:1395-1408 | extended blocks only ever continue a subsidiary block, with its agreement |
| SubFork.BranchRules | src/blockchain/core.cpp:665-715 | every block of an accepted branch is minted by the delegate drawn for its reference; subsidiary blocks have the reference's time and slot zero, extended ones their slot's time in range; both are strictly later than their parents |
| SubFork.ExtendedTime | src/blockchain/core.cpp:684-703 | an accepted extended block's time is its reference's plus its slot, which is positive and below target over extended spacing |
| SubFork.SlotsRise | src/blockchain/core.cpp:695-702 | consecutive extended blocks with one reference have strictly increasing slots |
| SubFork.ExtendedRunBounded | src/blockchain/core.cpp:684-703 | so there are fewer than target over extended spacing of them |
| SubFork.VacantTime | src/blockchain/blockchain.cpp:1493-1510 | an accepted vacant block has the time of the primary block at its height |
| BlockMaker.NextKeeps | src/blockchain/blockmaker.cpp:527-720 | whatever the node answers, every task keeps the queue in time order with one task per fork, each continuing its fork's last dispatched block |
| BlockMaker.ChooseIff | src/blockchain/blockmaker.cpp:549-637 | when a subsidiary block is placed, put off or given up, as an equivalence over forks ahead, level, behind and stuck, in numbers |
| BlockMaker.NextEffect | src/blockchain/blockmaker.cpp:527-720 | one task's whole effect: a subsidiary task adds its block to the fork's log and queues the first slot, or stays queued, or goes; an extended task adds its block exactly when it was filled, signed and dispatched, and queues the next slot either way; other forks are untouched |
| BlockMaker.SubsidiaryOutcome | src/blockchain/blockmaker.cpp:546-661 | the effect of a subsidiary task, which outcome exactly when |
| BlockMaker.ExtendedOutcome | src/blockchain/blockmaker.cpp:662-711 | the effect of an extended task, which outcome exactly when |
| BlockMaker.InsertAt | src/blockchain/blockmaker.cpp:715-719 | a task is queued after all that are due no later and before all that are due later |
| BlockMaker.SubsidiaryPlaced | src/blockchain/blockmaker.cpp:549-637 | a subsidiary block is put one height below its reference, exactly where Placed says, put off exactly when PutOff says, and numbered after its parent exactly when a gap was just filled or the parent has the number of the fork's last block at preparation |
| BlockMaker.SubsidiaryNumberIff | src/blockchain/blockmaker.cpp:557-580 | on one branch, level or ahead, the number is right exactly when the fork's last block has not changed |
| BlockMaker.StaleNumber | src/blockchain/blockmaker.cpp:558-568 | a fork that has run ahead gets a number that is too high |
| BlockMaker.SubsidiaryPassesIff | src/blockchain/core.cpp:668-682 | the producer's subsidiary block passes the slot and time rules exactly when its parent is earlier than its reference |
| BlockMaker.SubsidiaryPasses | src/blockchain/blockmaker.cpp:638-650 | on an accepted parent whose reference is at least the target spacing earlier it always passes |
| BlockMaker.SubsidiaryAcceptedIff | src/blockchain/blockchain.cpp:1328-1419 | the whole of VerifyBlock on the producer's subsidiary block: it passes exactly when the parent starts the fork or refers to an ancestor of the reference, and is earlier |
| BlockMaker.SubsidiaryAccepted | src/blockchain/blockchain.cpp:1328-1419 | so it passes on an accepted block whose reference is an ancestor at least the target spacing earlier |
| BlockMaker.FarBehindWaits | src/blockchain/blockmaker.cpp:584-610 | a fork far behind is filled up only after it was seen stuck at that height for the waiting time |
| BlockMaker.OnSlotPasses | src/blockchain/core.cpp:684-703 | a block on its slot passes exactly when its slot number is in range |
| BlockMaker.LastSlotFails | src/blockchain/blockmaker.cpp:714 | without divisibility the last slot queued is refused by the verifier |
| BlockMaker.AllSlotsPassIff | src/blockchain/blockmaker.cpp:714-719 | every slot that can be queued passes if and only if the extended spacing divides the target spacing or exceeds it |
| BlockMaker.NextShrinks | src/blockchain/blockmaker.cpp:527-720 | every task that is not put back leaves less to do |
| BlockMaker.RunAllGood | src/blockchain/blockmaker.cpp:527-720 | after any run the invariant holds and the number of tasks done is bounded |
| BlockMaker.TasksBounded | src/blockchain/blockmaker.cpp:527-720 | a call processes a bounded number of tasks per fork, however long it runs |
| BlockMaker.EveryQueuedBlock | src/blockchain/blockmaker.cpp:662-719 | after any run a queued extended block follows the fork's last dispatched block with the next number, even after failed slots, and passes the verifier |
| BlockMaker.ExtendedAccepted | src/blockchain/blockchain.cpp:1328-1419 | the whole of VerifyBlock accepts a queued extended block on the fork's last made block |
| BlockMaker.ForkMaker.constructor | src/blockchain/blockmaker.cpp:505-506 | the queue starts empty |
| BlockMaker.ForkMaker.Prepare | src/blockchain/blockmaker.cpp:501-525 | one subsidiary task for each served fork, or nothing when a fork context is missing |
| BlockMaker.ForkMaker.Subsidiary | src/blockchain/blockmaker.cpp:546-661 | a subsidiary task changes the state by DoSubsidiary, whose effect SubsidiaryOutcome gives exactly |
| BlockMaker.ForkMaker.Extended | src/blockchain/blockmaker.cpp:662-711 | an extended task changes the state by DoExtended, whose effect ExtendedOutcome gives exactly |
| BlockMaker.ForkMaker.NextTask | src/blockchain/blockmaker.cpp:713-719 | the next extended task, when its slot ends in time |
| BlockMaker.ForkMaker.Step | src/blockchain/blockmaker.cpp:527-720 | one turn of the loop has the effect StepEffect gives exactly and keeps the invariant |
| BlockMaker.ForkMaker.Process | src/blockchain/blockmaker.cpp:498-721 | the loop is RunAll of the answers it gets and keeps the invariant |
| BlockMaker.GetLastBlockTime | src/blockchain/blockchain.cpp:389-412 | the loop lists LastTimes |
| BlockMaker.LastTimesAt | src/blockchain/blockchain.cpp:389-412 | on the primary chain the i-th time listed is in range and is that of the block i below the tip |
| BlockMaker.CreateVacant | src/blockchain/blockmaker.cpp:905-915 | the next vacant block continues the ones made, with its primary time read in range |
| BlockMaker.ReplenishSubForkVacant | src/blockchain/blockmaker.cpp:893-925 | times are read in range only; the blocks are consecutive in height and number, each on the one before, with the primary time at its height as counted from the tip; there is one per missing height, or as many as could be dispatched |
| BlockMaker.CheckVacantIff | src/blockchain/blockchain.cpp:1493-1510 | the vacant rule holds exactly for the time of the primary block at that height |
| BlockMaker.VacancyPassesIff | src/blockchain/blockmaker.cpp:893-925 | whatever the tip, a vacant block meets that rule if and only if the tip's chain has, at the shifted height, the time of the reference's chain |
| BlockMaker.VacancyOnChainIff | src/blockchain/blockmaker.cpp:893-925 | while the reference is on the tip's chain, if and only if it is the tip |
| BlockMaker.VacancyAcceptedIff | src/blockchain/blockchain.cpp:1421-1510 | the whole of VerifyBlock on a vacant block then: it passes exactly when it continues the fork's references and the reference is the tip |
| BlockMaker.VacancyBelowForkPasses | src/blockchain/blockmaker.cpp:893-925 | after a reorganisation to a tip of the same height the vacant blocks up to the fork point still pass |
| BlockMaker.MovedTipFails | src/blockchain/blockmaker.cpp:893-925 | with one new primary block the last vacant block is refused |
| Ballot.GetDelegatedBallot | src/blockchain/core.cpp:1000-1078 | trust and ballot are those of the draw over the enrolled delegates' capped weights |
| Ballot.XorAllLaws | src/blockchain/core.cpp:1019-1023 | every word of the agreement counts once in the number drawn: one word is itself, and parts combine by exclusive or |
| Ballot.DrawFrom | src/blockchain/core.cpp:1062-1071 | the selection loop computes Pick |
| Ballot.DrawnIff | src/blockchain/core.cpp:1062-1071 | a number draws a delegate exactly when it is below the total weight, and then one whose interval holds it |
| Ballot.ShareIsWeight | src/blockchain/core.cpp:1062-1071 | of all residues a delegate wins exactly as many as its weight, so one without weight never wins |
| Ballot.WeightSumIsTotal | src/blockchain/core.cpp:1029-1046 | with no delegate listed twice the accumulated weight is the total over the delegates |
| Ballot.TrustIsTotal | src/blockchain/core.cpp:1029-1046 | and the trust is the total of the capped amounts |
| Ballot.AlwaysDrawsIff | src/blockchain/core.cpp:1056-1071 | the draw never comes out empty if and only if no weight was lost to a delegate listed twice |
| Ballot.ListedTwice | src/blockchain/core.cpp:1029-1071 | a delegate listed twice counts twice but wins once, so a residue draws nobody |
| Ballot.OrderIrrelevant | src/blockchain/core.cpp:1029-1077 | the order of the votes changes neither the ballot nor the trust |
| Reorg.GetBlockChanges | src/blockchain/blockchain.cpp:1252-1280 | the loop yields Changes, with the unsigned comparison and both null dereferences, or a read error exactly when a block on its way is unreadable |
| Reorg.ReadsAreLists | src/blockchain/blockchain.cpp:1259-1277 | the blocks read are those of the two lists and no others |
| Reorg.ReplayReachesNewTip | src/blockchain/blockchain.cpp:1252-1280 | undoing the removed blocks and replaying the added ones leads from the old tip to the new one |
| Reorg.ExactIff | src/blockchain/blockchain.cpp:1255-1278 | the lists are the two paths to the lowest common ancestor if and only if that ancestor is strictly earlier than the first block above it on the old side |
| Reorg.StrictTimesExact | src/blockchain/blockchain.cpp:1255-1278 | so they always are when times increase strictly |
| Reorg.CommonAncestor | src/blockchain/blockchain.cpp:1255-1278 | two tips over one root have a lowest common ancestor to which the other lemmas apply |
| Reorg.EqualTimesFault | src/blockchain/blockchain.cpp:1255-1278 | from a child back to its equally old root the walk runs past the root |
| Reorg.NullOldTip | src/blockchain/blockchain.cpp:1257-1258 | without an old tip the whole branch is delivered if and only if all its blocks have the largest 64-bit time; otherwise the null old tip is followed |
| Orphan.OrphanMap.AddNew | src/blockchain/schedule.cpp:21-24 | one edge is added behind the parent's others |
| Orphan.OrphanMap.Remove | src/blockchain/schedule.cpp:26-40 | exactly the entries with this value are erased |
| Orphan.OrphanMap.GetNext | src/blockchain/schedule.cpp:51-61 | the children not seen yet are appended, each once |
| Orphan.OrphanMap.RemoveBranch | src/blockchain/schedule.cpp:63-76 | returns every hash reachable from the root exactly once, erases exactly the edges leaving the root or a returned hash, and never outgrows the reserved capacity |
| Inventory.AskedOfOnePeer | src/blockchain/schedule.cpp:800-867 | an object is asked of at most one peer at a time |
| Inventory.AnnounceKeeps | src/blockchain/schedule.cpp:150-164 | an announcement within the limits keeps both indexes mirrored and all limits |
| Inventory.RemoveKeeps | src/blockchain/schedule.cpp:166-180 | so does removing an inventory from its peers |
| Inventory.ArriveKeeps | src/blockchain/schedule.cpp:212-255 | so does the arrival of an object |
| Inventory.CancelKeeps | src/blockchain/schedule.cpp:392-425 | so does giving up a request |
| Inventory.DepartKeeps | src/blockchain/schedule.cpp:110-138 | so does the departure of a peer |
| Inventory.RequestKeeps | src/blockchain/schedule.cpp:800-867 | so does asking an idle peer for up to its limit of unassigned objects |
| Schedule.Scheduler.CheckAddInvIdleLocation | src/blockchain/schedule.cpp:140-148 | there is room exactly when neither the total nor the peer's count is at its limit; the peer's record is created only when the state table has room |
| Schedule.Scheduler.AddNewInv | src/blockchain/schedule.cpp:150-164 | an announcement is taken exactly when there is room, and only the two indexes change |
| Schedule.Scheduler.RemoveInv | src/blockchain/schedule.cpp:166-180 | the state, the peers' entries and the orphan edges of an inventory go, and its peers are returned |
| Schedule.Scheduler.RemoveInvState | src/blockchain/schedule.cpp:182-210 | the state and the orphan edges of an inventory go |
| Schedule.Scheduler.RemovePeer | src/blockchain/schedule.cpp:110-138 | afterwards no state mentions the peer, states known to nobody else are gone, and the peers to reschedule are returned |
| Schedule.Scheduler.Receive | src/blockchain/schedule.cpp:212-255 | an object is taken exactly from the peer it was asked of and has not come yet |
| Schedule.Scheduler.GetBlock | src/blockchain/schedule.cpp:257-270 | a block is found exactly when it has been received |
| Schedule.Scheduler.GetTransaction | src/blockchain/schedule.cpp:272-285 | a transaction is found exactly when it has been received |
| Schedule.Scheduler.CheckPrevTxInv | src/blockchain/schedule.cpp:86-99 | a transaction others wait for is marked missing exactly when it has not been received |
| Schedule.Scheduler.AddOrphanTxPrev | src/blockchain/schedule.cpp:292-295 | one orphan edge between transactions is added |
| Schedule.Scheduler.CancelAssignedInv | src/blockchain/schedule.cpp:392-425 | the peer no longer owes the inventory, which goes when nobody else knows it |
| Schedule.Scheduler.SetDelayedClear | src/blockchain/schedule.cpp:565-574 | only the time to clear the object changes |
| Schedule.Scheduler.InvalidateBlock | src/blockchain/schedule.cpp:316-325 | no state is left for the block or any block reachable from it, all others are unchanged, and exactly the peers that knew one are reported |
| Schedule.Scheduler.InvalidateTx | src/blockchain/schedule.cpp:327-336 | the same for a transaction and those that wait for it |
| Schedule.Scheduler.ScheduleKnownInv | src/blockchain/schedule.cpp:790-904 | what is returned was asked of nobody and is asked of this peer now, at most the maximum; dropped is only what has had ten requests, is an hour old after a request or half a day old, or was received and kept long enough, and all of that when the answer is short; receivedAll exactly when the remaining list is non-empty and wholly received |
| Schedule.Scheduler.ScanKnown | src/blockchain/schedule.cpp:839-901 | under the mirror invariant the cleanup of announcements without a state finds nothing |
| Schedule.Scheduler.ScheduleBlockInv | src/blockchain/schedule.cpp:338-369 | an idle peer ends up owing exactly what is returned, and a short answer leaves nothing unassigned; it fails exactly for a full, wholly received list, and asks for more announcements exactly when the time has come and there were none or all have been received and there is room |
| Schedule.Scheduler.ScheduleTxInv | src/blockchain/schedule.cpp:371-390 | the same for transactions, without the announcements |
| NetChannel.SchedulePeerInv | src/blockchain/netchn.cpp:1475-1530 | a peer is asked for at most two blocks or else at most eight transactions, never both kinds, and then owes exactly these; a short request leaves nothing unassigned; the peer is dropped exactly when a list is clogged |
| TxChannel.AddNewTx | src/blockchain/netchn.cpp:1832-1915 | the transaction worklist ends, adds no transaction twice, queues each only behind an earlier one of its sender that the pool has or takes and then always, lets go of exactly what the pool has, takes or discards, leaves only those that wait for a nonce or a later time, and touches no block |
| TxChannel.FollowUp | src/blockchain/netchn.cpp:1756-1788 | the transactions of a stored block let the next of their senders through, unless it has to wait, and are forgotten |
| NetChannel.WorkOff | src/blockchain/netchn.cpp:1605-1822 | a block the chain holds hands its orphan children to the queue; a dispatched block loses its state in any case; a stored one forgets and follows up its transactions; the run stops exactly at a block not held whose verdict ends it, which is then kept for two or three minutes more |
| NetChannel.AddNewBlock | src/blockchain/netchn.cpp:1602-1830 | the worklist ends, dispatches no block twice and every block but the first only after a parent the chain holds; it is stopped if and only if it meets a received block outside the chain whose verdict ends the run and which is the first or an orphan child of a block passed on, and then all before it is worked off; else no orphan child of a held block is left behind except cached work |
| NetChannel.NoObstacle | src/blockchain/netchn.cpp:1607-1830 | a run that works off its queue has met no such block |
| NetChannel.StoppedByObstacle | src/blockchain/netchn.cpp:1607-1830 | a block that stops the run is one, and it waits for the first block, directly or through others |
| NetChannel.AttachChain | src/blockchain/netchn.cpp:1226-1244 | a waiting chain is stored as a whole if the chain takes all of it and no block that waits for its start ends the run |
| NetChannel.CheckPrevBlock | src/blockchain/netchn.cpp:2177-2214 | finds the earliest received ancestor joined by orphan edges |
| NetChannel.WaitingChainIsStored | src/blockchain/netchn.cpp:1226-1244 | starting there, a run that goes through stores the whole waiting chain |
| NetChannel.WaitingChainReaches | src/blockchain/netchn.cpp:2177-2214 | the start reaches the block over orphan edges |
| NetChannel.OnOrphanBlock | src/blockchain/netchn.cpp:1224-1252 | an orphan whose waiting chain can be attached ends up stored with the whole chain, unless a block that waits for its start ends the run; if the chain starts in another fork, the whole chain is dropped; if its parent is unknown, nothing else changes |
| NetChannel.OnBlock | src/blockchain/netchn.cpp:1201-1254 | a delivered block is attached, dropped with all that waits for it, or filed as an orphan, by where its parent is, each with its exact outcome |
| NetChannel.Run | src/blockchain/schedule.cpp:86-425 | after any run of events, with fresh verdicts in each, the indexes mirror each other, every state has a peer, requests are exclusive, and all limits hold |
| BlockCache.IndexIsInverse | src/blockchain/chnblock.cpp:303-348 | the parent index is the inverse of the parent relation, without empty sets |
| BlockCache.Cache.AddCacheBlock | src/blockchain/chnblock.cpp:303-322 | a block is added after the lowest are evicted, no more of them than needed; index, byte counter and count bound stay exact |
| BlockCache.Cache.RemoveCacheBlock | src/blockchain/chnblock.cpp:324-348 | one block goes and the byte counter does not underflow |
| BlockCache.Cache.AddNextBlock | src/blockchain/chnblock.cpp:350-400 | the stored block's cached children are dispatched in hash order; neither the block, its cached ancestors nor its children stay |
| BlockCache.Cache.ClearCacheTimeout | src/blockchain/chnblock.cpp:402-424 | exactly the blocks older than a day go, at most once a minute |
| BlockCache.NothingOfStoredLeft | src/blockchain/chnblock.cpp:350-400 | neither a stored block nor a child of it stays cached |
| BlockCache.Run | src/blockchain/chnblock.cpp:303-424 | after any run of arrivals and stored blocks the index is the exact inverse, the byte counter the exact sum, and the count bound holds |
| Bulletin.GetBitmap | src/blockchain/delegatedchn.h:115-123 | bit i is set exactly when the i-th enrolled delegate has data |
| Bulletin.GetKnownData | src/blockchain/delegatedchn.h:124-133 | the delegates whose bit is set |
| Bulletin.AskFor | src/blockchain/delegatedchn.cpp:157-189 | the bits the peer has and this node lacks |
| Bulletin.AskIsDifference | src/blockchain/delegatedchn.cpp:157-189 | with at most 64 enrolled, what is asked for is exactly what the peer has and this node lacks |
| Bulletin.DelegateWindow.Rollback | src/blockchain/delegatedchn.cpp:51-62 | the anchors above the new start are dropped with their entries, and everything else is kept |
| Bulletin.DelegateWindow.Push | src/blockchain/delegatedchn.cpp:64-76 | the new blocks come in front, each with its delegates in key order |
| Bulletin.DelegateWindow.PublishAt | src/blockchain/delegatedchn.cpp:95-101 | publish data goes to the oldest anchor of a full window only |
| Bulletin.DelegateWindow.Update | src/blockchain/delegatedchn.cpp:45-102 | for any distributions, the window is the newest anchors, at most one more than the interval; every entry holds exactly what was kept, enrolled, distributed and, at the oldest anchor of a full window, published; the entries besides the anchors are exactly the old and new ones that name no candidate |
| Bulletin.DistributedAt | src/blockchain/delegatedchn.cpp:78-81 | all distribute data given is stored: what an anchor holds is kept, else the first given for it is taken, and nothing else is stored |
| Bulletin.KeysAreAnchorsIff | src/blockchain/delegatedchn.cpp:78-81 | the entries stay exactly the anchors if and only if every distribution names a candidate anchor |
| Bulletin.StrayDistribution | src/blockchain/delegatedchn.cpp:78-81 | a distribution for a block never seen stays behind |
| Bulletin.ListedOnChain | src/blockchain/delegatedchn.cpp:51-93 | the listed anchors are always the newest blocks of the chain |
| Bulletin.Run | src/blockchain/delegatedchn.cpp:45-267 | over any run of updates and arriving data: the window lists the newest blocks of the chain within its bound, all have entries, publish data sits at the oldest only, and without stray distributions there are no other entries |
| Bulletin.DelegateWindow.InsertDistributeData | src/blockchain/delegatedchn.cpp:234-243 | data is taken for a known anchor once, and nothing else changes |
| Bulletin.DelegateWindow.InsertPublishData | src/blockchain/delegatedchn.cpp:245-267 | publish data is taken for the oldest anchor of a full window only |
| Bulletin.DelegateWindow.AskForDistribute | src/blockchain/delegatedchn.cpp:157-167 | what the peer has and this node lacks, for a known anchor |
| Bulletin.DelegateWindow.AskForPublish | src/blockchain/delegatedchn.cpp:169-189 | the same for publish data |

## Left out

- Storage, contract execution, verifiable secret sharing, signatures, hashing and serialization: their answers are parameters.
- Mutexes, condition variables, timers and the event bus: each handler is one atomic step and time is an input.
- The primary branch of VerifyBlock (proof of work, stake timestamp, certificates) and the repeat, checkpoint and size checks of a block: short conditions with easy properties.
- The checks of VerifyTransaction other than balance and nonce: one set of refused transactions stands for them.
- Address data attached to reward transactions: it depends on the previous block and is not part of a transaction here.
- Locators, repeat-block records, reference-block maps, the height index and the proof-of-work caches of the scheduler; of the index of received transactions by sender and nonce only its effect on the transaction worklist.
- CheckPrevTx of the network channel, which nothing calls: its steps are events of `NetChannel.Run`.
- Suppression of resent bulletins to a peer, and the wait for a peer's address.
- Release.RewardCache.CalcBlockVoteRewardTx: how a height is packed into a block hash is a parameter, and the lookups are constant while lists are cached; a primary reorganisation that changes which block stands at a height is not tracked.
- RewardTx.EndVoteRewardExact: assumes at most 2^32 recipients, because the transaction counter has 32 bits; wrap-around of the counter is not modelled.
- RewardPeriod.PeriodConserves: assumes that the period's total times a delegate's votes, and times 10000, fit in 256 bits; beyond that the arithmetic wraps around as modelled, and no law is stated.
- Ledger.ChainMoney: contract execution, which also moves money, is not modelled; the ledger after a block is the verification's own.
- Economy.ForkMoney: the same, and the mint reward the verifier grants is a given number for each block.
- Bulletin.AskIsDifference: for more than 64 enrolled delegates the shifts are undefined in the source, so nothing is stated.
- NetChannel.AddNewBlock: a block is judged once per call; verdicts may differ from call to call.
- NetChannel.SchedulePeerInv: locators are not modelled; the request for more announcements is taken to have one.
- NetChannel.CheckPrevBlock: that hashes cannot name each other in a circle is an assumption, given as a rank.
- Ballot.GetDelegatedBallot: the machine-word widths of weights are not modelled; they cannot overflow with the caps in use.
- Schedule.Scheduler.AddNewInv: peers have a non-zero nonce, because zero stands for nobody in the source's own states.
