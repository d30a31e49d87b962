# A verified model of the XGT node

XGT is a blockchain node in the Graphene family.  This project models the parts of it whose
correctness is hard to see from reading one function, and proves what they keep over every run:

- **Fork choice, rewind and irreversibility** (`Blocks`, `ForkDatabase`, `ChainDatabase`,
  `ChainRuns`).  A tree of blocks with a cache of blocks that do not link yet; pushing, popping and
  switching forks on top of an arbitrary state transition with an undo stack; moving irreversible blocks
  to the block log; short runs that reach the states in which this goes wrong.
- **The block log on disk** (`BlockLog`): records, trailing positions, the index file and its recovery,
  byte by byte.
- **Multi-signature authorities** (`SignState`): a depth-limited, caching recursion compared with a least
  fixed point over a possibly cyclic delegation graph.
- **The ledger** (`Ledger`, `LedgerEffects`, `EscrowAudit`, `Evaluators`, `Rewards`): escrows, transfers, contributions,
  burning and mining rewards; conservation over whole runs and the books of every single escrow.
- **No transaction twice** (`Dedupe`): the duplicate index and the purge that forgets.
- **Exact arithmetic** (`Bits`, `UInt128`, `UInt128Text`, `ResourceDynamics`).
- **Sync bookkeeping** (`Sync`, `Synopsis`): what is wanted, requested, outstanding and received over all
  peers, and the synopsis that a peer is asked with.
- **The Merkle root** (`Merkle`), computed in the buffer it overwrites.

Code that changes state step by step is modelled by classes and methods that do the same, each proved
against a function or predicate on values; the theorems about runs are about those.  Hashing is ideal:
an id carries what was hashed (`Blocks`), or the hash is a parameter assumed injective where a statement
says so (`Merkle`).  What the environment decides is a parameter: the state transition of the object
database, the verdict of the chain on a block, packing, the order in which peers are visited.

`dafny verify dfyconfig.toml` checks the whole project.

## What the proofs found

Some properties one would expect do not hold of the code.  The model keeps the code as it is and proves
exactly when they do hold.

- A fork switch is all or nothing exactly when the fork point is not below the log and at most ten blocks
  of the new branch apply before one is refused (`SwitchResult`, `ShortSwitch`).  When the twelfth block of
  a branch is refused the rollback stops on the new branch and the old chain is lost; twelve blocks that
  arrive newest first are enough (`LongSwitchReached`).
- A plain extension that fails leaves the fork head on the block it has just removed.  A block that the
  fork database accepts no higher than that is then applied to the chain whatever it builds on.  `PushBlock` says exactly
  when the chain survives this: not if a block of the right height with another parent is applied
  (`MisappliedReached`), and not if a block of the chain itself is pushed again, because it is then taken
  out of the fork database (`OrphanedReached`).  Without a failed extension or a block refused as too old
  no run gets there (`PushAll`).
- Opening a block log repairs its index unless the log has a single block, or the wrong index happens to
  end with the right position (`BlockLogs.Recovers`).
- A transaction can be executed twice exactly on chains whose block times go back by two seconds or more
  (`RepeatIff`); nothing on the way into the chain compares a block's time with the one before it.
- The closing assertions of the resource setup never fire for validated user parameters (`ValidatedFits`,
  `SetupValidated`).  Without validation they fire exactly for a decay of one and a budget above 2^27; at
  2^27 the setup negates the least 64-bit number (`Setup`, `AssertionsFire`).
- An escrow that is not approved in time can never be moved again (`Stranded`, `CanMoveIff`): the only
  operation that could return the funds is disabled in the block code.
- A block at height 2,116,800 that carries a proof of work is refused on every chain: its operation is judged
  against the previous block of the head and its reward against the head, and no proof names both
  (`NoneAtTheSwitch`, `ChainWithoutProofAtTheSwitch`).
- During sync a peer that is too old for a hard fork is passed over but not disconnected: the list of peers to
  disconnect is filled and never used (`NotifiedMeans`).
- A sync block that a peer turns out not to have stays in the table of active requests although nobody is
  asked for it any more, and so is never requested again (`ItemNotAvailable`, `HandleAll`).

## Model

| member | source | states |
|---|---|---|
| ForkDatabases.ForkDatabase.PushItem | libraries/chain/fork_database.cpp:51-73 | refused without a trace if and only if the block is a whole cache size or more below the head, unlinkable if and only if it is not and has no indexed parent; every other block enters the index, with a cascade of its cached descendants, each below an indexed parent, and the head rises only to such a block; one nobody waits for is just inserted; the cascade is cut short only by a head more than the cache size up; terminates for every cache |
| ForkDatabases.ForkDatabase.PushNext | libraries/chain/fork_database.cpp:81-98 | the loop over cached children, mutually recursive with the push: on a normal end no cached block waits for anything linked on the way and no cached block is lost |
| ForkDatabases.ForkDatabase.PushBlock | libraries/chain/fork_database.cpp:35-49 | as above, and a block is cached exactly when it does not link, with index and head untouched |
| ForkDatabases.PushKeeps | libraries/chain/fork_database.cpp:35-98 | pushing keeps "no cached block is linkable" and "no indexed block is above the head", links every new block to an indexed parent, and moves the head only strictly upwards |
| ForkDatabases.PushedHead | libraries/chain/fork_database.cpp:35-98 | the head after a push is the old one, the pushed block or a block that was cached; a new one is indexed, and so is every accepted block |
| ForkDatabases.ForkDatabase.PopBlock | libraries/chain/fork_database.cpp:16-22 | the head moves to its parent, or nothing happens exactly when there is none |
| ForkDatabases.ForkDatabase.SetMaxSize | libraries/chain/fork_database.cpp:100-129 | exactly the blocks more than the given number below the head leave index and cache |
| ForkDatabases.ForkDatabase.FetchBranchFrom | libraries/chain/fork_database.cpp:175-217 | two parent-linked walks that end just above one common parent, apart until then; fails only if there are no two such walks |
| ForkDatabases.BranchShape | libraries/chain/fork_database.cpp:175-217 | the two walks are disjoint or share exactly their last block, and in that case one of them is that single block |
| ForkDatabases.ForkDatabase.WalkMainBranch | libraries/chain/fork_database.cpp:219-228 | the block of that number on the walk back from the head, whenever that walk is intact, even if the head itself has been removed |
| ForkDatabases.ForkDatabase.FetchOnMainBranch | libraries/chain/fork_database.cpp:230-242 | the shortcut through the number index agrees with walking back from the head |
| ChainDatabases.Database.Undo | libraries/chainbase/include/chainbase/chainbase.hpp:380-424 | state, undo stack and chain go back by exactly one block, or stay if nothing can be undone; keeps the invariant that the state is the replay of the chain |
| ChainDatabases.Database.Commit | libraries/chainbase/include/chainbase/chainbase.hpp:533-539 | exactly the undo states up to the given revision are dropped |
| ChainDatabases.Database.BlocksToWrite | libraries/chain/database.cpp:2430-2447 | every block still to be logged is found in the fork database and is the one on the chain below the fork head, so the assertion that it exists cannot fire |
| ChainDatabases.Database.MigrateIrreversible | libraries/chain/database.cpp:2412-2466 | its first assertion fires exactly when the applied block has not the number of the fork head, and then nothing has changed; otherwise the log is the prefix of the chain up to the highest irreversible number, no append happens at a wrong position, and fork index and undo stack are trimmed to what is above it |
| ChainDatabases.Database.ApplyBlock | libraries/chain/database.cpp:1468-1755 | applied if and only if the state transition accepts the block and it has the number after the head's; then chain, state, log, ring and undo stack advance together, and the chain stays sound if and only if the block names the head; otherwise nothing changes |
| ChainDatabases.ReplayHead | libraries/chain/database.cpp:2331-2410 | along every valid chain the stored head id is that of the last block and the last irreversible number is ten below it |
| ChainDatabases.Database.FetchBlockById | libraries/chain/database.cpp:401-416 | the block with exactly this id, an indexed one before all others; none only if it is in neither fork index, cache nor log |
| ChainDatabases.Database.PopBlock | libraries/chain/database.cpp:841-859 | undoes exactly the head block and saves its transactions in front of the others; fails exactly on an empty chain or when the fork head has no indexed parent, without effect |
| ChainDatabases.Database.PopUntil | libraries/chain/database.cpp:713-715 | the pop loop ends on the fork point exactly when that is not below the log, otherwise on the last logged block with the fork head on an indexed block elsewhere |
| ChainDatabases.Database.ApplyBranch | libraries/chain/database.cpp:717-728 | the blocks of the branch up to the first one that the state transition refuses |
| ChainDatabases.Database.RemoveRest | libraries/chain/database.cpp:733-738 | exactly the refused block and those above it on the branch leave the fork index |
| ChainDatabases.Database.RollBack | libraries/chain/database.cpp:730-753 | with at most ten applied blocks the old chain and fork head are back and the bad blocks are gone; with more the rollback is stuck on the new branch |
| ChainDatabases.Database.SwitchFork | libraries/chain/database.cpp:711-755 | the chain afterwards is given exactly by `SwitchResult`: new branch, old chain, or stuck; after a rollback fork head and chain head are the old ones and the refused block and its descendants on the branch are removed; logged blocks never change |
| ChainDatabases.ShortSwitch | libraries/chain/database.cpp:703-756 | a switch above the log to a branch of at most eleven blocks is all or nothing |
| ChainDatabases.Database.PushBlock | libraries/chain/database.cpp:691-779 | which block meets which fate, from the fork database, chain and state before: a block that builds on the head and that nobody waits for extends the chain if and only if the transition accepts it; a higher branch is unknown if and only if the walks never meet, and otherwise ends as `SwitchResult` says; the whole state afterwards; the chain survives if and only if no block was applied to a head it does not name and none of the chain's own blocks was removed, which takes a fork head left behind by a failed extension or a cascade cut short; the state is always the replay of the chain and the log only grows |
| ChainDatabases.Database.PushAll | libraries/chain/database.cpp:691-779 | over every sequence of pushed blocks, past all that are refused, cached, fail to apply or fail to switch, nothing once logged changes or disappears and the state is the replay of the chain; the run goes through if and only if no push breaks the chain, and none does without an earlier failed extension or a block refused as too old |
| ChainDatabases.Database.Extend | libraries/chain/database.cpp:761-776 | the pushed block is applied although it is the fork head that builds on the chain: extended if and only if accepted and of the right number, otherwise removed; the chain survives exactly if an applied block names the head and a removed one is not among the chain's unlogged blocks |
| ChainDatabases.Database.TrySwitch | libraries/chain/database.cpp:703-756 | a higher branch is switched to, rolled back or left stuck exactly as `SwitchResult` of the branches found says, and unknown if and only if there are none; the database can be pushed to again in every case |
| ChainRuns.LongSwitchLosesChain | libraries/chain/database.cpp:740-751 | a switch to a branch of twelve blocks, the last one bad, loses the old chain |
| ChainRuns.LongSwitchReached | libraries/chain/database.cpp:691-779 | and a run of thirteen pushes from the empty database does just that |
| ChainRuns.MisappliedReached | libraries/chain/database.cpp:759-776 | a run of four pushes after which the chain is not linked any more |
| ChainRuns.OrphanedReached | libraries/chain/database.cpp:771-776 | a run of three pushes after which the fork database does not know the chain's head |
| ChainDatabases.RingSound | libraries/chain/database.cpp:2323-2329 | an id in the summary ring is the id of the main-chain block of its number |
| ChainDatabases.RingRecent | libraries/chain/database.cpp:2323-2329 | the ring holds the last 65536 blocks of the chain, whatever its length |
| ChainDatabases.Database.FindBlockIdForNum | libraries/chain/database.cpp:359-389 | ring, log and fork index together give the main-chain id for every number from one to the head and the null id otherwise |
| BlockLogs.PositionRoundTrip | libraries/chain/block_log.cpp:144-146 | eight bytes give a position back |
| BlockLogs.BlockLog.Append | libraries/chain/block_log.cpp:130-153 | refused exactly when the index does not end at the block's number; otherwise both files are those of the longer chain |
| BlockLogs.BlockLog.ReadHead | libraries/chain/block_log.cpp:222-234 | the last block of the chain, found through the last eight bytes |
| BlockLogs.BlockLog.Replay | libraries/chain/block_log.cpp:243-276 | the replayed index is the one that appending would have written, but empty for a log of one block |
| BlockLogs.BlockLog.Open | libraries/chain/block_log.cpp:40-118 | throws exactly for an index shorter than one position; the index is right afterwards if and only if it was, or it was empty or disagreed with the log's end and there are at least two blocks |
| BlockLogs.UsualIndexesRecover | libraries/chain/block_log.cpp:57-72 | with two or more blocks opening repairs every index that lags behind, is complete, or belongs to a longer log |
| BlockLogs.BlockLog.ReadBlockByNum | libraries/chain/block_log.cpp:183-220 | lookup by number gives exactly the block of that number, and nothing outside the chain |
| BlockLogs.BlockLog.ReadAll | libraries/chain/block_log.cpp:163-181 | reading record after record gives the whole chain, the same blocks as lookup by number |
| SignStates.SatisfiedFixpoint | libraries/protocol/sign_state.cpp:31-87 | an authority is satisfied if and only if its signed keys and satisfied wallets reach the threshold |
| SignStates.SatisfiedLeast | libraries/protocol/sign_state.cpp:31-87 | and the satisfied wallets are the smallest set with that property, also on cyclic graphs |
| SignStates.ConsideredSat | libraries/protocol/sign_state.cpp:51-86 | what the first members satisfy, those considered at the depth limit satisfy too |
| SignStates.FirstKeysSuffice | libraries/protocol/sign_state.cpp:35-49 | so the first keys suffice as soon as some number of them within the member limit does |
| SignStates.SignState.constructor | libraries/protocol/sign_state.cpp:101-110 | nothing is used yet, and the cache holds exactly the temporary wallet |
| SignStates.SignState.SignedBy | libraries/protocol/sign_state.cpp:6-17 | true exactly for provided or available keys, and marks exactly that key as used |
| SignStates.SignState.CheckImpl | libraries/protocol/sign_state.cpp:31-87 | acceptance implies satisfaction by the keys marked as used, through the members considered: the first ones up to the member limit, and of the wallets only cached ones at the depth limit; with any limits, whatever the cached wallets and the first members of every authority satisfy within the remaining depth is accepted if no weights wrap around and the lookups in that delegation tree are within their limit, and so is whatever the first keys satisfy alone; the count is that of the lookups made, which stay within the limit; terminates on cycles |
| SignStates.SignState.CheckMember | libraries/protocol/sign_state.cpp:53-78 | one wallet of an authority: at the depth limit counted if and only if cached; above it counted only if satisfied, and whenever its first members are within the remaining depth and there is room for the lookups |
| SignStates.SignState.CheckAuthority | libraries/protocol/sign_state.cpp:26-29 | the same for an authority given with its own depth and count; enough signed keys among the first members are accepted whatever the wallets |
| SignStates.SignState.CheckWallet | libraries/protocol/sign_state.cpp:19-24 | the same for a wallet, through the cache, with fewer lookups than the limit |
| SignStates.SignState.CheckAll | libraries/protocol/sign_state.cpp:19-29 | the same for any sequence of calls of both forms that share the cache: every acceptance is right and stays right, and nothing owed under the limits is missed |
| SignStates.SignState.RemoveUnused | libraries/protocol/sign_state.cpp:89-99 | exactly the unused signatures are removed, so everything accepted stays satisfied by the rest |
| Ledgers.EventConserves | libraries/chain/xgt_evaluator.cpp:493-704 | every event changes the sum of wallets, escrows, pending fees and contributions by exactly what it mints or burns |
| Ledgers.OtherOpConserves | libraries/chain/xtt_evaluator.cpp:60-311 | transfers, contributions and token creation fees conserve the supply |
| Ledgers.EventSolvent | libraries/chain/database.cpp:2518-2633 | no balance is ever negative or out of range, and no wallet disappears |
| Ledgers.EventEscrows | libraries/chain/xgt_evaluator.cpp:493-654 | every escrow on record keeps a positive balance, distinct agent, known parties, a settled fee once approved, and a dispute only after approval |
| Ledgers.EventIcos | libraries/chain/xtt_evaluator.cpp:271-311 | an ICO's running total is the sum of its recorded contributions |
| Ledgers.RunConserves | libraries/chain/database.cpp:1047-1080 | over every run the invariants hold and the supply differs only by rewards and by what left the null wallet |
| LedgerEffects.TransferMeans | libraries/chain/xgt_evaluator.cpp:666-704 | goes through if and only if the amount is positive, the sender is known and has it and the receiver has room; the sender then has that much less and the receiver, opened if need be, that much more, and nothing else changes |
| LedgerEffects.EscrowTransferMeans | libraries/chain/xgt_evaluator.cpp:493-523 | exactly when an escrow can be opened, who pays for it and what is recorded |
| LedgerEffects.RejectMeans | libraries/chain/xgt_evaluator.cpp:525-568 | exactly who can reject an escrow until when, and that the sender gets everything back |
| LedgerEffects.CanApprove | libraries/chain/xgt_evaluator.cpp:525-581 | exactly who can approve an escrow until when |
| LedgerEffects.ApproveMeans | libraries/chain/xgt_evaluator.cpp:525-581 | whose approval is recorded, and that the second one pays the agent's fee and nothing else |
| LedgerEffects.DisputeMeans | libraries/chain/xgt_evaluator.cpp:583-602 | exactly who can dispute an escrow between approval and expiration, once, and that no money moves |
| LedgerEffects.CanRelease | libraries/chain/xgt_evaluator.cpp:604-640 | in a dispute the agent may release to either party, otherwise a party to the other one, or after expiration also to itself, and nobody else |
| LedgerEffects.ReleaseMeans | libraries/chain/xgt_evaluator.cpp:641-651 | the receiver gets the amount and the escrow holds as much less, or is gone |
| LedgerEffects.ContributeMeans | libraries/chain/xtt_evaluator.cpp:271-311 | exactly while the ICO runs, never beyond the hard cap, each contribution once; who pays and what is recorded |
| LedgerEffects.CreateTokenMeans | libraries/chain/xtt_evaluator.cpp:60-96 | exactly when a token can be created or reset, that the fee goes to the null wallet and the symbol leaves the pool |
| EscrowAudits.PaymentsMatch | libraries/chain/xgt_evaluator.cpp:525-654 | an event on an escrow pays out exactly what the escrow holds less afterwards, credits it to the wallets, and touches no other escrow |
| EscrowAudits.PaidToWhom | libraries/chain/xgt_evaluator.cpp:525-654 | before approval an escrow pays only refunds to the sender and the fee to the agent, after it only principal to sender or receiver; so no rejection after approval |
| EscrowAudits.RunBalances | libraries/chain/xgt_evaluator.cpp:493-654 | at every point of every run, paid out plus still held equals deposited, for every single escrow |
| EscrowAudits.RunFees | libraries/chain/xgt_evaluator.cpp:570-578 | in every run the agent is paid at most once, not before both approvals, and exactly once with them |
| EscrowAudits.Stranded | libraries/chain/database.cpp:1588-1589 | an escrow not approved in time keeps its funds unchanged in every further run |
| EscrowAudits.CanMoveIff | libraries/protocol/xgt_operations.cpp:244-293 | some operation can still move an escrow if and only if it is approved or its deadline has not passed |
| Evaluators.LedgerDatabase.AdjustBalance | libraries/chain/database.cpp:2605-2633 | the balance changes by the amount, or the call fails exactly when it would leave its range or the wallet is unknown |
| Evaluators.LedgerDatabase.EscrowTransfer | libraries/chain/xgt_evaluator.cpp:493-523 | the evaluator, step by step, has exactly the specified effect or throws exactly where specified |
| Evaluators.LedgerDatabase.EscrowApprove | libraries/chain/xgt_evaluator.cpp:525-581 | same, with approvals stored before the balances move |
| Evaluators.LedgerDatabase.EscrowRelease | libraries/chain/xgt_evaluator.cpp:604-654 | same, with the nested rules on who may release to whom |
| Evaluators.LedgerDatabase.Transfer | libraries/chain/xgt_evaluator.cpp:666-704 | same, creating a missing receiver: succeeds exactly when the sender has the amount and the receiver has room, and moves it from the one to the other |
| Evaluators.LedgerDatabase.Contribute | libraries/chain/xtt_evaluator.cpp:271-311 | same, under phase and hard cap |
| Evaluators.LedgerDatabase.CreateToken | libraries/chain/xtt_evaluator.cpp:60-96 | same: the fee must be the chain's creation fee and the symbol come from the pool, which it leaves; the fee is burned, or a token in setup is reset for nothing |
| Evaluators.LedgerDatabase.Apply | libraries/protocol/xgt_operations.cpp:92-293 | an operation has its whole effect or, invalid or thrown half-way, none |
| Evaluators.LedgerDatabase.ApplyTransaction | libraries/chain/database.cpp:1830-1982 | all operations of a transaction or none, exactly as each goes through in the state before it; invariants and supply are kept either way |
| TransactionIndexes.TransactionIndex.ApplyTransaction | libraries/chain/database.cpp:1845-1962 | refused exactly for a known id or, from the second block on, unless it expires after the head block's time and at most an hour later; otherwise remembered |
| TransactionIndexes.TransactionIndex.ClearExpired | libraries/chain/database.cpp:2468-2476 | removing from the front of the expiration order removes exactly the expired ones |
| TransactionIndexes.TransactionIndex.ApplyBlock | libraries/chain/database.cpp:1562-1584 | a block's transactions are judged at the time of the block before it; a refused block leaves nothing behind |
| TransactionIndexes.ReplayRemembers | libraries/chain/database.cpp:1845-1847 | on a chain that does not go back in time everything executed is remembered or expired for good, and no transaction is executed twice |
| TransactionIndexes.RepeatIff | libraries/chain/database.cpp:2331-2366 | for given block times a double execution is possible if and only if they go back by two seconds or more before the last block |
| TransactionIndexes.TransactionIndex.ApplyChain | libraries/chain/database.cpp:1468-1584 | the same for the index as it runs |
| Rewards.RewardIs | libraries/chain/database.cpp:1652-1659 | the reward computed by division and floor is the base reward shifted by the number of halvings |
| Rewards.TotalBound | libraries/chain/database.cpp:1652-1659 | one reward per block adds up to less than twice the base reward times the halving interval, for any length |
| Rewards.BlockMints | libraries/chain/database.cpp:1562-1680 | an accepted block at any height mints exactly the counted rewards: one per proof of work that the operation accepts and can pay below the switch, none at it, and above it one if there is a proof of work |
| Rewards.PaidAtMost | libraries/chain/xgt_evaluator.cpp:886-972 | below the switch a block mints at most one reward per proof of work, and one for each if and only if every one finds a wallet and a witness to pay |
| Rewards.OneProofOneReward | libraries/chain/database.cpp:1625-1680 | no block at any height mints more rewards than it holds proofs of work, and none from the switch on more than one |
| Rewards.NoneAtTheSwitch | libraries/chain/xgt_evaluator.cpp:898-900 | a block at the switch height that holds a proof of work is refused, since no proof names both the head and the block before it |
| Rewards.ChainWithoutProofAtTheSwitch | libraries/chain/database.cpp:1172-1179 | so on every chain from genesis the block at the switch height holds no proof of work |
| Rewards.ProofBelowTheSwitch | libraries/chain/xgt_evaluator.cpp:886-972 | a proof of work below the switch is accepted if and only if it names the block before the head, its input is above the last irreversible block, it beats the target, votes for a large enough block and the reward fits; who is paid and who becomes a witness |
| Rewards.BlockAboveTheSwitch | libraries/chain/database.cpp:1625-1680 | a block above the switch is accepted if and only if its first proof of work beats the target, names the head and is the miner's, who has a wallet with room and is a witness; that wallet alone grows, by the one reward of that height |
| Rewards.BlockWithoutProof | libraries/chain/database.cpp:1562-1680 | a block without a proof of work is accepted at every height and pays nobody |
| Rewards.ChainBound | libraries/chain/database.cpp:1625-1680 | the total minted along any chain above the switch stays below that bound |
| Rewards.RewardDatabase.PowEvaluator | libraries/chain/xgt_evaluator.cpp:886-972 | the evaluator, judging the proof by the previous block of the head, if there is one, and creating the worker's wallet when needed, has exactly the specified effect |
| Rewards.RewardDatabase.FindFirst | libraries/chain/database.cpp:1628-1641 | the nested loops find the first proof of work of the block |
| Rewards.RewardDatabase.RewardFirstMiner | libraries/chain/database.cpp:1625-1680 | pays that one or refuses the block, as characterised by `BlockAboveTheSwitch` |
| Rewards.RewardDatabase.PushBlock | libraries/chain/database.cpp:1562-1680 | operations first, then head and previous id, then the reward; a refused block leaves nothing behind |
| UInt128s.UInt128.ShiftLeftAssign | libraries/fc/src/uint128.cpp:154-187 | the value times a power of two, modulo 2^128, for every count |
| UInt128s.UInt128.ShiftRightAssign | libraries/fc/src/uint128.cpp:189-222 | the value divided by a power of two, for every count |
| UInt128s.UInt128.AddAssign | libraries/fc/include/fc/uint128.hpp:61-61 | the sum modulo 2^128, also when added to itself |
| UInt128s.UInt128.SubAssign | libraries/fc/include/fc/uint128.hpp:62-62 | the difference modulo 2^128, also when subtracted from itself |
| UInt128s.UInt128.LessThan | libraries/fc/include/fc/uint128.hpp:44-44 | comparing the halves compares the values |
| UInt128s.UInt128.OrAssign | libraries/fc/include/fc/uint128.hpp:55-55 | or on the halves is or on the values, also with the number itself |
| UInt128s.UInt128.MulAssign | libraries/fc/src/uint128.cpp:257-295 | the product modulo 2^128, also when squaring in place |
| UInt128s.UInt128.FullProduct | libraries/fc/src/uint128.cpp:297-349 | the exact 256-bit product, in two halves |
| UInt128s.UInt128.Divide | libraries/fc/src/uint128.cpp:13-45 | shifting, comparing and subtracting on the two halves gives the unique quotient and remainder; fails exactly for a zero denominator |
| UInt128s.UInt128.RemAssign | libraries/fc/src/uint128.cpp:250-255 | the remainder, also when the number is divided by itself |
| UInt128Texts.ToDecimal | libraries/fc/src/uint128.cpp:131-151 | the decimal numeral, written backwards into a buffer it never overruns |
| UInt128Texts.Parse | libraries/fc/src/uint128.cpp:47-117 | the value of the numeral, with its radix prefixes and sign, modulo 2^128 |
| UInt128Texts.PrintParse | libraries/fc/src/uint128.cpp:47-151 | parsing a printed value gives the value back, for all 128-bit values |
| UInt128Texts.HexMeans | libraries/fc/src/uint128.cpp:65-109 | after 0x the digits up to the first other character count in base 16, modulo 2^128 |
| UInt128Texts.OctalMeans | libraries/fc/src/uint128.cpp:65-109 | after another leading 0 they count in base 8 |
| UInt128Texts.DecimalMeans | libraries/fc/src/uint128.cpp:65-109 | and otherwise in base 10 |
| UInt128Texts.DigitMeans | libraries/fc/src/uint128.cpp:82-103 | which characters are digits in these bases, and of which value |
| UInt128Texts.SignMeans | libraries/fc/src/uint128.cpp:58-63 | a minus sign negates modulo 2^128 |
| ResourceDynamics.UnitDecayIs | libraries/chain/util/rd.cpp:22-40 | decay in one time unit is the floor of the scaled pool, mirrored for negative pools, and never throws |
| ResourceDynamics.EquilibriumIsLeast | libraries/chain/util/rd.cpp:77-100 | the computed equilibrium is the least pool that decays by at least the budget, and decays by exactly it |
| ResourceDynamics.Setup | libraries/chain/util/rd.cpp:55-118 | the closing assertions hold for every decay above one, and for a decay of one exactly below a budget of 2^27, where the setup is undefined; where they hold the record is filled with the equilibrium |
| ResourceDynamics.ValidateUserParams | libraries/chain/util/rd.cpp:13-20 | accepts exactly the parameters within the four limits |
| ResourceDynamics.ValidatedFits | libraries/chain/util/rd.cpp:77-100 | for these the equilibrium, with one more budget on top, is below 2^63 |
| ResourceDynamics.EquilibriumFitsIff | libraries/chain/util/rd.cpp:77-100 | for any decay the equilibrium is below 2^63 if and only if the decay is above one or the budget below 2^27 |
| ResourceDynamics.AssertionsFire | libraries/chain/util/rd.cpp:116-117 | the largest budget with a decay of one, which validation excludes, makes the first assertion fire |
| ResourceDynamics.SetupValidated | libraries/chain/util/rd.cpp:55-118 | validated parameters are always set up |
| ResourceDynamics.ApplyIs | libraries/chain/util/rd.cpp:42-53 | one step from a negative, small or oversized pool: back to zero or more, strictly up, or onto the equilibrium |
| ResourceDynamics.Converges | libraries/chain/util/rd.cpp:42-53 | from any pool the equilibrium is reached within one step more than its size, and kept |
| ResourceDynamics.ConvergesValidated | libraries/chain/util/rd.cpp:42-53 | the same for every record set up from validated parameters, without a condition on the equilibrium |
| SyncNodes.Node.FetchSyncItems | libraries/net/node.cpp:982-1040 | only connected peers that we need blocks from and that have not failed us are asked, only for free blocks from their own lists; the invariant on requests is kept, and unless the prefetch limit is reached every such peer is busy or all its blocks are on their way or here |
| SyncNodes.Node.Schedule | libraries/net/node.cpp:1006-1029 | different free blocks of the peer's list, as many as both limits allow |
| SyncNodes.Node.RequestItems | libraries/net/node.cpp:969-980 | the blocks become requested and outstanding with that peer, with nobody else |
| SyncNodes.Node.ItemNotAvailable | libraries/net/node.cpp:2800-2814 | the block is no longer outstanding with the peer but stays requested: exactly that block is lost; the peer is disconnected, or only spared further requests if it needs blocks from us |
| SyncNodes.Node.Close | libraries/net/node.cpp:2993-3000 | exactly what the peer owed becomes free again |
| SyncNodes.Node.BlockMessage | libraries/net/node.cpp:3390-3466 | every kind of block message keeps the invariant and loses no request; a block asked for in sync moves to the new blocks and its peer is asked for more ids if it has some, one not asked for disconnects its sender unless already known |
| SyncNodes.Node.Welcome | libraries/net/node.cpp:3302-3340 | after a block accepted in normal operation exactly the peers that had advertised it have seen it, and exactly those whose version is outgrown are disconnected |
| SyncNodes.Node.NormalBlock | libraries/net/node.cpp:3230-3389 | a block in normal operation is welcomed, makes its sender start over if it does not link, or, rejected, disconnects exactly its sender and everybody whose list begins with it |
| SyncNodes.Node.SyncBlock | libraries/net/node.cpp:3411-3427 | a requested block moves from the active requests to the front of the new blocks |
| SyncNodes.Node.ProcessBacklog | libraries/net/node.cpp:3155-3210 | received blocks leave only from the front of some peer's list, none that is ready is left unless the quota is used up, which is never exceeded, and no wanted list grows |
| SyncNodes.Node.ProcessNext | libraries/net/node.cpp:3165-3202 | the first ready block goes to the client unless known, the peers become exactly what the popped lists and the verdict make of them, and it leaves the received ones unless the delivery throws |
| SyncNodes.Node.NextReady | libraries/net/node.cpp:3170-3188 | the first received block that heads some list, taken off exactly the lists it heads |
| SyncNodes.Node.Deliver | libraries/net/node.cpp:3015-3153 | nothing changes unless the client accepts; then the block is remembered and every peer becomes exactly what it makes of it: seen, asked for more when it has run out, restarted when it was in sync; throws exactly when some peer to be asked has no synopsis, and then only some have been asked and none restarted |
| SyncNodes.NotifiedMeans | libraries/net/node.cpp:3074-3145 | field by field, what an accepted block means for a peer; one that is too old for a hard fork is passed over, and stays connected because the list of peers to disconnect is never used |
| SyncNodes.RestartedMeans | libraries/net/node.cpp:3787-3797 | starting over drops the list and asks with a synopsis of the whole chain, unless a request is under way |
| SyncNodes.NextBatchMeans | libraries/net/node.cpp:2405-2438 | a request starts from the last block seen; without a list it sends the chain's own synopsis, and without a synopsis the connection goes |
| SyncNodes.Node.Inventory | libraries/net/node.cpp:2440-2698 | ignored unless asked for; a non-empty announcement that is not a run of consecutive blocks starting in the synopsis, or at block 1 if that was empty, costs the connection and changes nothing else; a proper one with nothing remaining keeps it, and everything after its first unknown block is wanted |
| SyncNodes.AnnouncedFirst | libraries/net/node.cpp:2560-2595 | a first list is wanted without the known blocks at its front, all of it if another peer's list begins with it |
| SyncNodes.AnnouncedTakesOver | libraries/net/node.cpp:2596-2639 | a further list takes over where it meets the old one, or replaces it but for the block it starts from |
| SyncNodes.AnsweredMeans | libraries/net/node.cpp:2537-2673 | a peer is done exactly when nothing remains, at most one known block is announced and nothing is wanted or unfetched |
| SyncNodes.LastFlushedMeans | libraries/net/node.cpp:2559-2633 | the last block seen moves to the last flushed block, or to the start of a list that does not meet the old one |
| SyncNodes.InformedKeeps | libraries/net/node.cpp:2440-2698 | no reply, however malformed, touches what is outstanding or breaks the consecutive numbering of the list |
| SyncNodes.SpliceIs | libraries/net/node.cpp:2596-2639 | the spliced list is the old one up to the first announced block followed by the announcement, or the announcement without its first block |
| SyncNodes.SpliceConsecutive | libraries/net/node.cpp:2596-2639 | splicing consecutive lists gives a consecutive list |
| SyncNodes.Node.StartSynchronizing | libraries/net/node.cpp:3787-3797 | exactly one peer starts over, with nothing changed in what is outstanding |
| SyncNodes.Node.FetchNextBatch | libraries/net/node.cpp:2405-2438 | asks at most once at a time, with a synopsis that ends with the last wanted block |
| SyncNodes.Node.Handle | libraries/net/node.cpp:982-3466 | every handler keeps: no block outstanding with two peers, everything outstanding is requested, peer and prefetch limits, consecutive lists; and loses track of exactly the blocks peers failed to provide |
| SyncNodes.Node.HandleAll | libraries/net/node.cpp:982-3466 | the same over every interleaving of events; a lost block is never requested again, and none is lost without such a failure |
| Synopses.PointsShape | libraries/net/node.cpp:2390-2399 | the block numbers of a synopsis rise from the low to the high one and include both |
| Synopses.PointsLog | libraries/net/node.cpp:2390-2399 | there are as many as the distance has binary digits |
| Synopses.LowForMeans | libraries/plugins/p2p/p2p_plugin.cpp:361-446 | a synopsis starts at the undo limit, or at the reference point if that is lower, and at block 1 at least |
| Synopses.ChainSynopsis | libraries/plugins/p2p/p2p_plugin.cpp:352-473 | the chain's part: the ids at those numbers up to the reference point, on the main chain or a fork; fails exactly for forks below the undo limit |
| Synopses.CreateSynopsis | libraries/net/node.cpp:2352-2403 | the peer's part: never out of range exactly when the low block is not above the last wanted one, and then it ends with the last wanted id |
| Synopses.Seamless | libraries/net/node.cpp:2386-2399 | ids picked from two adjoining stretches at the same points are those of the whole |
| Synopses.SynopsisForPeer | libraries/net/node.cpp:2352-2403 | fails exactly for forks below the undo limit, is out of range exactly when that limit is above the last announced block, and otherwise ends with the last announced id; if the announced ids follow the reference point both loops together give the ids of own and announced chain at one seamless sequence of points |
| Merkle.HashPairs | libraries/protocol/block.cpp:55-63 | one round over the front of the buffer equals one level of the tree, although it overwrites what it reads |
| Merkle.RootInPlace | libraries/protocol/block.cpp:52-65 | the loop equals the recursive tree with odd elements promoted |
| Merkle.RootSplits | libraries/protocol/block.cpp:52-65 | seen from the root, the largest power of two smaller than the length goes to the left and the rest to the right |
| Merkle.CalculateMerkleRoot | libraries/protocol/block.cpp:42-67 | the checksum of that root, or the zero checksum without transactions |
| Merkle.RootInjective | libraries/protocol/block.cpp:42-67 | with an injective hash, lists of equal length with the same root are equal |
| Merkle.LengthMatters | libraries/protocol/block.cpp:42-67 | lists of different length can share a root |
| Merkle.SameTransactions | libraries/protocol/block.cpp:42-67 | so blocks with equally many transactions and the same checksum hold the same transactions |

## Left out

- Rewards.RewardIs: holds of the source for fewer than 63 halvings; beyond that its shift of a 64-bit one is undefined, and the model goes on dividing.
- ResourceDynamics.Setup: for budgets from one to the maximum that the static assertion is about, and decays of at least one; the source divides by the decay without looking at it.
- ResourceDynamics.Converges: for pools on which the 64-bit additions of a step do not overflow, and an equilibrium that together with the budget stays below 2^63, which validated parameters ensure.
- SignStates.SignState.CheckImpl: that satisfied authorities are accepted is stated where the 32-bit sum of weights does not wrap around and no authority with a zero threshold is as long as the member limit, which the source refuses unless a member counts; `get_money` is total, so an unknown wallet, for which the source throws, is not modelled.
- ChainDatabases.Database.PushAll: the run ends with the push that breaks the chain, that is with a block applied to a head it does not name or a block of the chain taken out of the fork database; what later pushes do to such a chain is not modelled.
- SyncNodes.Node.Handle: each handler runs without interruption; yielding inside one is not modelled.
- Rewards.RewardDatabase.PowEvaluator: the voted properties it stores with the witness are left out.
- Rewards.ChainBound: for chains that start above the switch; below it a block can mint one reward per proof of work.
- Block numbers are unbounded; the 32-bit wrap of heights is not modelled.
- A parent pointer is modelled as a lookup of the parent's id, so a block that was removed and pushed again is its children's parent again, which a weak pointer would not see.
- Skip flags, checkpoints, the pending-transaction session, hardfork application and notifications.
- `validate_block_header`, schedules and signatures of blocks: not called or not part of the modelled path.
- Torn writes and corrupt records of the block log; packing is a parameter assumed to be faithful.
- Token (XTT) balances, tiers, votes and comments, recovery, contracts, required and optional actions.
- The counter of the current supply, which is kept beside the balances.
- The network itself: sockets, handshakes, firewall checks, inventory of transactions, bandwidth and the peer database.
- Mining-difficulty retarget, which mixes single-precision and decimal floating point.
