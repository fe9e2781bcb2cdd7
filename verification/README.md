# KuberCoin consensus core: a verified model

A Dafny model of the node's consensus engine and proofs about it. It covers:

* **256-bit arithmetic on byte arrays** (`BigEndian`, `Arithmetic256`, `Difficulty`, `Retarget`): the
  compact-target codec, block work, restoring division and retargeting, each loop tied to exact
  arithmetic on natural numbers.
* **Ledger, validation and chain** (`Primitives`, `Ledger`, `Value`, `Merkle`, `Validator`, `Acceptance`,
  `Emission`, `ChainTree`, `Schedule`, `ChainLedger`, `ActiveChain`, `ChainWalk`, `Indexes`, `BodySwap`,
  `OrphanPool`, `NodeInvariant`, `NodeView`, `NodeReorg`, `NodeSteps`, `NodeHistory`, `NodeState`,
  `NodeTheorems`, `NodeRun`, `NodeExamples`): UTXO application and undo, full block validation, and the
  `add_block` state machine (orphan, extend, store aside, reorganise). What every run from genesis guarantees
  is in `NodeRun`, what every reachable state means in `NodeTheorems`, and inputs at which the node falls short
  in `NodeExamples`.
* **The rules in their own terms** (`Coins`, `ChainRules`, `Adjustment`, `Wire`, `SupplyTotal`): what the rules
  above mean for the blocks of a valid chain, for timestamps and bits, for bytes, and for the total supply.
* **Mempool** (`PoolGraph`, `Mempool`, `PoolRules`, `BlockAssembly`): replacement, eviction, confirmation,
  limits and block assembly over the spending graph.
* **Commitments and codecs** (`Merkle`, `CompactBlocks`, `UtxoCodec`).

`dafny verify dfyconfig.toml` checks the whole project.

## How to read it

Hash functions, script execution, signature checks, sigop counting and the witness commitment are
function-valued parameters (`Hashing`, `Rules`); collision-freedom is a hypothesis where it is needed
(`HeaderHashInjective`, `TxidInjective`, `PairInjective`). Median-time-past is a function of the headers
below the block (`Network.mtp`), the clock an argument of each call, the fee rate a function of fee and
size whose order is the code's. HashMap iteration orders, orphan victims and candidate orders are arbitrary
choices, so every statement holds for all of them.

A predicate called *sealed* wraps its definition in a quantifier with a marker as its only trigger
(`OpenTree`, `OpenLedger`, ...). It means what its body says; asserting the marker opens it. This keeps
each proof to the parts of the invariant it needs.

The node's fields sit in four records (`Chain`, `Cache`, `Orphans` and the ghost `Past`) that the methods
of `NodeState.NodeState` replace, beside the `UtxoSet` object they update. `Past` records what a run has
done: the connected blocks as they were when connected, the greatest height of the tip (`peak`), and three
faults after which part of the invariant is not claimed:

* `torn`: a reorganisation failed midway, or a validated block did not apply, so the UTXO set and height
  map stand between two blocks while the tip has not moved (core/node/src/state.rs:617-618 and 680-708). The contracts of
  `DisconnectBlocks` and `ConnectBlocks` say where they stand.
* `refused`: a heavier branch is stored but the depth or checkpoint limit kept the tip (core/node/src/state.rs:668-677).
* `swapped`: the side path stores a body before checking its Merkle root (core/node/src/state.rs:653-656), so another
  body with an active block's header can replace it in storage; a later rebuild then indexes that body.

The rules are defined once, in the shape of the code, and then said again of what they are about: `Coins` and
`ChainRules` of the blocks of a valid chain, `Adjustment` of timestamps and bits, `Wire` of the bytes of a
block, `PoolRules` of the inputs and fees of pool entries.

A run cannot claim a fault for free. `AddBlock` and `Run` return a ghost history (`NodeHistory.History`): a
`Step` for every block handled, each starting where the one before it ended. From an untorn state the
outcome of a step is `OutcomeOf`, a function of the state, the block and the clock, and a fault holds at
the end exactly if it held at the start or an event of the history is that fault (`NodeView.TracedBy`).

## Findings about the code

* A validated block can fail to apply: the validator accepts transactions without inputs, and two equal
  ones collide on application. `Acceptance.ValidatedBlockApplies` gives the exact condition,
  `Acceptance.AcceptedButInapplicable` the blocks, and `NodeExamples.TearFreshNode` sends one to a fresh node,
  whose ledger it tears.
* One header can have two accepted bodies: repeating the last input-less transaction keeps the Merkle root
  and passes validation (`Acceptance.OneHeaderTwoBodies`). The root commits to the transactions of accepted
  blocks that repeat none (`Acceptance.MerkleRootCommits`), which is exactly when their txids are distinct
  (`Acceptance.AcceptedTxidsDistinct`).
* The side path stores any body under a known header, also an active one, so the indexes can stop being what
  a rebuild would give (`NodeExamples.StaleFreshNode`). A store keeps the equality if and only if the replaced
  body and the new one list the same txids under every script and every txid in only one of them occurs again
  above (`NodeSteps.SideFresh`, `BodySwap.SameRebuildIff`); a reorganisation or the original body restores
  them (`NodeState.NodeState.Reorganise`, `NodeSteps.BodyRestored`).
* Undo records are pruned by tip height, so after a reorganisation to a lower height a later one within the
  depth limit can miss records. It finds them all if and only if the fork is at most 100 below the greatest
  height the tip has had (`NodeSteps.UndoPresentIff`). `NodeExamples.MissingRecordState` gives states that satisfy
  the node's invariant in which it misses one; no run that reaches them is shown. Blocks 100 or more
  below that height are final (`NodeView.Finalised`, kept by every run).
* The retarget division is exact if and only if the timespan is at most 2^56 (`Retarget.RetargetExactIff`).
* `target_to_bits` is faithful exactly on [2^16, 2^255); every other target becomes zero, which has no work
  (`Difficulty.EncodeRoundsDown`).
* A transaction refused by the ancestor limits or for lack of room has already evicted the entries it
  conflicts with (`Mempool.RefusedAddEvicts`, and from a fresh pool `Mempool.LoseOnlyEntry`).
  `Mempool.RefusedAddKeeps` says exactly when a refused add leaves the pool alone.
* A UTXO of height 2^63 or more does not survive the compact encoding (`UtxoCodec.SetRoundTrip`).
* An empty prefilled transaction makes a compact block unrecoverable (`CompactBlocks.RoundTrip`).
* The comment on block versions asks for the top three bits to be 001; the code only tests that bit 29 is
  set in a non-negative version, and the model follows the code (`Validator.VersionTopBits`).

## Model

| member | source | states |
|---|---|---|
| `NodeRun.FromGenesis` | core/node/src/state.rs:261-736 | A node built from genesis and given any blocks at any times: its log is a history of exactly these blocks, each handled from the state the one before left with the outcome the rules give, connected orphans and swallowed failures included. In every case stored targets are at most that of genesis, checkpoints hold, and below 2^256 recorded works are path sums. If no step of the log tore the ledger: the UTXO set is the replay of the validated genesis-to-tip path, every coin in it is the unspent output of a block of that path at that block's height, no coinbase was spent within 100 blocks, the height map is that path, the supply is within the subsidies, undo records are kept exactly above the pruning line; no stored block has more work unless a heavier branch was refused; stored bodies are the connected ones unless a step overwrote one; and the indexes equal a rebuild unless one was overwritten after the last reorganisation. |
| `NodeHistory.HistoryMoved` | core/node/src/state.rs:511-736 | For every history from a sound state, torn, refused and swapped hold at its end exactly if they did at its start or an event of the history says so; headers are only added, the tip's work never falls and rises strictly at every change of tip (every stored block having work); and a block 100 or more below the greatest height reached is never disconnected while the ledger is untorn. |
| `NodeHistory.TornByStep` | core/node/src/state.rs:588-736 | If a run tears the ledger, some step did: from an untorn state, with a block for which the rules themselves give that outcome. |
| `NodeHistory.EarlyRefusals` | core/node/src/state.rs:511-541 | A block more than 7,200 seconds ahead of the clock, or unlike the first checkpoint at its height, is rejected in every state; orphaned if and only if neither holds and its parent is unknown. |
| `NodeHistory.NeverSwitched` | core/node/src/state.rs:651-677 | A branch that forks more than 100 blocks below the tip or below the last checkpoint, or has no more work, is never switched to. |
| `NodeTheorems.LedgerIsReplay` | core/node/src/state.rs:511-736 | In every reachable untorn state the UTXO set is the replay of the genesis-to-tip path, every block on it passed full validation on the headers and the ledger below it, the height map is exactly that path with nothing above the tip, and storage holds the connected bodies unless one was overwritten. |
| `NodeTheorems.SupplyNeverExceeded` | core/core/consensus/src/validator.rs:1066-1091 | In every such state the total UTXO value is at most the sum of block subsidies over heights 0 to tip, which never exceeds 21 million coins. |
| `NodeTheorems.CoinsOfActive` | core/core/chain/src/utxo.rs:445-502 | In every such state a coin is in the set if and only if some transaction of the active chain made it and none took it since, and it records that output, the height of that block and whether it is a coinbase; no block of the chain spends a coinbase output fewer than 100 blocks after it was made. |
| `NodeTheorems.TipHasMostWork` | core/node/src/state.rs:578-582 | Below 2^256, chainwork and every block_work entry equal the sum of block works along the block's path; with no torn ledger and no refused reorganisation no stored block has more work than the tip. |
| `NodeTheorems.UndoRetained` | core/node/src/state.rs:1002-1013 | In every untorn state a connected block has an undo record if and only if it is less than 100 below the greatest height the tip has had; it is the record its application produced; and that height is at most 100 above the tip. |
| `NodeTheorems.StoredBlocksOnSchedule` | core/node/src/state.rs:517-576 | Every stored block, active or not, has a target no easier than genesis and agrees with the checkpoints. |
| `NodeState.NodeState.constructor` | core/node/src/state.rs:261-286 | The whole initial state: genesis stored, applied, indexed and mapped, its work the chain work; it satisfies the invariant and its indexes equal a rebuild. |
| `NodeState.NodeState.AddBlock` | core/node/src/state.rs:511-736 | Whatever the block: keeps the whole invariant; from an untorn state the outcome is the one the rules give; the history lists this block and then, if the tip changed, orphans that left the pool, each exactly once; it accounts for every fault, for the freshness of the indexes and for what stays final; the state is later in the progress relation; rejection and orphaning leave the chain untouched, a stored or refused block adds only itself; after a change of tip no orphan waits for the block; terminates through nested orphan connection. |
| `NodeState.NodeState.AcceptBlock` | core/node/src/state.rs:511-662 | One block without its orphans: from an untorn state the outcome (rejected, orphaned, extended, stored, reorganised, refused, torn) is a function of state, block and clock: checkpoint and clock, then the parent, height and bits, then full validation and application on the tip, or else stored, work compared, limits, undo records and validity of the whole branch; and the events it leaves account for the new state. |
| `NodeState.NodeState.Run` | core/node/src/state.rs:511-736 | Any sequence of add_block calls from any valid state keeps the invariant; every reported outcome is the step of its own block in the history; the history handles only given blocks and orphans that waited; it accounts for the faults of the last state, and that state is later than the first. |
| `NodeState.NodeState.Screen` | core/node/src/state.rs:543-576 | Accepts exactly the blocks that sit one height above their stored parent with the bits the schedule demands (or are genesis again). |
| `NodeState.NodeState.Place` | core/node/src/state.rs:578-662 | On the tip the outcome is validation and application; beside it, storing exactly when the cumulative work does not exceed the tip's (ties keep the first seen), then refusal, switch or tear. |
| `NodeState.NodeState.PlaceSide` | core/node/src/state.rs:651-662 | A stored side block leaves everything else as it was; only strictly greater cumulative work starts a reorganisation; from an untorn state the outcome is exact. |
| `NodeState.NodeState.ExtendTip` | core/node/src/state.rs:588-649 | Rejected exactly when validation on the headers below it fails, with nothing changed; extended exactly when it also applies, and then the connected chain grows by this block; torn otherwise, with only the ledger changed. |
| `NodeState.NodeState.StoreSide` | core/node/src/state.rs:651-656 | Storing beside the chain changes storage, cache and work only; the better of tip and new block is the best stored block; indexes that equal a rebuild still do if and only if the replaced body and the new one are alike, or no height carries the hash. |
| `NodeState.NodeState.Reorganise` | core/node/src/state.rs:664-736 | Refused if and only if the fork lies more than 100 blocks back or below the last checkpoint; from an untorn state it succeeds if and only if moreover the fork is at most 100 below the greatest height the tip has had (every undo record is there) and the connected blocks up to the fork followed by the stored branch are a valid chain, and tears the ledger otherwise; success moves the tip and leaves indexes equal to a rebuild, whatever was overwritten before; failure leaves the tip in place. |
| `NodeState.NodeState.DisconnectBlocks` | core/node/src/state.rs:680-687 | Succeeds exactly when every undo record is present; after k records the UTXO set is the replay of the active chain without its last k blocks. |
| `NodeState.NodeState.ConnectBlocks` | core/node/src/state.rs:690-708 | After j blocks of the branch the UTXO set, undo data and lower heights are those of the shared chain plus those j blocks; it stops short exactly when the whole branch is not a valid chain; the undo records afterwards are the old ones and those of the blocks connected. |
| `NodeState.NodeState.SwitchTo` | core/node/src/state.rs:690-728 | Connecting the branch onto the rolled-back ledger, trimming heights, moving the tip and rebuilding indexes restores the invariant for the new path; from an untorn state this succeeds exactly when the branch makes a valid chain. |
| `NodeState.NodeState.ValidateAndApply` | core/node/src/state.rs:604-618 | Invalid exactly when full validation against the headers the height map lists below the block fails (UTXO set untouched); otherwise the set and undo data are those of its application, which may stop midway. |
| `NodeState.NodeState.ProcessOrphans` | core/node/src/state.rs:802-831 | Connecting waiting descendants, with failures swallowed, keeps the invariant, handles every orphan that leaves the pool exactly once and nothing else, leaves no orphan waiting for that block nor for any block connected or stored on the way, and terminates. |
| `NodeState.NodeState.AddOrphan` | core/node/src/state.rs:779-799 | The pool and its index by parent stay exact mirrors; at most 100 orphans after any insertion, none evicted while there is room. |
| `NodeState.NodeState.GetBlock` | core/node/src/state.rs:450-465 | With a coherent cache, lookup through the cache equals lookup in storage. |
| `NodeState.InsertBlockCache` | core/node/src/state.rs:900-911 | The cache stays coherent with storage and within capacity, and evicts nothing that fits. |
| `NodeState.PruneUndo` | core/node/src/state.rs:1002-1013 | Deletes exactly the undo records of blocks at least 100 below the tip on the height map's chain. |
| `NodeState.TrimHeights` | core/node/src/state.rs:710-720 | Removes exactly the heights above the new tip up to the old one. |
| `NodeState.MoveTip` | core/node/src/state.rs:710-728 | From a fully connected branch, the trimmed, pruned and re-indexed state is sound for the new tip. |
| `NodeState.Advance` | core/node/src/state.rs:620-641 | From a validated and applied block on the tip, the new tip, work, height map, undo data and indexes are sound. |
| `OrphanPool.OrphanDropped` | core/node/src/state.rs:786-794 | Dropping an orphan keeps pool and parent index mirrors of each other. |
| `NodeSteps.Switch` | core/node/src/state.rs:690-728 | A complete branch gives a sound state for the new tip, strictly later in work, with fresh indexes, and nothing final disconnected. |
| `NodeSteps.Extend` | core/node/src/state.rs:588-641 | A validated child of the tip gives a sound, later state, whatever undo data is pruned. |
| `NodeSteps.UndoPresentIff` | core/node/src/state.rs:668-687 | Rolling back to a fork finds every undo record if and only if the fork is at most 100 below the greatest height the tip has had. |
| `NodeSteps.SwitchIff` | core/node/src/state.rs:680-728 | The caller's condition on fork height and stored branch holds exactly when all undo records are present and the connected prefix with the branch is a valid chain. |
| `NodeSteps.DepthIsLimit` | core/node/src/state.rs:666-677 | The node's own depth and checkpoint test on the disconnect list is the limit stated on the fork height. |
| `NodeSteps.SideFresh` | core/node/src/state.rs:653-656 | After a store beside the chain fresh indexes stay fresh if and only if no height up to the tip carries the hash, or at the last that does the stored body and the new one list the same txids under every script and every txid in only one of them occurs again in a body above; in particular when the body is the stored one. |
| `NodeSteps.OwnHeight` | core/node/src/state.rs:653-656 | In an untorn state the only height that can carry a block's hash is the one in its header. |
| `BodySwap.SameRebuildIff` | core/node/src/state.rs:1183-1218 | Replacing the body under a hash leaves the rebuilt indexes unchanged if and only if the two bodies are alike in that sense; for every height map, storage, hash and body. |
| `NodeSteps.BodyRestored` | core/node/src/state.rs:653-656 | Resubmitting the original body makes overwritten indexes equal a rebuild again. |
| `NodeSteps.ActiveHeaders` | core/node/src/state.rs:604-612 | In an untorn state the headers the height map lists below the next block are those of the connected chain, so validation sees the chain's own headers. |
| `NodeExamples.TearFreshNode` | core/node/src/state.rs:604-618 | On every network whose checkpoints, clock and sigop counting let it through, a fresh node that receives a child of genesis minting one thing twice validates it, fails to apply it and is left torn. |
| `NodeExamples.StaleFreshNode` | core/node/src/state.rs:651-656 | On every network a fresh node that receives, on time, the genesis header over no transactions stores it under its own tip's hash, and its indexes no longer equal a rebuild. |
| `NodeExamples.MissingRecordState` | core/node/src/state.rs:1002-1013 | For every sound state with a fork within the depth limit there is a state satisfying the same invariant, alike but for the greatest height its tip has had and the records pruned there, in which the same reorganisation lacks an undo record. |
| `NodeSteps.StoredBest` | core/node/src/state.rs:653-662 | After a store, whichever of tip and new block has more work is a most-work block. |
| `NodeSteps.SameWorkAgain` | core/node/src/state.rs:578-582 | A block submitted again is assigned the work it already had. |
| `ChainLedger.DisconnectsUndoConnects` | core/core/chain/src/utxo.rs:504-527 | For every chain that applies, k disconnects, last block first, undo the last k connects. |
| `Coins.ReplayCoins` | core/core/chain/src/utxo.rs:445-502 | For every chain that applies and every outpoint: it is in the replayed set if and only if a transaction of some block made it and no later one took it, and the coin is then that output with that block's height and coinbase flag. |
| `Coins.SpentWasUnspent` | core/core/consensus/src/validator.rs:173-182 | Every input of a connected block spends an outpoint made in a lower block and not taken since. |
| `Coins.SpentOnce` | core/core/consensus/src/validator.rs:1056-1064 | On a valid chain no outpoint is spent twice, neither within a block nor across blocks, unless it was made again in between. |
| `Coins.CoinbasesMature` | core/core/consensus/src/validator.rs:183-192 | No block of a valid chain spends a coinbase output fewer than 100 blocks after any block, up to itself, that made it. |
| `Coins.RelativeLocksKept` | core/core/consensus/src/validator.rs:193-218 | An input of a version-2 transaction with the disable bit clear waits the blocks, or the 512-second units of median time, of its sequence since its coin was made. |
| `Coins.AbsoluteLocksKept` | core/core/consensus/src/validator.rs:133-158 | A transaction with a non-final input is in no block below its lock height, or of smaller median time than its lock time. |
| `Coins.TimesAdvance` | core/core/consensus/src/validator.rs:919-926 | Every block of a valid chain is stamped later than the median time below it. |
| `ChainRules.CoinbaseFirst` | core/core/consensus/src/validator.rs:952-961 | In every connected block exactly the first transaction has the null outpoint as its only input. |
| `ChainRules.TransactionsInRange` | core/core/consensus/src/validator.rs:107-131 | Every other transaction has version 1 or 2 and no output above 21 million coins. |
| `ChainRules.InputsCoverOutputs` | core/core/consensus/src/validator.rs:173-235 | No transaction of a valid chain pays out more than the outputs it spends, wherever made, were worth. |
| `ChainRules.ScriptsPassed` | core/core/consensus/src/validator.rs:220-228 | The script layer found no fault with any connected input, block-wide verification passed, and blocks with witnesses beyond the coinbase carry a good commitment. |
| `ChainRules.SigopsWithinBudget` | core/core/consensus/src/validator.rs:963-975 | The signature operations of a connected block, coinbase aside, cost at most 80,000 together. |
| `ChainRules.InputVerdict` | core/core/consensus/src/validator.rs:173-228 | Every input's verdict in order and in numbers: unknown, coinbase under 100 blocks, relative lock in blocks, in seconds, then the script layer's. |
| `ActiveChain.SupplyBounded` | core/core/consensus/src/validator.rs:1066-1091 | Along every validated chain, total UTXO value is at most the subsidies of its heights, and those at most 21 million coins. |
| `ActiveChain.StoreBlock` | core/node/src/state.rs:651-656 | Storing a connecting block keeps the tree, the difficulty schedule and every recorded work, also when the hash was stored before. |
| `ActiveChain.OpsReversible` | core/core/chain/src/utxo.rs:504-527 | The node's own application is undone by its undo data, and a hash names one header. |
| `ChainWalk.FindForkBlocks` | core/node/src/state.rs:918-974 | For any two stored tips, terminates with the two paths beyond their most recent common ancestor, the old one tip-first, the new one ancestor-first. |
| `ChainWalk.ForkDisjoint` | core/node/src/state.rs:918-974 | The disconnect and connect lists share no block. |
| `ChainWalk.ForkMeans` | core/node/src/state.rs:666-677 | Old height minus the disconnect count is the height of the most recent common ancestor, from which both paths continue. |
| `ChainWalk.CollectAncestors` | core/node/src/state.rs:929-942 | Collects exactly the ancestors of the old tip. |
| `ChainWalk.CalculateNextBits` | core/node/src/state.rs:366-447 | The difficulty rule computed by ancestor walks equals the schedule defined on the header tree, whose values `Adjustment` gives in timestamps and bits. |
| `ChainWalk.WalkBackBits` | core/node/src/state.rs:396-407 | The min-difficulty walk-back terminates at the bits of the nearest ancestor that is at a boundary, at genesis, or not at minimum difficulty. |
| `ChainWalk.RetargetBits` | core/node/src/state.rs:434-446 | Clamp, multiply, divide and re-encode give the compact form of the exact capped quotient. |
| `ChainTree.BranchesDisjoint` | core/node/src/state.rs:944-957 | A block shared by two paths lies at one height below their fork. |
| `ChainTree.PathNode` | core/node/src/state.rs:929-942 | Every node of a path is stored at its index's height and ends its own path. |
| `Schedule.TargetsBounded` | core/node/src/state.rs:366-447 | On every tree that follows the schedule each target is at most the genesis target. |
| `Adjustment.AdjustmentRule` | core/node/src/state.rs:414-446 | On a tree on schedule every boundary block carries the compact form of a value that the two timestamps of its period fix: the parent's target if it took exactly the intended span, in proportion between span/factor and span*factor, at those ends beyond them, never above the genesis target. |
| `Adjustment.SteadyBits` | core/node/src/state.rs:414-446 | A period of exactly the intended length leaves canonical bits unchanged. |
| `Adjustment.LongerIsEasier` | core/node/src/state.rs:433-441 | For equal bits a longer period never gives a lower target value, whatever the trees. |
| `Adjustment.BetweenBoundaries` | core/node/src/state.rs:386-412 | Off the boundaries a block repeats its parent's bits; where minimum difficulty is allowed, a block more than two block times after its parent carries the floor, any other the bits at which the walk back through floor bits ends. |
| `Adjustment.NetworkNumbers` | core/core/testnet/src/lib.rs:165-252 | Period lengths, block times and factors of the three networks in numbers. |
| `Adjustment.EasiestTargets` | core/core/testnet/src/lib.rs:165-252 | The genesis targets of the three networks in numbers. |
| `Schedule.RetargetStep` | core/node/src/state.rs:414-446 | At each boundary the new target is at most the factor times the parent's, never above the clamped value, within one part in 2^15 of it from 2^16 on, and zero below. |
| `Schedule.NextBitsStable` | core/node/src/state.rs:366-447 | Storing more blocks never changes the bits demanded of a block. |
| `Schedule.ScheduleGrows` | core/node/src/state.rs:567-575 | A block with the demanded bits keeps the whole tree on schedule. |
| `Schedule.NetworksOk` | core/core/testnet/src/lib.rs:165-252 | Mainnet, testnet and regtest parameters are in the range the retarget arithmetic needs. |
| `Difficulty.BitsToTarget` | core/core/consensus/src/difficulty.rs:3-41 | The byte-wise decoder computes the compact format's target. |
| `Difficulty.TargetToBits` | core/core/consensus/src/difficulty.rs:43-74 | The byte-wise encoder computes the compact form of the target's value. |
| `Difficulty.EncodeRoundsDown` | core/core/consensus/src/difficulty.rs:43-74 | Encoding never rounds up; the loss is below one part in 2^15 exactly for targets in [2^16, 2^255), and every other target decodes to zero. |
| `Difficulty.DecodeThenEncode` | core/core/consensus/src/difficulty.rs:3-74 | Decoding then encoding returns the bits if and only if they are canonical. |
| `Difficulty.WorkFromCompact` | core/core/consensus/src/difficulty.rs:150-188 | Work of compact bits is floor(2^256 / (T+1)) of the decoded target, zero for a zero target. |
| `Difficulty.WorkFromTarget` | core/core/consensus/src/difficulty.rs:150-188 | The complement-divide-increment computation is floor(2^256 / (T+1)) for every nonzero target. |
| `Difficulty.WorkAntitone` | core/core/consensus/src/difficulty.rs:150-188 | A larger nonzero target never has more work, and every nonzero target has some. |
| `Difficulty.WorkBound` | core/core/consensus/src/difficulty.rs:150-188 | Work fits 256 bits and is positive exactly for nonzero targets. |
| `Arithmetic256.Div256` | core/core/consensus/src/difficulty.rs:192-230 | Restoring division equals integer division for every dividend and every nonzero divisor, including those above 2^255. |
| `Arithmetic256.NoLostCarry` | core/core/consensus/src/difficulty.rs:205-211 | After b bits the doubled remainder still fits 256 bits. |
| `Arithmetic256.DivideBit` | core/core/consensus/src/difficulty.rs:199-228 | One round keeps quotient and remainder of the bits read so far. |
| `Arithmetic256.AddWork` | core/core/consensus/src/difficulty.rs:233-242 | The carry loop is addition modulo 2^256. |
| `BigEndian.LexIsNumeric` | core/core/consensus/src/difficulty.rs:246-248 | Byte-array comparison is numeric comparison. |
| `Retarget.RetargetTarget` | core/core/consensus/src/difficulty.rs:82-142 | For every target, timespan 1 to 2^56 and cap: exactly min(max, floor(old * actual / timespan)). |
| `Retarget.MultiplyByU64` | core/core/consensus/src/difficulty.rs:97-114 | The byte-wise product over 40 bytes is exact. |
| `Retarget.CappedQuotientExact` | core/core/consensus/src/difficulty.rs:116-141 | Within 2^56 the overflow flag is set exactly when the quotient needs more than 256 bits, and the capped result is exact. |
| `Retarget.RetargetExactIff` | core/core/consensus/src/difficulty.rs:116-141 | The long division is exact for all inputs if and only if the timespan is at most 2^56. |
| `Retarget.LargeTimespanFails` | core/core/consensus/src/difficulty.rs:116-141 | For every larger timespan a concrete product where the result is zero although the quotient is not. |
| `Emission.SupplyCap` | core/core/consensus/src/params.rs:84-90 | The sum of block subsidies over any number of heights is at most 21 million coins. |
| `SupplyTotal.ExactSupply` | core/core/consensus/src/params.rs:84-90 | From height 6,930,000 on exactly 2,099,999,997,690,000 units have been paid. |
| `Emission.SupplyAtHeight` | core/core/testnet/src/lib.rs:284-309 | The era-jumping loop equals the height-by-height sum when the cap covers it. |
| `Emission.SubsidySumIsMinted` | core/core/testnet/src/lib.rs:264-272 | block_subsidy and block_reward emit the same on mainnet. |
| `Emission.MintedBound` | core/core/testnet/src/lib.rs:264-272 | Under any parameters the total emission is at most two first eras. |
| `Ledger.DisconnectUndoesApply` | core/core/chain/src/utxo.rs:430-527 | For every set and every block that applies, with in-block spends and repeated inputs, disconnecting its undo data restores exactly the original map. |
| `Ledger.UtxoSet.ApplyBlockWithUndo` | core/core/chain/src/utxo.rs:430-443 | Applies transaction by transaction; the set after a failure is where the failing transaction left it. |
| `Ledger.UtxoSet.ApplyTransactionWithUndo` | core/core/chain/src/utxo.rs:445-502 | Spends, rejects existing outputs and creates; the result is the specified new set and undo record, or the specified partial set. What the set then holds is said of the blocks themselves in `Coins.ReplayCoins`. |
| `Ledger.UtxoSet.DisconnectBlock` | core/core/chain/src/utxo.rs:512-527 | Removes created outputs and restores spent ones in reverse transaction order. |
| `Value.ApplyTxValue` | core/core/chain/src/utxo.rs:445-502 | Total value moves by outputs minus spent inputs. |
| `Validator.ValidateBlock` | core/core/consensus/src/validator.rs:902-1156 | Returns no error exactly for blocks that meet every structural, spending and commitment rule, and otherwise the error of the first rule broken in the order of the code, script-layer errors as the script layer reports them. What the rules mean for chains and bytes is in `Coins`, `ChainRules` and `Wire`. |
| `Wire.TxLength` | core/core/tx/src/segwit.rs:406-450 | The base and total sizes of every transaction are the lengths of its bytes without and with witnesses, marker and flag. |
| `Wire.WeightIsBytes` | core/core/chain/src/block.rs:101-126 | A block's weight counts each byte without witnesses four times and each witness byte once. |
| `Wire.WeightDecides` | core/core/consensus/src/validator.rs:911-917 | An accepted block has three times its bytes without witnesses plus its bytes with them at most 4,000,000; a nonempty block above that is refused as too heavy whatever else it breaks. |
| `Wire.PlainLimit` | core/core/consensus/src/validator.rs:911-917 | A block without witnesses is refused as too heavy above 1,000,000 bytes, and only accepted up to that. |
| `Validator.ValidateTransaction` | core/core/consensus/src/validator.rs:99-236 | Returns no error exactly for transactions meeting version, value, lock-time, existence, maturity, relative-lock and script rules with inputs covering outputs, and otherwise the error of the first rule broken, script-layer errors as the script layer reports them. |
| `Validator.VersionTopBits` | core/core/consensus/src/validator.rs:929-936 | The version test passes exactly the non-negative versions whose top three bits are 001 or 011; 0x60000000 is one of the latter. |
| `Validator.FaultlessInputs` | core/core/consensus/src/validator.rs:173-235 | The input loop reports nothing exactly when every input is good and inputs cover outputs without overflow. |
| `Validator.CheckDoubleSpends` | core/core/consensus/src/validator.rs:1056-1064 | Succeeds exactly when no outpoint is spent twice in the block. |
| `Validator.CheckBip30` | core/core/consensus/src/validator.rs:938-949 | Succeeds exactly when no output of the block is already unspent. |
| `Validator.TotalOutputValue` | core/core/consensus/src/validator.rs:229-233 | The checked sum is the exact sum or an overflow error. |
| `Acceptance.ValidatedBlockApplies` | core/core/consensus/src/validator.rs:938-1064 | A validated block applies to the set it was validated against if and only if it does not repeat an input-less transaction with outputs; so always when every non-coinbase transaction has an input. |
| `Acceptance.AcceptedButInapplicable` | core/core/chain/src/utxo.rs:471-483 | Under any header, set and rules that let its free transactions pass, a block minting one thing twice passes validation and does not apply. |
| `Acceptance.FreeBlockPasses` | core/core/consensus/src/validator.rs:902-1156 | Every block of an empty coinbase and fresh input-less mints with a correct header passes full validation, against any UTXO set. |
| `Acceptance.BlockValue` | core/core/consensus/src/validator.rs:1066-1091 | A validated block that applies changes total value by its coinbase output less the fees, so it mints at most the subsidy. |
| `Acceptance.AcceptedTxidsDistinct` | core/core/consensus/src/validator.rs:1056-1064 | The txids of an accepted block are pairwise different if and only if no input-less transaction is repeated in it. |
| `Acceptance.MerkleRootCommits` | core/core/consensus/src/validator.rs:1093-1096 | Two accepted blocks with one Merkle root, neither repeating an input-less transaction, carry the same transactions, witnesses aside. |
| `Acceptance.OneHeaderTwoBodies` | core/core/consensus/src/validator.rs:1093-1096 | One header with two different accepted bodies: the longer one repeats the last input-less transaction of the shorter. |
| `Merkle.CalculateMerkleRoot` | core/core/chain/src/block.rs:53-94 | The level-by-level loop computes the Merkle root. |
| `Merkle.RootOfHalves` | core/core/chain/src/block.rs:53-94 | Over a power of two leaves the root is the hash of the left half's root and the right half's root, in that order. |
| `Merkle.BuildMerkleProof` | core/node/src/rpc.rs:739-782 | The proof has one sibling per level and folds by the position bits to the Merkle root. |
| `Merkle.ProofFolds` | core/node/src/rpc.rs:739-782 | For every list and position, folding the specified path gives the root. |
| `Merkle.ProofSound` | core/node/src/rpc.rs:739-782 | With an injective pair hash, a path of the right length that folds to the root proves exactly the leaf at that position. |
| `Merkle.RootInjective` | core/core/chain/src/block.rs:53-94 | With an injective pair hash whose image excludes leaves, equal roots mean equal duplicate-free lists. |
| `Merkle.DuplicateTailCollides` | core/core/chain/src/block.rs:70-84 | Repeating the last element of any odd list longer than one keeps the root, so duplicate-freedom is needed. |
| `Indexes.RebuildIndexes` | core/node/src/state.rs:1183-1218 | The rebuild loop computes the indexes of the scanned heights. |
| `Indexes.IndexTxs` | core/node/src/state.rs:1220-1240 | Incremental indexing enters every transaction and every output script in order. |
| `Indexes.RebuiltIsChain` | core/node/src/state.rs:1183-1240 | Rebuilding from stored bodies equals indexing the chain block by block. |
| `Mempool.TxPool.AddTransactionUnchecked` | core/node/src/mempool.rs:152-253 | Complete effect: refusals before eviction change nothing; otherwise exactly the conflicts with their descendants leave first, then limits, size arithmetic and capacity decide; size accounting and conflict-freedom hold after every outcome. The rules themselves are said of inputs and fees in `PoolRules`. |
| `PoolRules.ReplacementPays` | core/node/src/mempool.rs:161-199 | An addition that conflicts with an entry: refused for want of opt-in, for more than 100 pairs of input and conflicting entry, or for a fee not above those of the conflicting entries with all their descendants, in this order and exactly then, leaving the pool alone; so an added one meets all three. |
| `PoolRules.NothingToReplace` | core/node/src/mempool.rs:161-199 | Without a conflict none of these errors occurs. |
| `PoolRules.ReplacementPaysMore` | core/node/src/mempool.rs:190-250 | An added replacement that needs no capacity eviction changes the pool's total fees by its own less the displaced ones, strictly upward. |
| `PoolRules.LimitsDecide` | core/node/src/mempool.rs:206-226 | Once conflicts have left: added, or refused later, only with at most 25 ancestors and no parent whose family exceeds 25; the two limit errors exactly report the first of these that fails. |
| `PoolRules.AddedEntry` | core/node/src/mempool.rs:206-250 | The new entry records its transaction, fee, size, time and the fee and size sums of its ancestors; every other entry is an old one that was not displaced. |
| `Mempool.RefusedAddKeeps` | core/node/src/mempool.rs:152-253 | A refused add leaves the pool as it was if and only if it was a duplicate or a refused replacement, or it had no conflicts and met a limit, the size arithmetic, or a pool with no bytes to free. |
| `Mempool.RefusedAddEvicts` | core/node/src/mempool.rs:201-250 | For every pool with one entry and every replaceable rival for its input that pays more but is larger than the whole pool: the add fails as full, and the pool is empty. |
| `Mempool.LoseOnlyEntry` | core/node/src/mempool.rs:135-250 | A fresh pool given two such transactions, both at or above one satoshi per byte, accepts the first, refuses the second as full and ends up empty. |
| `Mempool.PlanReplacement` | core/node/src/mempool.rs:161-199 | BIP 125 verdict and eviction set: direct conflicts and all their in-pool descendants, refused without signalling, above 100 conflicts, or when the fee does not exceed theirs. |
| `Mempool.NoSurvivorDescends` | core/node/src/mempool.rs:184-204 | No entry left after a replacement descends from an evicted one. |
| `Mempool.ReplacementRaisesFees` | core/node/src/mempool.rs:190-199 | Taking out the displaced entries and putting in one with a higher fee raises the pool's total fees by the difference (BIP 125, Implementation Details, rule 3); that an added transaction meets the hypothesis is `PoolRules.ReplacementPays`. |
| `Mempool.CheckLimits` | core/node/src/mempool.rs:206-226 | Ancestor and direct-parent descendant limits of 25, decided on exact ancestor and descendant sets; ancestor fee and size are the exact package sums. |
| `Mempool.TxPool.House` | core/node/src/mempool.rs:228-250 | Inserted if it fits; otherwise enough bytes are freed first; otherwise the pool is reported full. |
| `Mempool.TxPool.EvictLowestFeerate` | core/node/src/mempool.rs:686-709 | What leaves has a fee rate no higher than anything of positive size that stays; either the needed bytes are freed, and would not be without the last victim, or everything of positive size has left. |
| `Mempool.TxPool.RemoveBlockTransactions` | core/node/src/mempool.rs:302-352 | Exactly these entries leave: the block's own transactions, entries with an input equal to a non-null input of one of its non-coinbase transactions, and what descends from those without passing through the block's own; nothing left is in the block or spends what it spent; returns their number. |
| `Mempool.NothingSpentTwice` | core/node/src/mempool.rs:302-352 | For any confirmed ids and spent outpoints, no entry left is confirmed or spends one of them; for those of a block this is part of `Mempool.TxPool.RemoveBlockTransactions`. |
| `Mempool.SurvivorsStay` | core/node/src/mempool.rs:318-343 | A child whose in-pool parents are all confirmed stays. |
| `Mempool.TxPool.ExpireOldEntries` | core/node/src/mempool.rs:712-728 | Keeps exactly the entries added at most 1,209,600 seconds ago. |
| `Mempool.TxPool.RemoveTransaction` | core/node/src/mempool.rs:285-294 | Removes one entry and its size. |
| `Mempool.TxPool.AddTransactionWithFee` | core/node/src/mempool.rs:135-149 | Below one satoshi per byte nothing changes; otherwise the effect of insertion. |
| `Mempool.TxPool.AddTransactionChecked` | core/node/src/mempool.rs:260-282 | Above 16,000 sigop cost or below the relay floor nothing changes; otherwise the pool is exactly what insertion made of it, with the cost recorded in the new entry if there is one. |
| `Mempool.TxPool.Clear` | core/node/src/mempool.rs:485-490 | Empties the pool. |
| `Mempool.Run` | core/node/src/mempool.rs:106-728 | Any sequence of adds, failed adds, removals, confirmations, expiries and clears: each call has its full effect on the pool the one before left, sizes add up to the recorded size within the maximum, and no two entries spend one outpoint. |
| `PoolGraph.CollectDescendants` | core/node/src/mempool.rs:797-812 | Adds exactly what is reachable from the root without passing through what was collected before. |
| `PoolGraph.Cascade` | core/node/src/mempool.rs:184-188 | Over several roots the result is what is reachable from any of them. |
| `PoolGraph.CountDescendants` | core/node/src/mempool.rs:751-767 | Counts exactly the reachable entries other than the root. |
| `PoolGraph.AncestorPackage` | core/node/src/mempool.rs:771-793 | Visits exactly the in-pool ancestors and adds up each one's fee and size once. |
| `BlockAssembly.GetBlockTransactions` | core/node/src/mempool.rs:399-461 | For every candidate order on an acyclic pool: no duplicates, parents before children, four units of weight a byte within the budget and sigops within 80,000; and every entry left out would, with its ancestors, exceed one of them. |
| `BlockAssembly.CollectPackage` | core/node/src/mempool.rs:465-482 | Lists unselected in-pool ancestors, each after its own parents. |
| `BlockAssembly.Consider` | core/node/src/mempool.rs:419-452 | One candidate's package joins exactly when both budgets allow. |
| `BlockAssembly.PackageIsNew` | core/node/src/mempool.rs:419-422 | The listed package is exactly what the entry's ancestors add to the selection. |
| `BlockAssembly.AncestorsIncluded` | core/node/src/mempool.rs:399-461 | Every in-pool ancestor of a selected transaction is selected. |
| `BlockAssembly.EverythingFits` | core/node/src/mempool.rs:399-461 | A pool that fits both budgets is selected whole. |
| `CompactBlocks.New` | core/core/chain/src/compact_blocks.rs:91-138 | For any transactions and indices the message sends exactly position 0 and the requested positions in full, where their differential indices say, and for every other position, in order, the short id of its transaction. |
| `CompactBlocks.RoundTrip` | core/core/chain/src/compact_blocks.rs:91-138 | For up to 25,000 transactions and any prefilled indices, a pool that resolves the short ids rebuilds the original list if and only if no prefilled transaction is empty. |
| `CompactBlocks.ReconstructLayout` | core/core/chain/src/compact_blocks.rs:288-333 | Rebuilding gives the layout's transactions exactly when every short id is in the pool and no prefilled transaction is empty. |
| `CompactBlocks.ReconstructExact` | core/core/chain/src/compact_blocks.rs:288-333 | For every message: an index error exactly when there are too many transactions or a position is out of range; success exactly when moreover the prefilled transactions are nonempty at distinct positions and the pool knows every short id. |
| `CompactBlocks.Reconstruct` | core/core/chain/src/compact_blocks.rs:288-333 | The in-place slot loops, with 64-bit wrap-around of indices, compute the specified rebuild or error. |
| `CompactBlocks.GetMissingIndices` | core/core/chain/src/compact_blocks.rs:336-370 | The marking and cursor loops compute the specified missing list. |
| `CompactBlocks.MissingIsExact` | core/core/chain/src/compact_blocks.rs:336-370 | For every message: the missing list is ascending, inside the block, and holds exactly the positions whose short id, taken in order over the positions not prefilled, the pool does not know; empty above 25,000 transactions. |
| `CompactBlocks.MissingOfLayout` | core/core/chain/src/compact_blocks.rs:336-370 | For a message built from a layout the missing positions are exactly those of the layout whose transaction the pool lacks. |
| `CompactBlocks.SucceedsIffNothingMissing` | core/core/chain/src/compact_blocks.rs:288-370 | For every message, rebuilding succeeds exactly when the missing list is empty, the size limit is kept and the prefilled transactions are nonempty at distinct positions in range. |
| `UtxoCodec.VarintRoundTrip` | core/core/chain/src/utxo.rs:17-60 | Every 64-bit value decodes back, with any trailing bytes and the exact length. |
| `UtxoCodec.ScriptRoundTrip` | core/core/chain/src/utxo.rs:76-156 | Every script decodes back through its template or raw form, with any trailing bytes. |
| `UtxoCodec.TemplatesShrink` | core/core/chain/src/utxo.rs:76-107 | The three output templates are stored as a type byte and their 20 or 32 bytes, every other script with its type, length and bytes. |
| `UtxoCodec.EntryRoundTrip` | core/core/chain/src/utxo.rs:172-199 | An entry decodes to itself less the top bit of its height. |
| `UtxoCodec.EntryExact` | core/core/chain/src/utxo.rs:172-199 | An entry round-trips if and only if its height is below 2^63. |
| `UtxoCodec.SetRoundTrip` | core/core/chain/src/utxo.rs:215-256 | For every set, iteration order and trailing bytes, decoding returns the set if and only if all heights are below 2^63. |
| `UtxoCodec.DecompressUtxoSet` | core/core/chain/src/utxo.rs:233-256 | The cursor loop computes the specified decoding, including every malformed-input failure. |

## Left out

- Script interpretation, ECDSA and Schnorr verification, sigop counting, witness commitments, SHA-256 and SipHash: parameters of the model.
- The signature cache and parallel validation: the node passes no cache, and validation results do not depend on order.
- Proof-of-work: whether a header hash meets its target is checked by the callers of `add_block`, not by it.
- Median-time-past windows: the median is a function of the headers below the block, passed in.
- Persistence to disk, restart loading, snapshots, body pruning and assume-valid: storage is a map, writes do not fail, and no network sets an assume-valid block.
- The header-first block index, RPC plumbing, mining templates, notifications and Stratum.
- The orphan transaction pool, package relay, fee estimation and histograms of the mempool.
- Floating-point fee rates: block candidates are tried in any order; eviction victims by a rate function standing for the quotient; the one-satoshi-per-byte relay floor is stated as fee below size.
- BIP 9 signalling, Bloom filters and small caches.
- 64-bit overflow of value sums: sums of fees, fee totals and sizes are exact, except where the code checks them.
- Heights at the 64-bit maximum: header heights stay below 2^64 - 1.
- Overflow of `start + len` while decoding a raw script whose declared length is near 2^64.
- NodeState.NodeState.constructor: genesis is applied through the undo-recording path, whose effect on the set is that of `apply_block`.
- NodeState.NodeState.AddBlock: the clock is read once per call, orphans connected by the call included.
- NodeTheorems.UndoRetained: the greatest height is at most 100 above the tip, not less than 100; equality needs a heavier branch that ends at the fork itself, which only wrap-around of 256-bit work allows.
- NodeExamples.MissingRecordState: the state satisfies the node's invariant; a run of over a hundred blocks that reaches it is not spelled out.
- Mempool.TxPool.ExpireOldEntries: descendants of expired entries stay, as in the code, so the pool is not claimed to be parent-closed.
- BlockAssembly.GetBlockTransactions: acyclicity of the pool is given by a ghost rank, standing for the fact that a hash cannot commit to itself.
