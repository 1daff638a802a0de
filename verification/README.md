# The rollup's authenticated state machine

A Dafny 4.11 model of the rollup state manager, from its sparse Merkle tree up to
the blocks it emits, with proofs. `dafny verify dfyconfig.toml` checks all of it.

## Layers

Each layer is specified by the one below it.

- `Field`, `MerkleSpec`, `MerkleTree`: field elements, the dense Merkle root, and
  the sparse tree object that refines it, with its chunked update.
- `Records`, `Ledger`, `Batch`, `Slots`, `GlobalState`: orders and account records,
  the state as one value (`Ledger`), the two branches of the batched update, the
  order-slot search, and the state object. Every method of the object states the
  `Ledger` it leaves behind.
- `Transactions`, `Settlement`, `Invariants`, `Conservation`, `SelfTransfer`: what each
  transaction does to the ledger and what it keeps.
- `Effects`, `Fills`: exactly when each operation goes through, and what it changes account
  by account and field by field; how far orders are filled, over whole runs.
- `Steps`, `OrderHistory`, `Runs`: every operation as one step, and theorems over
  whole runs of steps.
- `Commitment`: what the digests and the state root cover.
- `Emission`, `Emitted`, `Payloads`, `Witness`, `TradeWitness`: the record each transaction
  emits, slot by slot, and what a verifier who sees only the record can replay.
- `Amounts`, `BitEncoder`, `TxData`, `TxEncoder`, `Encodability`: decimal compression,
  the bit encoder, the record layouts, and which emitted records they accept.
- `Blocks`, `Manager`, `Rollup`, `Driver`: the manager object, cutting of blocks, root
  chains over runs, and the message loop.
- `Published`: what the bytes of a block say of each operation in it.
- `Persistence`: saving and loading the state.
- `Examples`: concrete inputs at which the program does not do what it is meant to.

## Reading the model

- `Fr` is the naturals below the BN254 scalar order. Poseidon and SHA-256 are
  uninterpreted functions. No lemma assumes that a hash never collides; where a
  converse needs it, the lemma asks only that the digests of that one computation
  do not (`NoCollision`, `Separates`, `TellsApart`).
- A Rust map or vector that is mutated is a `map` or `seq` field; a fixed array
  filled in place is a local sequence written slot by slot. The objects carry a
  ghost value (`Tree.leaves`, `GlobalState.view`) that their methods keep.
- The thread pool of the parallel branch is a `schedule`: any order of the tree
  tasks, each running as a whole under its tree's lock. The theorems hold for every
  schedule.
- A panic or an error return is an `Err`. After an `Err` of a trade or of a pop, or of a
  transfer whose recipient has no trees, nothing is said of the state, which the program
  leaves half-changed behind a poisoned lock.
- The release profile keeps debug assertions on (`Cargo.toml` line 77), so the
  assertions of the slot search are part of the model.
- The float format of amounts, significand plus exponent times 2^35, is that of the
  amount type that `compress_fr` builds and `decompress_fr` reads.

## Where the code and its intentions part

- A withdrawal checks neither that the account has a key nor that the balance covers it.
  Without a key every balance reads as zero, whatever the tree holds, and is then written
  over. So a withdrawal conserves modulo the field order exactly when the balance reads as
  it is stored, and as an integer exactly when it also covers the amount
  (`Conservation.WithdrawSupply`). From an account nobody has touched it leaves a record
  without a key; the next withdrawal there, even of nothing, loses what that record stores
  (`Conservation.KeylessWithdrawalLeaks`).
- For the same reason a transfer to an account with a record but no key, and the key update
  of such an account, lose what it stores of the token (`Conservation.TransferSupply`,
  `Conservation.KeyUpdateSupply`), and the records of all three replay exactly when the
  balance reads as it is stored (`Witness.WithdrawReplays`, `Witness.TransferReplays`,
  `Witness.KeyUpdateReplays`).
- A transfer from an account to itself is not refused. Its two tree tasks race, the
  outcome depends on the schedule, the total is conserved only for amount zero, and
  the emitted record never replays (`SelfTransfer`, `Witness.SelfTransferRejected`).
- A trade of one token against itself keeps the total, but its record replays only
  when nothing moves (`TradeWitness.OneTokenTradeRejected`).
- Nothing checks that a new order sells anything; a bid whose amount times price rounds to
  zero does not. The scan of a full account panics on such an order, even when its slot
  could be given away. So a new order finds no place exactly when its account is full and no
  slot can be given away, or the scan meets an order without an amount first
  (`OrderHistory.PlacementFailsExactly`, `Examples.WorthlessOrderExample`).
- A trade takes it on trust that its orders name its tokens; its record replays exactly
  when they do, as far as the balance trees tell tokens apart (`TradeWitness.TradeReplays`).
- A new order is looked up under the account it names and placed under the account it trades
  for. When these differ, its id may already lead to a slot there, and it replaces the order
  in that slot even if that one is open (`OrderHistory.ForeignOrderReplaces`,
  `Examples.ForeignOrderExample`). Slots move as they should exactly when no trade of a run
  does this (`OrderHistory.StepMoves`, `Runs.RunMoves`).
- The id of an order that has lost its slot still cancels, and trades with, the order
  that is there now (`OrderHistory.CancelByEvictedId`, `OrderHistory.TradeByEvictedId`).
  Saving and loading forgets such ids (`Persistence.RebuiltDropsStale`), so across a restart
  an old id can be placed again; `Runs.PlacedOnce` speaks of one run.
- An order counts as filled from its total on, but the heading of a trade compares for
  equality. A trade that uses up neither order to the unit, for example one that
  overfills, makes the forging of its block panic (`Encodability.TradeEncodable`,
  `Examples.UnencodableExample`).
- Records are saved under their digest. Two accounts with equal records, for example
  one key under two ids and equal balances, cannot both be loaded again
  (`Persistence.AccountsComeBack`, `Persistence.SaveAndLoad`, `Examples.TwinKeysExample`).
- The order cursor of a new account starts at 1, the default order id, not at 0.

## Model

| member | source | states |
|---|---|---|
| `MerkleSpec.RootIsDenseRoot` | src/types/merkle_tree.rs:54-69 | the root computed from node values is the recursive Merkle root over all 2^height leaves |
| `MerkleSpec.RootOfFour` | src/types/merkle_tree.rs:148-154 | four leaves hash to their root in pairs, left before right at both levels |
| `MerkleSpec.FoldGivesRoot` | src/types/merkle_tree.rs:276-289 | every stored leaf folds along its own path to the root |
| `MerkleSpec.FoldAfterWrite` | src/types/merkle_tree.rs:155-168 | the path read before a write folds the new value to the new root |
| `MerkleSpec.PathIgnoresOwnLeaf` | src/types/merkle_tree.rs:276-289 | writing a leaf does not change that leaf's own path |
| `MerkleSpec.TwoWriteChain` | src/types/merkle_tree.rs:155-168 | for two different leaves, one path read before both writes and one read after both: the four folds meet in one middle root |
| `MerkleSpec.ProofIsBinding` | src/types/merkle_tree.rs:276-289 | a leaf and path fold to the root if and only if they are the stored leaf and its path, as long as no step of the fold collides with the tree |
| `MerkleSpec.FoldSeparates` | src/types/merkle_tree.rs:276-289 | along one path two values fold to one root if and only if they are equal, as long as they never collide on the way |
| `MerkleSpec.FoldTellsApart` | src/types/merkle_tree.rs:276-289 | two folds along one path end in one root if the values are equal and the indices congruent modulo the number of leaves, and only then as long as no level confuses them |
| `MerkleSpec.UpdatesPointwise` | src/types/merkle_tree.rs:174-196 | writes to distinct leaves leave at each leaf its own update or its old value |
| `MerkleSpec.UpdateOrderIrrelevant` | src/types/merkle_tree.rs:155-168 | the same writes to distinct leaves give the same leaves in any order |
| `MerkleTree.LevelRanges` | src/types/merkle_tree.rs:122-135 | the levels occupy disjoint contiguous key ranges |
| `MerkleTree.FlattenedInjective` | src/types/merkle_tree.rs:127-135 | no two nodes share a flattened key |
| `MerkleTree.Tree.constructor` | src/types/merkle_tree.rs:54-69 | a new tree stands for default leaves everywhere, its precomputed defaults being self-hashes |
| `MerkleTree.Tree.GetValue` | src/types/merkle_tree.rs:137-142 | every node reads as in the dense tree over the leaves, stored or defaulted |
| `MerkleTree.Tree.GetLeaf` | src/types/merkle_tree.rs:144-146 | a leaf read is the leaf the tree stands for |
| `MerkleTree.Tree.GetRoot` | src/types/merkle_tree.rs:271-274 | the root read is the Merkle root of all leaves |
| `MerkleTree.Tree.SetValue` | src/types/merkle_tree.rs:155-168 | exactly one leaf changes and at most that leaf is newly stored; the level-by-level loop leaves every node up to date |
| `MerkleTree.Tree.RecalculateParent` | src/types/merkle_tree.rs:148-154 | exactly one node is written: the ancestor, with the hash of its two children as they read |
| `MerkleTree.Tree.SetValuePrepareDiff` | src/types/merkle_tree.rs:198-218 | the precomputed parents are those of the tree with the leaf written, and nothing changes |
| `MerkleTree.Tree.SetValueApplyDiff` | src/types/merkle_tree.rs:220-253 | applying any sound precomputation, cache hits and misses alike, equals writing the leaf |
| `MerkleTree.Tree.SetValueParallel` | src/types/merkle_tree.rs:174-196 | for any updates, repeated indices and any chunk size included, the result is that of writing them one after the other |
| `MerkleTree.Tree.FillWithLeavesVec` | src/types/merkle_tree.rs:255-263 | filling leaf by leaf ends with exactly those leaves; a wrong number of leaves is refused and changes nothing |
| `MerkleTree.Tree.GetProof` | src/types/merkle_tree.rs:276-289 | the proof holds the root, the leaf and the sibling of every ancestor |
| `Ledger.InitThenWrite` | src/state/global.rs:383-389 | setting a balance is creating the account if needed, writing one leaf and flushing the record |
| `Batch.ParallelIsSequential` | src/state/global.rs:390-447 | with one update per account, the two-phase parallel branch ends in the sequential branch's state for every schedule of the tree tasks |
| `Batch.PartlyStep` | src/state/global.rs:396-422 | in any partial schedule one more task touches only its own tree of its own account |
| `GlobalState.GlobalState.constructor` | src/state/global.rs:152-194 | a new state stands for the empty ledger, its defaults precomputed |
| `GlobalState.GlobalState.GetRoot` | src/state/global.rs:195-197 | the root is that of the account tree |
| `GlobalState.GlobalState.GetAccount` | src/state/global.rs:234-239 | an account nobody has touched reads as the empty one |
| `GlobalState.GlobalState.HasAccount` | src/state/global.rs:240-245 | an account counts as present when it has a key |
| `GlobalState.GlobalState.GetTokenBalance` | src/state/global.rs:377-382 | an account without a key has balance zero whatever its tree holds |
| `GlobalState.GlobalState.RecalculateAccountStateHash` | src/state/global.rs:198-205 | both tree roots are copied into the record and its digest returned |
| `GlobalState.GlobalState.FlushAccountState` | src/state/global.rs:206-210 | the account leaf becomes the digest of the refreshed record; what that digest covers is stated by `Commitment.StateCollision` |
| `GlobalState.GlobalState.SetAccountL2Addr` | src/state/global.rs:211-215 | key set, leaf updated, nothing else touched |
| `GlobalState.GlobalState.SetAccountNonce` | src/state/global.rs:219-223 | nonce set and the record flushed |
| `GlobalState.GlobalState.IncreaseNonce` | src/state/global.rs:228-233 | nonce raised by one and the record flushed |
| `GlobalState.GlobalState.InitAccount` | src/state/global.rs:294-313 | a known account is left alone, an id outside the tree is refused, any other gets empty trees and the default leaf |
| `GlobalState.GlobalState.SetTokenBalance` | src/state/global.rs:383-389 | exactly one balance of one account is written and its record flushed |
| `GlobalState.GlobalState.SetTokenBalanceRaw` | src/state/global.rs:448-452 | exactly one balance leaf changes; the record is not yet told |
| `GlobalState.GlobalState.SetOrderLeafHashRaw` | src/state/global.rs:371-376 | exactly one order leaf changes; the record is not yet told |
| `GlobalState.GlobalState.BatchUpdate` | src/state/global.rs:390-447 | either branch computes its specification; for distinct accounts and a complete schedule both end in the same state |
| `GlobalState.GlobalState.RunTreeTask` | src/state/global.rs:415-418 | one tree task writes one tree through the chunked update and no other |
| `GlobalState.GlobalState.UpdateOrderState` | src/state/global.rs:342-344 | one order record written, no tree touched |
| `GlobalState.GlobalState.HasOrder` | src/state/global.rs:453-456 | an order is known when its id is mapped, even if it has lost its slot |
| `GlobalState.GlobalState.GetAccountOrderById` | src/state/global.rs:480-485 | the order read by id is whatever sits in the mapped slot |
| `GlobalState.GlobalState.CancelOrder` | src/state/global.rs:457-471 | the order in the mapped slot is flagged; an unmapped id or an empty slot is a panic |
| `GlobalState.GlobalState.FindVictim` | src/state/global.rs:259-286 | the cyclic loop over a full account computes the specified scan |
| `GlobalState.GlobalState.GetNextOrderPosForUser` | src/state/global.rs:246-286 | the next position and the cursor it leaves are those of the specification, panics included |
| `GlobalState.GlobalState.FindOrInsertOrder` | src/state/global.rs:345-366 | a known id keeps its slot, a new one is placed and mapped, and the slot's former order is returned |
| `GlobalState.GlobalState.OrderProof` | src/state/global.rs:489-491 | root, leaf and path of an order slot in its account's order tree |
| `GlobalState.GlobalState.BalanceProof` | src/state/global.rs:492-499 | the path of a balance, taken in the empty tree for an unknown account |
| `GlobalState.GlobalState.AccountProof` | src/state/global.rs:501-503 | the path of an account leaf with the state root |
| `GlobalState.GlobalState.BalanceFullProof` | src/state/global.rs:504-515 | balance and account proof taken together: both paths, both leaves and both roots |
| `Slots.EachSlotOnce` | src/state/global.rs:261-262 | the cyclic scan looks at every slot in exactly one round |
| `Slots.ScanResult` | src/state/global.rs:259-286 | whatever the slots hold, the first order from the cursor that is closed with no larger id or has no amount decides: its slot is returned, or the scan panics for want of an amount or for a repeated id; without such an order it fails |
| `Slots.FirstStopFirst` | src/state/global.rs:259-286 | that order is the first in scan order: no slot visited sooner holds one |
| `Slots.ScanGivesVictim` | src/state/global.rs:265-280 | whatever the slots hold, the slot given away holds a closed order with a smaller id |
| `OrderHistory.PlacementFailsExactly` | src/state/global.rs:246-286 | in any consistent state a new order finds no place if and only if its account is full and either no slot holds a closed order with a smaller id or an order without an amount, or the scan meets an order without an amount before any closed one with a smaller id; otherwise it is appended or takes the first such slot |
| `OrderHistory.ValuedPlacementFails` | src/state/global.rs:246-286 | where every stored order sells something it fails if and only if the account is full of orders that are open or have an id at least as large |
| `OrderHistory.WorthlessOrdersBlock` | src/state/global.rs:264 | an account full of orders without an amount takes no further order |
| `Examples.WorthlessOrderExample` | src/state/global.rs:264 | concretely: a trade of an order that sells nothing is accepted, and in an account with room for one order it then shuts out a larger id although it is filled |
| `OrderHistory.SideFills` | src/state/manager_wrapper.rs:586-643 | the cases of a trade's order: traded further in its slot, put in an empty slot, put in the slot of a closed order with a smaller id, or, belonging to another account, put where its id already leads; a new one is filled from nothing |
| `OrderHistory.CancelByOwnId` | src/state/global.rs:457-471 | the id of a stored order cancels that order and no other |
| `OrderHistory.CancelByEvictedId` | src/state/global.rs:457-471 | in any consistent state, cancelling by the id of an order that lost its slot cancels the order there now, which has another id |
| `OrderHistory.TradeByEvictedId` | src/state/manager_wrapper.rs:591-643 | trading by such an id trades the order that is in the slot now |
| `OrderHistory.EvictionLeavesStaleId` | src/state/global.rs:246-286 | an order that loses its slot to one with a larger id leaves its own id mapped to that slot |
| `OrderHistory.StepMoves` | src/state/global.rs:246-286 | in every step mapped ids stay mapped; each slot keeps its order, terms fixed and cancellation final, or gives a closed one up for a larger id, if and only if no new order is put where its id already leads against these rules |
| `OrderHistory.OwnOrdersKeepSlots` | src/state/manager_wrapper.rs:615-643 | trades whose new orders belong to the accounts they trade for, or have ids not yet mapped there, keep those rules |
| `OrderHistory.ForeignOrderReplaces` | src/state/manager_wrapper.rs:615-643 | on either side of a trade, a new order of another account whose id is mapped for the account it trades for goes into the mapped slot, and an open order there is lost |
| `Examples.ForeignOrderExample` | src/state/manager_wrapper.rs:615-643 | such a trade, concretely: two funded accounts and an open order that loses its slot |
| `OrderHistory.StepKeepsValued` | src/state/global.rs:264 | while new orders sell something every stored order does, so the scan never meets an order without an amount |
| `Amounts.StripSound` | src/state/manager_wrapper.rs:51-58 | the stripped significand and exponent denote the number, and no factor ten is left |
| `Amounts.ExponentBound` | src/state/manager_wrapper.rs:55-56 | a field element has at most 76 trailing zeros, so an eight-bit exponent is enough |
| `Amounts.CompressDefined` | src/state/manager_wrapper.rs:45-73 | compression succeeds if and only if some significand below 2^35 and some power of ten denote the number |
| `Amounts.RoundTrip` | src/state/manager_wrapper.rs:75-79 | decompressing a compressed amount gives the amount back |
| `Amounts.Canonical` | src/state/manager_wrapper.rs:45-73 | the significand is zero only for zero and otherwise not divisible by ten; equal codes mean equal amounts |
| `Amounts.CodeDenotes` | src/state/manager_wrapper.rs:45-73 | the low 35 bits of a code are the significand, and the rest the power of ten, that denote the amount |
| `Amounts.CompressedSize` | src/state/manager_wrapper.rs:45-73 | a code fits 40 bits if and only if its exponent is below 32 |
| `Amounts.CompressFr` | src/state/manager_wrapper.rs:45-73 | the zero-stripping loop ends and computes the compression, refusing exactly what cannot be compressed |
| `BitEncoder.UnpackPack` | src/types/l2/tx.rs:212-223 | the bits packed into a byte by adding masks are read back from it |
| `BitEncoder.LsbRoundTrip` | src/types/l2/tx.rs:232-266 | the low bits of a number, least significant first, denote the number modulo the power of two |
| `BitEncoder.BitEncodeContext.ApplyBit` | src/types/l2/tx.rs:212-223 | one bit is appended to the sequence that buffer, partial byte and bit count denote; the partial byte never overflows |
| `BitEncoder.BitEncodeContext.EncodeNumber` | src/types/l2/tx.rs:232-266 | exactly the low bits are appended, and the error is reported if and only if the number does not fit |
| `BitEncoder.BitEncodeContext.CheckAlign` | src/types/l2/tx.rs:274-281 | the missing bits are reported exactly when the sequence is not aligned |
| `BitEncoder.BitEncodeContext.Padding` | src/types/l2/tx.rs:283-301 | zero bits up to the next multiple; the byte-wise fast path appends the same bits as the slow one |
| `BitEncoder.BitEncodeContext.Seal` | src/types/l2/tx.rs:225-230 | the bytes are the bit sequence, completed with zero bits |
| `TxEncoder.RecordLength` | src/state/manager_wrapper.rs:105-156 | every record has exactly the announced length |
| `TxEncoder.RecordReadBack` | src/types/l2/tx_encode.rs:28-76 | a record gives back its heading and, for its layout, the low bits of every field |
| `TxEncoder.RecordInjective` | src/types/l2/tx_encode.rs:28-76 | two accepted records of one layout with equal bits agree on every strictly checked field |
| `TxEncoder.DataBits` | src/types/l2/tx_encode.rs:6-23 | the running maximum is the smallest whole number of bytes that holds every layout with its heading |
| `TxEncoder.TxDataEncoder.EncodeFr` | src/types/l2/tx.rs:361-368 | narrow fields go through a 64-bit conversion that panics above it, wide ones through a big integer |
| `TxEncoder.TxDataEncoder.EncodeHeading` | src/types/l2/tx.rs:379-386 | a heading is written only at a record boundary |
| `TxEncoder.TxDataEncoder.EncodeCommon` | src/types/l2/tx_encode.rs:30-42 | appends the layout's fields in order if all of them fit, and otherwise reports a failure |
| `TxEncoder.TxDataEncoder.EncodeSpot` | src/types/l2/tx_encode.rs:44-63 | the same for trades, whose order ids may be cut to 32 bits |
| `TxEncoder.TxDataEncoder.EncodeKey` | src/types/l2/tx_encode.rs:65-76 | the same for key updates; which values these are is stated by `Published.KeyUpdatePublished` |
| `TxEncoder.TxDataEncoder.EncodeRawTx` | src/state/manager_wrapper.rs:105-156 | succeeds if and only if the encoder is aligned and the record encodable, and then appends exactly that record |
| `TxEncoder.TxDataEncoder.FinishWithRaw` | src/types/l2/tx.rs:398-404 | the bytes are the bits written, completed with zero bits, the hash is their digest, and a new stream begins |
| `Published.DepositPublished` | src/state/manager_wrapper.rs:108-117 | in the bytes of any block, the stretch of a deposit reads: heading 0, the account twice, the token, the amount in 128 bits |
| `Published.KeyUpdatePublished` | src/types/l2/tx_encode.rs:65-76 | heading 1, the account, the sign of the new key in one bit, the new key in 254 bits |
| `Published.WithdrawPublished` | src/state/manager_wrapper.rs:125-128 | heading 4, the account twice, the token, the amount |
| `Published.TransferPublished` | src/state/manager_wrapper.rs:118-123 | heading 0, sender, recipient, token, amount |
| `Published.TradePublished` | src/state/manager_wrapper.rs:130-144 | the heading says which orders are now used up to the unit; then both accounts, both sold tokens, and of both orders as they stand in their slots the totals (decompressed), the slot and the low 32 bits of the id |
| `Published.NopPublished` | src/state/manager_wrapper.rs:146-149 | nothing but zero bits |
| `Transactions.PairBatch` | src/state/manager_wrapper.rs:477-488 | a batch for two different accounts stores the two updated records whatever the schedule |
| `Settlement.TradeIsTwoSides` | src/state/manager_wrapper.rs:642-750 | a trade equals two one-sided settlements, one per account |
| `Invariants.EmptyLedgerHolds` | src/state/global.rs:152-194 | the empty state satisfies the cross-structure invariant |
| `Invariants.Reads` | src/state/global.rs:234-239 | every account, touched or not, reads consistently and its leaf is the digest of its record |
| `Invariants.DepositKeeps` | src/state/manager_wrapper.rs:335-411 | a deposit keeps the invariant |
| `Invariants.KeyUpdateKeeps` | src/state/manager_wrapper.rs:278-334 | a key update keeps the invariant |
| `Invariants.WithdrawKeeps` | src/state/manager_wrapper.rs:519-584 | a withdrawal keeps the invariant |
| `Invariants.TransferKeeps` | src/state/manager_wrapper.rs:417-518 | a transfer keeps the invariant |
| `Invariants.CancelKeeps` | src/state/global.rs:457-471 | a cancellation keeps the invariant and the root, since digests do not cover the active flag |
| `Invariants.PlacementCases` | src/state/global.rs:345-357 | a known id leads to its own occupied slot; a new order is appended or takes the slot of a closed order with a smaller id |
| `Invariants.TradeKeeps` | src/state/manager_wrapper.rs:591-782 | a trade keeps the invariant |
| `Effects.FieldArithmetic` | src/types/l2/order.rs:136-140 | sums and differences of amounts are those of the integers modulo the field order |
| `Effects.UntouchedAccount` | src/state/account.rs:26-36 | an account nobody has touched has no key, owns nothing, has no orders and the cursor 1 |
| `Effects.DepositEffect` | src/state/manager_wrapper.rs:335-411 | goes through if and only if the account has a key; one balance grows by the amount, and nothing else of any account, key, nonce, order, cursor or mapped id, changes |
| `Effects.KeyUpdateEffect` | src/state/manager_wrapper.rs:278-334 | goes through if and only if the account has no key; key and sign are set, token 0 becomes zero, nothing else changes |
| `Effects.WithdrawEffect` | src/state/manager_wrapper.rs:519-584 | always goes through; one balance becomes what is read of it less the amount, the nonce grows by one, nothing else changes |
| `Effects.TransferAccepted` | src/state/manager_wrapper.rs:417-439 | goes through if and only if the sender has a key and holds at least the amount and the recipient has a record; each panic has its own exact condition |
| `Effects.TransferEffect` | src/state/manager_wrapper.rs:417-518 | one balance of each side and the nonce of the sender change, nothing else |
| `Effects.CancelEffect` | src/state/global.rs:457-471 | goes through if and only if the id is mapped; the order it leads to loses its active flag and nothing else of it or of the state changes |
| `Effects.VictimExactly` | src/types/l2/order.rs:124-135 | an order gives way if and only if its id is smaller and it is cancelled or the amount its side asks for is used up |
| `Effects.PlaceExactly` | src/state/global.rs:246-286 | an order finds a slot if and only if its id is mapped, the account has room, or the scan meets one that gives way before one that sells nothing |
| `Effects.PickExactly` | src/state/manager_wrapper.rs:615-640 | an order may be traded if and only if it is new, unknown under the account it names and unfilled, or its id is mapped for the trading account; and which order that is |
| `Effects.TradeAccepted` | src/state/manager_wrapper.rs:591-706 | goes through if and only if the accounts are two, each has a key and holds more than it sells, both orders may be traded and find a slot, and the totals of both are a 35-bit number times a power of ten |
| `Fills.TradeFills` | src/types/l2/order.rs:136-140 | on both sides a stored order has what it sold and bought added to its fills, a new one is stored filled with just that, and no other slot, nor any other account, changes |
| `Fills.TradeCloses` | src/types/l2/order.rs:124-132 | afterwards a stored order is closed if and only if it was cancelled or the sum of its fill and what it traded reaches the amount its side asks for |
| `Fills.TradeMapping` | src/state/global.rs:345-366 | the ids of both orders lead to their slots and every other id where it led; a cursor moves, past the slot given away, only in a full account |
| `Fills.TradeEffect` | src/state/manager_wrapper.rs:687-750 | the balances of both accounts after a trade, one-token trades included, and their unchanged keys and nonces |
| `Fills.RunFills` | src/types/l2/order.rs:136-140 | in any run the fills of a slot are the amounts of the trades settled in it since its order was put there, added up |
| `Fills.RunFillsAddUp` | src/types/l2/order.rs:136-140 | while no new order is put in a slot its fills grow by the integer sums of the amounts settled there, modulo the field order |
| `Commitment.StateCollision` | src/state/account.rs:50-56 | two account records that differ anywhere and have one digest give two different hash inputs with that digest |
| `Commitment.OrderCollision` | src/types/l2/order.rs:116-123 | the same for two orders that differ in id, tokens, totals or fills |
| `Commitment.RootCollision` | src/types/merkle_tree.rs:148-154 | two sequences of leaves that differ and have one root give two different hash inputs with one digest, at a node of both trees |
| `Commitment.StateRootCommits` | src/state/account.rs:50-56 | two consistent states with one root agree on the record, the balances and the order terms of every account, or two hash inputs with one digest of the state are found |
| `Commitment.KeyUpdateMovesRoot` | src/state/manager_wrapper.rs:278-334 | a key update moves the state root, or such a collision is found |
| `Commitment.WithdrawMovesRoot` | src/state/manager_wrapper.rs:519-584 | so does a withdrawal, which raises the nonce |
| `Commitment.TransferMovesRoot` | src/state/manager_wrapper.rs:417-518 | so does a transfer |
| `Conservation.DepositSupply` | src/state/manager_wrapper.rs:396-398 | the deposited token's total grows by the amount modulo the field order, and as an integer if and only if the balance does not overflow; other totals stay |
| `Conservation.KeyUpdateSupply` | src/state/manager_wrapper.rs:326-327 | a key update erases what token 0 held for an account that had a record but no key, and changes no other total |
| `Conservation.WithdrawSupply` | src/state/manager_wrapper.rs:526-579 | the total shrinks by the amount modulo the field order if and only if the balance reads as it is stored, and as an integer if and only if it also covers the amount |
| `Conservation.KeylessWithdrawalLeaks` | src/state/manager_wrapper.rs:526-579 | from an untouched account: a withdrawal of 1 leaves a stored balance that a withdrawal of 0 then erases |
| `Conservation.TransferSupply` | src/state/manager_wrapper.rs:431-488 | a transfer between two accounts keeps the total of its token modulo the field order if and only if the recipient's balance reads as it is stored, and as an integer if and only if that balance also does not overflow; other totals stay |
| `Conservation.TradeSupply` | src/state/manager_wrapper.rs:687-750 | a trade keeps every total modulo the field order, even when both tokens are the same, and as an integer if and only if the balance credited does not overflow |
| `SelfTransfer.SelfTransferSupply` | src/state/manager_wrapper.rs:431-488 | a transfer to oneself conserves the total if and only if it moves nothing, and never touches another token |
| `SelfTransfer.SelfTransferRaces` | src/state/manager_wrapper.rs:477-488 | for a transfer to oneself two schedules end in two different states, one credited and one debited |
| `SelfTransfer.SelfTransferIsStore` | src/state/global.rs:390-432 | after a transfer to oneself only the raced balance, the nonce and the roots have changed |
| `Steps.TransferIsDetermined` | src/state/manager_wrapper.rs:477-488 | between two accounts a transfer has one outcome for all schedules |
| `Steps.StepKeepsInvariant` | src/state/manager_wrapper.rs:278-807 | every operation that succeeds keeps the invariant, whatever the schedule |
| `Steps.StepKeepsRoot` | src/state/manager_wrapper.rs:191-193 | cancellations and empty transactions leave the state root as it was |
| `Steps.StepKeepsKeys` | src/state/manager_wrapper.rs:278-334 | operations within their assumptions give no account a record without a key |
| `Steps.StepSupply` | src/state/manager_wrapper.rs:278-782 | for every operation there is: each total moves by the inflow modulo the field order if and only if the step conserves, and as an integer if and only if it is solvent, both conditions on the state before it |
| `Steps.AdmissibleConserves` | src/state/manager_wrapper.rs:278-584 | where every record has a key, operations within their assumptions conserve |
| `Runs.RunKeepsInvariant` | src/state/global.rs:96-134 | in every state reachable from a consistent one each account leaf is the digest of its record, roots agree, order leaves match the stored orders and slots are a prefix |
| `Runs.SupplyFromGenesis` | src/state/manager_wrapper.rs:278-782 | from the empty state, in any run: after every step every total is deposits minus withdrawals if and only if every step conserves, and as integers if and only if every step is solvent; runs within their assumptions conserve |
| `Runs.PlacedOnce` | src/state/manager_wrapper.rs:615-643 | in any run an order of an account is placed as new at most once |
| `Runs.SlotHistory` | src/state/global.rs:246-286 | while trades keep the slot rules an occupied slot stays occupied, its ids never decrease, and the same id means the same terms |
| `Runs.RunMoves` | src/state/global.rs:246-286 | every step of a run moves slots by the rules if and only if every trade keeps them; runs with orders of the right accounts do |
| `Runs.OpenOrderKeepsSlot` | src/state/global.rs:259-286 | while trades keep the slot rules an order that stays open keeps its slot, its id and its terms |
| `Runs.RunKeepsValued` | src/state/global.rs:264 | in a run whose new orders sell something every stored order does |
| `Runs.RunPlacementFails` | src/state/global.rs:246-286 | the same at any point of any run |
| `Runs.RunValuedPlacementFails` | src/state/global.rs:246-286 | in a run whose new orders sell something a new order finds no place if and only if its account is full of orders that do not give way to it |
| `Emission.PayloadLaid` | src/state/manager_wrapper.rs:289-306 | the sixty payload slots by position |
| `Emitted.DepositEmitted` | src/state/manager_wrapper.rs:335-411 | type, offset, roots and paths of a deposit record, the account before and after it, the amount, and zero everywhere else |
| `Emitted.KeyUpdateEmitted` | src/state/manager_wrapper.rs:278-334 | the same for a key update: old and new key and the mark of a new account |
| `Emitted.WithdrawEmitted` | src/state/manager_wrapper.rs:519-584 | the same for a withdrawal, with the signature as given |
| `Emitted.TransferEmitted` | src/state/manager_wrapper.rs:417-518 | the same for a transfer: the sender before, the balance of the recipient after, the signature as given |
| `Emitted.TradeEmitted` | src/state/manager_wrapper.rs:644-782 | the same for a trade: both orders as they were in their slots and as they are there now with totals that decompress to theirs, both signatures, amounts, slots and balances |
| `Emitted.NopEmitted` | src/state/manager_wrapper.rs:783-807 | an empty record is all zeros and repeats the root |
| `Witness.DepositReplays` | src/state/manager_wrapper.rs:335-411 | from the record alone: old account record to old root, new one to new root, balance raised by the amount |
| `Witness.ClaimAccepted` | src/state/manager_wrapper.rs:285-296 | the balance an operation reads folds to the root if and only if it is the balance stored, unless its own hashes collide |
| `Witness.KeyUpdateReplays` | src/state/manager_wrapper.rs:278-334 | the same for a key update, if and only if the account stores none of token 0 (the converse unless its own hashes collide) |
| `Witness.WithdrawReplays` | src/state/manager_wrapper.rs:519-584 | the same for a withdrawal, balance lowered and nonce raised, if and only if the balance reads as it is stored (the converse unless its own hashes collide) |
| `Witness.FalseClaimRejected` | src/state/manager_wrapper.rs:285-296 | a record claiming a balance other than the stored one never replays, unless its own hashes collide |
| `Witness.TransferReplays` | src/state/manager_wrapper.rs:417-518 | sender path taken before and recipient path taken after compose through one middle root into old root to new root, if and only if the recipient's balance reads as it is stored (the converse unless its own hashes collide) |
| `Witness.SelfTransferRejected` | src/state/manager_wrapper.rs:490-513 | the record of a transfer to oneself never replays, unless its own hashes collide |
| `TradeWitness.TradeReplays` | src/state/manager_wrapper.rs:591-782 | a trade of two tokens replays from its record, two balance chains, two order slots and one chain of account roots, if and only if both orders name its tokens modulo the size of a balance tree (the converse unless folds confuse token ids or hashes collide) |
| `TradeWitness.OneTokenTradeRejected` | src/state/manager_wrapper.rs:687-750 | with one token on both sides, whatever tokens the orders name, the record replays if and only if nothing moves and the orders name the token (the converse unless folds confuse values or token ids or hashes collide) |
| `Encodability.DepositEncodable` | src/state/manager_wrapper.rs:108-117 | a deposit record of an id in range is accepted if and only if the amount has 128 bits |
| `Encodability.WithdrawEncodable` | src/state/manager_wrapper.rs:125-128 | the same for a withdrawal |
| `Encodability.TransferEncodable` | src/state/manager_wrapper.rs:118-123 | the same for a transfer |
| `Encodability.KeyUpdateEncodable` | src/state/manager_wrapper.rs:108-112 | a key update record is accepted if and only if the sign is one bit |
| `Encodability.NopEncodable` | src/state/manager_wrapper.rs:146-149 | an empty transaction is always accepted |
| `Encodability.TradeEncodable` | src/state/manager_wrapper.rs:130-144 | a trade record is accepted if and only if one of its orders is used up to the unit and both orders fit the layout |
| `Examples.UnencodableExample` | src/state/manager_wrapper.rs:130-144 | concretely: an accepted trade that uses up neither order, whose record no block can hold |
| `Encodability.TradeHeading` | src/state/manager_wrapper.rs:130-142 | the heading of a trade says which of its orders is used up |
| `Payloads.KeyUpdatePayload` | src/state/manager_wrapper.rs:289-306 | slot by slot, the payload of a key update and zeros elsewhere |
| `Payloads.DepositPayload` | src/state/manager_wrapper.rs:351-376 | the payload of a deposit |
| `Payloads.WithdrawPayload` | src/state/manager_wrapper.rs:533-559 | the payload of a withdrawal |
| `Payloads.TransferPayload` | src/state/manager_wrapper.rs:440-470 | the payload of a transfer |
| `Payloads.TradePartiesPayload` | src/state/manager_wrapper.rs:647-664 | the slots of a trade that describe its accounts and signatures |
| `Payloads.TradeOrdersPayload` | src/state/manager_wrapper.rs:666-706 | the slots of a trade that describe the former orders, the amounts and the other balances |
| `Payloads.TradeNewOrdersPayload` | src/state/manager_wrapper.rs:757-775 | the slots of a trade that describe the orders after it; fails exactly when a total does not compress |
| `Manager.MatchTrade` | src/state/manager_wrapper.rs:592-643 | picks and places both orders as specified, failing with the same panics |
| `Manager.RunTrade` | src/state/manager_wrapper.rs:727-750 | both orders written and the batch run: the specified ledger for every schedule |
| `Manager.RunTransfer` | src/state/manager_wrapper.rs:477-488 | the batch of a transfer under the given schedule |
| `Manager.ManagerWrapper.constructor` | src/state/manager_wrapper.rs:163-179 | an empty buffer, an aligned encoder and the given block number |
| `Manager.ManagerWrapper.KeyUpdate` | src/state/manager_wrapper.rs:278-334 | accepted if and only if the account has no key; the new state and the whole emitted record |
| `Manager.ManagerWrapper.Deposit` | src/state/manager_wrapper.rs:335-411 | accepted if and only if the account has a key; the new state and the whole emitted record |
| `Manager.ManagerWrapper.Withdraw` | src/state/manager_wrapper.rs:519-584 | the new state and the whole emitted record, for covered and uncovered amounts |
| `Manager.ManagerWrapper.Transfer` | src/state/manager_wrapper.rs:417-518 | accepted if and only if the sender has a key and holds at least the amount and the recipient has a record, each panic under its own exact condition; the new state under the given schedule and the whole emitted record; the two panics that come before a change leave the state as it was |
| `Manager.ManagerWrapper.FullSpotTrade` | src/state/manager_wrapper.rs:591-782 | accepted exactly under the condition of `Effects.TradeAccepted`; both orders filled as in `Fills.TradeFills`; the new state and the whole emitted record, or the panic the specification gives |
| `Manager.ManagerWrapper.CancelOrder` | src/state/manager_wrapper.rs:191-193 | the order flagged and no record emitted |
| `Manager.ManagerWrapper.Nop` | src/state/manager_wrapper.rs:783-807 | one empty record that repeats the root |
| `Manager.ManagerWrapper.FlushWithNop` | src/state/manager_wrapper.rs:809-816 | empty records up to the next multiple of the block size and no more |
| `Manager.ManagerWrapper.ForgeWithTxs` | src/state/manager_wrapper.rs:222-268 | a block with all details and public data of its records; fails exactly when one cannot be encoded |
| `Manager.ManagerWrapper.PopAllBlocks` | src/state/manager_wrapper.rs:833-884 | cuts the buffer into whole blocks with consecutive ids and keeps the rest; saves a state for exactly the blocks after which one is due, with the offset to resume after; fails exactly when a record cannot be encoded or a block to be saved has no offset |
| `Manager.FindLastOffset` | src/state/manager_wrapper.rs:863 | the offset found is that of some record after which no record has one; none is found exactly when no record has one |
| `Blocks.DetailRoundTrip` | src/types/l2/block.rs:8-21 | a block gives back every record but its offset |
| `Blocks.BlockHeader` | src/state/manager_wrapper.rs:248-268 | a block carries its id, the digest of its public data, the root before its first and after its last record |
| `Blocks.LastOffsetExactly` | src/state/manager_wrapper.rs:863 | the last offset is o if and only if some record has o and no later one has any; there is none if and only if no record has one |
| `Blocks.SnapshotsExactly` | src/state/manager_wrapper.rs:849-866 | one state is saved for each block after which one is due, with the offset to resume after, and no other |
| `Blocks.CanPopExactly` | src/state/manager_wrapper.rs:833-866 | a pop goes through if and only if all records of each whole block can be encoded and each block after which a state is due has an offset |
| `Blocks.BlockBitsAt` | src/state/manager_wrapper.rs:248-249 | record i takes exactly the i-th stretch of the announced length |
| `Blocks.PublicData` | src/state/manager_wrapper.rs:248-249 | public data is a whole number of bytes per record, and each record's fields can be read from its stretch |
| `Rollup.EmittedRoots` | src/state/manager_wrapper.rs:278-807 | each record starts at the root before its operation and ends at the root after it |
| `Rollup.ExecutionAccounted` | src/state/manager_wrapper.rs:833-857 | under any interleaving of operations and pops, blocks and buffer are the whole history in order, and its roots form one chain to the current root |
| `Rollup.BlockRootsChain` | src/state/manager_wrapper.rs:222-268 | the blocks form one chain of roots that the buffered records continue to the current root |
| `Rollup.ConsecutiveBlocks` | src/state/manager_wrapper.rs:250-252 | each block starts at the root where the one before it ended |
| `Rollup.BlockHolds` | src/state/manager_wrapper.rs:833-857 | block k has the k-th id and holds the k-th stretch of records |
| `Rollup.SavedStateMatchesBlock` | src/state/manager_wrapper.rs:845-884 | a pop that finds at most one whole block saves only a state whose root is that block's new root |
| `Driver.Handle` | src/bin/main.rs:111-134 | handing an operation to the manager is one step of the machine the run theorems speak of |
| `Driver.Turn` | src/bin/main.rs:111-153 | one turn of the message loop: at most one block, ending at the current root; a state is saved exactly when one is due and a record of the block has an offset, with that root and the offset to resume after |
| `Driver.Idle` | src/bin/main.rs:136-141 | a turn without a message turns what is buffered into one block |
| `Persistence.SaveTree` | src/types/merkle_tree.rs:296-320 | the image, with its defaults computed again, reads as the same dense tree |
| `Persistence.RestoreTree` | src/types/merkle_tree.rs:322-346 | a tree read from an image stands for the same leaves |
| `Persistence.SaveAccountStates` | src/state/global.rs:648-657 | records filed by digest, in any order; of equal digests one survives |
| `Persistence.LoadAccountStates` | src/state/global.rs:581-597 | finds the records of the stored leaves, failing exactly when one is missing |
| `Persistence.AccountsComeBack` | src/state/global.rs:581-597 | all accounts come back if and only if each has its digest among the stored leaves and no two have one digest |
| `Persistence.RecoverableIsFaithful` | src/state/global.rs:581-597 | where stored leaves are those of accounts this means: each account has its own leaf stored and no two have one digest |
| `Persistence.RebuildPositions` | src/state/global.rs:561-572 | the rebuilt mapping leads each stored order's id to a slot holding it |
| `Persistence.RebuiltDropsStale` | src/state/global.rs:561-572 | the rebuilt mapping is the old one without the ids of evicted orders |
| `Persistence.Persist` | src/state/global.rs:619-646 | the image describes the state, all columns included |
| `Persistence.LoadPersist` | src/state/global.rs:522-573 | loads the accounts found with their trees, orders and cursors, and fails exactly when a record is missing |
| `Persistence.SavedAndLoaded` | src/state/global.rs:522-646 | what is loaded of a consistent state: everything returns if and only if its accounts come back, and then only the ids of evicted orders are forgotten |
| `Persistence.SaveAndLoad` | src/state/global.rs:522-646 | saving any consistent state without stray leaves and loading it succeeds, and everything comes back if and only if each account has its leaf stored and no two have one digest |
| `Persistence.DistinctRecordsFaithful` | src/state/global.rs:581-597 | a condition on the records alone: digests that differ from each other and from that of an empty leaf are enough |
| `Examples.TwinKeysExample` | src/state/global.rs:581-597 | concretely: two new accounts registered with one key have equal records, and never both come back |

## Left out

- Message transport, message conversion, token name tables, databases, configuration,
  threads, logging and the gRPC service: input and output only. Of the main loop the
  model keeps that each message causes at most one operation and a pop.
- Signatures, keys and curve points: carried as opaque values; `check_sig` is not part
  of this model.
- The deprecated branches of `deposit` and `transfer` that set a key: key updates create
  accounts here.
- `set_account_order`, `set_account_order_root` and `create_new_account`: not on the path
  of any message, and able to break the slot and root invariants.
- The second encoder in `src/types/l2/tx.rs` (`EncodeForPubData`): blocks use the layouts of
  `src/types/l2/tx_encode.rs`.
- `fill_with_leaves_map`: the same writes as `FillWithLeavesVec` in the map's order;
  `MerkleSpec.UpdateOrderIrrelevant` says why the order does not matter.
- `get_order_id_by_pos`, which returns an account id rather than an order id: no other code
  of the program calls it.
- Machine integers: account, token and order ids and positions are natural numbers; tree
  levels are below 32, so ids inside a tree have at most 31 bits. Order ids are not bounded.
- The amount of a transaction is a field element from the start; the program converts a
  128-bit integer, which always fits.
- Persistence.SaveAndLoad: speaks of states without stray leaves (`GlobalState.strays`): a new state has none and no operation adds any. A state loaded with accounts missing can have them, and `Persistence.LoadPersist` says exactly when its image loads again.
- That an order is never filled beyond its total: the program does not check it.
- Serialization formats: an image holds the values that are written, not their bytes. The
  block number and offset stored beside a saved state are the `Snapshot` of a pop.
- The model loads a saved state into an object whose levels agree, as the program does by
  configuration.
- Manager.ManagerWrapper.FullSpotTrade: after a panic the state is unspecified, because the program leaves it half-changed.
- Manager.ManagerWrapper.Transfer: when the recipient has no trees the state is unspecified, because the sender's tree may by then have been written.
- Manager.ManagerWrapper.PopAllBlocks: after a panic the state is unspecified, for the same reason.
