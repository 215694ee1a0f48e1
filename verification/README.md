# SpacesVM and the inode file store, modelled and proved in Dafny

This project models two programs of one repository and proves properties of the models.

**SpacesVM** (`avax/msg-vm`) is a blockchain virtual machine that sells time-limited names, "spaces", and stores values
under them. Its state is one logical table of spaces kept as five key families (record, owner entry, expiry queue,
pruning queue, values), updated by hand on every path and cleaned up lazily; balances are a sixth. Blocks form a tree,
each processing block holding a layer of writes over its parent's layer.

**The file store** (`anchorapp`) keeps files in accounts of fixed size: data blocks of 992 bytes, and a linked list of
inodes of 30 entries.

`dafny verify dfyconfig.toml` checks everything.

## How it is built

| files | what they hold |
|---|---|
| `Types`, `Bytes`, `Keys` | values, byte order, key encodings |
| `VersionDB` | a database layer over another, with cursors, commit and prefix deletion |
| `Store`, `Blocks`, `Chain` | what the operations, the six transactions, a block and the lookback walk mean, as functions of a plain store |
| `Storage`, `Execution`, `LinkedValues` | the same operations as methods on layers and objects, proved to have that meaning |
| `Spaces`, `Preservation`, `BlockInvariants` | the invariant of the five families, and that every step, block and chain keeps it |
| `Outcomes`, `Effects`, `Fees`, `Lottery` | when each transaction succeeds and what it leaves behind, what one undoes of another, what each costs, who wins |
| `Allowances` | the lifetime budget in every state of a VM |
| `Conservation`, `Budget`, `Replay`, `CostAndPrice`, `Lookback`, `Limits`, `Agreement`, `Archive`, `Winners` | properties of whole blocks and chains |
| `BlockTree`, `ChainVM` | the tree of layers, and the VM object under Verify, Accept, Reject, pruning and cache eviction |
| `Verdicts` | when exactly two nodes give the same verdict, and a VM reads as the plain map |
| `TxHeap`, `Mempool`, `Builder`, `Signals` | the two heaps, the mempool, filling a block, and the wake-up protocol |
| `Built` | when a block that was filled verifies |
| `Example`, `Divergence`, `Heights`, `Refusal` | runs of concrete nodes from genesis: two that disagree, one with a block of height 0, one that builds nothing |
| `FileStore`, `FileTransfer` | accounts and instructions; upload, download and their round trip |

Conventions:

- Arithmetic is on 64 bits and wraps around (`W`), as in the Go code. Where a property needs it not to, "nothing wraps"
  is a precondition (`TxGood`, `TxFits`, `BlockGood`, `NothingWraps`); `Budget.BudgetPreventsWrap` says when that is met
  for a space's times. Genesis divisors, target rate and window are positive and the lottery share is at most 100 percent.
- Hashes are injective: an ID carries what it is the hash of. As bytes, digests are arbitrary strings none of which is
  a prefix of another (`Keys.Sound`), which fixed-length digests without collisions are.
- Snowman supplies the order of calls: a block is verified on the last accepted block or on a verified descendant of it,
  and accepted on the last accepted block. The clock is an input.
- Block times are at least 1: `PutSpaceInfo` skips deleting the old queue entry when the last expiry is 0.

## What the proofs say about the code

- **Every state of every chain is in order.** Owned set, expiry queue, values and units agree exactly with the records
  (`BlockInvariants.ChainKeepsInv`); the `ErrSpaceExpired` branch and division by zero are unreachable
  (`Preservation.NoDeadBranch`).
- **Every verdict is exact.** For each transaction, for charging it, for its reward and for a block there is an
  if-and-only-if for success, the error of each refusal, and the whole store left behind (`Outcomes`, `Limits`); for the
  lookback walk, exactly which blocks count, and the price they lead to (`Lookback`).
- **In runs of Verify, Accept and Reject a node reads as one plain map would, at every key** (`ChainVM.VM.Exact`, kept by
  every method but a prune that works something off and a change of mode).
- **Nodes agree on every block both can build on**, through commits, re-basing, pruning under live layers, bootstrapping
  and restarts (`ChainVM.TwoNodesAgree`).
- **The lottery can hit a foreign key, and then nodes can disagree on the verdict.** The end of the records is recognised
  by whether a key *contains* the two bytes of the record prefix. A queue entry whose time ends in the byte 3 does. If it
  comes next the transaction fails (`Lottery.DueSpaceFoulsTheDraw`). Such a draw is called foul, and what comes next
  depends on how much a node has pruned. Two nodes give the same verdict exactly if the draws are foul on both or on
  neither (`Verdicts.TxVerdicts`, `Verdicts.BlockVerdicts`, `Verdicts.TwoNodesDecide`), and with pruning a node agrees with
  the plain map exactly if the plain map's run comes to no foul draw (`Verdicts.ReadsAsPlainMap`).
  `Divergence.NodesDisagree` runs two nodes from one genesis to a block on which they part, wherever the lottery draws.
- **The height of a block is never checked.** Blocks of any height are verified and accepted correctly. Only a child
  verified while its parent of height 0 is still processing goes wrong: it is executed on the last accepted state, and
  that parent is the exact condition (`ChainVM.VM.OnAcceptExact`); such a child can claim the space its parent has
  claimed (`Heights.LowBlock`). Replay protection does not depend on heights.
- **The budget of a space, (Expiry - Updated) * Units, stays within what was paid for it**, one claim and the lifelines
  bought, in every state of every node (`Allowances.StaysWithinBudget`).
- **A set that keeps the units renews the space** to its full remaining lifetime at no cost in budget
  (`Budget.SameUnitsRenew`); the budget is measured from `Updated`, as the code does.
- **A filled block need not verify**, as winners are drawn with the empty block ID while it is filled. If its
  transactions do not live on rewards and no draw is foul it does, whoever wins (`Built.BuiltVerifies`); if one does live
  on a reward that the real ID does not pay, it does not (`Built.UnpaidFails`, and for concrete transactions
  `Refusal.BuildsNothing`, where both are lost as well).
- **The wake-up protocol loses nothing, but needs the timer to run**: no file of the repository calls `Dispatch` on the
  staged timer, and without it the VM can wait for ever (`Signals.CanGetStuck`, `Signals.StaysStuck`).
- **`SetLastAccepted` asks its callers for each transaction object once**: with one twice, its value would be lost on disk
  (`LinkedValues.SameObjectTwice`). No caller does that: parsing makes an object for each transaction, and the mempool
  hands out one for each ID.
- **`setInode` does not wait for `set_direct_blocks`**: its order does not matter, but until it lands a download succeeds
  and comes out short (`FileTransfer.RoundTrip`).

## Model

| member | source | states |
|---|---|---|
| `Keys.EncodeInjective` | avax/msg-vm/chain/storage.go:81-196 | Different logical keys never have the same bytes, over all ten key families, for digests none of which is a prefix of another. |
| `Keys.TimeWindow` | avax/msg-vm/chain/storage.go:143-196 | The test ExpireNext makes on raw bytes, between the range keys of two times, holds for exactly the entries with parent <= time < current. |
| `Keys.ValuePrefix` | avax/msg-vm/chain/storage.go:132-141 | A stored key starts with the bytes of a raw space if and only if it is a value key of that raw space. |
| `Keys.FirstUnique` | avax/msg-vm/chain/storage.go:715-718 | A cursor opened at a byte position has one first key only. |
| `Bytes.BE8Order` | avax/msg-vm/chain/storage.go:143-151 | Big-endian words compare as bytes the way they compare as numbers, whatever follows them. |
| `VersionDB.OverlayMerge` | avax/msg-vm/chain/block.go:178 | Reading through two layers is reading through the one that merges them, the upper one winning. |
| `VersionDB.OverlayMinus` | avax/msg-vm/vm/pruner.go:20-30 | Deleting keys beneath a layer that does not mention them deletes them from what the layer reads as, and nothing else. |
| `VersionDB.Database.Write` | avax/msg-vm/chain/storage.go:537-572 | A write shows in the view, at that key only. |
| `VersionDB.Database.Delete` | avax/msg-vm/chain/storage.go:537-572 | A deletion shows in the view, at that key only, whether the value was in the layer or beneath it. |
| `VersionDB.Database.NewIteratorWithStart` | avax/msg-vm/chain/storage.go:424-432 | The cursor walks a snapshot of the keys at or after the start, each once, in byte order. |
| `VersionDB.Database.ClearValues` | avax/msg-vm/chain/storage.go:458-466 | Clearing the prefix of a raw space deletes exactly its values. |
| `VersionDB.Database.CommitTo` | avax/msg-vm/chain/builder.go:79-81 | Committing a layer makes the one beneath read as the layer did, and leaves the layer empty. |
| `VersionDB.ValuesAreARun` | avax/msg-vm/chain/storage.go:132-141 | In byte order the values of a raw space are consecutive, so the scan that stops at the first other key has met them all. |
| `Spaces.ClaimIsFresh` | avax/msg-vm/chain/storage.go:116-128 | When a space that ran out is claimed again, no stored value, queue entry or live record has its new raw space: it starts with no values although old ones may not be pruned yet. |
| `Spaces.ShapeReschedule` | avax/msg-vm/chain/storage.go:537-572 | Moving a space to a new expiry keeps owned set and expiry queue in exact agreement with the records. |
| `Spaces.ShapeMove` | avax/msg-vm/chain/storage.go:574-596 | Changing the owner keeps the five families in exact agreement. |
| `Spaces.StoredWrite` | avax/msg-vm/chain/set_tx.go:69-91 | Writing a value changes the sum of stored units by the new value less the one it replaces. |
| `Spaces.StoredDrop` | avax/msg-vm/chain/delete_tx.go:44-57 | Deleting a value takes exactly its units off the sum. |
| `Preservation.ExpireKeepsInv` | avax/msg-vm/chain/storage.go:419-474 | Expiry keeps all families in exact agreement and leaves exactly the spaces whose expiry is not before the new time, so every live space has expiry >= tip time. |
| `Preservation.ExpireExact` | avax/msg-vm/chain/storage.go:436-470 | After bootstrapping expiry keeps every value and queues exactly the spaces that ran out, under the time they did; before, it drops exactly their values and queues nothing; keys that are not about spaces stay. |
| `Preservation.PruneKeepsInv` | avax/msg-vm/chain/storage.go:478-506 | Working off any part of the pruning queue keeps all families in agreement and touches no live space. |
| `Preservation.ClaimKeepsInv` | avax/msg-vm/chain/claim_tx.go:33-64 | A successful claim keeps the invariant, with the units of the new space exact. |
| `Preservation.LifelineKeepsInv` | avax/msg-vm/chain/lifeline_tx.go:30-52 | A successful lifeline keeps the invariant. |
| `Preservation.SetUnitsExact` | avax/msg-vm/chain/set_tx.go:69-91 | After a set, units are ClaimExpiryUnits plus the sum over the stored values, and the 64-bit subtraction and addition were exact. |
| `Preservation.SetKeepsInv` | avax/msg-vm/chain/set_tx.go:39-92 | A successful set keeps the five families in agreement and the units exact. |
| `Preservation.DeleteKeepsInv` | avax/msg-vm/chain/delete_tx.go:28-57 | A successful delete keeps the five families in agreement and the units exact. |
| `Preservation.MoveKeepsInv` | avax/msg-vm/chain/move_tx.go:31-58 | A successful move keeps the five families in agreement and the units exact. |
| `Preservation.ActionKeepsInv` | avax/msg-vm/chain/tx.go:116-124 | Each of the six transactions keeps the invariant. |
| `Preservation.NoDeadBranch` | avax/msg-vm/chain/common_tx.go:20-49 | While the invariant holds no transaction divides by zero, ErrSpaceExpired is unreachable, and units never go below ClaimExpiryUnits plus any one value. |
| `Storage.PutSpaceInfo` | avax/msg-vm/chain/storage.go:537-572 | The writes on a layered database have, on what it reads as, the effect of the specification, in whose terms the invariants are proved. |
| `Storage.MoveSpaceInfo` | avax/msg-vm/chain/storage.go:574-596 | The writes that change the owner have, on what the layered database reads as, the effect of the specification, in whose terms the invariants are proved. |
| `Storage.ModifyBalance` | avax/msg-vm/chain/storage.go:686-704 | The balance changes by exactly the amount, or the call fails and nothing changes, exactly if the result does not fit in 64 bits. |
| `Storage.ExpireNext` | avax/msg-vm/chain/storage.go:419-474 | Whatever the cursor meets, the outcome is that every space that ran out before the current time is gone from all families, its values queued or dropped, and nothing else has changed. |
| `Storage.ScanIsExact` | avax/msg-vm/chain/storage.go:143-205 | The scan of the expiry queue stops having seen every due entry and no other. |
| `Storage.WithoutStep` | avax/msg-vm/chain/storage.go:436-470 | One turn of the expiry loop removes one more space from all families, in any order. |
| `Storage.PruneNext` | avax/msg-vm/chain/storage.go:478-506 | At most `limit` entries are worked off, in the order of the queue, each with exactly the values of its raw space, and nothing else changes. |
| `Storage.PruneOrder` | avax/msg-vm/chain/storage.go:478-506 | What pruning leaves in the queue comes after everything it worked off. |
| `Storage.ApplyReward` | avax/msg-vm/chain/storage.go:706-748 | The lottery run with a cursor pays whom the specification says, and fails when it does. |
| `Lottery.DrawExact` | avax/msg-vm/chain/storage.go:706-748 | The first space at or after the place drawn wins, if there is one; otherwise nobody, and the transaction fails exactly if the key that follows contains the two bytes of the record prefix anywhere. |
| `Lottery.DueSpaceFoulsTheDraw` | avax/msg-vm/chain/storage.go:715-731 | A queue entry whose time ends in the byte 3, if it comes next, makes the draw fail. |
| `Execution.UpdateSpace` | avax/msg-vm/chain/common_tx.go:43-49 | The update on a layered database has the effect of the specification. |
| `Execution.ExecClaim` | avax/msg-vm/chain/claim_tx.go:33-64 | The claim on a layered database ends in the store, or the error, the specification gives for what the database reads as; the invariants are proved about that specification. |
| `Execution.ExecLifeline` | avax/msg-vm/chain/lifeline_tx.go:30-52 | The lifeline on a layered database ends in the store, or the error, of the specification, which `Outcomes.LifelineExact` says in full. |
| `Execution.ExecSet` | avax/msg-vm/chain/set_tx.go:39-92 | The set on a layered database ends in the store, or the error, the specification gives for what the database reads as. |
| `Execution.ExecDelete` | avax/msg-vm/chain/delete_tx.go:28-57 | The delete on a layered database ends in the store, or the error, the specification gives for what the database reads as. |
| `Execution.ExecMove` | avax/msg-vm/chain/move_tx.go:31-58 | The move on a layered database ends in the store, or the error, of the specification, which `Outcomes.MoveExact` says in full. |
| `Execution.ExecTransfer` | avax/msg-vm/chain/transfer_tx.go:26-46 | The transfer on a layered database ends in the store, or the error, the specification gives for what the database reads as. |
| `Execution.ExecTx` | avax/msg-vm/chain/tx.go:86-151 | Checks, fee, effect, record and reward run in order on a layer lead to the store or error that `Outcomes.ChargeExact` and `Outcomes.TxExact` say in full, and no value or queue entry of a dead space is touched. |
| `Execution.CheckSize` | avax/msg-vm/chain/block.go:149-155 | The loop answers whether the whole load, as long as it fits in 64 bits, is at most MaxBlockSize. |
| `Execution.ExecTxs` | avax/msg-vm/chain/block.go:185-197 | The loop ends in the store that executing the transactions one by one gives, with the surplus fees summed. |
| `Execution.VerifyBlock` | avax/msg-vm/chain/block.go:139-217 | verify and SetLastAccepted on a new layer give the verdict, the error and the store of the specification; the layer spares everything that waits to be pruned beneath it. |
| `BlockInvariants.TxKeepsInv` | avax/msg-vm/chain/tx.go:86-151 | A successful transaction, fee and reward included, keeps the invariant. |
| `BlockInvariants.TxsKeepInv` | avax/msg-vm/chain/block.go:185-197 | So does any sequence of them. |
| `BlockInvariants.BlockKeepsInv` | avax/msg-vm/chain/block.go:139-217 | Every verified block takes a store that satisfies the invariant at its parent's time to one that satisfies it at its own. |
| `BlockInvariants.ChainKeepsInv` | avax/msg-vm/chain/block.go:139-217 | Hence every state of every chain from genesis satisfies it, executed on a plain map in either mode. |
| `ChainVM.VM.ParentState` | avax/msg-vm/chain/block.go:271-283 | The state a VM reads at any block it can build on satisfies it too, after any run, and is what onAccept gives unless the block is processing at height 0. |
| `BlockInvariants.AllocationsSatisfyInv` | avax/msg-vm/chain/genesis.go:134-174 | A genesis store of balances satisfies it. |
| `Effects.OwnerAlone` | avax/msg-vm/chain/common_tx.go:20-41 | The checks before a set, a delete or a move let a sender through exactly if the space is in its owned set, on the record of the current incarnation; otherwise the space is missing, or somebody else's, and the error says which. |
| `Effects.SetReadsBack` | avax/msg-vm/chain/set_tx.go:69-91 | After a set the value is found under its key in the current incarnation with its size, transaction and times, creation time kept when it is overwritten; no other value and no other record changes. |
| `Effects.DeleteUndoesSet` | avax/msg-vm/chain/delete_tx.go:44-57 | Deleting what was set gives back values, units, owner and incarnation as they were, and no more lifetime budget than before. |
| `Effects.MoveBackUndoes` | avax/msg-vm/chain/move_tx.go:31-58 | Moving a space away and back restores the whole store exactly. |
| `Effects.TransferBackUndoes` | avax/msg-vm/chain/transfer_tx.go:26-46 | Transferring the same amount back restores every balance. |
| `Outcomes.ClaimExact` | avax/msg-vm/chain/claim_tx.go:33-64 | A claim succeeds exactly if the name is proper, nobody has it, and a name of 42 characters is the sender's own address; each refusal has its error; the whole store afterwards, with a lifetime of ClaimReward over the claim's units, rounded down. |
| `Outcomes.AddressNames` | avax/msg-vm/chain/claim_tx.go:38-41 | The lower-case address form is a proper name of 42 characters, and no two addresses have the same: such a name can be claimed by one address only. |
| `Outcomes.NamesAreProper` | avax/msg-vm/parser/space_key.go:25-36 | A name is proper exactly if it has 1 to 256 characters, all of them small letters or digits. |
| `Outcomes.LifelineExact` | avax/msg-vm/chain/lifeline_tx.go:30-52 | A lifeline succeeds exactly if it buys something for a live space of a proper name; the budget of the space grows by ClaimReward for each unit bought, less than the space's units lost to rounding; everything else in the store is as before. |
| `Outcomes.SetExact` | avax/msg-vm/chain/set_tx.go:39-92 | A set succeeds exactly if names and size are proper, the sender owns the space, and a key of 66 characters is the value's hash; the whole store afterwards, units, times and carried budget included. |
| `Outcomes.SetErrors` | avax/msg-vm/chain/set_tx.go:39-67 | Which error refuses a set. |
| `Outcomes.DeleteExact` | avax/msg-vm/chain/delete_tx.go:28-57 | A delete succeeds exactly if names are proper, the sender owns the space and the value is there; the whole store afterwards. |
| `Outcomes.DeleteErrors` | avax/msg-vm/chain/delete_tx.go:28-53 | Which error refuses a delete. |
| `Outcomes.MoveExact` | avax/msg-vm/chain/move_tx.go:31-58 | A move succeeds exactly if the name is proper, the sender owns the space, and the recipient is somebody else and not the zero address; record, owned sets and queue entry then name the recipient, and nothing else has changed; each refusal has its error. |
| `Outcomes.TransferExact` | avax/msg-vm/chain/transfer_tx.go:26-46 | A transfer succeeds exactly if it sends something the sender has to somebody else but the zero address, who has room for it; the two balances change by the amount and nothing else does; each refusal has its error. |
| `Outcomes.ChargeExact` | avax/msg-vm/chain/tx.go:86-124 | A transaction succeeds up to the lottery exactly if it is of this network, names a recent block, is not recent itself, pays the minimum and the next price, its sender has the fee, units times price, and its action succeeds once the fee is paid; it is recorded, and nothing else is added. |
| `Outcomes.ChargeErrors` | avax/msg-vm/chain/tx.go:86-115 | Which check refuses it. |
| `Outcomes.TxExact` | avax/msg-vm/chain/tx.go:126-150 | Then the owner of the first space at or after the place drawn is paid the share, if there is one, somebody else, and room for it; without one nobody is, or the transaction fails. |
| `Fees.UnitsCoverSize` | avax/msg-vm/chain/common_tx.go:51-53 | Value units pay for every byte of a value and for less than one unit more. |
| `Fees.SetCosts` | avax/msg-vm/chain/set_tx.go:94-102 | A set pays the base, one unit, and one unit for every full value unit, bracketed by the size of the value; its load is its fee units. |
| `Fees.ClaimCosts` | avax/msg-vm/chain/claim_tx.go:72-87 | A claim loads a block with the base times the load multiplier and pays for the name on top: the larger of MinClaimFee and the characters it is short of 256 times the multiplier. |
| `Fees.LifelineCosts` | avax/msg-vm/chain/lifeline_tx.go:54-68 | A lifeline loads a block like a claim and pays the discounted worth of the name for every unit bought. |
| `Fees.OthersCost` | avax/msg-vm/chain/base_tx.go:59-65 | The other transactions pay and load the base. |
| `Fees.StoredCosts` | avax/msg-vm/chain/set_tx.go:83-88 | What a value adds to the units of its space is its value units over the discount, rounded down. |
| `Fees.ShorterCostsMore` | avax/msg-vm/chain/claim_tx.go:66-79 | A shorter name never costs less than a longer one, and none less than MinClaimFee. |
| `Fees.PriceFollowsLoad` | avax/msg-vm/vm/chain_vm.go:107-117 | The price rises by one when the window is busier than its target, stays when it meets it, and otherwise falls by one for every window begun, to MinPrice at the lowest. |
| `Fees.RewardIsShare` | avax/msg-vm/chain/tx.go:131 | A reward is exactly the lottery share of fee units at the block price, rounded down. |
| `Conservation.ActionConserves` | avax/msg-vm/chain/transfer_tx.go:26-46 | The six transactions leave the sum of all balances unchanged; a transfer only moves it. |
| `Conservation.TxSupply` | avax/msg-vm/chain/tx.go:104-150 | A transaction lowers the sum of balances by exactly its fee less the reward paid out. |
| `Conservation.TxDestroysSurplus` | avax/msg-vm/chain/block.go:192-197 | The price of an executed transaction is never below its block's price, and it destroys at least its surplus fee. |
| `Conservation.TxsDestroySurplus` | avax/msg-vm/chain/block.go:192-202 | The transactions of a block together destroy at least the surplus the block is checked for. |
| `Conservation.BlockBurns` | avax/msg-vm/chain/block.go:171-202 | A verified block changes the sum of balances by exactly minus its fees plus its rewards, and destroys at least price times cost. |
| `Budget.UpdateCarriesBudget` | avax/msg-vm/chain/common_tx.go:43-49 | (Expiry - Updated) * Units never grows on set or delete and loses less than the new units. |
| `Budget.SameUnitsRenew` | avax/msg-vm/chain/common_tx.go:43-49 | A set that leaves the units as they are starts the whole remaining lifetime over at the block time. |
| `Budget.LifelineAddsBudget` | avax/msg-vm/chain/lifeline_tx.go:45-52 | A lifeline adds at most ClaimReward times the units bought. |
| `Budget.ActionKeepsBudget` | avax/msg-vm/chain/common_tx.go:43-49 | Every transaction keeps every space within ClaimReward * (1 + lifeline units bought for it). |
| `Allowances.StaysWithinBudget` | avax/msg-vm/chain/common_tx.go:43-49 | At every block a VM can build on, after any run with pruning and bootstrapping, every live space is within ClaimReward * (1 + lifeline units bought for it), the lifelines counted along the chain of that block by a ledger that is the only one the chain has. |
| `Allowances.OneLedger` | avax/msg-vm/chain/lifeline_tx.go:30-52 | However the blocks of a chain were verified, on stores pruned or not, in either mode, the same lifelines are counted. |
| `Budget.ChainKeepsBudget` | avax/msg-vm/chain/common_tx.go:43-49 | The same for every chain executed on a plain map, in either mode. |
| `Budget.BudgetPreventsWrap` | avax/msg-vm/chain/lifeline_tx.go:45-52 | As long as block time plus that allowance fits in 64 bits no time computed on the space wraps around. |
| `Replay.WindowIsContiguous` | avax/msg-vm/vm/helpers.go:21-41 | With a block, the lookback window holds every block between that one and the parent. |
| `Lookback.RecentExact` | avax/msg-vm/vm/helpers.go:21-41 | A block ID is recent exactly if it is the parent, or an ancestor such that it and every block between it and the parent is at most LookbackWindow seconds old and none above it has height 0. |
| `Lookback.RecentTxsExact` | avax/msg-vm/vm/chain_vm.go:75-84 | A transaction ID is recent exactly if a recent block has the transaction. |
| `Lookback.WindowCountsOnce` | avax/msg-vm/vm/helpers.go:21-41 | The walk meets no block twice. |
| `Replay.NoReplay` | avax/msg-vm/chain/tx.go:90-101 | No transaction ID passes the two replay checks in two different blocks of one chain, whatever the block heights say. |
| `CostAndPrice.CostIsWorstBurst` | avax/msg-vm/vm/chain_vm.go:89-105 | With block cost enabled the cost of a block is the largest excess, over all its ancestors, of blocks times target rate over seconds passed, cut off at 0. |
| `CostAndPrice.PriceBounds` | avax/msg-vm/vm/chain_vm.go:107-117 | Along any chain the price lies between MinPrice and MinPrice plus the number of blocks. |
| `Lookback.PriceOfBlock` | avax/msg-vm/vm/chain_vm.go:107-117 | The price of a verified block is its parent's plus one, the same, or lower by one for every window begun down to the minimum, as the load of the recent blocks is above, at or below TargetBlockSize / TargetBlockRate * LookbackWindow. |
| `Lookback.CostWithout` | avax/msg-vm/vm/chain_vm.go:103-105 | With block cost disabled every verified block costs what its parent does. |
| `Limits.SizeExact` | avax/msg-vm/chain/block.go:149-155 | The check at every prefix holds exactly if the whole load is at most MaxBlockSize. |
| `Limits.SizeNeverFooled` | avax/msg-vm/chain/block.go:149-155 | So it does for any number of transactions, wherever their sum lies, if no single load can wrap the counter around. |
| `Limits.SurplusExact` | avax/msg-vm/chain/block.go:185-197 | The surplus a block is checked for is the sum of what its transactions pay above its price. |
| `Limits.BlockExact` | avax/msg-vm/chain/block.go:139-203 | A block is accepted exactly if it is not empty, is within the size limit and not before its parent, names the cost and price that are due, its transactions succeed in turn, and their surplus covers price times cost. |
| `Limits.BlockErrors` | avax/msg-vm/chain/block.go:139-203 | And which error refuses it. |
| `Agreement.SameDraw` | avax/msg-vm/chain/storage.go:706-748 | Stores that agree on all but what waits to be pruned draw the same winner, unless the next key is foreign to the draw. |
| `Verdicts.TxVerdicts` | avax/msg-vm/chain/tx.go:86-151 | On such stores a transaction gives the same verdict, error included, and ends in such stores again, exactly if its draw is foul (no record ahead, and the next key contains the record prefix) on both or on neither. |
| `Verdicts.BlockVerdicts` | avax/msg-vm/chain/block.go:139-217 | So does a block, whether or not either node has finished bootstrapping: alike exactly if it comes to a foul draw on both or on neither. |
| `Verdicts.TwoNodesDecide` | avax/msg-vm/chain/block.go:139-217 | Two nodes that may verify the same block, whatever each has verified, rejected, pruned or bootstrapped before, give it the same verdict exactly if it comes to a foul draw on both or on neither. |
| `ChainVM.VerifyKeepsExact` | avax/msg-vm/chain/block.go:178-238 | In runs of Verify, Accept and Reject in one mode, without pruning, what a VM reads at any block it can build on is, at every key, what executing the chain from genesis on one plain map gives: the step for Verify, which the contracts of the VM's methods carry over whole runs. |
| `Verdicts.ReadsAsPlainMap` | avax/msg-vm/chain/block.go:178-283 | After any other run, with pruning and changes of mode, it agrees with the plain map on everything readable, exactly if the plain map's execution comes to no foul draw. |
| `Divergence.UnprunedNodeRefuses` | avax/msg-vm/chain/storage.go:715-731 | From genesis, without any condition on the lottery, two states of one block, before and after a prune, and a block that is refused with the parse error on the first and accepted on the second. |
| `Divergence.NodesDisagree` | avax/msg-vm/vm/pruner.go:15-34 | Two nodes started from one genesis verify and accept the same two blocks, one of them prunes, and they give different verdicts on the third. |
| `Agreement.PruneAlike` | avax/msg-vm/chain/storage.go:478-506 | Pruning changes nothing that can be read for a live space. |
| `BlockTree.CommitKeepsViews` | avax/msg-vm/chain/block.go:226-238 | Committing the lowest layer and re-basing its children changes what no descendant reads. |
| `BlockTree.PruneThrough` | avax/msg-vm/vm/pruner.go:15-34 | Pruning the disk under any stack of live layers shows through it as pruning the view. |
| `BlockTree.BlockLeadsToState` | avax/msg-vm/chain/block.go:178-217 | Verifying a block on any state its parent may be in, pruned or not, leads to a state the block may be in, and archives the block. |
| `BlockTree.ReachesOne` | avax/msg-vm/chain/block.go:178-217 | All the states a block may be in, over every way of verifying its chain with more or less pruned in between, agree. |
| `BlockTree.NoReplayOnChain` | avax/msg-vm/chain/tx.go:90-101 | On every chain the VM has verified no transaction ID occurs in two blocks. |
| `BlockTree.VerifiedIsPriced` | avax/msg-vm/chain/block.go:170-176 | On every such chain cost and price follow the recurrences. |
| `ChainVM.VM.constructor` | avax/msg-vm/vm/vm.go:173-198 | A VM that starts from genesis balances has the genesis block on disk as the last accepted one and satisfies the invariant of the tree. |
| `ChainVM.VM.FromDisk` | avax/msg-vm/vm/vm.go:158-172 | So does a VM that starts from a disk that names a last accepted block, with that block as its tip and nothing verified. |
| `ChainVM.VM.DiskWillDo` | avax/msg-vm/vm/vm.go:158-172 | At any time the disk of a VM names the last accepted block and is one to start from. |
| `ChainVM.Restart` | avax/msg-vm/vm/vm.go:158-172 | Stopping and starting again at any time gives a VM in order on the same disk with the same last accepted block. |
| `ChainVM.VM.GetStatelessBlock` | avax/msg-vm/vm/vm.go:335-359 | Cache, verified blocks and disk together find exactly the accepted chain and the verified blocks, with the right status. |
| `ChainVM.VM.AcceptedBlocksReadBack` | avax/msg-vm/chain/storage.go:402-415 | Every accepted block but genesis is read back from disk exactly as it was verified, values included, after any run. |
| `ChainVM.VM.Evict` | avax/msg-vm/vm/vm.go:335-345 | Forgetting a cached block changes no lookup. |
| `ChainVM.VM.Parent` | avax/msg-vm/vm/helpers.go:34-38 | The parent the lookback walk asks for is always found. |
| `ChainVM.VM.ExecutionContext` | avax/msg-vm/vm/chain_vm.go:68-130 | The walk over the tree computes the context of the specification, which `Lookback.RecentExact`, `Lookback.RecentTxsExact` and `Lookback.PriceOfBlock` say in full. |
| `ChainVM.VM.OnAcceptExact` | avax/msg-vm/chain/block.go:271-279 | For every block a VM has verified and can still accept, onAccept gives the block's own state if and only if its height is not 0. |
| `Heights.LowBlock` | avax/msg-vm/chain/block.go:271-279 | A node verifies a block of height 0 that claims a space; while it is processing, a child that claims the same space would pass on what onAccept gives, though not on the block's own state. |
| `ChainVM.VM.Verify` | avax/msg-vm/chain/block.go:207-223 | For a block of any height, the new layer reads as its execution on its parent's state; no other view changes; a failing block leaves no trace; the tree invariant is kept. |
| `ChainVM.VM.Accept` | avax/msg-vm/chain/block.go:226-238 | The disk becomes the accepted block's state; no block that can still be accepted reads anything else than before; the mode is unchanged; the invariant is kept, and so is exactness. |
| `ChainVM.VM.Reject` | avax/msg-vm/chain/block.go:241-245 | Rejecting changes no surviving view and keeps the invariant. |
| `ChainVM.VM.PruneCall` | avax/msg-vm/vm/pruner.go:15-34 | Pruning the disk under live layers works off at most `limit` entries, all that are due if they are fewer, changes nothing readable for a live space in any view, and keeps the invariant. |
| `ChainVM.TwoNodesAgree` | avax/msg-vm/chain/block.go:139-238 | Two nodes agree on everything readable at any block both can build on, whatever each has verified, rejected, pruned or bootstrapped. |
| `Archive.ReadsBack` | avax/msg-vm/chain/storage.go:402-415 | A block whose linked form and values are stored reads back as it was. |
| `Archive.BlockFilesItself` | avax/msg-vm/chain/block.go:207-217 | Verifying a block stores it so, and loses no block and no value stored before. |
| `LinkedValues.LinkValues` | avax/msg-vm/chain/storage.go:314-341 | For any transaction objects, repeated or not, the exact values written, the exact contents of the objects afterwards, and of the copies kept. |
| `LinkedValues.SetLastAccepted` | avax/msg-vm/chain/storage.go:365-385 | With every object in the block once, the block is recorded with its values set apart, and the block in memory equals the original although values were overwritten in place. |
| `LinkedValues.LastWriteStays` | avax/msg-vm/chain/storage.go:314-341 | What ends up stored for an ID: the value if the last object with it comes up for the first time, the ID's own bytes if that object came up before. |
| `LinkedValues.SameObjectTwice` | avax/msg-vm/chain/storage.go:329-334 | Why each object may be in the block only once: with one twice the value is lost, and reading it back gives the ID in its place. |
| `LinkedValues.RestoreValues` | avax/msg-vm/chain/storage.go:345-363 | Restoring in place puts back every value, or fails if one is missing. |
| `LinkedValues.GetBlock` | avax/msg-vm/chain/storage.go:402-415 | Reading from a layered database gives the block, or the error, of the specification. |
| `LinkedValues.LinkedTxCache.GetLinkedValue` | avax/msg-vm/chain/storage.go:645-665 | Asked of one store that never loses a value, hit or miss, the answer is exactly what is stored there; asked of several, an answer agrees with every store that has values under their own transactions. |
| `LinkedValues.LinkedTxCache.StillMirrors` | avax/msg-vm/chain/storage.go:645-665 | A cache filled from the disk still mirrors it after blocks are accepted and the disk is pruned, as neither loses a value. |
| `TxHeap.RootIsBest` | avax/msg-vm/mempool/tx_heap.go:40-45 | The first entry of an ordered heap belongs above every other. |
| `TxHeap.UpStep` | avax/msg-vm/mempool/tx_heap.go:47-51 | One step of sifting up moves the only doubtful edge to the parent. |
| `TxHeap.DownStep` | avax/msg-vm/mempool/tx_heap.go:47-51 | One step of sifting down moves the only doubtful edges to the child. |
| `TxHeap.Heap.Swap` | avax/msg-vm/mempool/tx_heap.go:47-51 | A swap keeps every entry at its recorded index and every lookup exact. |
| `TxHeap.Heap.Push` | avax/msg-vm/mempool/tx_heap.go:53-63 | A push keeps heap order, indices and lookup, and adds exactly the entry, unless its ID is already there. |
| `TxHeap.Heap.Remove` | avax/msg-vm/mempool/mempool.go:217-226 | Removal at any index keeps heap order, indices and lookup, and removes exactly that entry. |
| `TxHeap.Heap.Pop` | avax/msg-vm/mempool/tx_heap.go:65-72 | The last entry goes, from the items and from lookup. |
| `TxHeap.Heap.Count` | avax/msg-vm/mempool/tx_heap.go:38 | There are as many entries as transaction IDs. |
| `TxHeap.Heap.RootIsExtreme` | avax/msg-vm/mempool/tx_heap.go:40-45 | The first entry holds the transaction of lowest, or highest, price of all. |
| `Mempool.Mempool.Remove` | avax/msg-vm/mempool/mempool.go:210-229 | Both heaps lose exactly the transaction with that ID, and stay valid and in step. |
| `Mempool.Mempool.PopMin` | avax/msg-vm/mempool/mempool.go:120-125 | Takes out a transaction of minimal price. |
| `Mempool.Mempool.PopMax` | avax/msg-vm/mempool/mempool.go:111-117 | Takes out a transaction of maximal price; queue, token and earlier batches are untouched. |
| `Mempool.Mempool.Add` | avax/msg-vm/mempool/mempool.go:43-90 | Keeps the invariant; a duplicate changes nothing; otherwise the transaction is in and, if that is one too many, one of minimal price is out; it is queued and the token is put exactly if it stays. |
| `Mempool.Mempool.Prune` | avax/msg-vm/mempool/mempool.go:135-148 | With nobody else calling meanwhile, keeps exactly the transactions whose block ID is valid. |
| `Mempool.PruneAmongOthers` | avax/msg-vm/mempool/mempool.go:135-148 | With any calls of others between looking and each removal, nothing with a valid block ID is removed, and an outdated transaction it saw is gone at the end unless somebody has put it in again. |
| `Mempool.Mempool.NewTxs` | avax/msg-vm/mempool/mempool.go:176-201 | The batch is the transactions still held of a prefix of the queue, in order, with load at most maxUnits; the rest starts with one that is held and would exceed it; writing over the shared array changes neither the rest nor any batch handed out before. |
| `Mempool.Mempool.Enqueue` | avax/msg-vm/mempool/mempool.go:87 | Appending, in place or in a longer copy, adds one transaction to the queue and changes no batch handed out before. |
| `Mempool.HoldsTheDearest` | avax/msg-vm/mempool/mempool.go:43-90 | After any sequence of adds, repeated ones included, it holds min(maxSize, distinct offered) transactions and none left out pays more than one held. |
| `Builder.TryTx` | avax/msg-vm/chain/builder.go:74-82 | A transaction that fails on its own layer leaves the block's state as it was; one that succeeds is committed. |
| `Builder.Take` | avax/msg-vm/chain/builder.go:74-86 | A transaction that fits and succeeds extends the block and keeps what holds while it is filled. |
| `Builder.Drop` | avax/msg-vm/chain/builder.go:74-78 | One that fails is dropped, failing in the state left by transactions that pay at least as much. |
| `Builder.Fill` | avax/msg-vm/chain/builder.go:62-86 | At the end of the loop each transaction is in exactly one of block, put back and dropped, and whatever is left in the mempool pays less than the block's price. |
| `Builder.BuildBlock` | avax/msg-vm/chain/builder.go:15-100 | Block transactions are distinct, of non-increasing price at least the block's, of load at most MaxBlockSize; everything left pays too little or does not fit; everything gone failed; the block is handed out if and only if it verifies under its real ID; also when the clock is behind the parent's time. |
| `Built.RunDecides` | avax/msg-vm/chain/builder.go:87-98 | A filled block verifies exactly if its transactions succeed when run under its real ID, it is not empty, the clock was not behind its parent and its surplus covers its cost. |
| `Built.UnrewardedVerifies` | avax/msg-vm/chain/builder.go:87-98 | If no transaction in it can win a reward, a filled block verifies exactly if it is not empty, the clock was not behind its parent and its surplus covers its cost. |
| `Built.BuiltVerifies` | avax/msg-vm/chain/builder.go:62-98 | With rewards too, as long as its transactions do not live on them and no draw under its real ID is foul. |
| `Winners.WinnersDoNotMatter` | avax/msg-vm/chain/tx.go:131-150 | Transactions that succeed in a run that pays nobody succeed in every run without a foul draw, whoever wins, and every balance is at least as large. |
| `Built.UnpaidFails` | avax/msg-vm/chain/builder.go:75-94 | A filled block whose second transaction cannot pay without a reward that its real ID gives to nobody fails to verify. |
| `Refusal.FilledBlockIsRefused` | avax/msg-vm/chain/builder.go:75-94 | From genesis, a state and two transactions that fill a block on it which is then refused, for draws that stop at the space under the empty ID and go past it under the real one. |
| `Refusal.BuildsNothing` | avax/msg-vm/chain/builder.go:15-100 | A node started from genesis that calls BuildBlock with those two transactions in its mempool gets an error, and both are gone from the mempool. |
| `Refusal.DrawsCanFallSo` | avax/msg-vm/chain/storage.go:706-718 | The digests do not rule such draws out. |
| `Signals.TimeBuilder.SignalTxsReady` | avax/msg-vm/vm/block_builder.go:96-116 | In every state in which the Build loop may act on a token, running it is the protocol's step Signal, for which no wakeup is lost. |
| `Signals.TimeBuilder.HandleGenerateBlock` | avax/msg-vm/vm/block_builder.go:121-133 | Run at the end of a call of BuildBlock, with the answer it has got, it is the protocol's step Finish. |
| `Signals.TimeBuilder.BuildBlockTwoStageTimer` | avax/msg-vm/vm/block_builder.go:145-164 | In every state in which the timer has gone off and the lock is free, running it is the protocol's step RunTimer. |
| `Signals.StepKeepsInv` | avax/msg-vm/vm/block_builder.go:96-180 | Every step of every participant keeps the invariant of the protocol. |
| `Signals.NoLostWakeup` | avax/msg-vm/vm/block_builder.go:96-180 | In every interleaving a non-empty mempool implies a token pending or being handled, a message to the engine, an owed or running BuildBlock, or mayBuild with the timer set. |
| `Signals.StaysOrderly` | avax/msg-vm/vm/block_builder.go:96-180 | In every interleaving there is one outstanding request to the engine exactly while the status is building, never more, and the timer is set or going off, once, exactly while it is mayBuild. |
| `Signals.GoesQuiet` | avax/msg-vm/vm/block_builder.go:121-133 | A BuildBlock that ends with an empty mempool leaves no request and no timer behind. |
| `Signals.NeedsCapacity` | avax/msg-vm/vm/block_builder.go:109-116 | With an unbuffered channel to the engine that is false. |
| `Signals.BlockComes` | avax/msg-vm/vm/block_builder.go:96-180 | With the timer running, the system's own steps lead to a call of BuildBlock within a bounded number, in any order they are scheduled. |
| `Signals.CanGetStuck` | avax/msg-vm/vm/block_builder.go:88-133 | With nothing to run the timer there is a run to a state where transactions wait for the timer alone. |
| `Signals.StaysStuck` | avax/msg-vm/vm/block_builder.go:96-133 | From there no further transaction makes the engine build. |
| `FileStore.Block.CreateBlock` | anchorapp/programs/anchorapp/src/lib.rs:92-102 | The account starts well formed, empty, with the content its flag says. |
| `FileStore.Block.SetData` | anchorapp/programs/anchorapp/src/lib.rs:104-116 | Fills the fixed array with the data and zeros, or fails and changes nothing. |
| `FileStore.Block.SetDirectBlocks` | anchorapp/programs/anchorapp/src/lib.rs:118-138 | Replaces the direct blocks, keeps the next pointer, clears the rest, or fails and changes nothing. |
| `FileStore.Block.SetNextInodeBlock` | anchorapp/programs/anchorapp/src/lib.rs:140-152 | Replaces the next pointer alone, or fails and changes nothing. |
| `FileStore.Cluster.Send` | anchorapp/programs/anchorapp/src/lib.rs:14-57 | An instruction does what the specification says to one account, or fails with its error and changes nothing. |
| `FileStore.RunIsLocal` | anchorapp/programs/anchorapp/src/lib.rs:14-57 | However instructions are interleaved, an account depends on its own alone. |
| `FileStore.SettersCommute` | anchorapp/programs/anchorapp/src/lib.rs:118-152 | set_direct_blocks and set_next_inode_block commute, on any account and for any users. |
| `FileStore.ExecExact` | anchorapp/programs/anchorapp/src/lib.rs:14-57 | An instruction succeeds exactly if it is signed by the owner, or the claimer of a new account, is of the account's kind and within its size, and never changes owner or kind. |
| `FileStore.ContentExact` | anchorapp/programs/anchorapp/src/lib.rs:92-152 | What the content is afterwards, slot by slot. |
| `FileStore.OthersCannotWrite` | anchorapp/programs/anchorapp/src/lib.rs:24-26 | Whatever others send in any order, the account of an owner who sends nothing to it stays as it is. |
| `FileTransfer.UploadFile` | anchorapp/tests/utils.ts:146-202 | An upload sets in motion a data block for every chunk, just enough inodes of 30 entries, each pointing to the next, all on fresh keys. |
| `FileTransfer.DownloadFile` | anchorapp/tests/utils.ts:204-231 | On every list of inodes that has an end the walk reads the listed data blocks in order, or gives the first error met, of an inode or a data block. |
| `FileTransfer.EndExact` | anchorapp/tests/utils.ts:204-231 | The walk from an inode has an end, which may be an error, if and only if the list does not come back to an inode it has passed. |
| `FileTransfer.InodeLands` | anchorapp/tests/utils.ts:94-115 | An inode reads as intended whichever of its two setters lands first, and as empty while the un-awaited one is missing. |
| `FileTransfer.UploadLands` | anchorapp/tests/utils.ts:146-202 | After any interleaving of an upload's calls every data block and inode reads as intended. |
| `FileTransfer.RoundTrip` | anchorapp/tests/utils.ts:94-231 | For every non-empty file in any chunks of 1 to 992 bytes, a download reads back exactly the file if and only if every un-awaited call has landed, and in any case exactly the chunks listed by the inodes that are complete. |
| `FileTransfer.InTurnLands` | anchorapp/tests/utils.ts:146-202 | Run one after the other, the calls of an upload land, with none missing. |

## Left out

- ChainVM.VM.Verify: requires a parent that is accepted or of a height other than 0 (for others `ChainVM.VM.OnAcceptExact` says what onAccept gives), a block not verified before, and arithmetic that does not wrap.
- ChainVM.VM.PruneCall: a failing commit or re-base, which the code logs, does not occur on a map.
- CostAndPrice.CostIsWorstBurst: requires a first block that costs MinBlockCost, as genesis does, and that blocks times target rate fits in 64 bits.
- Builder.BuildBlock: requires a preferred block that answers for itself (accepted, or of a height other than 0), that the mempool is not used by others meanwhile, and, where verification executes the block, arithmetic that does not wrap.
- Built.BuiltVerifies: requires that the transactions also succeed when nobody wins, and that the balances together and the fees fit in 64 bits; for other blocks the verdict is that of the real run (`Built.RunDecides`).
- Mempool.Mempool.Prune: runs as one step; the calls the lock lets in between are in `Mempool.PruneAmongOthers`, which looks at the transactions held and not at the heaps.
- Mempool.Mempool.NewTxs: a batch is not appended to by whoever receives it.
- FileTransfer.DownloadFile: requires a list of inodes that has an end, which it has exactly if it is not cyclic (`FileTransfer.EndExact`); the code follows a cycle for ever.
- FileTransfer.RoundTrip: network errors that reject an awaited call end the upload and are not modelled.
- LinkedValues.GetBlock: bytes that are not as long as an ID and IDs without a value are the same failure.
- Block objects are identified by their block ID, so that two parsed copies of one block are one; their mutable part is in `BlockTree.Node`.
- Assumed: a value of another family does not parse as a space record, so that the lottery fails with `ErrCodec`; the codec is not modelled. There is one shape of which this is not true: an expiry value, 20 owner bytes and the name, has the 74 bytes of a marshalled record if the name has 54 characters, and parses if the owner starts with two zero bytes, the codec's version; the draw would then pay a meaningless address. `Lottery.DueSpaceFoulsTheDraw` and the verdict theorems rest on the assumption. `Divergence` does not: the entry met there is one of the pruning queue, whose value is empty.
- Mempool calls of Verified and Rejected, and the activity cache of Accepted: no effect on state or tree.
- Two equal transactions in one block: `verify` does not refuse them, and nothing here says it does.
- RPC, gossip transport, command line, web app, test runner: input and output.
- Keccak, ECDSA, the linear codec, JSON, typed-data decoding: injective functions or left out.
- `tree.go`, `Submit`, `SuggestedFee`, compaction, shutdown, genesis airdrop parsing, `ManualBuilder`: easier than what is here, or without a clean property.
- `anchorapp/tests/utils.js`: differs from `utils.ts`, which is what is modelled.
