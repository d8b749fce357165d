# Solenoid: a model of its Ethereum virtual machine

Solenoid executes Ethereum transactions over a write-through cache of a remote node. This project models the
machine in Dafny and proves what its three interacting mechanisms promise at every call depth: gas accounting across nested
frames, the undo journal, and the decoded program that stands for the bytes. Three smaller cores stand beside it: the blob fee,
the RLP buffer behind a created address, and the hexadecimal codec for words.

## How the model is laid out

| file | what it holds |
|---|---|
| `state.dfy` | the world: the storage cache over a remote snapshot, transaction-start values, the cells a frame can change |
| `journal.dfy`, `segments.dfy`, `supply.dfy` | journal entries, what replaying them backwards answers, the segment each operation adds, and the total of all balances |
| `limits.dfy` | where the journal falls short: entering an address, SELFDESTRUCT, creations and halting accesses, each with its segment, its marks and the exact condition under which undo is right |
| `gasrules.dfy`, `metering.dfy` | memory pricing, the 63/64 rule and what it means for depth, SSTORE cost and refund |
| `ledger.dfy` | the frame invariant `Consistent` and how each operation and each returning child keeps it |
| `machine.dfy` | the classes `Ext` and `Evm` with the operations that change them |
| `opcodes.dfy`, `decoder.dfy` | the opcode table, the decoder, the jump table, and the two machines that run in lockstep |
| `semantics.dfy` | what every opcode, a call, a creation and a whole frame do, as relations between values; a frame's run is a sequence of ticks, and every child in it has a run of its own |
| `runs.dfy` | what every run promises: where its gas went, whose storage it can have changed |
| `steps.dfy`, `interpreter.dfy` | the opcodes, the mutually recursive interpreter and the fetch loop as methods, proved against those relations |
| `transaction.dfy` | `execute` and the call branch of `Runner::apply` |
| `blobfee.dfy`, `numerals.dfy`, `rlp.dfy`, `hexcodec.dfy` | the smaller cores |

Gas, stack and memory lengths, storage, transient storage, balances, nonces, code, warm sets and the journal are
concrete. Operand values, hashes and derived addresses are arbitrary, so each theorem holds for all of them. A frame is a
mutable `Evm` over a shared mutable `Ext`, as in the source. The frame a method leaves is the last state of a run in which every
instruction does what its specification says and is charged what it costs, at every depth. A ghost `Book` per frame records the world it started from, its
journal, the refund counter, and the marks described next.

Some of what the code does cannot be taken back by its journal. A `Marks` value records it key by key, under the exact
condition in which undo fails:

- `leaked`: slots warmed by an SLOAD or SSTORE that then halted (src/executor.rs:1697-1708 and 1741-1744), if they were cold; `Limits.LeakUndoIff`.
- `collided`: addresses that a creation overwrote although they had a nonce or code; `Limits.CollisionUndoIff`.
- `moved`: addresses whose balance undo misses. SELFDESTRUCT records nothing (src/executor.rs:2330-2333), and CREATE puts its balance entries before its child's (src/executor.rs:2902-2961); `Limits.DestructUndoIff` and `Limits.EndowmentUndoIff`.
- `lost`: the total of all balances may have changed: an entered address forgot a balance only the remote knew, an account endowed itself, or a frame with `moved` addresses was undone; `Limits.EnteringKeepsIff`, `Limits.EndowmentDriftIff` and `Limits.TotalAfterUndo`.
- `nonces`: addresses whose nonce a creation changed.

Nonces, code and balances of every address outside these sets are claimed. Each step states exactly which marks it adds, and
all but SLOAD, SSTORE, SELFDESTRUCT, creations and calls add none. `Caused`, part of the frame invariant, ties every mark to an
opcode that ran at some depth, and `RanOnly` ties the opcodes that ran to the bytes of the code.

Where the code and its comments disagree, the model follows the code:

- The gas `Runner::apply` reports omits the calldata floor (EIP-7623) that `execute` bills; for a target without code the two agree exactly when the intrinsic cost covers the floor (`Transaction.ApplyCall`, `Transaction.IntrinsicCoversFloorIff`), and `Transaction.UnderreportedCall` is a call where they do not.
- `Runner::apply` enters the address a creation would get even for a call, and so forgets a balance only the remote knows; `Transaction.EnteringKeepsValueIff` gives the exact condition.
- Prepayment and value transfer subtract with saturation, which forgives a sender that cannot pay; `Transaction.ForgivenNothingIff` gives the exact condition.
- `fake_exponential` with the largest u128 factor never reaches a zero term and ends only by overflow; `BlobFee.FakeExponential` states exactly when a result exists.
- TSTORE is not refused in a static frame, LOG neither grows nor prices memory, and JUMPI accepts offset 0 whatever stands there.

## Model

| member | source | states |
|---|---|---|
| `Interpreter.ExecuteWithContext` | src/executor.rs:654-841 | For every bytecode and all operand values, at any depth, a frame terminates with gas as the measure and ends in the last state of a run that warms the caller, executes instruction after instruction as specified and charges each, down to every child frame; 0 <= used <= limit, the journal leads back to its start, originals are right, and the refund counter is cleared slots plus resets; past the depth limit it fails having spent nothing. |
| `Interpreter.Loop` | src/executor.rs:686-763 | At every loop head 0 <= used <= limit and the frame invariant holds; each step that does not stop the frame lowers the remaining gas; the states at the heads form a run, and it ends where the source stops; only opcodes standing in the code have run unless it can open frames. |
| `Interpreter.Iterate` | src/executor.rs:687-763 | One iteration leaves the state the instruction specifies with exactly its cost charged, or a failed frame with all gas gone, and keeps the invariant. |
| `Interpreter.ExecuteInstruction` | src/executor.rs:843-864 | One instruction does what its opcode specifies from state to state, keeps the frame invariant and makes progress in gas, and the index it moves to is where a machine on the raw bytes would go. |
| `Interpreter.Dispatch` | src/executor.rs:865-2347 | Whatever the opcode, the step keeps the invariant, does what that opcode's specification says for some operands and, if it opens a frame, some child with a known start world; it touches the program counter only for STOP and jumps, and leaves marks only for the opcodes that can. |
| `Interpreter.DispatchWorld` | src/executor.rs:1275-2336 | The opcodes that reach the world state change frame, world, journal and marks exactly as specified, and only those that may leave marks do. |
| `Interpreter.DispatchFrame` | src/executor.rs:2164-2303 | The opcodes that open frames do what is specified for some operands and some child with a run of its own; creations are refused in a static call. |
| `Interpreter.CallFamilyOp` | src/executor.rs:2172-2303 | By opcode: DELEGATECALL and CALLCODE run as the caller with the caller's sender, CALL and STATICCALL as the target on the caller's behalf, and each with the value it should; a child opened by STATICCALL, or from a static frame by any call, is static and no storage slot reads differently afterwards; foreign code that opens no frames changes no storage but that of the account it runs as; the gas is base cost plus the child's less the stipend; a failing call halts with all remaining gas. |
| `Interpreter.CallOp` | src/executor.rs:2350-2710 | A call fails exactly when operands are missing, memory would grow too far, or base cost or precompile cost is out of reach; otherwise it charges its base cost as EIP-2929 and the value rules price it, its child runs from the world after lookup and transfer with at most all but a 64th plus the stipend, a failed child is undone to that start world up to its marks, and the caller's journal is its old one with the lookup, the transfer and what the child left. |
| `Interpreter.PlanCall` | src/executor.rs:2360-2431 | A call gets this far exactly when its operands are there and its memory is within the limit; then the memory covers exactly arguments and result, and callee code (through a delegation), base cost, stipend and journal entries are known. |
| `Interpreter.PriceCall` | src/executor.rs:2395-2431 | The base cost covers access, growth, a new account and the value, so that it pays for the stipend it grants. |
| `Interpreter.ResolveCallee` | src/executor.rs:2401-2420 | The code a call runs and its access cost, for a plain and for a delegating account, and the warm-up entries recorded. |
| `Interpreter.PrecompileOp` | src/executor.rs:2490-2541 | Any precompile result and any cost of at least -1 leave the caller within its limit, charged that cost or failed because it did not fit, and the step still makes progress. |
| `Interpreter.TransferValue` | src/executor.rs:2563-2606 | The transfer moves value exactly when there is some, the call type carries it, the sender has it and is not the callee, and is recorded in the caller's journal. |
| `Interpreter.EnterCallee` | src/executor.rs:2543-2704 | The child starts from the world after the transfer, as the caller itself for DELEGATECALL and CALLCODE, runs the callee's code to its end, and leaves in the caller's journal all its entries or, if it failed, the surviving ones. |
| `Interpreter.RunCallee` | src/executor.rs:2472-2479 | The child's limit, and that afterwards the caller pays child gas less the stipend and can still afford its base cost. |
| `Interpreter.RunChild` | src/executor.rs:2558-2625 | A child opened with at most 63/64 of the remaining gas runs the decoded code from a fresh state to the end of a run, with books whose depth budget holds; a static child changes no storage slot however deep it nests. |
| `Interpreter.Return` | src/executor.rs:2678-2708 | A returning child is absorbed or undone: return data and verdict reach the caller, refunds only on success, and a failed child's start is restored. |
| `Interpreter.CreateOp` | src/executor.rs:2712-2964 | A creation fails exactly when operands are missing or memory would grow too far; otherwise it costs 32000, 2 or 8 per word, growth, and the gas used plus 200 per byte deployed, at most all but a 64th of the rest; a failed one restores the prepared world up to its marks, a successful one leaves exactly the installed accounts, with its own entries before the child's. |
| `Interpreter.TakeInit` | src/executor.rs:2721-2741 | Operands and memory growth of a creation, and that it fails on too few operands. |
| `Interpreter.PrepareCreate` | src/executor.rs:2750-2778 | The creator's nonce rises before anything else, the created address is warm and entered, and only what the snapshot alone knew about it is marked. |
| `Interpreter.EnterCreate` | src/executor.rs:2780-2887 | The init code runs as the created account with all but a 64th of what the base cost leaves; it counts as failed exactly when it reverted or the deposit does not fit; the charge in each case and, on success, the accounts and entries it leaves. |
| `Interpreter.FinishCreate` | src/executor.rs:2860-2963 | On failure the child is undone and its surviving entries kept; on success code, nonce, endowment, refunds, marks and the order of the journal entries. |
| `Runs.GasIsSum` | src/executor.rs:686-763 | Along any run of the loop the gas used is the sum of what the instructions cost, children included, or the whole limit once the frame has failed. |
| `Runs.FrameGasIsSum` | src/executor.rs:654-763 | The same for every whole frame. |
| `Runs.PlainTickCost` | src/executor.rs:747 | An instruction that opens no frame uses exactly the gas it is charged. |
| `Runs.OwnStorageOnly` | src/executor.rs:1732-1923 | A run without frame-opening instructions changes no storage but that of the account it runs as. |
| `Runs.ChildOwnStorage` | src/executor.rs:2543-2556 | The same for a child frame, whether it succeeds or is undone. |
| `Machine.Evm.Revert` | src/executor.rs:221-262 | Replaying the journal backwards gives every cell the oldest recorded value, cools exactly the keys recorded as cold, keeps originals, and never meets a missing account. |
| `Machine.Evm.Discard` | src/executor.rs:2683-2695 | Undoing a failed child restores storage, transient storage and warm addresses as at its start, nonces, code and balances of every address outside its marks, and warm slots up to leaked ones; its surviving entries keep the caller's journal exact, and the caller's marks grow by exactly what is left. |
| `Machine.Evm.Absorb` | src/executor.rs:2698-2702 | A successful child's journal and refunds become the caller's and the caller's journal still leads back to its own start. |
| `Machine.Evm.Deploy` | src/executor.rs:2889-2961 | Deploying keeps the frame invariant although the creation's own entries precede the child's, and marks only a collision and the balances its endowment makes undo miss. |
| `Machine.Evm.Drain` | src/executor.rs:2330-2333 | SELFDESTRUCT hands over the whole balance without a journal entry and keeps the total; the two accounts are marked exactly when something moved between them. |
| `Machine.Evm.Error` | src/executor.rs:155-161 | An exceptional halt takes all gas and marks the frame stopped and reverted. |
| `Machine.Evm.Push` | src/executor.rs:163-169 | Pushing succeeds exactly below 1024 words, otherwise the frame fails with all gas gone. |
| `Machine.Evm.Pop` | src/executor.rs:171-178 | Popping n words succeeds exactly when they are there, otherwise the frame fails with all gas gone. |
| `Machine.Evm.Charge` | src/executor.rs:194-199 | A charge either fits and is taken, or takes everything and fails; used never passes limit. |
| `Machine.Evm.Resize` | src/executor.rs:1635-1641 | Memory grows to the least multiple of 32 covering the access, never shrinks, and fails exactly beyond the sanity limit. |
| `Machine.Evm.ExpansionCost` | src/executor.rs:130-136 | The charge is the difference of two prices, never negative, and afterwards the whole memory is paid for. |
| `Machine.Evm.AccessCost` | src/executor.rs:138-153 | 100 for warm addresses and precompiles, 2600 otherwise, and warming is journaled exactly when it happens. |
| `Machine.Evm.TakeSlot` | src/executor.rs:1709-1714 | The read is recorded with the warmth the slot had before, so undo restores the warm set. |
| `Machine.Evm.PutSlot` | src/executor.rs:1904-1922 | The store records the replaced value, and the refund counter still equals the cleared slots' share plus resets. |
| `Machine.Evm.Pay` | src/executor.rs:2572-2592 | A transfer conserves the total and its two entries undo it. |
| `Machine.Evm.BumpNonce` | src/executor.rs:2750-2757 | The nonce rises by one, and the entry takes it back. |
| `Machine.Ext.Get` | src/ext.rs:131-162 | A read answers the cached or the remote value, caches it, and records the transaction-start value at most once. |
| `Machine.Ext.Pull` | src/ext.rs:219-241 | Caching an account changes no reading of it. |
| `Machine.Ext.Reset` | src/ext.rs:92-103 | A new transaction forgets originals, transient storage and warmth and keeps storage and accounts. |
| `State.CacheIsOverlay` | src/ext.rs:131-175 | After any sequence of reads, writes and undos every slot reads as the snapshot overlaid with the last write. |
| `State.ExtraReadsAreInvisible` | src/ext.rs:131-162 | Inserting a read anywhere changes no later read. |
| `State.OriginalsSurvive` | src/executor.rs:1746-1747 | With a remote, recorded originals are transaction-start values through all writes and undos, and unrecorded slots still read theirs. |
| `State.LocalOriginalIsLate` | src/ext.rs:159-161 | Without a remote, a store before the first cached read makes a later read record the wrong original. |
| `State.OriginalTrustedIff` | src/ext.rs:131-162 | Recorded originals can be trusted exactly when there is a remote or the slot was cached at the start. |
| `Journal.TracksConcat` | src/executor.rs:2702 | Journal segments compose: undo, warmth, growth of accounts, and conservation carry over to the concatenation. |
| `Journal.FailedFrame` | src/executor.rs:98-103 | After undoing a frame every cell of an unmarked address and the warm addresses read as at its start, warm slots up to leaked ones, the total is back unless a balance moved, and the surviving entries are harmless in the parent's journal. |
| `Journal.SurvivorsAreHarmless` | src/executor.rs:98-103 | Undoing the surviving entries of an undone frame once more changes no claimed cell. |
| `Journal.UndoOneMore` | src/executor.rs:221-262 | One more undone entry extends an undo by exactly that entry. |
| `Segments.SloadSegment` | src/executor.rs:1713-1714 | An SLOAD's entry leads back to the world before it, warm set included. |
| `Segments.SstoreSegment` | src/executor.rs:1921-1922 | An SSTORE's entry leads back to the world before it, value and warm set included. |
| `Segments.LeakSegment` | src/executor.rs:1697-1708 | A halting SLOAD or SSTORE leaves only the slot's warmth behind, and only that is marked. |
| `Segments.TstoreSegment` | src/executor.rs:2020-2022 | A TSTORE's entry leads back to the old transient value. |
| `Segments.TransferSegment` | src/executor.rs:2572-2592 | A transfer's two entries lead back, and the total of all balances is unchanged. |
| `Segments.WarmUpSegment` | src/executor.rs:143-147 | A warm-up's entry leads back to a cold address. |
| `Segments.NonceSegment` | src/executor.rs:2751-2757 | A nonce entry leads back, and only that nonce changed. |
| `Limits.EnterSegment` | src/executor.rs:2778 | Entering an address keeps every cell but what only the snapshot knew about that address. |
| `Limits.EnteringKeepsIff` | src/executor.rs:2778 | Entering keeps balance and total exactly when the address was cached or held nothing, nonce and code exactly when it was cached or fresh; its marks name exactly what changed. |
| `Limits.DrainSegment` | src/executor.rs:2330-2333 | SELFDESTRUCT keeps the total and every balance but the two that really moved. |
| `Limits.DestructUndoIff` | src/executor.rs:2330-2333 | Undo after SELFDESTRUCT restores all balances exactly when the account held nothing or is its own heir; its marks name exactly the balances out of place. |
| `Limits.CommitSegment` | src/executor.rs:2889-2961 | A creation's own entries before its child's still lead back in every cell but the created nonce and code on a collision and the balances its endowment makes undo miss. |
| `Limits.EndowmentUndoIff` | src/executor.rs:2896-2961 | Undoing a creation restores a balance it touched exactly when, with an endowment, the child left that balance as it found it or, without one, the created address held nothing. |
| `Limits.EndowmentUndoFails` | src/executor.rs:2896-2961 | A concrete creation, its child tracked faithfully, after whose undo the creator holds 15 instead of 10 while the payer has its 5 back. |
| `Limits.EndowmentDriftIff` | src/executor.rs:2896-2935 | A creation keeps the total exactly unless an account endows itself. |
| `Limits.CollisionUndoIff` | src/executor.rs:250-254 | Undoing a creation restores the created nonce and code exactly when the address was fresh. |
| `Limits.CollisionUndoFails` | src/executor.rs:250-254 | A creation over deployed code, then undone, leaves neither code nor nonce. |
| `Limits.LeakUndoIff` | src/executor.rs:1697-1708 | Undo after an access that halted restores the warm slots exactly when the slot was warm before. |
| `Limits.TotalAfterUndo` | src/executor.rs:221-262 | Undoing a frame moves the total by exactly what the marked accounts have gained by it, so it is conserved exactly when that is zero. |
| `Ledger.OpenBook` | src/executor.rs:2558-2561 | A newly opened frame satisfies the frame invariant. |
| `Ledger.StoreBook` | src/executor.rs:1766-1828 | An SSTORE keeps journal, originals, refund equation and static promise together. |
| `Ledger.AbsorbBook` | src/executor.rs:2698-2702 | Merging a successful child keeps the caller's invariant. |
| `Ledger.DiscardBook` | src/executor.rs:2683-2695 | Undoing a failed child and keeping its surviving entries keeps the caller's invariant. |
| `Ledger.CommitBook` | src/executor.rs:2889-2961 | Committing a creation keeps the creator's invariant. |
| `Ledger.UndoRestores` | src/executor.rs:221-262 | Undoing any frame's journal restores the world it started from in every cell of an unmarked address, with recorded originals and the refund share of that world, and the total unless a balance moved. |
| `GasRules.FinalizedBounds` | src/executor.rs:285-293 | The billed gas lies between four fifths of used and used, intrinsic cost included. |
| `GasRules.ChargesTelescope` | src/executor.rs:130-136 | Along any run of accesses the charges add up to the price of the final length less that of the first, and memory stays whole words and never shrinks. |
| `GasRules.LengthIsLeastCover` | src/executor.rs:1633-1686 | The final length is the least multiple of 32 that covers the start and every access. |
| `GasRules.ChargesIgnoreOrder` | src/executor.rs:130-136 | Two runs with the same set of accesses pay the same in total, whatever the order and repetition. |
| `GasRules.ChildLimit` | src/executor.rs:2423-2475 | A child's limit is non-negative, strictly below the caller's remaining gas and at most 63/64 of it, stipend included. |
| `GasRules.ForwardedIsGreatest` | src/executor.rs:2472-2475 | Without the stipend a child gets what was asked for, or the most the 63/64 rule leaves if that is less. |
| `GasRules.CallerCanStillPay` | src/executor.rs:2676-2681 | Whatever the child used, the caller can afford its base cost afterwards and ends with strictly less gas: the check left as a TODO is not needed. |
| `GasRules.BudgetDeepens` | src/executor.rs:2472-2475 | 64^d times a frame's gas is at most 63^d times the top frame's, one level deeper each call. |
| `GasRules.DepthLimitNeedsGas` | src/executor.rs:680-684 | A frame that could open one more child at the depth limit needs a transaction of at least 990 million gas. |
| `Metering.NetIsPathIndependent` | src/executor.rs:1766-1828 | N stores to one slot cost, less refunds, 100 N, the cold surcharge once, and an amount fixed by original and final value alone. |
| `Metering.StoreMovesRefund` | src/executor.rs:1802-1828 | Each store moves the refund counter by 4800 times the change in cleared slots plus a non-negative reset refund. |
| `Metering.RefundSplits` | src/executor.rs:1802-1828 | The refund of one store is its clearing part plus its reset part. |
| `Steps.StackOp` | src/executor.rs:884-1234 | Fixed cost, operands needed, height afterwards and the order of the failures for every opcode that works on the stack alone. |
| `Semantics.StackTable` | src/executor.rs:884-1234 | Price and stack effect of every stack opcode, by its byte. |
| `Steps.PricedOp` | src/executor.rs:1015-1029 | EXP and SHA3 price their operand size, and fail before or after charging in the order of the source. |
| `Steps.MemoryOp` | src/executor.rs:1631-1693 | MLOAD, MSTORE and MSTORE8 grow memory to cover exactly 32 bytes or one byte at their offset, pay 3 plus the growth, and fail exactly as the source does. |
| `Steps.CopyOp` | src/executor.rs:1345-1404 | The three copies fail exactly on missing operands, an oversized target or an oversized source, and otherwise grow memory to the end of the target and pay per word plus growth. |
| `Steps.McopyOp` | src/executor.rs:2030-2073 | MCOPY grows memory to the end of the farther of its two ranges, pays per word plus growth, and fails exactly as the source does. |
| `Steps.LogOp` | src/executor.rs:2124-2162 | LOG is refused in a static call, pays per topic and byte, and neither grows nor prices memory. |
| `Steps.ReturnOp` | src/executor.rs:2219-2256 | RETURN and REVERT stop the frame with the right verdict, return exactly as many bytes as asked for, and pay for the growth they cause. |
| `Steps.JumpOp` | src/executor.rs:1924-1964 | A taken JUMP succeeds exactly on the valid destinations of section 9.4.3 of the Yellow Paper, a taken JUMPI on those and offset 0, and lands on the instruction at that offset. |
| `Steps.Target` | src/executor.rs:1930-1941 | A target resolves exactly when it is a valid destination, or offset 0 for JUMPI. |
| `Steps.AccountOp` | src/executor.rs:1275-1291 | BALANCE, EXTCODESIZE and EXTCODEHASH warm before the gas check, and note the account only if they can pay. |
| `Steps.SelfBalanceOp` | src/executor.rs:1573-1588 | SELFBALANCE costs 5 and notes the balance. |
| `Steps.ExtCodeCopyOp` | src/executor.rs:1425-1453 | EXTCODECOPY's price, its failures, and the order of its journal entries. |
| `Steps.SloadOp` | src/executor.rs:1694-1731 | SLOAD's cost, record and value source; a halting one has warmed its slot without a record. |
| `Steps.SstoreOp` | src/executor.rs:1732-1923 | SSTORE is refused in a static frame before it touches anything; otherwise its cost and refund follow original, current and new value. |
| `Steps.StoreSlot` | src/executor.rs:1741-1922 | A store that cannot pay leaves the slot warm and fetched and nothing recorded; one that can keeps the frame invariant. |
| `Steps.TstoreOp` | src/executor.rs:2012-2029 | TSTORE replaces one transient slot and records what it replaced. |
| `Steps.SelfDestructOp` | src/executor.rs:2307-2336 | SELFDESTRUCT's price and its unrecorded move. |
| `Decoder.Decode` | src/decoder.rs:42-82 | Instructions tile the bytes from 0 to the end: one whose byte is 0x60 to 0x7f spans one to 32 further bytes, carries them as its argument with zeros after the end, and none of them is a jump destination; every other byte stands alone; undefined bytes read as 0xfe; and the table lists the JUMPDESTs in order. |
| `Decoder.ResolveJump` | src/decoder.rs:27-36 | Binary search finds a non-zero offset exactly when an instruction there is a JUMPDEST, and returns its index. |
| `Decoder.DecodedTableSorted` | src/decoder.rs:55-58 | The jump table is strictly sorted in both columns and offsets strictly increase. |
| `Decoder.JumpdestsAreValidDests` | src/decoder.rs:55-75 | JUMPDEST instructions are exactly the valid destinations of the bytes, and instruction offsets exactly their instruction boundaries. |
| `Decoder.JumpsLandOnValidDests` | src/executor.rs:1949-1962 | JUMP can land exactly on the valid destinations, JUMPI on those and offset 0. |
| `Decoder.Lockstep` | src/executor.rs:686-690 | For every bytecode, every meaning of its instructions and every number of steps, the index machine and the byte machine agree in data and outcome, with offsets tracking the byte counter. |
| `Decoder.PushDataIsNeverExecuted` | src/decoder.rs:62-72 | A running machine is at an instruction boundary or past the end. |
| `Decoder.PaddedIsData` | src/decoder.rs:62-72 | Truncated push data reads as if the code were followed by zeros. |
| `Decoder.NextIndexAdvances` | src/executor.rs:2342-2344 | Adding one to the index is moving to the next instruction in the bytes, or past their end. |
| `Transaction.Execute` | src/executor.rs:365-652 | A whole transaction: what is billed is the gas its run used plus costs, less the refund up to a fifth unless it failed, and never less than the floor; the refund counter equals the cleared slots' share plus the reset refunds of its journal, so n cleared slots save 4800 n; originals, every unmarked cell but the balances as before on failure, the nonce, no underflow in the settlement, and conservation of value: unless value is lost the total drops by billed gas times base fee, and a reverted run moves no unmarked balance but for fee and tip. |
| `Transaction.ApplyCall` | src/solenoid.rs:202-311 | The sender's nonce rises by exactly one whether the run succeeds or reverts, value is conserved as in `execute`, the reported gas is the run's gas plus intrinsic cost less the refund up to a fifth, and it agrees with the bill for a target without code exactly when the intrinsic cost covers the calldata floor, for any code when four fifths of it do. |
| `Transaction.IntrinsicCoversFloorIff` | src/executor.rs:515-535 | The intrinsic cost covers the calldata floor exactly when the access list pays for 6 gas per zero byte and 24 per non-zero byte. |
| `Transaction.UnderreportedCall` | src/solenoid.rs:299 | One byte of calldata to an account without code is billed 21040 and reported as 21016. |
| `Transaction.PlainCodeIsUnmarked` | src/executor.rs:2164-2336 | Code without SELFDESTRUCT and without frame-opening instructions leaves no mark, so its claims hold without condition. |
| `Transaction.RunTop` | src/executor.rs:478-508 | The outermost frame, undone or not: total, nonce, originals and refunds relative to the world before it, and every claimed cell if it was undone; without code it uses no gas. |
| `Transaction.TransactionUndo` | src/executor.rs:506-508 | Undoing the whole journal of a failed transaction, opening entries included, gives back every claimed cell. |
| `Transaction.Begin` | src/executor.rs:372-416 | Before value moves only the sender's balance differs, by the prepayment as far as it goes. |
| `Transaction.Prewarm` | src/executor.rs:372-397 | Sender, target, the target's delegate and the coinbase are warm before the run, and no account reads differently. |
| `Transaction.Prepay` | src/executor.rs:399-405 | The prepayment is deducted with saturation. |
| `Transaction.MoveValue` | src/executor.rs:427-467 | The opening moves value as far as the sender has it, also to itself, and counts the nonce. |
| `Transaction.OpeningRewinds` | src/executor.rs:427-467 | The opening's entries lead back to the world before it, a transfer to oneself included. |
| `Transaction.OpenedDrift` | src/executor.rs:430-459 | The opening changes the total exactly by what the sender lacked. |
| `Transaction.Fees` | src/executor.rs:537-550 | The fee subtraction underflows exactly when the fee exceeds the prepayment, never when the effective price is at most the price prepaid and the bill at most the limit; refund and tip leave exactly the burned part. |
| `Transaction.Settle` | src/executor.rs:552-624 | The sender's refund and the coinbase's tip, also when they are the same account, and the fee entries. |
| `Transaction.SettledDrift` | src/executor.rs:552-624 | Settlement raises the total by refund plus tip and changes no other balance and no nonce. |
| `Transaction.WholeValue` | src/executor.rs:399-624 | Prepayment, run and settlement together conserve value. |
| `Transaction.BillBounds` | src/executor.rs:510-535 | The bill is at least the floor and four fifths of the gas, and at most the larger of gas and floor. |
| `Transaction.BillingOfCleared` | src/executor.rs:285-293 | When the refund is the cleared slots' share and within a fifth, each cleared slot takes 4800 off the bill, down to the floor. |
| `Transaction.ForgivenNothingIff` | src/executor.rs:402-434 | Saturation forgives nothing exactly when the sender can pay the gas in advance and, unless the run reverts, the value. |
| `Transaction.EffectivePriceIs` | src/executor.rs:537-547 | The price is the cap exactly when base fee and priority fee together reach it, and leaves above the base fee the smaller of priority fee and headroom. |
| `Transaction.AccessListCost` | src/ext.rs:51-58 | The loop computes 2400 per address and 1900 per key. |
| `Transaction.ApplyAccessList` | src/ext.rs:83-90 | Exactly the listed addresses and slots become warm. |
| `Transaction.LoadProgram` | src/solenoid.rs:216-237 | The decoded program is the target's code, or that of the account it delegates to, and no account reads differently. |
| `Transaction.Prepare` | src/solenoid.rs:209-266 | Before `execute` the sender reads as before and, if the derived address was cached or empty-handed, so does every balance. |
| `Transaction.EnteringKeepsValueIff` | src/solenoid.rs:265-266 | Entering an address as empty keeps all balances exactly when it was cached or held nothing. |
| `Transaction.Renumber` | src/solenoid.rs:293-297 | The nonce repair after a revert changes that nonce by one and no balance. |
| `BlobFee.FakeExponential` | evm-common/src/block.rs:90-101 | It terminates for every factor and positive denominator; a result exists exactly when the series ends and fits u128, is at least 1, and is the sum of the terms over the denominator, each term being the one before times factor over denominator times its number, rounded down. |
| `BlobFee.TermsBracketed` | evm-common/src/block.rs:95-99 | While nothing saturates the k-th term lies under d (f/d)^k / k! and short of it by no more than the roundings along the way. |
| `BlobFee.ExactClosedForm` | evm-common/src/block.rs:95-99 | The exact terms are d f^k / (k! d^k), those of the exponential series. |
| `BlobFee.ExponentialBracket` | evm-common/src/block.rs:88-101 | The answer brackets the partial sum of e^(factor/denominator): never above it, and short of it by less than one and the roundings. |
| `BlobFee.TermsFall` | evm-common/src/block.rs:95-99 | Terms fall strictly once denominator times i has passed the factor. |
| `BlobFee.LargestFactorNeverEnds` | evm-common/src/block.rs:95-99 | With the largest u128 factor no term ever reaches zero. |
| `BlobFee.SeriesMonotone` | evm-common/src/block.rs:90-101 | The series never falls when the factor rises. |
| `BlobFee.BlobGasPrice` | evm-common/src/block.rs:75-85 | The price is at least 1 and is the expansion for the update fraction 3338477; the shortcut for no excess agrees with it. |
| `BlobFee.PriceMonotone` | evm-common/src/block.rs:75-85 | More excess blob gas never costs less. |
| `Rlp.CreateBuffer` | evm-common/src/address.rs:40-74 | For every 256-bit nonce the buffer is the short-form RLP list of address and minimal nonce (Appendix B of the Yellow Paper), and a decoder recovers both. |
| `Rlp.DecodeInvertsEncode` | evm-common/src/address.rs:40-74 | Decoding the encoding of any pair gives the pair back. |
| `Rlp.BuffersAreDistinct` | evm-common/src/address.rs:40-74 | Distinct pairs give distinct buffers. |
| `Rlp.DecodeIsCanonical` | evm-common/src/address.rs:40-74 | Every buffer the decoder accepts is the encoding of what it returns. |
| `Numerals.StripIsMinimal` | evm-common/src/address.rs:41-45 | Dropping leading zeros of the 32-byte form leaves the shortest form of the number. |
| `Numerals.MinimalIsUnique` | evm-common/src/address.rs:41-45 | A byte string without a leading zero is the shortest form of what it spells. |
| `HexCodec.DecodeHex` | evm-common/src/lib.rs:72-111 | Parsing fails exactly when there are too many digits or a non-digit, and otherwise the bytes spell the digits' base-16 value, for odd and even counts, with or without 0x; no index leaves its range. |
| `HexCodec.Deserialize` | evm-common/src/word.rs:334-348 | Reading a word parses what is left after all 0x prefixes. |
| `HexCodec.WordRoundTrip` | evm-common/src/word.rs:317-348 | Reading what was printed returns the word, for every 256-bit word. |
| `HexCodec.EncodeHexValue` | evm-common/src/word.rs:322-325 | The printed digits spell the number the bytes spell. |

## Left out

- Values on the stack and in memory: only their lengths are modelled; arithmetic, bitwise, hashing and block-environment opcodes appear with their gas and stack effect and arbitrary results.
- Precompile bodies (src/precompiles.rs): an arbitrary result and an arbitrary cost of at least -1.
- Word width: words, gas and nonces are unbounded; conversions to machine integers are taken to fit, and only `fake_exponential` models its u128 arithmetic.
- BlobFee.FakeExponential: the loop counter is unbounded, where the source's is a u128.
- Rust panics: CREATE with too little gas, slicing past the end of memory and MULMOD by zero end the model as `Panic` or `Crashed`, after which nothing is promised.
- The remote: a total function of address and slot; failing requests are not modelled, and running without a remote only in `State.OriginalTrustedIff` and the lemmas beside it.
- Undo of marked cells: the code does not restore them; the lemmas named with each mark above say exactly when it does.
- Machine.Ext.Reset: does not drop the accounts that SELFDESTRUCT listed, because the model stays within one transaction.
- Machine.Ext.Put: the tracing build also reads the slot after writing it; every SSTORE has read it before, so the read changes nothing.
- Transaction.Execute: requires a gas limit that covers the intrinsic cost; below it the source opens a frame with a negative limit.
- Transaction.ApplyCall: covers the branch for a call; the deployment branch (src/solenoid.rs:313-425) is not part of this model.
- Blob fee charging in `execute`: the source computes it and charges nothing.
- Code hashes, storage roots, log contents, traces and debug output: not part of the model.
- `create2` addresses and all hashing: a created address is arbitrary.
- eth.rs, the proxy, the tracer wrapper, the web demo and the allocator: clients and drivers without a claim of their own here.
