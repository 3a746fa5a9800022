# ABS node: verified models of its hard core

This project models, in Dafny, the parts of the ABS blockchain node where state,
arithmetic and message order interact, and proves what they keep over every run:

* the **EVM interpreter** (`evm_interpreter.py`): about ninety opcodes with their own operand
  orders, gas, zero-extended memory, storage with rollback, jumps through a jump table, and the
  hybrid loop that alternates bulk segments of a kernel with single Python steps;
* **cross-shard transfers** (`dynamic_sharding.py`) on a network of one node per shard, with
  duplicated, reordered and lost gossip, and the quorum coordinator;
* **Casper-style finality** (`finality_engine.py`);
* the **mempool** (`blockchain/mempool.py`), its batch path and its eviction;
* the **delivery cursors** of polling filters and WebSocket subscriptions (`api/eth_filters.py`,
  `api/eth_ws_subscriptions.py`);
* the **bridge** ledger and its bounded proof queue (`bridge/abs_bridge.py`, `storage/database.py`);
* **satoshi replay** and validation (`blockchain/immutable_state.py`, `blockchain/tx_validator.py`)
  and the readiness quorum of `api/http.py`.

## How it is built

Code that changes an object step by step is a class whose methods assign its fields, with loops
where the program has loops. Each such method is proved equal to a function on values
(`Value()` or `Snap()` gives the value of the object), and the theorems about runs are about those
functions. The methods and the functions are in one file per component. The other files of a
component hold its theorems: what each step does to a state written out in raw terms, apart from those
functions (`EvmEffects`, `ShardDelivers`, `ShardVotes`, `FinalityVotes`, `MempoolStays`, `FilterLives`,
`WsDelivery`, `BridgeLocks`), and what holds over whole runs.

| files | component |
|---|---|
| `Words`, `Alu`, `Memory`, `Jumpdest`, `Evm`, `EvmLaws`, `EvmEffects`, `EvmRuns`, `Hybrid`, `KernelCode`, `Interpreter` | EVM interpreter |
| `Sharding`, `ShardNet`, `ShardDelivers`, `ShardVotes`, `ShardAcks`, `ShardConfirms`, `ShardIds` | cross-shard transfers |
| `Finality`, `FinalityVotes` | finality engine |
| `FeeOrder`, `Mempool`, `MempoolRuns`, `MempoolStays` | mempool |
| `Filters`, `FilterRuns`, `FilterLives`, `WsSubs`, `WsDelivery` | delivery cursors |
| `L1Queue`, `IncomingEntries`, `Bridge`, `BridgeRuns`, `BridgeLocks`, `BridgeAliases` | bridge |
| `StateReplay`, `Readiness` | replay and readiness |
| `Wrappers`, `Collections`, `Text`, `Sums`, `Money` | options, sets, strings, sums of maps, satoshi |

`dafny verify dfyconfig.toml` checks everything.

## Results that say no

Some properties one would expect hold only under a condition, which is proved exact or shown to be
needed by a concrete input:

* An execution that runs natively first does not always refine stepping one opcode at a time. If the
  long native run hands back and a later segment uses up its step cap exactly at the end of the code,
  the loop fetches past the end and raises: 10 008 192 JUMPDESTs with gas for them do it
  (`NativeHandoffAtEndRaises`). `NativeFirstAgreesExactly` gives the condition as an equivalence for
  every code, kernel and gas limit, and `NativeFirstByNumber` as a remainder on code without host
  opcodes. For the loop by itself, without the native run, 8192 JUMPDESTs are enough
  (`HandoffAtEndRaises`), with the conditions `HybridAgreesExactly` and `AgreeExactly`.
* On empty code the native run reports failure where plain stepping reports success
  (`EmptyCodeDisagrees`).
* A batch and one-by-one submission to the mempool agree for all pools exactly when the configured
  chain id and the id used for a single check verify alike (`BatchAgreesExactly`); any chain id but 0
  is enough (`BatchAgrees`), and with 0 they part on any transaction whose signature the two ids judge
  differently (`ChainZeroDisagrees`, `ChainZeroInput`). The pool's rejection counter differs by the
  badly signed duplicates (`RejectedDiffers`).
* A quorum completed after its epoch has left the window does not finalize the epoch
  (`LateQuorumMisses`), and neither does any later run with non-decreasing block epochs and no
  explicit finalization (`LateStaysOut`, `LateQuorumIsNeverFinalized`). A block of an older epoch moves
  the window back and does finalize it (`OlderBlockReopensWindow`). Over any run
  `FinalizedExactly` says which epochs are finalized; over rising runs `ExactBelowExactly` says that the
  epochs behind the window are exact if and only if no attestation was late.
* The same transfer submitted twice has the same id, is debited twice and credited once
  (`SameRequestTwice`). `RepeatedIdsLose` gives the books over every run: what the repeated debits
  took is lost, and nothing else.
* The bridge pays a source event, that is a chain, a transaction and a log index, once for every name
  of its chain that it arrives under and that the verifier lets pass. The replay key has the name as the
  caller spells it, while "eth" and "ethereum", like the other pairs of `CHAIN_ALIASES`, are one chain to
  the bridge, and "matic" and "polygon" to its verifier (`EthThenEthereum`, `PolygonThenMatic`).
  `PaidAgainExactly` says when a second arrival is paid again and `PaidNextExactly` when any arrival is
  paid after any run. `PaidAtMostOnceExactly` says for any verifier that an event is paid at most once in
  every run if and only if the requests for it that pass have one spelling: in the simulator, if and only
  if its chain has a single name (`SimulatorExactly`); with the Rust verifier, which knows two names or
  more for each chain it can reach, if and only if it is never paid (`RustExactly`). Under one spelling
  nothing is paid twice (`OncePerSpelling`). The log index is whatever the caller sends, and the verifier
  never sees it: a transaction is paid again under every other index (`IndexPaysAgain`,
  `PolygonTwoIndexes`).
* Bridge locks under a hash already in the table overwrite the record, and its amount is nowhere
  (`TwoLocksOneHash`). `SheetOverRun` accounts for it, and `ConservationExactly` says that the ledger
  equation holds if and only if only unburned fees were taken, that is, if and only if the records
  overwritten come to the refunds.
* A transfer confirmed at its source need not have been credited. One invented acknowledgement confirms
  it at a node without a coordinator (`InventedAckConfirms`), and also at a node as it is usually built,
  with a coordinator that has no committees (`InventedAckCompletes`, `DebitThenInvented`). Over every run,
  with any coordinators and any acknowledgements, what is confirmed was credited all along if and only if
  no step confirmed what was not (`AlwaysPaidExactly`, and `InventedAckExactly` for one acknowledgement).
  Where no committees are loaded and the acknowledgements that count were sent, what is confirmed was
  credited (`ConfirmedWasCredited`); if only some nodes have a coordinator, votes passed around must not
  count (`SentVoteConfirms`). With committees a quorum of votes is taken for the credit
  (`ConfirmedByQuorum`).
* An incoming bridge proof is displaced by either of two keys, so one call can displace two and make
  room; an entry dropped before, when 500 stood behind it, does not come back to it (`RoomStaysEmpty`).
  `IncomingExactly` says which entries the queue holds after any calls.
* Applying a transaction moves no nonce (`NoncesStay`), so the nonce check does not tell an applied
  transaction from a new one: it validates again exactly while the balance covers it
  (`ValidAgainExactly`).
* MCOPY pays its base price twice (`MCopyPaysTwice`).
* `validate` falls back to `value` when `amount` is missing and `apply_transaction` does not;
  `CheckedIsAppliedExactly` says when the two amounts are the same.
* The EXP opcode of this interpreter gives 0, not 1, for 0 to the power 0 (`ExpSpec`).

## Model

| member | source | states |
|---|---|---|
| Alu.Exp | crypto/native.py:776-791 | the square-and-multiply loop computes base to the exponent modulo 2^256, with 0 to the 0 being 0 |
| Alu.SignedDivMod | crypto/native.py:730-751 | SDIV and SMOD truncate: the remainder is below the divisor, has the sign of the dividend, and with the quotient recomposes it exactly, but for the one overflow, whose value is given |
| Alu.SarIsFloorDivision | crypto/native.py:625-635 | an arithmetic shift right by any amount is floor division of the signed value by a power of two |
| Memory.CopyLoop | crypto/native.py:1881-1892 | the byte loop over a buffer writes the part of the window that lies in the buffer, zero-filled past the source, for every window |
| Memory.WriteWordWindow | evm_interpreter.py:118-124 | a word write changes its 32-byte window, big-endian, and zero-fills the gap, nothing else |
| Memory.ReadAfterWrite | evm_interpreter.py:118-124 | a word read where it was written is the word, at any offset |
| Memory.ReadAfterDisjointWrite | evm_interpreter.py:118-124 | a word write does not disturb a word read elsewhere |
| Memory.CopyWithinIsMemmove | evm_interpreter.py:615-624 | MCOPY is memmove for every overlap of the two windows |
| Memory.CopyInWindow | evm_interpreter.py:471-480 | the four copy instructions put source bytes, or zeros past the source, in the window and leave the rest |
| Words.BytesRoundTrip | crypto/native.py:512-517 | writing a number big-endian in n bytes and reading it back gives it modulo 256^n |
| Jumpdest.BuildJumpdestTable | crypto/native.py:843-856 | the packed bit table marks exactly the valid jump destinations of section 9.4.3 of the Ethereum Yellow Paper |
| Jumpdest.ValidDestsAreStarts | crypto/native.py:843-868 | a valid destination is a JUMPDEST byte that the walk over instructions reaches |
| Jumpdest.WalkSkips | evm_interpreter.py:371-374 | no position inside the immediate bytes of a reached PUSH is itself reached |
| EvmLaws.SwapTwice | evm_interpreter.py:635-637 | SWAPn SWAPn is no operation but for pc and gas, for all sixteen n |
| EvmLaws.DupThenPop | evm_interpreter.py:632-634 | DUPn POP is no operation but for pc and gas, for all sixteen n |
| EvmLaws.SubThenAdd | evm_interpreter.py:375-381 | subtracting and adding back gives the top word again: fixes the operand order of SUB |
| EvmLaws.StoreThenLoadKey | evm_interpreter.py:579-614 | a stored word is loaded back from storage and transient storage, other keys read as before, a zero is not kept |
| EvmLaws.MCopyPaysTwice | evm_interpreter.py:615-624 | MCOPY costs 6 and 3 a word, because the charge in its body names the opcode again; it runs out of gas exactly when that exceeds what remains, and copies as memmove otherwise |
| EvmLaws.PushReadsNumber | evm_interpreter.py:371-374 | PUSHn pushes the number whose n big-endian bytes follow and moves past them |
| EvmLaws.JumpExactly | evm_interpreter.py:589-594 | a JUMP succeeds exactly on the valid destinations of the Yellow Paper and raises otherwise |
| EvmLaws.DivModRecompose | evm_interpreter.py:382-390 | DIV and MOD of one pair recompose the first popped word |
| EvmLaws.SignedOrder | evm_interpreter.py:415-431 | opcodes 0x18 and 0x13 order the signed values; exactly one of less, greater, equal answers 1 |
| EvmLaws.UnsignedOrder | evm_interpreter.py:418-428 | opcodes 0x16 and 0x17 are converse strict orders, and with EQ exactly one answers 1 |
| EvmLaws.ByteIsStoredByte | evm_interpreter.py:434-436 | BYTE i of a word is the byte MSTORE would put at offset i |
| EvmLaws.LogicBits | evm_interpreter.py:406-414 | AND, OR and XOR work bit by bit on every bit position |
| EvmLaws.SignExtendValue | crypto/native.py:794-806 | SIGNEXTEND gives the two's complement value of the low bytes, and the word itself from index 31 on |
| EvmLaws.CallNeverOverdraws | evm_interpreter.py:159-194 | whatever a callee reports, a nested call charges at most its plan and never exceeds the gas limit |
| EvmLaws.CreateOverdrawsExactly | evm_interpreter.py:196-208 | a creation runs out of gas exactly when its init code reports more than what remains |
| EvmEffects.JumpIfExactly | evm_interpreter.py:595-601 | JUMPI goes to the top word exactly when the word below is not zero, and then only to a valid destination; with zero it moves to the next byte, both words gone |
| EvmEffects.ReturnsWindow | evm_interpreter.py:695-707 | RETURN and REVERT end with the bytes of the window whose offset is on top and whose size is below, zeros past the end; REVERT alone marks the execution reverted |
| EvmEffects.SelfDestructs | evm_interpreter.py:710-714 | SELFDESTRUCT gives the host the 160 low bits of the top word and ends the execution |
| EvmEffects.AddressSpan | evm_interpreter.py:132-134 | an address is the 160 low bits of a word |
| EvmEffects.Logs | evm_interpreter.py:518-532 | the topics of LOGn are the n top words in the order they were pushed, below them size and offset; the whole price, the window and what the callback is told |
| EvmEffects.CallLeaves | evm_interpreter.py:159-194 | for all four calls: which word is which operand, what the host is asked, 1 exactly on success without revert, the capped charge, the return window, and storage taken over by CALLCODE and DELEGATECALL only |
| EvmEffects.CallWithoutHost | evm_interpreter.py:159-164 | without a callback a call pushes 0 and empties the return data |
| EvmEffects.CreateLeaves | evm_interpreter.py:196-208 | CREATE and CREATE2: the operands with size above offset, the salt on top, the uncapped charge, the address or 0 |
| EvmEffects.UnsignedArithmetic | evm_interpreter.py:375-399 | ADD, MUL, SUB, DIV, MOD, ADDMOD, MULMOD, ISZERO and NOT of the words on the stack in integers, with the modulus on top |
| EvmEffects.SignedAndPowers | evm_interpreter.py:385-445 | SDIV, SMOD, EXP, SIGNEXTEND and the shifts take the divisor, the base and the word shifted from below the top |
| EvmEffects.LogicOnStack | evm_interpreter.py:406-414 | opcodes 0x10 to 0x12 are AND, OR and XOR of the two top words |
| EvmEffects.OrderOnStack | evm_interpreter.py:415-431 | opcodes 0x13 to 0x18 compare the top word with the one below |
| EvmEffects.ByteOnStack | evm_interpreter.py:434-436 | BYTE counts from the most significant byte of the word below the index |
| EvmEffects.StackWords | evm_interpreter.py:567-637 | POP, DUPn and SWAPn on a stack written out word by word |
| EvmEffects.ContextWords | evm_interpreter.py:451-631 | each opcode without operands tells its own field of the context, the execution or itself |
| EvmEffects.QueriesTopWord | evm_interpreter.py:453-538 | BALANCE, EXTCODESIZE and BLOCKHASH ask the callback for the top word and push its answer, or 0 without a callback |
| EvmEffects.AsksOwnBalance | evm_interpreter.py:551-555 | SELFBALANCE asks for the executing address |
| EvmEffects.AsksCodeHash | evm_interpreter.py:483-493 | EXTCODEHASH asks for the size and then for that much code, and pushes its digest |
| EvmEffects.LooksUpTopWord | evm_interpreter.py:466-468 | CALLDATALOAD and BLOBHASH look the top word up, with zeros past the end |
| EvmEffects.LoadsWord | evm_interpreter.py:118-121 | MLOAD pushes the 32 bytes at the offset as a number and grows the memory to hold them |
| EvmEffects.WritesMemory | evm_interpreter.py:572-578 | MSTORE and MSTORE8 write the word below the offset, or its last byte, and nothing else |
| EvmEffects.HashesWindow | evm_interpreter.py:446-450 | SHA3 hashes the window whose offset is on top and whose size is below |
| EvmEffects.CopiesWindow | evm_interpreter.py:471-499 | CALLDATACOPY, CODECOPY and RETURNDATACOPY: destination on top, then offset, then size |
| EvmEffects.CopiesForeignCode | evm_interpreter.py:507-517 | EXTCODECOPY in its own operand order, what the host is asked and where its answer goes |
| EvmEffects.CopiesWithin | evm_interpreter.py:615-624 | MCOPY: size on top, then source, then destination; the bytes are those held before, and both windows exist afterwards |
| EvmEffects.LoadsKey | evm_interpreter.py:579-608 | SLOAD and TLOAD push the word under the key, 0 if there is none, each from its own store |
| EvmEffects.StoresKey | evm_interpreter.py:582-614 | SSTORE and TSTORE keep the word below the key under it, a zero by removing the entry |
| EvmEffects.PlainEnds | evm_interpreter.py:367-370 | STOP ends, JUMPDEST goes on for one gas, INVALID raises |
| EvmEffects.UnsupportedRaises | evm_interpreter.py:715-717 | every byte that is no opcode of the map raises |
| EvmEffects.UnderflowExactly | evm_interpreter.py:108-111 | a turn with its price raises an underflow exactly when the stack holds fewer words than the opcode needs, and what is left then |
| EvmRuns.StepBoundary | evm_interpreter.py:371-374 | one turn leads from an instruction start to an instruction start or past the end |
| EvmRuns.ReachableInv | evm_interpreter.py:351-719 | in every reachable state the pc is an instruction start or past the end, stack and storage hold words, storage keeps no zero, gas and memory only grew, gas is within the limit |
| EvmRuns.RunFromStart | evm_interpreter.py:322-731 | the same for whole executions from any well-formed storage |
| EvmRuns.RunWithinGas | evm_interpreter.py:99-103 | every run ends within gasLimit - gasUsed + 1 turns, whatever jumps and callbacks do |
| EvmRuns.TraceWithinGas | evm_interpreter.py:361-365 | the trace has at most one entry more than the gas spent |
| EvmRuns.TraceTells | evm_interpreter.py:361-365 | the trace has an entry for every turn whose base price was there, in order, with the pc, the opcode and the depth of the stack before it, and ends where the run does |
| EvmRuns.OnlyStoresSurvive | evm_interpreter.py:322-331 | an execution starts at the first byte with nothing on the stack and no gas used, and sees of those before it only memory, the two stores and the number of callbacks |
| EvmRuns.RunAfterSteps | evm_interpreter.py:351-719 | stopping after any number of turns and going on is the same run |
| EvmRuns.StoreThenLoad | evm_interpreter.py:569-574 | DUP2 DUP2 MSTORE MLOAD gives the word back from memory, from any state |
| Hybrid.SegmentSound | evm_interpreter.py:213-281 | what a bulk segment reports is a correct prefix, end or error of the plain run |
| Hybrid.HybridRefines | evm_interpreter.py:351-370 | the hybrid loop ends in the same state with the same error as plain stepping, or raises past the end in the state where plain stepping ends |
| Hybrid.HybridAgreesExactly | evm_interpreter.py:351-370 | for every code, host opcodes included, and every kernel that may hand back, the loop agrees with plain stepping if and only if the plain run does not fall off the end with the segment counter at its cap |
| Hybrid.AgreeExactly | evm_interpreter.py:351-370 | the same condition as a remainder of the number of turns, on code without host opcodes |
| Hybrid.SmallLimitAgrees | evm_interpreter.py:262-281 | a gas budget below the step cap makes the two loops agree on any code |
| Hybrid.HandoffAtEndRaises | evm_interpreter.py:262-281 | the loop by itself on 8192 JUMPDESTs: plain stepping succeeds, the hybrid loop raises |
| Hybrid.NativeFirstRefines | evm_interpreter.py:240-260 | starting with the long native run refines plain stepping on non-empty code, with the same exception |
| Hybrid.NativeFirstAgrees | evm_interpreter.py:240-260 | with a gas limit below the long cap there is no exception |
| Hybrid.NativeFirstAgreesExactly | evm_interpreter.py:334-370 | a whole execution agrees with plain stepping if and only if the code is not empty and the run does not, after the turns of the native run, fall off the end with the segment counter at its cap |
| Hybrid.NativeRequiredExactly | evm_interpreter.py:334-351 | where hand-backs are forbidden, it agrees if and only if the code is not empty and the plain run ends within the turns of the native run |
| Hybrid.NativeFirstByNumber | evm_interpreter.py:334-370 | the condition as a number on code without host opcodes: the turns left after the native run, modulo one round of the loop |
| Hybrid.NativeHandoffAtEndRaises | evm_interpreter.py:334-370 | 10 008 192 JUMPDESTs with gas for them: plain stepping succeeds, the whole execution raises |
| KernelCode.SegmentIsRight | native/abs_native/src/evm_pure_runner.rs:2140-2766 | a kernel with any steps of its own, right on the opcodes that are instructions of the code, runs the segment of interpreted steps and stops at an instruction |
| KernelCode.KernelRunIsRight | evm_interpreter.py:351-370 | over such a kernel the hybrid loop ends, as the loop with interpreted segments does |
| KernelCode.KernelAgreesExactly | evm_interpreter.py:334-370 | over such a kernel a whole execution agrees with plain stepping under the same exact condition |
| Hybrid.EmptyCodeDisagrees | evm_interpreter.py:334-346 | on empty code plain stepping reports success and the native run does not |
| Hybrid.SuccessExactly | evm_interpreter.py:335-346 | a finished execution reports success exactly when it fell off the end, or halted unreverted with return data or a word on the stack |
| Interpreter.EVM.ConsumeGas | evm_interpreter.py:99-103 | charges, or raises with the gas unchanged |
| Interpreter.EVM.Push | evm_interpreter.py:105-107 | appends the value modulo 2^256 |
| Interpreter.EVM.Pop | evm_interpreter.py:108-111 | takes the last word or raises underflow |
| Interpreter.EVM.DoAlu | evm_interpreter.py:375-445 | the arithmetic branches do in place what ExecAlu says, with the interpreter's own 0x10-0x1A map |
| Interpreter.EVM.DoStack | evm_interpreter.py:567-637 | POP, DUP and SWAP on the list |
| Interpreter.EVM.DoEnv | evm_interpreter.py:451-566 | environment queries through host callbacks that may raise |
| Interpreter.EVM.DoMemory | evm_interpreter.py:446-578 | loads, stores, hashing and copies on the byte list |
| Interpreter.EVM.DoStorage | evm_interpreter.py:579-614 | storage through the dict object, transient storage beside it |
| Interpreter.EVM.DoControl | evm_interpreter.py:589-717 | jumps through the packed table, RETURN, REVERT, SELFDESTRUCT |
| Interpreter.EVM.DoLog | evm_interpreter.py:518-532 | topics, size and offset in the interpreter's own order, charged after the pops |
| Interpreter.EVM.DoCall | evm_interpreter.py:649-694 | the four calls: arguments, planned gas, capped charge, rebinding of storage, return window |
| Interpreter.EVM.DoCreate | evm_interpreter.py:638-648 | CREATE and CREATE2 with their own operand order and uncapped charge |
| Interpreter.EVM.Turn | evm_interpreter.py:361-719 | one turn of the loop is Step |
| Interpreter.EVM.Loop | evm_interpreter.py:351-719 | the while loop, with or without the kernel, is Run or HybridRun, with the exact trace, and terminates |
| Interpreter.EVM.ExecuteBytecode | evm_interpreter.py:292-346 | after any exception or revert the storage holds exactly its entry contents, even when a call rebound it to another dict |
| Interpreter.EVM.RunUntilHalt | evm_interpreter.py:240-260 | the native run and its hand-back |
| Sharding.ShardingManager.Add | dynamic_sharding.py:199-257 | records, debits, acknowledges and gossips a transfer, or fails it, or refuses a foreign sender |
| Sharding.ShardingManager.Debit | dynamic_sharding.py:259-263 | debits in the database exactly when the transfer is covered |
| Sharding.ShardingManager.Credit | dynamic_sharding.py:289-329 | credits once, reports a confirmed transfer as accepted, refuses what is malformed or not for this shard |
| Sharding.ShardingManager.AcceptAck | dynamic_sharding.py:331-370 | records and relays votes, and confirms at the source on a quorum |
| Sharding.ShardingManager.GossipValidatorAck | dynamic_sharding.py:94-103 | gossips an own acknowledgement once per key |
| Sharding.ShardingManager.RelayValidatorAck | dynamic_sharding.py:105-114 | relays an acknowledgement once per key |
| Sharding.ShardingManager.Process | dynamic_sharding.py:372-379 | gossips every debited pending transfer again |
| Sharding.Database.UpdateBalance | storage/database.py:1500-1528 | changes one balance by whole satoshi, never below zero |
| ShardNet.DebitIsExact | dynamic_sharding.py:259-263 | a covered debit takes exactly the satoshi of the amount; the clamp at zero never acts |
| ShardNet.Conservation | dynamic_sharding.py:199-329 | in every run with fresh ids, under duplicated, reordered or lost gossip, all balances plus the debited and not yet credited amounts are constant |
| ShardNet.TotalOverRun | dynamic_sharding.py:199-329 | in every run whose submissions are fresh or repeat a debited transfer, they change by exactly what the repeated debits took |
| ShardNet.CreditedAtMostOnce | dynamic_sharding.py:299-324 | every id is credited at most once, to its recipient, for exactly the debited amount, repeated submissions included |
| ShardNet.AllDelivered | dynamic_sharding.py:289-329 | once everything debited is credited, the balances alone add up to the start, less what repeated debits took |
| ShardIds.RepeatedIdsLose | dynamic_sharding.py:199-257 | over every run in which the id hash tells different transfers apart, whatever is submitted again and wherever: the total is the start less the repeated debits, so money is conserved if and only if they come to nothing |
| ShardIds.RepeatedIdLoses | dynamic_sharding.py:218-253 | one debiting submission keeps the total if and only if its id was not debited before (or moves no satoshi) |
| ShardIds.SameRequestTwice | dynamic_sharding.py:218-253 | one coin of two sent twice under one request: a coin is lost |
| ShardDelivers.SubmitExactly | dynamic_sharding.py:199-257 | a transfer to another shard is debited, listed and sent exactly when the sender can pay; otherwise it is on record as failed and no balance moves |
| ShardDelivers.SubmitElse | dynamic_sharding.py:206-216 | a foreign sender is refused and a transfer within the shard listed |
| ShardDelivers.DeliveryExactly | dynamic_sharding.py:289-329 | a delivered transfer reaches its recipient, and is on record as confirmed, exactly when it is for this shard, well formed and not confirmed here yet |
| ShardDelivers.AcceptedExactly | dynamic_sharding.py:289-329 | a delivery is accepted, and acknowledged to the peer, exactly when the transfer is for this shard and was credited, now or before |
| ShardDelivers.RetrySends | dynamic_sharding.py:372-379 | whatever is pending and debited is sent again in every round |
| ShardDelivers.UnconfirmedIsResent | dynamic_sharding.py:372-379 | after any run, whatever is debited and unconfirmed at its source is sent again in the next round |
| ShardDelivers.DebitedCanBeDelivered | dynamic_sharding.py:250-329 | after any run, whatever was debited at a node that gossips can be delivered, and if it was not credited before, that puts its satoshi in the recipient's account |
| ShardDelivers.EverythingCanBeDelivered | dynamic_sharding.py:199-329 | from every reachable state deliveries alone lead to one in which everything debited is credited and the balances add up to the start, less what repeated debits took |
| ShardDelivers.DeliveryThenAckConfirms | dynamic_sharding.py:289-370 | without a coordinator at its source a debited transfer is confirmed there in two steps, its delivery and the acknowledgement that comes back |
| ShardAcks.FloodingIsBounded | dynamic_sharding.py:94-114 | N nodes gossip at most 2 * N * K acknowledgements for K keys in any run, whatever ids are used again |
| ShardAcks.GossipSpends | dynamic_sharding.py:94-138 | each gossiped acknowledgement takes one from the (node, key) pairs still unspent |
| ShardAcks.AtMostTwicePerKey | dynamic_sharding.py:331-355 | a node gossips one key at most twice in any run, however often it is delivered |
| ShardAcks.ConfirmedByQuorum | consensus/cross_shard_coordinator.py:91-133 | an acknowledgement confirms a transfer at its source only when two thirds of the committees of both shards have voted, all of them members |
| ShardVotes.VoteConfirmsExactly | consensus/cross_shard_coordinator.py:91-133 | a new vote confirms a transfer at its source if and only if with it two thirds of both committees have voted; otherwise exactly that vote is added |
| ShardVotes.AckConfirmsExactly | consensus/cross_shard_coordinator.py:124-133 | without committees an acknowledgement that names no validator confirms a transfer exactly when with its shard all that the transfer needs are marked |
| ShardVotes.VoteIgnored | consensus/cross_shard_coordinator.py:107-122 | a vote without a name, for what is not concerned, or from outside the committee changes nothing |
| ShardVotes.VoteMarks | consensus/cross_shard_coordinator.py:107-122 | a vote marks its shard exactly when with it two thirds of the committee have voted |
| ShardVotes.Begins | consensus/cross_shard_coordinator.py:85-89 | a transfer that begins needs both shards and has no votes, and other transfers keep theirs |
| ShardVotes.Clears | consensus/cross_shard_coordinator.py:164-168 | a settled transfer is forgotten and no other |
| ShardVotes.ConfirmationClears | dynamic_sharding.py:356-364 | a confirmed transfer leaves the coordinator and the pending list |
| ShardVotes.PlainAckConfirms | dynamic_sharding.py:365-369 | without a coordinator an acknowledgement confirms the transfer at its source and does nothing elsewhere |
| ShardVotes.OthersAreRefused | dynamic_sharding.py:331-347 | an acknowledgement for a transfer not on record, or of two other shards, changes nothing |
| ShardVotes.DebitSendsVote | dynamic_sharding.py:117-138 | a node whose shard has a committee sends its own vote with a debit |
| ShardVotes.CreditSendsVote | dynamic_sharding.py:117-138 | and with a credit |
| ShardVotes.VoteIsRelayed | dynamic_sharding.py:105-114 | a vote is passed on once by every node with a coordinator that knows the transfer |
| ShardConfirms.StepPaidExactly | dynamic_sharding.py:331-370 | one step, any coordinators and acknowledgements: what is confirmed at its source was credited afterwards if and only if the step did not confirm a transfer that was not |
| ShardConfirms.AlwaysPaidExactly | dynamic_sharding.py:331-370 | over every run, what is confirmed was credited all along if and only if no step confirmed what was not |
| ShardConfirms.ConfirmedWasCredited | dynamic_sharding.py:331-370 | after any run of nodes with or without coordinators, no committees loaded, in which the acknowledgements that count were sent: a transfer confirmed at its source was debited, and its recipient credited with the debited amount |
| ShardConfirms.InventedAckExactly | dynamic_sharding.py:365-369 | without a coordinator one acknowledgement is harmless if and only if the node does not own the transfer or the transfer was credited |
| ShardConfirms.InventedAckConfirms | dynamic_sharding.py:365-369 | there an acknowledgement nobody sent confirms any transfer the node has on record as its own, and credits nobody |
| ShardConfirms.InventedAckCompletes | consensus/cross_shard_coordinator.py:124-133 | in a coordinator without committees an acknowledgement without a validator stands for the other shard and confirms a transfer that waits for it |
| ShardConfirms.DebitThenInvented | dynamic_sharding.py:356-364 | from any reachable state: a debit and then such an acknowledgement leave a transfer confirmed and nobody credited |
| ShardConfirms.SentVoteConfirms | dynamic_sharding.py:130-138 | where only some nodes have a coordinator, a vote gossiped by one of them confirms a transfer at a node that has none |
| Finality.FinalityEngine.Create | finality_engine.py:48-53 | keeps the first hash of an epoch |
| Finality.FinalityEngine.Attest | finality_engine.py:55-86 | counts a voter once and justifies on two thirds |
| Finality.FinalityEngine.FinalizeEpoch | finality_engine.py:88-122 | finalizes an epoch justified together with the one before |
| Finality.FinalityEngine.Process | finality_engine.py:124-144 | checkpoint, proposer vote and the loop over the window |
| Finality.ReplayKeeps | finality_engine.py:48-144 | over any run: votes equal distinct voters, lists agree with flags without duplicates, hashes never change, votes and flags only grow |
| Finality.StatusNeverGoesBack | finality_engine.py:146-160 | the status of an epoch only moves pending, justified, finalized |
| Finality.AccountableSafety | finality_engine.py:55-122 | replicas that justify or finalize different hashes for an epoch share at least n/3 voters, each with a vote for both hashes in the two runs |
| Finality.WindowExact | finality_engine.py:132-136 | after any block the epochs of its window are finalized exactly when they and their predecessors are justified |
| Finality.FinalizationExact | finality_engine.py:124-144 | in timely runs the finalized set is exactly the epochs justified together with the one before |
| Finality.FinalizedExactly | finality_engine.py:88-144 | over any run an epoch is finalized if and only if it was at the start or, at some block whose window holds it or at an explicit finalization, it and its predecessor were justified |
| FinalityVotes.VotesExactly | finality_engine.py:48-64 | after any run the votes held for an epoch are, each once, those of the validators who voted for its hash once it had one, and the hash is that of its first block or checkpoint |
| FinalityVotes.JustifiedExactly | finality_engine.py:55-86 | over any run, whatever the validator counts, an epoch is justified if and only if after some vote for it at least two thirds of the validators active then had voted for it |
| FinalityVotes.JustifiedByTwoThirds | finality_engine.py:55-86 | with a constant count: if and only if two thirds have voted for it |
| FinalityVotes.FinalizedByTwoThirds | finality_engine.py:88-144 | finalization from the events alone: if and only if two thirds had voted for the epoch and the one before when it was finalized by hand or a block came whose window holds it |
| FinalityVotes.StatusByTwoThirds | finality_engine.py:146-160 | the reported status, in the same terms |
| Finality.BlockExactExactly | finality_engine.py:124-144 | after a block the finalized set is exact if and only if it was exact outside the window, the block's own vote counted |
| Finality.LateStaysOut | finality_engine.py:132-136 | while block epochs do not decrease and nothing is finalized explicitly, an epoch behind the window that is not finalized stays so |
| Finality.ExactBelowExactly | finality_engine.py:55-144 | over rising runs the epochs behind the window are finalized exactly when justified with their predecessors if and only if no attestation was late |
| Finality.ExactAfterBlockExactly | finality_engine.py:55-144 | after a rising run that ends with a block the whole finalized set is exact if and only if none was late and no pair is justified ahead |
| Finality.LateQuorumMisses | finality_engine.py:132-136 | a concrete run in which a late quorum justifies an epoch and its predecessor is justified, and the epoch is not finalized |
| Finality.OlderBlockReopensWindow | finality_engine.py:132-136 | a block of an older epoch after that run finalizes it |
| Finality.LateQuorumIsNeverFinalized | finality_engine.py:132-136 | no rising continuation of that run finalizes the epoch |
| FeeOrder.SortedSorts | blockchain/mempool.py:282-286 | the stable sort by fee is ordered and a permutation |
| FeeOrder.CheapestDropped | blockchain/mempool.py:343-350 | dropping the k cheapest leaves the descending fee order as a prefix |
| MempoolStays.SortedIsStable | blockchain/mempool.py:282-286 | transactions of one fee keep their order of arrival in the sort, in either direction |
| Mempool.Mempool.Add | blockchain/mempool.py:150-201 | all checks in order, the rejection counter, eviction when full, insertion |
| Mempool.Mempool.VerifySignaturesBatch | blockchain/mempool.py:203-230 | the flags written back through the index list are the flags of each transaction |
| Mempool.Mempool.AddBatch | blockchain/mempool.py:232-265 | signatures first, then insertion, with counts and accepted hashes |
| Mempool.Mempool.AddRaw | blockchain/mempool.py:267-277 | insertion without address checks |
| Mempool.Mempool.Get | blockchain/mempool.py:279-287 | filters and limits the descending order |
| Mempool.Mempool.Remove | blockchain/mempool.py:312-315 | removes the entry under the hash |
| Mempool.Mempool.Cleanup | blockchain/mempool.py:343-350 | removes the cheapest tenth |
| MempoolRuns.BatchAgreesExactly | blockchain/mempool.py:50-74 | batch and one-by-one submission have the same effect on every pool and batch if and only if the two chain ids verify alike |
| MempoolRuns.BatchAgrees | blockchain/mempool.py:203-265 | with a nonzero chain id: same ordered transactions, same counts, same accepted hashes |
| MempoolRuns.ChainZeroDisagrees | blockchain/mempool.py:50-74 | with chain id 0 they differ on any enterable transaction whose signature the two ids judge differently |
| MempoolRuns.ChainZeroInput | blockchain/mempool.py:50-74 | a configuration and a transaction for which they differ |
| MempoolRuns.RejectedDiffers | blockchain/mempool.py:250-255 | the pool's rejection counter exceeds the one-by-one counter by exactly the badly signed duplicates |
| MempoolRuns.ReplayKeeps | blockchain/mempool.py:161-201 | after any run: at most max(max_size, 10) entries, distinct keys equal to the hashes, every fee at least the minimum |
| MempoolStays.AcceptsExactly | blockchain/mempool.py:81-201 | what add accepts, as an equivalence in the fields of the transaction: new hash, minimum fee, amount of at least 0, addresses, a signature and key that verify for the chain id, the consent of the chain |
| MempoolStays.RawAcceptsExactly | blockchain/mempool.py:267-272 | add_raw asks for a new hash and the minimum fee alone |
| MempoolStays.AcceptedIsLast | blockchain/mempool.py:197-201 | an accepted transaction is the last entry, under its hash, after everything that was there while there was room; a refused one changes no entry and is counted unless already there |
| MempoolStays.SubmitSpares | blockchain/mempool.py:150-201 | an entry leaves on an add if and only if the add is accepted into a full pool and the entry is among the cheapest tenth |
| MempoolStays.EvictExactly | blockchain/mempool.py:343-350 | a clean-up does nothing below four fifths of the room and otherwise takes exactly the cheapest tenth |
| MempoolStays.NegativeLimit | blockchain/mempool.py:279-287 | a negative limit leaves off that many of the cheapest |
| MempoolStays.EntryStays | blockchain/mempool.py:150-350 | over any run, batches included, what nobody removed and no insertion evicted is still there |
| MempoolStays.AcceptedStays | blockchain/mempool.py:150-350 | an accepted transaction not removed or evicted since is in the pool after any run, and get can return it |
| MempoolStays.BatchSplits | blockchain/mempool.py:250-265 | a batch in two parts is the two batches in turn |
| MempoolStays.BatchOfOne | blockchain/mempool.py:232-265 | a batch of one does to the entries what add does |
| MempoolRuns.EvictedAreCheapest | blockchain/mempool.py:343-350 | what an eviction removes is no dearer than anything it keeps |
| MempoolRuns.EvictionSparesTheBest | blockchain/mempool.py:279-287 | the fees that get(k, floor) returns are unchanged by an eviction for every k up to the survivors |
| MempoolRuns.BestIsBest | blockchain/mempool.py:279-287 | get returns the dearest of the pool: descending, and nothing left out beats it |
| Text.ParseHex | api/eth_filters.py:34-39 | parsing the hex text of a number gives the number back |
| Filters.EthFilterStore.GetFilterChanges | api/eth_filters.py:124-147 | touches the row and answers by its kind |
| Filters.EthFilterStore.LogChanges | api/eth_filters.py:149-167 | asks for last + 1 to the tip and moves on only when the query answers |
| Filters.EthFilterStore.BlockChanges | api/eth_filters.py:169-187 | the loop over heights returns the hashes of last + 1 to the tip |
| Filters.EthFilterStore.PendingChanges | api/eth_filters.py:189-196 | the sorted hashes not seen yet |
| Filters.EthFilterStore.NewBlockFilter | api/eth_filters.py:57-70 | prunes, takes the next id and starts at the tip |
| Filters.EthFilterStore.UninstallFilter | api/eth_filters.py:96-104 | removes the filter under any spelling of its id |
| FilterRuns.IdsAreNeverReused | api/eth_filters.py:41-85 | the k-th filter gets the k-th id whatever was removed or expired, and its text reads back |
| FilterRuns.BlocksExactlyOnce | api/eth_filters.py:169-187 | the polls of a block filter deliver each height after creation up to the highest tip polled, once, in order, among any other events and for any movement of the tip |
| FilterRuns.BlocksInOrder | api/eth_filters.py:169-187 | the same with heights whose block has no hash, and the cursor is the highest tip polled |
| FilterRuns.LogRangesTile | api/eth_filters.py:149-167 | the answered ranges tile the heights after creation up to the highest tip of an answered poll, failed queries included, and the delivered logs are those of the ranges |
| FilterRuns.AllAnswered | api/eth_filters.py:149-167 | when no query fails that is the highest tip polled |
| FilterRuns.PendingAtMostOnce | api/eth_filters.py:189-196 | a hash is delivered at most once and never when seen at creation |
| FilterLives.LivesExactly | api/eth_filters.py:25-104 | over any run a filter is installed at the end if and only if it was not uninstalled and no filter was created more than 300 seconds after it was last asked for |
| FilterLives.CreatedAtTip | api/eth_filters.py:41-70 | a new filter has the next id and starts at the tip |
| FilterLives.CreatedSeen | api/eth_filters.py:72-85 | a pending filter has seen what was pending at its creation |
| FilterLives.UninstallAnswers | api/eth_filters.py:96-104 | uninstalling answers whether a filter was there under the number that the text spells |
| FilterLives.HashesOfBlocks | api/eth_filters.py:169-187 | the hashes of a range are those of its blocks that have one |
| FilterLives.HashText | api/eth_filters.py:178-185 | a block hash is reported with 0x in front, once |
| FilterLives.PendingExactlyOnce | api/eth_filters.py:189-196 | what the polls of a pending filter returned is, each hash once, what some poll found pending and was not seen at the creation |
| FilterLives.PendingInOrder | api/eth_filters.py:189-196 | one poll answers in increasing order |
| FilterLives.RangeReadsBack | api/eth_filters.py:158-162 | the query of a range carries its two heights as numbers that read back, and the other criteria as they were |
| WsSubs.EthWsSubscriptionManager.Subscribe | api/eth_ws_subscriptions.py:20-35 | adds the subscription to both indexes under the next id |
| WsSubs.EthWsSubscriptionManager.Unsubscribe | api/eth_ws_subscriptions.py:37-50 | removes an own subscription from both indexes |
| WsSubs.EthWsSubscriptionManager.DropConnection | api/eth_ws_subscriptions.py:52-56 | removes all subscriptions of a connection |
| WsSubs.EthWsSubscriptionManager.OnNewBlock | api/eth_ws_subscriptions.py:108-135 | notifies heads, then serves logs in order until a query raises |
| WsSubs.IndexesMirror | api/eth_ws_subscriptions.py:20-56 | after any run a subscription belongs to a connection exactly when the connection lists it |
| WsDelivery.SubscribedExactly | api/eth_ws_subscriptions.py:20-56 | after any run a subscription is there if and only if some event created it under the next id and its connection neither unsubscribed it nor went since |
| WsDelivery.OneHeadEach | api/eth_ws_subscriptions.py:120-121 | a block sends each subscription to new heads exactly one head and no other any |
| WsDelivery.HeadsAfterRun | api/eth_ws_subscriptions.py:120-121 | the same after any run, for the subscriptions created and not ended |
| WsDelivery.LogsAreAsked | api/eth_ws_subscriptions.py:122-135 | a block sends a log subscription that has not heard of it what the query answers for the heights since, once and in order |
| WsSubs.ServedWithoutGaps | api/eth_ws_subscriptions.py:122-135 | a log subscription is served one block and then every height since, up to the highest block that reached it, without gap or overlap |
| WsSubs.ServedWhenReached | api/eth_ws_subscriptions.py:122-135 | a block serves a subscription if and only if it is news to it and no query before its own, or its own, raises |
| WsSubs.SentToRow | api/eth_ws_subscriptions.py:108-135 | a block sends a subscription what the query answers for its range, once, and nothing when it is not served |
| L1Queue.QueueFile.EnqueueOutbound | bridge/abs_bridge.py:267-284 | removes the hash, appends, keeps the last 500 |
| L1Queue.QueueFile.LookupOutbound | bridge/abs_bridge.py:598-606 | the first entry under the hash |
| L1Queue.QueueFile.AddIncoming | bridge/abs_bridge.py:286-317 | the same for incoming entries, by both keys |
| L1Queue.QueueIsLast | bridge/abs_bridge.py:281-283 | the bounded queue is the last 500 of the unbounded recency order after every history |
| L1Queue.LookupIsRecent | bridge/abs_bridge.py:598-606 | a lookup finds the latest proof exactly while fewer than 500 other hashes were enqueued since |
| L1Queue.IncomingStaysDistinct | bridge/abs_bridge.py:311-316 | an enqueue keeps incoming entries distinct in both keys and at most 500 |
| L1Queue.IncomingAlwaysDistinct | bridge/abs_bridge.py:286-317 | after every sequence of calls the entries are distinct in both keys, at most 500, each from a call, the latest last |
| IncomingEntries.IncomingExactly | bridge/abs_bridge.py:286-317 | after every sequence of calls the queue holds exactly the entries, in order, that no later call displaced by either key and that never had 500 standing entries behind them |
| IncomingEntries.RoomStaysEmpty | bridge/abs_bridge.py:311-316 | so it is not the last 500 of an unbounded queue: a call that displaces two entries makes room that a dropped entry does not come back to |
| Bridge.RustBridge.LockAndBridge | bridge/abs_bridge.py:147-265 | all refusals in order, the debit, the burn share, the lock record and the queued proof |
| Bridge.RustBridge.ConfirmIncoming | bridge/abs_bridge.py:321-431 | duplicate, refused or credited, with the queue entry |
| Bridge.RustBridge.ConfirmLock | bridge/abs_bridge.py:491-528 | confirms a pending lock with the given or the queued proof |
| Bridge.RustBridge.Refund | bridge/abs_bridge.py:433-437 | pays a pending lock back |
| Bridge.Database.DebitAndCreateLock | storage/database.py:1787-1838 | debit, burn and lock record together, or nothing on underflow |
| Bridge.Database.ClaimAndCredit | storage/database.py:1745-1785 | claim, credit and lock status together, once per key |
| Bridge.Database.RefundPending | storage/database.py:1840-1860 | refunds only what is pending |
| BridgeRuns.DebitedSum | bridge/abs_bridge.py:225-240 | a lock that passed the balance check never underflows and takes the amount less the burn share off the balances |
| BridgeRuns.SheetOverRun | bridge/abs_bridge.py:147-528 | over any run balances plus recorded locks less credits change by exactly the unburned fees, overwritten records and refunds |
| BridgeRuns.Conservation | bridge/abs_bridge.py:171-240 | with fresh lock hashes and no refund: balances plus lock net amounts are the initial total plus the first amount per distinct replay key less the unburned fees |
| BridgeRuns.ConservationExactly | bridge/abs_bridge.py:147-528 | after any run that equation holds if and only if nothing but unburned fees was taken, that is, if and only if the records overwritten come to the refunds |
| BridgeRuns.TwoLocksOneHash | storage/database.py:1787-1838 | two locks of ten coins under one transaction hash leave one record of 9.9: the other 9.9 are nowhere |
| BridgeRuns.UnburnedIsFeeShare | bridge/abs_bridge.py:171-225 | the unburned fee is fee * (1 - burn rate) within two satoshi and never negative |
| BridgeRuns.ReplayPaysNothing | bridge/abs_bridge.py:329-345 | once an event is credited, every later arrival under the same replay key is a duplicate for ever, whatever recipient or amount is claimed; arrivals under another name of the chain have another key |
| BridgeRuns.RefundOnce | storage/database.py:1840-1860 | after a refund, in every run that takes no new lock under the hash, a second refund does nothing |
| BridgeRuns.SettledStays | storage/database.py:1840-1860 | a lock refunded or confirmed is not pending again in such a run |
| BridgeLocks.ChainNames | bridge/abs_bridge.py:62-77 | the names of each chain, up to case and outer space; any other name stands for itself |
| BridgeLocks.FeeOfChain | bridge/abs_bridge.py:79-85 | what is left of an amount after the fee of its chain |
| BridgeLocks.LocksExactly | bridge/abs_bridge.py:147-222 | a lock is recorded if and only if the chain is served, something is left after the fee, the balance covers it, production asks for an event and a hash is issued; it never raises |
| BridgeLocks.LockMoves | bridge/abs_bridge.py:224-240 | for every account: the sender pays the amount, the burn address gets its share, nobody else is touched, and the lock is pending for the rest |
| BridgeLocks.ArrivesExactly | bridge/abs_bridge.py:321-398 | an arrival is credited if and only if it names an event, a recipient and a positive amount, its key is free and the verifier, shown what it must be shown, agrees |
| BridgeLocks.RpcOfChain | bridge/abs_bridge.py:354-358 | which variable must be set for a chain to be reached |
| BridgeLocks.ArrivalMoves | storage/database.py:1745-1785 | for every account and lock: the recipient gets the satoshi, the lock the arrival names is confirmed, and nothing else changes |
| BridgeLocks.ArrivalQueues | bridge/abs_bridge.py:329-350 | an arrival under a free key, credited or not, queues its L1 transaction if it names all it must, and any other leaves the queue |
| BridgeLocks.ConfirmMoves | bridge/abs_bridge.py:491-528 | a confirmation moves no money and changes its lock exactly when that is listed, pending and the verifier accepts the proof given or queued |
| BridgeLocks.RefundMoves | storage/database.py:1840-1860 | a refund pays exactly the sender of a pending lock, and only with the one-transaction operations |
| BridgeLocks.ConfirmedExactly | bridge/abs_bridge.py:321-528 | over any run a lock is confirmed if and only if an arrival was paid under its hash or a confirmation was agreed to, and no lock was recorded under the hash since |
| BridgeLocks.ConfirmedWasAccepted | bridge/abs_bridge.py:491-528 | in rust mode, over any run with its own queue: a lock pending once and confirmed later was settled in between by an arrival or by a proof that the verifier accepted, the one given or the latest queued |
| BridgeLocks.SettledIsConfirmed | bridge/abs_bridge.py:491-528 | and the converse: settled and not taken anew, it is confirmed |
| BridgeRuns.KeyIsLabel | storage/database.py:1708-1717 | whatever chains and transactions look like, two events share a replay key exactly when the text before the log index and the log index agree |
| BridgeRuns.KeyNamesEvent | storage/database.py:1708-1717 | if one of two events has no colon in its chain and transaction, they share a replay key exactly when they have the same chain name, transaction and log index, up to case and outer space; two names of one chain give two keys |
| BridgeAliases.OncePerSpelling | storage/database.py:1757-1761 | in any run, arrivals of one transaction and log index that are paid all spell the chain differently |
| BridgeAliases.PaidNextExactly | bridge/abs_bridge.py:329-431 | after any run a valid request is paid if and only if its key was free at the start and the run paid no arrival of its name, the text of its replay key |
| BridgeAliases.PlainName | storage/database.py:1708-1717 | the name of a request without colons is its spelling of the chain, its transaction and its log index |
| BridgeAliases.PaidAgainExactly | bridge/abs_bridge.py:329-431 | of two arrivals of one transaction and log index, any traffic under other names between them, the second is paid again if and only if it spells the chain differently |
| BridgeAliases.PaidAtMostOnceExactly | bridge/abs_bridge.py:321-398 | for any verifier: an event, that is a chain, a transaction and the log index the caller sends, is paid at most once in every run if and only if the requests for it that pass have one spelling |
| BridgeAliases.SimulatorExactly | bridge/abs_bridge.py:62-77 | in the simulator: if and only if its chain has a single name in CHAIN_ALIASES |
| BridgeAliases.RustExactly | bridge/rust_bridge/src/main.rs:31-44 | with a verifier that looks the transaction up where the chain name leads: if and only if it is never paid, for every name it resolves has another |
| BridgeAliases.IndexPaysAgain | bridge/abs_bridge.py:363-371 | in any mode, with any verifier, which is not shown the log index: a request that passes is paid under one log index and again under another |
| BridgeAliases.EthThenEthereum | storage/database.py:1708-1717 | one transaction sent as "eth" and then as "ethereum" is paid both times, two coins for one |
| BridgeAliases.PolygonThenMatic | bridge/rust_bridge/src/main.rs:31-38 | in Rust mode one transaction sent as "polygon" and then as "matic", one chain to the verifier, is paid both times |
| BridgeAliases.PolygonTwoIndexes | bridge/abs_bridge.py:363-371 | one transaction sent with log index 0 and then with 1 is paid both times |
| StateReplay.ImmutableStateManager.ApplyTransaction | blockchain/immutable_state.py:104-136 | moves the amount between the account objects, one object twice for a transfer to oneself |
| StateReplay.ImmutableStateManager.Validate | blockchain/tx_validator.py:18-91 | the whole chain of checks |
| StateReplay.ImmutableStateManager.TotalSupply | blockchain/immutable_state.py:138-141 | the loop sums all balances in any order |
| StateReplay.AppliedSupply | blockchain/immutable_state.py:124-136 | one transaction takes its fee out of the supply if accepted and nothing otherwise, self-transfers included |
| StateReplay.ReplaySupply | blockchain/immutable_state.py:104-141 | over any list the supply falls by exactly the accepted fees, and ordinary lists keep balances non-negative |
| StateReplay.NonNegativeExactly | blockchain/immutable_state.py:124-131 | with negative amounts, balances stay non-negative exactly when the receiver can give what is asked, or, for a transfer to oneself, the balance covers the fee |
| StateReplay.ValidIsApplied | blockchain/tx_validator.py:38-71 | a non-deploy transaction that validates is always applied |
| StateReplay.CheckedIsAppliedExactly | blockchain/immutable_state.py:112-119 | the amount applied is the amount checked if and only if it was not read from value alone |
| StateReplay.ValidatedTransfer | blockchain/immutable_state.py:121-136 | validate then apply moves amount and fee exactly, touches no other account and burns the fee |
| StateReplay.ValidExactly | blockchain/tx_validator.py:18-91 | a transaction validates if and only if it is well formed, carries the nonce of its sender, is covered, is not in the pool and is signed as it must be |
| StateReplay.DeploysExactly | blockchain/tx_validator.py:42-46 | a transaction deploys code exactly when it goes to the zero address with data that is more than marks of hex and space around them |
| StateReplay.NoncesStay | blockchain/immutable_state.py:104-136 | applying transactions moves no nonce |
| StateReplay.ValidAgainExactly | blockchain/tx_validator.py:57-71 | what validated once validates after any replay, its own application included, if and only if the balance still covers it |
| Readiness.AlignedHeightsAreClose | api/http.py:552-558 | two heights ready against one list of peers differ by at most 2 |
| Readiness.ClosenessIsTight | api/http.py:552-558 | two heights can be ready against one list if and only if they differ by at most 2 |

## Left out

EVM:

- The Rust kernel itself: in Hybrid a segment is taken to repeat the Python step up to the first declined opcode, halt, error or step cap. KernelCode asks this only of the opcodes the code executes. The kernel of the repository differs in the gas of BLOBHASH and INVALID, in transient storage, which it keeps for one segment only, in MCOPY, whose base price it charges once and which halts when out of gas, in the memory of RETURN and REVERT, in RETURNDATACOPY after a call of the same segment, in the charge of unknown opcodes, and where operands of shifts, BYTE, SIGNEXTEND and memory accesses exceed its machine words; it also runs LOG, CALL, CREATE and SELFDESTRUCT bodies of its own.
- SDIV and SMOD: the Python fallback divides through floats; the model follows the 256-bit division the fallback approximates.
- Memory exhaustion of the host machine, recursion depth, and the text of error messages.
- Rollback of transient storage and of logs, which the code does not do; the former dict object that a call replaced is not restored either.
- Callbacks are functions of their arguments and of the number of callbacks made so far; storage handed back by a sub-call is taken to be well formed.
- Address computation of CREATE and hashing are inputs.
- Interpreter.EVM.ExecuteBytecode: the snapshot of the storage is taken whole; the one the kernel takes drops entries whose value is zero, so with it the entry contents come back exactly only from a dict that holds no zeros.

Cross-shard:

- Routing mode, resharding and migration of addresses, block production of shards.
- The coordinator is modelled on values, not as an object; its quorum is two thirds, with integers for the fraction.
- The size and character checks of the wire format: a message dropped by them is a lost message.
- Sharding.Database.UpdateBalance: amounts are real numbers and balances whole satoshi; the float that is read back is taken to be exact.
- Locks and threads: every method is one atomic step.
- ShardNet.Conservation: assumes one node per shard and fresh ids; RepeatedIdsLose gives what happens when a transfer is submitted again.
- ShardDelivers.EverythingCanBeDelivered: that gossip does arrive is up to the network, and nodes that do not gossip or have no database deliver nothing; ids are taken not to be empty.
- ShardIds.RepeatedIdsLose: two different transfers whose truncated hashes collide are not covered, because records and credits are kept per id.

Finality:

- The native helpers, which repeat the Python expressions; two thirds is compared in integers.

Mempool:

- Attaching a chain changes the configuration; here it is fixed when the pool is made.
- Amounts and fees are real numbers: infinities and not-a-number are not modelled, nor the exceptions they cause in the batch path.
- Transactions are values, so a caller that changes a pooled transaction afterwards is not modelled.
- That accepted hashes are still pooled after a batch: later insertions may evict them.

Filters and subscriptions:

- Time is a parameter; two threads polling one filter at once are not modelled.
- Completeness of logs beyond the limit of the log query, and reading all logs of a filter, which moves no cursor.
- Text.ParseHex: digits outside ASCII, which Python also accepts, are not modelled.
- Notifications of pending transactions, which keep no cursor.

Bridge:

- The verdicts of the external L1 verifier and the hash of a simulated transfer are inputs; in RustExactly it is a verifier that insists on a transaction and finds it or not by the place the chain name leads to; the simulator's own records are not modelled.
- Bridge.RustBridge.ConfirmLock: which locks are among the newest thousand is an input, because creation times are not modelled.
- Automatic confirmation by age, event bus messages, statistics.
- L1Queue.QueueFile.EnqueueOutbound: the file starts empty, and the queued time is not modelled.

Replay:

- Seeding and reconciling from a store, which set balances from outside.
- Numbers given as text or as wrong types, and the exceptions they raise.

The rest of the repository: consensus slots and committees, NFT and other modules with only immediate facts, serialization through JSON, the network, storage engines, dashboards and bots.
