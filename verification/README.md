# A model of the ZK output oracle, its span proofs and their aggregation

The system posts L2 output roots to Ethereum. A zkVM program re-derives and re-executes a span of L2
blocks and commits a *boot info*: the L1 head it read, the output root it started from, the output root
and block number it claims, and the chain id. A second program aggregates consecutive spans into one boot
info. The contract `ZKL2OutputOracle` appends an output when a verifier accepts a proof that continues from
its latest output; outputs can be deleted until they are final. This project models the three programs and
the host code that feeds them, and proves what they keep over all runs.

The result that joins them is `EndToEnd.EveryLogIsExecuted`: from a fresh deployment with an honest first
output, through any mix of proposals, deletions and re-proposals, one sequence of normally ended runs of the
multi-block program lies end to end along one unbroken chain of executed L2 blocks and passes through every
output of the log, at the block with its number and the root it records; what the runs between two outputs
did together is what one accepted proof states. `EndToEnd.EveryUpgradedLogIsExecuted` is the same for a
proxy upgrade that finds outputs in place.

## How the files fit together

| file | models |
|---|---|
| `Wrappers.dfy`, `Words.dfy` | options and results; bytes, words, fixed-width integers |
| `BootInfo.dfy` | the boot info, its ABI coding in Rust and Solidity, the output root's preimage |
| `OutputLog.dfy` | the contract's storage and transactions as functions; runs of transactions |
| `OutputLogSteps.dfy` | what each transaction answers and leaves behind, as its callers see it |
| `OutputLogRuns.dfy` | order, finality, lookups, growth, casts, checkpoints, proofs behind links |
| `OutputOracle.dfy` | the contract as a class over its storage slots, proved to act as `OutputLog` says |
| `PreimageStore.dfy`, `BlobAssembly.dfy` | the in-memory preimage oracle and its one verification pass |
| `StoreContents.dfy` | what that pass accepts and gathers, in terms of the store's bytes |
| `L2Chain.dfy`, `L2Provider.dfy` | the four lookups of the L2 chain provider; its shared caches as objects |
| `SpanLoop.dfy` | the nested derivation and execution loop: invariant, bounds, exact termination |
| `SpanProgram.dfy` | the whole multi-block program: what acceptance proves and exactly when it accepts |
| `ValidityClient.dfy` | pipeline, driver, executor and main loop as objects, proved to act as those functions |
| `Aggregation.dfy` | the aggregation program, and the host code that fetches its L1 headers |
| `L1Heads.dfy` | where the spans' L1 heads lie relative to the committed one |
| `TimestampSearch.dfy` | the host's binary search for an L1 block by time |
| `EndToEnd.dfy` | span composition and the end-to-end theorems |

State that the source updates in place is a class whose methods are proved equal to functions of the old
state; theorems about runs are lemmas about those functions.

## Assumptions, and where they are written

* Hash functions, header coding, EVM execution, trie walks and the derivation pipeline are code outside
  this repository. They are fields of the datatypes `Coding`, `World` and `Job`, so every theorem holds for
  any such functions. `L2Chain.Faithful` lists what is assumed of them: a header decodes from its encoding,
  and an executed header has its parent's number plus one and its parent's hash.
* No hash is assumed injective, which would be false of any 32-byte hash. `PreimageStore.CollisionFree`
  says that no two members of a given finite set of byte strings have hashes that agree on the last 31
  bytes, which are all that a preimage key keeps (OP Stack fault proof specification, "Pre-image key
  types"). The set is named in each theorem: the values of two stores, or every byte string that the runs
  behind the accepted proofs hashed.
* `EndToEnd.SoundVerifier` and `EndToEnd.SoundGateways` are the trust in the proof system: a digest that the
  zkVM verifies was committed by a run of the multi-block program that ended normally, and a gateway under
  which a proof was accepted, asked in any transaction under that proof's key, answers only for bytes that
  such a run of the aggregation program committed. That the contract does ask, and records nothing
  else, is proved: `OutputLogSteps.RunVerifies`.
* Block time does not go back and transactions see prefixes of one L1 chain (`OutputLog.Timely`,
  `OutputLog.OnL1`); theorems that need lossless casts assume `startingBlockNumber + block.timestamp`
  below 2^128 (`OutputLogRuns.Fits`).
* A loop that the source leaves unbounded is a function of the number of its turns (`SpanLoop.After`,
  `TimestampSearch.After`) or of the steps that a walk may take (`L2Chain.Walk`), and statements about its
  end quantify over that number.

## Where code and documentation differ

* `proposeL2Output` is documented as accepting only the exact next timestamp; the code accepts any block
  number from the next one on whose L2 time has passed (`contracts/src/ZKL2OutputOracle.sol:262-292`).
* `checkpointBlockHash` is documented as reverting outside the last 256 blocks, and as checkpointing the
  latest hash when both inputs are zero; the code stores zero for an unavailable block when zero is passed
  (`contracts/src/ZKL2OutputOracle.sol:327-334`). `CheckpointSoundness` therefore speaks of nonzero hashes.
* `deleteL2Outputs(0)` passes while output 0 is not final, and then `nextOutputIndex() - 1` reverts in every
  later proposal: `EmptiedLogStaysEmpty`.
* After `verify`, all data is said to be trusted; `Local` and `Blob` entries are not checked by hash, and
  the error for overwriting blob data is built and dropped (`crates/client-utils/src/oracle/mod.rs:80-145`).
  Blobs depend on the map's iteration order exactly when `BlobAssembly.Consistent` fails:
  `OrderFreeExactly`.
* `find_block_by_timestamp` is documented as returning the closest block; it returns the first block at or
  after the target (`crates/host-utils/src/fetcher.rs:142-177`). Its sum `low + high` and its `mid - 1` wrap
  in 64 bits, so on a chain of more than 2^63 blocks the search for the last block does not end:
  `TimestampSearch.EndsExactly` says on which chains it ends for every target.
* The aggregation program is meant to verify that every boot info's L1 head is on the L1 chain. Its header
  check starts from `latest_l1_checkpoint_head`, but the head it commits, which is the one that the contract
  compares with a checkpoint, is the last boot info's (`aggregation-client/src/main.rs:33,90,101`). A span
  whose head stands after the committed one in the header list is accepted, and nothing then shows its head
  to be on the chain: `L1Heads.CommittedHeadMissesOne` is such an input. The heads are shown to be the
  committed head or its ancestors exactly when none stands after it: `L1Heads.CommittedHeadCoversExactly`.

## Model

| member | source | states |
|---|---|---|
| BootInfo.DecodeAfterEncode | crates/client-utils/src/boot.rs:64-88 | decoding an encoded boot info gives it back, for every boot info |
| BootInfo.EncodingLayout | crates/client-utils/src/boot.rs:54-77 | the five words of an encoded boot info by position and value |
| BootInfo.StatementLayout | contracts/src/ZKL2OutputOracle.sol:52-58 | the five words of the contract's encoded statement by position and value |
| BootInfo.DecodeRefusal | crates/client-utils/src/boot.rs:79-88 | decoding refuses exactly wrong lengths and numbers of 2^64 or more, and says which |
| Words.BigEndianDigit | crates/client-utils/src/boot.rs:68-77 | byte i of an encoded number is its base-256 digit of that place, most significant first |
| BootInfo.EncodeAfterDecode | crates/client-utils/src/boot.rs:79-88 | a byte string decodes if and only if it is some boot info's encoding, and re-encoding the result gives the same bytes; short, long and dirty-padded inputs are errors |
| BootInfo.EncodingsAgree | contracts/src/ZKL2OutputOracle.sol:303-311 | the Rust bytes equal Solidity's `abi.encode` if and only if all five fields are equal, so a block number or chain id of 2^64 or more matches no proof |
| BootInfo.OutputPreimageFields | crates/host-utils/src/lib.rs:29-36 | the output root's preimage is 32 zero bytes, state root, storage root and block hash, the last at bytes 96..128 where the client reads it |
| OutputLogSteps.L2TimeExactly | contracts/src/ZKL2OutputOracle.sol:413-415 | the checked arithmetic gives the exact L2 time, and reverts exactly before the start or beyond 256 bits |
| OutputLogSteps.ProposalAcceptedExactly | contracts/src/ZKL2OutputOracle.sol:279-311 | a proposal is accepted if and only if sender, interval, L2 time, root, key and checkpoint are right and the current gateway verifies its proof of the five words under the current key |
| OutputLogSteps.ProposalRefusal | contracts/src/ZKL2OutputOracle.sol:279-311 | a refused proposal reverts with the first check that fails, in the source's order |
| OutputLogSteps.ProposalEffect | contracts/src/ZKL2OutputOracle.sol:315-321 | an accepted proposal appends one output, its numbers truncated to 128 bits, and changes nothing else |
| OutputLogSteps.DeletionExactly | contracts/src/ZKL2OutputOracle.sol:238-257 | a deletion succeeds if and only if the challenger sends it, the output exists and is younger than the period; it keeps exactly the outputs below the index; otherwise the reason |
| OutputLogSteps.CheckpointExactly | contracts/src/ZKL2OutputOracle.sol:329-335 | one of the last 256 blocks is checkpointed with its hash alone, any other with zero alone; that is what later proposals find, and nothing else changes |
| OutputLogSteps.InitializeAcceptedExactly | contracts/src/ZKL2OutputOracle.sol:160-167 | when `initialize` succeeds, and otherwise the first check that fails |
| OutputLogSteps.InitializedLog | contracts/src/ZKL2OutputOracle.sol:175-186 | after an upgrade outputs and start are as found, after a fresh deployment they are the parameters' |
| OutputLogSteps.InitializedOnce | contracts/src/ZKL2OutputOracle.sol:160 | a second `initialize` reverts |
| OutputLogSteps.InitializedDeletions | contracts/src/ZKL2OutputOracle.sol:172-173 | after `initialize` the given challenger alone can delete, exactly what is younger than the given period |
| OutputLogSteps.InitializedProposals | contracts/src/ZKL2OutputOracle.sol:169-191 | after `initialize` a proposal is accepted if and only if it meets the given proposer, interval, block time, chain id, key and gateway |
| OutputLogSteps.InitializedNumbers | contracts/src/ZKL2OutputOracle.sol:400-415 | latest number, next number and L2 time of a fresh deployment in terms of its parameters |
| OutputLogSteps.OwnerAlone | contracts/src/ZKL2OutputOracle.sol:124-127 | the owner's transactions succeed if and only if the owner given to `initialize` sends them |
| OutputLogSteps.OwnerEffects | contracts/src/ZKL2OutputOracle.sol:421-446 | each changes only what it names: who owns next, and what verifies the next proposal |
| OutputLogSteps.StepExactly | contracts/src/ZKL2OutputOracle.sol:238-335 | a reverted transaction leaves everything but the time, an accepted one a record of its proof exactly if it was a proposal |
| OutputLogSteps.StepVerifies | contracts/src/ZKL2OutputOracle.sol:303-311 | the proof that a step records was verified by the current gateway under the current key, of the proposal's five words |
| OutputLogSteps.RunVerifies | contracts/src/ZKL2OutputOracle.sol:311 | in every run each recorded proof was there before or was verified, of the recorded statement, in one of the run's proposals |
| OutputLogRuns.InitializeCasts | contracts/src/ZKL2OutputOracle.sol:175-186 | the unchecked casts of `initialize` keep the starting values if and only if both are below 2^128 |
| OutputLogRuns.FreshDeployment | contracts/src/ZKL2OutputOracle.sol:149-192 | a fresh `initialize` establishes the run invariant, the spacing bound and the seed output |
| OutputLogRuns.UpgradeDeployment | contracts/src/ZKL2OutputOracle.sol:148-192 | an upgrade of a well-ordered log establishes the invariant and leaves the outputs as found |
| OutputLogRuns.L2TimestampValue | contracts/src/ZKL2OutputOracle.sol:413-415 | when the checked arithmetic does not revert, the result is the exact L2 time and bounds the block number |
| OutputLogRuns.AcceptedBlockNumberBound | contracts/src/ZKL2OutputOracle.sol:284-292 | positive block time and the future-block guard bound an accepted block number by start plus clock, and it is an interval above the latest |
| OutputLogRuns.LosslessCasts | contracts/src/ZKL2OutputOracle.sol:315-321 | every accepted proposal stores exactly the number and time it was checked and proved with |
| OutputLogRuns.StepKeepsConfig | contracts/src/ZKL2OutputOracle.sol:149-192 | after initialization no transaction changes starting point, intervals, roles or chain id |
| OutputLogRuns.StepKeepsInv | contracts/src/ZKL2OutputOracle.sol:238-322 | every transaction, accepted or reverted, keeps block numbers strictly rising and timestamps sorted and past |
| OutputLogRuns.RunKeepsInv | contracts/src/ZKL2OutputOracle.sol:238-322 | so does every finite run |
| OutputLogRuns.DeletableExactly | contracts/src/ZKL2OutputOracle.sol:246-257 | some deletion by the challenger removes output i if and only if i is younger than the finalization period, although the check reads only the first removed entry |
| OutputLogRuns.StepKeepsFinal | contracts/src/ZKL2OutputOracle.sol:246-257 | no single transaction removes or changes a final output or one before it |
| OutputLogRuns.Finality | contracts/src/ZKL2OutputOracle.sol:246-257 | once final, an output and all before it are the same at the same index in every later state |
| OutputLogRuns.BoundaryIsFirst | contracts/src/ZKL2OutputOracle.sol:359-371 | in an ordered log a boundary position is the one that linear search finds |
| OutputLogRuns.StableLookup | contracts/src/ZKL2OutputOracle.sol:349-372 | a lookup that named a final output returns the same index and output in every later state |
| OutputLogRuns.ProposalKeepsLookups | contracts/src/ZKL2OutputOracle.sol:315-372 | a proposal changes no answer for a block up to the latest |
| OutputLogRuns.DeletionKeepsLowerLookups | contracts/src/ZKL2OutputOracle.sol:238-372 | a deletion at k keeps exactly the answers below k; the others become reverts |
| OutputLogRuns.StepKeepsSpaced | contracts/src/ZKL2OutputOracle.sol:284-321 | every transaction keeps outputs an interval apart and each later than its own L2 time |
| OutputLogRuns.RunKeepsSpaced | contracts/src/ZKL2OutputOracle.sol:284-321 | so does every run from a fresh deployment |
| OutputLogRuns.GrowthBound | contracts/src/ZKL2OutputOracle.sol:406-415 | output i is recorded no earlier than i submission intervals of L2 time after the start, and strictly later for i >= 1 |
| OutputLogRuns.LengthBound | contracts/src/ZKL2OutputOracle.sol:284-321 | in every state of every run, elapsed time bounds the number of outputs |
| OutputLogRuns.NoUnderflow | contracts/src/ZKL2OutputOracle.sol:246-415 | from a valid state no subtraction underflows except `nextOutputIndex() - 1` on an emptied log |
| OutputLogRuns.EmptiedLogStaysEmpty | contracts/src/ZKL2OutputOracle.sol:252-309 | a log emptied by a deletion at index 0 accepts no proposal in any later run |
| OutputLogRuns.CheckpointSoundness | contracts/src/ZKL2OutputOracle.sol:298-335 | in every run each nonzero checkpoint is the L1 hash of its block, and each accepted proof names such a hash or zero |
| OutputLogRuns.StepKeepsBacked | contracts/src/ZKL2OutputOracle.sol:303-321 | every transaction keeps, for each link of the log, an accepted proof from the one output to the next |
| OutputLogRuns.RunKeepsBacked | contracts/src/ZKL2OutputOracle.sol:238-321 | so does any run of proposals, deletions and re-proposals |
| OutputLogRuns.RunGrowsFrom | contracts/src/ZKL2OutputOracle.sol:148-186 | an upgraded log is at any time a prefix of what the upgrade found, then links with accepted proofs |
| OutputOracle.ZKL2OutputOracle.constructor | contracts/src/ZKL2OutputOracle.sol:134-148 | the object starts from whatever storage the proxy holds |
| OutputOracle.ZKL2OutputOracle.LatestBlockNumber | contracts/src/ZKL2OutputOracle.sol:400-402 | reads, through the storage slots, the latest number of the abstract log |
| OutputOracle.ZKL2OutputOracle.NextBlockNumber | contracts/src/ZKL2OutputOracle.sol:406-408 | likewise the next number, or the overflow |
| OutputOracle.ZKL2OutputOracle.ComputeL2Timestamp | contracts/src/ZKL2OutputOracle.sol:413-415 | likewise the L2 time, or the underflow or overflow |
| OutputOracle.ZKL2OutputOracle.Initialize | contracts/src/ZKL2OutputOracle.sol:149-192 | on every input the same revert and the same new state as the step function |
| OutputOracle.ZKL2OutputOracle.DeleteL2Outputs | contracts/src/ZKL2OutputOracle.sol:238-260 | writing the length slot alone truncates the abstract log; same reverts as the step function |
| OutputOracle.ZKL2OutputOracle.CheckProposal | contracts/src/ZKL2OutputOracle.sol:279-311 | the checks of a proposal in the source's order, with the public values that the verifier is shown |
| OutputOracle.ZKL2OutputOracle.ProposeL2Output | contracts/src/ZKL2OutputOracle.sol:269-322 | an accepted proposal appends over any stale slot and records its proof; a reverted one changes only the time |
| OutputOracle.ZKL2OutputOracle.CheckpointBlockHash | contracts/src/ZKL2OutputOracle.sol:329-335 | same revert and same new state as the step function |
| OutputOracle.ZKL2OutputOracle.GetL2OutputIndexAfter | contracts/src/ZKL2OutputOracle.sol:349-372 | on any log the binary search reverts exactly when no output reaches n by the latest, and else ends at a boundary; in an ordered log it is the first output at or after n |
| PreimageStore.WriteSlot | crates/client-utils/src/oracle/mod.rs:124-132 | writing one 32-byte slot of a blob sets it and leaves the other 127 as they were |
| PreimageStore.SlotOfExactly | crates/client-utils/src/oracle/mod.rs:124-128 | on the 32-bit target, element e selects slot e mod 2^27 when that is below 128, and no slot otherwise |
| StoreContents.KeyLayout | crates/client-utils/src/oracle/mod.rs:87-100 | a key is its type's byte, then the last 31 bytes of the hash |
| StoreContents.ClassifiedExactly | crates/client-utils/src/oracle/mod.rs:86-143 | an entry passes by itself if and only if it is local, its value hashes to its key, or it is a blob part with its 80 bytes |
| StoreContents.PartClassified | crates/client-utils/src/oracle/mod.rs:104-121 | a blob part is of the commitment in its first 48 bytes and the element in its last 8, most significant first; element 4096 is the proof |
| StoreContents.PassesWithoutBlobs | crates/client-utils/src/oracle/mod.rs:83-102 | without blob parts a pass in any order succeeds if and only if each entry passes by itself |
| StoreContents.EveryOrderAcceptsExactly | crates/client-utils/src/oracle/mod.rs:83-158 | every order accepts with the same blobs if and only if, in terms of the bytes, each entry passes, each part has its size, and parts of one place agree unless one is a zero element |
| StoreContents.PartsAreGathered | crates/client-utils/src/oracle/mod.rs:104-136 | in a store that passes, whose parts have places of their own, every order puts each element's value in its slot and each proof in its blob |
| StoreContents.OtherSlotsAreZero | crates/client-utils/src/oracle/mod.rs:74-78 | a slot that no part has is zero |
| PreimageStore.PassChecksEntries | crates/client-utils/src/oracle/mod.rs:86-145 | a pass that succeeds has checked every entry it visited |
| PreimageStore.InMemoryOracle.Verify | crates/client-utils/src/oracle/mod.rs:83-159 | for any iteration order, the result of the pass; on success every Keccak256 and Sha256 value hashes to its key |
| PreimageStore.InMemoryOracle.GetExact | crates/client-utils/src/oracle/mod.rs:49-59 | fills the buffer with the value exactly when the key is present with that length, and else leaves it |
| PreimageStore.VerifiedStoresAgree | crates/client-utils/src/oracle/mod.rs:83-103 | two verified stores agree on every content-addressed key both hold, unless two of their values collide |
| BlobAssembly.VisitSlotEffect | crates/client-utils/src/oracle/mod.rs:124-136 | a visit keeps a nonzero slot and lets a zero slot take what the entry puts there |
| BlobAssembly.SlotOrigin | crates/client-utils/src/oracle/mod.rs:86-136 | after a pass a slot is nonzero if and only if some entry put a nonzero value there, and it holds one of those |
| BlobAssembly.PassOrigins | crates/client-utils/src/oracle/mod.rs:86-136 | the blobs are those that entries mention, and each proof is one of its entries' or zero |
| BlobAssembly.SlotContents | crates/client-utils/src/oracle/mod.rs:86-136 | when no two entries name one place, each named slot holds its entry's value |
| BlobAssembly.OrderFreeExactly | crates/client-utils/src/oracle/mod.rs:86-145 | every iteration order succeeds with the same blobs if and only if all entries check, parts have their sizes, and parts of one place agree unless zero |
| BlobAssembly.DistinctPartsOrderFree | crates/client-utils/src/oracle/mod.rs:86-145 | without duplicate parts, one passing order settles the matter for all orders |
| L2Chain.DecodeAllExactly | validity-client/src/main.rs:137-142 | transactions decode one by one in their order, or not at all if one does not |
| L2Chain.TransactionsExactly | crates/client-utils/src/l2_chain_provider.rs:152-166 | the transactions under a root are the trie's list, decoded in order |
| L2Chain.BlockContents | crates/client-utils/src/l2_chain_provider.rs:168-177 | a block has the header and transactions it is made from, and an empty withdrawals list exactly from Canyon's time on |
| L2Chain.HeaderByHashExactly | crates/client-utils/src/l2_chain_provider.rs:225-239 | a header is found by a hash if and only if the store has a preimage under the key that decodes to it |
| L2Chain.CacheUpdateExactly | crates/client-utils/src/l2_chain_provider.rs:69-79 | an update succeeds if and only if the block has a system config and a block info, and answers the latter |
| L2Chain.UpdateLeaves | crates/client-utils/src/l2_chain_provider.rs:61-79 | what also a failed update leaves in the maps; no update changes what is cached of another number |
| L2Chain.CachedAnswers | crates/client-utils/src/l2_chain_provider.rs:84-189 | a cached number is answered from the caches whatever the store holds |
| L2Chain.ConfigAskedFor | crates/client-utils/src/l2_chain_provider.rs:181-196 | an uncached system config is computed with the configuration asked for, a cached one is the boot configuration's |
| L2Chain.UpdateCaches | crates/client-utils/src/l2_chain_provider.rs:55-80 | a successful update adds its block's number to all four maps, with the block in all four forms |
| L2Chain.UpdateExtends | crates/client-utils/src/l2_chain_provider.rs:55-80 | caching the next block of the chain moves the cached range up by one and keeps the rest |
| L2Chain.FilledCachesHold | crates/client-utils/src/l2_chain_provider.rs:55-80 | after any number of updates all four maps have exactly the keys after the start up to the head, with the chain's blocks |
| L2Chain.WalkFinds | crates/client-utils/src/l2_chain_provider.rs:104-120 | on a well-numbered chain the walk back ends within as many steps as the numbers differ, at the block asked for |
| L2Chain.LookupsAnswerChain | crates/client-utils/src/l2_chain_provider.rs:84-197 | header, payload, block info and system config lookups all answer from the one chain up to the head, cached or walked, and all four are refused above it |
| L2Chain.FreshClientAgrees | crates/client-utils/src/l2_chain_provider.rs:84-197 | a client with empty caches booted at the head answers every such lookup as the caching one does |
| L2Chain.HeaderByHashAgrees | crates/client-utils/src/l2_chain_provider.rs:225-239 | the header found by a hash is the same over any two verified stores |
| L2Chain.WalksAgree | crates/client-utils/src/l2_chain_provider.rs:115-120 | from one header, the loop over parents ends alike over any two verified stores that lack no key on the way |
| L2Chain.WalkBacksAgree | crates/client-utils/src/l2_chain_provider.rs:90-120 | so does the whole uncached lookup, from the output root's preimage on, errors included |
| L2Provider.Provider.Clone | crates/client-utils/src/l2_chain_provider.rs:23-37 | a clone shares the caches and sees what the original sees |
| L2Provider.Provider.UpdateCache | crates/client-utils/src/l2_chain_provider.rs:55-80 | the new contents of all four maps, also when a conversion fails halfway |
| L2Provider.Provider.HeaderByNumber | crates/client-utils/src/l2_chain_provider.rs:84-121 | the loop returns the lookup's answer, errors included, and ends within the walk's steps |
| L2Provider.Provider.PayloadByNumber | crates/client-utils/src/l2_chain_provider.rs:139-179 | the method answers as the lookup about which the chain theorems speak |
| L2Provider.Provider.L2BlockInfoByNumber | crates/client-utils/src/l2_chain_provider.rs:126-137 | likewise, for block infos |
| L2Provider.Provider.SystemConfigByNumber | crates/client-utils/src/l2_chain_provider.rs:181-196 | likewise, for system configs; a cached answer ignores the configuration passed |
| SpanLoop.ClaimCut | crates/client-utils/src/driver.rs:154-161 | the number of payloads taken: all, or through the first whose parent is one below the claim block |
| SpanLoop.CutIsFirst | crates/client-utils/src/driver.rs:154-161 | those conditions fix that number |
| SpanLoop.AdvanceExactly | validity-client/src/main.rs:120-159 | one payload succeeds if and only if it executes on the head to the number after its parent's, its transactions decode, and its block has a system config and a block info; then that block is last, sealed with its hash, and ends the loop exactly at the claim's number |
| SpanLoop.NumbersConsecutive | validity-client/src/main.rs:120-160 | executed blocks have consecutive numbers from the start block, each naming its parent's hash |
| SpanLoop.TurnsKeepInv | validity-client/src/main.rs:114-167 | after any number of turns the executed blocks form a chain on the start block and head, info and blocks agree; an ended loop has just executed the claim block |
| SpanLoop.LoopBounds | validity-client/src/main.rs:114-167 | a run that starts below the claim block is below it at every loop head, executes no block past it and ends with exactly the blocks between; one that starts at or above it never ends |
| SpanLoop.EndIsReached | validity-client/src/main.rs:114-167 | if the pipeline keeps yielding, the loop ends, by descent on blocks left and empty turns before the next yield |
| SpanLoop.EndsExactly | validity-client/src/main.rs:114-167 | the loop ends on the claim block if and only if it starts below it, no turn panics and the pipeline never stops yielding while it runs |
| SpanProgram.StartupExactly | crates/client-utils/src/driver.rs:203-227 | startup succeeds, with this start and info, if and only if the output root's 128-byte preimage ends in the hash of that header, its block is in the store, has that info, and its L1 origin is known |
| SpanProgram.PrologueExactly | validity-client/src/main.rs:55-99 | the loop begins, at that start with no block executed, if and only if the chain id is known, the store passes and startup succeeds |
| SpanProgram.CheckClaimExactly | validity-client/src/main.rs:170-180 | the claim is right if and only if it is the hash of 32 zero bytes, state root, storage root and block hash of the last block |
| SpanProgram.ProgramIsSound | validity-client/src/main.rs:42-181 | a normal end makes the committed boot info true of one consecutive execution over a verified store, from the block its output root names to the root and number it claims |
| SpanProgram.ProgramAcceptsExactly | validity-client/src/main.rs:42-181 | the program accepts, given enough turns, if and only if its prologue does, the claim is above the start, no turn panics, the pipeline keeps yielding and the claimed root is right |
| SpanProgram.LoopCaches | validity-client/src/main.rs:151-167 | at every loop head the newest cached block is the head of the chain and the caches hold the executed blocks and only those |
| SpanProgram.LoopLookups | crates/client-utils/src/l2_chain_provider.rs:84-197 | so at every loop head all four lookups up to the head answer from that chain, although the store ends at the start block, and all four are refused above it |
| ValidityClient.Driver.UpdateSafeHead | crates/client-utils/src/driver.rs:135-142 | sets the safe head and its sealed header together |
| ValidityClient.Driver.ProducePayloads | crates/client-utils/src/driver.rs:146-181 | takes exactly the queue's prefix through the claim block's payload and leaves the rest queued |
| ValidityClient.FindStartupInfo | crates/client-utils/src/driver.rs:193-228 | start header, its seal and block info, or the error, as the program's startup function has them |
| ValidityClient.Client.ExecuteAndCache | validity-client/src/main.rs:120-159 | one payload moves executor, head, local variables and shared caches together, breaks only on the claim block, or panics |
| ValidityClient.Client.ExecuteBatch | validity-client/src/main.rs:120-160 | the inner loop does what the batch function says |
| ValidityClient.Client.Iterate | validity-client/src/main.rs:114-167 | one turn keeps safe head, sealed header, executor head and newest cached block the same, breaks only on the claim block, or panics |
| ValidityClient.RunLoop | validity-client/src/main.rs:114-167 | any number of turns over the objects is that number of turns of the loop function |
| ValidityClient.RunProgram | validity-client/src/main.rs:42-181 | the program commits the encoded boot info and then ends as the program function says, with the same error |
| Aggregation.VerifyL1Heads | aggregation-client/src/main.rs:24-55 | accepts if and only if the headers are parent-linked, end at the checkpoint and contain every boot info's L1 head |
| Aggregation.HeadsOnOneChain | aggregation-client/src/main.rs:33-54 | on acceptance every L1 head is the checkpoint or its ancestor, and any two heads are related |
| Aggregation.Aggregate | aggregation-client/src/main.rs:57-107 | commits if and only if the boot infos join, all proofs verify and the headers check; then the encoding of the first root with the last claim |
| Aggregation.VerifiedUnderKey | aggregation-client/src/main.rs:17-88 | on acceptance each boot info's encoding was verified under the multi-block program's key |
| Aggregation.IndexOfHashIsFirst | zkvm-host/src/utils.rs:16-18 | a node answers a hash with the first header that has it, and not at all if and only if none has |
| Aggregation.GetEarliestL1HeadInBatch | zkvm-host/src/utils.rs:8-25 | returns the header of least number among the heads, if and only if there is one and all are found |
| Aggregation.FetchHeaderPreimages | zkvm-host/src/utils.rs:29-62 | returns the headers from the earliest head through the checkpoint |
| Aggregation.FetchedBlocks | zkvm-host/src/utils.rs:44-61 | the fetched headers are the chain's from the earliest head through the checkpoint, each once and in order |
| Aggregation.ProducerMeetsChecker | zkvm-host/src/utils.rs:29-62 | what the host fetches passes the header check when no head is above the checkpoint, and on a chain without equal hashes only then |
| L1Heads.CheckpointIsLast | aggregation-client/src/main.rs:33-54 | on acceptance no head stands after the checkpoint in the header list |
| L1Heads.AncestorsAmongExactly | aggregation-client/src/main.rs:33-45 | in a linked list that does not loop, one hash is shown to be an ancestor of another if and only if it does not stand after it |
| L1Heads.CommittedHeadCoversExactly | aggregation-client/src/main.rs:90-103 | the checked headers show every span's head to be the committed head or its ancestor if and only if none stands after it |
| L1Heads.LaterHeadIsAccepted | aggregation-client/src/main.rs:24-103 | under any hash, two joined spans whose heads are a block and then its parent are accepted, and the parent is committed |
| L1Heads.CommittedHeadMissesOne | aggregation-client/src/main.rs:90-103 | a concrete accepted input whose first head is no ancestor of the committed head |
| TimestampSearch.RunSearch | crates/host-utils/src/fetcher.rs:143-177 | the loop, with wrapping sums, does what the turn function says, and a search that finds a block has queried existing blocks only |
| TimestampSearch.SearchIsSound | crates/host-utils/src/fetcher.rs:156-176 | on a chain of any length, what a search has found after any number of turns is the first block at or after a target in range, and one that fails had a target out of range |
| TimestampSearch.EndsWithin | crates/host-utils/src/fetcher.rs:156-169 | on a short enough chain the bounds close in every turn, so the search ends within as many turns as there are blocks, and one |
| TimestampSearch.LastIsNeverFound | crates/host-utils/src/fetcher.rs:157-166 | on a chain of more than 2^63 blocks the search for the last block never ends |
| TimestampSearch.EarlyNeverEnds | crates/host-utils/src/fetcher.rs:157-167 | on a chain of 2^63 blocks or more the search for a time before the first block never ends |
| TimestampSearch.EndsExactly | crates/host-utils/src/fetcher.rs:156-169 | the search ends for every target if and only if the chain has fewer than 2^63 blocks, or exactly 2^63 and the first at time zero |
| TimestampSearch.FindBlockByTimestamp | crates/host-utils/src/fetcher.rs:143-177 | returns the first block at or after a target in range, fails only on a target out of range, and on a short enough chain does one or the other within as many turns as there are blocks, and one |
| EndToEnd.SpanStartsAtRoot | crates/client-utils/src/driver.rs:203-227 | the output root fixes the header: a span that starts from the root of a header starts at that header |
| EndToEnd.SpanEndsAtRoot | validity-client/src/main.rs:169-180 | the claim of a normally ended span is the output root of its last executed block |
| EndToEnd.SpanExtendsChain | validity-client/src/main.rs:114-180 | a span whose root a chain ends at starts at the chain's last header, and its blocks extend the chain to its claim, by the difference of block numbers |
| EndToEnd.RunContinues | validity-client/src/main.rs:114-180 | runs laid end to end along a chain to an output root, with one more normally ended run from that root, are so laid to its claim |
| EndToEnd.RunsCompose | aggregation-client/src/main.rs:67-76 | any joined runs continue a history from their first root to their last claim, each at the block where the one before it ended |
| EndToEnd.SpansCompose | aggregation-client/src/main.rs:67-103 | the spans of an aggregation, in order, continue any history that ends at the committed first root to the committed claim and number, by the difference of block numbers |
| EndToEnd.ProvedBoot | aggregation-client/src/main.rs:79-88 | behind an accepted digest is a normally ended span of that very boot info |
| EndToEnd.AcceptedIsValid | aggregation-client/src/main.rs:57-107 | what the aggregation program accepts has a normally ended span behind every boot info |
| EndToEnd.NextOutput | contracts/src/ZKL2OutputOracle.sol:303-321 | the spans behind one accepted proof carry a history from one output of the log to the next |
| EndToEnd.LogIsExecuted | contracts/src/ZKL2OutputOracle.sol:303-321 | a log with an honest seed and attested proofs is accounted for: normally ended runs laid end to end along one execution chain, cut at every output by root and number, each stretch stated by one accepted proof |
| EndToEnd.RecordedAreCommitted | contracts/src/ZKL2OutputOracle.sol:311 | under sound gateways every recorded proof states bytes that an aggregation committed, because each was verified |
| EndToEnd.EveryLogIsExecuted | contracts/src/ZKL2OutputOracle.sol:149-322 | under sound gateways the log of every state reached from a fresh deployment is accounted for in that way, by exactly as many executed blocks as the last and first block numbers differ |
| EndToEnd.EveryUpgradedLogIsExecuted | contracts/src/ZKL2OutputOracle.sol:148-322 | the same for every run from an upgrade, from the last output found there that is still in place |
| EndToEnd.SpanHeadsAndL1 | contracts/src/ZKL2OutputOracle.sol:298-311 | for an accepted proof with a nonzero head: that head is a block of the L1 chain, a span's head not after it in the checked headers is that block or its ancestor, and any other is its descendant |

## Left out

- TimestampSearch.FindBlockByTimestamp: takes the number of loop turns as an argument, because on very long chains the source's loop need not end; a build with overflow checks, which would panic there, is not modelled.
- ValidityClient.RunProgram: takes the number of loop turns as an argument, because the source's loop need not end; `EndsExactly` and `ProgramAcceptsExactly` say for which inputs some number suffices.
- L2Provider.Provider.HeaderByNumber: requires that the walk back ends within some number of steps; over a store with an endless chain of parents the source's loop would not return.
- PreimageStore.InMemoryOracle.Verify: blob buffers are values in a map rather than arrays written in place, and the blobs that the source drops are returned.
- KZG verification of blobs: commented out in the source, so nothing is claimed of blob or `Local` content.
- The derivation pipeline's stages: an arbitrary answer for each step and safe head; that its payloads are the canonical ones is not modelled.
- EVM execution, state tries, transaction decoding, and the conversions to block info and system config: arbitrary deterministic functions.
- The execution payload envelope: identified with the block it is made from; failure to build the executor is not modelled.
- Owner-only setters: transactions of `OutputLog`, but not methods of the class; events, legacy getters, `getL2Output`, proxy mechanics and deployment scripts add only one-line facts.
- The verifier gateway: in each transaction any function of gateway, key, public values and proof; its own code is not modelled.
- Serialization with rkyv, CBOR and bincode, the hint writer, precompile overrides and cycle statistics.
- The online mode of the multi-block program and the native host, which run the same loop against a remote oracle.
- `zkvm-client/src/main.rs`: the loop-free single-block program.
- RPC calls, the HTTP server, the command line and build scripts; a node is a fixed sequence of blocks.
