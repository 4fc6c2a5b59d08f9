# Byteflow: a Dafny model and its proofs

Byteflow runs lightweight flows as bytecode: modules are decoded from bytes and
verified before they run, hot code is compiled, flows hold capabilities that can be
delegated and revoked, and messages cross to other nodes as frames. This project models
the parts of it where a mistake would be hard to see and states what they promise, for
every input, every interleaving or every run.

| file | what it models |
|---|---|
| `Common`, `Values`, `Chunks`, `Trust` | results and integer widths, values and their limits, modules, trust levels |
| `Utf8`, `Wire`, `Codec`, `ModuleFormat`, `Streams` | the module format: specification, round trips, and the cursor-driven reader and writer |
| `Frames`, `Deliver` | remote hop frames, the screen in front of them, and what a send to another node queues |
| `Verifier`, `Machine`, `Loading` | the static verifier, the interpreter's frames and control transfer, soundness of the one for the other, and what the format's limits add to it |
| `Bridge`, `Dedup` | the lock-free hop and byte accounts of the outbound queue; the inbound deduplication window |
| `Bits`, `Caps`, `CapTable`, `CapRaces` | 64-bit words and their one bits; native masks and attenuation; the capability table; interleaved operations and revocation |
| `JitFrames`, `JitArena`, `JitTags` | in-trace calls and returns on slots, tags and spill windows, against a real stack |
| `Replay`, `Stamp` | deterministic replay of host completions; stamping of envelopes |
| `AsmText`, `AsmLine`, `AsmScan` | the text form of constants: specification and round trip, the line it stands on, and the writer and parser loops |

Code that computes is modelled by functions; code that updates state is modelled by
classes, arrays and loops proved against those functions, and the theorems are about the
functions. Concurrent code is a state machine: each atomic access, and each section under
the lock, is one step, and a step names which task moves and what a weak exchange or the
random source answers. Integers are unbounded in Dafny, so widths are subset types and
every wrap, saturation and truncation is written out.

## What does not hold as one might expect

Each of these has its exact condition and a concrete input.

- **Text.** A constant whose text ends in an empty `bytes` swallows a space that follows
  it, and on a line of its own, where the line is trimmed, it is refused. No other constant
  is affected: `AsmText.TextRoundTrip`, `AsmLine.ConstantLineRoundTrip`,
  `AsmText.EmptyBytesSwallowsSpace`.
- **Revocation.** Minting, attenuation, delegation and reissue look at a cell in one
  critical section and insert in a later one. If the flow is revoked in between and then
  bound again, the new cell starts at epoch zero too, and the late insertion resolves
  against it. `CapRaces.RevocationIsFinal` says that this is the only way,
  `CapRaces.RevokedDoesNotResolve` that without a new binding there is none, and
  `CapRaces.LateMintResurrects` is a run from the empty table.
- **Frames.** The screen does not look for repeated map keys or over-long buffers, and a
  hop with one is encoded and not given back by the decoder: `Frames.DecodeUndoesEncode`,
  `Frames.RepeatedKeyIsSentButNotReceived`. The remote send accepts a payload at the
  nesting ceiling, process addresses, an over-long name and a hop from flow zero, and the
  encoder refuses them: `Deliver.QueuedHopEncodes`, `Deliver.DeepestPayloadIsQueuedNotSent`.
- **Verifier.** `StartChild` is checked with its immediate read as unsigned and run with a
  negative one taken for the last index of all: `Machine.StartChildFaults`. This takes a
  chunk of more than two thousand million functions (`Machine.HugeTableTraps`), which can only
  be built in memory; no decoded module is one: `Loading.DecodedModulesRun`.
- **Deduplication.** A rollback does not evict, so a window can stay over capacity with an
  accepted entry in front until the next reservation or commit:
  `Dedup.RollbackLeavesAcceptedFront`, `Dedup.RollbackMayLeaveAcceptedFront`.
- **Compiled registers.** Compiled stores and returns do not check their register against
  the running function's register count, and the verifier does not check it either. A
  compiled `Return` of a register the callee does not have gives the caller a leftover slot
  where the interpreter faults: `JitFrames.ReturnRefines`, `JitFrames.TraceRefinesStack`,
  `JitFrames.StaleSlotIsReturned`.
- **Compiled depth.** The interpreter checks its call depth at every call; compiled code
  checks only its own, and the whole stack is checked when a trace is handed back. A trace
  entered near the limit that calls past it and returns is not stopped:
  `JitFrames.CallRefines`, `JitFrames.TraceIsTransparent`, `JitFrames.CeilingIsPassed`.

## Model

| member | source | states |
|---|---|---|
| `Values.MapHasDuplicateKey` | byteflow/src/bytecode/value.rs:221-229 | true exactly when two entries share a key |
| `Utf8.DecodeUndoesEncode` | byteflow/src/bytecode/format.rs:430-440 | text survives conversion to bytes and the strict conversion back |
| `Utf8.EncodeUndoesDecode` | byteflow/src/bytecode/format.rs:430-440 | the strict conversion accepts only the one byte form of a text: no overlong form, no surrogate |
| `Wire.FromLittleEndianInverts` | byteflow/src/bytecode/format.rs:387-420 | an integer that fits its width is the integer its bytes read as |
| `Wire.LittleEndianInverts` | byteflow/src/bytecode/format.rs:387-420 | any bytes are the little-endian form of the integer they read as, which fits their width |
| `Wire.ReadManyIsCanonical` | byteflow/src/bytecode/format.rs:173-190 | a counted table, for any item codec: accepted bytes are the written form of the items returned, and every item is in range |
| `Wire.ReadWrittenMany` | byteflow/src/bytecode/format.rs:173-190 | a counted table, for any item codec: written items read back, leaving what follows untouched |
| `Codec.ReadWritten` | byteflow/src/bytecode/format.rs:228-300 | for every value within the wire limits, in front of any bytes, at every depth, trust level and header version: it reads back as itself and leaves those bytes, or the reader reports the first thing in reading order that the version or the trust level does not admit |
| `Codec.RefusedDecides` | byteflow/src/bytecode/format.rs:442-565 | nothing is refused exactly when the version has every tag and the trust level admits every constant; if only the trust level objects, the error names the first constant it objects to |
| `Codec.ReadIsCanonical` | byteflow/src/bytecode/format.rs:442-565 | whatever bytes are accepted are the bytes the writer produces for the value returned, followed by what was left; the value respects every limit, the version and the trust level |
| `Codec.ReadWrittenEntries` | byteflow/src/bytecode/format.rs:521-547 | map entries read back in order, or the first refusal among them, an unknown tag or a forbidden constant, is the one reported |
| `Codec.ReadEntriesIsCanonical` | byteflow/src/bytecode/format.rs:521-547 | accepted map entries are the written form of the entries returned, each with a key and a value in range |
| `ModuleFormat.WalksDecideRepresentable` | byteflow/src/bytecode/format.rs:321-357 | the three recursive walks over a constant agree with the reader: a value has a tag the version does not know exactly when a walk finds it |
| `ModuleFormat.ModuleAbiDecidesRepresentable` | byteflow/src/bytecode/format.rs:93-103 | a pool can be read under a known version exactly when that version is at least the chosen one |
| `ModuleFormat.DecodeEncoded` | byteflow/src/bytecode/format.rs:144-211 | a module written under any known version and read at any trust level: the module, or the first refusal in its pool; there is none exactly when the version is new enough and the trust level admits every constant |
| `ModuleFormat.DecodeUndoesEncode` | byteflow/src/bytecode/format.rs:108-134 | decoding what was encoded gives the chunk back if and only if the chunk respects the name, count, nesting and length limits |
| `ModuleFormat.DecodeIsCanonical` | byteflow/src/bytecode/format.rs:144-211 | an accepted buffer is the encoding of the chunk returned under its own header version, which may only be newer than needed; all limits hold and nothing trails |
| `ModuleFormat.ModuleAbiIsLeast` | byteflow/src/bytecode/format.rs:93-103 | the header version chosen is the least one under which the module can be read at all |
| `ModuleFormat.ValidatePoolFindsFirst` | byteflow/src/bytecode/verify.rs:75-119 | for every pool: the verifier objects exactly when the trust level is not full and some constant is nested too deep or carries authority at any depth, and reports the first such constant, with nesting reported as a capability |
| `ModuleFormat.TrustGatesAgree` | byteflow/src/bytecode/format.rs:460-491 | decoder and verifier refuse the same modules for their constants, for the same kind, at every trust level |
| `Streams.Writer.PutValue` | byteflow/src/bytecode/format.rs:228-300 | appends the specified bytes and nothing else |
| `Streams.Writer.PutModule` | byteflow/src/bytecode/format.rs:108-134 | appends the specified module bytes |
| `Streams.Reader.TakeBytes` | byteflow/src/bytecode/format.rs:374-381 | moves the cursor past exactly the bytes returned, or not at all |
| `Streams.Reader.GetValue` | byteflow/src/bytecode/format.rs:442-565 | the cursor reader returns what the specification reads at the cursor and stops where it stops, error cases included |
| `Streams.Reader.GetEntries` | byteflow/src/bytecode/format.rs:521-547 | the entry loop of a map follows the specification, including which error comes first |
| `Streams.Reader.GetFunctions` | byteflow/src/bytecode/format.rs:173-190 | the function table loop follows the specification |
| `Streams.Reader.GetCode` | byteflow/src/bytecode/format.rs:190-207 | the instruction loop follows the specification, with each unknown opcode reported at its index |
| `Streams.DecodeModule` | byteflow/src/bytecode/format.rs:144-211 | the whole cursor-driven decoder computes the specified result on every byte string |
| `Frames.ScreenDecides` | byteflow/src/scheduler/distribution.rs:554-602 | the screen passes a value exactly when it is shallow enough, its containers short enough and it names no process or capability anywhere |
| `Frames.BoundedIsShortAndDistinct` | byteflow/src/bytecode/value.rs:268-307 | the container limits of the codec are the screen's length caps plus distinct keys, which the screen does not look at |
| `Frames.DecodeUndoesEncode` | byteflow/src/scheduler/distribution.rs:454-518 | a hop that can be encoded is decoded to itself if and only if no map in it repeats a key and no buffer or key is over the blob limit |
| `Frames.DecodeIsCanonical` | byteflow/src/scheduler/distribution.rs:479-518 | every accepted frame is byte for byte the encoding of the hop returned |
| `Frames.OnlyPortableHopsCross` | byteflow/src/scheduler/distribution.rs:454-518 | exactly which hops can be encoded, and exactly which can come out of a decoder: a real sender equal to the envelope's, a name of 1 to 256 bytes, a screened payload |
| `Frames.RepeatedKeyIsSentButNotReceived` | byteflow/src/scheduler/distribution.rs:554-602 | a hop that is encoded and then not given back by the decoder |
| `Frames.TakeSlice` | byteflow/src/scheduler/distribution.rs:535-543 | a slice at the cursor, which moves past it, or nothing and no move |
| `Frames.DecodeFrameAt` | byteflow/src/scheduler/distribution.rs:479-518 | the cursor-driven decoder computes the specified result on every byte string |
| `Deliver.QueuedHopIsStamped` | byteflow/src/scheduler/distribution.rs:370-406 | what a send to another node queues: the flow as sender wherever none was set, no reply address, request ids set at every level, payload otherwise the one given |
| `Deliver.QueuedHopEncodes` | byteflow/src/scheduler/distribution.rs:370-406 | exactly which queued hops can be encoded: from a flow, with a name that fits, one level of nesting to spare and no address |
| `Deliver.QueuedHopArrives` | byteflow/src/scheduler/distribution.rs:370-406 | a queued hop that is encoded arrives as sent if and only if no buffer is over the blob limit |
| `Deliver.DeepestPayloadIsQueuedNotSent` | byteflow/src/scheduler/distribution.rs:383-395 | a payload at the nesting ceiling is queued and then cannot be encoded |
| `Verifier.EndAfterIsNextEntry` | byteflow/src/bytecode/verify.rs:657-666 | a span ends at the least later entry, or at the end of the code |
| `Verifier.StartBeforeIsOwner` | byteflow/src/bytecode/verify.rs:694-716 | the owner of an instruction is the greatest entry at or before it |
| `Verifier.ExclusiveEnd` | byteflow/src/bytecode/verify.rs:657-666 | the loop finds that end |
| `Verifier.FunctionSpan` | byteflow/src/bytecode/verify.rs:694-716 | the loop finds that owner and that end, or that there is none |
| `Verifier.SortedEntries` | byteflow/src/bytecode/verify.rs:577-600 | the entry points without repeats, in order, none lost |
| `Verifier.RegisterLimits` | byteflow/src/bytecode/verify.rs:577-600 | the table filled span by span holds at every instruction the least register file among the functions that share its span, before any entry is range-checked |
| `Verifier.LimitBetween` | byteflow/src/bytecode/verify.rs:577-600 | between consecutive sorted entries the per-instruction search and the span-by-span fill agree |
| `Verifier.SpanIsShared` | byteflow/src/bytecode/verify.rs:694-716 | every instruction of a span has that same span |
| `Verifier.VerifyWith` | byteflow/src/bytecode/verify.rs:305-515 | returns the first refusal in the order the checks are made, and accepts exactly the chunks that pass every check |
| `Verifier.RejectFallThrough` | byteflow/src/bytecode/verify.rs:672-690 | finds the first function that can run into the one after it |
| `Verifier.AcceptedIsNoRefusal` | byteflow/src/bytecode/verify.rs:305-515 | no refusal in the ordered search is the same as every check holding everywhere |
| `Machine.AcceptedKeepsPromise` | byteflow/src/bytecode/verify.rs:305-515 | on an accepted chunk, whatever instruction a well-shaped frame is about to run, its indices, arities and register windows are in range and every place it can go next is inside the same function |
| `Machine.FrameOwnsItsSpan` | byteflow/src/bytecode/verify.rs:577-600 | the limit the verifier used for an instruction is at most the register count of any frame that runs it, even when several functions share the entry |
| `Machine.NextStaysInside` | byteflow/src/bytecode/verify.rs:672-690 | falling through never leaves a function that another function follows |
| `Machine.WindowGathers` | byteflow/src/vm/machine/mod.rs:910-917 | a register window inside the frame is gathered without a fault and in order |
| `Machine.InvokeOk` | byteflow/src/vm/machine/mod.rs:1189-1255 | a call or tail call of an accepted chunk enters the callee in shape, whatever the stack |
| `Machine.PopFrameOk` | byteflow/src/vm/machine/mod.rs:1779-1809 | a return stores into a register the caller has |
| `Machine.StartInShape` | byteflow/src/vm/machine/mod.rs:70-108 | a machine starts on an accepted chunk exactly when the function exists, for any arguments |
| `Machine.StepKeepsShape` | byteflow/src/vm/machine/mod.rs:987-1030 | one instruction of an accepted chunk keeps the stack in shape; the faults left are listed per opcode: an explicit trap, a refusal, a full call stack, and a single register operand, which no static check covers |
| `Machine.RunKeepsShape` | byteflow/src/vm/machine/mod.rs:987-1030 | over runs of any length and any answers of the host: the run stays in shape and asks only for effects sound for the frame that asked, or stops at one of its own steps, on a fault allowed in the state it had reached |
| `Machine.VerifierIsSound` | byteflow/src/bytecode/verify.rs:305-515 | from any function and arguments every run of a chunk the verifier accepts stays in shape, and every flow it asks the scheduler to start can start in shape |
| `Machine.StartChildFaults` | byteflow/src/vm/machine/mod.rs:1577-1599 | an accepted `StartChild` faults exactly when its immediate is negative and the table has fewer than 2^32 functions; a negative one is accepted only with more than 2^31 |
| `Machine.HugeTableTraps` | byteflow/src/vm/machine/mod.rs:1577-1599 | an accepted chunk, too large for the module format, that does fault so |
| `Loading.FittingChunksRun` | byteflow/src/bytecode/verify.rs:305-515 | an accepted chunk within the format's limits never ends in a bad function reference, however long it runs and whatever the host answers, and every child it starts takes no arguments |
| `Loading.DecodedModulesRun` | byteflow/src/bytecode/format.rs:144-211 | so does every accepted module that was decoded, from whatever bytes |
| `Machine.CallEntersCallee` | byteflow/src/vm/machine/mod.rs:1189-1221 | a call: arguments in order in the first registers, `Unit` in the others, the caller left past the call |
| `Machine.StepWritesOnlyTop` | byteflow/src/vm/machine/mod.rs:351-421 | for any chunk, no instruction writes a register of a frame below the running one, except a return into the register named by its call |
| `Machine.CallersAreFrozen` | byteflow/src/vm/machine/mod.rs:351-421 | over any run that does not return below a depth, the frames below that depth do not change |
| `Bridge.AdvanceMovesShares` | byteflow/src/scheduler/distribution.rs:73-122 | each atomic access changes each counter by exactly what the acting task's own share changes by, and neither counter passes its limit |
| `Bridge.StepKeepsAccounts` | byteflow/src/scheduler/distribution.rs:73-122 | both counters are the sums of the shares after any step of any task |
| `Bridge.StepKeepsFifo` | byteflow/src/scheduler/distribution.rs:197-217 | what was pushed is what was received followed by what is queued, after any step |
| `Bridge.BridgeIsExact` | byteflow/src/scheduler/distribution.rs:73-122 | in every reachable state of any interleaving, with weak exchanges failing at will: counters are exact and within limits, delivery is first in first out |
| `Bridge.SubtractionsAreExact` | byteflow/src/scheduler/distribution.rs:108-122 | neither the wrapping nor the saturating subtraction ever wraps or saturates |
| `Bridge.QuiescentIsEmpty` | byteflow/src/scheduler/distribution.rs:52-62 | when every charge has been refused or dropped, both counters are zero |
| `Bridge.LiveHopsWithinLimit` | byteflow/src/scheduler/distribution.rs:184-217 | hops queued or in the host's hands never outnumber the limit |
| `Dedup.RemoteFrameDedup.TryReserve` | byteflow/src/scheduler/distribution.rs:304-323 | one pass of the loop, with its outcome and whole new window |
| `Dedup.RemoteFrameDedup.CommitKey` | byteflow/src/scheduler/distribution.rs:326-337 | the new window of a commit |
| `Dedup.RemoteFrameDedup.RollbackKey` | byteflow/src/scheduler/distribution.rs:340-347 | the new window of a rollback |
| `Dedup.RemoteFrameDedup.EvictAccepted` | byteflow/src/scheduler/distribution.rs:351-361 | the loop drops the specified prefix |
| `Dedup.EvictStopsAtPending` | byteflow/src/scheduler/distribution.rs:351-361 | only accepted entries leave, from the front, never below capacity, up to a pending one |
| `Dedup.RollbackRemovesOne` | byteflow/src/scheduler/distribution.rs:340-347 | in a window of distinct keys a rollback removes exactly the reservation it names |
| `Dedup.WindowMatchesTickets` | byteflow/src/scheduler/distribution.rs:292-361 | in every reachable window a key has one entry at most and the pending entries are exactly the open tickets |
| `Dedup.FreshOnlyAfterClose` | byteflow/src/scheduler/distribution.rs:304-323 | a key is handed out as fresh if and only if every earlier ticket for it was rolled back, or committed and evicted |
| `Dedup.EvictedBehindCapacity` | byteflow/src/scheduler/distribution.rs:351-361 | a ticket is evicted only when the window keeps at least `capacity` younger reservations |
| `Dedup.EvictedWasCommitted` | byteflow/src/scheduler/distribution.rs:351-361 | over whole runs an evicted ticket is neither open nor rolled back |
| `Dedup.OverCapacityMeansPendingFront` | byteflow/src/scheduler/distribution.rs:304-337 | after a reservation or a commit, a window over capacity has a pending entry in front |
| `Dedup.RollbackLeavesAcceptedFront` | byteflow/src/scheduler/distribution.rs:340-347 | over all reachable windows, exactly when a rollback leaves one over capacity with an accepted entry in front: at least two entries too many, and the entry then in front accepted; if it was not so before, the entry rolled back was in front |
| `Dedup.RollbackMayLeaveAcceptedFront` | byteflow/src/scheduler/distribution.rs:340-347 | a run from the empty window that reaches such a state |
| `Bits.AndNotZeroIsInclusion` | byteflow/src/bytecode/cap.rs:280-293 | on 64-bit words, the masked test is inclusion of one bits |
| `Bits.And` | byteflow/src/bytecode/cap.rs:265-277 | the one bits of a bitwise and are those of both words |
| `Bits.PutBit` | byteflow/src/bytecode/cap.rs:238-248 | or-ing a shifted one inserts one bit, and-not with it removes one |
| `Bits.TestBit` | byteflow/src/bytecode/cap.rs:255-261 | the masked test reads one bit |
| `Bits.LowMask` | byteflow/src/bytecode/cap.rs:224-236 | one shifted and less one has exactly the bits below the shift |
| `Caps.AllowsNative` | byteflow/src/bytecode/cap.rs:255-261 | reads the bit of an index, and nothing is allowed past the last word |
| `Caps.IntersectWords` | byteflow/src/bytecode/cap.rs:265-277 | the word loop computes the intersection of the masks the words stand for |
| `Caps.FullMask` | byteflow/src/bytecode/cap.rs:224-236 | allows exactly the natives there are, whatever the tail of the last word |
| `Caps.FromIndices` | byteflow/src/bytecode/cap.rs:238-248 | allows exactly the listed natives that exist |
| `Caps.IntersectAllows` | byteflow/src/bytecode/cap.rs:265-277 | allows exactly what both masks allow, for masks of different lengths |
| `Caps.IsSubsetOf` | byteflow/src/bytecode/cap.rs:280-293 | true exactly when every allowed native is allowed by the other, for masks of different lengths |
| `Caps.AttenuateIsMeet` | byteflow/src/bytecode/cap.rs:412-425 | attenuation is the greatest authority within both the source and the request |
| `Caps.ChainNarrows` | byteflow/src/scheduler/delegate.rs:68-81 | along any chain of delegations every capability is within every ancestor |
| `CapTable.InsertKeepsInv` | byteflow/src/scheduler/capability.rs:152-183 | an insertion keeps cells, lineage and reply index well formed |
| `CapTable.MintOrReuseKeepsInv` | byteflow/src/scheduler/capability.rs:209-261 | so does minting or reusing a reply address |
| `CapTable.RevokeFlowKeepsInv` | byteflow/src/scheduler/capability.rs:446-458 | so does revoking a flow: the reply index keeps no entry of it |
| `CapTable.RevokeTableKeepsInv` | byteflow/src/scheduler/capability.rs:328-337 | so does revoking a table |
| `CapTable.CellsAreDistinct` | byteflow/src/scheduler/capability.rs:132-138 | no two bound flows or tables share a revocation cell |
| `CapTable.ReuseIsStable` | byteflow/src/scheduler/capability.rs:209-261 | a reply address that covers the rights asked for is handed out again and nothing changes |
| `CapTable.Registry.InsertEntry` | byteflow/src/scheduler/capability.rs:152-183 | draws at most 32 ids and takes the first that is free and not zero |
| `CapTable.Registry.MintOrReuseId` | byteflow/src/scheduler/capability.rs:209-261 | the new table and the id |
| `CapTable.Registry.ResolveId` | byteflow/src/scheduler/capability.rs:278-311 | resolves exactly a known token presented by its holder, with rights that cover the request, whose target still has a cell at its epoch; otherwise the first of these that fails |
| `CapTable.Registry.Revoke` | byteflow/src/scheduler/capability.rs:446-458 | the new table: the cell bumped, no token held by or aimed at the flow left |
| `CapTable.Registry.Mint` | byteflow/src/scheduler/capability.rs:185-199 | the id given out resolves for its holder with the rights asked for, and no other entry changes |
| `CapTable.Registry.AttenuateId` | byteflow/src/scheduler/capability.rs:341-382 | on success the only change is one new entry whose authority is within its source; on failure none |
| `CapTable.Registry.ReissueFor` | byteflow/src/scheduler/capability.rs:404-425 | a live source gets exactly one new entry: the new holder, the source's rights and mask, its lineage extended by the source, its cell; every other entry is kept; otherwise nothing changes |
| `CapRaces.StepKeepsInv` | byteflow/src/scheduler/capability.rs:341-425 | every critical section of every multi-step operation keeps the table and the operations in flight well formed |
| `CapRaces.ReachableTables` | byteflow/src/scheduler/capability.rs:341-425 | under any interleaving, every entry is within every capability it was derived from and the reply index is never stale |
| `CapRaces.RevokedDoesNotResolve` | byteflow/src/scheduler/capability.rs:446-458 | after a flow is revoked and until it is bound again nothing aimed at it resolves, whatever was in flight |
| `CapRaces.RevokedTableDoesNotResolve` | byteflow/src/scheduler/capability.rs:328-337 | the same for tables |
| `CapRaces.RevocationIsFinal` | byteflow/src/scheduler/capability.rs:446-458 | authority drawn from the revoked cell can never resolve again, over all futures with rebinding, if and only if no operation that read that cell is still to insert |
| `CapRaces.FinalWithoutThreat` | byteflow/src/scheduler/capability.rs:446-458 | the half that holds over every future run |
| `CapRaces.NotFinalWithThreat` | byteflow/src/scheduler/capability.rs:341-382 | the other half, with the run that brings the authority back |
| `CapRaces.LateMintResurrects` | byteflow/src/scheduler/capability.rs:185-199 | such a run from the empty table: a mint that read its epoch before the flow was revoked and bound again resolves afterwards |
| `CapRaces.RunKeepsOnePerPair` | byteflow/src/scheduler/capability.rs:209-236 | with one rights value in use, at most one reply entry exists for each pair of holder and target, in every run |
| `CapRaces.ReplyAddressIsStable` | byteflow/src/scheduler/capability.rs:209-236 | a reply address once given out is given out again, until either flow is revoked, under any interleaving |
| `JitFrames.SetBitSetsOne` | byteflow/src/jit/dispatch.rs:759-764 | setting a tag bit changes that register's bit and no other, across the four words |
| `JitFrames.SlotRoundTrip` | byteflow/src/jit/dispatch.rs:553-569 | a scalar survives being kept as a slot and tags |
| `JitFrames.InheritedIsRegister` | byteflow/src/jit/call.rs:188-335 | the slot and inherited tags of an argument stand for the caller's register, whether or not the trace wrote it |
| `JitFrames.CalleeStartsPlain` | byteflow/src/jit/call.rs:188-335 | after a compiled call the live slots stand for the arguments followed by `Unit` |
| `JitFrames.CallEffect` | byteflow/src/jit/call.rs:188-335 | at any depth below the trace's own limit, a compiled call leaves the caller past the call and pushes the callee's frame with the arguments and `Unit` above them; it looks at no other frame |
| `JitFrames.CallRefines` | byteflow/src/vm/machine/mod.rs:1189-1221 | a compiled call does what the interpreter does if and only if the frames underneath and those of the trace leave room for one more; otherwise the interpreter stops with a stack overflow |
| `JitFrames.ReturnEffect` | byteflow/src/jit/call.rs:371-480 | a compiled return of any register, in the callee or not, gives the caller what that slot and its tags stand for and changes nothing else |
| `JitFrames.ReturnRefines` | byteflow/src/jit/call.rs:371-480 | it agrees with the interpreter if and only if the callee has the register; otherwise the interpreter faults |
| `JitFrames.StoreEffect` | byteflow/src/jit/compiler.rs:1130-1160 | a compiled store of any register changes that register, or no frame at all |
| `JitFrames.RunRefines` | byteflow/src/jit/call.rs:112-480 | over any sequence of stores, calls and returns, above any number of frames: the frames of a real stack, or its first fault; which of the two, and which fault, depends on register counts and depths only |
| `JitFrames.TraceRefinesStack` | byteflow/src/jit/dispatch.rs:411-444 | at every point of every trace the frames that would be handed back are those of a machine with a real stack, if and only if every register named exists at the time and no call finds that stack full |
| `JitFrames.StaleSlotIsReturned` | byteflow/src/jit/call.rs:627-638 | a trace where they are not: a one-register callee returns register 2 and the caller gets its own old value where the interpreter faults |
| `JitFrames.TraceIsTransparent` | byteflow/src/jit/dispatch.rs:411-444 | entering, running and leaving a trace ends as interpreting the same operations does, frames and refusals included, if and only if the interpreter does not fault, or faults on a full stack and the trace is still over the limit when it is handed back |
| `JitFrames.CeilingIsPassed` | byteflow/src/vm/machine/mod.rs:1189-1221 | at the depth limit a trace that calls and returns is handed back, where the interpreter stops with a stack overflow |
| `JitFrames.NoFaultNoOverflow` | byteflow/src/vm/machine/mod.rs:258-290 | a trace in which nothing would have faulted is never refused when it is handed back |
| `JitArena.CopyWindow` | byteflow/src/jit/call.rs:661-694 | copies exactly that range of slots |
| `JitArena.LoadCallee` | byteflow/src/jit/call.rs:627-659 | zeroes the callee's registers, then copies the arguments back out of the spilled window; the slots above keep what they held |
| `JitArena.PushWindow` | byteflow/src/jit/call.rs:519-546 | filling one window and one record adds one suspended activation and disturbs none below |
| `JitArena.Arena.StoreSlot` | byteflow/src/jit/compiler.rs:1130-1160 | a tagged store on the arrays, for any register |
| `JitArena.Arena.EnterCall` | byteflow/src/jit/call.rs:112-335 | on the arrays, what a call does to the abstract trace; at the depth limit nothing changes |
| `JitArena.Arena.LeaveCall` | byteflow/src/jit/call.rs:338-480 | on the arrays, what a return of any register does to the abstract trace |
| `JitArena.Arena.InstallUnwind` | byteflow/src/jit/dispatch.rs:411-444 | the frames rebuilt from the arrays are those of the abstract trace |
| `JitArena.Arena.RebuildFrames` | byteflow/src/jit/dispatch.rs:411-481 | every window after the first, then the live slots, each with the destination its call named |
| `JitArena.FrameValues` | byteflow/src/jit/dispatch.rs:508-551 | written registers from their slots and tag words, the others from the frame underneath |
| `JitTags.TestReg` | byteflow/src/jit/dispatch.rs:759-764 | on four 64-bit words, the masked test reads the bit of a register |
| `JitTags.PutReg` | byteflow/src/jit/compiler.rs:1273-1293 | on four 64-bit words, sets or clears the bit of one register |
| `JitTags.MarkReg` | byteflow/src/jit/compiler.rs:1130-1160 | on the four bitmaps, marks a register written with its type bits |
| `JitTags.ReadKind` | byteflow/src/jit/dispatch.rs:553-569 | the type bits of a register |
| `JitTags.CalleeWords` | byteflow/src/jit/call.rs:280-305 | the tag words of a new callee: the arguments' types, then `Unit`, nothing above |
| `Replay.ReplayQueue.Insert` | byteflow/src/scheduler/deterministic.rs:38-42 | inserts, or reports a stale, repeated or last sequence and changes nothing |
| `Replay.ReplayQueue.Pop` | byteflow/src/scheduler/deterministic.rs:47-60 | the next sequence, when it is there |
| `Replay.HostReplayGate.Bind` | byteflow/src/scheduler/deterministic.rs:109-124 | the new gate and the error, for a ticket that completed before or after |
| `Replay.HostReplayGate.Stage` | byteflow/src/scheduler/deterministic.rs:128-136 | the new gate and the error |
| `Replay.HostReplayGate.DrainReady` | byteflow/src/scheduler/deterministic.rs:138-144 | the loop returns the run of ready hops and leaves the rest |
| `Replay.DrainKeepsInv` | byteflow/src/scheduler/deterministic.rs:138-144 | draining delivers up to the first sequence that lacks its hop and stops there |
| `Replay.ReplayDelivers` | byteflow/src/scheduler/deterministic.rs:105-145 | no call of a script fails, and a drained script has delivered exactly the hops its bindings and completions determine, in sequence order |
| `Replay.DeliveryIsUnique` | byteflow/src/scheduler/deterministic.rs:105-145 | a script determines that delivery uniquely |
| `Replay.ArrivalOrderDoesNotMatter` | byteflow/src/scheduler/deterministic.rs:105-145 | two scripts with the same bindings and completions deliver the same hops in the same order, however they interleave |
| `Stamp.StampSucceeds` | byteflow/src/bytecode/value.rs:405-455 | stamping succeeds exactly on values within the limits, and then fills the unset fields of every envelope and nothing else |
| `Stamp.StampIsCompleteAndIdempotent` | byteflow/src/bytecode/value.rs:405-455 | on every well-formed value: it succeeds, leaves no unset field, keeps shape, limits and live capabilities, and a second pass changes nothing and mints nothing |
| `Stamp.MintsOncePerUnset` | byteflow/src/bytecode/value.rs:405-455 | exactly one id is minted per unset request id |
| `Stamp.FilledAreDrawn` | byteflow/src/bytecode/value.rs:405-455 | the ids filled in are the ids minted, in order, payloads before their envelopes |
| `Stamp.RequestIdsAreDistinct` | byteflow/src/vm/machine/mod.rs:159-171 | the ids one pass fills in are pairwise distinct if and only if the counter has that many left below its top |
| `Stamp.FreshRequestId` | byteflow/src/vm/machine/mod.rs:159-171 | ids start at 1, also from a zero counter, count up, stay inside the positive 64-bit signed range and repeat at its top |
| `Stamp.RequestIds.StampUnset` | byteflow/src/bytecode/value.rs:405-455 | the recursive pass with a counter behind it computes the specified value and counter |
| `AsmText.IntRoundTrip` | byteflow/src/bytecode/asm.rs:372-482 | every 64-bit signed integer, the least included, survives being written and parsed |
| `AsmText.UnescapeUndoesEscape` | byteflow/src/bytecode/asm.rs:173-209 | every string survives quoting, and the parser stops right after the closing quote |
| `AsmText.UnhexUndoesHex` | byteflow/src/bytecode/asm.rs:372-482 | every byte string survives hexadecimal |
| `AsmText.TakeShownFloat` | byteflow/src/bytecode/asm.rs:336-348 | every float survives, bit pattern included, through its decimal form when that parses back and through the bit form otherwise |
| `AsmText.ShowAppends` | byteflow/src/bytecode/asm.rs:254-332 | writing in front of a continuation is writing and then appending it |
| `AsmText.TextRoundTrip` | byteflow/src/bytecode/asm.rs:254-482 | for every constructible constant and every delimited continuation: parsing what was written returns the constant and the continuation, if and only if it is not the case that the text ends in an empty `bytes` and a space follows |
| `AsmLine.ConstantRoundTrip` | byteflow/src/bytecode/asm.rs:54-102 | on a line of its own, where the text is trimmed before it is parsed: every constructible constant survives, and is refused if and only if its text ends in an empty `bytes` |
| `AsmLine.CutAfter` | byteflow/src/bytecode/asm.rs:111-137 | the scanner cuts right after any code that leaves it outside quotes and escapes |
| `AsmLine.ShowIsQuiet` | byteflow/src/bytecode/asm.rs:254-332 | printing any value leaves the scanner outside quotes, with no line break and no bare semicolon, in front of any such continuation |
| `AsmLine.ConstantLineRoundTrip` | byteflow/src/bytecode/asm.rs:54-137 | the whole line, with any comment after it: the printed constant has no line break, the comment scanner keeps all of it and cuts what follows, and it is read back, or refused if and only if its text ends in an empty `bytes` |
| `AsmText.EmptyBytesSwallowsSpace` | byteflow/src/bytecode/asm.rs:372-482 | the excepted case of the round trip is real |
| `AsmScan.TextWriter.PutValue` | byteflow/src/bytecode/asm.rs:254-332 | appends the specified text |
| `AsmScan.ScanString` | byteflow/src/bytecode/asm.rs:173-209 | the character loop computes the specified unescaping |
| `AsmScan.ScanHex` | byteflow/src/bytecode/asm.rs:372-482 | the digit loop computes the specified bytes |
| `AsmScan.ScanValue` | byteflow/src/bytecode/asm.rs:372-482 | the parser computes the specified result on every text |
| `AsmScan.ScanList` | byteflow/src/bytecode/asm.rs:514-534 | so does the item loop |
| `AsmScan.ScanMap` | byteflow/src/bytecode/asm.rs:536-567 | so does the entry loop |
| `AsmScan.CutComment` | byteflow/src/bytecode/asm.rs:111-137 | the character loop computes the specified cut |

## Left out

- Effects of the other opcodes (arithmetic, containers, messaging, timers): in `Machine` such an instruction leaves the running frame with any register contents of the same count, or is refused, so the soundness results hold whatever it computes; its own faults are the refusal.
- Memory budgets and quotas: a refusal at any charge is one of the host's answers (`Host.refuse`); how much is charged is not modelled.
- Scheduling, mailboxes, timers, supervision and the transport under the frames.
- Blocking: the condition variables of the bridge and of the deduplication window. `Dedup.RemoteFrameDedup.TryReserve` is one pass of the loop, and its outcome `Wait` is where the source blocks.
- Dedup.RemoteFrameDedup.TryReserve: the ticket number is a counter of the model, so that runs can speak of reservations; the source identifies a reservation by its key alone.
- Mutex poisoning, except that a push on a poisoned queue gives its charge back.
- Memory orderings: accesses happen one at a time. A load of a bridge counter may return any value, and an epoch read outside the lock any value the cell has held; nothing weaker is modelled.
- Rights are given by their one bits throughout; native masks and tag bitmaps are 64-bit words in the methods and sets in what is stated about them.
- Entropy of capability ids: the ids drawn are a parameter, and the results hold for every sequence of draws.
- CapRaces.RevocationIsFinal: needs one id that is not zero and not in the table, for the half that builds a run; the host's revocation of native and scheduler cells is not modelled, and neither is the listing of held capabilities.
- CapRaces.ReplyAddressIsStable: for runs in which reply addresses are asked for with one rights value, as the runtime does (always the send right); an address that does not cover a larger request is replaced by a new one.
- CapTable.Registry.AttenuateId: the operation run without interruption; `CapRaces` splits it at the places where the source releases the lock.
- Cranelift code and instruction selection: `JitFrames` and `JitArena` model what the emitted stores do to slots, tags, records and spill windows, not how they are emitted. Budget accounting, the flushing of a `Move` onto its own register and the compiled arithmetic are not modelled.
- JitFrames.TraceIsTransparent: for traces entered on scalars, as the source requires before entering one, and whose calls have the windows the verifier checks (`JitFrames.Formed`).
- JitArena.Arena.LeaveCall: what lies past the slot array is not modelled; the word a return of such a register would load is the parameter `stray`, and the results hold for every one.
- JitArena.Arena.StoreSlot: in a trace without calls a store above the live registers is dropped; the model writes the slot, which no frame of such a trace shows.
- AsmLine.ConstantLineRoundTrip: assumes further of the decimal form of floats that it has no quote, semicolon or line break.
- AsmText.TextRoundTrip: the decimal form of floats is a pair of functions of which only this is used: a decimal form is a token that does not look like the bit form. Whether it parses back to the same bits is not assumed, because the source checks it.
- The line-oriented rest of the assembler (the other directives, instructions, line numbers and messages of errors); of the lines, `AsmLine.ParseLine` models those that begin with `.const`.
- The text of error messages; where the source distinguishes errors, the model does.
- `map_caps`, sizes of values and the display forms of values.
