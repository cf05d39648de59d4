# wake_sol in Dafny

A model of the parts of wake_sol whose correctness is hardest to see, with proofs of what they
promise. `dafny verify dfyconfig.toml` checks all of it.

- **Borsh codec** (`Codec`, `CodecTheorems`, `CodecCanonical`, `CodecLimits`, `CodecMachine`, on top of
  `Bytes` and `Utf8`). Compiled types are nodes and a graph of definitions, which may be cyclic. `Read`
  and `Write` say what a node does; the classes `Cursor` and `Encoder` do it step by step, with the
  depth counter and the length guards. Reading back what was written succeeds exactly when the nesting
  fits the depth guard and no vector announces more elements than bytes follow it. The reader accepts
  exactly the encodings of the values of the type.
- **From IDL to bytes** (`Lowering`, `LoweringTheorems`, `BorshScalars`, `TypeCache`, `TypeCacheSound`,
  `TypeCacheMachine`, `Generated`, `Dispatch`, `DispatchDecode`). IDL types become annotations,
  annotations become nodes through a cache that recursive classes share and that failed compilations
  leave behind. The reference is an independent definition of the Borsh encoding over IDL types. Every
  IDL value is carried by a Python value that is written as exactly those bytes, and distinct values
  have distinct carriers, `Some(None)` and `None` included.
- **Call traces** (`CallTree`, `Text`, `LogLines`, `Attribution`, `Emission`, `EventHoist`,
  `HoistLoss`, `TraceBuild`, `ExecutionEvents`, `EventOrder`, `ExecutionRecords`, `ErrorOrigin`,
  `FailureLoss`, `ExecutionOrigin`, `ExecutionFailures`). The tree is rebuilt from stack heights, the
  log stream is attributed to its nodes, and event CPIs become events. The reference is an execution: a
  forest of calls that emits log lines as text. Attribution inverts emission for every forest and
  wherever the stream is cut off; from a whole stream the execution itself comes back, with empty
  records for the instructions behind a failed one. The program named for an error is the one the
  renderer shows it on, and the one that failed unless the failure passed through an event CPI.
- **Fork hydration** (`Hydration`, `HydrationTheorems`, `HydrationSafety`, `HydrationLimits`,
  `HydrationReplay`, `HydrationLarge`, `HydrationMessages`, `HydrationMachine`). Accounts are fetched
  through a recording store and written into the machine on demand. A session that succeeded online
  replays offline, state for state, unless one fetch got two answers for one key; a session whose
  operations fit in one batch, or ask for distinct keys with few programs among them, always does.
- **Multiprocess runner** (`MpRunner`, `MpSafety`, `MpSteps`, `MpTheorems`, `MpRequests`, `MpLate`,
  `MergedCoverage`). Server, workers and the workers' exporter threads as a state machine over a
  bounded queue and two pipes per worker. One inductive invariant gives deadlock freedom, bounds every
  run, and accounts for every report, every debugger request and the merged coverage.
- **Precompile instructions** (`Precompile`, `PrecompileTheorems`, `PrecompileAccepts`,
  `PrecompileMachine`). Offset structs are followed the way the runtime follows them, and lead to the
  claimed bytes.
- **Coverage** (`LineFold`, `Lcov`, `LcovTheorems`, `LcovNumbers`, `LcovOrder`, `LcovText`, `Builds`).
  Statement rows are folded to line counts; LCOV text is written, read and merged, and depends on
  nothing but the counts; reports of different builds are refused.

Functions that the code obtains from elsewhere are parameters: base64, which names are Python
identifiers, the RPC endpoint's answers, which accounts `set_account` accepts, how a lookup table parses,
and what a worker's tests do.

Where the code does not do what one would expect, the model keeps the code's behaviour and lemmas say
exactly when it differs:

- A vector of zero-size elements is written but refused on reading (`ZeroSizeVectorRefused`); the
  general condition is `VecsFit` in `ReadBack`.
- An `OptionNode` around a nullable node has two spellings of `None` (`OptionCanonicalIff`); the
  generator never produces one (`LoweredPlain`).
- A class whose compilation failed can leave another class cached around its abandoned node
  (`StaleAfterFailure`). Over any history, an entry can be relied on if and only if its class lies in a
  closed set of supported classes (`CachedIff`, `CompileTypeIff`).
- A program message that opens with a marker verb is taken for the marker (`LogReadIff`).
- After the log stream has diverged from the tree, all further text goes to the frame that was open
  (`AfterDivergence`, `StrayText`).
- An event CPI is dropped with everything in and below it. So hoisting keeps all events of a tree if
  and only if nothing is emitted in or below an event CPI (`HoistEventsIff`), and all calls if and only
  if nothing is called there (`HoistCallsIff`, `CallLost`). For executions: `EventsOfExecution`,
  `EventLost`.
- A failed event CPI is dropped with the failing path below it. So the trace tells of every failure of
  an execution if and only if no event CPI failed, nor anything below one (`HoistFailuresIff`,
  `OriginKept`); otherwise the error can be named after a program that only passed it on
  (`WrongProgramNamed`).
- A hydration that fails after its first fetch has resolved addresses it did not write, and a retry
  reports success without fetching them (`RetryAfterFailure`, `SecondFetchFails`, `WriteFails`).
  An account of an excluded owner, or at the address of an excluded program, is written if and only if
  it is followed up as programdata (`ExcludedWrittenIff`, `ExcludedProgramWritten`), which depends on
  the order of the keys (`ExcludedOwnerByOrder`). An account deleted locally is fetched again if and only
  if the fork had not resolved it before and it is not excluded (`DeletedComesBackIff`). A key asked for
  in two batches and answered differently is not replayed (`FetchReplaysIff`, `ReplayFails`), which can
  happen to a call with distinct keys when its programs share a programdata account
  (`SharedProgramdata`).
- A worker's final coverage report can be overwritten by a snapshot of an exporter that was still busy
  when the time for joining it was over (`LateSnapshotWins`): the server holds what it received last
  (`LastIsHeld`), which otherwise is the final report (`RunResult`).
- A precompile component placed by hand is found if and only if its bytes are there (`LayoutCorrect`).
- A merged report's sidecar forgets a build when a later input has the program without a digest, and
  hides a mismatch that was forced (`CarriedIff`).
- A path with a line break in it or a blank at its end does not survive LCOV (`RoundTripIff`).

## Model

| member | source | states |
|---|---|---|
| Bytes.IntRoundTrip | python/wake_sol/_codec/ir.py:59-77 | an integer of the width's range, signed or not, is read back from its little-endian bytes |
| Bytes.IntCanonical | python/wake_sol/_codec/ir.py:59-77 | any bytes of the width are the encoding of the integer they are read as |
| Utf8.RoundTrip | python/wake_sol/_codec/ir.py:133-151 | strict decoding of an encoded string gives the string back |
| Utf8.Canonical | python/wake_sol/_codec/ir.py:133-151 | strict decoding accepts a string in no spelling but its encoding |
| CodecTheorems.WriteTyped | python/wake_sol/_codec/ir.py:59-383 | every value of a type has an encoding under its node |
| CodecTheorems.MinWireBound | python/wake_sol/_codec/ir.py:201-383 | no encoding is shorter than the node's minimum wire size, whatever stack of definitions it was computed under |
| CodecTheorems.LenBack | python/wake_sol/_codec/ir.py:119-130 | the length guard refuses a count exactly when it exceeds the bytes left; the element-size floor never refuses elements that are there |
| CodecTheorems.ReadBack | python/wake_sol/_codec/ir.py:59-383 | reading an encoding anywhere in a buffer gives the value and the end of the encoding if the nesting fits the depth guard and every vector fits the bytes behind it, and is refused otherwise |
| CodecCanonical.ReadTyped | python/wake_sol/_codec/ir.py:59-383 | whatever is read is a value of the type |
| CodecCanonical.ReadCanonical | python/wake_sol/_codec/ir.py:59-383 | writing what was read gives exactly the bytes consumed |
| CodecCanonical.ReadIff | python/wake_sol/_codec/ir.py:59-383 | a read answers (value, end) if and only if the bytes are the encoding of that well-typed value and it meets the depth and length guards |
| CodecCanonical.OptionCanonicalIff | python/wake_sol/_codec/ir.py:201-224 | an option node is canonical if and only if what it wraps directly is not nullable |
| CodecCanonical.SizedFits | python/wake_sol/_codec/ir.py:119-130 | with elements of positive minimum size the length guards refuse no genuine encoding |
| CodecCanonical.DecodeEncode | python/wake_sol/_codec/codec.py:72-90 | decoding an encoding, in account mode also with arbitrary bytes behind it, gives the value back if and only if it meets the depth and length guards |
| CodecCanonical.EncodeDecode | python/wake_sol/_codec/codec.py:72-90 | instruction data that decodes is the encoding of what it decodes to |
| CodecCanonical.ZeroSizeVectorRefused | python/wake_sol/_codec/ir.py:119-130 | a vector of one empty struct is written as four bytes that are refused |
| CodecCanonical.UncheckedEnumTag | python/wake_sol/_codec/ir.py:325-344 | a bare integer is written as an enum tag whether or not it is a member; it is read exactly if it is |
| CodecCanonical.IntegerAsBool | python/wake_sol/_codec/ir.py:99-116 | a bare integer is written as a boolean if and only if it is 0 or 1, and reads as that boolean |
| CodecLimits.DepthLimit | python/wake_sol/_codec/codec.py:37-69 | a value in n nested options is written for every n and read back if and only if n is at most 64 |
| CodecMachine.Cursor.TakeBytes | python/wake_sol/_codec/codec.py:37-69 | answers the next n bytes and moves behind them, or answers nothing and stays |
| CodecMachine.Cursor.Descend | python/wake_sol/_codec/codec.py:37-69 | raises the depth and trips exactly beyond the limit |
| CodecMachine.Cursor.ReadSeqLen | python/wake_sol/_codec/ir.py:119-130 | the length prefix as the specification reads it |
| CodecMachine.Cursor.ReadScalar | python/wake_sol/_codec/ir.py:59-198 | leaf nodes as the specification reads them |
| CodecMachine.Cursor.ReadNode | python/wake_sol/_codec/ir.py:59-383 | the walk ends on every buffer and every graph, cyclic or not, stays inside the buffer, answers what the specification says, and restores the depth when it succeeds |
| CodecMachine.Cursor.ReadDefined | python/wake_sol/_codec/ir.py:302-383 | structs and enums as the specification reads them |
| CodecMachine.Cursor.ReadNodes | python/wake_sol/_codec/ir.py:259-322 | the loop over elements or fields reads them as the specification does |
| CodecMachine.Encoder.WriteNode | python/wake_sol/_codec/ir.py:59-383 | appends exactly the node's bytes, or reports an error exactly where there are none; never removes output |
| CodecMachine.Encoder.WriteNodes | python/wake_sol/_codec/ir.py:259-322 | the loop over elements or fields appends their bytes in order |
| LoweringTheorems.OptionChain | python/wake_sol/_gen/types.py:90-108 | one option becomes Optional; k nested options, k at least 2, become exactly k levels of Opt |
| LoweringTheorems.LoweredPlain | python/wake_sol/_gen/types.py:46-118 | no lowered type puts an option node directly around a nullable node |
| LoweringTheorems.Wire | python/wake_sol/_codec/ir.py:435-503 | the lowered node writes the carrier of every IDL value as its Borsh bytes, and the carrier is a value of the node |
| LoweringTheorems.CarrierInjective | python/wake_sol/_gen/types.py:90-108 | distinct values of an IDL type have distinct carriers |
| BorshScalars.IntegerFormat | python/wake_sol/_codec/aliases.py:119-126 | an integer of the type `uN` or `iN` has an encoding if and only if it is in the range of N bits; it then has N/8 bytes, the j-th being the j-th digit to base 256 in two's complement; and the type is lowered for N up to 128 |
| BorshScalars.ScalarFormat | python/wake_sol/_codec/ir.py:59-198 | the encoding of every scalar value, said by digits, bit patterns and byte counts; nothing else has one |
| BorshScalars.LoweredIff | python/wake_sol/_gen/types.py:46-118 | a type is lowered if and only if it is built of the known scalars and of usable defined types that are there, arrays having an integer length |
| TypeCache.CompileTypeFaithful | python/wake_sol/_codec/ir.py:398-432 | a compilation that succeeds leaves every finished class with its own node, compiled against the cache, recursion included, and changes no other entry |
| TypeCache.FaithfulCompileIff | python/wake_sol/_codec/ir.py:398-432 | from a cache without leftovers a class compiles if and only if it lies in a closed set of supported classes, and the cache stays without leftovers |
| TypeCacheSound.CompileTypeOn | python/wake_sol/_codec/ir.py:398-432 | a compilation, whether it succeeds or fails, leaves every entry of a closed set of supported classes right |
| TypeCacheSound.CachedIff | python/wake_sol/_codec/ir.py:398-432 | after any history of compilations, failed ones included, a cached class has only finished nodes of their own behind it if and only if it lies in a closed set of supported classes |
| TypeCacheSound.CompileTypeIff | python/wake_sol/_codec/ir.py:398-432 | after any history, a request yields a class that can be relied on if and only if it lies in a closed set |
| TypeCacheSound.AllCompiled | python/wake_sol/_codec/ir.py:398-432 | asking for the classes of a closed schema in any order compiles them all, without leftovers |
| TypeCache.StaleAfterFailure | python/wake_sol/_codec/ir.py:398-432 | the input that shows it: once a class has failed, one that refers to it is cached around an empty node and written as no bytes, although it is refused when asked for first |
| TypeCacheMachine.Compiler.CompileType | python/wake_sol/_codec/ir.py:398-432 | cache first, entry made before the fields, removed again on failure; new cache and nodes as the specification says |
| TypeCacheMachine.Compiler.CompileField | python/wake_sol/_codec/ir.py:435-503 | an annotation's node and the cache it leaves, as the specification says |
| Generated.SchemaCompiled | python/wake_sol/_gen/types.py:46-118 | a cache without leftovers that holds a schema's classes is the lowering of the IDL, in which every type decodes canonically |
| Generated.SchemaCompiles | python/wake_sol/_codec/ir.py:398-432 | compiling every class generated for a closed schema, in any order, ends in that lowering |
| Generated.GeneratedRoundTrip | python/wake_sol/_codec/builder.py:179-194 | end to end: an IDL value is encoded as its Borsh bytes, which decode to its carrier, and so to no other value's, if and only if it meets the depth and length guards; accepted data is the encoding of what it decodes to |
| Dispatch.ProgramInterface.Add | python/wake_sol/_interface.py:60-78 | registers a definition behind the others |
| Dispatch.ProgramInterface.Match | python/wake_sol/_interface.py:80-88 | the longest discriminator that is a prefix, the first registered among equals, or none if none is |
| Dispatch.ProgramInterface.DecodeData | python/wake_sol/_interface.py:124-134 | the matched instruction with what its decoder (refusing, Borsh layout, or its own) makes of the rest and the role names fitted to the accounts; unmatched data and undecodable arguments are told apart |
| Dispatch.DispatchIff | python/wake_sol/_interface.py:80-88 | an instruction is dispatched to itself whatever its arguments if and only if no other discriminator extends its own and none equal was registered before |
| Dispatch.IxRoundTrip | python/wake_sol/_codec/builder.py:122-136 | instruction data built for an unshadowed definition decodes to that definition and those arguments if and only if they meet the depth and length guards |
| DispatchDecode.DecodeIff | python/wake_sol/_interface.py:124-134 | for all data: answered as an instruction with some arguments if and only if that is the choice and the rest holds exactly these (their whole encoding for a layout, nothing for a refusing one, what its own decoder says otherwise); as a refusal if and only if it is the choice and the rest holds none; as unmatched if and only if no discriminator is a prefix |
| DispatchDecode.DecodedIsEncoded | python/wake_sol/_codec/builder.py:179-194 | data that decodes through a layout is what the builder makes of the arguments, with nothing behind them; the role names are the instruction's |
| CallTree.Nest | src/trace.rs:331-356 | the pre-order of the tree is the instruction and its CPIs in order, whatever the heights; it nests by height if and only if the heights are well formed, and is then the only tree that does |
| CallTree.PreorderInjective | src/trace.rs:331-356 | trees nested by height with equal pre-orders are equal |
| LogLines.LogReadIff | src/trace.rs:133-144 | a program message is text if and only if it does not open with a marker verb |
| LogLines.EventRead | src/trace.rs:173-325 | every line the runtime writes for an event, empty data chunks included, is read as that event, if no message opens with a marker verb |
| LogLines.OtherLines | src/trace.rs:173-287 | exactly the blank lines are passed over, and a line that does not open with `Program` is text |
| LogLines.UnitsIff | src/trace.rs:316-325 | a unit count is read if and only if it fits 64 bits |
| Attribution.AttachLogs | src/trace.rs:173-314 | the loop over the lines computes the record of every node that the step function defines |
| Attribution.SkipPrecompiles | src/trace.rs:150-157 | the cursor is moved over precompiles only, up to the first other program |
| Attribution.AfterDivergence | src/trace.rs:173-314 | on any stream: the cursor never goes back; once diverged, cursor, open frames and records stand still, except that the innermost open frame receives all the text still to come |
| Attribution.StrayText | src/trace.rs:173-314 | any aligned stream with an open frame diverges on an invocation the tree does not have there, and the next text goes to that frame |
| Attribution.BeyondCursor | src/trace.rs:173-314 | no node at or behind the cursor has received anything |
| Attribution.TextOnce | src/trace.rs:173-314 | every text line lands in at most one node, in order, and nodes hold no other text |
| Emission.FollowCall | src/trace.rs:173-314 | the log stream of any executable call is followed frame by frame and leaves the open frames as they were |
| Emission.AttributionInvertsEmission | src/trace.rs:173-314 | for every executed forest, whatever instructions that never ran stand behind it, and every cut of its log stream, each node's record is what its own events up to there report |
| Emission.CompleteAttribution | src/trace.rs:173-314 | with the whole stream each node's record reports exactly its own items and its end, a precompile's and that of an instruction that never ran staying empty |
| TraceBuild.DistributeIs | src/trace.rs:288-314 | handing out records changes nothing of the tree, and the k-th node in pre-order receives the k-th record |
| TraceBuild.TraceIsExecution | src/trace.rs:360-381 | from the shape and the whole log stream of an execution the tree that comes out is the execution itself, each call with the record of its own lines, followed by the instructions that never ran with empty records |
| ExecutionEvents.EventsOfExecution | src/trace.rs:418-438 | the flat list of events of such a trace holds no event the programs did not emit, by log or by self-CPI, each with its program; it holds all of them if and only if nothing is emitted in or below an event CPI |
| ExecutionEvents.EventLost | src/trace.rs:383-404 | the execution that shows it: an event logged in an event CPI is not in the list |
| EventOrder.CollectEvents | src/trace.rs:421-436 | the walk appends the roll-up of the nodes in execution order |
| EventOrder.RollupAt | src/trace.rs:421-436 | the k-th event of the n-th node stands, with that node's program, behind all events of the nodes before and k of its own; and there are no others |
| EventOrder.EventsInOrder | src/trace.rs:383-436 | for every execution the list is, call by call, what the call logged in order and then its event CPIs' payloads in order, without what is in or below event CPIs |
| EventOrder.TransactionEvents | src/trace.rs:421-436 | the same for a whole transaction, instructions that never ran included |
| EventOrder.LastOfIs | src/trace.rs:445-457 | the candidate is the data of the last node of the program in execution order |
| ExecutionRecords.RecordIs | src/trace.rs:173-287 | a call's record field by field: its texts in order, the units of its last unit line, its last return data that is not empty, its events in order, how it ended and with which text |
| EventHoist.HoistCpiEvents | src/trace.rs:383-404 | the loops compute the hoisted tree |
| EventHoist.IsEventIff | src/trace.rs:387-398 | an event CPI is a self-call whose data is Anchor's tag, eight more bytes and the rest |
| EventHoist.HoistKeeps | src/trace.rs:383-404 | apart from what is in and below event CPIs, events stay with their program, calls keep order, parents and records; and no event CPI is left |
| HoistLoss.HoistEventsIff | src/trace.rs:383-404 | counting every event of a tree, what hoisting loses is exactly what event CPIs emit in and below themselves; so nothing is lost if and only if they emit nothing there |
| HoistLoss.HoistCallsIff | src/trace.rs:383-404 | counting every call, what hoisting loses is exactly the calls below event CPIs; so none if and only if event CPIs call nothing |
| HoistLoss.CallLost | src/trace.rs:383-404 | the tree that shows it: a call below an event CPI is gone |
| EventHoist.HoistSettled | src/trace.rs:383-404 | a tree without event CPIs is left as it is |
| EventHoist.RollupIs | src/trace.rs:421-438 | on a hoisted tree the flat list holds exactly the events in the records of its nodes |
| EventHoist.ReturnCandidate | src/trace.rs:438-457 | the data of the last invocation of the program in execution order |
| TraceBuild.BuildCallTree | src/trace.rs:360-381 | one tree per instruction: recorded CPIs in order, the k-th record on the k-th node, event CPIs hoisted; for the record of an execution, instructions behind a failed one included, that execution's tree and no other, and with the whole stream the execution itself |
| ErrorOrigin.CodesAgree | python/wake_sol/call_trace.py:139-144 | on failure texts the runtime writes, the renderer's and the tracer's code parsers agree |
| ErrorOrigin.CodeRead | src/trace.rs:459-478 | a code as the runtime prints it is read by both, by the tracer up to 32 bits |
| ErrorOrigin.SignedCode | src/trace.rs:459-478 | where they differ: the tracer passes over a plus sign |
| ErrorOrigin.Walk | src/trace.rs:480-502 | the accumulators end with the last failed frame in execution order and the last one that logged the code |
| ErrorOrigin.FailingProgram | src/trace.rs:480-502 | the last failed frame with the code, else the last failed frame, else none |
| ErrorOrigin.ChainShows | python/wake_sol/call_trace.py:147-154 | a frame of a failing path propagates the code exactly when a deeper one logged it |
| ErrorOrigin.OriginIsShown | python/wake_sol/call_trace.py:157-179 | for a failure along one path, the named program is that of the deepest frame with the code, and the renderer resolves the code there and on no other frame of the tree |
| ExecutionOrigin.ExecutionOriginShown | python/wake_sol/call_trace.py:147-179 | the trace of a transaction that stopped at its first failure, wherever among its instructions that is, fails along one path, and the renderer shows the code where the search finds its origin |
| FailureLoss.OriginIsNamed | src/trace.rs:480-502 | the search depends on nothing but the failed nodes in execution order with their texts: the last that logged the code, else the last |
| FailureLoss.HoistFailuresIff | src/trace.rs:383-404 | hoisting keeps the failed nodes and their order if and only if no event CPI failed, nor anything below one; otherwise there are fewer |
| ExecutionFailures.OriginKept | src/trace.rs:480-502 | before hoisting the trace of any execution tells of exactly the calls that failed, and after it if and only if no event CPI failed, nor anything below one; then the program named is that of the last call that failed with the code, else of the last that failed |
| ExecutionFailures.WrongProgramNamed | src/trace.rs:383-404 | the execution that shows it: a failure below an event CPI is named after the program that made the event CPI |
| ExecutionFailures.NameOrigin | src/lib.rs:304-312 | from the recorded instructions and the whole log stream of such a transaction to the program its error is named after: the one on whose frame, and no other, the renderer resolves the code, and if no event CPI failed, nor anything below one, the one that failed |
| HydrationTheorems.WantedIs | src/lib.rs:1282-1349 | the first pass wants exactly the keys that are neither excluded, resolved nor resident, and resolves exactly the excluded ones |
| HydrationTheorems.FetchRecords | src/fork.rs:289-323 | a fetch changes nothing the store said; what it answers is what the store says afterwards if and only if repeated keys were answered alike |
| HydrationTheorems.FetchReplaysIff | src/fork.rs:289-323 | from the store it left, a fetch answers the same offline if and only if keys asked for more than once had been answered alike |
| HydrationTheorems.CleanWhen | src/fork.rs:289-323 | that is so whenever the missing keys are distinct, or fit in one batch, or the batches see the same chain |
| HydrationTheorems.EnsureReplays | src/lib.rs:1282-1349 | a call that succeeded online, its fetches being so, does the same offline from any store that has what it left |
| HydrationTheorems.OfflineReplay | src/fork.rs:192-232 | a session that succeeded online, with the chain moving between batches, succeeds offline from the recorded store with equal accounts and resolved addresses after every operation, if no fetch of it got two answers for one key |
| HydrationReplay.SmallReplay | src/fork.rs:192-232 | without any assumption about the endpoint: a session that succeeded online and whose operations each ask for at most one batch of keys at a time replays offline, state for state |
| HydrationReplay.DistinctEnsure | src/fork.rs:289-323 | a call with distinct keys, however many, gets no two answers for one key if its follow-ups are distinct or fit in one batch |
| HydrationReplay.SharedProgramdata | src/fork.rs:289-323 | the limit: 101 programs with one programdata account between them make it be asked for in two batches |
| HydrationLarge.LargeReplay | src/fork.rs:192-232 | without any assumption on how answers change: a session that succeeded online replays offline, state for state, if each operation, and what the tables of a message resolve to, asks for distinct keys, however many, with at most one batch of upgradeable programs among them, or for one batch of any keys |
| HydrationSafety.SiftIs | src/lib.rs:1282-1349 | exactly the present candidates without excluded owner are written, and exactly the programdata of such programs is followed up that was not seen, asked for up to the program, excluded or resident |
| HydrationSafety.PrepareIs | src/lib.rs:1282-1349 | accounts to write were unseen, not resident and none of the excluded addresses, and are seen afterwards; nothing becomes seen that was not asked for or pointed at |
| HydrationSafety.EnsureSafe | src/lib.rs:1282-1349 | whatever fails, resident accounts are kept and an account appears only at an unresolved address that held none and is none of the excluded addresses |
| HydrationSafety.EnsureSettles | src/lib.rs:1282-1349 | after success every key is resolved or resident, and repeating the call changes and fetches nothing |
| HydrationLimits.RetryAfterFailure | src/lib.rs:1282-1349 | a retry of a failed call changes and fetches nothing and reports success if and only if the failure was not that a key to be asked for was missing from the store with the endpoint away or a batch down |
| HydrationLimits.SecondFetchFails | src/lib.rs:1282-1349 | offline, a program in the store whose programdata is not: the call fails, and the retry reports success without the program |
| HydrationLimits.WriteFails | src/lib.rs:1282-1349 | an account that is refused on writing: the same |
| HydrationLimits.ExcludedWrittenIff | src/lib.rs:1282-1349 | an account of an excluded owner, or at the address of an excluded program, is on the list to write if and only if it was fetched as a followed-up programdata account, and which addresses are followed up |
| HydrationLimits.ExcludedProgramWritten | src/lib.rs:1282-1349 | the input that shows it for the address of an excluded program |
| HydrationLimits.ExcludedOwnerByOrder | src/lib.rs:1282-1349 | the same two keys write such an account in one order and not in the other |
| HydrationLimits.DeletedAskedIff | src/lib.rs:1282-1349 | an account deleted locally is asked for again if and only if its key is touched, was not resolved before and is not excluded |
| HydrationLimits.DeletedComesBackIff | src/lib.rs:1282-1349 | and with its account in the store and its owner not excluded, that is exactly when it is back |
| HydrationMessages.ResolvedAre | src/lib.rs:1386-1400 | lookups resolve if and only if every resident table can be read, to exactly the addresses that in-range indexes name, writable before read-only, in order |
| HydrationMessages.MessageIs | src/lib.rs:1376-1404 | the first wave asks for static keys and tables, the second for exactly those addresses, as the tables then say |
| HydrationMessages.MessageSettles | src/lib.rs:1376-1404 | after a message that succeeded every static key, every table and every address named by an in-range index of a resident table is resolved or resident |
| HydrationMessages.HydratedAre | src/lib.rs:1282-1349 | every account written is the one on record at its address, and a key asked for is resident if the record has an account there whose owner is not excluded |
| HydrationMessages.ProgramdataIff | src/fork.rs:40-51 | the programdata address is the 32 bytes behind the tag 2 |
| HydrationMessages.AllUpIff | src/fork.rs:310-313 | a fetch goes through if and only if the batch of every missing key does, a hundred to a batch |
| HydrationMessages.ResetForgets | src/lib.rs:732-745 | after a reset a touched key is asked for if and only if it is neither excluded nor in the new machine, and the record is kept |
| HydrationMessages.ResetHydratesAgain | src/lib.rs:732-745 | so what was hydrated before is hydrated again, as recorded |
| HydrationLimits.ReplayFails | src/fork.rs:289-323 | the session that does not replay: one key in two batches, there in the first and gone in the second |
| HydrationSafety.OrderedPermutes | src/lib.rs:1282-1349 | the reordering before writing loses and duplicates nothing |
| HydrationSafety.OrderedStable | src/lib.rs:1282-1349 | each account stands behind those of its kind that were before it, and programs behind all data |
| HydrationSafety.DataBeforePrograms | src/lib.rs:1282-1349 | when an executable account is written every data account of the call is resident |
| HydrationSafety.WrittenOnce | src/lib.rs:732-745 | between resets no address is written by the fork in two operations |
| HydrationSafety.WavesDisjoint | src/lib.rs:1376-1404 | the two waves of one message write different addresses |
| HydrationMachine.Svm.FetchAll | src/fork.rs:289-323 | cached answers, then misses in batches of at most 100; nothing is recorded unless every batch goes through |
| HydrationMachine.Svm.Ask | src/fork.rs:289-323 | the answers of all batches in the order of the misses, or none if a batch fails |
| HydrationMachine.Svm.EnsureAll | src/lib.rs:1282-1349 | new accounts, resolved addresses, store and result as the specification says |
| HydrationMachine.Svm.Write | src/lib.rs:1282-1349 | writes in order up to the first refusal |
| HydrationMachine.Svm.HydrateForMessage | src/lib.rs:1376-1404 | static keys and tables first, then what the resident tables resolve to |
| MpSteps.RunInv | python/wake_sol/_mp_server.py:282-394 | the protocol invariant holds in every state of every run, exporter threads putting snapshots at any time |
| MpTheorems.AssignmentCovers | python/wake_sol/_mp_server.py:233-245 | uniform lists in worker order are exactly the tests 0 to n - 1, all but the last worker getting equally many; under duplication every worker gets all of them |
| MpTheorems.NoDeadlock | python/wake_sol/_mp_server.py:282-394 | until every worker's last message has been received some process can take a step that brings the run on, however full the queue of whatever snapshots |
| MpTheorems.GetPossible | python/wake_sol/_mp_server.py:282-394 | the server never looks up a worker it has let go |
| MpTheorems.PipesAlternate | python/wake_sol/_mp_worker.py:171-265 | the two pipes of a worker hold at most one message together; a worker handling a request is the one the server waits for, and only one handling a breakpoint can owe an ack |
| MpTheorems.OneAckEach | python/wake_sol/_mp_worker.py:216-265 | in any run, every request that is no longer open has put exactly one ack into the pipe and an open one none, however often the debugger is left and whatever runs at exit |
| MpTheorems.AckMatchesRequest | python/wake_sol/_mp_server.py:493-518 | what the server takes for an ack is the ack of the request it negotiates |
| MpTheorems.NoDrainBeforeAck | python/wake_sol/_mp_worker.py:254-265 | until the awaited worker acks nothing leaves the queue |
| MpTheorems.WorkShrinks | python/wake_sol/_mp_server.py:282-394 | every step uses up some of the work left, except snapshots, which add at most one message, and leaving a debugger that owes no ack |
| MpTheorems.RunsEnd | python/wake_sol/coverage.py:265-315 | no run is longer than the work at its start and three times its idle steps: without endless snapshots every run ends |
| MpTheorems.RunResult | python/wake_sol/_mp_server.py:282-394 | a run that can only idle on has received each worker's reports, all, once and in order, has settled every request, and holds of each worker the coverage it received last, which is the final report whatever snapshots came when, if the exporter ended in the time allowed |
| MpTheorems.LastIsHeld | python/wake_sol/_mp_server.py:282-394 | in every state of every run, slow exporters included, a worker's slot holds the coverage received last from it, and is empty exactly if none was; so the final report is held exactly when it was the last received |
| MpRequests.RequestsMade | python/wake_sol/_mp_worker.py:162-225 | in every state of every run a worker has made exactly the requests that the done part of its script calls for: every breakpoint, and the first exception since the last test setup or the start |
| MpRequests.RequestsHeard | python/wake_sol/_mp_server.py:493-518 | in a finished run the server has received exactly these requests, in order and with their kinds, and the worker has taken exactly the decisions made on them |
| MpRequests.AckedBy | python/wake_sol/_mp_worker.py:216-265 | a request is acked by leaving the debugger if and only if the decision was to attach at a breakpoint, else by the worker itself |
| MpLate.LateSnapshotWins | python/wake_sol/coverage.py:307-315 | the run that shows the limit: an exporter still busy after the join overwrites the final report |
| MergedCoverage.MergeSlots | python/wake_sol/_mp_server.py:415-423 | the slots merged in worker order are the total of the reports in them |
| MergedCoverage.MergedIsSum | python/wake_sol/_mp_server.py:415-423 | after a run in which every exporter ended in time the merged count of every line is the sum over each worker's last report, whatever the interleaving of workers and exporters |
| PrecompileTheorems.StructRead | python/wake_sol/_precompiles.py:165-180 | an offset struct is read as the entry it was packed from, sizes of identity and signature being the curve's |
| PrecompileTheorems.AddClaimsRight | python/wake_sol/_precompiles.py:259-304 | after any number of claims every inline entry points at its component in the final body, every other where its reference resolved, and its struct stands at its place |
| PrecompileTheorems.LayoutCorrect | python/wake_sol/_precompiles.py:365-382 | in the finished transaction the header counts the claims, and each component of the k-th struct leads to the k-th identity, signature (with the recovery id behind it for secp256k1) or message if and only if it is inline or the bytes stand where its reference resolved, with a given size being theirs |
| PrecompileTheorems.SearchedTruthful | python/wake_sol/_precompiles.py:219-256 | that is so for every searched reference that does not lead to the instruction whose index is the self sentinel |
| PrecompileTheorems.BuiltAhead | python/wake_sol/_precompiles.py:307-315 | with a self sentinel and inline components neither position nor other instructions matter |
| PrecompileTheorems.RefResolvesIff | python/wake_sol/_precompiles.py:219-256 | a reference resolves if and only if it names its target in one way, a target object is a finished instruction of the transaction, and it has an offset or leads to a finished instruction that holds the value exactly once |
| PrecompileAccepts.AssembledIff | python/wake_sol/_precompiles.py:183-304 | a transaction can be assembled if and only if every precompile instruction has at most 255 claims, all of its curve and with that curve's sizes, whose references resolve and whose offsets, sizes and indexes fit their fields |
| PrecompileTheorems.LayoutSound | python/wake_sol/_precompiles.py:365-382 | in any transaction that can be assembled, for any number of claims whose components are inline or searched for anywhere but in the instruction whose index is the self sentinel, the k-th struct leads to exactly the k-th claim's identity, its 64 signature bytes (with the recovery id behind them for secp256k1) and its message |
| PrecompileMachine.BuildInstructionData | python/wake_sol/_precompiles.py:259-304 | header, structs and body, or an error, as the specification says |
| PrecompileMachine.PlaceClaim | python/wake_sol/_precompiles.py:259-304 | one claim: three components with the cursor moving behind every inline one, then the struct |
| PrecompileMachine.MaterializeAll | python/wake_sol/_precompiles.py:365-382 | every deferred precompile is built at its final position |
| LineFold.FoldRows | src/coverage.rs:441-472 | a line is reported exactly if a row belongs to it, with the largest hit count among the rows that open a run of it |
| LineFold.HitsAtIs | src/coverage.rs:441-472 | an address counts what its instruction of eight bytes counts, and nothing outside the text |
| LineFold.RowInsideRun | src/coverage.rs:441-472 | another row of the same line inside a run changes no count |
| LineFold.AddProgram | src/coverage.rs:474-480 | a program's lines are added to the report, saturating |
| LineFold.ReportIs | src/coverage.rs:474-480 | over any number of programs in any order a line's count is the sum of its counts, cut off only where the whole sum does not fit |
| Lcov.ParseLcov | python/wake_sol/coverage.py:388-409 | the loop over the lines reads the counts that the line function defines |
| LcovOrder.FormatLcov | python/wake_sol/coverage.py:412-423 | the text of the files in order of path, each with its lines ascending, every line ended |
| LcovOrder.TextUnique | python/wake_sol/coverage.py:412-423 | two such texts of the same counts are equal |
| LcovText.TextIs | python/wake_sol/coverage.py:412-423 | line by line: for every file, in ascending order of path, its path, each line number ascending with its count, the number of its lines and the number of those executed |
| LcovText.BeforeIff | python/wake_sol/coverage.py:412-423 | paths are in lexicographic order by code points |
| LcovOrder.MergeTexts | python/wake_sol/coverage.py:426-462 | what is written is that text of the total of the inputs, and the number of its files is answered |
| LcovOrder.MergedTextSame | python/wake_sol/coverage.py:426-462 | inputs in another order give the same text |
| LcovOrder.MergedTextIs | python/wake_sol/coverage.py:426-462 | merging written reports gives the text written for the sum of their counts, if every path is free of line breaks and of a blank at its end |
| Lcov.MergeInto | python/wake_sol/coverage.py:349-385 | the line counts of two reports added, in whatever order they are stored |
| Lcov.MergeLcov | python/wake_sol/coverage.py:426-462 | the total of the reports read from the inputs |
| LcovTheorems.IntRoundTrip | python/wake_sol/coverage.py:388-423 | a printed number is read back, negative or not, and holds no blank or comma |
| LcovNumbers.IntIff | python/wake_sol/coverage.py:388-409 | a text is taken for a number if and only if it is its digits, with single underscores between them, at most one sign in front and blanks around |
| LcovNumbers.EntryIs | python/wake_sol/coverage.py:388-409 | an entry is the number and the count in its first two fields; what follows is passed over |
| LcovTheorems.RoundTripIff | python/wake_sol/coverage.py:388-423 | reading a written report gives the files written, in any order of writing, if and only if every path is free of line breaks and of a blank at its end |
| LcovTheorems.ReadConcat | python/wake_sol/coverage.py:388-409 | behind a text that ends its last line and record, another text reads as the sum of both |
| LcovTheorems.MergeIsConcat | python/wake_sol/coverage.py:426-462 | merging closed reports is reading them glued together |
| LcovTheorems.SumCommutes | python/wake_sol/coverage.py:349-385 | adding counts is commutative |
| LcovTheorems.SumAssociates | python/wake_sol/coverage.py:349-385 | adding counts is associative |
| LcovTheorems.MergeOrder | python/wake_sol/coverage.py:426-462 | permuted inputs merge to the same report |
| LcovTheorems.TotalAt | python/wake_sol/coverage.py:426-462 | a line is in the merge exactly if some input has it, with the sum of its counts |
| LcovTheorems.ZeroIff | python/wake_sol/coverage.py:426-462 | a merged line is unexecuted exactly if no input executed it |
| Builds.CheckBuilds | python/wake_sol/coverage.py:472-500 | refused exactly if two entries declare different digests for a program and the merge is not forced; each complaint names a program and two inputs that disagree about it; otherwise the inputs without sidecar are named |
| Builds.CombineMetas | python/wake_sol/coverage.py:453-460 | the merged sidecar holds the last entry of each program |
| Builds.CarriedIff | python/wake_sol/coverage.py:453-460 | the merged report stands in for its inputs in every later build check if and only if they did not conflict and no program's last entry is blank where an earlier one is not |

## Left out

- CodecMachine.Encoder.WriteNode: does not model what Python accepts by duck typing (floats, arbitrary iterables, integer subclasses); values are those the reader hands out, plus integers for booleans and enum tags.
- Floats are bit patterns; only the NaN refusal is modelled.
- The fixed array's own recursion test in the minimum size: its element chain leads to one definition, whose test does the same.
- IDL parsing, import and usage bookkeeping, source emission, discriminator prefixes of accounts and events.
- Decoding of events and return data by their registered classes, the error registry behind the code shown on a frame, and all rendering.
- Files, JSON and HTTP: the recording store is a map, every write to it succeeds, and the endpoint answers one entry per key.
- The raw packing hatch of precompile instructions and the signing of claims.
- Signals, crashed workers and collection mismatches in the multiprocess runner; and stepping through the test inside a breakpoint session, where a put could wait for a queue that the server does not drain before the ack (`NoDrainBeforeAck`).
- ELF and DWARF reading, coverage summaries and source roots, fuzzing, sysvars, the shipped program bindings.
- Emission.AttributionInvertsEmission: assumes that no program message opens with a marker verb, since such a message is read as the marker; LogLines.LogReadIff is the exact condition for one message.
- HydrationTheorems.OfflineReplay: requires that no fetch of the session got two answers for one key; HydrationTheorems.FetchReplaysIff says that this is exact for one fetch, while a session can replay by luck, when the differing answers make no difference to what is written. HydrationReplay.SmallReplay and HydrationLarge.LargeReplay have no such condition.
- Lcov.ParseLcov: accepts ASCII digits only, where Python's `int` also takes other decimal digits.
- Lcov.MergeInto: covers the line counts; the per-program entries, combined by maximum and disjunction, are left out.
- Builds.CheckBuilds: reports which program and inputs a complaint is about, not its text.
