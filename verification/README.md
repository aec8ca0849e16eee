# NeKiro: a verified model

A model in Dafny of the parts of NeKiro where several pieces of state must stay
in step, with proofs over every input, every run or every reachable state.

- **Invocation Ledger** (`RuntimeContracts`, `LedgerStore`, `LedgerInvariants`,
  `LedgerClient`, `TraceOrder`, `Lineage`, `Nested`): Append as a transition
  over two tables, what every reachable store satisfies, trace ordering and
  validation, and invocations derived at the Agent boundary.
- **Dispatch** (`DispatchLog`, `Attempts`, `Dispatch`, `Boundaries`): one log of
  Ledger appends and stream frames, kept sound over every upstream stream and
  failure pattern, what the store makes of it, and exactly when a terminal event
  is committed.
- **Topology observation** (`RegistryModel`, `Aggregation`, `SliceStore`,
  `Topology`, `Watch`, `Observation`, `Selector`, `Pipeline`): Service and
  EndpointSlice events, aggregation, deltas, the bounded watch and the Router's
  cached snapshot, as one step system over any interleaving.
- **Leases and subscriptions** (`Registrar`; `Revision`, `FileSubscriptions`,
  `FileReader`): the Nacos registrar and the file Config Center reader as step
  systems whose steps are the source's critical sections.
- **Text algorithms** (`JsonNumber`, `DuplicateMembers`, `KeyMapping`): the limit
  check on JSON numbers (section 6 of RFC 8259), the two duplicate-member
  scanners (section 4 of RFC 8259) and the key encodings (section 5 of RFC 4648).

`Decimal`, `Ordering` and `Wrappers` hold shared definitions. `dafny verify dfyconfig.toml`
checks everything.

How the source is represented:

- Library checks whose code is not in the repository (semantic versions, trace
  ids, identifiers, canonical IP addresses) are function-valued parameters, so
  results hold for every choice of them. The event schema's own
  rules are written out in `RuntimeContracts.ValidEvent`.
- Clocks, latencies, append, write and context failures are functions of a tick in
  `Attempts.World`, and the hash inside an event id is a function of sequence and
  kind. An append error means the event was not committed.
- Instants are integers, nanoseconds since Go's zero instant. Local orders are
  64-bit and wrap explicitly. Texts are sequences of code points, whose order
  is the byte order of their UTF-8 form.
- Map iteration is a choice of any remaining key.
- Objects with fields are classes whose methods are proved against functions on
  a value of the same fields; run-level results are lemmas about those functions.

Where the code and its promise differ, the model follows the code:

- `contracts/runtime_contracts_validation.go` rejects the zero instant in records
  but not in events, so an invocation created there can never be continued
  (`Boundaries.ZeroInstantAccepted`, `Boundaries.ZeroInstantBlocks`). The Ledger's
  integrity checks are unreachable exactly when no history starts or ends at it
  (`LedgerInvariants.IntegrityExactly`).
- The event table's check constraint excludes the codes AGENT_RELEASE_UNPUBLISHED,
  AGENT_RELEASE_SUSPENDED and AGENT_RELEASE_REVOKED, which the schema lists
  (`Boundaries.ReleaseCodeRefused`), and its version column holds 128 characters,
  which the schema does not say (`Boundaries.WideVersionRefused`).
  `LedgerInvariants.AppendExactly` gives the exact conditions.
- At `apps/a2a-router/internal/api/dispatch_handler.go` line 672 an event of type
  failed can carry a timeout or cancellation code, which the schema rejects
  (`Boundaries.TimeoutAsFailureRefused`), as it does a negative measured latency
  (`Boundaries.NegativeLatencyRefused`): the invocation then has no terminal event.
  `Attempts.Taken` is the exact condition under which the Ledger takes a terminal
  event. `Dispatch.DispatchStreaming` and `Dispatch.DispatchNonStreaming` prove that
  the invocation has one exactly when it holds of the last attempt, which the inputs
  determine. An upstream error with an unlisted code ends neither log.
- A POST that takes effect although it was answered with an error stays
  registered after Close (`Registrar.LostPostRemains`); `Registrar.RemainsExactly`
  gives the exact condition.
- The map comparison of `registry/model.go` is equality only for maps without
  empty values, which validation guarantees (`RegistryModel.EqualMapsExactly`).

## Model

| member | source | states |
|---|---|---|
| `RuntimeContracts.SequenceValidator.Accept` | contracts/runtime_contracts_validation.go:251-284 | advances the validator's fields exactly as the transition function says; a refused event changes nothing |
| `RuntimeContracts.LegalSnoc` | contracts/runtime_contracts_validation.go:251-284 | one more event is accepted exactly when the extended history satisfies the position-by-position definition of a legal lifecycle, and the counters then count it |
| `RuntimeContracts.ReplayAcceptsExactlyLegal` | contracts/runtime_contracts_validation.go:251-284 | replaying a history succeeds if and only if it is legal, for histories of any length |
| `RuntimeContracts.NothingAfterTerminal` | contracts/runtime_contracts_validation.go:251-284 | no event follows a terminal one in a legal history |
| `RuntimeContracts.StatusAtPosition` | contracts/runtime_contracts_validation.go:483-495 | which statuses a legal history can have at each position: pending, routing or ended, running or ended, and chunks from the fourth event on |
| `RuntimeContracts.ChunkPositions` | contracts/runtime_contracts_validation.go:251-284 | the chunk at position i has index i - 3, so chunk indices are contiguous from zero |
| `LedgerStore.EventRoundTrip` | apps/a2a-router/internal/ledger/store.go:390-459 | an event written to its row, its digest as bytes, and scanned back is the same event |
| `LedgerStore.HexRoundTrip` | apps/a2a-router/internal/ledger/store.go:435-459 | decoding a lower-case hexadecimal digest and encoding it again gives the same text, for texts of any even length |
| `LedgerStore.RecordRoundTrip` | apps/a2a-router/internal/ledger/store.go:360-388 | a projection written to its row, its digest as bytes, and scanned back is the same record |
| `LedgerInvariants.ReadsHistory` | apps/a2a-router/internal/ledger/store.go:332-358 | reading the events of an invocation, ordered by sequence, returns exactly the events committed for it |
| `LedgerInvariants.ReadsRecord` | apps/a2a-router/internal/ledger/store.go:272-274 | the stored projection scans to the fold of the committed history |
| `LedgerInvariants.IntegrityExactly` | apps/a2a-router/internal/ledger/store.go:78-99 | the committed-state checks pass on a reachable store exactly when the first and last event times are not the zero instant |
| `LedgerInvariants.ParentCheckExactly` | apps/a2a-router/internal/ledger/store.go:45-59 | the nested check accepts exactly when the parent is committed, still running and matches the child's lineage |
| `LedgerInvariants.FirstAppendExactly` | apps/a2a-router/internal/ledger/store.go:44-62 | appending a first event succeeds exactly when it is admissible, fails for a column's width exactly when its version alone stands in the way of valid fields and an admitting parent, and never fails an integrity check |
| `LedgerInvariants.LaterAppendExactly` | apps/a2a-router/internal/ledger/store.go:63-112 | appending a later event succeeds exactly when it is admissible; an integrity check fails exactly for a history at the zero instant, and no column is too narrow |
| `LedgerInvariants.AppendExactly` | apps/a2a-router/internal/ledger/store.go:33-117 | Append succeeds if and only if the event legally extends its own history, is storable, fits its columns, is fresh, correctly nested and not before its predecessor; both kinds of dependency failure have their exact conditions |
| `LedgerInvariants.AppendPreserves` | apps/a2a-router/internal/ledger/store.go:33-117 | every successful Append keeps the store invariant: rows stored, ids unique, histories good, projections equal to folds, parents committed |
| `LedgerInvariants.RunInvariant` | apps/a2a-router/internal/ledger/store.go:33-117 | the store invariant holds after any sequence of Appends |
| `LedgerInvariants.EveryReachableHistory` | apps/a2a-router/internal/ledger/store.go:33-117 | in every reachable store each history has sequences 0 to n - 1, contiguous chunks, one context, non-decreasing times, nothing after a terminal event, and a projection equal to its fold |
| `LedgerInvariants.IntegrityChecksUnreachable` | apps/a2a-router/internal/ledger/store.go:78-99 | with no event at the zero instant, no Append on any reachable store ever fails an integrity check |
| `LedgerClient.ValidateDetail` | contracts/runtime_contracts_validation.go:361-392 | the detail check with its replay loop accepts exactly the details whose history is legal and matches the record |
| `LedgerClient.ReplayThen` | apps/a2a-router/internal/ledger/store.go:91-102 | replaying committed events and then the candidate decides both verdicts of the transition function |
| `LedgerClient.ValidateTrace` | contracts/runtime_contracts_validation.go:394-427 | the trace loop with its map of seen ids accepts exactly the traces that satisfy the pointwise definition |
| `LedgerClient.StoredTraceAnswer` | apps/a2a-router/internal/ledger/store.go:177-207 | on a reachable store a trace read fails exactly when its parentless invocations disagree on the root task or a time is the zero instant; otherwise it returns all records with parents first |
| `LedgerClient.AlwaysReadable` | apps/a2a-router/internal/ledger/store.go:177-207 | no stored projection of a reachable store fails to scan |
| `LedgerClient.Store.Append` | apps/a2a-router/internal/ledger/store.go:33-117 | the method changes the two tables exactly as the transition function says and leaves them alone when it refuses |
| `LedgerClient.Store.CheckAgainstHistory` | apps/a2a-router/internal/ledger/store.go:64-103 | the reads and checks against committed history give the specified refusal |
| `LedgerClient.Store.QueryTrace` | apps/a2a-router/internal/ledger/store.go:178-195 | the query returns each record of the trace once, ordered by creation time and id, or reports an unreadable row |
| `LedgerClient.Store.GetTrace` | apps/a2a-router/internal/ledger/store.go:177-207 | the answer is determined by the listed rows: none, broken, or a valid parent-first ordering of them |
| `TraceOrder.CompactPass` | apps/a2a-router/internal/ledger/store.go:214-230 | one pass over the array emits what the pure pass emits and compacts the rest in place, keeping order and losing nothing |
| `TraceOrder.PassOrdered` | apps/a2a-router/internal/ledger/store.go:216-230 | a pass keeps every parent before its children |
| `TraceOrder.StuckPass` | apps/a2a-router/internal/ledger/store.go:231-233 | a pass that emits nothing means no remaining record has an emitted parent |
| `TraceOrder.OrderedPass` | apps/a2a-router/internal/ledger/store.go:209-237 | input already in parent-first order is returned unchanged in one pass |
| `TraceOrder.StuckIsUnrooted` | apps/a2a-router/internal/ledger/store.go:231-233 | the error is reported only when a parent chain leaves the set or cycles |
| `TraceOrder.OrderTrace` | apps/a2a-router/internal/ledger/store.go:209-237 | terminates with a permutation with parents first, or with the error exactly when some record has no finite parent chain to a parentless record |
| `Lineage.AncestorsShareLineage` | apps/a2a-router/internal/ledger/store.go:44-62 | in every reachable store an invocation reached by following parent ids, to any depth, has the same Workspace, Trace and root task, was committed earlier by at least as many positions and is not later in time: no cycles |
| `Lineage.LinkInherits` | apps/a2a-router/internal/ledger/store.go:45-59 | the invocation an id names as parent was committed before, is not later in time, has the same lineage and a different id, and its target Agent is the child's caller |
| `Lineage.RootAncestor` | apps/a2a-router/internal/ledger/store.go:44-62 | in every reachable store each invocation has a parentless ancestor by parent ids, committed before it and of its own lineage: parent ids form a forest |
| `Lineage.RecordRooted` | apps/a2a-router/internal/ledger/store.go:209-237 | every record of a stored trace has a finite parent chain inside the trace, ending in a parentless record with the same root task |
| `Lineage.TraceAlwaysOrders` | apps/a2a-router/internal/ledger/store.go:199-202 | ordering a stored trace never reports missing or cyclic lineage |
| `Lineage.TraceValidExactly` | contracts/runtime_contracts_validation.go:394-427 | a stored trace validates if and only if its parentless invocations share one root task and no time is the zero instant |
| `DispatchLog.AdmittedExactly` | apps/a2a-router/internal/ledger/store.go:44-112 | an event placed where the Ledger expects it is admitted exactly when it is schema-valid, storable, fits its columns and continues a history without an end at the zero instant |
| `DispatchLog.StoreAdmitsExactly` | apps/a2a-router/internal/ledger/store.go:33-117 | on any reachable store Append takes a well-placed event if and only if it is schema-valid, storable, fits, continues a history without an end at the zero instant, has a fresh id and, when first, an admitting parent |
| `DispatchLog.OwnEventsAdmitted` | apps/a2a-router/internal/api/dispatch_handler.go:627-799 | the store never refuses the event that a dispatch takes for committed, unless its id or its parent conflicts; for any other event the exact condition is given |
| `DispatchLog.CommittedIsLegal` | apps/a2a-router/internal/api/dispatch_handler.go:627-799 | the committed events of every sound log form a legal history with strictly increasing times |
| `DispatchLog.FramesAreLegal` | contracts/runtime_contracts_validation.go:315-346 | the frames of every sound log are accepted by the frame validator one after the other |
| `DispatchLog.StreamCounters` | contracts/runtime_contracts_validation.go:315-346 | the frame validator's next sequence is the number of frames accepted |
| `DispatchLog.FrameNumbering` | contracts/runtime_contracts_validation.go:315-346 | frame i has sequence i, only the first is the accepted frame, and only the last may end the stream |
| `DispatchLog.TerminalFrameLast` | apps/a2a-router/internal/api/dispatch_handler.go:627-799 | after the frame that ends the stream nothing is appended and nothing is offered |
| `DispatchLog.TerminalFrameAgrees` | apps/a2a-router/internal/api/dispatch_handler.go:869-907 | the terminal frame matches the committed Ledger terminal or is a failure with no Ledger terminal; a completed frame implies a committed success |
| `DispatchLog.ChunkFrameCommitted` | apps/a2a-router/internal/api/dispatch_handler.go:711-735 | every chunk frame follows the committed Ledger event with the same chunk index |
| `Dispatch.TerminalOccurredAt` | apps/a2a-router/internal/api/dispatch_handler.go:861-867 | the terminal time is whole microseconds, the clock's microsecond once the reserved time has passed, and the reserved time before that |
| `Dispatch.EndEarly` | apps/a2a-router/internal/api/dispatch_handler.go:813-826 | a cancellation or timeout ends the invocation before it runs exactly when the Ledger takes the event |
| `Dispatch.RefuseInitial` | apps/a2a-router/internal/api/dispatch_handler.go:813-835 | a failed lifecycle Append leaves a sound log, offers no frame and answers truthfully; the end of the caller's context is committed exactly when the Ledger takes it |
| `Dispatch.AppendInitial` | apps/a2a-router/internal/api/dispatch_handler.go:809-838 | either all initial events are committed in order or the failure path was taken; with nothing failing it is the former |
| `Dispatch.CommitChunk` | apps/a2a-router/internal/api/dispatch_handler.go:711-724 | under counters that match both logs a chunk is committed before its frame exactly when the Ledger takes it; otherwise the stream ends by one terminal frame, and the end of the caller's context, if any, is committed exactly when the Ledger takes that |
| `Dispatch.OfferChunk` | apps/a2a-router/internal/api/dispatch_handler.go:725-735 | the frame of a committed chunk is accepted under the same counters; exactly a failed write ends the stream, one position further in both logs, with a failure committed exactly when the Ledger takes it |
| `Dispatch.StreamChunk` | apps/a2a-router/internal/api/dispatch_handler.go:711-735 | one payload goes through both logs, with all three counters again matching them, exactly when its fate says so; otherwise the last attempt decides the terminal event |
| `Dispatch.OfferTerminal` | apps/a2a-router/internal/api/dispatch_handler.go:891-907 | in an open stream the terminal frame is always accepted and is the only one |
| `Dispatch.FinishWithoutLedger` | apps/a2a-router/internal/api/dispatch_handler.go:891-907 | ends the stream by one failure frame and commits nothing |
| `Dispatch.CommitTerminal` | apps/a2a-router/internal/api/dispatch_handler.go:764-791 | the terminal event is committed and its frame offered if and only if the Append works and the event is valid, storable and continues its history; otherwise the stream ends with a dependency failure and nothing is committed |
| `Dispatch.CommitFailure` | apps/a2a-router/internal/api/dispatch_handler.go:851-889 | the failure is committed exactly when the Append works, the event id is an identifier, the latency is not negative, the code suits the kind and the table, and the history has no end at the zero instant |
| `Dispatch.AppendFailure` | apps/a2a-router/internal/api/dispatch_handler.go:851-859 | the same condition for a terminal event outside a stream |
| `Dispatch.FinishFailure` | apps/a2a-router/internal/api/dispatch_handler.go:869-889 | every failure with a listed code ends the stream by exactly one terminal frame, and its event is committed exactly when the Ledger takes it; an unlisted code ends neither log |
| `Dispatch.FinishSuccess` | apps/a2a-router/internal/api/dispatch_handler.go:764-791 | ends the stream by exactly one terminal frame; success is committed exactly when the Ledger takes it, and only then the frame says completed |
| `Dispatch.FinishUpstreamFailure` | apps/a2a-router/internal/api/dispatch_handler.go:752-791 | ends the stream by exactly one terminal frame; the reported failure is committed exactly when the Ledger takes it, a missing code as a protocol failure, an unlisted one never |
| `Dispatch.FinishUpstream` | apps/a2a-router/internal/api/dispatch_handler.go:737-791 | a terminal upstream event, or an ended context, ends the stream by exactly one terminal frame, and for every kind and code the history ends exactly when the Ledger takes the event asked for |
| `Dispatch.StreamOne` | apps/a2a-router/internal/api/dispatch_handler.go:685-743 | one upstream event extends both logs by its chunk, with stream sequence, chunk index and Ledger sequence again matching them, or ends the stream, as its fate says; the last attempt then decides the terminal event |
| `Dispatch.FailOne` | apps/a2a-router/internal/api/dispatch_handler.go:686-693 | an upstream error or a payload that is not JSON ends the stream; when its failure is committed is stated exactly |
| `Dispatch.StreamEach` | apps/a2a-router/internal/api/dispatch_handler.go:682-792 | the three counters stay equal to what both logs hold over every upstream sequence and failure pattern, and an ending is decided by the last attempt of the whole stream |
| `Dispatch.FinishDrained` | apps/a2a-router/internal/api/dispatch_handler.go:794-798 | a stream closed without a terminal event ends as a protocol failure, or as the end of the caller's context, committed exactly when the Ledger takes it |
| `Dispatch.StreamAll` | apps/a2a-router/internal/api/dispatch_handler.go:682-799 | over every upstream sequence and failure pattern the stream ends exactly once, or not at all for an upstream error with an unlisted code; its history has a terminal event exactly when the Ledger takes the last attempt |
| `Dispatch.DispatchStreaming` | apps/a2a-router/internal/api/dispatch_handler.go:627-799 | the whole streaming dispatch leaves a sound log for every upstream stream and every append, write and context failure; it has a terminal event exactly when the Ledger takes its last attempt, a function of the inputs alone, and then that one; with nothing failing the first completing event is committed and completed |
| `Dispatch.FailUnsent` | apps/a2a-router/internal/api/dispatch_handler.go:646-681 | a stream that never began commits its failure, always of the failed kind, exactly when the Ledger takes it, so never a timeout or cancellation, and answers with the code if and only if it was committed |
| `Dispatch.AnswerFailure` | apps/a2a-router/internal/api/dispatch_handler.go:578-614 | the failure is committed exactly when the Ledger takes it, and the answer names its code if and only if it was committed |
| `Dispatch.AnswerSuccess` | apps/a2a-router/internal/api/dispatch_handler.go:616-625 | a result is answered if and only if the success event was committed, which it is exactly when the Ledger takes it |
| `Dispatch.DispatchNonStreaming` | apps/a2a-router/internal/api/dispatch_handler.go:565-625 | every response is truthful about the committed events; the invocation has a terminal event exactly when the Ledger takes its last attempt, a function of the inputs alone; a result is answered only for an answered upstream, and always when nothing fails |
| `Attempts.StreamingEndsExactly` | apps/a2a-router/internal/api/dispatch_handler.go:627-799 | with the Ledger up and an upstream that reports only what can be recorded, a streaming dispatch lacks a terminal event exactly when its first frame could not be built and the caller's context had ended |
| `Attempts.AnsweringEndsExactly` | apps/a2a-router/internal/api/dispatch_handler.go:565-625 | with the Ledger up, a non-streaming dispatch lacks a terminal event exactly when its code is unlisted, not stored, or a timeout or cancellation of an unusable target |
| `Decimal.EndsInOneNumber` | apps/a2a-router/internal/api/dispatch_handler.go:1005-1008 | an event id, which ends in a hyphen and its sequence, determines that sequence |
| `Nested.DerivedChildIsAdmitted` | apps/a2a-router/internal/nested/context.go:42-93 | a reachable store that does not know the child admits its first event exactly when the parent still runs and is not ahead in time, the event's fields are valid and fit, and its id is fresh |
| `Boundaries.DispatchReplays` | apps/a2a-router/internal/api/dispatch_handler.go:627-799 | whatever a dispatch takes for committed, a reachable store that does not know the invocation, admits its parent and holds none of its event ids commits in the same order |
| `Boundaries.OwnIdFresh` | apps/a2a-router/internal/api/dispatch_handler.go:1005-1008 | no event of a dispatch has the id of an earlier one |
| `Boundaries.FailureAnswered` | apps/a2a-router/internal/ledger/store.go:241-270 | on a running sample the store takes a failure exactly when its latency is not negative and its code suits the kind and the table |
| `Boundaries.TimeoutAsFailureRefused` | apps/a2a-router/internal/api/dispatch_handler.go:672-681 | a timeout recorded as a plain failure is refused by the store, and accepted as a timeout |
| `Boundaries.NegativeLatencyRefused` | apps/a2a-router/internal/api/dispatch_handler.go:869-879 | a failure with a negative latency is refused, and accepted with latency zero |
| `Boundaries.ReleaseCodeRefused` | apps/a2a-router/internal/ledger/migrations/001_ledger.sql:113-118 | each of three listed codes makes a valid event that the store refuses |
| `Boundaries.WideVersionRefused` | apps/a2a-router/internal/ledger/migrations/001_ledger.sql:69 | a created event that differs from an accepted one only in a version of 129 characters is valid and fails for its width |
| `Boundaries.ZeroInstantAccepted` | apps/a2a-router/internal/ledger/store.go:241-270 | an invocation created at the zero instant is accepted by the store |
| `Boundaries.ZeroInstantBlocks` | apps/a2a-router/internal/ledger/store.go:78-83 | every later event of it in order then fails an integrity check |
| `JsonNumber.IntegralExactly` | contracts/validate.go:263-268 | a decimal with exponent denotes a positive integer exactly when the exponent reaches the fraction length less the trailing zeros |
| `JsonNumber.ParseSound` | contracts/validate.go:170-255 | whatever parses spells the text by the number grammar of section 6 of RFC 8259 |
| `JsonNumber.ParseComplete` | contracts/validate.go:170-255 | every number of that grammar parses back to itself |
| `JsonNumber.LimitCheckExactly` | contracts/validate.go:169-270 | the verdict is accepted exactly for texts that are numbers of that grammar denoting a positive integer, for coefficients and exponents of any length |
| `JsonNumber.ScanExponent` | contracts/validate.go:235-251 | the accumulator never exceeds the text length, and is exact unless the exponent is larger than the text is long |
| `JsonNumber.SaturationHarmless` | contracts/validate.go:272-283 | the comparison with the saturated exponent equals the comparison with the true one |
| `JsonNumber.ScanInteger` | contracts/validate.go:184-206 | the loop over the integer part accepts the grammar's integers and counts trailing zeros exactly |
| `JsonNumber.ScanFraction` | contracts/validate.go:208-224 | the loop over the fraction accepts the grammar's fractions and carries the counts on |
| `JsonNumber.ScanTail` | contracts/validate.go:226-255 | the loop over the exponent accepts the grammar's exponents up to the end of the text |
| `JsonNumber.ValidateLimit` | contracts/validate.go:169-270 | the index-driven checker computes that verdict on every text |
| `DuplicateMembers.RunValue` | apps/a2a-router/internal/api/dispatch_handler.go:1114-1158 | on the tokens of a value, at any stack, the stack machine rejects exactly when some object in it repeats a member name, and otherwise leaves the stack as it was with the value consumed |
| `DuplicateMembers.RunValues` | apps/a2a-router/internal/api/dispatch_handler.go:1114-1158 | the same for a stream of values: the stack is empty between them and never underflows |
| `DuplicateMembers.RejectDuplicates` | apps/a2a-router/internal/api/dispatch_handler.go:1114-1158 | the loop over tokens is the fold of the machine's step |
| `DuplicateMembers.ScanOneValue` | contracts/agent_card_semantics.go:161-215 | the recursive scanner consumes exactly one value, or rejects exactly when a member name repeats in it |
| `DuplicateMembers.ScanAt` | contracts/agent_card_semantics.go:161-215 | the recursive scanner with its loop over members computes the specified scan at every token position |
| `DuplicateMembers.ScannersAgree` | contracts/agent_card_semantics.go:149-215 | on every JSON value both scanners give the same verdict, the independent definition of a repeated member name |
| `KeyMapping.CheckKey` | config_center/key.go:73-100 | the single pass with a segment counter accepts exactly the slash-separated valid segments |
| `KeyMapping.DecodeEncode` | config_center/file/mapping.go:26-52 | decoding inverts unpadded base64url encoding (section 5 of RFC 4648) on every byte sequence |
| `KeyMapping.EveryKeyMaps` | config_center/file/mapping.go:19-35 | every valid key has a file name, of at most 227 bytes |
| `KeyMapping.MappingIsBijective` | config_center/file/mapping.go:19-62 | a leaf unmaps to a key if and only if it is that key's file name, non-canonical encodings included |
| `KeyMapping.CheckDataId` | config_center/nacos/reader.go:251-261 | the scan accepts exactly the legal dataIds |
| `KeyMapping.DataIdIsLegal` | config_center/nacos/reader.go:242-248 | every valid key gets a legal dataId |
| `KeyMapping.DataIdInjective` | config_center/nacos/reader.go:242-248 | different valid keys never share a dataId |
| `RegistryModel.EndpointOrder` | registry/model.go:96-128 | comparing endpoints is a total order on tuples |
| `RegistryModel.NormalizeEndpointsExactly` | registry/model.go:325-341 | endpoints normalize exactly when each is valid and none repeats, to the ascending arrangement of the same tuples |
| `RegistryModel.ValidInstanceExactly` | registry/model.go:211-242 | an instance validates exactly when its texts are valid, its endpoints are non-empty, valid and strictly ascending and its state is the derived one |
| `RegistryModel.NewInstanceExactly` | registry/model.go:185-208 | construction succeeds exactly for valid texts, a given state equal to the derived one, and present, valid, distinct endpoints, which it sorts |
| `RegistryModel.EqualMapsExactly` | registry/model.go:784-794 | the size-and-lookup comparison is equality for exactly those left maps that hold no empty value |
| `RegistryModel.EqualMapsCounterexample` | registry/model.go:784-794 | for every map with an empty value there is a different map that compares equal to it |
| `RegistryModel.EqualInstancesExactly` | registry/model.go:287-305 | a valid instance compares equal only to itself |
| `RegistryModel.NormalizeInstancesExactly` | registry/model.go:307-323 | instances normalize exactly when all are valid and no id repeats, to the ascending arrangement of the same instances |
| `RegistryModel.StaysNormalized` | registry/model.go:461-493 | normalizing again and comparing accepts exactly the strictly ascending lists of valid instances |
| `RegistryModel.NewSnapshotExactly` | registry/model.go:438-453 | a snapshot is built exactly when its revision and instances are valid, ids differ and populated means non-empty |
| `RegistryModel.NormalizeIdsExactly` | registry/model.go:691-705 | deleted ids normalize exactly when valid and distinct |
| `Aggregation.ConfiguredPort` | registry/kubernetes/normalize.go:105-123 | the loop returns the port of the only configured entry, and refuses none, several or an unusable one |
| `Aggregation.NormalizedRecordIsValid` | registry/kubernetes/normalize.go:125-165 | every normalized record has what an instance needs |
| `Aggregation.NormalizedSliceIsValid` | registry/kubernetes/normalize.go:80-103 | a slice is accepted exactly when its identity, address type, port and every endpoint are, and then holds one valid record per wire endpoint |
| `Aggregation.CheckIdentity` | registry/kubernetes/normalize.go:44-69 | accepts exactly the slices with the bound namespace and labels, valid names, a fitting address type and no Service owner but the bound one |
| `Aggregation.CheckOwners` | registry/kubernetes/normalize.go:56-67 | the owner loop accepts exactly when some Service owns the slice and every Service that does is the bound one |
| `Aggregation.CheckLabels` | registry/kubernetes/normalize.go:71-78 | the label loop, in any order, accepts exactly when every required label reads as required |
| `Aggregation.KeyInjective` | registry/kubernetes/normalize.go:280-283 | valid endpoints with equal keys are equal |
| `Aggregation.AggregationUnique` | registry/kubernetes/normalize.go:209-278 | at most one list of instances is an aggregation of a set of records |
| `Aggregation.AggregationExists` | registry/kubernetes/normalize.go:209-278 | every consistent set of valid records has one |
| `Aggregation.ClaimEndpoints` | registry/kubernetes/normalize.go:234-241 | claiming a record's tuples tracks owner and aggregate maps exactly, and stops exactly at a tuple of another id |
| `Aggregation.AddRecord` | registry/kubernetes/normalize.go:214-243 | a record is refused exactly when it conflicts with one already merged |
| `Aggregation.MergeSlice` | registry/kubernetes/normalize.go:213-244 | a slice is merged exactly when its records and those before stay consistent |
| `Aggregation.MergeSlices` | registry/kubernetes/normalize.go:209-245 | merging in any map order succeeds exactly when all records are consistent |
| `Aggregation.AggregateBuilds` | registry/kubernetes/normalize.go:254-266 | building the instance of a merged aggregate cannot fail and gives the union of its records' tuples |
| `Aggregation.BuildInstances` | registry/kubernetes/normalize.go:249-277 | the instances built in any map order are the aggregation of the records |
| `Aggregation.Instances` | registry/kubernetes/normalize.go:209-278 | aggregation fails exactly when two records with one id disagree or two ids claim one tuple, and otherwise is the unique aggregation, or empty without the Service |
| `SliceStore.CountEndpoints` | registry/kubernetes/observation.go:408-414 | the sum over the slice map is the same in any order |
| `SliceStore.TotalPut` | registry/kubernetes/observation.go:199-203 | replacing a slice changes the sum by the difference of the two |
| `SliceStore.StoredBounded` | registry/kubernetes/observation.go:194-203 | an event is stored if and only if the stored slices stay within both bounds |
| `SliceStore.DroppedBounded` | registry/kubernetes/observation.go:214-214 | deleting a slice keeps both bounds |
| `SliceStore.Store` | registry/kubernetes/observation.go:194-203 | the bound checks and the update as they run |
| `SliceStore.DecodeList` | registry/kubernetes/wire.go:103-129 | the initial list is accepted exactly when it is short enough, every slice normalizes, no uid repeats and the endpoints fit; the map then holds exactly the listed slices within both bounds |
| `Topology.TakeSnapshot` | registry/kubernetes/normalize.go:182-207 | a snapshot of the state fails exactly when aggregation does |
| `Topology.SnapshotOfValid` | registry/kubernetes/normalize.go:182-207 | the snapshot is valid and is the direct aggregation of the state |
| `Topology.SamePublicExactly` | registry/kubernetes/observation.go:369-384 | the comparison is equality of state and instances |
| `Topology.ReplayGivesNext` | registry/kubernetes/observation.go:386-406 | replaying upserts and deletions over the old instances gives exactly the new ones |
| `Topology.EmptyDelta` | registry/kubernetes/observation.go:241-243 | an empty delta means the instances did not change |
| `Topology.StateOnlyFlips` | registry/kubernetes/observation.go:241-246 | an empty delta between different topologies means missing and empty were swapped, with no instances on either side |
| `Topology.ChangeIsValid` | registry/model.go:590-661 | for valid snapshots with different topology the change validates if and only if the next order is positive |
| `Topology.DeletedUnordered` | registry/kubernetes/observation.go:399-405 | whatever order the map is walked in, the normalized deleted ids are the same |
| `Topology.BuildChange` | registry/kubernetes/observation.go:234-250 | the built change is that delta; building fails only when the 64-bit order wrapped to zero |
| `Topology.DeletionIsValid` | registry/kubernetes/observation.go:258-271 | the deletion change validates exactly for a missing snapshot of positive order |
| `Watch.LocalWatch.Publish` | registry/watch.go:103-128 | the critical section of Publish: refusal, overflow that latches and empties, or append |
| `Watch.LocalWatch.Terminate` | registry/watch.go:130-143 | the first outcome wins and never displaces a pending deletion |
| `Watch.LocalWatch.BeginNext` | registry/watch.go:46-62 | a second pull beside an active one is refused and changes nothing |
| `Watch.LocalWatch.PollNext` | registry/watch.go:64-88 | one pass of the pull loop |
| `Watch.StepKeeps` | registry/watch.go:46-148 | every critical section keeps the watch invariant and undoes nothing |
| `Watch.EveryRun` | registry/watch.go:46-148 | in every run the queue stays within capacity, deliveries are a prefix of accepted changes, a terminal outcome leaves the queue empty, and every error a pull returns is that outcome or a cancellation |
| `Watch.TerminalPermanent` | registry/watch.go:103-143 | after the first terminal outcome nothing is accepted or delivered and the outcome never changes |
| `Watch.DeletionIsLast` | registry/watch.go:103-148 | an accepted deletion is last, cannot be displaced by any later step, and is followed only by closed, after everything was delivered |
| `Observation.UpdatedValid` | registry/kubernetes/observation.go:165-219 | every event keeps the stored topology valid and within bounds |
| `Observation.EmissionValid` | registry/kubernetes/observation.go:225-279 | what is offered is a valid change to the direct aggregation with the next order; what is suppressed already agrees with it |
| `Observation.ObservationSession.Assess` | registry/kubernetes/observation.go:225-250 | snapshot, suppression and change building give the specified emission |
| `Observation.ObservationSession.AssessDeletion` | registry/kubernetes/observation.go:258-271 | the same for the deletion of the Service |
| `Observation.ObservationSession.Emit` | registry/kubernetes/observation.go:251-277 | the session advances only when the watch accepts the change |
| `Observation.ObservationSession.Update` | registry/kubernetes/observation.go:165-219 | the topology changes exactly as the event says, or not at all when it is refused |
| `Observation.ObservationSession.AcceptEvent` | registry/kubernetes/observation.go:159-223 | one event under the lock: update, then tell observers; nothing after an end |
| `Observation.ObservationSession.Mark` | registry/kubernetes/observation.go:281-309 | the first terminal outcome is kept and a deleted target takes none |
| `Observation.ObservationSession.Stop` | registry/kubernetes/observation.go:295-327 | runs once, ending the watch with the terminal outcome and leaving it alone after a deletion |
| `Selector.ObservedRelease.Initialize` | apps/a2a-router/internal/routing/watch_selector.go:185-202 | accepts exactly a valid initial snapshot of the target with order zero |
| `Selector.ObservedRelease.Apply` | apps/a2a-router/internal/routing/watch_selector.go:204-219 | accepts exactly a valid change to the next order while available, and otherwise changes nothing |
| `Selector.ObservedRelease.Fail` | apps/a2a-router/internal/routing/watch_selector.go:227-235 | drops the snapshot |
| `Selector.SelectedExactly` | apps/a2a-router/internal/routing/selector.go:52-70 | an endpoint is selected if and only if it stands at the only ready TCP position on the port |
| `Selector.SelectEndpoint` | apps/a2a-router/internal/routing/selector.go:52-71 | the nested loops compute that selection and fail on none or several |
| `Pipeline.NextKeeps` | registry/kubernetes/observation.go:159-345 | every step of session, watch and selector keeps the pipeline invariant |
| `Pipeline.SelectorHoldsPublished` | apps/a2a-router/internal/routing/watch_selector.go:185-235 | after any interleaving an available selector holds the initial or a published snapshot, its order is the number of Apply steps taken, and the stored slices are within bounds |
| `Pipeline.DrainedSelectorAgrees` | registry/kubernetes/observation.go:159-279 | with the queue drained and nothing failed its state and instances are the direct aggregation of the current Service and slices |
| `Pipeline.SelectionUsesCurrentTopology` | apps/a2a-router/internal/routing/selector.go:52-70 | a selection made then uses the only ready TCP endpoint on the port of that aggregation |
| `Pipeline.SelectorNeverRejects` | apps/a2a-router/internal/routing/watch_selector.go:112-134 | initializing and applying never fail in any run, and a release is unavailable after its start only when a pull returned an error, for a canceled call or the watch's terminal outcome |
| `Registrar.Lease.Terminate` | registry/registration.go:86-96 | the first terminal outcome of a lease wins: a missing error counts as closed, one without an outcome as invalid |
| `Registrar.Table.Admit` | registry/nacos/registrar.go:128-139 | a registration is admitted exactly when the registrar is open, not registering and holds no session |
| `Registrar.Table.Settle` | registry/nacos/registrar.go:150-163 | after a successful POST the session becomes live, or is cleaned up when Close came first |
| `Registrar.Table.BeginClose` | registry/nacos/registrar.go:168-179 | only the first Close closes, over the sessions held then |
| `Registrar.NextKeeps` | registry/nacos/registrar.go:117-240 | every step of Register, heartbeat, session close and registrar Close keeps the invariant |
| `Registrar.OneRegistration` | registry/nacos/registrar.go:128-161 | in every interleaving at most one registration is in flight or live |
| `Registrar.NothingAfterDelete` | registry/nacos/registrar.go:196-240 | whatever a session sends, its POST is first and nothing, no heartbeat in particular, follows its DELETE |
| `Registrar.TerminalFirstWins` | registry/registration.go:86-96 | no step of any interleaving replaces a terminal outcome |
| `Registrar.RemainsExactly` | registry/nacos/registrar.go:168-240 | whenever the first Close has returned, a registration remains exactly when a POST answered with an error has taken effect, its close timed out, or its DELETE failed without effect, however late the registry acts |
| `Registrar.NothingRemains` | registry/nacos/registrar.go:168-240 | with every DELETE successful, no close timed out and no refused POST in effect, nothing remains registered |
| `Registrar.NothingReturns` | registry/nacos/registrar.go:168-240 | once the first Close has returned, a session whose close did not time out, whose POST was not sent and refused and whose DELETE did not fail without effect is never listed again in any continuation |
| `Registrar.ShowsAgainExactly` | registry/nacos/registrar.go:168-240 | once the first Close has returned, some continuation of the run lists a session exactly when its close timed out, its POST was sent and refused, or its DELETE failed and has not taken effect |
| `Registrar.LostPostRemains` | registry/nacos/registrar.go:144-149 | a concrete run in which no DELETE fails and no close times out, yet a registration appears after Close because its refused POST takes effect late |
| `FileSubscriptions.RevisionsFollow` | config_center/revision.go:66-93 | every enqueued revision is the advanced one before it, and validates as following it |
| `FileSubscriptions.VisitedEach` | config_center/file/watcher.go:212-242 | a walk in any order gives each subscription nothing or one sample, and each listed one exactly one when it finishes |
| `FileSubscriptions.NextKeeps` | config_center/file/reader.go:153-198 | every step of the reader keeps the subscription invariant |
| `FileSubscriptions.EverySubscription` | config_center/file/watcher.go:191-244 | in every run orders are 1, 2, 3 and so on, adjacent states differ, replaying the events gives the current state and deliveries are a prefix of them |
| `FileSubscriptions.NoSampleLost` | config_center/file/watcher.go:191-244 | while live, with every failed delivery answered, suppressed plus enqueued equals the successful samples since opening, and the state is the last sample |
| `FileSubscriptions.FaultEndsAll` | config_center/file/watcher.go:212-244 | after a failed delivery no key is sampled any more, and the interruption that follows ends every subscription |
| `FileSubscriptions.TerminalPermanent` | config_center/file/watcher.go:79-87 | no step changes a terminal outcome |
| `FileSubscriptions.StoppedReaderEndsAll` | config_center/file/reader.go:343-364 | in a closed or interrupted reader every subscription has ended |
| `FileReader.Reader.Observe` | config_center/file/reader.go:153-198 | sampling and registering are one step |
| `FileReader.Reader.ProcessKeyChange` | config_center/file/watcher.go:191-244 | one sample is handed to the subscriptions of the key, or ends them when it cannot be read; on return either no sample was lost or every subscription has ended |
| `FileReader.Reader.SampleKey` | config_center/file/watcher.go:191-244 | the critical section is the specified step, and reports exactly whether a delivery failed |
| `FileReader.Reader.EndKey` | config_center/file/watcher.go:203-211 | an unreadable key ends exactly its own subscriptions |
| `FileReader.Reader.VisitAll` | config_center/file/watcher.go:212-242 | the loop in any order is the specified walk, stopping at the first failed delivery |
| `FileReader.Reader.TerminateAll` | config_center/file/reader.go:343-350 | the nested loops end exactly the registered subscriptions and forget them |
| `FileReader.Reader.InterruptAll` | config_center/file/reader.go:352-364 | the interruption step |
| `FileReader.Reader.Close` | config_center/file/reader.go:123-138 | the closing step |
| `FileReader.Reader.CloseOne` | config_center/file/reader.go:366-377 | ends one registered subscription and no other |
| `FileReader.Reader.PullPartOf` | config_center/file/watcher.go:48-65 | one part of Next: a call entered after the end delivers nothing |

## Left out

- HTTP handlers, routing tables, configuration, TLS and process start-up: plumbing.
- SQL text, migrations and schema probing: tables are sequences and maps with the source's keys and check constraints.
- JSON decoding and JSON Schema compilation: values enter decoded, and duplicate scanning starts from tokens.
- ReleaseTarget validation and URL canonicalisation: targets are values compared by equality, validated before an observation starts.
- The identity check of a Service, and how the labels a slice must carry are put together: a boolean and a map.
- TopologyStatus, the map of observation sessions and its limit: sessions are keyed by six fields and shown by three, and one session is modelled.
- Agreement of source tokens between selector and session: unchanged public topologies are suppressed, so only state and instances agree.
- Server-side expiry of registrations, and heartbeats that register an instance again: only a POST registers.
- The text of requests to the remote registry: a request is its kind.
- registry/nacos/observation.go: the same delta and emission logic with fewer cases.
- File identity, symbolic links and platform watchers: a file is missing or a byte sequence, and a read may fail with any code.
- Wrap-around of the 64-bit counter of suppressed notifications: it counts without bound.
- Nacos long polling, gRPC push, credentials, digests and the gateway: foreign protocols and value types.
- Release lifecycle in the control plane: its deciding store is not part of this model.
- Liveness: no claim says that a waiting call returns.
- Watch.LocalWatch.PollNext: waiting for the signal is left to the caller, who polls again or cancels.
- RegistryModel.NewSnapshotExactly: the validation of the target itself is not modelled, because targets are values that were validated before an observation starts.
- FileReader.Reader.ProcessKeyChange: the sampling and the interruption after a failed delivery run without other calls between them; FileSubscriptions.FaultEndsAll covers any calls between them.
- Registrar.Lease.Terminate: the text that classifies an outcome further is not modelled, because no step depends on it.
