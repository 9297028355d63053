# A3S Cloud: delivery, compatibility and snapshot proofs

A Dafny 4.11 model of four parts of A3S Cloud, with the properties they are there for. `dafny verify dfyconfig.toml` checks all of it.

**Event shipping.** A node ships the event pages of its agent runs to the control plane. It keeps one cursor per run and at most one outbound batch in a state file, and takes five steps: snapshot and retain, collect, stage, upload, commit. Another shipper may work on the same file, the control plane's answer may be lost, and the process may stop between any two steps. `ProviderEvents` holds pages, batches and receipts; `Shipping` the three file transactions; `Collect` the polling scan and a whole call; `Protocol` the step system with any number of shippers, and its invariant. `Delivery` proves what the control plane's log then holds, `Progress` that no reachable file wedges a shipper, `Fairness` bounded bypass and draining. `ShippingFile` is the same code as the node runs it, objects updated in place, each method proved against its transaction.

**The reference provider.** `ReferenceProvider` models command admission, the run lifecycle with exact tool approval, and event pages. `Composed` lets shippers poll this provider while commands arrive, and carries the delivery and draining results over to the pair; `EndToEnd` joins them: what was cancelled ends up drained and delivered exactly once.

**The API compatibility checker.** `Json` has JSON pointers and reference resolution, `SchemaCompat` the recursive schema comparison, `SchemaMeaning` for which pairs of schemas it is silent and what it reports otherwise, `SchemaSoundness` what its silence means for the values a schema accepts. `ContractOutcomes` says what a comparison of two documents finds and whether it sees a change, `ContractCheck` runs it with a shared report and flags carried through every loop, `ContractMeaning` says of two documents when nothing is found, and `ContractVersions` derives the version discipline.

**Gateway snapshots.** `Mcp`, `McpPrefixes` and `McpDurations` prove the fast projection checks equal to plain quantified statements. `AclText`, `AclBlocks`, `RouteIntents` and `RateProfiles` prove both ACL renderers canonical and injective. `ResourceSlots` covers the canonical slot lists used for fencing. `Base`, `Sorting` and `Text` are shared.

How the world outside is modelled:

- A file transaction is atomic, as under its lock. Clocks, batch ids, provider answers and the control plane's decisions are arguments of the step that meets them; a batch id is fresh when drawn.
- A digest is a field of the value it names, and nothing is assumed about two values with one digest. A receipt names its batch and page.
- `admitted` and `wellFormed` stand for the checks of single fields, `checked` for the findings on the candidate document alone.
- The interpreter's recursion limit is the parameter `depth`; running out of it, or an unhashable or unreadable keyword, is a raised exception. Comparisons of reference-free schemas finish from some depth on (`SchemaSoundness.FragmentFinishes`).

Four places where the code does less than its surroundings suggest. The code is modelled as it is, and each has its exact condition:

- Page validation admits a page that says there is more and carries no source event. A terminal page brings its run closer to drained exactly when it has more only behind source events of its own, and without that no number of calls drains it (`Fairness.TerminalPageLowersShipsLeftIff`, `Fairness.StalledRunNeverDrains`).
- The reference provider refuses the first page of an approval run once that run was resumed or cancelled. A refusal fails the call, and a run without a cursor is polled before every run that has one. So the run is never served, and as long as it is listed only bindings without a cursor still ship, after which every call fails (`Composed.CancelledAnswersIff`, `Composed.PastApprovalStopsShipping`, `Fairness.FailingNewcomerBlocks`). Draining after Cancel itself needs nothing but successful calls (`Composed.CancelledRunDrains`).
- It stores a run before it builds the receipt, so a Start at clock zero leaves a run without an accepted command (`ReferenceProvider.StartKeepsOneToOneIff`).
- The schema comparison is silent on restrictions and properties added where there were none, on narrowing behind a nested reference, and on keywords it does not look at (`SchemaSoundness.AddedKeywordNarrowsIff`, `AddedPropertyNarrowsIff`, `NestedRefNarrowsIff`, `UncomparedKeywordIsSilent`).

## Model

| member | source | states |
|---|---|---|
| ProviderEvents.ValidPageAdvances | crates/contracts/src/agent_provider/events.rs:256-340 | A valid page covers exactly the source events behind its cursor: the next position is the old one plus the source count, never past the provider's latest event; a page with nothing more reaches it, one with more stays below; a retention gap moves nothing |
| ProviderEvents.PageValidIff | crates/contracts/src/agent_provider/events.rs:174-340 | Page validation, exactly, in positions: a gap page says where the source now starts and nothing else; any other covers the next events, says truly whether more follow, gives a failed run's reason on its last page only, and its records lie within it in strictly increasing order, none later than the page |
| ProviderEvents.ApprovalPageIff | crates/contracts/src/agent_provider/events.rs:195-247 | A page also fits its profile exactly when a request for approval closes it with the run waiting, a waiting run sends nothing else, and the profile knows tools and pauses where they occur |
| ProviderEvents.ReceiptFor | crates/contracts/src/node/agent_provider.rs:217-236 | The receipt of an accepting control plane matches its batch exactly when the batch is valid and was accepted no earlier than it was sent |
| ProviderEvents.MatchingReceiptIsIssued | crates/contracts/src/node/agent_provider.rs:217-236 | A receipt matches a batch exactly when it is the one issued for it, up to its time and its replay mark |
| Shipping.TransactionsKeepFileOk | crates/node-agent/src/agent_provider_event_shipper.rs:217-294 | Snapshot, staging and commit each leave a state file that validates when read back, whatever the targets, batch or receipt |
| Shipping.RetainedStateIsValid | crates/node-agent/src/agent_provider_event_shipper.rs:133-162 | Retention with no batch pending always leaves a valid state |
| Shipping.SnapshotSucceedsIff | crates/node-agent/src/agent_provider_event_shipper.rs:217-234 | A snapshot of a readable file is refused exactly for its target list, with which error, and then changes nothing; a pending batch comes with the whole state, otherwise exactly the listed cursors are kept as they were |
| Shipping.StageIsCompareAndSet | crates/node-agent/src/agent_provider_event_shipper.rs:236-256 | Staging succeeds exactly when the slot is free and the page continues the cursor stored at that moment; it fills the slot and touches nothing else, and a refusal changes nothing |
| Shipping.PendingIsWhatStagingStores | crates/node-agent/src/agent_provider_event_shipper.rs:90-115 | A file with a pending batch reads back exactly when staging that batch in the file without it would have left that file |
| Shipping.CommittedCursorIsValid | crates/node-agent/src/agent_provider_event_shipper.rs:280-291 | The cursor a valid page leaves behind passes the cursor checks |
| Shipping.CommittedCursorSays | crates/node-agent/src/agent_provider_event_shipper.rs:280-291 | The committed cursor stands where the page ended, with its state and time; it is drained exactly after a gap or when the state is terminal and the page reaches the last source event, and needs recovery exactly after a gap |
| Shipping.ValidCursorsAreThoseOfPages | crates/node-agent/src/agent_provider_event_shipper.rs:70-90 | The cursors that pass the checks are those some valid page leaves behind, up to the end of the 64-bit sequence numbers and to runs that were over before their first event |
| Shipping.MatchingReceiptCommits | crates/node-agent/src/agent_provider_event_shipper.rs:258-294 | A commit succeeds exactly when a batch is pending and the receipt matches it; the slot is then free and one cursor moved, and a refusal changes nothing |
| Shipping.RetentionUnderPendingStrandsIff | crates/node-agent/src/agent_provider_event_shipper.rs:225-232 | Why retention is skipped while a batch is pending: trimming then leaves a valid state exactly when the batch's binding is listed or its page needed no cursor |
| Collect.ScanStopsAtFirst | crates/node-agent/src/agent_provider_event_shipper.rs:393-446 | The scan stops at the first candidate it does not skip, and ships or fails as that candidate decides |
| Collect.ScanShipsTheEarliest | crates/node-agent/src/agent_provider_event_shipper.rs:377-446 | Whatever the order of the target list, the earliest binding of the polling order that is not skipped decides: it ships, or it fails the scan; nothing is found exactly when all are skipped |
| Collect.ScanFailsIff | crates/node-agent/src/agent_provider_event_shipper.rs:397-446 | A scan of any list fails exactly when some failing candidate stands before every shippable one |
| Collect.AdmittedScanFailsIff | crates/node-agent/src/agent_provider_event_shipper.rs:377-446 | For admissible targets: the scan fails exactly when some failing binding stands before everything else it would stop at |
| Collect.CollectedBatch | crates/node-agent/src/agent_provider_event_shipper.rs:377-446 | A collected batch is valid, fresh, for a listed and undrained binding, carries the provider's answer to the snapshot's cursor, and is sent no earlier than now and than the page, at one of the two |
| Collect.SkippedPageSaysNothing | crates/node-agent/src/agent_provider_event_shipper.rs:423-431 | Of the pages that answer an undrained cursor, exactly those without events, of a run still under way, are skipped whose commit would change nothing in the cursor but its time; all others ship |
| Collect.OtherVisits | crates/node-agent/src/agent_provider_event_shipper.rs:397-431 | A drained cursor and an unavailable unit are skipped, the first answer to a binding without a cursor ships, and the scan fails exactly on a refusal or a page that does not answer |
| Collect.AnswersCoverAtMostEight | crates/node-agent/src/agent_provider_event_shipper.rs:408-413 | An answer is a valid page of the binding's own run that starts where its cursor ended and covers at most eight source events |
| Protocol.StepKeepsInv | crates/node-agent/src/agent_provider_event_shipper.rs:217-294 | Every step of every shipper (snapshot, collect, stage, upload with lost answers, acknowledge, crash) keeps the invariant: a readable file, a history that is the committed batches and at most one pending one, a log that deduplicates to a prefix of it |
| Protocol.ReachableInv | crates/node-agent/src/agent_provider_event_shipper.rs:351-375 | That invariant holds after every run of every interleaving, crashes included |
| Protocol.RecordedBatchSays | crates/node-agent/src/agent_provider_event_shipper.rs:377-446 | Over every run, whatever the control plane records is a batch of this node, for an admitted binding, with a valid page of that binding's own run observed no later than it was sent |
| Delivery.ChainDelivers | crates/node-agent/src/agent_provider_event_shipper.rs:92-115 | Pages that continue one another, answered by one source, deliver its records from the first on, each once and in order |
| Delivery.ContinuingPageExtendsChain | crates/node-agent/src/agent_provider_event_shipper.rs:92-115 | A batch that continues the stored cursor extends the chain of pages of its binding |
| Delivery.ReachableTracked | crates/node-agent/src/agent_provider_event_shipper.rs:217-294 | Over every run that lists the binding in each call, its stored cursor is where its last committed page left off and its committed pages form a chain |
| Delivery.StagedIsAChain | crates/node-agent/src/agent_provider_event_shipper.rs:236-294 | Everything staged for such a binding, and everything the control plane recorded of it, is one chain |
| Delivery.DeliveryOverWholeRuns | crates/node-agent/src/agent_provider_event_shipper.rs:217-294 | Delivery: after any run, the log deduplicated by batch id covers a prefix of the provider's source without gap or overlap, holding each record once and in order, and only the last page can report a retention gap |
| Delivery.EachBatchMovesItsCursorOnce | crates/node-agent/src/agent_provider_event_shipper.rs:236-294 | In every reachable world a batch is staged only from the current cursor, committed at most once and from that same position, and a commit moves exactly its own cursor, however many shippers upload or acknowledge |
| Delivery.DrainingIsFinal | crates/node-agent/src/agent_provider_event_shipper.rs:280-291 | A cursor is drained exactly when the last committed page reported a gap or reached the last source event of a terminal run, and no later step stages anything for it |
| Delivery.DrainedMeansDelivered | crates/node-agent/src/agent_provider_event_shipper.rs:280-291 | Over every run, once the cursor is drained without need of recovery, the deduplicated log holds every record of the source up to the end last reported, once and in order, and the run is over |
| Progress.CallIsAProtocolRun | crates/node-agent/src/agent_provider_event_shipper.rs:351-375 | ship_once without interference is a run of the protocol's steps: same file, same upload, shipper idle again |
| Progress.CallsStayReachable | crates/node-agent/src/agent_provider_event_shipper.rs:351-375 | A call made in a reachable world, whatever other shippers left unfinished, leads to a reachable world with the call's own file and log |
| Progress.CollectedBatchStagesIff | crates/node-agent/src/agent_provider_event_shipper.rs:236-256 | A batch collected from the file's own cursors can be staged exactly when its provider's clock did not run backwards past the stored observation |
| Progress.NeverWedges | crates/node-agent/src/agent_provider_event_shipper.rs:351-375 | From every reachable file, a call with admissible targets, answering providers whose clocks do not run backwards and an answering control plane succeeds and leaves the slot free |
| Fairness.SuccessfulCall | crates/node-agent/src/agent_provider_event_shipper.rs:351-446 | A successful call advances exactly the earliest binding that is not skipped, or skips all and only trims cursors |
| Fairness.LeastRecentlyObservedShips | crates/node-agent/src/agent_provider_event_shipper.rs:393-396 | What a call uploads was observed least recently of all it would have stopped at, never observed first, ties by the smallest execution id |
| Fairness.QuietCallShipsNothing | crates/node-agent/src/agent_provider_event_shipper.rs:423-431 | A call over bindings that are drained, out of reach or answered by repeating their cursor uploads nothing and reports that nothing was shipped |
| Fairness.FairCallShipsOrShrinks | crates/node-agent/src/agent_provider_event_shipper.rs:280-291 | A successful call that does not skip a binding ships it, or what it ships falls behind it in the polling order |
| Fairness.BoundedBypass | crates/node-agent/src/agent_provider_event_shipper.rs:377-446 | A binding that is never skipped ships within as many successful calls as there are bindings ahead of it, itself included |
| Fairness.EveryRoundShipsEveryone | crates/node-agent/src/agent_provider_event_shipper.rs:377-446 | If n bindings always have news, any n consecutive successful calls ship every one of them |
| Fairness.TerminalPageLowersShipsLeftIff | crates/contracts/src/agent_provider/events.rs:274-340 | A terminal page without gap brings its run closer to drained exactly when it has more to come only behind source events of its own |
| Fairness.EndedRunDrains | crates/node-agent/src/agent_provider_event_shipper.rs:398-431 | A run whose pages make that progress drains within one round of successful calls over the polled bindings for each remaining source event and one more |
| Fairness.StalledRunNeverDrains | crates/node-agent/src/agent_provider_event_shipper.rs:423-431 | And a run whose pages make none never does: over any number of successful calls its cursor is not drained and its position does not move |
| Fairness.FailingNewcomerBlocks | crates/node-agent/src/agent_provider_event_shipper.rs:393-413 | While a run without a cursor is listed and fails, a call settles a pending batch, fails, or ships another binding without a cursor |
| Fairness.FailingNewcomerStopsShipping | crates/node-agent/src/agent_provider_event_shipper.rs:393-413 | So fewer calls can succeed than there are polled bindings without a cursor |
| Fairness.ValidPageNeedNotAdvance | crates/contracts/src/agent_provider/events.rs:274-340 | Page validation does not ask for that progress: a page that says there is more, carries no source event and leaves the cursor in place passes every check |
| ShippingFile.ValidateBindings | crates/node-agent/src/agent_provider_event_shipper.rs:449-463 | The loop over running sets accepts exactly the lists whose targets are admitted, with distinct executions and distinct run identities; the first failing target decides the error |
| ShippingFile.IndexBindings | crates/node-agent/src/agent_provider_event_shipper.rs:137-148 | The first pass of retention accepts exactly those lists, reports the first failure's error, and indexes each binding by its key |
| ShippingFile.ShippingState.Validate | crates/node-agent/src/agent_provider_event_shipper.rs:71-117 | The loop over the stored cursors accepts exactly the valid states |
| ShippingFile.ShippingState.RetainBindings | crates/node-agent/src/agent_provider_event_shipper.rs:133-162 | In place: refused with the right error and no change, or exactly the listed cursors are kept |
| ShippingFile.ShippingState.StagePending | crates/node-agent/src/outbound_batch.rs:46-55 | Stages a valid batch into an empty slot; otherwise refused without change |
| ShippingFile.ShippingState.Acknowledge | crates/node-agent/src/outbound_batch.rs:57-67 | Empties the slot for a matching receipt and returns the batch; otherwise refused without change |
| ShippingFile.ShippingState.AdvanceCursor | crates/node-agent/src/agent_provider_event_shipper.rs:280-291 | Writes the committed page's cursor under its binding's key and touches nothing else |
| ShippingFile.StateFile.ReadState | crates/node-agent/src/agent_provider_event_shipper.rs:296-305 | Reads the stored state, or an empty one for a missing file, and refuses exactly the invalid ones |
| ShippingFile.StateFile.SnapshotSync | crates/node-agent/src/agent_provider_event_shipper.rs:217-234 | File and result are the snapshot transaction's |
| ShippingFile.StateFile.SetPendingSync | crates/node-agent/src/agent_provider_event_shipper.rs:236-256 | File and result are the staging transaction's |
| ShippingFile.StateFile.CommitSync | crates/node-agent/src/agent_provider_event_shipper.rs:258-294 | File and result are the commit transaction's |
| ShippingFile.EventShipper.CollectPage | crates/node-agent/src/agent_provider_event_shipper.rs:377-446 | The sort-and-scan loop returns what the scan of the polling order chooses |
| ShippingFile.EventShipper.UploadBatch | crates/node-agent/src/agent_provider_event_shipper.rs:369-375 | File, result and upload are those of settling the batch |
| ShippingFile.EventShipper.ShipNext | crates/node-agent/src/agent_provider_event_shipper.rs:351-367 | File, result and upload are those of one uninterrupted call |
| ReferenceProvider.Process.AcceptCommand | crates/contracts/examples/reference_echo_provider.rs:62-160 | The in-place update of runs and commands is the admission transaction, failing paths included |
| ReferenceProvider.CommandValidIff | crates/contracts/src/agent_provider/protocol.rs:310-564 | Which commands the reference provider takes: every Cancel, no Recover, a Start that brings exactly the invocation and agent its identity names, a Resume that decides on a tool in need of approval for its own run |
| ReferenceProvider.AcceptMoves | crates/contracts/examples/reference_echo_provider.rs:62-160 | A command changes at most its own run and is remembered exactly when its receipt could be issued |
| ReferenceProvider.StartDecides | crates/contracts/examples/reference_echo_provider.rs:204-263 | A Start goes ahead with any prompt but the approval prompt, and with that one exactly when a single tool needs approval; it leaves a run executing with one output, or waiting with one request for that tool |
| ReferenceProvider.AdmissionDecides | crates/contracts/examples/reference_echo_provider.rs:62-160 | Admission, exactly, for a running clock: which commands are admitted, that the others change nothing, what the admitted one leaves of its run and that its receipt carries that run's state |
| ReferenceProvider.HistoryDecidesState | crates/contracts/examples/reference_echo_provider.rs:83-143 | Over every history with running clocks: a run exists exactly when its Start was admitted, is cancelled exactly when a Cancel was, otherwise executes exactly after a plain Start or a Resume, and otherwise waits |
| ReferenceProvider.EveryRunIsOk | crates/contracts/examples/reference_echo_provider.rs:83-143 | Over every history a run holds a pending approval exactly while it awaits approval, and its state is one of the three the provider uses |
| ReferenceProvider.RunsOnlyMoveForward | crates/contracts/examples/reference_echo_provider.rs:83-143 | Over every history a run's identity and event never change and its state only moves along AwaitingApproval, Executing, Cancelled |
| ReferenceProvider.ResumeMatchesTheRequest | crates/contracts/examples/reference_echo_provider.rs:113-138 | An accepted Resume names the call, tool and digest the run's event asked approval for and takes the run out of waiting |
| ReferenceProvider.AtMostOneResume | crates/contracts/examples/reference_echo_provider.rs:113-138 | Over every history at most one distinct Resume of a run is accepted |
| ReferenceProvider.ReplayIsStable | crates/contracts/examples/reference_echo_provider.rs:68-80 | After any further submissions, resubmitting an accepted command returns its first receipt with only `replayed` set and changes nothing; the same request id under another digest is refused without effect |
| ReferenceProvider.ReplayDecides | crates/contracts/examples/reference_echo_provider.rs:68-80 | After any history a request admitted before is answered, with its first receipt, exactly when it has the digest, run and action it had then; otherwise it is refused, and nothing changes |
| ReferenceProvider.RefusedBecause | crates/contracts/examples/reference_echo_provider.rs:83-143 | Which reason a new command is refused for, each exactly, and that a refusal changes nothing while the clock runs |
| ReferenceProvider.RunsMatchStarts | crates/contracts/examples/reference_echo_provider.rs:83-159 | Over every history with a started clock, runs and accepted Starts are one to one |
| ReferenceProvider.StartKeepsOneToOneIff | crates/contracts/examples/reference_echo_provider.rs:144-159 | The clock condition is exact: a Start that creates a run keeps the correspondence if and only if its clock is above zero, since a run is stored before its receipt can fail |
| ReferenceProvider.PageServedIff | crates/contracts/examples/reference_echo_provider.rs:162-201 | A page is served exactly for the run's own identity, a running clock, and a cursor at its event or at the start, the latter for an approval run only while it still waits |
| ReferenceProvider.PageRefusedBecause | crates/contracts/examples/reference_echo_provider.rs:162-201 | Which reason a page is refused for, each exactly |
| ReferenceProvider.ServedPageSays | crates/contracts/examples/reference_echo_provider.rs:162-201 | A served page carries the run's own identity and state, the provider's clock and, from the start, its one event |
| Composed.SystemRunsTheProtocol | crates/node-agent/src/agent_provider_event_shipper.rs:351-446 | Shippers polling a live provider are runs of the protocol with that provider's answers |
| Composed.EventDeliveredExactlyOnce | crates/contracts/examples/reference_echo_provider.rs:162-201 | Under any crash schedule and any interleaving of commands, the deduplicated log holds for a listed binding nothing or its run's one event, once |
| Composed.CursorMeansDelivered | crates/contracts/examples/reference_echo_provider.rs:162-201 | And it holds that event, exactly once, as soon as the binding has a cursor, drained or not |
| Composed.CancelledAnswersIff | crates/contracts/examples/reference_echo_provider.rs:101-112 | A cancelled run answers with a page that ends it exactly when the provider can still serve it from that cursor, and refuses otherwise |
| Composed.CancelledRunDrains | crates/node-agent/src/agent_provider_event_shipper.rs:377-446 | After an accepted Cancel, two rounds of successful calls over the polled bindings drain the cursor, whatever the provider answers in each |
| Composed.ApprovalRunOnceMovedIsNeverServed | crates/contracts/examples/reference_echo_provider.rs:162-201 | Once a run that asked for approval has left waiting, its first page is refused for ever |
| Composed.PastApprovalStopsShipping | crates/contracts/examples/reference_echo_provider.rs:162-201 | While such a run is listed without a cursor, fewer calls succeed than there are polled bindings without a cursor |
| Composed.CancelBeforeFirstPageStrands | crates/contracts/examples/reference_echo_provider.rs:101-112 | A run comes there by an ordinary history: started for approval and cancelled before its first page, it is refused whatever is submitted later |
| EndToEnd.RoundIsACall | crates/node-agent/src/agent_provider_event_shipper.rs:351-375 | A call played in the running system is a call on its file, with the provider's own answers |
| EndToEnd.CancelledRunIsDeliveredOnce | crates/node-agent/src/agent_provider_event_shipper.rs:351-446 | From the system after any history: two rounds of successful calls after a Cancel, with any commands in between, leave the cursor drained and the run's event in the deduplicated log exactly once |
| Json.DecodeUndoesEncode | tools/api-contract/check_contract.py:609-613 | The two chained replaces undo the escaping of section 3 of RFC 6901 for every key |
| Json.PointerFollowsPath | tools/api-contract/check_contract.py:608-614 | Splitting and decoding the pointer of any path of keys descends exactly that path (section 4 of RFC 6901) |
| Json.Resolve | tools/api-contract/check_contract.py:601-615 | The loop ends on every document, cyclic references included, with the resolved value |
| Json.RefResolvesToTarget | tools/api-contract/check_contract.py:601-615 | A reference to a path resolves to what stands there, if that is not itself a reference |
| SchemaCompat.Report.AddIf | tools/api-contract/check_contract.py:543-550 | Adds the one finding when its condition holds, and keeps what was reported before |
| SchemaCompat.CompareProperty | tools/api-contract/check_contract.py:554-566 | One turn of the property loop adds exactly that property's findings |
| SchemaCompat.CompareEveryProperty | tools/api-contract/check_contract.py:554-566 | The loop adds exactly the findings of all baseline properties, in whatever order they come |
| SchemaCompat.CompareProperties | tools/api-contract/check_contract.py:551-578 | Properties and required sets: exactly their findings are added |
| SchemaCompat.CompareItems | tools/api-contract/check_contract.py:579-591 | Shared items are compared recursively; exactly their findings are added |
| SchemaCompat.CompareObjects | tools/api-contract/check_contract.py:543-598 | Keywords, properties and items together add exactly the findings of the node |
| SchemaCompat.CompareSchema | tools/api-contract/check_contract.py:520-598 | Adds exactly the findings of the two schemas to the shared list and returns whether their resolutions differ |
| SchemaSoundness.SilentInputKeepsModelled | tools/api-contract/check_contract.py:520-598 | For reference-free schemas, closed baseline objects and no restriction added where there was none, an input comparison that reports nothing does not narrow type, enum, properties, required, items, minLength or maximum |
| SchemaMeaning.RequiredNames | tools/api-contract/check_contract.py:568-575 | How required names are read: the strings of a list, the keys of an object, the characters of a string |
| SchemaSoundness.SilentInputIsSound | tools/api-contract/check_contract.py:520-598 | Soundness: where these and annotations are the only keywords, every value the baseline accepts is accepted by the candidate (section 4.7.24 of OpenAPI 3.0.3) |
| SchemaSoundness.SilentOutputKeepsShape | tools/api-contract/check_contract.py:520-598 | The output direction mirrored: reporting nothing means everything the candidate may answer has the shape the baseline promised |
| SchemaSoundness.FragmentFinishes | tools/api-contract/check_contract.py:520-598 | Reference-free schemas are always compared to the end, from some nesting depth on that depends on the schemas alone |
| SchemaMeaning.SilentIffCompatible | tools/api-contract/check_contract.py:520-598 | For reference-free schemas, a comparison that is not cut short reports nothing if and only if the schemas are compatible: equal, exempt, or keeping type, listed values, limits, required names, every property and the items, in its direction |
| SchemaMeaning.NodeReportsIff | tools/api-contract/check_contract.py:543-598 | What is reported at a node's own place is exactly what the two nodes show there; the rest stands below it |
| SchemaMeaning.FindingsBelow | tools/api-contract/check_contract.py:554-591 | Every finding is located at or below the place compared |
| SchemaMeaning.ShapeReported | tools/api-contract/check_contract.py:531-535 | Anything but two objects that differs is reported as a changed shape and nothing else |
| SchemaMeaning.MarkerElsewhereChangesNothing | tools/api-contract/check_contract.py:536-542 | The correction marker exempts request schemas that admitted any object and nothing else: on any other baseline it leaves what is reported as it was |
| SchemaSoundness.SameTextIsSilent | tools/api-contract/check_contract.py:529-532 | A schema equal in text is reported silent whatever the documents say about references nested in it |
| SchemaSoundness.AddedKeywordIsSilent | tools/api-contract/check_contract.py:543-597 | An enum, items, minLength or maximum added to any node that had none is never reported |
| SchemaSoundness.AddedKeywordNarrowsIff | tools/api-contract/check_contract.py:543-597 | So soundness needs that condition: added to any node, each of the four refuses exactly the accepted values that fail its own test |
| SchemaSoundness.UncomparedKeywordIsSilent | tools/api-contract/check_contract.py:543-597 | And it needs the modelled keywords: any other keyword added or changed on a node is never reported |
| SchemaSoundness.AddedPropertyNarrowsIff | tools/api-contract/check_contract.py:551-566 | So does closedness: a property added to any open node is silent and refuses exactly the accepted objects that used the name for something else |
| SchemaSoundness.NestedRefNarrowsIff | tools/api-contract/check_contract.py:529-532 | And freedom from references: a list of a referenced schema is silent, yet narrows exactly as its target does |
| ContractCheck.CompareContent | tools/api-contract/check_contract.py:418-439 | Every baseline media type is compared; findings and flag are those of the content outcome |
| ContractCheck.CompareRequestBody | tools/api-contract/check_contract.py:395-439 | Findings and flag are those of the request body outcome |
| ContractCheck.CompareResponses | tools/api-contract/check_contract.py:442-486 | Findings and flag are those of the responses outcome |
| ContractCheck.CollectParameters | tools/api-contract/check_contract.py:382-392 | The parameter map: later entries replace earlier ones of the same place and name |
| ContractCheck.CompareParameters | tools/api-contract/check_contract.py:345-366 | Findings and flag are those of the parameters outcome, kept, removed and added ones |
| ContractCheck.CompareOperation | tools/api-contract/check_contract.py:336-379 | Findings and flag are those of the operation outcome |
| ContractCheck.CompareOperations | tools/api-contract/check_contract.py:306-323 | Findings and flag are those of all baseline operations |
| ContractCheck.CompareComponentSchemas | tools/api-contract/check_contract.py:489-509 | Findings and flag are those of all baseline components |
| ContractCheck.CompareContracts | tools/api-contract/check_contract.py:284-333 | The report is the findings of the two documents, or the exception that cut the comparison short |
| ContractVersions.ContentChangedIff | tools/api-contract/check_contract.py:418-439 | The changed flag survives the media loop: raised exactly when the contents do not say the same |
| ContractVersions.ResponsesChangedIff | tools/api-contract/check_contract.py:442-486 | The flag survives the status loop: raised exactly when the responses do not say the same |
| ContractVersions.ParametersChangedIff | tools/api-contract/check_contract.py:345-366 | The flag survives the parameter loops: raised exactly when the parameters do not say the same |
| ContractVersions.OperationChangedIff | tools/api-contract/check_contract.py:336-379 | The flag of an operation is raised exactly when something compared in it differs |
| ContractVersions.ComponentsChangedIff | tools/api-contract/check_contract.py:489-509 | The flag survives the component loop: raised exactly when the component schemas do not say the same |
| ContractVersions.DocumentChangedIff | tools/api-contract/check_contract.py:284-333 | A finished comparison reports a semantic change exactly when the documents do not say the same |
| ContractMeaning.DocumentCleanIff | tools/api-contract/check_contract.py:306-325 | The compared parts yield no finding exactly when every baseline operation, parameter, body, media type, status and component is still there, no parameter or body is newly required, no public operation became authenticated, and every compared schema pair is silent |
| ContractMeaning.OperationCleanIff | tools/api-contract/check_contract.py:336-379 | The same for one operation |
| ContractMeaning.SilentAnywhere | tools/api-contract/check_contract.py:520-598 | Whether a pair of schemas is silent does not depend on the place it is compared at |
| ContractMeaning.OperationsRead | tools/api-contract/check_contract.py:41-52 | The operations are the objects under the eight verbs of the paths |
| ContractMeaning.SchemasRead | tools/api-contract/check_contract.py:512-517 | The components are the objects under components and schemas |
| ContractMeaning.ParametersRead | tools/api-contract/check_contract.py:382-392 | Parameters are read by place and name, the last of one identity counts |
| ContractMeaning.IdentityIgnoresCase | tools/api-contract/check_contract.py:382-392 | Names that differ in case alone are one parameter, and only those |
| ContractVersions.VersionReadsBack | tools/api-contract/check_contract.py:30-38 | A version is read back from its text, each number in its place |
| ContractVersions.NewerIsAnOrder | tools/api-contract/check_contract.py:301-305 | Versions are ordered by major, minor and patch number |
| ContractVersions.EmptyReportIff | tools/api-contract/check_contract.py:284-333 | An empty report, exactly: nothing is wrong with the candidate alone, it keeps everything the baseline promised, both versions are readable with one major number, and the candidate's is newer, or equal for documents that say the same |
| ContractVersions.EqualVersionsSameDocuments | tools/api-contract/check_contract.py:284-333 | An empty report for equal versions means the documents say the same: operations, parameters, media types, statuses, component names, security, deprecation and every resolved schema pair |
| McpPrefixes.NeighboursDecide | crates/contracts/src/mcp.rs:75-91 | On a sorted list without repetitions, checking neighbours decides the check of all pairs |
| McpPrefixes.CheckPrefixes | crates/contracts/src/mcp.rs:75-91 | The sorted-window check accepts exactly the lists in which no prefix begins another |
| McpPrefixes.AtMostOnePrefixMatches | crates/contracts/src/mcp.rs:75-91 | A presented string then starts with at most one of them |
| McpDurations.UnitIsUnambiguous | crates/contracts/src/mcp.rs:514-547 | The suffix chain reads every written duration with the unit it was written with |
| McpDurations.DurationAcceptedIff | crates/contracts/src/mcp.rs:514-547 | A text is accepted as so many milliseconds exactly when it is a positive number of one unit amounting to that and within the bound; no overflow check decides |
| McpDurations.MillisReadAsWritten | crates/contracts/src/mcp.rs:514-547 | n milliseconds read as n, if the bound allows |
| McpDurations.UnitsAreInProportion | crates/contracts/src/mcp.rs:514-547 | A second reads as a thousand milliseconds, a minute as sixty seconds, a bare number as seconds, under every bound |
| Mcp.ValidateTarget | crates/contracts/src/mcp.rs:351-377 | One turn against the running sets and weights refuses exactly when the target does not pass; the 64-bit sum cannot overflow |
| Mcp.ValidateTargets | crates/contracts/src/mcp.rs:298-322 | The target loop accepts exactly when each target passes, ids, runtimes and services are unique, weights fit and priorities count from zero |
| Mcp.CheckPriorities | crates/contracts/src/mcp.rs:315-322 | Enumerating the ordered set accepts exactly 0..k-1 |
| Mcp.CountsFromZeroIff | crates/contracts/src/mcp.rs:315-322 | A set of priorities is 0..k-1 exactly when with every priority it holds all smaller ones |
| Mcp.ValidateGrant | crates/contracts/src/mcp.rs:418-435 | Accepts exactly when the grant names the one live credential of its environment and generation |
| Mcp.ValidateGrants | crates/contracts/src/mcp.rs:324-330 | Accepts exactly when every grant passes and no credential is granted twice |
| Mcp.ValidateRoute | crates/contracts/src/mcp.rs:252-332 | Accepts exactly when header, targets behind all earlier routes, priorities and grants pass |
| Mcp.ValidateRoutes | crates/contracts/src/mcp.rs:93-107 | Over any number of routes: ids, routers, target ids and runtimes unique across all routes, and each route passes |
| Mcp.ValidateProfiles | crates/contracts/src/mcp.rs:64-73 | Accepts exactly well-formed profiles with distinct digests and indexes them |
| Mcp.ValidateCredentials | crates/contracts/src/mcp.rs:75-91 | Accepts exactly well-formed credentials with distinct ids and prefix-free prefixes |
| Mcp.ValidateProjection | crates/contracts/src/mcp.rs:44-109 | The whole validator accepts exactly the admissible projections |
| Mcp.TargetsDifferAcrossRoutes | crates/contracts/src/mcp.rs:351-377 | In an admitted projection a target id or a runtime observation names one target of one route |
| Mcp.RoutesDiffer | crates/contracts/src/mcp.rs:93-107 | In an admitted projection no two routes share an id or a router |
| Mcp.RuntimesDistinctIff | crates/contracts/src/mcp.rs:351-377 | Targets may share node, unit or generation, as long as no two share all three |
| Mcp.TimeoutsIff | crates/contracts/src/mcp.rs:277-288 | The timeouts, exactly: first response within five minutes, idling within an hour, stream within a day, draining within ten minutes, and the stream outlasts the first two |
| Mcp.TargetsOkIff | crates/contracts/src/mcp.rs:351-377 | The targets of a route, exactly: each passes on its own, no two share a service, and the weights of a priority add up within 32 bits |
| Mcp.GrantsOkIff | crates/contracts/src/mcp.rs:324-330 | The grants of a route, exactly: no credential twice, and each names a live credential of the route's environment at its current generation |
| Mcp.TokenMatchesOneCredential | crates/contracts/src/mcp.rs:75-91 | A presented token starts with the prefix of at most one admitted credential |
| Mcp.GrantNamesOneCredential | crates/contracts/src/mcp.rs:418-435 | Each grant of an admitted projection names exactly one credential, live, of its environment and generation |
| AclText.EscapeIsPerCharacter | crates/contracts/src/application_publication_route_intent_acl.rs:191-197 | The four chained replaces are one escape of each character on its own |
| AclText.ReaderUndoesEscape | crates/contracts/src/application_publication_route_intent_acl.rs:191-197 | A left-to-right reader undoes the escape, whatever the string and whatever follows |
| AclText.UuidTextIsInjective | crates/contracts/src/application_publication_route_intent_acl.rs:144-154 | Two identities with the same text are the same |
| AclText.DecimalReadsBack | crates/contracts/src/gateway_rate_shaping_bound_profile_acl.rs:108-117 | A number is read back from its decimal text |
| AclText.TokenOkIff | crates/contracts/src/application_publication_route_intent_acl.rs:157-169 | A token is a non-empty text within its bytes that trimming leaves as it is, without line breaks or zero characters |
| AclText.Sha256OkIff | crates/contracts/src/application_publication_route_intent_acl.rs:181-189 | A digest is its algorithm and 64 lower-case hexadecimal digits |
| AclText.TemplateIsInjective | crates/contracts/src/application_publication_route_intent_acl.rs:132-154 | Two texts of one template that agree, agree in every value put between |
| AclText.GivenIsAssigned | crates/contracts/src/application_publication_route_intent_acl.rs:144-154 | A value placed behind a name appears in the text as that name's assignment |
| AclBlocks.RenderBlock | crates/contracts/src/application_publication_route_intent_acl.rs:105-127 | Sort, check, deduplicate, append: the text of the sorted entries if all are valid with distinct keys, else refused |
| AclBlocks.RenderedContains | crates/contracts/src/application_publication_route_intent_acl.rs:105-127 | The text of an accepted list holds the text of every entry, in one piece |
| AclBlocks.RenderedInOrder | crates/contracts/src/application_publication_route_intent_acl.rs:105-127 | The text is the header, the entries in their order, each once, and the closing brace; the empty list has no text |
| AclBlocks.RenderingIsCanonical | crates/contracts/src/application_publication_route_intent_acl.rs:105-127 | Every permutation of a list renders alike, refusal included |
| AclBlocks.RenderingIsInjective | crates/contracts/src/application_publication_route_intent_acl.rs:105-127 | Two accepted lists with the same text hold the same entries |
| RouteIntents.CheckValues | crates/contracts/src/application_publication_route_intent_acl.rs:61-83 | The list check accepts exactly when every value passes and none repeats |
| RouteIntents.ValidateIntent | crates/contracts/src/application_publication_route_intent_acl.rs:35-98 | Accepts exactly the valid intents |
| RouteIntents.RenderIntents | crates/contracts/src/application_publication_route_intent_acl.rs:105-127 | Succeeds exactly when every intent is valid and the intent ids are distinct, with the rendered text |
| RouteIntents.RenderedIntentReads | crates/contracts/src/application_publication_route_intent_acl.rs:105-155 | The text of an accepted list holds for every intent one entry that opens with its id and gives each field under its own name |
| RouteIntents.RenderedIntentsInOrder | crates/contracts/src/application_publication_route_intent_acl.rs:105-127 | The intents stand by ascending id behind the block's own header |
| RouteIntents.IntentTextIsCanonicalAndInjective | crates/contracts/src/application_publication_route_intent_acl.rs:105-155 | Permutations render alike, and lists that render alike are permutations of each other |
| RateProfiles.RenderedProfileReads | crates/contracts/src/gateway_rate_shaping_bound_profile_acl.rs:73-123 | The text of an accepted list holds for every profile one entry that opens with its id and gives the digest and both scalars of its algorithm under their names |
| RateProfiles.RenderedProfilesInOrder | crates/contracts/src/gateway_rate_shaping_bound_profile_acl.rs:73-103 | The profiles stand by ascending id, then digest, behind the block's own header |
| RateProfiles.RenderProfiles | crates/contracts/src/gateway_rate_shaping_bound_profile_acl.rs:73-103 | Succeeds exactly when every profile is valid and the id and digest pairs are distinct, with the rendered text |
| RateProfiles.ProfileTextIsCanonicalAndInjective | crates/contracts/src/gateway_rate_shaping_bound_profile_acl.rs:73-123 | Permutations render alike, and lists that render alike are permutations of each other, across both algorithms |
| ResourceSlots.ContainmentIsCoverage | crates/contracts/src/resource.rs:71-138 | Between allocations valid for one kind, containment is coverage of every unit |
| ResourceSlots.AllocationOkIff | crates/contracts/src/resource.rs:71-106 | Ports come as a range of port numbers, everything else as an amount of the kind's own unit, never nothing |
| ResourceSlots.ValidateSlots | crates/contracts/src/resource.rs:226-278 | The one-pass neighbour check accepts exactly the bounded lists of valid slots strictly sorted by key |
| ResourceSlots.CanonicalIffNeighbours | crates/contracts/src/resource.rs:226-278 | Canonical lists, exactly: one to 256 valid slots, each behind the one before it |
| ResourceSlots.StableIdOkIff | crates/contracts/src/resource.rs:280-289 | A slot id is a token of at most 255 bytes without tabs |
| ResourceSlots.ValidateRequests | crates/contracts/src/resource.rs:226-242 | The request list check is that check for requests |
| ResourceSlots.ValidateBindings | crates/contracts/src/resource.rs:244-260 | The binding list check is that check for bindings |
| ResourceSlots.ValidateEvidence | crates/contracts/src/resource.rs:262-278 | The evidence list check is that check for evidence |
| ResourceSlots.CanonicalListIsUnique | crates/contracts/src/resource.rs:226-278 | Two accepted lists of the same slots are the same list |
| ResourceSlots.SlotOrder | crates/contracts/src/resource.rs:226-278 | Slots stand by kind in the source's order, and within a kind by id |
| ResourceSlots.SameKeySameSlot | crates/contracts/src/resource.rs:226-278 | A key names at most one slot of an accepted list |
| ResourceSlots.EvidenceOfBindingsIff | crates/contracts/src/resource.rs:187-205 | A binding list is accepted exactly when the list of its evidence is and every allocation suits its kind; the evidence names each binding's own slot, generation and fence |

## Left out

- SchemaSoundness.SilentInputIsSound: holds for reference-free schemas of the modelled keywords and annotations (title, description, default, example, externalDocs, deprecated and the correction marker) with closed baseline objects and no restriction added where there was none; the lemmas after it show why references, open objects, added restrictions and other keywords are excluded
- SchemaSoundness.SilentOutputKeepsShape: speaks of types, required properties, declared properties and items; the output direction does not compare lengths or maxima
- Fairness.EndedRunDrains: assumes that a page with more to come carries a source event, the exact condition of Fairness.TerminalPageLowersShipsLeftIff
- Composed.CancelledRunDrains: is about calls that succeed; when a listed run is refused they stop succeeding, as Composed.PastApprovalStopsShipping says
- ReferenceProvider.RunsMatchStarts: assumes clocks above zero, the exact condition of ReferenceProvider.StartKeepsOneToOneIff
- Delivery.DeliveryOverWholeRuns: is about a binding listed in every call; dropping a binding from the list drops its cursor by design
- RouteIntents.RenderIntents: which message a refusal carries is not modelled
- RateProfiles.RenderProfiles: which message a refusal carries is not modelled
- Mcp.ValidateProjection: which message a refusal carries is not modelled
- SchemaCompat.CompareSchema: the report is a set of findings, since the checker sorts and deduplicates its messages; their wording is not modelled
- SchemaCompat.CompareSchema: Python's equality of True and 1, and of booleans with integers, is not modelled
- ContractCheck.CompareOperations: locations name the method in lower case
- ContractCheck.CollectParameters: parameter names are lower-cased in ASCII only
- SchemaCompat.CompareProperties: a `required` list with an element that is not a string raises; Python raises only for unhashable or unordered ones
- ShippingFile.ShippingState.Validate: every refusal is `Invalid`; the source reports a harness error when the first failing cursor, or the pending batch, has a binding that is not admitted
- ShippingFile.StateFile.ReadState: every refusal is `Invalid`, as in ShippingFile.ShippingState.Validate
- ShippingFile.StateFile.SetPendingSync: a batch with a binding that is well-formed but not admitted is `Invalid`; the source reports a harness error
- McpDurations.DurationAcceptedIff: digits and blanks are those of ASCII
- Checks of one document alone (documentation, tags, examples, deprecation windows): flat presence tests, taken as the input `checked`
- Single-field checks of bindings, profiles, credentials, endpoints, origins and verifier hashes: URL and Argon2 parsing belong to libraries
- The control plane's own acceptance of batches: only that it records a batch or not, answers or not
- State file encoding, locking, async tasks, sockets and HTTP: input and output around the modelled transactions
- SHA-256, UUID generation and clocks: values that arrive from outside
- The command line tools, ACL parsing and canonicalisation, conformance relays, and the contract types that are field checks only: they would add easy members
- The order in which two shippers reach the lock: every order is a run of the step system, and no order is assumed fair
