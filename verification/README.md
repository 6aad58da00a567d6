# Verified model of the Mujeeb 24 backend cores

Mujeeb 24 answers customers and assists merchants with language models that are never
trusted: every answer, tool call and catalog proposal of a model passes deterministic Go code
before anything is read or written. This project models that code in Dafny and proves what it
keeps for every model behaviour, every repository answer and every interleaving.

The four cores and their modules:

1. **Merchant assistant.** `ToolContract` (the tool table and argument decoding),
   `AssistantLoop` (one conversation as a function of what the model and the readers answer),
   `RecordNames` (the tools by their names), `AssistantService` (the class that runs the loop),
   `AssistantProofs` and `AssistantLaws` (what every conversation keeps, what it may read and
   what it answers), and the paging readers behind it: `Paging`, `PageScan`,
   `MessagePaging`, `HistoryReader`, `CheckpointDelta`, `CheckpointPaging`.
2. **Approved catalog edits.** `CatalogAttributes` (attribute validation and the diagnosing
   preflight), `AttributeDefinitions` (definition preflight and resolution at approval),
   `DefinitionLaws` (which definitions pass, from the stored fields and the JSON codec),
   `Approval` (their agreement, and schema versions as conservative extensions),
   `UpdateApproval`, `UpdateDecision` and `UpdateRefusals` (what a passed preflight of attributes
   says about what approval stores and accepts),
   `KeyRenaming` (aliases to stored keys), `Execution`, `ExecutionProofs`, `ExecutionEffects`,
   `ExecutionRuns`, `ExecutionOutcome`, `ExecutionResults` and `ExecutionServices` (review,
   transactional execution, replay, and what an execution does in terms of the proposal).
3. **AutoReply run.** `RunLifecycle`, `EvidenceSet`, `ValidationPipeline`, `ReplyMedia`,
   `AutoReply`, `AutoReplyProofs`, `AutoReplyAccounts`, `AutoReplyOutcome`, `AutoReplyRuns`,
   `AutoReplyServices`.
4. **Worker pool.** `WorkerPool` (the protocol as a state machine whose steps are the
   observable actions of `Submit`, `Stop` and the workers) and `WorkerPoolProofs`.

How the source's parts are represented:

- Ports (models, repositories, clocks, random IDs, cancellation) are parameters: function
  values or records of answers. The theorems quantify over all of them. What a repository is
  assumed to promise is a named predicate (`Faithful`, `Readable`, `Random`, `Sound`,
  `ArabicIsVisible`, `UniqueIndex`), used only where it is stated; `SoundLibraryExists` and
  `ReadableExists` show that the larger ones can be met.
- Code that updates state is a class or a method with its loops; its postcondition equates the
  new state with a specification function, and the theorems are about that function. A
  transaction works on a copy that replaces the state at the end, so a rollback keeps nothing.
- The specification functions are themselves pinned by laws that do not name them: over the
  fields of the rows and messages, the names of the tools, the lists of the proposal and the
  answers of the ports (`RecordNames`, `AssistantLaws`, `DefinitionLaws`, `ExecutionOutcome`,
  `ExecutionResults`, `AutoReplyOutcome`, `AcceptanceLaw`, `DeltaLaw`, `FailClosed`).
- Go's map iteration order is arbitrary choice (`:|`), so results hold for every order.
- `string` is a sequence of runes; sizes in bytes are `ByteLen`.
- JSON encoding and decoding, regular expressions over UUIDs, Arabic script and the checks of
  single attribute values are uninterpreted (`Library`, `Stages`).
- History that the source does not store is kept beside the state where a theorem needs it
  (`log` of a conversation, `accepted`/`started`/`finished` of the pool, `reviews` and
  `commits` of the proposal store). No operation reads it.

What the model shows that the source's documentation does not say:

- `preflightSchemaAttributes` accepts every attribute map when there is no schema, while the
  validator still checks free-form names. They agree exactly when there is a schema or every
  name is admissible (`PreflightAgreement`, counterexample `NoSchemaReservedKey`).
- The preflight trims stored labels and the approval does not. After a passed preflight the
  approval refuses over an untrimmed stored label of a definition named by key
  (`PreflightImpliesApproval`, counterexample `UntrimmedLabelRefused`).
- An update that brings attribute definitions but no item attributes writes an empty
  attribute map over the item's own, whenever the item is written at all
  (`UpdateWithoutAttributes`).
- `listMessagesAfterCheckpoint` has no bound of its own against a repository that keeps
  returning empty pages with alternating cursors: whatever the deadline, it is used up
  (`PingPongNeverStops`). It runs for ever exactly against repositories that from some load on
  answer only with such pages (`EndlessIff`); one that never promises more behind an empty page
  needs at most 257 page loads and no deadline (`AdvancingNeedsNoDeadline`).
- `recordAIUsage` also returns an error when appending the record of a turn without a reply
  fails, although its comment calls that case best effort. Counting all usage errors therefore
  balances the entitlement exactly when no turn commits without a reply while its record is
  refused (`ErrorsTheorem`, counterexample `ErrorWithoutReply`).
- A tool call's JSON arguments can carry a text past the length check when a null for the same
  parameter follows it, because the check looks at the decoded map and the reader at the
  decoded struct. The limits hold exactly when no text outside them is followed by nulls only
  (`DecodedWithinLimits`, counterexample `LongTextAccepted`).
- After a passed validation and preflight, with nothing changed in between, the attribute part
  of `apply` can still refuse an item update. `ApplyAcceptsIff` gives the exact condition, and
  `UpdateRefusals` one input for each way to miss it: a reserved name on an item without a
  template, which the preflight does not look at (`ReservedNameRefused`); an update without item
  attributes that moves the item to another template version, where `apply` checks the required
  keys on an empty map (`RequiredKeyRefused`, `FirstTemplateRefused`); a new alias both among the
  old names and among the changes, which collides in the second renaming (`NewAliasCollides`);
  an old attribute under an alias whose value does not fit the definition it is moved to
  (`OldAliasRefused`). Variants and created items under a template are never refused
  (`VariantAccepted`, `CreationAccepted`).
- That a customer message has at most one open run is the work of the partial unique index of
  `ai_runs`: the lookup in `StartRun` may return an ended run although an open one exists, and
  then only the index refuses the second (`StartNeedsIndex`).
- The comment of `Handle` says a denied decision marks the run failed and one that requires
  approval marks it authorized. The code completes the run in both cases (`StatusTheorem`).
- The comment of `StartRun` says a conflicting insert returns the existing run. The code
  returns the repository's error (`RunLifecycle.Start`).

## Model

| member | source | states |
|---|---|---|
| WorkerPoolProofs.PoolSafety | internal/application/services/autoreply_worker_pool.go:48-121 | In every interleaving nothing is sent on the closed channel, the queue stays within its depth (64 unless set) and the running tasks within the concurrency (4 unless set), every accepted task is exactly one of queued, running, finished, and tasks start in the order of acceptance |
| WorkerPoolProofs.StepInv | internal/application/services/autoreply_worker_pool.go:65-121 | Every step of any caller or worker keeps the lock, once, worker and task invariants |
| WorkerPoolProofs.SubmitAnswers | internal/application/services/autoreply_worker_pool.go:93-105 | A returned Submit said true exactly for the accepted tasks; a refused task is never queued, run or finished |
| WorkerPoolProofs.SubmitTurnedAway | internal/application/services/autoreply_worker_pool.go:93-105 | A Submit is turned away only by a stopped pool or a full queue, and accepted only while the pool runs and has room, behind the tasks queued |
| WorkerPoolProofs.StopDrains | internal/application/services/autoreply_worker_pool.go:113-121 | When any Stop has returned every accepted task has finished, and no continuation accepts or finishes another |
| WorkerPoolProofs.TaskProgress | internal/application/services/autoreply_worker_pool.go:65-84 | After close, taking and finishing a task each lower twice the queued plus the running tasks |
| WorkerPoolProofs.ShutdownBound | internal/application/services/autoreply_worker_pool.go:65-121 | After close nothing is accepted and a run has at most as many worker steps as the measure of remaining work |
| WorkerPoolProofs.ShutdownProgress | internal/application/services/autoreply_worker_pool.go:65-121 | Shutdown cannot deadlock: in every reachable pool, while any Stop has not returned, a call already made or a worker can take a step |
| WorkerPoolProofs.DrainProgress | internal/application/services/autoreply_worker_pool.go:65-121 | After close a worker can move while work remains, and then the waiting Stop can return |
| WorkerPoolProofs.RunHistory | internal/application/services/autoreply_worker_pool.go:48-121 | A run only extends the histories and never reopens the channel |
| ToolContract.OfferTools | internal/application/merchantassist/tool_contract.go:55-85 | Exactly the available names the table knows are offered, each with its own definition of at most one parameter |
| RecordNames.TableLaw | internal/application/merchantassist/tool_contract.go:55-74 | The table has exactly seventeen names: six take a record ID of the kind the loop verifies for that name, three a search text, which two of them demand not to be blank, eight nothing |
| RecordNames.ArgumentLaw | internal/application/merchantassist/assistant_chat.go:33-89 | By tool name and the members of the JSON object: arguments are accepted iff there are none for a tool that takes none, and otherwise only the one parameter, each time text or null, the last within 80 or 128 bytes and without line break, and for the published readers the last text not blank |
| ToolContract.DecodeReadArgs | internal/application/merchantassist/assistant_chat.go:33-89 | Arguments are accepted iff the members fit the tool's one parameter, are strings within the limits and not blank where text is needed; the result is what the struct decoding yields |
| ToolContract.DecodedShape | internal/application/merchantassist/assistant_chat.go:33-89 | Accepted arguments fill at most the parameter the tool declares |
| ToolContract.DecodedWithinLimits | internal/application/merchantassist/assistant_chat.go:55-89 | Accepted arguments keep the 80 and 128 byte limits and contain no line break exactly when no text outside the limits is followed by nulls only |
| ToolContract.LongTextAccepted | internal/application/merchantassist/assistant_chat.go:55-89 | Any search text over 80 bytes is accepted and decoded when a null follows it |
| ToolContract.UniqueWithinLimits | internal/application/merchantassist/assistant_chat.go:55-89 | The limits hold when no member is repeated |
| ToolContract.SignatureInjective | internal/application/merchantassist/assistant_chat.go:290-290 | The cache key name, search and record ID joined by bars is injective on validated requests |
| AssistantProofs.TranscriptTheorem | internal/application/merchantassist/assistant_chat.go:243-529 | For every model, each assistant turn is followed by exactly one tool message per call in call order, and call IDs are unique over the conversation, a batch that ends it included |
| AssistantProofs.ReplayTheorem | internal/application/merchantassist/assistant_chat.go:305-327 | A failure given without reading repeats the verdict of an earlier read of the same request |
| RecordNames.DiscoveredIsNamed | internal/application/merchantassist/assistant_chat.go:91-128 | An ID becomes known from a read iff the rows name it for that tool name: conversations and transactions by the two blocks of customer_activity or a sample of their listing, leads by list_leads, customers by find_customers or by the customer_id of the three listings |
| AssistantLaws.ProvenanceTheorem | internal/application/merchantassist/assistant_chat.go:290-304 | A checked call is refused over its record iff the tool of that name takes one and the ID is empty or neither on the screen nor named as that kind by the rows of an earlier successful read; its reader runs iff it is not refused and the request was never read, also in a batch that is then aborted |
| AssistantLaws.KnownTheorem | internal/application/merchantassist/assistant_chat.go:160-174 | At the end of every conversation an ID is known as a kind iff it was on the screen or a read of the log named it |
| AssistantLaws.EvidenceTheorem | internal/application/merchantassist/assistant_chat.go:330-524 | What a reader did decides the answer: full evidence iff it is not empty and keeps 28000 bytes per read and 65000 in all, otherwise the failure code of that outcome with the record kind of the tool, and no answer after a cancelled or unsanitizable read |
| AssistantLaws.CachedTheorem | internal/application/merchantassist/assistant_chat.go:305-327 | Every cached reply names an earlier tool message that carries the full evidence of a successful read of the same request, under the coverage label of that tool, never a failed read |
| AssistantProofs.ReadOnceTheorem | internal/application/merchantassist/assistant_chat.go:290-327 | Each distinct request reaches a reader at most once per conversation, counting the reads of an aborted batch and the read that aborts it |
| AssistantLaws.BudgetTheorem | internal/application/merchantassist/assistant_chat.go:500-524 | Evidence handed to the model stays within 65000 bytes in all and 28000 per read, and the coverages and links kept for the answer are, by tool name and in order, those of the reads |
| AssistantLaws.AnswerTheorem | internal/application/merchantassist/assistant_chat.go:219-241 | A conversation that ends with an answer shows the last word of the one provider that answered throughout: the redacted and trimmed text, not empty and at most 4000 bytes, the first fifteen links and the coverage labels of its reads |
| AssistantLaws.FinalReplyLaw | internal/application/merchantassist/assistant_chat.go:223-241 | In every reachable state a reply without calls that stops is answered that way, and otherwise refused as invalid evidence |
| AssistantProofs.RejectedBatchTheorem | internal/application/merchantassist/assistant_chat.go:245-288 | One malformed or unavailable call rejects the whole batch: no reader runs, nothing is learnt, and every call gets the failure that says whether its tool is unavailable, its arguments are malformed, or another call is to blame |
| AssistantProofs.DecodedBatchTheorem | internal/application/merchantassist/assistant_chat.go:277-290 | In any other batch every call answered is answered as the request it decodes to |
| AssistantProofs.CoverageIsNotFailure | internal/application/merchantassist/tool_recovery.go:58-69 | No success coverage coincides with a failure code |
| AssistantProofs.ConversationInv | internal/application/merchantassist/assistant_chat.go:204-531 | The invariant that relates transcript, known IDs, cache, budget and call IDs holds in every reachable state |
| AssistantService.Assistant.constructor | internal/application/merchantassist/assistant_chat.go:160-203 | The loop starts with the screen record as the only known ID |
| AssistantService.Assistant.RememberIds | internal/application/merchantassist/assistant_chat.go:91-128 | For a tool of the table exactly the IDs its rows name become known, each under its kind, beside those known before |
| AssistantService.Assistant.CheckBatch | internal/application/merchantassist/assistant_chat.go:243-276 | A missing or repeated call ID ends the conversation with nothing remembered; otherwise the batch is safe iff every call is available and well formed |
| AssistantService.Assistant.RunCall | internal/application/merchantassist/assistant_chat.go:290-526 | One checked call has the effect of the specification: unverified, cached, failed or fresh evidence |
| AssistantService.Assistant.RunBatch | internal/application/merchantassist/assistant_chat.go:280-529 | A batch is answered call by call as specified, up to the read that ends the conversation |
| AssistantService.Assistant.Step | internal/application/merchantassist/assistant_chat.go:204-529 | One round of the loop has the verdict and leaves the object as specified, aborted or not |
| AssistantService.Assistant.Assist | internal/application/merchantassist/assistant_chat.go:204-531 | The whole conversation has the verdict and leaves the object as specified, aborted or not |
| PageScan.ScanAllPages | internal/application/merchantassist/discovery_pagination.go:39-89 | Terminates for any source with at most 20001 requests, requests no cursor twice, succeeds exactly when the source hands out a complete listing of distinct records, and then total, status counts, first 40 rows and first 12 links are the fold over the concatenated pages |
| PageScan.StuckHasNoListing | internal/application/merchantassist/discovery_pagination.go:49-72 | When the scan gets stuck no other sequence of pages of that source is a complete listing either |
| MessagePaging.FaithfulDelivery | internal/application/services/ai_context_builder.go:254-281 | Whatever has been read from a faithful newest-first source is its newest part, and an exhausted one has delivered all |
| HistoryReader.ScanPages | internal/application/merchantassist/conversation_history_reader.go:129-181 | The messages kept are exactly those examined with visibility public, content type text and a text that is not blank, up to the checkpoint, the seventeenth text or the end; the scan fails only on a page it must refuse |
| HistoryReader.BuildMessages | internal/application/merchantassist/conversation_history_reader.go:212-239 | The collected texts become evidence in chronological order, each sanitized, iff the sanitizer and the contract check accept each of them |
| HistoryReader.FitBudget | internal/application/merchantassist/conversation_history_reader.go:251-269 | Only oldest messages are dropped, and any drop gives up the summary and the claim of completeness |
| HistoryReader.BuildSummary | internal/application/merchantassist/conversation_history_reader.go:193-211 | A summary is attached exactly when there is one and the window was not cut; it is refused iff the sanitizer or the contract check objects to it |
| HistoryReader.Read | internal/application/merchantassist/conversation_history_reader.go:118-270 | Every message shown is one delivered of this conversation with visibility public, content type text and a text that is not blank, sanitized to at most 1200 bytes; at most sixteen, the oldest first, within 24576 bytes. With a complete label every delivered message with these fields is shown, up to the checkpoint if there is one; partial means something was left out; a summary comes only with a complete delta of an unchanged state; a well-formed conversation to whose own texts and summary nothing objects is never refused |
| HistoryReader.ReadableExists | internal/application/merchantassist/sanitizer.go:29-57 | Such conversations exist with a sanitizer that rejects empty and very long texts |
| HistoryReader.FaithfulHistory | internal/application/merchantassist/conversation_history_reader.go:127-192 | Over a faithful source a complete label means that exactly the messages of the conversation with public visibility and a text that is not blank are shown, all of them or all newer than the checkpoint |
| HistoryReader.ServedNotRefused | internal/application/merchantassist/conversation_history_reader.go:136-181 | A well-formed paged conversation is never refused by the scan |
| CheckpointDelta.ListAfterCheckpoint | internal/application/services/ai_context_builder.go:249-282 | Whatever the source, the result is the delta of the delivered messages or names its failure, and page loads are bounded by 257 plus the empty pages that promise more; over a faithful source it is exactly the delta |
| CheckpointDelta.DeltaLaw | internal/application/services/ai_context_builder.go:249-282 | The delta is what stands before the first checkpoint of the newest-first list, reversed, iff that is at most 256 messages; more are too many, and without a checkpoint there is none |
| CheckpointDelta.AdvancingNeedsNoDeadline | internal/application/services/ai_context_builder.go:254-281 | A source without such empty pages needs at most 257 loads, whatever the deadline |
| CheckpointDelta.FaithfulDelta | internal/application/services/ai_context_builder.go:249-282 | Over a faithful source the result is exactly the messages newer than the checkpoint in chronological order, at most 256, or the error the whole conversation calls for |
| CheckpointDelta.PingPongNeverStops | internal/application/services/ai_context_builder.go:254-281 | Against a source of empty pages with alternating cursors the loop uses up every deadline, load by load |
| CheckpointPaging.EndlessIff | internal/application/services/ai_context_builder.go:254-281 | The loop uses up every deadline iff from some load on every page it gets is empty and promises more under a cursor that moves |
| CheckpointPaging.UsesUp | internal/application/services/ai_context_builder.go:254-281 | A deadline is used up iff the loop's own path reaches that load undecided |
| CheckpointDelta.BuildEvidence | internal/application/services/ai_context_builder.go:284-318 | The evidence is the stable time sort of exactly the messages whose visibility is not private, whose text is not blank and which are not the current source, with their trimmed texts |
| CheckpointDelta.StableSortSorts | internal/application/services/ai_context_builder.go:310-316 | The sort orders by time and keeps the order of simultaneous messages |
| CheckpointDelta.DeltaEvidence | internal/application/services/ai_context_builder.go:249-318 | On a delta the sort changes nothing: the evidence is the order-preserving subsequence |
| CatalogAttributes.IndexDefinitions | internal/application/catalogvalidation/attributes.go:87-110 | The definitions are indexed iff each is valid and no key repeats |
| CatalogAttributes.ValidateAttributes | internal/application/catalogvalidation/attributes.go:76-152 | Accepts iff the schema is valid, required keys are supplied (in the full form) and every entry fits its definition or is an admissible free-form name |
| CatalogAttributes.AcceptanceLaw | internal/application/catalogvalidation/attributes.go:76-152 | From the fields: accepted iff every definition names a key and has rules that decode and suit its type, no key is defined twice, required attributes are not null, blank or empty lists, defined ones fit their rules, and the others have names of 1 to 120 characters without control characters outside the reserved space |
| CatalogAttributes.ValidationDecomposes | internal/application/catalogvalidation/attributes.go:87-152 | Validation decomposes key by key plus the required-key condition |
| CatalogAttributes.PreflightSchemaAttributes | internal/application/merchantcatalogai/schema_preflight.go:32-91 | With a schema the preflight accepts exactly what the validator accepts, and blames a key only if that key is at fault |
| CatalogAttributes.PreflightAgreement | internal/application/merchantcatalogai/schema_preflight.go:32-35 | Preflight and validator agree iff there is a schema or every name is admissible |
| CatalogAttributes.NoSchemaReservedKey | internal/application/catalogvalidation/attributes.go:119-136 | A reserved name without a schema is where they differ |
| CatalogAttributes.SoundLibraryExists | internal/application/catalogvalidation/attributes.go:154-166 | The assumptions on rule encoding and script can be met, with empty and with non-empty rules |
| AttributeDefinitions.ValidateDefinitions | internal/application/merchantcatalogai/attribute_definition_validation.go:17-52 | Accepts iff at most 100 definitions, all valid, no alias twice |
| AttributeDefinitions.ValidateValues | internal/application/merchantcatalogai/attribute_definition_validation.go:54-79 | Accepts iff every value given under a proposed alias is null or fits the proposed definition |
| AttributeDefinitions.ValidateProposal | internal/application/merchantcatalogai/attribute_definition_validation.go:17-115 | Accepts iff the definitions are valid, the attribute names well formed, the values under aliases fitting, and every definition used by the item or a variant |
| AttributeDefinitions.PreflightBindings | internal/application/merchantcatalogai/attribute_definition_preflight.go:27-107 | Binds iff no definition is objected to and the template name fits; the bindings are the stored keys reused, by key first and by label second; a rejection names the first objection |
| DefinitionLaws.PreflightLaw | internal/application/merchantcatalogai/attribute_definition_preflight.go:27-107 | The preflight binds iff every spec has a fresh well-formed alias and label and admissible rules, agrees with the last stored definition it meets by key or else by trimmed label, in type and label and, unless it brings no rules, in the text that the stored rules decode and encode to, and the template name fits if one is new |
| DefinitionLaws.ApprovalLaw | internal/application/merchantcatalogai/attribute_schema_materialization.go:54-181 | The same for approval, where a stored label must be equal untrimmed, a label introduced by an earlier spec counts as a definition without rules, and a new version needs its name, number and record |
| DefinitionLaws.BindingLaw | internal/application/merchantcatalogai/attribute_definition_preflight.go:60-95 | An alias is bound to the key of the definition its spec meets, and to none if it meets none |
| DefinitionLaws.RulesConflictRefused | internal/application/merchantcatalogai/attribute_schema_materialization.go:205-231 | A stored maximum of 10 against a proposed one of 100 is refused in preflight and at approval |
| DefinitionLaws.PatternIs | internal/application/merchantcatalogai/proposal_validation.go:10-10 | The key pattern accepts exactly what the automaton of the regular expression accepts |
| AttributeDefinitions.IndexSchema | internal/application/merchantcatalogai/attribute_schema_materialization.go:37-51 | The maps by key and by trimmed label hold the last definition of each |
| AttributeDefinitions.DrawKey | internal/application/merchantcatalogai/attribute_schema_materialization.go:109-119 | The retry loop ends with a reserved key not in use |
| AttributeDefinitions.ResolveOne | internal/application/merchantcatalogai/attribute_schema_materialization.go:54-129 | One definition is resolved iff it is approvable given those before it, and the maps stay coherent |
| AttributeDefinitions.ResolveDefinitions | internal/application/merchantcatalogai/attribute_schema_materialization.go:21-181 | Succeeds iff the definitions are approvable; each alias goes to the stored key it reuses, the key of an earlier definition with its label, or a fresh reserved key; a new version is the old definitions followed by the minted ones |
| Approval.PreflightImpliesApproval | internal/application/merchantcatalogai/attribute_schema_materialization.go:54-181 | After a passed validation and preflight, approval succeeds iff the stored labels hit by key are trimmed and a new version is admissible |
| Approval.UntrimmedLabelRefused | internal/application/merchantcatalogai/attribute_schema_materialization.go:89-92 | A stored label with a blank at its end passes the preflight and is refused at approval |
| Approval.BindingsAgree | internal/application/merchantcatalogai/attribute_schema_materialization.go:89-127 | Approval binds reused aliases exactly as the preflight did, and every other alias to a reserved key the schema does not have |
| Approval.ReuseAgreement | internal/application/merchantcatalogai/attribute_schema_materialization.go:130-132 | When every definition is reused, approval renames with the preflight's map and mints nothing |
| Approval.AliasMapIdempotent | internal/application/merchantcatalogai/attribute_schema_materialization.go:89-127 | Renaming twice renames no further |
| Approval.ResolutionExtends | internal/application/merchantcatalogai/attribute_schema_materialization.go:109-128 | Minted definitions are valid, optional, and have fresh keys in the reserved space |
| Approval.ConservativeExtension | internal/application/merchantcatalogai/attribute_schema_materialization.go:37-128 | Every attribute map valid under the old schema or none stays valid under the minted version, and conversely when it uses no new key |
| UpdateApproval.UpdateAgreement | internal/application/merchantcatalogai/schema_preflight.go:167-186 | What approval stores is what the preflight validated iff no changed name is a new alias and no alias is left among the old names |
| UpdateApproval.ReusedUpdate | internal/application/merchantcatalogai/schema_preflight.go:167-186 | With reused definitions only, iff no alias is left among the old names |
| UpdateApproval.NewAliasFits | internal/application/merchantcatalogai/attribute_definition_validation.go:54-79 | A value given under a new alias, validated with the proposal, fits the definition minted for it |
| UpdateApproval.AcceptedUnderTemplate | internal/application/merchantcatalogai/execution.go:393-436 | Under a template, what approval stores is valid iff the old attributes that bear an alias fit the definitions they are moved to |
| UpdateApproval.AcceptedWithoutTemplate | internal/application/merchantcatalogai/execution.go:393-436 | Without one, iff they fit and the names that keep their place are admissible |
| UpdateDecision.PreflightItem | internal/application/merchantcatalogai/schema_preflight.go:160-186 | The item part of the preflight accepts without a template, without item attributes unless a template is attached, and otherwise iff the renamed overlay is valid |
| UpdateDecision.ApplyItem | internal/application/merchantcatalogai/execution.go:373-436 | The item part of apply accepts iff renaming does not collide and what is stored is valid; without item attributes, iff the item is not moved or an empty map is valid |
| UpdateDecision.ApplyAcceptsIff | internal/application/merchantcatalogai/execution.go:373-436 | After a passed validation and preflight: with item attributes apply accepts iff nothing collides, the old aliases fit and, without a template, the kept names are admissible; without, iff the item is not moved or its template is valid and requires nothing |
| UpdateDecision.InjectiveChanges | internal/application/merchantcatalogai/attribute_schema_materialization.go:185-201 | Changed names that do not collide in the preflight do not collide at approval |
| UpdateDecision.VariantAccepted | internal/application/merchantcatalogai/execution.go:570-597 | Variants under a template, existing and new, that passed the preflight are never refused |
| UpdateDecision.CreationAccepted | internal/application/merchantcatalogai/execution.go:292-323 | A created item under a template that passed the preflight is never refused |
| UpdateDecision.VariantWithoutTemplate | internal/application/merchantcatalogai/execution.go:570-597 | Without a template they are accepted iff the names that keep their place are admissible |
| UpdateRefusals.ReservedNameRefused | internal/application/merchantcatalogai/schema_preflight.go:164-166 | A reserved name on an item without a template passes the preflight and is refused |
| UpdateRefusals.RequiredKeyRefused | internal/application/merchantcatalogai/execution.go:410-436 | An update without item attributes whose definition only a variant uses is refused over a required key |
| UpdateRefusals.FirstTemplateRefused | internal/application/merchantcatalogai/execution.go:373-436 | An update that only attaches a first template is refused over a required key the item has |
| UpdateRefusals.NewAliasCollides | internal/application/merchantcatalogai/execution.go:414-427 | A new alias among the old names and the changes collides |
| UpdateRefusals.OldAliasRefused | internal/application/merchantcatalogai/execution.go:414-436 | A variant carries the number, the item an old text of that name: nothing collides and apply refuses |
| UpdateRefusals.UsualLibraryExists | internal/application/catalogvalidation/attributes.go:168-172 | The library assumed by these inputs exists |
| UpdateApproval.RequiredKept | internal/application/merchantcatalogai/execution.go:393-436 | Renaming and merging never lose a required attribute that the preflight saw |
| KeyRenaming.Remap | internal/application/merchantcatalogai/attribute_schema_materialization.go:185-201 | Succeeds iff the alias map is injective on the input's keys, in every iteration order, and then keeps size and values; nil stays nil |
| KeyRenaming.MergedInjective | internal/application/merchantcatalogai/execution.go:410-427 | The second renaming meets no collision iff the old names are injective and meet a change only under its final name |
| KeyRenaming.RenameMergeRename | internal/application/merchantcatalogai/execution.go:393-427 | Remap, merge, remap yields the remapped old attributes overlaid with the remapped changes |
| KeyRenaming.PatchItemAttributes | internal/application/merchantcatalogai/execution.go:393-427 | The attribute patch of an item update: success condition, overlay, and the empty map when definitions come without item attributes |
| KeyRenaming.UpdateWithoutAttributes | internal/application/merchantcatalogai/execution.go:410-427 | An update without item attributes leaves them alone iff it brings no definitions or there are none |
| ExecutionServices.LoadVersions | internal/application/merchantcatalogai/execution.go:96-147 | Paging by hundreds finds the version of every row of the item, and the attributes of every variant |
| ExecutionServices.LoadSnapshot | internal/application/merchantcatalogai/execution.go:70-181 | The snapshot holds the version of exactly the rows the proposal touches or refers to, and fails iff one is missing or belongs elsewhere |
| ExecutionServices.ApplyWrites | internal/application/merchantcatalogai/execution.go:274-626 | The writes happen in order and the first failing one fails all; which writes a proposal has and when they go through is `UpdateCommitIff`, `CreateCommitIff` and the theorems beside them |
| ExecutionServices.ExecutionService.constructor | internal/application/merchantcatalogai/execution.go:35-42 | An empty store, which satisfies the invariant |
| ExecutionServices.ExecutionService.Prepare | internal/application/merchantcatalogai/execution.go:44-68 | Stores the proposal once with its snapshot, or changes nothing; the catalog is not touched and the invariant is kept |
| ExecutionServices.ExecutionService.ExecuteApproved | internal/application/merchantcatalogai/execution.go:183-239 | The answer is the recorded result, no answer means no change, and the invariant is kept; replays answer from the record, a first execution commits everything or nothing, and a committed update leaves every change and every new row of the proposal and answers with their IDs |
| ExecutionServices.ExecutionService.OutsideEdit | internal/adapters/secondary/persistence/postgres/catalog_repository.go:537-579 | Any other edit changes no row without its version, brings back no ID and keeps the invariant |
| ExecutionProofs.RunInv | internal/application/merchantcatalogai/execution.go:44-239 | Over any sequence of reviews, executions and outside edits the proposal store and the catalog keep their invariant |
| ExecutionProofs.CommittedAtMostOnce | internal/application/merchantcatalogai/execution.go:183-239 | In every run each proposal's writes are committed at most once, exactly when a result is recorded |
| ExecutionProofs.ReplayTheorem | internal/application/merchantcatalogai/execution.go:200-203 | A recorded result survives every later operation, and executing again returns it and writes nothing |
| ExecutionProofs.FreshCommit | internal/application/merchantcatalogai/execution.go:207-223 | A first execution commits only if every reviewed row is unchanged, and changes no row that was not reviewed |
| ExecutionProofs.FreshIff | internal/application/merchantcatalogai/execution.go:207-216 | The version check passes iff every reviewed row is unchanged |
| ExecutionProofs.StaleForever | internal/application/merchantcatalogai/execution.go:207-216 | Once a reviewed row is changed or removed, executing the proposal answers nothing and changes nothing, after any further operations |
| ExecutionProofs.ApplyFromRows | internal/application/merchantcatalogai/execution.go:570-589 | Merging variants from the review-time snapshot equals merging from the current rows |
| ExecutionOutcome.PrepareIff | internal/application/merchantcatalogai/execution.go:44-68 | A proposal is stored iff the guard, its validation and the preflight let it pass, the item is in the catalog and everything it names below the item, and its ID is new |
| ExecutionOutcome.ReviewTheorem | internal/application/merchantcatalogai/execution.go:70-181 | A stored proposal has the review-time version of exactly the item, offers and variants it names, all of which were in scope |
| ExecutionOutcome.UpdateCommitIff | internal/application/merchantcatalogai/execution.go:183-239 | An update commits iff the caller may execute it, it was not executed before, every reviewed row is unchanged, each changed offer and variant is named once, each change and each new row passes its own checks on the catalog as it is, and the result is recorded |
| ExecutionResults.UpdateTheorem | internal/application/merchantcatalogai/execution.go:341-624 | A committed update: the item if it changes, every changed offer and every changed variant is the reviewed row with that change; every new variant and offer has one row of its own under the item, an offer bound to the variant it names or refers to; no other row is added or touched; the answer lists the changed IDs in order followed by the new ones |
| ExecutionResults.CreateCommitIff | internal/application/merchantcatalogai/execution.go:274-334 | A creation commits iff the caller may execute it, it was not executed before, and the item and everything added with it pass |
| ExecutionResults.CreateTheorem | internal/application/merchantcatalogai/execution.go:274-334 | A committed creation adds the item, one row per variant and offer under it, touches nothing else and answers with the new IDs in the order of the proposal |
| ExecutionResults.DeleteTheorem | internal/application/merchantcatalogai/execution.go:336-341 | A deletion commits iff the caller may execute it, it was not executed before, the item is unchanged and the repository takes the row; it archives the item and touches nothing else |
| ExecutionRuns.RunIff | internal/application/merchantcatalogai/execution.go:437-626 | A list of writes goes through iff each is the first about its row and passes on the catalog the transaction started from |
| ExecutionEffects.EffectTheorem | internal/application/merchantcatalogai/execution.go:336-592 | A committed update or deletion patches every row it names exactly once, from the row as it was, and leaves all other rows |
| ExecutionEffects.RunPatches | internal/application/merchantcatalogai/execution.go:437-589 | No later write of the transaction touches a row already patched |
| RunLifecycle.TrailLegal | internal/application/services/ai_run_lifecycle.go:108-243 | Every history of lifecycle calls is a prefix of the main path, possibly ended by FAILED, CANCELLED before RUNNING, or COMPLETED from VALIDATING on |
| RunLifecycle.TrailReachable | internal/application/services/ai_run_lifecycle.go:108-243 | Every such history does occur |
| RunLifecycle.HistoryTheorem | internal/application/services/ai_run_lifecycle.go:108-243 | At most six transitions; EXECUTING only through RUNNING, VALIDATING and AUTHORIZED; cancelled only before RUNNING; nothing follows a terminal status |
| RunLifecycle.TerminalAbsorbing | internal/application/services/ai_run_lifecycle.go:221-243 | No call changes a terminal run |
| RunLifecycle.OneTerminalStamp | internal/application/services/ai_run_lifecycle.go:166-219 | At most one terminal time field is set, that of the final status |
| RunLifecycle.StartNeedsIndex | internal/application/services/ai_run_lifecycle.go:76-105 | For a new ID a start keeps open runs unique per key iff it creates nothing or no open run has the key: the code's own lookup does not decide it |
| RunLifecycle.OneLiveTheorem | migrations/000060_ai_runs_partial_idempotency.up.sql:28-30 | Given the partial unique index at every insert, at most one run per idempotency key is open |
| RunLifecycle.AIRunLifecycle.StartRun | internal/application/services/ai_run_lifecycle.go:49-106 | Resumes the run the lookup returned iff it is open and has the key, without a change; otherwise creates a fresh one iff the keys are not blank and the repository accepts it, or changes nothing |
| RunLifecycle.AIRunLifecycle.MarkRun | internal/application/services/ai_run_lifecycle.go:224-243 | A transition happens iff its source status is allowed and the write succeeds |
| EvidenceSet.MergeHomomorphism | internal/application/ports/catalog_ai_read.go:85-166 | Merging the sets built from two bundle lists equals building from their concatenation |
| EvidenceSet.ContainsIffExposed | internal/application/ports/catalog_ai_read.go:120-144 | A selection is contained iff item, variant and offer were exposed under that one item and the offer's last binding fits the variant |
| EvidenceSet.BindingLaw | internal/application/ports/catalog_ai_read.go:85-118 | The binding of an offer is that of the last row naming it, in the last bundle of its item that has one |
| EvidenceSet.BindingExposed | internal/application/ports/catalog_ai_read.go:107-116 | A binding comes from an offer row exposed in a bundle of that very item |
| EvidenceSet.ContainsMonotone | internal/application/ports/catalog_ai_read.go:120-166 | A merge keeps a selection iff the other set does not rebind its offer to another variant |
| EvidenceSet.CatalogAIEvidenceSet.AddBundle | internal/application/ports/catalog_ai_read.go:85-118 | Adds the rows of the bundle that belong to its item |
| EvidenceSet.CatalogAIEvidenceSet.Merge | internal/application/ports/catalog_ai_read.go:146-166 | Joins item by item, the other set's offers winning |
| EvidenceSet.CatalogAIEvidenceSet.ContainsSelection | internal/application/ports/catalog_ai_read.go:120-144 | Decides containment |
| ValidationPipeline.Validate | internal/application/services/ai_validation_pipeline.go:94-340 | The first stage whose demand fails stops the chain; a decision passes iff all mandatory checks accept it and the authorization agrees |
| ValidationPipeline.FailClosed | internal/application/services/ai_validation_pipeline.go:94-340 | A decision passes iff its capability is final, its text and sales arguments are where they belong, sales evidence was sent by the customer and shown with sales switched on and a workflow is continued in the version shown, every selection is accepted by wired reference and tenant validators, and the policy, tightened at most by an authorization service, answers; it keeps its capability, is allowed only if the policy says so, and is stamped iff allowed |
| ValidationPipeline.AllowedSelectionsExposed | internal/application/services/ai_validation_pipeline.go:194-207 | A passed decision selects only what was exposed together, with an offer whose last binding fits the selected variant |
| ReplyMedia.SelectReplyMedia | internal/application/services/auto_reply_media.go:13-88 | The loops compute the images and the wording of the choice, or none if any part of it is invalid |
| ReplyMedia.SelectedTheorem | internal/application/services/auto_reply_media.go:13-88 | The images are exactly those of a usable choice, in its order and with its wording, otherwise none; at most four, no ID twice, each active, approved and from the gallery of the very item and variant selected, with a link still approved for the same medium |
| ReplyMedia.OptionsComplete | internal/application/services/auto_reply_media.go:24-56 | The options offered to the model are distinct and, below twelve, all that may be sent |
| AutoReplyProofs.FanOutTheorem | internal/application/services/auto_reply.go:633-768 | One to four messages with as many outbound rows, outbox entries and (wired) message rows, distinct keys, strictly increasing availability |
| AutoReplyProofs.SendAddsMessages | internal/application/services/auto_reply.go:664-768 | A fan-out that succeeds adds exactly these rows |
| AutoReplyProofs.ReplyTheorem | internal/application/services/auto_reply.go:177-893 | In every turn reply rows are added only if the pipeline allowed them, the transaction committed and the run went through AUTHORIZED and EXECUTING, and they carry the images approved for the decision; otherwise none are added |
| AutoReplyProofs.ImagesTheorem | internal/application/services/auto_reply.go:639-652 | Every image that goes out was chosen from the gallery of a selected item and variant and found approved again inside the transaction; there are at most four |
| AutoReplyProofs.ApprovedAre | internal/application/services/auto_reply.go:639-652 | The images that go out are, in order, the fresh links of exactly the candidates still approved for the same image |
| AutoReplyProofs.TurnTheorem | internal/application/services/auto_reply.go:177-893 | Every turn adds the rows of one consented reply or no row: one message per approved image and at least one, the first under the reply's key and the others under the photo's, with equal counts, distinct keys and three seconds apart |
| AutoReplyOutcome.TransactIff | internal/application/services/auto_reply.go:514-783 | A final decision commits iff the inner guard is open, the decision is stored and the steps of its branch succeed: sales wired, arguments, context and execution for a sales capability not denied; the conversation transition for an approval; entry into EXECUTING when allowed; conversation, text, reference, every row and the execution record for an answer |
| AutoReplyOutcome.OutcomeTheorem | internal/application/services/auto_reply.go:177-893 | From a fresh run the ports alone decide: a turn commits iff it comes to its transaction with a passed decision that is not silenced and every step succeeds, is rolled back iff it comes there and one fails, and answers the customer iff an allowed answer commits |
| AutoReplyOutcome.EarlyExits | internal/application/services/auto_reply.go:177-452 | Exactly when a turn is skipped, cancelled, fails in its context or model, is rejected, lacks a pipeline or is silenced; no passed decision is a mismatch |
| AutoReplyAccounts.StatusTheorem | internal/application/services/auto_reply.go:785-815 | From a fresh run whose lifecycle writes succeed: committed ends COMPLETED, rolled back FAILED, suppressed VALIDATING |
| AutoReplyAccounts.HealthyTurnReplies | internal/application/services/auto_reply.go:514-783 | With healthy ports an allowed customer-facing decision is answered |
| AutoReplyAccounts.AccountTheorem | internal/application/services/auto_reply.go:1228-1401 | A record is made iff the repositories are wired, an active subscription is found and the append succeeds, with a reply or without; cached plus non-cached input equals the reported input iff cached does not exceed it; a reply is charged or its error reported, whatever the pricing |
| AutoReplyAccounts.TurnCharges | internal/application/services/auto_reply.go:820-835 | Every committed turn that can be recorded appends one record, charging its reply if it has one; no other turn appends any |
| AutoReplyAccounts.EntitlementTheorem | internal/application/services/auto_reply.go:827-835 | Over any sequence of turns the replies enqueued equal the replies charged plus the enqueued turns with a usage error |
| AutoReplyAccounts.ErrorsTheorem | internal/application/services/auto_reply.go:827-835 | All usage errors balance the account iff no turn commits without a reply while its usage record is refused |
| AutoReplyAccounts.ErrorWithoutReply | internal/application/services/auto_reply.go:1387-1397 | A denied turn whose record is refused commits without a reply and returns the error, and the plain balance fails |
| AutoReplyRuns.OneOpenTheorem | migrations/000060_ai_runs_partial_idempotency.up.sql:28-30 | Given the partial unique index, no customer message has two open runs after any sequence of turns |
| AutoReplyServices.SendMessages | internal/application/services/auto_reply.go:664-768 | The loop sends the messages in order and stops at the first failure |
| AutoReplyServices.RunTransaction | internal/application/services/auto_reply.go:514-783 | A final decision commits iff every step of its branch succeeds; a commit adds no message rows, or those of an allowed reply with the approved images behind AUTHORIZED and EXECUTING; usage is untouched |
| AutoReplyServices.RecordUsage | internal/application/services/auto_reply.go:1228-1401 | A record is made whenever it can be; a reply is charged or its error reported, never both; an error without a reply is a refused record; the tokens add up iff cached does not exceed the input |
| AutoReplyServices.AutoReplyService.Handle | internal/application/services/auto_reply.go:177-893 | One turn: from a fresh run it commits, is rolled back and answers exactly as the ports decide, and it is charged iff it commits and can be recorded |

## Left out

- Wiring, HTTP, migrations, bootstrap, authentication and permission tables: plumbing without a hard property.
- Checks of single values (`validateValue`, `ValidateDefinition`, `validateAIAttributeRules`): uninterpreted predicates of `Library`; that rules an AI may propose pass `ValidateDefinition` and survive their JSON encoding is the assumption `Sound`.
- That on the wire every free name is labelled (`ValidateAttributeDefinitions` with `requireLabels`): a field-by-field check.
- Diagnostic details of preflight errors (expected types, allowed values, paths) beyond the key that is blamed; which failing key is blamed first follows Go's sorted order and is left open.
- ApplyWrites: the schema lookup, definition resolution and renaming inside `apply` are the `Stages` functions here, free to differ from call to call; what they do is proved in `AttributeDefinitions`, `Approval`, `KeyRenaming` and `UpdateApproval`. Columns other than owner, version, attributes and the variant of an offer are one opaque field, which a change replaces as a whole.
- LoadVersions: pages come from the repository's own listing; rows of other items in a page and cursors that do not advance, which the source rejects, are not modelled.
- EffectTheorem: covers updates and deletions; creations are `CreateTheorem`.
- OneLiveTheorem: each lifecycle method is one atomic step; a race between reading and patching a run is not modelled.
- Read: the permission checks and the conversation lookup before the state lookup, and the provenance record attached to each message.
- RunCall: the readers themselves and the status glossary added to evidence; a reader's rows, links and label are what the model sees of it.
- ReplyTheorem: the model's final wording when images are chosen, realtime events, the summary goroutine and the conversation-state update after the commit, none of which affect the rows.
- RecordUsage: cost and tool-call counts of the usage record.
- Handle: the business AI guard, cost protection and the catalog batch controller answer through their ports.
