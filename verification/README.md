# A model of OpticCode's edit proposals and grounded chat

OpticCode is a local assistant that answers questions about a Java workspace and proposes edits to it.
This project models the parts of it that carry promises, and proves what they promise.

- **Proposals.** An edit proposal is a series of immutable record generations in a directory
  (`Records`, `RecordFiles`). `Store` is that directory behind its lock, `StoreProtocol` the same
  directory under any interleaving of processes and crashes. `ProposalSchema` is the table of sixteen
  states; `Verification`, `Apply` and `Rollback` are the three procedures that move a proposal through
  it while they change a workspace (`Transactions`). Each says exactly which updates it attempts; what
  the store makes of a list of updates under a schedule of failures is `StoreRuns`. `Lifetime` is the life
  of a proposal from creation to rollback, and `Runtime` any sequence of calls.
- **Edit intents.** `Intent`, `IntentTargets`, `IntentCanonical`, `IntentBinding` and `PortablePath`
  validate what a user allowed; `PlanAuthority` holds a plan against it and `OutputSchema` constrains a
  model to it beforehand.
- **Document facts.** `JsonTree`, `JsonScan`, `JsonSeen`, `JsonWalk`, `JsonTables`, `JsonPreview`,
  `JsonTheorem` and `JsonHidden` are the JSON path scanner and what it finds in every document; `LineScan`
  the quote-aware line scanners and the indentation stack; `Properties`, `Toml` and `DocumentParsers` the
  readers of the four formats; `Evidence` and `DocumentFacts` build answers from what they read and check
  their citations; `Fingerprint` is the byte stream behind context and prompt fingerprints.
- **Text and events.** `Text`, `Utf8`, `TextPositions`, `SnapshotRange` and `TextCutting` convert between
  editor positions, characters and bytes and cut text; `PatchText` prints patches; `Events` numbers and
  checks event streams. JSON text follows sections 2, 4, 5 and 7 of RFC 8259, UTF-8 section 3 of RFC 3629,
  surrogate pairs section 2 of RFC 2781.

`dafny verify dfyconfig.toml` checks everything.

## How the outside world appears

Nothing outside the modelled code is assumed to behave. The clock, lock failures and failing writes of the
store come from a schedule with one entry per update; a crash is a schedule whose entries fail from some
point on. Git, the policy engine, the parser, the build and the provider are inputs of the procedures. The
executor of workspace transactions is an arbitrary function of the disk. Contracts of the procedures hold for
all of these; theorems that promise success name what must go well: a schedule on which nothing fails
(`StoreRuns.Reliable`), granted approvals, passed checks, and for `Rollback.ApplyThenRollback` an
all-or-nothing executor. `Lifetime` gives such a world for every plan, so that no hypothesis is empty. BLAKE3
and the serialisers are function parameters, of which only the shape of a digest is used. Panics are modelled
as values: `SnapshotRange`, `Properties` and `Toml` have an outcome for a slice that Rust would refuse.

## What the model found

- Publishing does not look at the limit of 4096 generations that reading enforces: a run of 4096 ordinary
  updates reaches it (`StoreProtocol.LimitIsReached`), and nothing can be read or updated afterwards
  (`StoreProtocol.LimitIsSticky`).
- Creation publishes without validating (`Records.CreatedIsValidIff` says when the result can be loaded).
- A rollback whose executor fails returns to `RollbackAvailable` without reading the files again. The state is
  then true exactly when the executor left the proposed files in place (`Rollback.RollbackEditProposal`);
  `Lifetime.MisleadingLife` is a life that ends with an untrue one. A rollback whose files or repository do not
  check out afterwards leaves `RollingBack`, which no call leaves (`Rollback.AfterUndo`, `Runtime.Perform`).
- The JSON scanner takes the keys of objects below arrays for keys of objects around them. With plain keys it
  reports exactly the keys outside arrays if and only if no object with members stands below an array
  (`JsonTheorem.FindsExactlyTheKeysIff`). Otherwise the document is refused if two of the names meet, and read
  with misplaced keys if not (`JsonTheorem.ScansWhatIsSeen`, `JsonHidden.OneRecordIff`).
- The range of a selection that ends in a multi-byte character is a panic (`SnapshotRange.RangeDefinedIff`),
  as are a properties key that ends at white space of more than one byte and a TOML table with a lone quote in
  its name; `Properties.ParseProperties` and `Toml.ParseToml` say for which documents exactly, and
  `Properties.NoBreakSpacePanics` and `Toml.LoneQuoteTablePanics` give one each.
- The line around a symbol can be found again somewhere else if the symbol holds a line feed and anything more
  (`TextCutting.RefindsIff`).
- Sends of cloned emitters can overtake the terminal event (`Events.ClonesCanOvertake`), and only if they
  overlap (`Events.ApartClonesAreAccepted`). The repository makes no use of the emitter's `Clone`.

## Model

| member | source | states |
|---|---|---|
| ProposalSchema.TerminalIffAbsorbing | crates/opticcode-edit/src/schema.rs:311-349 | the four terminal states are exactly those without a way out of the transition table |
| ProposalSchema.WaysIn | crates/opticcode-edit/src/schema.rs:311-349 | from which states each state can be reached: the same table, read by its targets |
| ProposalSchema.TerminalAbsorbs | crates/opticcode-edit/src/schema.rs:341-349 | once a history records a terminal state, every later state is that one |
| ProposalSchema.AppliedIsContiguous | crates/opticcode-edit/src/schema.rs:311-342 | `Applied` occurs in at most one uninterrupted block of any legal history |
| ProposalSchema.AppliedFollowsVerification | crates/opticcode-edit/src/schema.rs:311-342 | before any `Applied` comes a first `Verified`, and before that the worktree was prepared, applied and built, in that order |
| ProposalSchema.RolledBackFollowsApplied | crates/opticcode-edit/src/schema.rs:311-342 | nothing is `RolledBack` that was not `Applied` before |
| Records.ValidateRecord | crates/opticcode-edit/src/store.rs:479-530 | accepts exactly records with consistent identity, times and last transition, whose intent still binds their plan and whose numbered history is legal step by step |
| Records.ValidateHistory | crates/opticcode-edit/src/store.rs:517-528 | accepts exactly histories numbered from zero with every step in the table |
| Records.SuccessorsExtend | crates/opticcode-edit/src/store.rs:348-366 | a generation made by an update has the next number, the same proposal, plan, files and intent, and extends transitions and policy references |
| Records.NextTakesEffect | crates/opticcode-edit/src/store.rs:244-330 | each of the five updates, field by field: what it writes is its argument, a transition gets the next number, the time and the reason, and everything else stays |
| Records.RefusalIff | crates/opticcode-edit/src/store.rs:244-330 | an update is refused exactly for a step outside the table, for more than 512 policy references, or for a report on another proposal |
| Records.ChangesKeepValidity | crates/opticcode-edit/src/store.rs:348-366 | a permitted update of a valid record is valid again exactly when the clock is not behind the creation time; the intent checks keep passing |
| Records.FirstIsNew | crates/opticcode-edit/src/store.rs:118-178 | a created record, field by field: number 0, `Validated`, the plan's identity, files and expiry, two transitions at the time of creation, nothing reported yet |
| Records.CreatedIsValidIff | crates/opticcode-edit/src/store.rs:118-178 | what creation publishes is valid exactly when the store's hash is the plan's and the plan has not expired |
| Records.CreatedWithIntentIsValidIff | crates/opticcode-edit/src/store.rs:107-116 | the same with an intent: the earlier acceptance of the plan settles every binding check |
| RecordFiles.ParseOfName | crates/opticcode-edit/src/store.rs:412-412 | a generation's file name is read back as its number |
| RecordFiles.ParsesIff | crates/opticcode-edit/src/store.rs:558-563 | a file name is taken for a generation exactly if it is the prefix, digits that make the number, with or without a plus sign, and the suffix |
| RecordFiles.NamesDiffer | crates/opticcode-edit/src/store.rs:412-412 | different generations have different file names |
| RecordFiles.NameShape | crates/opticcode-edit/src/store.rs:412-412 | a generation's name is its number in at least ten digits between prefix and suffix |
| RecordFiles.TempIsNoRecord | crates/opticcode-edit/src/store.rs:416-421 | no temporary file is ever taken for a generation |
| RecordFiles.TempShape | crates/opticcode-edit/src/store.rs:416-421 | a temporary name is that number, the process and the counter, behind a dot |
| RecordFiles.TempNamesDiffer | crates/opticcode-edit/src/store.rs:416-421 | two attempts of a process use different temporary files |
| RecordFiles.LoadLatestValidRecord | crates/opticcode-edit/src/store.rs:437-477 | in any directory order: an accepted record with the greatest number; refused exactly above 4096 candidates or when no file is accepted |
| RecordFiles.CandidateCount | crates/opticcode-edit/src/store.rs:442-452 | a directory that holds exactly a history has as many candidates as generations |
| RecordFiles.NewestIsLast | crates/opticcode-edit/src/store.rs:453-476 | from such a directory a reader gets the last generation |
| RecordFiles.HoldsOneMore | crates/opticcode-edit/src/store.rs:406-435 | the next generation's name is free, and adding it gives the directory of the longer history |
| Store.CreatedIsReadIffValid | crates/opticcode-edit/src/store.rs:154-187 | a created proposal can be loaded exactly when the published record is valid |
| Store.AfterRename | crates/opticcode-edit/src/store.rs:416-434 | a temporary file and one rename turn a good directory into that of the next history |
| Store.WhileWriting | crates/opticcode-edit/src/store.rs:416-430 | a half-written or complete temporary file, kept or removed, leaves readers with the history as it was |
| Store.MakeNext | crates/opticcode-edit/src/store.rs:356-363 | the record an update would publish, refused exactly for an illegal change, an exhausted number or a clock behind the creation |
| Store.ProposalStore.CreateRecord | crates/opticcode-edit/src/store.rs:118-178 | succeeds exactly for a first creation under a usable name and size whose lock and write do not fail; publishes generation 0 with the plan, its files and expiry and two transitions of this time, without validating it, so the store is usable exactly when that record is valid |
| Store.ProposalStore.CreateWithIntent | crates/opticcode-edit/src/store.rs:107-116 | the same, exactly for plans accepted against the intent; then loadable exactly when the hash matches and the plan has not expired |
| Store.ProposalStore.Load | crates/opticcode-edit/src/store.rs:180-187 | the last generation, or refusal above 4096 generations |
| Store.ProposalStore.Publish | crates/opticcode-edit/src/store.rs:406-435 | adds one generation or, on any failure, none, and keeps the directory good |
| Store.ProposalStore.Update | crates/opticcode-edit/src/store.rs:348-366 | goes through exactly when the lock, the limit, the change, the clock, the size and the file system permit; the record appended then has the next number and this time, holds what the change brings where the change writes it, and is as before everywhere else |
| Store.ProposalStore.Transition | crates/opticcode-edit/src/store.rs:244-271 | on success exactly one transition more, to the requested state, with the given reason and the time of this update, and nothing else changed but number and time; only along an edge of the table, and refused as illegal exactly when lock and limit permit and the table does not |
| Store.ProposalStore.ExpireIfNeeded | crates/opticcode-edit/src/store.rs:339-346 | expires a lapsed record exactly when that update goes through and changes nothing else; an illegal transition is asked for exactly from the seven states the table cannot expire |
| StoreRuns.ReliableScript | crates/opticcode-edit/src/store.rs:348-366 | on a schedule on which nothing fails, every legal list of updates goes through in full |
| StoreProtocol.StepKeepsInv | crates/opticcode-edit/src/store.rs:348-435 | every file operation of every process, and every crash, keeps the directory, lock and acknowledgement invariant |
| StoreProtocol.FilesAreTheGenerations | crates/opticcode-edit/src/store.rs:348-435 | after any interleaving of updaters, readers and crashes the record files are exactly generations 0 to n, each valid, each extending the one before |
| StoreProtocol.AcknowledgedIsNeverLost | crates/opticcode-edit/src/store.rs:348-366 | an update that returned success is a generation, in its own file, for ever |
| StoreProtocol.ReadsAreFresh | crates/opticcode-edit/src/store.rs:437-477 | a lock-free read answers with a published generation no older than any update acknowledged before it began |
| StoreProtocol.ReadsDoNotRetry | crates/opticcode-edit/src/store.rs:453-475 | a read that has listed the directory finds its record in the first file it opens, however many updates came between |
| StoreProtocol.ReadsCanBegin | crates/opticcode-edit/src/store.rs:442-452 | up to 4096 generations a read can always begin |
| StoreProtocol.LimitIsSticky | crates/opticcode-edit/src/store.rs:450-452 | beyond 4096 generations no read and no update ever begins again, in any run |
| StoreProtocol.LimitIsReached | crates/opticcode-edit/src/store.rs:348-435 | a run from the start in which 4096 updates all succeed, at whose end there are 4097 generations and nothing can be listed, prepared or published |
| StoreProtocol.UpdatePublishes | crates/opticcode-edit/src/store.rs:348-435 | up to and including 4096 generations an undisturbed update takes seven steps and publishes the next one |
| Lifecycle.TransitionKeepsOk | crates/opticcode-edit/src/store.rs:244-271 | no legal transition but expiry of `RollbackAvailable` parts a successful apply report from the states it may stand in |
| Lifecycle.ExpireFirst | crates/opticcode-edit/src/store.rs:339-346 | expiry before a procedure: exactly when it is recorded, keeping the record invariant and the proposal |
| Transactions.VerifySnapshotsAt | crates/opticcode-edit/src/transaction.rs:145-184 | true exactly when every file has its expected content and hash; a created file's base is its absence |
| Transactions.VerifyWorktreeBaseAt | crates/opticcode-edit/src/transaction.rs:186-213 | true exactly when created paths are free and modified files equal their base up to CRLF |
| Transactions.WorktreeMutations | crates/opticcode-edit/src/transaction.rs:30-70 | one mutation per file, replacing what is actually checked out; refused exactly when the base check would be |
| Transactions.ApplicableIffBase | crates/opticcode-edit/src/transaction.rs:13-28 | the mutations of a proposal, one per file, fit the files if and only if these are its base: every replaced text is the one read there, every created path is free |
| Transactions.WorktreeApplicable | crates/opticcode-edit/src/transaction.rs:30-70 | those of a worktree fit whenever the base is checked out there, whatever its line endings |
| Transactions.NormalizeSplits | crates/opticcode-edit/src/transaction.rs:259-261 | wherever a carriage return and a line feed stand, a line feed takes their place and the text around is normalised by itself |
| Transactions.NothingToNormalize | crates/opticcode-edit/src/transaction.rs:259-261 | a text without such a pair is left as it is |
| Transactions.CaptureVerifiedDiff | crates/opticcode-edit/src/diff.rs:60-131 | a diff is captured exactly when every file holds its proposed content and Git reports one, and is then Git's |
| Apply.CheckApply | crates/opticcode-edit/src/apply.rs:51-103 | lets exactly those proposals through that are verified, unexpired and of this workspace, that have not drifted from their plan, whose files are the base, whose stored diff has its hash, and whose apply the policy wants approved |
| Apply.FinishFailedApply | crates/opticcode-edit/src/apply.rs:309-329 | attempts exactly the three updates that file a failed apply, as `Verified` or `Failed` according to whether the files are the base again |
| Apply.UndoCommit | crates/opticcode-edit/src/apply.rs:225-264 | the disk is as the executor's rollback left it, and the update filed is `Verified` exactly if that rollback succeeded with the base restored |
| Apply.AfterCommit | crates/opticcode-edit/src/apply.rs:190-289 | keeps a commit exactly if the files read back and parse, Git reports the verified diff and a build has passed, and undoes it otherwise; either way the state is true of the files |
| Apply.AfterFailure | crates/opticcode-edit/src/apply.rs:170-187 | an uncommitted transaction is filed as `Verified` exactly with the base in place, as `Failed` otherwise |
| Apply.ApplyVerifiedProposal | crates/opticcode-edit/src/apply.rs:42-290 | for any executor and any failing store write: exactly which updates are attempted and what is answered; an answer has filed a report that names the transaction and tells each stage as it went, and the policy references; a state the call wrote is true of the files, no illegal transition is asked for from `Verified`, nothing is touched when nothing was recorded, and `RollbackAvailable` means this transaction committed |
| Apply.ApplyFilesReport | crates/opticcode-edit/src/apply.rs:118-290 | an apply that answers has filed a report on its own transaction, true to what the executor, the parser, the build and the diff said, and both policy references |
| Apply.ReadyFits | crates/opticcode-edit/src/apply.rs:51-190 | when an apply passes its checks, what the executor is asked to do fits the files, one mutation per file |
| Apply.ApplySucceeds | crates/opticcode-edit/src/apply.rs:42-290 | a ready, approved proposal whose transaction commits and survives its checks ends in `RollbackAvailable` with the proposed files in place |
| Rollback.CheckRollback | crates/opticcode-edit/src/rollback.rs:25-94 | lets exactly those proposals through that were applied with success in this workspace, whose observed head, root and diff are as recorded, whose files are the proposed ones, and whose approval is required and given |
| Rollback.AfterUndo | crates/opticcode-edit/src/rollback.rs:135-160 | an error with nothing recorded exactly when a file is not its base or the observation fails; otherwise `RolledBack` or `Failed` according to the repository's state |
| Rollback.RollbackEditProposal | crates/opticcode-edit/src/rollback.rs:17-183 | exactly which updates are attempted, what is answered, and what the filed report says; a proposal the call marks `RolledBack` has its base files again; one it leaves `RollbackAvailable` is still applied if and only if the approval was not consumed or the executor's failing rollback left the proposed files |
| Rollback.RollbackFilesReport | crates/opticcode-edit/src/rollback.rs:95-183 | a rollback that answers has filed a report on its transaction, true to what the executor and the checks said, and both policy references |
| Rollback.RollbackSucceeds | crates/opticcode-edit/src/rollback.rs:17-183 | a ready rollback with consumed approval is answered with `RolledBack`, `Failed` or `RollbackAvailable` according to what the executor and the checks behind it say |
| Rollback.ApplyThenRollback | crates/opticcode-edit/src/rollback.rs:117-159 | with an all-or-nothing executor and store writes that do not fail, apply answers `RollbackAvailable`, rollback answers `RolledBack`, and every file of the workspace is as before |
| Rollback.FailedRollbackMisleads | crates/opticcode-edit/src/rollback.rs:161-178 | for every applied proposal: an executor that fails after emptying the workspace makes the call answer `RollbackAvailable` although the files are not the proposed ones |
| Verification.AuthorizeWrites | crates/opticcode-edit/src/verification.rs:118-143 | true exactly when every write was granted and every modified file passed its base check, and then with all their policy references |
| Verification.CheckInWorktree | crates/opticcode-edit/src/verification.rs:184-225 | passes exactly with proposed contents read back, a passed parse, a granted diff and statistics within the plan's limits |
| Verification.RunInWorktree | crates/opticcode-edit/src/verification.rs:110-273 | passes exactly when every stage does and its three updates go through; whatever fails, exactly the updates up to there are attempted, and exactly the stages and policy references up to there are reported |
| Verification.FinishVerification | crates/opticcode-edit/src/verification.rs:321-407 | attempts exactly the verdict, the policy references and the report; once stored, the state, the report, the diff and the appended references are those of the result |
| Verification.VerdictTells | crates/opticcode-edit/src/verification.rs:321-407 | the stored report: each stage under its own name as far as it got, the policy references in order, and success only with every stage, the cleanup and the untouched source |
| Verification.VerifyEditProposal | crates/opticcode-edit/src/verification.rs:56-318 | exactly which updates are attempted and what is answered; the filed report has every stage as far as it got and the policy references in their order; from an accepted state never an illegal transition; `Verified` is reached from `BuildRunning` alone, even from `Verified` itself; the stored diff goes with success |
| Verification.VerifiedIff | crates/opticcode-edit/src/verification.rs:110-407 | the call answers `Verified` if and only if every stage passed, the worktree was cleaned up, the source is as it was, and all six updates went through |
| Verification.VerifyAnswers | crates/opticcode-edit/src/verification.rs:110-407 | when no store write fails, every verification that passes its checks is filed, as `Verified` exactly if everything went well |
| Runtime.DiscardProposal | crates/opticcode-edit/src/store.rs:331-337 | discards exactly when that update is permitted, along an edge of the table |
| Runtime.Perform | crates/opticcode-edit/src/store.rs:57-67 | every single runtime call keeps the record invariant and the proposal; `RollingBack` is a state no such call leaves by itself |
| Runtime.RunCalls | crates/opticcode-edit/src/verification.rs:336-406 | in every record that calls with crashing store writes can reach: a diff is stored exactly with a successful verification, a successful apply report only in `RollbackAvailable`, `RollingBack`, `RolledBack` or `Failed`, and plan, files and intent are unchanged |
| Runtime.FirstRecordOk | crates/opticcode-edit/src/store.rs:154-175 | a created record satisfies that invariant |
| Lifetime.WholeLife | crates/opticcode-edit/tests/chat_edit.rs:105-154 | for every plan that can be proposed, with room for its policy references, there is a life in which it is created, verified, applied and rolled back, after which every file of the workspace is as it was; its executor refuses whatever does not fit the files it finds |
| Lifetime.MisleadingLife | crates/opticcode-edit/src/rollback.rs:161-178 | for every such plan with a file there is one that ends in `RollbackAvailable` with other files than the proposed ones |
| Lifetime.SampleIsProposable | crates/opticcode-edit/src/store.rs:118-178 | a plan that can be proposed exists, whatever the serialisers and hashes |
| PortablePath.ValidateRelativePath | crates/opticcode-edit/src/intent.rs:1260-1329 | accepts exactly the paths whose slash-separated pieces are all portable names, within bounds and outside repository metadata, and returns them unchanged |
| PortablePath.PathOkIff | crates/opticcode-edit/src/intent.rs:1260-1357 | the same on the text: a path is accepted if and only if it is short enough, has no backslash, colon or control character, every name between slashes is non-empty, at most 255 bytes, ends in neither blank nor dot and is no device name, and the first is no metadata directory in any case |
| PortablePath.IdentifierIff | crates/opticcode-edit/src/intent.rs:1247-1258 | an identifier is non-empty, of at most 160 bytes and without control characters |
| PortablePath.CanonicalIffPortable | crates/opticcode-edit/src/intent.rs:1279-1321 | rejoining `Path::components` gives a relative path back exactly when no piece is empty, a dot or otherwise unportable |
| PortablePath.JoinOfPieces | crates/opticcode-edit/src/intent.rs:1315-1321 | splitting at slashes loses nothing |
| PortablePath.ReservedIff | crates/opticcode-edit/src/intent.rs:1345-1357 | a name is reserved if and only if what stands in front of its first dot, without trailing blanks, is a device name in some spelling |
| PortablePath.ExtensionOfFile | crates/opticcode-edit/src/intent.rs:1331-1343 | a path's extension is what stands behind the last dot of its file name, in lower case |
| PortablePath.NoExtension | crates/opticcode-edit/src/intent.rs:1331-1343 | without a dot, or with a leading one alone, there is none |
| Intent.ValidateConstraints | crates/opticcode-edit/src/intent.rs:746-823 | accepts exactly constraints within both limits, with duplicate-free operations and allowed extensions, and creation enabled exactly with a creation limit |
| Intent.ValidateReferenceInventory | crates/opticcode-edit/src/intent.rs:1187-1209 | accepts exactly short, duplicate-free lists of identifiers, and returns their set |
| IntentTargets.ValidateTrustedTargets | crates/opticcode-edit/src/intent.rs:952-1020 | accepts exactly well-formed trusted entries without repeated paths, and returns their lookup tables |
| IntentTargets.ValidateTargets | crates/opticcode-edit/src/intent.rs:1022-1185 | accepts exactly inventories that satisfy the order-free conditions and whose every target the runtime trusts |
| IntentTargets.ValidateBindingTargets | crates/opticcode-edit/src/intent.rs:837-950 | accepts exactly inventories that satisfy the same order-free conditions |
| IntentBinding.ValidateEditIntent | crates/opticcode-edit/src/intent.rs:429-455 | accepts exactly intents that meet envelope, task, time, constraint and target conditions, and returns the same targets and constraints in ascending order, with the hash of that form |
| IntentBinding.ValidateBinding | crates/opticcode-edit/src/intent.rs:275-355 | accepts exactly canonical bindings that meet the stored conditions and whose hash is their payload's |
| IntentBinding.AcceptedIntentsBind | crates/opticcode-edit/src/intent.rs:251-355 | whenever an intent is accepted, the binding made of it passes its own validator |
| IntentBinding.BindingKeeps | crates/opticcode-edit/src/intent.rs:251-273 | a binding holds every part of the accepted intent in its own place, the hash of its task and its own hash |
| IntentBinding.OrderBlind | crates/opticcode-edit/src/intent.rs:429-455 | reordering targets, references, operations or extensions changes neither acceptance nor canonical form and hash |
| IntentBinding.CanonicalFormTellsApart | crates/opticcode-edit/src/intent.rs:1225-1245 | two accepted intents share a canonical form exactly when they differ in order alone |
| IntentCanonical.CanonicalizeTargets | crates/opticcode-edit/src/intent.rs:1231-1240 | sorts in place: the same targets with the same references, paths and references ascending |
| Ordering.StringLeIff | crates/opticcode-edit/src/intent.rs:1231-1245 | the order of the sort: a proper prefix comes first, and so does the smaller character where two texts first differ |
| IntentCanonical.CanonicalIdempotent | crates/opticcode-edit/src/intent.rs:1225-1245 | canonicalising twice is canonicalising once |
| IntentCanonical.CanonicalInOrder | crates/opticcode-edit/src/intent.rs:1231-1240 | canonical paths ascend, and so do each target's references |
| IntentCanonical.CanonicalIff | crates/opticcode-edit/src/intent.rs:1225-1245 | with distinct paths, canonical forms are equal exactly up to order |
| PlanAuthority.ValidatePlanAgainstAuthority | crates/opticcode-edit/src/intent.rs:493-633 | accepts exactly plans with the trusted identity, limits not raised, and every operation and snapshot fitting the target of its path |
| PlanAuthority.ValidatePlanAgainstIntent | crates/opticcode-edit/src/intent.rs:457-473 | accepts exactly with a valid binding and the authority's consent |
| PlanAuthority.ValidatePlanAgainstBinding | crates/opticcode-edit/src/intent.rs:475-490 | accepts exactly with a valid binding and the authority's consent |
| PlanAuthority.IntentAndBindingAgree | crates/opticcode-edit/src/intent.rs:457-490 | for every accepted intent, plans pass against the intent exactly when they pass against its stored binding |
| PlanAuthority.AcceptedPlansStayOnTargets | crates/opticcode-edit/src/intent.rs:536-631 | an accepted plan touches nothing but targets of the intent, each of the right kind and as the intent saw it |
| OutputSchema.EditPlanOutputSchemaForIntent | crates/opticcode-edit/src/generation.rs:258-319 | built exactly when the intent binds, matches the expectations and every target is backed; one alternative per target, the intent's limits |
| OutputSchema.OneAlternative | crates/opticcode-edit/src/generation.rs:272-316 | exactly one alternative matches an operation exactly when some target authorises it with a trusted line ending |
| OutputSchema.SchemaIffAuthority | crates/opticcode-edit/src/generation.rs:258-319 | a plan conforms to the intent's schema exactly when it passes the authority's identity and operation checks with the runtime's constants and trusted line endings; then its limits pass too |
| JsonScan.ParseJsonString | crates/opticcode-core/src/grounding.rs:1388-1404 | finds the quote that closes a string and decodes what is between |
| JsonScan.ScanJsonObject | crates/opticcode-core/src/grounding.rs:1310-1386 | the loop computes the scan that the theorems are about, errors included |
| Text.SplitOfJoin | crates/opticcode-core/src/grounding.rs:1345-1352 | splitting a dotted path at its dots gives the components back |
| Text.LineEnds | crates/opticcode-core/src/grounding.rs:1223-1226 | a line is what stands before its line feed, or before one carriage return in front of that |
| JsonTheorem.ScansWhatIsSeen | crates/opticcode-core/src/grounding.rs:1310-1419 | for every well-formed document, whatever its keys and nesting: the scan succeeds exactly when no path is seen twice, and then reports the root keys in order and exactly the seen keys with their own lines and values; otherwise it names the first path that comes again |
| JsonTheorem.FindsEveryKey | crates/opticcode-core/src/grounding.rs:1310-1419 | without keys below arrays, and with dot-free distinct keys outside, the scan finds exactly the dotted path of every key, which split at its dots is the chain of keys down to it, its own line, and every scalar's text |
| JsonTheorem.FindsExactlyTheKeysIff | crates/opticcode-core/src/grounding.rs:1310-1419 | with dot-free distinct keys outside arrays, the scan finds exactly these if and only if no object with members stands below an array |
| JsonTheorem.SeenAtTheirKeys | crates/opticcode-core/src/grounding.rs:1331-1360 | each seen key stands at the offset where that very key is printed |
| JsonHidden.OneRecordIff | crates/opticcode-core/src/grounding.rs:1310-1386 | a record in an array: accepted if and only if its key differs from the array's, and its key is then recorded as a root path; otherwise refused as a repetition of it |
| JsonHidden.MeetingNamesAreRefused | crates/opticcode-core/src/grounding.rs:1310-1386 | refused whenever two objects of one array start with the same key, or one with a key of the object around the array |
| JsonTree.EntriesAreDistinct | crates/opticcode-core/src/grounding.rs:1345-1349 | no two keys of such a tree have the same dotted path |
| JsonPreview.Preview | crates/opticcode-core/src/grounding.rs:1406-1419 | the preview of a scalar is exactly its text; of an array or object, its opening up to the first delimiter |
| JsonTables.RecordHolds | crates/opticcode-core/src/grounding.rs:1350-1379 | recording succeeds exactly when no two paths are equal, and the tables then hold exactly the recorded keys, each with its own line and value; otherwise the first repeated path is named |
| LineScan.FindUnquoted | crates/opticcode-core/src/grounding.rs:1506-1527 | the first place where the character stands plain: outside quotes and not escaped |
| LineScan.StripComment | crates/opticcode-core/src/grounding.rs:1481-1504 | cuts at the first plain marker |
| LineScan.CommentCutsWhereFound | crates/opticcode-core/src/grounding.rs:1481-1527 | the two scanners agree on every line and marker |
| LineScan.ScanIndentedAssignments | crates/opticcode-core/src/grounding.rs:1256-1302 | when a line is pushed, the stack is its chain of nearest earlier lines with smaller indent, strictly increasing; paths are the keys along the chains; refused exactly for a bad key or a repeated path; no slice panics |
| LineScan.PushedPath | crates/opticcode-core/src/grounding.rs:1276-1298 | pushing gives the chain of the new line, and its path is read off the stack |
| LineScan.AssignmentsIff | crates/opticcode-core/src/grounding.rs:1256-1302 | the assignments read are exactly those that the texts of the lines make: a key without its quotes in front of the first plain separator, a value without quotes behind it, and the indent |
| LineScan.NoLoneQuoteKey | crates/opticcode-core/src/grounding.rs:1529-1542 | a key in front of a plain separator is never a lone quote |
| LineScan.NoKeyIff | crates/opticcode-core/src/grounding.rs:1529-1542 | a key is refused exactly if nothing but at most two equal quotes is left of it |
| Properties.ParseProperties | crates/opticcode-core/src/grounding.rs:1219-1254 | read exactly when every line is blank, a comment or a pair with a new key: keys in order, each with its own line and the value its text says; otherwise the error of the first other line; a panic if and only if behind such lines stands one without `=` and `:` whose new key ends at white space of more than one byte |
| Properties.SaysPairIff | crates/opticcode-core/src/grounding.rs:1219-1242 | a line is read as this key with this value exactly if its text says so: no comment, cut at the first `=` or `:`, or else at the first white space, both parts trimmed |
| Properties.GoodIffWellWritten | crates/opticcode-core/src/grounding.rs:1219-1254 | a document is accepted exactly if it is well written: every line blank, a comment or a pair, and no key twice |
| Properties.NoBreakSpacePanics | crates/opticcode-core/src/grounding.rs:1228-1237 | the reader panics on the document that separates key and value by a no-break space |
| Toml.ParseToml | crates/opticcode-core/src/grounding.rs:1147-1217 | read exactly when every line is blank, a new table or a pair with a new path: paths, root keys, lines and values as the texts of those lines say; otherwise the error of the first other line; a panic if and only if that is a header with a lone quote |
| Toml.TomlPairIff | crates/opticcode-core/src/grounding.rs:1180-1216 | a line is read as this key with this value exactly if its text says so: cut at the first plain `=`, the key without its quotes, the value without double quotes |
| Toml.TomlTableIff | crates/opticcode-core/src/grounding.rs:1155-1179 | a line is read as the header of this table exactly if its text says so |
| Toml.TableAbove | crates/opticcode-core/src/grounding.rs:1147-1217 | a pair belongs to the last table above it |
| Toml.TomlNamesIff | crates/opticcode-core/src/grounding.rs:1147-1217 | the paths read are the pairs' dotted paths and the first parts of the tables' names, and no others |
| Toml.TomlPanicsIff | crates/opticcode-core/src/grounding.rs:1159-1170 | a line panics if and only if it is a table header with a lone quote among its components, behind good ones |
| Toml.AssignmentsDoNotPanic | crates/opticcode-core/src/grounding.rs:1180-1216 | no assignment line panics |
| Toml.LoneQuoteTablePanics | crates/opticcode-core/src/grounding.rs:1159-1170 | the reader panics on the document `["]` |
| DocumentParsers.ScanCounts | crates/opticcode-core/src/grounding.rs:1310-1386 | whatever the text, the JSON scanner's line counter stays on lines of the text |
| DocumentParsers.ParseJson | crates/opticcode-core/src/grounding.rs:1135-1145 | reads exactly objects that the scan accepts, and then what the scan found; every location is a line of the document |
| DocumentParsers.ParseYaml | crates/opticcode-core/src/grounding.rs:1114-1133 | reads exactly documents whose assignments have good keys and distinct paths, with as many dot-free paths as root keys; then exactly these paths with their lines and values |
| Evidence.ValidateEvidence | crates/opticcode-core/src/grounding.rs:477-578 | valid exactly when the envelope, the claim identifiers, and every claim's evidence, hash, range and workspace pass; otherwise exactly the errors of the checks that fail, in order |
| Evidence.CheckCitation | crates/opticcode-core/src/grounding.rs:535-573 | no error exactly for an injected path with its hash, inside an injected range, in this workspace; otherwise the error of the first of these that fails |
| Evidence.ManifestSays | crates/opticcode-core/src/grounding.rs:145-176 | a manifest has one entry for each snapshot, with its own path, hashes, range and size in bytes |
| Evidence.EntryForIff | crates/opticcode-core/src/grounding.rs:477-548 | a citation is held against the last entry of its path, and against none exactly if no entry has it |
| DocumentFacts.RangeSpansLines | crates/opticcode-core/src/chat_runtime.rs:2518-2542 | whenever the range computation is defined, it spans exactly the lines of the slice |
| DocumentFacts.InspectDocumentFacts | crates/opticcode-core/src/grounding.rs:867-975 | an answer exactly when the format is known, the question asks, the document parses, its roots are located and something is claimed; then exactly the claims that the tables give, numbered and citing injected lines with the injected hash |
| DocumentFacts.ClaimsInOrder | crates/opticcode-core/src/grounding.rs:899-953 | one claim for every root key, every presence and every value asked for, in this order |
| DocumentFacts.AnswerInOrder | crates/opticcode-core/src/grounding.rs:899-975 | the answer has one line for each claim, in the same order |
| DocumentFacts.CanonicalKeyIff | crates/opticcode-core/src/grounding.rs:1474-1479 | a key is looked up without the white space around it and then without the quotes around that |
| DocumentFacts.PropertiesClaims | crates/opticcode-core/src/grounding.rs:899-953 | a key that a line's text pairs with a value is claimed present, with that value, on that line; any other key is claimed missing |
| DocumentFacts.TomlClaims | crates/opticcode-core/src/grounding.rs:899-953 | the same for the dotted paths of a TOML document |
| DocumentFacts.YamlClaims | crates/opticcode-core/src/grounding.rs:899-953 | the same for the paths along the indentation of a YAML document |
| DocumentFacts.JsonClaims | crates/opticcode-core/src/grounding.rs:899-953 | the same for the paths the scanner sees in a JSON document, which without keys below arrays are its keys |
| DocumentFacts.FactIdsDiffer | crates/opticcode-core/src/grounding.rs:899-953 | the claim identifiers of such an answer are pairwise different |
| DocumentFacts.ManifestRepresents | crates/opticcode-core/src/grounding.rs:145-176 | a manifest's entry for a path is the last snapshot's with that path |
| DocumentFacts.FactsPass | crates/opticcode-core/src/grounding.rs:477-578 | every such answer passes the validator in every mode and scope |
| DocumentFacts.InspectAndValidate | crates/opticcode-core/src/chat_runtime.rs:1385-1420 | the route of a single snapshot: slice, inspect, build the manifest and validate; a report exactly for an answer, and without errors; no answer for several snapshots |
| DocumentFacts.FactsPassIff | crates/opticcode-core/src/grounding.rs:477-578 | against any manifest: such an answer passes if and only if the entry for its path has its hash, covers its citations and is of the manifest's workspace |
| TextPositions.PositionToByte | crates/opticcode-core/src/chat_runtime.rs:2569-2631 | accepts exactly the positions of characters and line ends not behind a line's trailing CR, with their offsets |
| TextPositions.UnitsAre | crates/opticcode-core/src/chat_runtime.rs:2569-2631 | a text has one code unit for each character and one more for each surrogate pair |
| TextPositions.AcceptedIsBoundary | crates/opticcode-core/src/chat_runtime.rs:2569-2631 | every accepted position maps to a UTF-8 character boundary |
| TextPositions.AcceptedOrder | crates/opticcode-core/src/chat_runtime.rs:2569-2631 | positions and offsets are in the same strict order, so the map is injective |
| TextPositions.BoundariesRoundTrip | crates/opticcode-core/src/chat_runtime.rs:2569-2631 | every boundary not behind a trailing CR is the offset of the position shown for it |
| SnapshotRange.RangeDefinedIff | crates/opticcode-core/src/chat_runtime.rs:2518-2542 | the range of a slice is computed exactly when the slice ends at the file start or behind a one-byte character, and then names its first and last line and its first and last byte |
| SnapshotRange.ExtractUtf16Range | crates/opticcode-core/src/chat_runtime.rs:2499-2516 | the selected text with its range; refused exactly for a position that is not accepted or an end in front of the start; undefined exactly behind a multi-byte character |
| TextCutting.EmitText | crates/opticcode-core/src/chat_runtime.rs:2466-2497 | terminates on every text, never reaches its encoding error, and its bounded non-empty chunks concatenate to the text |
| TextCutting.TruncateUtf8 | crates/opticcode-edit/src/diff.rs:309-320 | keeps the longest prefix of whole characters within the limit |
| TextCutting.TrustedLineAnchors | crates/opticcode-core/src/chat_edit_runtime.rs:1266-1281 | the anchors tile the file and concatenate to it |
| TextCutting.ValidLineAnchors | crates/opticcode-edit/src/generation.rs:563-578 | accepts exactly anchors that tile the file without gap or overlap |
| TextCutting.ExtractSymbolContext | crates/opticcode-core/src/chat_runtime.rs:2633-2649 | the line around the first occurrence of the symbol |
| TextCutting.RefindsItsOwnLine | crates/opticcode-core/src/chat_runtime.rs:1056-1069 | searching for the extracted line finds that very line, for every non-empty symbol without line feed |
| TextCutting.RefindsIff | crates/opticcode-core/src/chat_runtime.rs:1056-1069 | for every non-empty symbol: in every file its line is found again where it was if and only if the symbol has no line feed or is one |
| PatchText.CreatedFilePatch | crates/opticcode-edit/src/diff.rs:281-295 | the growing string is the patch the theorems are about |
| PatchText.PatchStarts | crates/opticcode-edit/src/diff.rs:281-295 | the patch is the header of a new file at its path, one hunk header with the line count, and the body |
| PatchText.BodyEnds | crates/opticcode-edit/src/diff.rs:288-295 | the note about a missing final line feed ends the patch exactly when it is missing |
| PatchText.PatchRoundTrip | crates/opticcode-edit/src/diff.rs:281-295 | reading the patch of a created file back gives its content exactly, final newline or not |
| PatchText.OneHunkWithItsLines | crates/opticcode-edit/src/diff.rs:281-307 | the patch has one hunk, whose header counts the added lines that follow |
| PatchText.LineCountIsLines | crates/opticcode-edit/src/diff.rs:301-307 | the line count is the number of lines, terminated or not |
| PatchText.AssemblePatch | crates/opticcode-edit/src/diff.rs:128-173 | the assembled patch is the files' patches in their order, each closed by a line feed; its hunks are the summed hunks of the files |
| Events.AcceptsIffWellNumbered | crates/opticcode-cli/src/chat.rs:247-272 | the receiver accepts exactly runs numbered without gap with nothing behind a terminal event |
| Events.Receiver.ValidateAndRender | crates/opticcode-cli/src/chat.rs:247-272 | renders an event exactly when the run so far with it is acceptable |
| Events.ChatEventEmitter.Send | crates/opticcode-core/src/chat_protocol.rs:1135-1156 | numbers bounded payloads consecutively and none after a terminal one |
| Events.SequentialRun | crates/opticcode-core/src/chat_protocol.rs:1122-1156 | non-overlapping delivered sends are rendered in full, numbered 0, 1, 2, …, a terminal event last |
| Events.ClonesStayDistinct | crates/opticcode-core/src/chat_protocol.rs:1114-1156 | under any interleaving of cloned emitters numbers stay distinct and at most one terminal event exists |
| Events.ApartClonesAreAccepted | crates/opticcode-core/src/chat_protocol.rs:1135-1156 | without overlap and loss, the receiver accepts whatever cloned emitters deliver |
| Events.ClonesCanOvertake | crates/opticcode-core/src/chat_protocol.rs:1135-1156 | with overlap, the type permits an event behind the terminal one, which the receiver refuses |
| Events.StreamProviderGeneration | crates/opticcode-core/src/assistant_runtime.rs:650-783 | succeeds exactly for streams numbered from 0 with one final terminal event, all forwarded, and a successful result; then exactly the received events were forwarded |
| Fingerprint.StreamInjective | crates/opticcode-core/src/grounding.rs:1564-1569 | the length-prefixed stream is uniquely decodable |
| Fingerprint.FieldLayout | crates/opticcode-core/src/grounding.rs:1564-1569 | a field is hashed as the length of its name in eight bytes, the name, the length of its value in eight bytes, the value |
| Fingerprint.LittleEndianAt | crates/opticcode-core/src/grounding.rs:1565-1567 | the bytes of a length are its digits to the base 256, lowest first |
| Fingerprint.ManifestStream | crates/opticcode-core/src/grounding.rs:178-201 | the loop feeds the hasher the stream of the manifest's fields |
| Fingerprint.FieldsOfManifest | crates/opticcode-core/src/grounding.rs:178-188 | the five fields about the manifest, each under its own name |
| Fingerprint.FieldsOfSnapshot | crates/opticcode-core/src/grounding.rs:190-201 | the six fields of every snapshot, each under its own name, in the order of the snapshots |
| Fingerprint.RangeTextInjective | crates/opticcode-core/src/grounding.rs:190-199 | the printed range determines all four numbers |
| Fingerprint.ManifestStreamIff | crates/opticcode-core/src/grounding.rs:178-201 | manifests share a pre-image exactly when scope, workspace, profile and every hashed field of every snapshot are equal |
| Fingerprint.FieldsOfPrompt | crates/opticcode-core/src/grounding.rs:227-246 | the nine named fields of a prompt, each under its own name, and then the open-ended ones in order |
| Fingerprint.PromptStreamIff | crates/opticcode-core/src/grounding.rs:227-246 | prompts share a pre-image exactly when all fields are equal, the open-ended ones in order |

## Left out

- Transactions.CaptureVerifiedDiff: what Git reports is an input; only the reading back of the proposed files, which every capture does first, is modelled.
- Verification.RunInWorktree: the worktree's creation and removal with their policy references, its leases and its processes are inputs, as is how the runner orders its own cleanup.
- Apply.ApplyVerifiedProposal: which policy decision is taken, and the one-shot approval itself, are inputs.
- DocumentFacts.InspectDocumentFacts: the wording of claims, the file extension test and the phrases from which a question is read are inputs or left out.
- IntentBinding.ValidateEditIntent: several source error codes of the envelope and time checks are one code here; which code is returned first is not stated.
- PlanAuthority.ValidatePlanAgainstAuthority: the five identity mismatches share one error code.
- Events.StreamProviderGeneration: the race between the provider's result and its channel is taken as the list of events received.
- Finding proposals: `latest` and `find_by_transaction_id`, which list every proposal of a workspace.
- Directory checks of the store: symbolic links, canonical paths, permissions, default locations.
- Materialising a plan into file snapshots, and the length limits on its texts; `validation.rs` is not part of this model.
- Reasons of transitions: where the source's text varies with the branch or holds an identifier, one short constant stands for it; only the texts with which applying and rolling back begin keep the transaction's identifier, and with it the bound on a reason's length.
- Descriptive fields: summaries, rationales, risks, references used, stage durations and summaries, and process reports; they are carried along by the source and never looked at by the modelled checks.
- Equal bytes: file contents are compared as texts, so files that are not UTF-8 count as different from every snapshot; read errors other than a missing file are left out.
- Machine words: sizes, line numbers and counters are unbounded here; only record numbers, time sums and length prefixes keep their width.
- Offsets: the JSON scanner and the quote scanners run over characters instead of bytes, which differs in offsets only, since they compare with ASCII characters alone.
- The XML route, the YAML and JSON libraries behind their routes, and natural-language heuristics.
- Response compliance checks, retrieval, history budgets, prompts, metrics, command-line handling and HTTP.
- Concurrent procedures on one proposal: the store serialises their writes, but the table lets a state follow itself and gives no mutual exclusion, so properties of whole procedures are stated for one call at a time.
