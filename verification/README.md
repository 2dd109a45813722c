# Agent Memory Sidecar: a verified model

The sidecar lets a coding agent keep confirmed collaboration rules in `AGENTS.md` files. A rule is
written only when the current prompt of a session approves it, and every approval is spent once.
This project models the parts of the repository that must not go wrong half way, and proves what
they promise over every input and every run.

* **Journaled file transaction** (`Protocol`, `ProtocolProofs`, `Atomicity`, `Edits`, `Coordinator`,
  `Runs`). One or
  two documents, a journal directory and the tables of the Store, changed one durable effect at a
  time. A crash is the absence of the next effect, so it may fall anywhere, also inside `recover`.
  Recovery completes to all after states or all before states, never a mix, even when pruning has
  deleted the row or the prompt it would look at. A person may edit any document between any two
  effects, and between a check and the effect that relies on it; what becomes of each edit is proved
  exactly. The coordinator is a class whose methods take one effect after another under a script that
  says of each effect whether it proceeds, raises before or after taking effect, or is the last thing
  the process does. Every run of the class is a run of the protocol.
* **Approval ledger** (`Ledger`, `RuntimeLedger`, `Cutover`). Capture, proposals, settlement and
  pruning as functions on tables, proved over all runs; the imperative store refines them. The
  migration of a legacy Store cannot bring a spent approval back to life.
* **Managed block** (`Strings`, `Instructions`, `DocumentReader`, `Reading`, `RoundTrip`,
  `Replacement`, `Planner`, `Bundles`, `Plans`, `Documents`). Printing, parsing and replacing one delimited region of a
  document. The planner parses again what it is about to write; the project proves exactly when
  that check passes.
* **Compensating transactions** (`InstructionSync`, `SourceCutover`), with every effect allowed to
  fail.
* **Graph checks** (`Graphs`, `Selection`, `Hierarchy`), **lock order** (`Locks`) and the
  **hook document** (`Hooks`).

`Prelude` holds shared datatypes and `Faults` what may happen to a durable effect.

## How the source is represented

* Documents are sequences of code points standing for valid UTF-8; sizes are counted in UTF-8 bytes.
  SHA-256 is a symbolic injective function. Rule ids and text normalisation are functions of the
  format record, of which only shape and idempotence are used.
* Times are integers; database tables are maps with the keys, cascades and set-null rules of the DDL,
  and a transaction either happens or raises.
* Ids drawn at random are arguments; a clash is an operation that changes nothing.
* Executors of the file transaction run one after another. In the protocol crashes, recoveries, edits
  by hand and other ledger transactions fall between any two effects. The look at the targets before
  the directory is made, and the look at a target before it is restored, are steps of their own, so
  edits fall between look and effect as well. The coordinator class meets edits and other
  transactions between its calls. The locks are a system of their own.
* The history of the documents lists committed transactions and edits. An edit that came after the
  look at the targets and before the directory is set aside when the journal begins, by an entry of
  its own, and listed again when the journal goes, unless the document was written in between.
* A journal keeps its targets to itself: `begin` is enabled only on paths no outstanding journal
  owns. For executors one after another the `recover` at the start of every `apply` establishes that.
  For two at once it does not, because `recover` comes before the locks are taken.

## Where the code falls short of its rule

Each line names the exact condition and an input outside it.

* A document without CRLF that ends in a lone CR cannot receive its first rule: the LF put before the
  block makes a CRLF, and the planner refuses its own result. Condition: `Replacement.PlanSucceedsExactly`;
  every such document: `Plans.LoneCrRefused`; one where nothing else stands in the way:
  `Documents.FirstRuleRefused`.
* Adding a rule and revoking it restores the document exactly when the document had no block or had
  it in the planner's own form (`Plans.AddThenRevoke`). A hand-written block without rules is lost
  (`Documents.RevokeDoesNotRestore`).
* A bundle that is accepted leaves what its items leave one by one exactly when no item supersedes an
  id that an earlier item made (`Bundles.BundleIsOneByOne`). An exchange of two rules has no such
  order (`Bundles.ExchangeNeedsBundle`).
* A project whose target is one of the two global documents breaks parity, unless it changes nothing
  there (`Atomicity.ProjectKeepsParityExactly`; a run: `Runs.ProjectBreaksParity`).
* Two executors can have journals on one target: the first recovers, the second writes its journal and
  crashes, the first commits. The next recovery goes on exactly when the second's prompt survives and
  what was committed is one of the two states of the second's journal; the committed change is then
  lost exactly when both made the same change (`Runs.SharedTargetLosesACommit`; a concrete run:
  `Runs.LostCommitHappens`). A committed document in a third state stays, and recovery, which every
  transaction begins with, is refused until somebody edits that document to one of the two states
  (`Runs.RefusedForGood`).
* An edit by hand to a document under a journal, or one that falls between the look at the targets and
  the directory, is lost exactly when the journal's owner or a recovery writes that target after it
  and the journal settles to something else (`Edits.EditLostExactly`). A run that loses an edit nobody
  saw: `Runs.UnseenEditIsLost`.
* The fingerprint of the hooks is fixed exactly when no event value that is not a list holds a sidecar
  command (`Hooks.FingerprintFixed`). Rewriting is idempotent exactly when no such value would be
  filtered as an entry, that is, when it holds neither a sidecar command nor an empty command list
  (`Hooks.RewriteTwice`). Inputs: `Hooks.LooseCommandEscapes`, `Hooks.LooseEmptyGroupIsLost`.
* A source cutover that fails after its receipt is reported as a post-commit failure when no stage
  directory of an earlier run is left, and when no removal of one fails (`SourceCutover.Workstation.Apply`).
  For every stage directory left behind there is a sweep that hides the commit
  (`SourceCutover.StaleStageHidesTheCommit`).

## Model

| member | source | states |
|---|---|---|
| ProtocolProofs.PlayInv | src/agent_memory_sidecar/rule_service.py:180-298 | over every run of journal, file, database and edit steps, with edits of any document between any two effects and between a look and the effect that relies on it, a recorded consumption means every target not edited meanwhile already holds its after state, and its row outlives everything but its own prompt |
| Atomicity.StepRefinesAtomicMachine | src/agent_memory_sidecar/rule_service.py:382-444 | every single effect of apply or recover, on edited targets too, leaves what the documents mean unchanged, except the one database commit, which changes all targets at once; an edit of a free document counts at once, a journal that begins sets aside exactly the edits its owner has not seen, and a journal that goes lists exactly the edits then standing under it |
| Atomicity.QuietFilesAreReplay | src/agent_memory_sidecar/rule_service.py:180-298 | whenever no journal is outstanding, the documents are exactly those of committed transactions and edits replayed in order, with the edits that were set aside left out |
| Atomicity.OnlyEditsGoStale | src/agent_memory_sidecar/rule_service.py:399-401 | over any run without an edit of a document after the look at it, a journal that begins finds it as it was seen and sets nothing aside there |
| Edits.EditStaysExactly | src/agent_memory_sidecar/rule_service.py:256-278 | while a journal stands, an edit of one of its targets stays byte for byte if and only if neither its owner nor a recovery writes that target |
| Edits.EditLostExactly | src/agent_memory_sidecar/rule_service.py:396-433 | when the journal goes, document and history show the edit if the target was not written after it and the settled state otherwise; it is lost if and only if it was written over and that state differs |
| Runs.UnseenEditIsLost | src/agent_memory_sidecar/rule_service.py:399-433 | from any quiet world, an edit between the look and the directory, followed by a rollback, ends quiet with the old document and the edit set aside |
| Atomicity.TargetsNeverTorn | src/agent_memory_sidecar/rule_service.py:396-431 | at every instant a target nobody else edited is whole: after if committed, before or after if not |
| Atomicity.EvidenceIsSound | src/agent_memory_sidecar/rule_service.py:230-248 | with pruning anywhere, recovery never takes a committed transaction for rolled back or the reverse, and can always decide while the prompt survives |
| Atomicity.QuietParity | src/agent_memory_sidecar/rule_service.py:903-970 | from parity, every run of global and project transactions, crashes and recoveries ends, with no journal left, in equal documents and both digests theirs |
| Atomicity.ProjectKeepsParityExactly | src/agent_memory_sidecar/rule_service.py:774-802 | a one-file transaction keeps parity if and only if it leaves the bytes of both global documents alone |
| Runs.ProjectBreaksParity | src/agent_memory_sidecar/rule_service.py:774-802 | from a world in parity, a legal run of one project transaction on the global target ends quiet and without parity |
| Runs.SharedTargetLosesACommit | src/agent_memory_sidecar/rule_service.py:389-394 | one executor writes its journal, and perhaps its document, and crashes after another has recovered; the other commits any change of that document. Recovery goes on if and only if the first prompt survives and the committed state is one of the journal's two; the commit is then lost if and only if both changes are the same one |
| Runs.RefusedForGood | src/agent_memory_sidecar/rule_service.py:261-269 | a target of an uncommitted journal in a third state keeps recovery refused over every run until that very document is edited, and exactly an edit to one of the two known states ends it |
| Runs.LostCommitHappens | src/agent_memory_sidecar/rule_service.py:389-394 | the same as a concrete run from an initial world |
| Coordinator.FileTransactionCoordinator.Recover | src/agent_memory_sidecar/rule_service.py:180-298 | a completed recovery leaves no journal and every target in its settled state; a failed one has overwritten only targets found before or after; without faults it completes when every journal is readable and provable |
| Coordinator.FileTransactionCoordinator.RecoverOne | src/agent_memory_sidecar/rule_service.py:193-279 | one journal: refused unread or unproven, otherwise all its targets settled and the journal retired |
| Coordinator.FileTransactionCoordinator.RestoreTargets | src/agent_memory_sidecar/rule_service.py:249-278 | drift is found file by file: files before the drifted one may be restored, the drifted one never is |
| Coordinator.FileTransactionCoordinator.SweepRetired | src/agent_memory_sidecar/rule_service.py:193-196 | retired directories are deleted and nothing else changes |
| Coordinator.FileTransactionCoordinator.Apply | src/agent_memory_sidecar/rule_service.py:382-444 | it reports a commit exactly when its own consumption was recorded. Completed means every document holds its planned bytes, an emptied one included, only a file that was absent and stays empty not being made; all other documents are as before, and so are all documents when nothing was committed. Without faults and journals, on documents that are what the plans saw, it completes exactly when the settlement is accepted. When at most one effect fails, wherever it does, and the settlement is acceptable, all documents are the old ones or all are as planned at return already, the report says which, and nothing but a directory without a manifest can be left of an attempt that failed |
| Coordinator.FileTransactionCoordinator.OtherTransaction | src/agent_memory_sidecar/runtime_ledger.py:49-134 | captures with their pruning, proposals and discards between calls keep the journal protocol intact |
| Coordinator.FileTransactionCoordinator.EditByHand | src/agent_memory_sidecar/rule_service.py:261-269 | an edit of any document between calls, under a journal or not, keeps the journal protocol intact |
| Coordinator.FileTransactionCoordinator.AssertUnchanged | src/agent_memory_sidecar/rule_service.py:446-454 | it passes only on documents still in their planned before state |
| Coordinator.FileTransactionCoordinator.WriteAndCommit | src/agent_memory_sidecar/rule_service.py:402-418 | done means every target after and exactly one transaction recorded; not done means no transaction recorded |
| Coordinator.FileTransactionCoordinator.CommitDatabase | src/agent_memory_sidecar/rule_service.py:640-657 | consumption, pending token and binding change in one step or not at all |
| Coordinator.FileTransactionCoordinator.Rollback | src/agent_memory_sidecar/rule_service.py:423-433 | done means every target is back in its before state; without faults the journal is gone as well |
| Coordinator.FileTransactionCoordinator.WriteJournal | src/agent_memory_sidecar/rule_service.py:456-505 | done means one readable journal in state prepared; a failure changes no document, and a single one leaves no journal unless the directory itself was made and then failed |
| Coordinator.FileTransactionCoordinator.Discard | src/agent_memory_sidecar/rule_service.py:300-324 | a journal leaves by one rename; what remains holds no evidence and is only deleted |
| Ledger.ConsumedAtMostOnce | src/agent_memory_sidecar/authorization.py:49-104 | over every run of any executors, with pruning deleting rows, no prompt is consumed twice |
| Ledger.ConsumedOnlyWhenCurrent | src/agent_memory_sidecar/authorization.py:49-104 | each consumption was made while its prompt was unspent, current in its session, in scope and at most seven days old |
| Ledger.RowsAreHistory | src/agent_memory_sidecar/authorization.py:49-104 | over every run, each consumption row is one the run recorded or one that was there before |
| Ledger.StoreConsistent | src/agent_memory_sidecar/runtime_ledger.py:74-126 | in a Store that began empty every session points to an event of its own session and scope stamped at its last-seen time, and has at most one token, whose event exists |
| Ledger.CaptureExactly | src/agent_memory_sidecar/runtime_ledger.py:49-134 | a prompt is refused exactly for a session of another scope or a known id; otherwise it becomes the newest prompt of its session, and only a due pruning changes anything else |
| Ledger.PruneRemovesExactly | src/agent_memory_sidecar/runtime_ledger.py:332-368 | when the last pruning is an hour ago, exactly expired tokens, events older than seven days no remaining token cites, and consumptions of removed events go; all other rows stay as they are |
| Ledger.PruneKeepsSessions | src/agent_memory_sidecar/runtime_ledger.py:332-368 | sessions seen in the last seven days are kept as they are, and forget a prompt exactly when it is gone |
| Ledger.TokenStays | src/agent_memory_sidecar/runtime_ledger.py:332-368 | a token that has not expired stays, unchanged, through any number of captures with their prunings |
| Ledger.ProposeExactly | src/agent_memory_sidecar/runtime_ledger.py:199-267 | a proposal is refused exactly while its session has one that is not to be replaced, or its event or id is no good; made, it is the one token of its session, created now and good for 24 hours, and tokens of other sessions stay |
| Ledger.SettleEffect | src/agent_memory_sidecar/rule_service.py:640-657 | an accepted settlement adds exactly one consumption row, for an eligible and unspent prompt, and rebinds only a global one |
| Ledger.SettleExactly | src/agent_memory_sidecar/authorization.py:49-104 | a settlement is accepted exactly when its token is there, its prompt is the current, young, unspent one of its session in scope, its transaction has no row and a binding exists to be replaced; exactly that token goes |
| Ledger.DeadForever | src/agent_memory_sidecar/runtime_ledger.py:158-197 | a prompt that is absent, spent or current nowhere can never be validated or spent again in any later run |
| Ledger.RefDigestInjective | src/agent_memory_sidecar/authorization.py:32-33 | distinct prompts have distinct consumption keys |
| RuntimeLedger.Store.CapturePrompt | src/agent_memory_sidecar/runtime_ledger.py:49-134 | the statements of a capture have the effect of the capture function, and the captured prompt is then approvable |
| RuntimeLedger.Store.PruneTables | src/agent_memory_sidecar/runtime_ledger.py:332-368 | the delete statements with their cascades have the effect of the pruning function |
| RuntimeLedger.Store.ResolveApprovalEvent | src/agent_memory_sidecar/runtime_ledger.py:158-197 | a prompt resolves if and only if some session names it as current and it is young enough and of the scope; only a wrong scope is reported as such |
| RuntimeLedger.Store.CreateProposal | src/agent_memory_sidecar/runtime_ledger.py:199-267 | replacing a session's token is one transaction; the token made names its event, session, scope and proposal, is created now and expires 24 hours later; a pending token that is not to be replaced is kept, and no other session loses or changes its token |
| RuntimeLedger.ProposalLivesADay | src/agent_memory_sidecar/runtime_ledger.py:199-308 | a proposal just made is found, by any current prompt of its session and scope, at exactly the times before 24 hours have passed |
| RuntimeLedger.Store.PendingForApproval | src/agent_memory_sidecar/runtime_ledger.py:269-308 | the token returned is the only unexpired one of the current prompt's session and scope that was made for the given proposal, and an error means there is none |
| RuntimeLedger.Store.ValidateApproval | src/agent_memory_sidecar/authorization.py:25-48 | an approval is handed out exactly for an unspent current prompt of the scope |
| RuntimeLedger.Store.ConsumeApproval | src/agent_memory_sidecar/authorization.py:49-104 | in a well-formed Store it succeeds if and only if the prompt is unspent and eligible and its transaction has no row; exactly one row is added and none is lost |
| RuntimeLedger.Store.SettleRequest | src/agent_memory_sidecar/rule_service.py:640-657 | token, consumption and binding change together or the tables stay as they were |
| RuntimeLedger.Store.DiscardProposal | src/agent_memory_sidecar/rule_service.py:756-772 | a discard goes through exactly for an unspent current prompt whose session has an unexpired token of the scope; it spends that prompt as a discard and deletes exactly that token |
| RuntimeLedger.ValidateAgreesWithConsume | src/agent_memory_sidecar/authorization.py:25-48 | in a consistent Store an approval is handed out if and only if consuming it at once would succeed |
| Cutover.CopyEvents | src/agent_memory_sidecar/core_cutover.py:426-495 | exactly the recent prompt events that carry a digest are copied |
| Cutover.ConsumptionCutoff | src/agent_memory_sidecar/core_cutover.py:498-511 | the result is the latest time of a consumption no known prompt explains |
| Cutover.CopySessions | src/agent_memory_sidecar/core_cutover.py:514-560 | recent sessions are copied, and keep their pointer only to a copied prompt newer than every unexplained consumption |
| Cutover.CopyApprovals | src/agent_memory_sidecar/core_cutover.py:563-617 | a copied prompt has a consumption row exactly when the legacy state holds its key, and the row says what the state said and when |
| Cutover.Migrate | src/agent_memory_sidecar/core_cutover.py:334-399 | the new Store is exactly what the legacy rows call for, consumption rows and payment included, and the migration fails exactly when the paying approval is spent or was not copied |
| Cutover.SpentNeverRevives | src/agent_memory_sidecar/core_cutover.py:498-617 | after the migration and any later run, no prompt that was spent, or may have been, can be validated or spent |
| Cutover.MigrationKeepsTheRest | src/agent_memory_sidecar/core_cutover.py:514-617 | a legacy prompt can approve right after the migration if and only if it was copied, current, unspent, newer than the unexplained and not the payment |
| Cutover.ValidateLegacyApproval | src/agent_memory_sidecar/core_cutover.py:686-753 | it accepts exactly a current, recent, unspent prompt of the scope |
| Strings.CountMeans | src/agent_memory_sidecar/instructions.py:898-908 | for a delimiter, count zero means nowhere, count one means in one place, and index finds that place |
| Strings.SplitUnlines | src/agent_memory_sidecar/instructions.py:926-931 | splitting text written line by line, in LF or CRLF, gives the lines back |
| Strings.SplitJoins | src/agent_memory_sidecar/instructions.py:926-931 | the lines of a split text hold no newline and make it up again |
| Strings.UnixExactly | src/agent_memory_sidecar/instructions.py:926-931 | text without CRLF, lone CRs included, is left alone, and the first CRLF of any other text becomes LF |
| Strings.StripExactly | src/agent_memory_sidecar/instructions.py:849-855 | stripping drops all blanks at both ends and nothing else |
| Strings.LexMeans | src/agent_memory_sidecar/instructions.py:465-465 | one text comes first where the two first differ, or as a proper beginning of the other |
| Strings.SizeIsBytes | src/agent_memory_sidecar/instructions.py:704-726 | the size counted against both budgets is the number of bytes of the text in UTF-8 (section 3 of RFC 3629) |
| DocumentReader.ReadDocument | src/agent_memory_sidecar/instructions.py:884-995 | the loops that pop lines from both ends compute the parse function |
| DocumentReader.ReadRules | src/agent_memory_sidecar/instructions.py:942-977 | the rule loop computes the rule parser, with its errors |
| Reading.RulesReadExactly | src/agent_memory_sidecar/instructions.py:942-977 | the rule loop reads given rules if and only if the lines are, in order, four-line groups that spell them out under the ids of their contents, within 1024 bytes each, and otherwise blank |
| Reading.BlockReadExactly | src/agent_memory_sidecar/instructions.py:926-984 | what stands between the delimiters is read as given rules if and only if it is the heading, such groups, and blank lines, with no id twice |
| Reading.DocumentReadExactly | src/agent_memory_sidecar/instructions.py:884-995 | a document is read if and only if it has no delimiter, or each in one place and in order with such a block between; region, newline and outside text are fixed by it, and misplaced delimiters give the block error |
| RoundTrip.ParseBlockGood | src/agent_memory_sidecar/instructions.py:729-757 | what is printed between the delimiters parses back to the same rules, or to the duplicate error when ids repeat |
| RoundTrip.InnerClear | src/agent_memory_sidecar/instructions.py:729-757 | printed rules contain a delimiter if and only if one of their texts does |
| RoundTrip.ParseAround | src/agent_memory_sidecar/instructions.py:884-995 | a printed block inside any delimiter-free text is found with exactly its rules, region and outside text |
| RoundTrip.MentionBreaks | src/agent_memory_sidecar/instructions.py:903-908 | a rule mentioning a delimiter makes the written document unparseable |
| Replacement.PlanSucceedsExactly | src/agent_memory_sidecar/instructions.py:602-649 | for every parseable document and all normalised rules the planner succeeds if and only if both byte budgets hold, ids are distinct, no rule mentions a delimiter, nothing is appended to a lone CR, and a removal leaves no delimiter behind |
| Replacement.PlanWrites | src/agent_memory_sidecar/instructions.py:667-701 | what is written keeps every byte before and after the region |
| Replacement.NewlineKept | src/agent_memory_sidecar/instructions.py:667-701 | replacing a block keeps the newline inferred for the document |
| Plans.ParseMakesGood | src/agent_memory_sidecar/instructions.py:942-984 | whatever stands in a file, the rules read from it are normalised, within the rule budget and distinct |
| Plans.AddThenRevoke | src/agent_memory_sidecar/instructions.py:385-425 | adding one rule and revoking it restores the document byte for byte if and only if it had no block or a block in canonical form |
| Plans.RevokeExactly | src/agent_memory_sidecar/instructions.py:385-425 | an id is not found exactly when no rule has it; otherwise that one rule goes, the others keep their order and the outside text stays, and it works exactly when the rest fits 1024 and 8192 bytes, mentions no delimiter, and a removal gives birth to none |
| Plans.DeployExactly | src/agent_memory_sidecar/instructions.py:998-1043 | a rule already there changes nothing, a new one goes last, a revision takes the place of the first rule it supersedes while the survivors keep their order, and it is refused exactly for an unknown superseded id or an id that stands elsewhere |
| Plans.DeployLeaves | src/agent_memory_sidecar/instructions.py:443-456 | a deployment is planned exactly when the rules it leaves fit, mention no delimiter and can be put in; the document written then holds exactly those rules and the same outside text |
| Plans.BundleOfOne | src/agent_memory_sidecar/instructions.py:443-575 | an accepted bundle of one item, addition or replacement, writes the same document as the scalar planner |
| Plans.LoneCrRefused | src/agent_memory_sidecar/instructions.py:693-697 | every document without a block and CRLF that ends in a lone CR refuses every first rule |
| Documents.RevokeDoesNotRestore | src/agent_memory_sidecar/instructions.py:385-425 | in every good format, adding any sound rule to a hand-written block without rules and revoking it succeeds and gives another document |
| Documents.FirstRuleRefused | src/agent_memory_sidecar/instructions.py:693-697 | in every good format, every sound, small and clear rule is refused by one and the same document ending in a lone CR and accepted without the CR |
| Documents.PlainRuleIsSound | src/agent_memory_sidecar/instructions.py:23-28 | such rules exist in the delimiters in use, whatever the ids |
| Documents.PrintedBlock | src/agent_memory_sidecar/instructions.py:704-757 | a document with one rule holds delimiter, heading, empty line, the four lines of the rule and delimiter, each in the newline given |
| Plans.SidecarFormat | src/agent_memory_sidecar/instructions.py:23-28 | the delimiters in use cannot overlap themselves or each other, and the format in use meets the hypotheses of all results above |
| Planner.NormalizesExactly | src/agent_memory_sidecar/instructions.py:851-871 | superseded ids are read if and only if all are well formed and distinct once trimmed, and nothing but their order is lost |
| Planner.PlanBundle | src/agent_memory_sidecar/instructions.py:459-575 | the loops over cards, raw items and survivors compute the bundle function, the first error in card order included, whether it is in reading an item or in what the item asks |
| Bundles.RequestsAcceptedExactly | src/agent_memory_sidecar/instructions.py:459-567 | a bundle as given is accepted if and only if every item can be read and the items read are acceptable, and is then the bundle of the items read |
| Bundles.BundleAcceptsExactly | src/agent_memory_sidecar/instructions.py:477-567 | a bundle is accepted if and only if its items fit the document and each other; the final duplicate check never fires |
| Bundles.BundlePlaces | src/agent_memory_sidecar/instructions.py:519-560 | an accepted bundle leaves exactly the survivors and the new rules, each once: survivors in their order, a revision in the place of the first rule it supersedes, additions last by id |
| Bundles.ComplaintIsFirst | src/agent_memory_sidecar/instructions.py:477-512 | the error of a refused bundle is that of the first item in card order that is wrong, told by earlier items and the document |
| Bundles.BundleOrderFree | src/agent_memory_sidecar/instructions.py:465-567 | every ordering of the same items is accepted alike and leaves the same rules |
| Bundles.BundleIsOneByOne | src/agent_memory_sidecar/instructions.py:998-1043 | an accepted bundle leaves what deploying one by one leaves, replacements in any order and then additions by id, if and only if no item supersedes an id made earlier; otherwise one by one is refused as a duplicate |
| Bundles.ExchangeNeedsBundle | src/agent_memory_sidecar/instructions.py:1020-1025 | exchanging two rules succeeds as a bundle and fails one by one in either order |
| InstructionSync.Device.Apply | src/agent_memory_sidecar/instruction_sync.py:254-337 | every run ends with all hosts and bindings updated, or all restored, or the recovery record kept with the exact bytes; bytes of another program that are neither old nor new survive all of them; undisturbed it applies, and when at most one effect fails and nobody else writes, no recovery is left to do |
| InstructionSync.Device.Rollback | src/agent_memory_sidecar/instruction_sync.py:303-332 | a rollback without errors restores every host, Store and the configuration and removes the record; with errors it keeps the record. Undisturbed, the hosts in error are exactly those that hold neither the old nor the new document |
| InstructionSync.Device.RollbackHost | src/agent_memory_sidecar/instruction_sync.py:305-319 | a host is restored only from old or new bytes, otherwise it is left and counted as an error |
| InstructionSync.Device.Synchronize | src/agent_memory_sidecar/instruction_sync.py:145-251 | an outstanding record blocks. It refuses exactly when the new document is empty, a host is shadowed, content was accepted for an unknown or bound host or for other content, or a document was edited locally; otherwise it gives a plan, or goes on under exactly the reviewed plan. Anything changed while it waited for the locks stops it. Then all hosts and bindings are new, or all are as they were, or the record kept says exactly what was there; bytes of other programs survive, and undisturbed it applies |
| InstructionSync.PreviewDetermines | src/agent_memory_sidecar/instruction_sync.py:221-233 | the reviewed plan is the same exactly for the same commit, document, configuration, accepted content, and host documents and bindings |
| SourceCutover.Workstation.Apply | skills/agent-memory-workstation-bootstrap/scripts/managed_sources.py:1045-1184 | before the receipt any failure leaves both sources and both skills as they were and runs the distribution rollback exactly when it was started. A receipt means that every source was what the plan saw, both sources are the new ones, both skills what was to be installed, and the distribution change applied exactly when the plan has one. The distribution is never touched for a plan that no longer describes the sources, and a single failure never leaves its rollback failed. After a receipt, with no stage directory left by an earlier run, or no failing removal, a failure is reported as post-commit |
| SourceCutover.StaleStageHidesTheCommit | skills/agent-memory-workstation-bootstrap/scripts/managed_sources.py:1179-1184 | for every cutover that would succeed and any leftover stage directory there is a sweep that fails after the receipt, reported neither as success nor as post-commit |
| SourceCutover.Workstation.Sweep | skills/agent-memory-workstation-bootstrap/scripts/managed_sources.py:1179-1184 | only stage directories are removed; success means none is left, and it cannot fail when there was none |
| SourceCutover.Workstation.SwapOne | skills/agent-memory-workstation-bootstrap/scripts/managed_sources.py:1086-1101 | at every exit the old source is in its place or kept aside, and the caller knows which |
| SourceCutover.Workstation.SnapshotSkills | skills/agent-memory-workstation-bootstrap/scripts/managed_sources.py:825-841 | success means a copy of every installed skill; failure leaves the skills as they were |
| SourceCutover.Workstation.Compensate | skills/agent-memory-workstation-bootstrap/scripts/managed_sources.py:1158-1178 | a failing distribution rollback does not stop the restoring of skills and sources, and it is reported exactly when it was started and failed |
| Graphs.ValidateContainment | skills/global-owner-scout/scripts/project_map.py:59-72 | the counting loop terminates and accepts if and only if nothing contains itself, duplicate edges and shared children included |
| Graphs.VisitAll | skills/global-owner-scout/scripts/project_map.py:66-72 | all nodes are visited exactly when the relation has no cycle |
| Graphs.StuckHasCycle | skills/global-owner-scout/scripts/project_map.py:72-72 | a visit that stops early proves a cycle |
| Selection.Ancestors | skills/global-owner-scout/scripts/project_map.py:142-149 | the loop terminates with exactly the nodes from which containment leads to one of the given nodes |
| Selection.FollowJourney | skills/global-owner-scout/scripts/project_map.py:79-84 | the loop over a journey accepts if and only if its entry is a node and its edges exist and follow one another from there |
| Selection.JourneyNodesAreEndpoints | skills/global-owner-scout/scripts/project_map.py:142-143 | in a validated map the entry and the targets of a journey's edges are all endpoints of those edges, sources included, and nothing else |
| Selection.CheckRelated | skills/global-owner-scout/scripts/project_map.py:141-153 | an object is related to a journey exactly as reachability and card links say |
| Selection.ResolveSelection | skills/global-owner-scout/scripts/project_map.py:124-175 | a selection resolves if and only if the object and journey exist and are related, and each refusal means what it says; the journey is the first of the id asked for; nodes, edges, journeys and evidence are exactly the chosen and the cited ones; in a valid map no returned edge dangles |
| Hierarchy.ValidateHierarchy | skills/global-owner-scout/scripts/validate_output.py:541-548 | the check accepts if and only if every parent chain stays among engineering cards and ends |
| Hierarchy.WalkUp | skills/global-owner-scout/scripts/validate_output.py:543-548 | one chain walk terminates and succeeds exactly when the chain ends among the cards |
| Hierarchy.EngineeringHas | skills/global-owner-scout/scripts/validate_output.py:542-542 | with distinct ids the table holds exactly the engineering cards |
| Locks.SortedLocks | src/agent_memory_sidecar/instructions.py:429-432 | the plan is the strictly ascending list of the folded paths |
| Locks.MutualExclusion | src/agent_memory_sidecar/instructions.py:427-440 | in every reachable state two executors inside share no path, up to case folding |
| Locks.NoDeadlock | src/agent_memory_sidecar/instructions.py:427-440 | in no reachable state is every member of a group waiting for another member |
| Locks.SomeoneProceeds | src/agent_memory_sidecar/instructions.py:427-440 | while anyone is waiting, someone can take a lock or is past waiting |
| Hooks.DesiredHooksDocument | src/agent_memory_sidecar/runtime_package.py:187-214 | the loop over events computes the rewriting function: all other keys of the document stay, each event keeps its foreign entries in order, a group loses the sidecar's commands only and keeps its other fields, and the two own entries are added |
| Hooks.WithoutSidecarHooks | src/agent_memory_sidecar/runtime_package.py:217-236 | the loop over entries keeps exactly what is foreign, in order, with all other fields of each group |
| Hooks.RewriteTwice | src/agent_memory_sidecar/runtime_package.py:187-236 | rewriting twice equals rewriting once if and only if no event value outside a list would be filtered as an entry |
| Hooks.FingerprintFixed | src/agent_memory_sidecar/runtime_package.py:270-295 | the fingerprint is that of a fresh installation if and only if no event value outside a list holds a sidecar command |
| Hooks.LooseCommandEscapes | src/agent_memory_sidecar/runtime_package.py:217-236 | a document with such a value on which rewriting is not idempotent and the fingerprint is wrong |
| Hooks.LooseEmptyGroupIsLost | src/agent_memory_sidecar/runtime_package.py:217-236 | an empty command list outside a list is lost by the second rewriting, with the fingerprint right |
| Hooks.RewriteKeepsForeign | src/agent_memory_sidecar/runtime_package.py:187-236 | foreign commands of each event keep their order, and exactly the two own commands are the sidecar's |

## Left out

- Coordinator.FileTransactionCoordinator.Apply: edits by hand fall between its calls, so in the class a check and its effect are one step, while `ProtocolProofs.PlayInv`, `Atomicity.StepRefinesAtomicMachine` and `Edits.EditLostExactly` hold for edits anywhere; executors run one after another, so the second look at a journal after its lock is taken is not modelled, and the lock order is proved separately; a database commit happens or raises, and nothing is raised after it by the database itself.
- Coordinator.FileTransactionCoordinator.Recover: directories vanishing under a concurrent cleaner are not modelled, and journals are recovered in any order instead of by name.
- Atomicity.QuietParity: project targets and edits by hand stay off the two global documents; `Atomicity.ProjectKeepsParityExactly` gives the exact condition for one project transaction.
- Replacement.PlanSucceedsExactly: documents are text, so the error for bytes that are not UTF-8 is missing.
- Bundles.BundleOrderFree: it does not say which of several errors is reported first when two items carry the same card.
- Planner.PlanBundle: superseded ids are texts, and reading a bundle from JSON before that is not modelled; nor are the names of the actions in its report.
- InstructionSync.Device.Apply: other programs write between two hosts and between a write and its readback, but not between a check and the write it guards.
- InstructionSync.Device.Synchronize: the reviewed hash stands for the plan itself; the source repository and the content-addressed snapshot directory are not modelled.
- SourceCutover.Workstation.Apply: it covers ordinary exceptions, which are all the code compensates, and not the death of the process; the moves of a compensation are taken to succeed, apart from the distribution rollback, which may fail.
- Cutover.Migrate: backups, skills and hooks around the migration are left out; only the table copy and the approval that pays for it are modelled.
- Plans.DeployExactly: the one guard before planning, that a non-empty override file next to the document refuses every change, is left to the caller.
- Hooks.FingerprintFixed: it compares what is hashed, and which commands are the sidecar's is an abstract predicate on JSON values.
- Locks.SomeoneProceeds: lock timeouts and lock-file ranges are left out; a lock is held or free, and a waiting executor may give up or crash at any time.
- Physical path, symlink, hard-link and Windows ACL checks are host calls; a file is absent or has bytes, and the paths of one plan are distinct.
- The hash of prompt metadata and request bodies, and the rendering of results; the content of a proposal is its digest.
- Git, cloning and subprocess plumbing of both compensating transactions: contents are arguments, failures are fates.
- Field-by-field validation of project maps and cards, and `validate_discovery_trace`.
- `sync_sources` and Core setup inside `materialize_host`, which the repository does not compensate.
