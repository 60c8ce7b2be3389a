# Verified model of MindCreek's durable operations

This project models, in Dafny 4.11, the parts of the repository whose correctness does not show in any one function:
remote writes that must not be repeated although processes crash and replies get lost, a batch that must come out the
same whatever order its conflicts arrive in, budgets, scanners, and authorization and migration state that must hold
over every run. `dafny verify dfyconfig.toml` checks everything.

**Write-ahead intent.** `IntentLog` is the discipline that three programs share: store "outcome unknown", send one
request, clear the mark only on an answer that rules out an effect. Its theorem is an equivalence: the discipline gives
at most one execution exactly when no answer lies and nothing clears the mark for another reason. The Community
importer's `upload`/`reconcile`/`prune` (`PublishClient` is the sequence of steps of one process, `PublisherClass` the
class that performs them, `PublishWorld` the process together with a server that may execute requests late), its
`create_knowledge_base` (`KnowledgeBases`) and the gateway's `Service.Onboarding` (`Onboarding` for the protocol,
`OnboardingRoles` for the memberships it brings about, `OnboardingCompletion` for when a completion is final,
`OnboardingService` for the class) refine it step by step. `PublishReads` adds what a prune has read before it deletes,
`PublishUploads` which creation requests a command sends, `PublishKeys` what becomes of one desired key, `PublishScan`
when a listing binds, and `OnboardingReports` what an employee is told. Crashes, lost answers, late executions and an
Owner's own changes can happen between any two steps. Each class keeps a trace of its steps and of every request it
sends (`Traces`), and a trace that the service allows is a run of the model.

**Batches.** `Prepare` is what one run of `Workspace.prepare` does to the entries, `PrepareResults` what that comes to
for one id, `WorkspaceClass` the loop itself, `DesiredIndex` the index of files that uploading and retirement are driven
by, `Names` the names that carry a content key through the service.

**Rate budget.** `RateBudget` keeps the minute budget of a user and the day budget of a channel in one table.

**Scanners and merges.** `Fences`, `Spans` and `MarkdownRegions` split a text into protected and live regions,
`CommonMark`, `SpanBoundaries` and `InlineHtml` compare fences, the cutting of spans and tags with CommonMark 0.31,
`Markdown` and `MarkdownRewrites` rewrite images in the live ones, `MergeGraph` and `MergeBounds` merge bounded graphs.

**Authorization and migrations.** `Scopes` and `ScopeKeys` collect what a JSON body names, `AgentScope` resolves a
scope, `GateRules` and `GateService` authorize a request, `GatePlans`, `GateRuns`, `GateBodies` and `GateDocuments`
state what a request must name for each kind of scope, what holds over runs of requests, and what of the forwarded
bodies and the documents they name. `GateSuccess` says exactly when a request succeeds, `GateErrors` how it fails
otherwise. `Migrations`, `MigrationResults`, `MigrationRuns` and `RunnerClass` are the migration history under
interleaved and failing calls by different programs.

## What the proofs turned up

- `upload` treats a failed *read* during reconciliation like a rejected upload: publish.py:240-241 also runs for the
  requests at publish.py:177. A listing that is answered with, say, 403 clears `attempted`, and the next run uploads the
  content again (`PublishRecover.FailedPageForgets`). `PublishDuplicates.AtMostOneExactly` shows that at most one
  document per content key holds exactly when neither rejections of uploads that took effect nor failing listings carry
  one of the nine listed statuses.
- `reconcile` gives up at a listing of 1,000,000 documents or more even when the document is in it
  (`Publish.ReconcileBinds`).
- An add of a member that is executed late can put an employee back whom an Owner has removed after onboarding
  completed. A completion is final, that is, afterwards only Owners change the role, exactly when rejections are
  truthful and the call that completes found the record not unknown and either sent nothing or had its own add accepted
  or definitively rejected (`OnboardingCompletion.FinalExactly`). Otherwise there is a run in which the employee comes
  back: a call that found the record unknown (`OnboardingCompletion.FoundUnknown`, and the same in
  `OnboardingRoles.LateAdd`), a call whose own add failed without a definitive status while an Owner added the employee
  (`OnboardingCompletion.OwnUncertain`), or an earlier rejection that was a lie (`OnboardingCompletion.LiedBefore`).
- `prepare` leaves a counter raised when reading back a manifest fails after the counter was raised
  (workspace.py:89-98), so that one article is counted as prepared and as failed (`Prepare.CountedTwice`). The counters
  equal the totals exactly when, for every first valid article of an id whose files were built or verified, the manifest
  could be read back (`Prepare.CountersWithoutLoss`).
- An invalid item that follows a valid article with its id leaves the id accepted and counted as prepared, but with an
  error, so that it is not desired: `PrepareResults.AcceptedWithError`, and `PrepareResults.AcceptedExactly` for all
  batches.
- A call whose timestamp is far behind others can meet a cleaned-up bucket, so that a window admits more calls than its
  limit. The row of a bucket is exact unless such a call forgot it (`RateBudget.Exact`), and the limits hold in every
  history exactly when timestamps run back by at most a day and a microsecond (`RateBudget.WindowsHoldExactly`).
- A named agent confines a retrieval by comparing ids as written, while the resolver trims them; so what is forwarded is
  inside the agent's ids up to white space (`GateRuns.ForwardedIsWellScoped`), with an input at which it is not inside
  them to the letter (`GatePlans.PaddedIsForwarded`) and the exact condition (`GatePlans.ForwardedInsideExactly`).
- A migration's checksum covers its up script only (runner.go:269), so an edited down script passes Up and Down
  (`MigrationRuns.EditedDown`). That the schema stays what the recorded migrations make of it therefore rests on the
  down scripts of every program that is run: `MigrationRuns.InStepExactly`.
- Compared with CommonMark content.py differs as follows, and the model follows content.py. `splitlines` breaks lines at
  more characters than newline and carriage return (`CommonMark.BreakDiffers`); what may follow a closing fence is
  anything that `strip` removes, a no-break space among it, and not only spaces and tabs (`CommonMark.CloseDiffers`).
  Without such characters, and only then, the fences always agree (`CommonMark.FencesAgreeExactly`). Spans are cut from
  all the prose between two fences, so that a code span can cross a blank line (`SpanBoundaries.SpanAcrossParagraphs`);
  cutting block by block gives the same exactly when no span crosses a boundary (`SpanBoundaries.DivideAllExactly`). And
  HTML tags and autolinks are not recognized, so that a backtick in a tag can open a span (`InlineHtml.TagDiffers`);
  that makes a difference exactly when a protected piece begins inside one (`InlineHtml.TagsAgreeExactly`). Containers
  and other block structure are not compared, see "Left out".

## Assumptions

A save is atomic and durable on return, a lock is mutual exclusion, a transaction happens as a whole or not at all (its
commit may succeed while the caller sees an error). The services are answers: every theorem quantifies over what they
answer, when they answer and whether they answer at all. Digests are injective on the contents that occur. A knowledge
base with this installation's marker and a document with this installation's upload name are created only by its own
requests. During one request the gate's services give one answer per question; between requests the answers change
freely. Adding an existing member is refused.

## Model

| member | source | states |
|---|---|---|
| `IntentLog.SafeStep` | tools/community-import/mc_importer/publish.py:227-242 | Every step of the discipline, and every crash and late execution, keeps: a clear mark on disk means nothing was executed and nothing is on its way. |
| `IntentLog.SafeRun` | tools/community-import/mc_importer/publish.py:206-242 | Over every run at most one request is executed, if no answer lies and nothing forgets the mark. |
| `IntentLog.AtMostOnceExactly` | tools/community-import/mc_importer/publish.py:229-241 | At most one execution in every run if and only if answers do not lie and nothing else clears the mark. |
| `Names.OwnerExactly` | tools/community-import/mc_importer/common.py:45-47 | A file name leads to a content key exactly when it is an upload name of this installation for that key, under some title; so two keys never share a name. |
| `Names.OwnerOfUploadName` | tools/community-import/mc_importer/common.py:45-47 | The content key can be read back from every upload name, whatever the title. |
| `Publish.ScanItemsStable` | tools/community-import/mc_importer/publish.py:180-185 | A page of a listing that repeats nothing contributes exactly its documents with the record's file name. |
| `Publish.ScanStable` | tools/community-import/mc_importer/publish.py:175-200 | The verdict on a stable listing depends on all its documents with the name, over all pages, up to the page limit. |
| `Publish.ReconcileBinds` | tools/community-import/mc_importer/publish.py:173-200 | After an interrupted upload a stable listing that shows the document binds the record to exactly it, wherever it stands, if and only if the listing has fewer than a million entries. |
| `Publish.ReconcileNeverInvents` | tools/community-import/mc_importer/publish.py:190-200 | Without a document of that name nothing is bound. |
| `PublishScan.BoundExactly` | tools/community-import/mc_importer/publish.py:173-200 | A listing of any kind binds a record to a document if and only if it gives every document an id, none twice, has fewer than a million of them, and shows exactly one with the record's file name, that one with its size and knowledge base. |
| `PublishRecover.InterruptedIsBound` | tools/community-import/mc_importer/publish.py:225-242 | The next run after an interrupted upload asks for the pages of the listing, stores exactly the id of the document a stable listing shows and leaves every other record alone. |
| `PublishRecover.InterruptedStaysUnknown` | tools/community-import/mc_importer/publish.py:198-200 | When a stable listing does not show the document no id is stored and the mark stays, so nothing is posted. |
| `PublishWorld.TraceIsRun` | tools/community-import/mc_importer/publish.py:202-286 | Whatever processes did one after the other, dying or not, among late executions and losses that the destination allows, is a run of process and server that the theorems quantify over. |
| `PublisherClass.Publisher.IsRun` | tools/community-import/mc_importer/publish.py:202-286 | What the methods did is such a run, and it leads to the records the object has saved. |
| `PublisherClass.Publisher.DiedIsRun` | tools/community-import/mc_importer/publish.py:202-286 | So is what they would have done if the process had died at any point. |
| `PublishWorld.PcOkNext` | tools/community-import/mc_importer/publish.py:206-242 | At every point of the code the record being worked on is as that point assumes. |
| `PublishWorld.Refines` | tools/community-import/mc_importer/publish.py:206-242 | Each step of process and server is, for each content key, one step of the intent log or none. |
| `PublishWorld.SafeRun` | tools/community-import/mc_importer/publish.py:206-242 | With truthful rejections and no listed status on listings, over every run and for every key: at most one document, and a stored `attempted` of false means none exists and none is coming. |
| `PublishDuplicates.Duplicates` | tools/community-import/mc_importer/publish.py:225-241 | A lying rejection, or a listing that fails with a listed status, leads to two documents with one content key: the run is given. |
| `PublishDuplicates.AtMostOneExactly` | tools/community-import/mc_importer/publish.py:206-242 | At most one document per content key in every run, if and only if no listed status is answered to an upload that took effect or to a listing. |
| `PublishRetire.InvStep` | tools/community-import/mc_importer/publish.py:118-286 | Every step keeps: stored ids are real documents of their keys, records remember what was posted, and pruning only holds what it has checked. |
| `PublishRetire.DistinctIds` | tools/community-import/mc_importer/publish.py:154-161 | In every reachable state two content keys never have one remote id. |
| `PublishRetire.DeletesGuarded` | tools/community-import/mc_importer/publish.py:258-285 | Every DELETE is for an id from a validated upload of this installation, not desired, sent in a call that has re-read every desired key as completed and under another id. |
| `PublishRetire.RereadMeansRead` | tools/community-import/mc_importer/publish.py:267-273 | A key counts as re-read only after an answer in this call with its own id, name and the status completed. |
| `PublishReads.ReadBeforeDelete` | tools/community-import/mc_importer/publish.py:258-285 | In every run from the start: before each DELETE every desired key's own document was answered as completed, and no command has begun since that answer. |
| `PublishUploads.CheckSendsNothing` | tools/community-import/mc_importer/publish.py:202-242 | In every run, from the beginning of a command that only checks to the next command, no creation request is sent and none is on its way that was not before. |
| `PublishUploads.CreatesExactly` | tools/community-import/mc_importer/publish.py:206-242 | A command that creates has at every point sent creation requests for the first clear ones of its keys, one each and in order, and when it is done for all of them: the keys whose record is absent, or is not attempted, without id and not retired. |
| `PublishKeys.ClearIsCreated` | tools/community-import/mc_importer/publish.py:227-242 | A clear record is marked, stored, sent once and stored again: with the id it was given, or with an error and, after a definitive rejection, clear again. |
| `PublishKeys.KnownIsRead` | tools/community-import/mc_importer/publish.py:219-242 | A known document is read once: its record takes the state in an answer with its id, name, size and knowledge base, or only an error. |
| `PublishKeys.FailedIsRetried` | tools/community-import/mc_importer/publish.py:221-242 | A failed or cancelled document is parsed again once when the command retries, and then read once more. |
| `PublishKeys.RetiredFails` | tools/community-import/mc_importer/publish.py:217-242 | A retired record gets its error without any request. |
| `PublishKeys.ClearIsLeft` | tools/community-import/mc_importer/publish.py:227-242 | A command that only checks sends nothing for a clear record and takes its error away. |
| `PublishRetire.RetiredForever` | tools/community-import/mc_importer/publish.py:217-218 | A record marked deleted stays so, and its content is never posted again. |
| `PublisherClass.Publisher.Save` | tools/community-import/mc_importer/publish.py:231-242 | The records on disk become those in memory; a step only where the code saves. |
| `PublisherClass.Publisher.Refresh` | tools/community-import/mc_importer/publish.py:163-171 | Asks for one document, once: the record takes its status and is saved, or nothing changes and the failure is the one the answer calls for. |
| `PublisherClass.Publisher.Reconcile` | tools/community-import/mc_importer/publish.py:173-200 | Scans page after page and binds or fails as the scan of the answers says. |
| `PublisherClass.Publisher.Create` | tools/community-import/mc_importer/publish.py:228-236 | Saves the intent, then sends the one creation request, and nothing else; on failure the record is as the failure calls for. |
| `PublisherClass.Publisher.UploadOne` | tools/community-import/mc_importer/publish.py:206-242 | For one desired key, from reading the record to saving it: exactly which requests are sent for it, and what becomes of its record given the answers, in each of the five cases; every other record stays as it is. |
| `PublisherClass.Publisher.Upload` | tools/community-import/mc_importer/publish.py:202-242 | The whole call is a run of the step sequence without a crash, a second command or a deletion that works off all desired keys and ends saved. If it only checks, it sends no creation request; otherwise it sends exactly one for each desired key whose record was absent or clear, in order. Without admission it sends one request and changes nothing. |
| `PublisherClass.Publisher.VerifyDesired` | tools/community-import/mc_importer/publish.py:267-273 | Succeeds only when every desired key was re-read as completed in this call, and fails only for a key that has no completed document or whose read does not inform; other records are untouched. |
| `PublisherClass.Publisher.Candidates` | tools/community-import/mc_importer/publish.py:274-278 | The candidates are exactly the owned, live records outside the desired set, each read again; it fails only on a read that does not inform. |
| `PublisherClass.Publisher.Retire` | tools/community-import/mc_importer/publish.py:281-285 | Deletes in order; as many as are reported are saved as deleted, and it stops early only when a deletion fails. |
| `PublisherClass.Publisher.Prune` | tools/community-import/mc_importer/publish.py:258-286 | Blocked or with nothing desired it does and sends nothing at all; otherwise it is a run of the step sequence, without a deletion unless it applies. It gives up only when a request fails, a read does not inform or a desired key has no completed document; else its candidates are exactly the owned, known, live and undesired uploads, and all of them are retired unless a deletion fails. |
| `PublishRecover.FailedPageForgets` | tools/community-import/mc_importer/publish.py:173-241 | When a page of the reconciliation cannot be read, the next run uploads the content again if and only if the failure has one of the nine listed statuses; otherwise it starts the scan over. |
| `KnowledgeBases.Refines` | tools/community-import/mc_importer/publish.py:51-80 | Each step of creating a knowledge base is a step of the intent log or none. |
| `KnowledgeBases.AtMostOneExactly` | tools/community-import/mc_importer/publish.py:51-80 | At most one knowledge base with the marker in every run, if and only if no listed status is answered to a creation that took effect. |
| `KnowledgeBases.StoredRecordSound` | tools/community-import/mc_importer/publish.py:66-79 | With truthful rejections, after every run: a stored `attempted` of false means none exists and none is coming; a stored id is the one and only knowledge base. |
| `KnowledgeBases.Workspace.Create` | tools/community-import/mc_importer/publish.py:51-80 | For each of the three stored states and every answer the one request, the result and the stored record: a known base is confirmed by its id; after an interrupted creation the id of the one listed base with this name and marker is returned and stored, and otherwise nothing changes; the creation request is sent once, after its intent was saved, its answer's id is returned and stored, and a definitive rejection clears the mark. |
| `KnowledgeBases.ListedExactly` | tools/community-import/mc_importer/publish.py:57-65 | A listing leads to an id if and only if exactly one of its entries has this name and marker and that entry has this id, not an empty one; otherwise the creation stays unresolved. |
| `KnowledgeBases.Workspace.IsRun` | tools/community-import/mc_importer/publish.py:51-80 | What the call did, with late executions and losses around it, is a run of process and service, and leads to the record saved. |
| `KnowledgeBases.Workspace.DiedIsRun` | tools/community-import/mc_importer/publish.py:51-80 | So is what it would have done if the process had died at any point. |
| `KnowledgeBases.FindMine` | tools/community-import/mc_importer/publish.py:57-63 | Of a listing, the id of the only entry with this name and marker, if there is exactly one and it has an id; otherwise unresolved. |
| `Onboarding.Refines` | services/gateway/internal/enterprise/onboarding.go:60-158 | Each step of onboarding under its lock is a step of the intent log or none, whatever an Owner does meanwhile. |
| `Onboarding.AtMostOneExactly` | services/gateway/internal/enterprise/onboarding.go:120-157 | At most one add is ever accepted for an employee, if and only if no definitive status is answered to an add that took effect. |
| `OnboardingRoles.CompletedForever` | services/gateway/internal/enterprise/onboarding.go:79-86 | Once a completed record is stored it stays completed and no add is sent again. |
| `OnboardingRoles.ReappearsExactly` | services/gateway/internal/enterprise/onboarding.go:79-86 | After completion a removed employee can come back without an Owner if and only if an add is still on its way. |
| `OnboardingRoles.RoleIsGiven` | services/gateway/internal/enterprise/onboarding.go:79-86 | After completion with no add on its way the role is in every run the last one that an Owner gave. |
| `OnboardingCompletion.FinalExactly` | services/gateway/internal/enterprise/onboarding.go:87-157 | Over all runs and continuations a completion is final, only Owners changing the role afterwards, if and only if rejections are truthful and the call that records it found the record not unknown and sent nothing, or an add that was accepted or definitively rejected; every other kind of completion has a run in which a removed employee comes back. |
| `OnboardingCompletion.AlwaysPossible` | services/gateway/internal/enterprise/onboarding.go:117-125 | In every run a call that completes and found the record unknown has sent nothing, so the kinds of completion above are all there are. |
| `OnboardingRoles.LateAdd` | services/gateway/internal/enterprise/onboarding.go:132-153 | A run in which completion, removal by an Owner and an add still on its way meet. |
| `OnboardingRoles.OnlyDefaultAdds` | services/gateway/internal/enterprise/onboarding.go:101-132 | Over every run from the start, Owners' actions included, every request on its way asks for viewer, and its sender had read that there is no membership. |
| `OnboardingRoles.SentAfterReading` | services/gateway/internal/enterprise/onboarding.go:60-132 | A call about to send the add has read under its lock, in this call, that there is no membership, at a moment when there was none, and has read nothing since. |
| `OnboardingRoles.OwnersRoleWins` | services/gateway/internal/enterprise/onboarding.go:101-132 | Over every run from the start, Owners' actions included: the role an Owner gave last is the one the employee has; without one the employee is at most a viewer, by an accepted add. |
| `OnboardingRoles.ReadyReports` | services/gateway/internal/enterprise/onboarding.go:79-107 | In every run from the start a call that ends in ready has seen a membership that was there when it looked. |
| `OnboardingRoles.ReadyMeansMember` | services/gateway/internal/enterprise/onboarding.go:87-107 | Ready is reported, and completion stored, only after a membership was observed in this call or when the record completed. |
| `OnboardingService.JoinOutcomes` | services/gateway/internal/enterprise/onboarding.go:126-157 | For every answer to the add, every later reading and every failing save: completed exactly when the same user is then a member and that was saved; otherwise the mark is gone exactly after a saved definitive rejection, and retryable says so. |
| `OnboardingService.OtherOutcomes` | services/gateway/internal/enterprise/onboarding.go:60-125 | A call that sends nothing changes the record only to complete it, for a membership it read in a joining call, and reports ready only for a recorded member; what else it reports is in the next rows. |
| `OnboardingReports.StoredIsShaped` | services/gateway/internal/enterprise/onboarding.go:60-158 | After every run from the start the stored record is completed and clean, or joining with its result unknown, or failed with the error that says whether its result is unknown. |
| `OnboardingReports.ReportsExactly` | services/gateway/internal/enterprise/onboarding.go:69-157 | For every record that can be stored: each of the eight reports, ready, removed, pending, identity conflict, result unknown, join failed, key unavailable and a returned error, is given in exactly the stated cases of record, readings, answer and saves. |
| `OnboardingReports.StoresExactly` | services/gateway/internal/enterprise/onboarding.go:69-157 | And exactly what is stored after the call in each case. |
| `OnboardingService.Service.Save` | services/gateway/internal/enterprise/store.go:52-60 | A save keeps a completion that is already stored. |
| `OnboardingService.Service.Onboarding` | services/gateway/internal/enterprise/onboarding.go:60-159 | The stored record and the status are the outcome of the rows above for the record found and what was told, also when a save fails; one reading is asked for, or a reading, the one add of a viewer and another reading, exactly when the call decided to send and its intent was stored. |
| `OnboardingService.Service.Join` | services/gateway/internal/enterprise/onboarding.go:126-157 | After the intent was stored: the add is sent once, then one reading, and the record and status follow from answer, reading and save. |
| `OnboardingService.Service.Reread` | services/gateway/internal/enterprise/onboarding.go:141-157 | Completion or failure according to the membership observed after the add. |
| `OnboardingService.Service.IsRun` | services/gateway/internal/enterprise/onboarding.go:60-158 | What the calls did, with late executions, losses and an Owner's actions around it, is a run, and leads to the record stored. |
| `OnboardingService.Service.DiedIsRun` | services/gateway/internal/enterprise/onboarding.go:60-158 | So is what they would have done if the process had died at any point. |
| `Prepare.AllSound` | tools/community-import/mc_importer/workspace.py:62-103 | After any batch an id has been seen exactly when a valid article has it; without one, or with differing ones, its pointer is the one from before the batch and it is not accepted; accepted, it has the fingerprint seen. |
| `Prepare.ConflictRestores` | tools/community-import/mc_importer/workspace.py:73-83 | Two valid articles with one id and different content, in any positions among any others, leave manifest and fingerprint exactly as before the batch. |
| `Prepare.AcceptedIsUnanimous` | tools/community-import/mc_importer/workspace.py:71-99 | An accepted id has a manifest and the fingerprint of every valid article with that id in the batch. |
| `Prepare.CountersExact` | tools/community-import/mc_importer/workspace.py:59-102 | The counters after any batch, with every item counted once: prepared, unchanged, failed, skipped or retracted, and the warnings of the accepted ids. |
| `Prepare.CountersWithoutLoss` | tools/community-import/mc_importer/workspace.py:89-99 | The counters are the totals over the accepted ids, and every item is counted once, if and only if the answers let the manifest be read back for every first valid article of an id whose files were built or verified. |
| `Prepare.LossExactly` | tools/community-import/mc_importer/workspace.py:89-99 | A reading is lost in the run exactly when the answers to some first valid article of an id build or verify its files and then do not let them be read. |
| `Prepare.CountedTwice` | tools/community-import/mc_importer/workspace.py:89-99 | A batch of one article that is counted both as prepared and as failed although nothing is accepted. |
| `Prepare.SecondRun` | tools/community-import/mc_importer/workspace.py:85-99 | A batch that agrees with what is stored for an id builds nothing for it and keeps it. |
| `Prepare.PrepareAgain` | tools/community-import/mc_importer/workspace.py:85-99 | The same batch again, with unmodified files, builds nothing for an accepted id, counts it unchanged and keeps its pointer. |
| `PrepareResults.AcceptedExactly` | tools/community-import/mc_importer/workspace.py:71-101 | An id is accepted if and only if all its valid articles have one content and the first of them was built or verified and read back; it is then prepared, with the manifest just built, exactly if a refresh was asked for or the entry from before the batch has other content or no manifest, and otherwise unchanged with the old manifest and nothing built; its error is gone exactly if no invalid item with its key came later. |
| `PrepareResults.PointerExactly` | tools/community-import/mc_importer/workspace.py:62-103 | Where every id points after any batch, whether it is accepted or not, what was built, and which ids have an error. |
| `PrepareResults.FailedExactly` | tools/community-import/mc_importer/workspace.py:62-103 | The items counted as failed are exactly those without a usable id, the invalid ones, those that contradict the first valid article of their id, and the first ones that were not built, verified or read back. |
| `PrepareResults.AcceptedWithError` | tools/community-import/mc_importer/workspace.py:71-103 | A batch of two items after which an id is accepted and has an error. |
| `WorkspaceClass.Workspace.Prepare` | tools/community-import/mc_importer/workspace.py:58-107 | The loop leaves the entries and counters of the specification, whose meaning the rows above give; every save before the last holds a prefix of the batch marked incomplete, and there is one after every item that says something new. |
| `DesiredIndex.Desired` | tools/community-import/mc_importer/workspace.py:227-238 | The index holds exactly the contents of the usable entries, each with its first file and all its articles in order; a manifest that cannot be read fails it. |
| `DesiredIndex.DesiredExactly` | tools/community-import/mc_importer/workspace.py:227-238 | A content is desired if and only if some stored article with a manifest, and without an error unless failed ones are wanted, has an artifact with it, and then it lists exactly those articles. |
| `DesiredIndex.DesiredWellNamed` | tools/community-import/mc_importer/workspace.py:234-237 | Every indexed content carries an upload name that leads back to it. |
| `RateBudget.Exact` | services/gateway/internal/assistant/store.go:87-105 | A bucket's row holds exactly the number of committed calls in its window if and only if no call with a timestamp more than a day past the bucket's end was committed after one counted in it. |
| `RateBudget.AdmittedCounts` | services/gateway/internal/assistant/store.go:92-106 | An admitted call raises exactly its two buckets by one and leaves them within its limits. |
| `RateBudget.RefusedExactly` | services/gateway/internal/assistant/store.go:92-101 | A refused call has met its user's minute or its channel's day used up by admitted calls; one that has is admitted only if a call more than a day behind made the table forget that window. |
| `RateBudget.WindowWithinLimit` | services/gateway/internal/assistant/store.go:95-101 | While timestamps run back by at most a day and a microsecond and no call is given a higher limit, no window ever counts more than the limit. |
| `RateBudget.IntervalWithinLimit` | services/gateway/internal/assistant/store.go:87-105 | Under the same condition any interval of a given span holds at most one more than its rounded-up number of windows times the limit, per user and per channel. |
| `RateBudget.WindowsHoldExactly` | services/gateway/internal/assistant/store.go:87-105 | The limits hold in every window of every history in which timestamps run back by at most a given lag if and only if that lag is at most a day and a microsecond. |
| `RateBudget.Repository.Take` | services/gateway/internal/assistant/store.go:72-107 | With a working database admitted exactly when both windows have room; a refused call has met a budget used up by committed calls and leaves the table untouched, and so does a failed one, unless its commit succeeded without the caller hearing of it, and then it counts like an admitted one. |
| `Spans.TilesUnique` | tools/community-import/mc_importer/content.py:157-173 | What is said of escapes, code spans and live stretches determines the pieces of a text. |
| `Spans.ClosingIsFirst` | tools/community-import/mc_importer/content.py:164-168 | The closing string found is the first later backtick string of exactly the opening length; none is found exactly when there is none. |
| `Spans.Scan` | tools/community-import/mc_importer/content.py:157-173 | The loop yields pieces that tile the text: escapes, spans closed at the first equal run, and live text in which no token and no closed run begins. |
| `SpanBoundaries.DivideExactly` | tools/community-import/mc_importer/content.py:155-190 | Cutting the lines before and after a line boundary separately gives the protected pieces of the whole if and only if none of these crosses the boundary. |
| `SpanBoundaries.DivideAllExactly` | tools/community-import/mc_importer/content.py:155-190 | The same for any number of line boundaries: block by block gives the pieces of the whole if and only if none of these crosses one of them. |
| `InlineHtml.TagsAgreeExactly` | tools/community-import/mc_importer/content.py:155-173 | For any text and wherever its tags and autolinks are, passing over them as CommonMark 0.31 does gives the same protected pieces if and only if no piece found without them begins inside one. |
| `InlineHtml.TagDiffers` | tools/community-import/mc_importer/content.py:155-173 | A text with a tag whose attribute holds a backtick: the span that begins there protects an image that is live in CommonMark. |
| `SpanBoundaries.SpanAcrossParagraphs` | tools/community-import/mc_importer/content.py:155-190 | An image between two paragraphs that is protected because a code span crosses the blank line; each paragraph on its own has no code span. |
| `MarkdownRegions.BlocksOrdered` | tools/community-import/mc_importer/content.py:177-189 | Fenced blocks follow one another within the text. |
| `MarkdownRegions.RegionsUnique` | tools/community-import/mc_importer/content.py:155-190 | What fences and spans say determines the regions of a text. |
| `MarkdownRegions.RegionsLossless` | tools/community-import/mc_importer/content.py:155-190 | Joining the regions of any text gives the text back. |
| `MarkdownRegions.Regions` | tools/community-import/mc_importer/content.py:155-190 | The loop over lines yields exactly these regions: fenced blocks, prose between them cut into spans as a whole, and nothing lost. |
| `Fences.LinesJoin` | tools/community-import/mc_importer/content.py:177-177 | Splitting into lines with their ends kept loses nothing. |
| `CommonMark.PlainAgree` | tools/community-import/mc_importer/content.py:155-190 | In a text without white space that only Python knows, the fenced blocks are those of section 4.5 of CommonMark 0.31, for fences outside other blocks. |
| `CommonMark.BreakDiffers` | tools/community-import/mc_importer/content.py:177-177 | Each character that breaks lines only for Python makes a difference: a text for each. |
| `CommonMark.CloseDiffers` | tools/community-import/mc_importer/content.py:181-184 | So does each other white space that only Python strips after a closing fence, a no-break space among them: a text for each. |
| `CommonMark.FencesAgreeExactly` | tools/community-import/mc_importer/content.py:155-190 | Over all texts whose unusual white space is from a given set the fenced blocks are always those of CommonMark if and only if the set has no white space that only Python knows. |
| `Markdown.References` | tools/community-import/mc_importer/content.py:196-200 | Every defined name has the target of its first definition in live text. |
| `Markdown.Markdown` | tools/community-import/mc_importer/content.py:193-232 | The result is what the regions become, one for one, or a failure exactly when a live region cannot be rewritten. |
| `Markdown.Identity` | tools/community-import/mc_importer/content.py:193-232 | Without image syntax in live text the content comes out unchanged and nothing fails. |
| `Markdown.Protected` | tools/community-import/mc_importer/content.py:202-232 | Protected text comes out verbatim and in place, and what live text becomes has no image syntax left but embedded images. |
| `Markdown.ResultUnique` | tools/community-import/mc_importer/content.py:193-232 | A content has one result. |
| `MarkdownRewrites.RewriteExactly` | tools/community-import/mc_importer/content.py:202-231 | A live region becomes a text if and only if that is what the passes make of it one after the other, each replacing every match from left to right and nothing else, and no image syntax is left outside embedded images. |
| `MergeGraph.CollectIs` | tools/frontend-overlay/native/knowledge-graph.ts:27-29 | Building a map by id keeps each id once with its last value. |
| `MergeGraph.MergeWellFormed` | tools/frontend-overlay/native/knowledge-graph.ts:26-33 | Any merge has at most 240 nodes and 480 edges, unique ids, and both ends of every edge. |
| `MergeGraph.NodesStay` | tools/frontend-overlay/native/knowledge-graph.ts:27-28 | Every node of a bounded current graph with unique ids stays, in its place. |
| `MergeGraph.NodesExactly` | tools/frontend-overlay/native/knowledge-graph.ts:27-32 | The nodes are the latest ones for their ids, and all of them unless truncation is reported. |
| `MergeGraph.EdgesExactly` | tools/frontend-overlay/native/knowledge-graph.ts:29-32 | Without truncation the edges are exactly the latest ones for their ids that join two nodes of the result. |
| `MergeGraph.MergeAgain` | tools/frontend-overlay/native/knowledge-graph.ts:26-33 | Merging the same graph a second time changes nothing, for all graphs. |
| `MergeBounds.NodesAreFirst` | tools/frontend-overlay/native/knowledge-graph.ts:27-28 | The nodes are the first 240 ids of both graphs, in the order in which they occur first. |
| `MergeBounds.EdgesAreFirst` | tools/frontend-overlay/native/knowledge-graph.ts:29-31 | The edges are the first 480 of those whose latest version joins two of these nodes, in the order in which they occur first. |
| `MergeBounds.ReportedExactly` | tools/frontend-overlay/native/knowledge-graph.ts:31-32 | Truncation is reported if and only if one of the graphs was truncated or something is cut off now; the state is ready exactly if there is a node, and otherwise that of the second graph. |
| `Scopes.RequestScope.CollectScope` | services/gateway/internal/access/gate.go:475-515 | Appends to the four lists what a value names, in order of visit. |
| `Scopes.StringValues` | services/gateway/internal/access/gate.go:517-532 | A string or the strings of a list, never an empty one and nothing else. |
| `Scopes.CollectedExactly` | services/gateway/internal/access/gate.go:475-515 | An id is collected if and only if some object at any depth names it, by type and id or under one of the known keys. |
| `ScopeKeys.CollectedWhenMarked` | services/gateway/internal/access/gate.go:475-515 | The same with the keys and types spelled out. |
| `GateRules.UniqueIs` | services/gateway/internal/access/gate.go:1091-1101 | No repetition, no empty id, nothing else lost. |
| `GateRules.MayExactly` | services/gateway/internal/access/gate.go:626-650 | A knowledge base is not refused if and only if the decision service allows the request's action, or reading for a change to an agent, and not only to a subscriber or the public when an original is downloaded; or an editor makes a limited edit that configuring was refused for. |
| `GateService.Unique` | services/gateway/internal/access/gate.go:1091-1101 | The values in order of first occurrence. |
| `GateService.IsSubset` | services/gateway/internal/access/gate.go:422-433 | True exactly when every requested id is allowed. |
| `AgentScope.NormalizeIDs` | services/gateway/internal/agentscope/resolver.go:136-157 | Succeeds exactly for 1 to 64 ids that trim to 1 to 128 bytes; then the trimmed ids, each once, strictly ascending; otherwise the right error. |
| `AgentScope.AscendingUnique` | services/gateway/internal/agentscope/resolver.go:155-156 | A strictly ascending list is determined by its elements, so that is all of the result. |
| `AgentScope.ResolveExplicit` | services/gateway/internal/agentscope/resolver.go:112-134 | All requested ids, every one readable, each with its own decision; or the error of the first unreadable one in order. |
| `AgentScope.ResolveDefault` | services/gateway/internal/agentscope/resolver.go:87-110 | The listed knowledge bases but the organization-public ones, in order, if the library has at most 64. |
| `AgentScope.ResultOf` | services/gateway/internal/agentscope/resolver.go:159-166 | The same entries in order of their ids, and their ids. |
| `AgentScope.Resolve` | services/gateway/internal/agentscope/resolver.go:70-85 | Without a principal, with an unknown selection or with ids for a default selection it is invalid; otherwise the selected resolution. |
| `GatePlans.PureExactly` | services/gateway/internal/access/gate.go:301-329 | A chat without knowledge is planned if and only if a conversation asks for nothing at any depth and names one agent, whose mode is none. |
| `GatePlans.DefaultExactly` | services/gateway/internal/access/gate.go:301-329 | The whole library is asked for if and only if the body asks for nothing itself and names no agent, or one whose mode is all. |
| `GatePlans.ExplicitExactly` | services/gateway/internal/access/gate.go:301-329 | Otherwise the ids asked for are those the body asks for, by id or by document, and an agent whose mode is not all confines them. |
| `GatePlans.PlainScopeExactly` | services/gateway/internal/access/gate.go:442-473 | An id is in a plain request's scope if and only if its query has it or an object of its body names it at some depth; there is none exactly for a body that is too long or not JSON. |
| `GateService.ResolveAuthorizedRetrievalScope` | services/gateway/internal/access/gate.go:280-379 | The scope and the body of a retrieval; on every error the body is as it came. |
| `GateService.Gate.AuthorizeRequest` | services/gateway/internal/access/gate.go:172-278 | Outcome, forwarded body and recordings of a request, with the error that comes first. |
| `GateSuccess.PlainSucceedsExactly` | services/gateway/internal/access/gate.go:172-278 | A plain request succeeds if and only if its path is classified, its body readable, everything it names can be looked up, every knowledge base it uses may be used, publications are withdrawn before a deletion and its sessions can be recorded; it is then authorized for exactly what its path, query, body at any depth and sessions say. |
| `GateSuccess.RetrievalScopedExactly` | services/gateway/internal/access/gate.go:280-379 | A retrieval gets a scope if and only if its documents have parents, its agent fits, the audit works, and it is a chat without knowledge or can have the library or the one to 64 readable ids it wants. |
| `GateSuccess.RetrievalScopeIs` | services/gateway/internal/access/gate.go:280-379 | The scope is exactly the library or the selection it wants, trimmed, or nothing for a chat without knowledge, with the sessions its body names. |
| `GateSuccess.RetrievalSucceedsExactly` | services/gateway/internal/access/gate.go:172-278 | A retrieval succeeds if and only if it gets its scope and deserves to succeed with it, and is then authorized for exactly what it uses. |
| `GateErrors.ConcludedError` | services/gateway/internal/access/gate.go:205-270 | A request that fails is answered with the first error that applies: no session to search, a document, an agent or a session that cannot be looked up, the first in the order they are named, a refusal, a publication, a recording. |
| `GateErrors.RetrievalError` | services/gateway/internal/access/gate.go:280-379 | So is a retrieval without a scope, and its body is as it came. |
| `GateService.Gate.RecordKnowledgeBases` | services/gateway/internal/access/gate.go:263-269 | Adds to each named session in turn until a recording fails, each addition a step of its own; nothing is removed. |
| `GateSuccess.RecordsExactly` | services/gateway/internal/access/gate.go:251-269 | Nothing is recorded unless everything but recording succeeds; then exactly what the request uses, for one session after the other in order, up to the first that cannot be recorded. |
| `GateRuns.RememberExactly` | services/gateway/internal/access/gate.go:263-269 | A recording adds exactly its knowledge bases to its session and nothing to any other. |
| `GateRuns.ServedIs` | services/gateway/internal/access/gate.go:213-270 | A success may use every knowledge base it touches, among them all that its sessions remembered when each was read, and is recorded for all of them; only what was authorized is ever recorded, also when a later recording fails. |
| `GateRuns.AloneIsRun` | services/gateway/internal/access/gate.go:213-270 | A request handled alone is a run of the kind the next theorems quantify over. |
| `GateRuns.AuthorizedAgain` | services/gateway/internal/access/gate.go:213-270 | A knowledge base that a successful request used in a session is authorized again by every successful request that names the session and reads it after that was recorded, with sessions read and recorded one by one, overlapping requests and changing answers. |
| `GateRuns.RevokedStops` | services/gateway/internal/access/gate.go:232-250 | While one of them may not be used nothing on the session succeeds. |
| `GateRuns.ForwardedIsWellScoped` | services/gateway/internal/access/gate.go:280-379 | What is forwarded is not empty, holds every knowledge base the body names at any depth and the parent of every document, only readable ones, and none outside a named agent whose mode is not all, up to white space. |
| `GatePlans.ForwardedInsideExactly` | services/gateway/internal/access/gate.go:320-368 | What is forwarded is inside a confining agent's ids to the letter if and only if the trimmed form of every id asked for is one of them. |
| `GatePlans.PaddedIsForwarded` | services/gateway/internal/access/gate.go:315-368 | An agent whose id is written with a space has the id without it forwarded. |
| `GateBodies.RewrittenNames` | services/gateway/internal/access/gate.go:365-368 | The rewritten body names nothing new, of any kind, but forwarded knowledge bases. |
| `GateBodies.RewrittenHolds` | services/gateway/internal/access/gate.go:363-372 | The rewritten body lists exactly the forwarded knowledge bases in order, has web search and MCP services off, and every other field as it was. |
| `GateBodies.PureChatHolds` | services/gateway/internal/access/gate.go:330-351 | So for the body of a chat without knowledge, with nothing to retrieve from. |
| `GateBodies.PureChatNamesNone` | services/gateway/internal/access/gate.go:330-351 | The body of a chat without knowledge names no knowledge base at any depth. |
| `GateBodies.ForwardedNames` | services/gateway/internal/access/gate.go:330-379 | Every knowledge base a forwarded body names, anywhere, is in the resolved scope, up to white space. |
| `GateBodies.ForwardedIsAuthorized` | services/gateway/internal/access/gate.go:172-278 | And the request may use it, for its own action. |
| `GateDocuments.DocumentIsAuthorized` | services/gateway/internal/access/gate.go:172-278 | Every document that a forwarded body names, anywhere, has a parent, and the request was authorized for that parent, up to white space. |
| `Migrations.ApplyKeeps` | services/gateway/internal/database/runner.go:213-228 | One migration, however its transaction ends, leaves a prefix with the schema in step. |
| `Migrations.UpKeeps` | services/gateway/internal/database/runner.go:77-99 | Up gets from a prefix to a longer one or stays, and to the end of its list unless it reports an error. |
| `Migrations.DownKeeps` | services/gateway/internal/database/runner.go:102-133 | Down gets from a prefix to a shorter one, by exactly the steps asked for unless it reports an error. |
| `MigrationResults.UpSucceedsExactly` | services/gateway/internal/database/runner.go:77-99 | From a prefix in step Up reports no error if and only if every pending up script runs on what the ones before it make and every transaction it takes ends well. |
| `MigrationResults.DownSucceedsExactly` | services/gateway/internal/database/runner.go:102-133 | Down, with down scripts that undo or fail, reports no error if and only if at least one step is asked for, the newest recorded migration is known, every down script it takes runs and every transaction ends well. |
| `MigrationRuns.RunKeeps` | services/gateway/internal/database/runner.go:77-133 | Over every interleaving of calls by programs that embed fewer or more migrations and any down scripts, with every failing step, the history stays a prefix; when every caller's down scripts undo or fail, the schema stays the fold of the recorded migrations. |
| `MigrationRuns.InStepExactly` | services/gateway/internal/database/runner.go:230-243 | The schema is in step in every run of calls by given programs if and only if every down script of every one of them undoes its up script or fails. |
| `MigrationRuns.EditedDown` | services/gateway/internal/database/runner.go:102-133 | A program with an edited down script passes every check after Up by the original one: no error, the history one shorter, and the schema whatever the edited script made of it. |
| `Migrations.ChangedIsRefused` | services/gateway/internal/database/runner.go:87-93 | With a changed name or checksum of a recorded migration Up changes nothing and says so, however many migrations the program has. |
| `Migrations.SecondUp` | services/gateway/internal/database/runner.go:87-97 | Up after a successful Up tries no transaction at all. |
| `Migrations.UpAfterDown` | services/gateway/internal/database/runner.go:77-133 | Up after a successful Down restores history and schema. |
| `Migrations.UnknownIsRefused` | services/gateway/internal/database/runner.go:122-127 | A program that does not know the newest recorded migration rolls nothing back. |
| `Migrations.NewestIs` | services/gateway/internal/database/runner.go:148-166 | The history in descending order of a prefix is its migrations from the last to the first. |
| `RunnerClass.Runner.Up` | services/gateway/internal/database/runner.go:77-99 | Database and error are those of the specification; without connection or lock nothing happens. |
| `RunnerClass.Runner.Down` | services/gateway/internal/database/runner.go:102-133 | Database and error are those of the specification, steps that are not positive included. |
| `RunnerClass.Load` | services/gateway/internal/database/runner.go:245-283 | The same migrations strictly ascending; duplicate exactly when two files share a version, empty exactly for none, invalid exactly for an unusable file. |

## Left out

- Polling after the uploads (publish.py:243-256) and `upload_counts`: only reads, and arithmetic over the records.
- The order in which Python iterates the records when it collects candidates: any order is allowed.
- HTTP, TLS, multipart bodies, retries of reads: a request and its final answer are one step each.
- `Workspace.build`, manifests on disk and hashing: whether building, verifying and reading back succeed are answers.
- `safe_name` and the cleaning of titles: keys are taken as given, a title is any text.
- What onboarding does before it takes its lock (onboarding.go:44-59), clocks, and the email address that is added.
- `CommonMark.PlainAgree`: compares fences outside block quotes, lists, indented code and HTML blocks, because content.py knows none of these.
- Formatting of bucket names (store.go:93): a bucket is its scope and the start of its window.
- Regular expressions in `markdown`: the patterns are answers, each tied to where image syntax begins; the embedding of images and rich HTML are answers too.
- `Markdown.Markdown`: what a pattern matches beyond its beginning, and what an image becomes, are not modelled.
- `GateService.Gate.AuthorizeRequest`: models the gate with all its services; the path classifiers, the audit of denials and the metadata kept for the response are facts or left out, and the services answer each question once per request.
- Response filtering, revision events, route tables and `Decide` itself: single decisions behind the answers.
- SQL text and file reading of migrations: scripts are functions on schemas, files are usable or not.
- `edgeGeometry` and `layoutGraph`: floating-point placement.
- Member transfer and batches, catalog paging, override mergers: easier members of the same kind.
- Progress after a crash: the programs stop and report by design.
