# Verified model of the Local Control Kernel

The Local Control Kernel (LCK, `tools/lck/`) drives one Issue from a local candidate to a human merge.
It owns a local Task branch, shares a remote Task branch and a pull request with writers it does not
control, and keeps a handful of marker files between processes that may die at any moment. This project
models that lifecycle and the pure cores it trusts, and proves what the kernel is for: no head of another
writer is ever overwritten, what is pushed is what was validated, every repaired or refreshed head gets a
fresh Review, and READY_FOR_HUMAN_MERGE is about exactly the reviewed target.

`dafny verify dfyconfig.toml` checks the whole project.

## How the lifecycle is modelled

- `CommitDag` has commits and ancestry. `Protocol` has the durable world of one Task (refs, PR, Issue body,
  workspace, markers), the invariant `Inv`, what each actor may do (`Rely` for independent writers,
  `Guarantee` for LCK steps) and what a run is (`History`).
  Passing gates, formal validations, Review validations and verdict writes are events of their own in a run;
  what a process knows (`Proc`) only changes by such an event, or is forgotten.
- `World` has class `Repo`: every Git, GitHub or store command is one method that first lets other writers
  move the remote ref, main, PR and Issue body as they like, then takes at most one atomic step. Any command
  may fail; a push that exits non-zero may still have landed. `Repo.trace` keeps every state, so a crash is
  "the durable part of any state of the trace", and each method's `Sound()` means that the invariant and the
  step rules hold of all of them.
- `Snapshots`, `Refresh`, `Delivery`, `Remediation` and `Review` are the operations, as classes whose methods
  follow the source branch by branch. Their contracts hold under any interference; clauses guarded by
  `w.quiet` say, in both directions, when the operation succeeds without other writers and failing commands,
  and what it then leaves behind. In between is `w.calm`: no other writer, and nothing fails but what the
  operations are made for (validations, a conflicting rebase, a rejected push or one that lands behind a
  failing exit, a PR that lags behind). Clauses guarded by it say that every clean-up then works.
- `Repo.failures` counts failing commands, and every operation that is done ends with the count it began with:
  none ever goes on from a command that has failed. The two exceptions are named where they are: a candidate
  push that landed behind a failing exit, and `git branch -d` before `-D`.
- What an operation asks of PR, refs, records and sessions is written out field by field in its contract, apart
  from the guard that its body evaluates.
- `Lifecycle` puts them together: any sequence of operations, agent edits and crashes. `Recovery` compares a
  crashed and re-run Remediation Complete with the uninterrupted one.
- `Closeout` has its own clone and hub; `PrepareClaims` is a separate transition system for Review Prepare
  processes, their lock and their marker.
- `Wrappers` has the one optional value; `Text`, `Markdown`, `IssueForm`, `Json`, `Contracts`, `ReviewModels`,
  `Checks`, `Branches`, `Research` and `LiveStates` are the pure cores. `Markdown` is generic over how one line is read (`Grammar`); `Atx` is the
  reading of the source. `Contracts` describes all Review contracts by one datatype of shapes, so that one
  proof covers every codec.

## What turned out different from the claim one would like

- Formal validation runs on what the profile gates left behind, and nothing looks at the files in between. It has
  seen the pushed tree if and only if that is what the gates left (`Lifecycle.PushedTreeValidated`); gates that
  change files and a validation that changes them back push a tree that no formal validation saw
  (`Lifecycle.UnseenTreePushed`).
- Re-running Remediation Complete after a crash between candidate record and push converges if and only if the
  repaired head still has a Task diff and either nothing was committed on top of the PR head, or PR number, PR base
  and remote ref still are the ones the session froze. The uninterrupted run asks for neither, so after main moved
  (`Recovery.RecoveryRefusedAfterMainMoved`), or when the repair takes the whole Task back
  (`Recovery.RecoveryRefusedWithoutDiff`), the same call can succeed undisturbed and stop after a crash.
- The remote branch deletion of Closeout carries no lease. It is lossless if and only if the ref still is the merged
  head at the moment of the delete, which another writer can change after the last look
  (`Closeout.RacedDeletionLoses`).
- A legacy contract field that the canonical contract lacks is accepted and lost (`LiveStates.LegacyFieldLost`), and
  a legacy envelope field that contradicts the state goes unnoticed when the canonical envelope contract lacks it
  (`LiveStates.MaskedAccepted`); everything else that is read is printed again without a contradiction.
- A green required check that only shows up behind the fiftieth rollup entry counts as missing
  (`Checks.BeyondTheView`).
- The record of a Research PASS is accepted again if and only if its changed files were listed sorted, distinct and
  stripped (`Research.PassRecordAccepted`, `Research.UnsortedPassRefused`).
- `#` marks followed by two or more blanks and nothing else are read as a heading with an empty name, by one
  blank they are no heading (`Markdown.AtxHeading`); section 4.2 of the CommonMark Spec 0.31.2 has an empty
  heading in both cases.

## Model

| member | source | states |
|---|---|---|
| Refresh.CandidateRefresher.Refresh | tools/lck/refresh.py:685-974 | Every exit, with any interference: a stop whose rollback succeeded left workspace and store as they were and this run's candidate is not the last remote write, or keeps the candidate with the boundary for exactly that head; ALREADY_CURRENT changes nothing, on a head that contains a main seen during the call; READY_FOR_FRESH_REVIEW has the boundary, a validated candidate that contains the frozen main, and the open PR was seen on that head and main after the boundary was stored. With no other writer and no failing clean-up command a conflict, a failing gate, a rejected push or a lagging PR never ends in a failed rollback. Undisturbed and eligible, it reaches READY_FOR_FRESH_REVIEW, or ALREADY_CURRENT if and only if the head contains main |
| Refresh.CandidateRefresher.Attempt | tools/lck/refresh.py:706-946 | What the guarded block promises the rollback on each of its exits: which of branch, boundary and remote it may have touched, and that an outcome "not on remote" is true of the remote ref |
| Refresh.CandidateRefresher.RollBack | tools/lck/refresh.py:947-972 | Boundary, branch and HEAD go back only when the candidate is provably not on the remote; otherwise nothing is touched, and restoring the prior boundary uncovers no head that owes a Review. It is done, with all three back, whenever there is no other writer and its own commands work |
| Refresh.CandidateRefresher.PushExactLease | tools/lck/refresh.py:409-516 | The only candidate push, and none at all when the ref has left the start head: normal return if and only if the outcome is "updated"; every other outcome is matched by its receipt, and "not on remote" is never said while the candidate is the last write |
| Refresh.CandidateRefresher.ObserveFailedPush | tools/lck/refresh.py:429-501 | After a failing push command the remote ref decides: candidate, start head, third head and failed read lead to four different outcomes and receipts |
| Refresh.CandidateRefresher.CompensatePostPushFailure | tools/lck/refresh.py:518-579 | Compensation is reported done or overtaken only when this run's candidate is no longer the last write; one receipt is added and it says the same |
| Refresh.CandidateRefresher.ObserveFailedCompensation | tools/lck/refresh.py:566-579 | A failed compensating push is classified by reading the ref again; an absent ref proves nothing |
| Refresh.CandidateRefresher.ConfirmOrCompensate | tools/lck/refresh.py:893-925 | After a landed push: final identity proved, or compensation attempted and the push outcome set so that the rollback after it restores exactly when it may |
| Refresh.CandidateRefresher.Publish | tools/lck/refresh.py:886-925 | The boundary for the candidate is stored before the push, stays while the candidate may be on the remote, and the local workspace is untouched |
| Refresh.CandidateRefresher.RestoreOriginal | tools/lck/refresh.py:261-296 | Success proves the exact clean start workspace with no Git operation left; a foreign operation or a dirty candidate workspace is left exactly as it is; from a clean Task branch at any commit, or from a stopped rebase of ours, it succeeds whenever its commands do |
| Refresh.CandidateRefresher.Rebase | tools/lck/refresh.py:797-843 | A candidate that is new, clean, contains frozen main and keeps a Task diff; a rebase that does not complete is undone, or left to the rollback |
| Refresh.CandidateRefresher.VerifyPrePush | tools/lck/refresh.py:581-635 | Before the push one new snapshot shows body, main, PR number, base and head, remote ref as frozen and the local branch at the candidate, and main and the PR are read once more after that; undisturbed it accepts if and only if all of it still stands |
| Refresh.CandidateRefresher.VerifyMainAndPr | tools/lck/refresh.py:871-884 | Main was seen again at the frozen commit during this call, and the PR last seen is the frozen one, open on the start head |
| Refresh.CandidateRefresher.VerifyFinal | tools/lck/refresh.py:637-683 | The same after the push, with the candidate as local, remote and PR head and this run's boundary stored |
| Refresh.CandidateRefresher.Admit | tools/lck/refresh.py:706-767 | No session and no Review handoff, eligible, exact clean start, prior boundary read; nothing is written |
| Delivery.DeliveryCompleter.CompleteFromSnapshot | tools/lck/delivery.py:430-629 | With any interference, a handed-off head carries the tree the gates ran on, formal validation ran on what they left, and the head is the snapshot head or its child, on a clean worktree; since the call began the remote ref was seen at it and an open PR was seen on it and on the snapshot's main. No draft PR is delivered to, and a repair goes only to the PR of the snapshot. Undisturbed it succeeds if and only if the Task is deliverable (`Deliverable`, `DeliverableTask`, Task diff included), passing only through the listed durable states |
| Delivery.DeliveryCompleter.BuildHead | tools/lck/delivery.py:482-545 | Clean path: the existing head, with a Task diff, revalidated. Dirty path: one commit on the snapshot head with exactly the staged and gated tree; formal validation ran on what the gates left |
| Delivery.DeliveryCompleter.CommitCurrentTree | tools/lck/effects.py:317-372 | Nothing is committed on another head or of another index; after the commit parent, tree and cleanliness are as validated, whatever hooks did |
| Delivery.DeliveryCompleter.StageCandidateTree | tools/lck/effects.py:240-270 | The index becomes the whole worktree and differs from HEAD |
| Delivery.DeliveryCompleter.ValidateTree | tools/lck/delivery.py:516-535 | Gates ran on this tree, formal validation on exactly what the gates left, and worktree, index and HEAD are this tree and head afterwards |
| Delivery.DeliveryCompleter.RecordCandidate | tools/lck/review_workspace.py:804-844 | Only the session of the same Review and start head takes the candidate, and one that owns another candidate refuses; recording the same again changes nothing |
| Delivery.DeliveryCompleter.EnsureRemoteBranch | tools/lck/effects.py:464-569 | The remote ref becomes the validated head without force; undisturbed if and only if the remote head is absent or an ancestor |
| Delivery.DeliveryCompleter.PushAndProve | tools/lck/effects.py:534-569 | A zero exit is not enough: branch, HEAD and remote ref are read again |
| Delivery.DeliveryCompleter.PrOnHead | tools/lck/effects.py:681-758 | A repair must be on the snapshot's own OPEN, non-draft PR, on the same base, with the pushed head; Delivery opens one only when there is none |
| Delivery.DeliveryCompleter.HandOff | tools/lck/delivery.py:556-616 | PR, checks, status and local postcondition follow the push; the delivered branch is clean at the pushed head |
| Remediation.RemediationPreparer.Prepare | tools/lck/remediation.py:204-297 | Only behind the latest FAIL (a record here must be the latest one and say FAIL; without one portable findings are needed) and no outstanding boundary; changes nothing but the session and the selected branch, and the session freezes exactly the PR target. Undisturbed it succeeds if and only if `Preparable` |
| Remediation.RemediationPreparer.WriteSession | tools/lck/review_workspace.py:784-802 | A session of the same Review and start head is replaced, any other one stays |
| Remediation.NothingToRepairAfterPass | tools/lck/remediation.py:100-109 | Once a PASS is the latest, no Review on record can be prepared for repair |
| Remediation.RemediationCompleter.StartHead | tools/lck/remediation.py:676-699 | The head a repair must leave behind: the session's start head, or without a session the head of the latest Review, which failed; nothing else begins, in both directions |
| Remediation.NoChangeCompleter.Complete | tools/lck/remediation.py:405-512 | A no-change close moves no ref and leaves a head that owes a Review only if that head has been reviewed; only receipt and session differ, replaying it changes nothing. Undisturbed it succeeds if and only if `Closable` |
| Remediation.RemediationCompleter.Complete | tools/lck/remediation.py:666-781 | The delivered head differs from the start head, is the session's own candidate if it had one, and stands behind a boundary when the session is gone; it was seen on the remote ref and on the open PR of the snapshot; a local head ahead of the PR is accepted only as the recorded commit and tree descending from the start head; without a session the repaired Review is the latest one and failed. Undisturbed it succeeds if and only if `Completable`, with or without a session, and ends in `Finish` |
| Remediation.RemediationCompleter.RecoverOwned | tools/lck/remediation.py:604-664 | Owned recovery: exact candidate, exact prepared target, clean Task branch, descendant of the session start |
| Remediation.RemediationCompleter.CloseSession | tools/lck/remediation.py:775-776 | Boundary first, then the session; between the two writes both are there |
| Recovery.CrashRecovery | tools/lck/remediation.py:666-776 | For every durable state an undisturbed completion passes through, with or without a session: re-running it succeeds if and only if `Resumable`, and then ends in the same state as the uninterrupted run |
| Recovery.ResumeRecorded | tools/lck/remediation.py:604-664 | Recorded but not pushed: resumed if and only if there is a Task diff, and nothing was committed or the prepared target is unchanged |
| Recovery.ResumeBuilt | tools/lck/delivery.py:536-548 | Committed but not recorded: the run stops unless the session already owns that very commit, its target is unchanged and there is a Task diff |
| Recovery.ResumeDelivered | tools/lck/delivery.py:482-487 | Pushed but not closed: resumed, to the same end, if and only if there is a Task diff |
| Recovery.StopsBounded | tools/lck/remediation.py:676-679 | Once the boundary is written no Remediation completes |
| Recovery.RecoveryRefusedAfterMainMoved | tools/lck/remediation.py:621-639 | A concrete Task on which the uninterrupted run succeeds and the re-run after a crash stops, whatever the diffs |
| Recovery.RecoveryRefusedWithoutDiff | tools/lck/delivery.py:482-487 | A concrete repair that takes everything back: the uninterrupted run succeeds, the re-run stops even with the head pushed, although the prepared target is unchanged |
| Recovery.CompleteAlone | tools/lck/remediation.py:666-781 | The modelled operation itself, undisturbed, against `Completable`, `Finish` and `CompletionStops` |
| Recovery.CrashAndRerun | tools/lck/remediation.py:666-781 | Run, crash after any write, run again: same end whenever the second run is done, and when that is |
| Review.ReviewPreparer.Prepare | tools/lck/review.py:173-371 | A handoff has a fresh id and a guard for exactly the PR, head, base and body that this process saw and whose validation has just passed and whose profile accepts it; records, latest pointer, boundary and session are untouched on every exit. A claim that was not taken changes nothing, a Review that still has guard and clone is never taken over, and a claim of a failed Prepare is given back unless removing the clone or the claim failed. Undisturbed it succeeds if and only if `Reviewable`, on the live target |
| Review.ReviewPreparer.Seal | tools/lck/review.py:295-337 | Guard before handoff marker, both for one fresh id; no other marker changes |
| Review.ReviewCompleter.Complete | tools/lck/review.py:475-679 | A verdict takes effect only for the sealed target while it is the live one, the profile accepting it, a PASS only with a green strict check gate; once done, record and latest pointer say this verdict on exactly the live PR, head, base and body, and boundary, guard and claim are gone; whatever prefix of the writes survives, `Halfway` holds; a stale target decides nothing and ends the invocation. Undisturbed it succeeds if and only if `Acceptable` |
| Review.RecordSays | tools/lck/review.py:590-652 | The record is this verdict on the sealed PR, head, base and body; only the artifact may be the one that the profile binds |
| Review.ReviewCompleter.Compare | tools/lck/review.py:526-555 | One fresh snapshot decides between applies, stale and refused |
| Review.ReviewCompleter.WriteVerdict | tools/lck/review.py:650-652 | Record, latest pointer, boundary, in this order, so the boundary never goes before the other two are there; afterwards no remote head owes a Review |
| Review.ReviewCompleter.EndInvocation | tools/lck/review.py:670-681 | Clone, guard and only the claim of this very Review are dropped; verdicts stay |
| Review.VerdictResumes | tools/lck/review.py:650-653 | A crash after any verdict write leaves an invocation that completes again to the same store |
| Review.RecordWritten | tools/lck/review_workspace.py:702-714 | Writing a record for a guarded target, even over an earlier one, keeps every record backed by its guard |
| Review.MergePreflight.Run | tools/lck/review.py:843-922 | READY_FOR_HUMAN_MERGE only if the latest pointer and its record say PASS with the number, head and base of the live PR and the live body, a target some Review Prepare sealed, the strict check gate is green for that PR and it is mergeable; each of these facts was true at some moment of the call; a PR on another head than the latest record's never gets there; undisturbed if and only if `Mergeable` |
| Review.MergePreflight.PassGate | tools/lck/review.py:700-768 | The gate on the latest PASS, in both directions: pointer and record say PASS, the profile still accepts it, and PR number, head, base and body of the record are the live ones |
| Protocol.InvUnderRely | tools/lck/refresh.py:409-428 | No move of an independent writer breaks the invariant |
| Protocol.InvAfterCrash | tools/lck/review_workspace.py:740-859 | The durable part of any sound state is sound again |
| Lifecycle.Run | tools/lck/review.py:843-922 | Any operations in any order, with agent edits, other writers and crashes anywhere: the invariant holds throughout, a remote head that owes a Review is covered, and READY_FOR_HUMAN_MERGE rests on green checks and on the still latest PASS, whose record has the number, head, base and body that the PR and the Issue showed during the check and whose target was sealed in this very run, by a process that had seen the PR open on it and then passed its validation |
| Lifecycle.RefreshWritesExactly | tools/lck/refresh.py:409-579 | While Refresh has a candidate, LCK writes the remote ref only from start head to candidate or back, with the boundary for that candidate stored; the candidate then owes a Review |
| Lifecycle.DeliveryWritesExactly | tools/lck/effects.py:464-569 | Every other LCK write of the remote ref goes from an ancestor to the snapshot head or its child, carrying the gated tree; a session's own candidate then owes a Review |
| Lifecycle.PushedTreeValidated | tools/lck/delivery.py:482-554 | For every head pushed forward or by Refresh, in any run: the gates ran on exactly its tree at an earlier step, formal validation ran after them on what they left, and so on the pushed tree if and only if that is what they left |
| Lifecycle.UnseenTreePushed | tools/lck/delivery.py:516-535 | A concrete run, from the gates on, that passes the check after validation and pushes a tree formal validation never saw |
| Lifecycle.RemoteOnlyAdvances | tools/lck/effects.py:520-543 | Between moves of other writers and Refresh exchanges, the remote Task ref only moves to descendants |
| Lifecycle.OwedHeadCovered | tools/lck/remediation.py:734-776 | From its push on, through crashes, until a verdict on that very head is written after the push: a boundary or an open session with another start head stands in the way |
| Lifecycle.RecordBacked | tools/lck/review.py:295-337 | A record written in a run is about a target that an earlier step of the run sealed, after an earlier step still had passed its validation and the PR had been open on it |
| Lifecycle.SealedValidated | tools/lck/review.py:222-337 | Behind every seal of a run stand, in order, the open PR, the passing Review validation on its base and head, and the seal, the last two by one process that lost nothing in between |
| Lifecycle.BoundaryLifted | tools/lck/review.py:650-652 | A boundary set at one step and gone at a later one: Refresh undid its own, or a verdict was written in between by the Review that had become the latest |
| Lifecycle.LiftedBehindVerdict | tools/lck/review.py:650-652 | At the very step a boundary goes, unless Refresh undoes its own: the process has written the latest verdict while this boundary stood, and no remote head owes a Review |
| PrepareClaims.InvThroughout | tools/lck/review_workspace.py:571-685 | Lock, marker, guards and clones fit together in every state of every run, processes dying anywhere |
| PrepareClaims.OneClaimant | tools/lck/review_workspace.py:571-661 | At most one live process between taking and giving back the lock, and while it prepares the marker is its own |
| PrepareClaims.NeverReclaimed | tools/lck/review_workspace.py:620-634 | A handed-off review whose guard and clone exist is never taken over, by any number of later attempts, until it is released by its own id |
| PrepareClaims.HandoffKept | tools/lck/review_workspace.py:663-685 | The same for one step: only the release of that review id removes the marker |
| PrepareClaims.ClaimExactly | tools/lck/review_workspace.py:571-658 | An undisturbed attempt claims if and only if there is no marker, or its owner is dead and guard or clone is missing; otherwise it leaves everything as it was |
| Snapshots.Acquire | tools/lck/state.py:796-820 | Facts are read one after the other while writers move: each was true at some moment of the acquisition, and the remote ref as read is still the current one if its head owes a Review |
| Snapshots.RefreshStartsOn | tools/lck/eligibility.py:441-502 | Refresh starts on an OPEN, non-draft PR of this branch and repository on current main, with remote ref, branch and clean worktree all at its head, and on nothing else |
| Snapshots.RemediationWorksOn | tools/lck/eligibility.py:389-440 | Remediation works on an OPEN, non-draft PR on current main at the remote head; a local branch is at that head unless Complete recovers its own candidate; only Prepare can do without one checked out; in both directions |
| Snapshots.DeliveryWorksOn | tools/lck/eligibility.py:351-376 | Delivery Complete works on the checked out Task branch, and on no draft PR nor one that shows another head than the remote ref; in both directions |
| Snapshots.ReviewWorksOn | tools/lck/eligibility.py:377-388 | Review works on an OPEN, non-draft PR at the remote head, and looks at no local branch; in both directions |
| Closeout.Closer.Complete | tools/lck/closeout.py:624-741 | Every effect stands behind a merged PR and a latest Review that is a PASS whose record has the number, head and base of the merged PR and the current body; without that proof, as for any other merged head, nothing is written, moved or deleted. Deletions are lossless or else not at the merged head when the delete hit; the profile's field is written only with its completion value once main has the merge; the effects say what is complete; undisturbed COMPLETE if and only if `Finishable`; a second run after COMPLETE deletes, relabels, writes and moves nothing, even if its commands fail |
| Closeout.Closer.CleanTaskRefs | tools/lck/closeout.py:290-435 | No worktree on the branch, equal trees, then local and remote ref; every deletion is lossless if and only if the ref was the merged head by then, which closeout had seen it to be |
| Closeout.Closer.CleanRemote | tools/lck/closeout.py:374-435 | The remote ref goes only after it was seen at the merged head once more, and absence is proved; lossless if and only if it was still there when the delete hit |
| Closeout.LossNeedsRace | tools/lck/closeout.py:379-414 | Behind every deletion of anything but what was looked at there is an event in between that moved the ref |
| Closeout.RacedDeletionLoses | tools/lck/closeout.py:401-414 | A concrete run: seen at the merged head, moved on by another writer, deleted and lost |
| Closeout.Closer.SynchronizeMain | tools/lck/closeout.py:78-161 | Local main only moves forward, to a fetched main that contains the merge commit |
| Closeout.Closer.ConvergeMetadata | tools/lck/closeout.py:207-281 | Done and labels are written only where missing and proved by reading them back |
| Closeout.Closer.CompleteProfile | tools/lck/effects.py:150-211 | The profile's field is read, written only if it differs and once main has the merge, and proved by reading it back |
| Markdown.ExtractMarkdownSections | tools/lck/markdown_sections.py:51-125 | The two loops compute exactly the sections of the unfenced headings |
| Markdown.ScanHeadings | tools/lck/markdown_sections.py:69-89 | The line loop with its open fence, against the fold over the lines |
| Markdown.FindSectionEnd | tools/lck/markdown_sections.py:97-115 | The inner loop finds the first heading that ends a section |
| Markdown.SectionEndExactly | tools/lck/markdown_sections.py:97-115 | A section ends at the first later heading that is canonical or no deeper, or else with the body |
| Markdown.ExtractedExactly | tools/lck/markdown_sections.py:92-125 | The extracted sections are those of the unfenced headings asked for, each with the lines up to its end |
| Markdown.FenceLinesExactly | tools/lck/markdown_sections.py:30-48 | A fence opens with three or more backticks (no other backtick behind them) or tildes behind at most three blanks, and is closed by at least as many of the same marks and nothing else |
| Markdown.HeadingLinesExactly | tools/lck/markdown_sections.py:14-28 | A heading is one to six hashes behind at most three blanks and then a blank, unless nothing but that one blank follows |
| Markdown.FenceInsertion | tools/lck/markdown_sections.py:69-125 | A fenced block put at any unfenced position, whatever is in it, leaves names and levels of the extracted sections unchanged |
| Markdown.CanonicalRangesDisjoint | tools/lck/markdown_sections.py:97-125 | A section ends before any later canonical heading, whatever the levels |
| Markdown.CanonicalSplit | tools/lck/markdown_sections.py:97-125 | An unfenced canonical heading splits a body into two that are extracted independently |
| IssueForm.LoadIssueFormTemplate | tools/lck/issue_forms.py:77-138 | A template is usable if and only if all items are well formed and the required ids and labels are distinct up to case; the contract lists them in order, normalised |
| IssueForm.WellFormedExactly | tools/lck/issue_forms.py:98-123 | A required item needs a textarea, and an id and a label that are not blank; others need nothing |
| IssueForm.PassesExactly | tools/lck/issue_forms.py:141-231 | A body passes if and only if every required section occurs once, with content |
| IssueForm.ListsExactly | tools/lck/issue_forms.py:181-224 | A label is listed as missing, duplicated or empty if and only if no section, two of them, or one without content bears its name |
| IssueForm.ParseUndoesRender | tools/lck/issue_forms.py:141-231 | Filling in what a usable template asks for, rendering and parsing returns exactly the labels with their stripped contents, and passes if and only if none is blank |
| IssueForm.RenderThenExtract | tools/lck/markdown_sections.py:51-125 | The same for the extractor, over any canonical names that include the labels |
| Json.ThawFreeze | tools/lck/review_models.py:153-189 | Freezing loses nothing, and the frozen value is acceptable if and only if every number is finite |
| Json.FreezeThaw | tools/lck/review_models.py:153-189 | The other way round, for every acceptable frozen value |
| Contracts.ParsePrint | tools/lck/review_models.py:1688-1785 | For every shape and every valid value: parsing what it prints as gives the value back |
| Contracts.PrintParse | tools/lck/review_models.py:58-150 | For every shape: an accepted JSON value is valid and is exactly what its value prints as, no field more or less |
| Contracts.Deduplicate | tools/lck/review_models.py:122-128 | The duplicate loop accepts if and only if all values are distinct, and keeps their order |
| ReviewModels.ReceiptCodec | tools/lck/review_models.py:1688-1785 | Bijection for the run receipt, nested findings, frozen configs and recomputed status included |
| ReviewModels.PackageCodec | tools/lck/review_models.py:1462-1532 | Bijection for the evidence package |
| ReviewModels.PlanRules | tools/lck/review_models.py:597-681 | A plan requires the five surfaces that are always on and all that a risk triggered, and skips nothing it covers |
| ReviewModels.PackageRules | tools/lck/review_models.py:1416-1460 | No reference id stands in both lists of a package, and plan and risk profile name the same triggered and escalated surfaces |
| ReviewModels.FindingRules | tools/lck/review_models.py:1000-1061 | A verified finding is assessed as blocking or not if and only if it was confirmed |
| ReviewModels.OriginRules | tools/lck/review_models.py:805-815 | A finding names at least one run it comes from, each run id once |
| ReviewModels.TokenRules | tools/lck/review_models.py:1200-1210 | Input and output tokens add up to the total |
| ReviewModels.AuthorityRules | tools/lck/review_models.py:264-299 | Commits and diff of an authority are full lower-case hex hashes |
| ReviewModels.ReceiptStatus | tools/lck/review_models.py:1601-1686 | A valid receipt satisfies what completeness requires, and states the status that completeness gives |
| ReviewModels.CompleteExactly | tools/lck/review_models.py:1663-1682 | Complete if and only if every required surface is covered and each obligation has exactly one result, passing or not applicable, on required and covered surfaces |
| ReviewModels.OpenNeverComplete | tools/lck/review_models.py:1663-1682 | An obligation that failed, is pending or has no result rules completion out |
| ReviewModels.EveryIdFound | tools/lck/review_models.py:1664-1682 | The lookup by obligation id never misses, by counting |
| ReviewModels.SkippedNeverComplete | tools/lck/review_models.py:597-681 | Skipping a required surface rules completion out |
| Checks.NormalizeChecks | tools/lck/shared_facts.py:1319-1388 | The counting loop: full counts over all entries, but only the first fifty in the view |
| Checks.CountsSay | tools/lck/shared_facts.py:1345-1370 | A category is counted if and only if some mapping entry is in one of its states: SUCCESS and NEUTRAL succeed, five states wait, five fail, anything else is unknown |
| Checks.ObservedCategories | tools/lck/validation_gates.py:324-339 | The loop over the view; the last entry of a name wins |
| Checks.EvaluatePrChecks | tools/lck/validation_gates.py:357-432 | Reported state and order of refusals of the strict gate |
| Checks.StrictExactly | tools/lck/validation_gates.py:357-454 | The strict gate passes if and only if every entry is successful and every required name is among the first fifty; the reported state says so in the same cases |
| Checks.BeyondTheView | tools/lck/validation_gates.py:357-432 | A green required check behind the fiftieth entry is refused as missing |
| Checks.ParseRequiredChecksWorkflow | tools/lck/state.py:569-659 | A workflow is accepted if and only if it has jobs, all static, no two under one name; the names are the jobs' own, in order |
| Checks.CheckNameExactly | tools/lck/state.py:607-640 | A job reports under its stripped name, or else its id, if it has an id and no matrix, neither is blank, and there is no expression in it |
| Checks.RequiredCheckContract | tools/lck/state.py:718-766 | A stored policy is accepted if and only if source, hash and distinct non-empty names are right |
| Checks.ParsedIsValid | tools/lck/state.py:569-766 | Whatever the parser emits, the validator accepts with the same names |
| Checks.BindRequiredChecks | tools/lck/state.py:822-855 | Binding succeeds if and only if the base workflow is supported or the bound policy valid, and changes nothing else of the snapshot |
| Checks.StrictGate | tools/lck/validation_gates.py:357-454 | Bind and evaluate, end to end: an unbound snapshot passes if and only if the workflow at its base is supported, every mapping entry of the rollup says SUCCESS or NEUTRAL, and every job of that workflow reports among the first fifty of them |
| Checks.OtherStateRefused | tools/lck/validation_gates.py:416-432 | One failed, cancelled, waiting or unknown entry is enough to refuse |
| Checks.SameAnswer | tools/lck/state.py:695-855 | Two candidates on one base with the same rollup get the same answer, whatever their heads |
| Checks.Evaluate | tools/lck/validation_gates.py:434-454 | Strict evaluation of a whole snapshot, both directions |
| Research.PassRecordAccepted | tools/lck/profile_policies.py:2024-2139 | The record of a PASS is accepted unchanged if and only if its changed files are sorted, distinct and clean; otherwise it is not accepted |
| Research.PassRecordExactly | tools/lck/research_policy.py:451-569 | A PASS is recorded if and only if all changed files are allowed artifacts and an outcome is declared or stated, known, and the same if both are given; the record binds exactly these files and that outcome |
| Research.UnsortedPassRefused | tools/lck/profile_policies.py:2024-2139 | Two concrete artifacts out of order: the PASS is recorded and its record is not accepted |
| Research.AcceptedTwice | tools/lck/profile_policies.py:2024-2139 | Resolving an accepted record again changes nothing |
| Research.AcceptedSays | tools/lck/profile_policies.py:2024-2139 | An accepted record is a PASS whose valid evidence shows a typed outcome on exactly the reviewed identity, with exactly the changed files, their digests and hash; the record itself agrees, or has no outcome yet and agrees in the rest |
| Research.PendingRepaired | tools/lck/profile_policies.py:2116-2139 | A PASS record without an outcome whose evidence has one is accepted with that outcome |
| Research.OnlyOutcomeChanges | tools/lck/profile_policies.py:2024-2139 | Only outcome and outcome status may differ from the stored record, and they are the evidence's |
| Research.CompletionBound | tools/lck/profile_policies.py:1478-1632 | The completion effect carries the outcome of the reviewed artifact if the merged PR is the reviewed one, and nothing for any other merge |
| Research.CompletionNeeds | tools/lck/profile_policies.py:1478-1632 | There is something to write only when record, artifact and merged PR agree on Task, PR, base, head and body, and the identity of the record has that very artifact |
| Research.CanonicalExactly | tools/lck/research_policy.py:482-546 | A file list is its own normal form if and only if it is sorted, distinct, clean and has no empty path |
| Branches.OneOwner | tools/lck/models.py:365-391 | No branch name belongs to two profiles or two Issue numbers |
| Branches.TaskBranchExactly | tools/lck/models.py:365-373 | A Task owns exactly task/N and task-N, with or without a suffix, and N with one |
| Branches.ProfileBranchExactly | tools/lck/models.py:376-391 | Any other profile owns exactly its directory, number, dash and slug |
| Branches.CanonicalIsRecognised | tools/lck/issue_profiles.py:307-319 | The branch derived from any title is recognised as its own Issue's |
| Branches.SlugBounded | tools/lck/issue_profiles.py:307-319 | The slug has the words of the title, at most twelve, and is the kind of the profile when there are none |
| Branches.DecimalInjective | tools/lck/models.py:365-391 | Different numbers have different numerals |
| LiveStates.StateRoundTrip | tools/lck/models.py:727-812 | A serialised live state is read back without a conflict, is valid, and serialises to the same again |
| LiveStates.ReadExactly | tools/lck/models.py:467-507 | A payload is read if and only if some valid state explains it: printing that state gives every value the payload gives and contradicts no legacy one; all such states print alike |
| LiveStates.ReadableExactly | tools/lck/models.py:467-507 | A payload is read if and only if no field contradicts its legacy name, the number is a number, a contract a mapping, lists are lists and a given status is known |
| LiveStates.ReadThenPrint | tools/lck/models.py:727-812 | A state printed right after it was read has the canonical value where one was given and agrees with the legacy one on every shared key; the printed legacy contract agrees if and only if no projected key was only in the legacy contract |
| LiveStates.LegacyFieldLost | tools/lck/models.py:484-496 | A concrete payload whose legacy title is accepted and gone when printed |
| LiveStates.SnapshotRoundTrip | tools/lck/models.py:919-1003 | The same for an operation snapshot and its envelope |
| LiveStates.SnapshotReadExactly | tools/lck/models.py:945-1003 | An envelope is read if and only if some valid snapshot explains it, its state included |
| LiveStates.SnapshotReadThenPrint | tools/lck/models.py:945-1003 | A snapshot printed right after it was read agrees with every canonical value of the envelope, and with a legacy one if and only if it was not masked |
| LiveStates.MaskedAccepted | tools/lck/models.py:956-986 | A concrete envelope whose legacy title contradicts the state and is accepted |

## Left out

Assumptions of the model:

- Operations on one Task are serialised by `TaskOperationLock`; the lock itself is not modelled. Review Prepare processes, which also race for their own lock, are (`PrepareClaims`).
- A command that has returned has no later effect, and a zero exit of a push proves its write; a non-zero exit proves nothing. Exceptions arise at command results, not inside a running command.
- Hashes are uninterpreted: a commit id is the commit's content, body, diff and artifact hashes are numbers, and whether a Task diff is empty is a function of base and head. A commit created by `git commit` differs from the session's start head. Collisions of fresh ids are excluded.
- Undisturbed, `git commit` of the same tree on the same parent makes the same commit. Real commits carry the time, so where a re-run has to commit again, "the same final state" is up to the id of that one commit.
- Guards that are not identity arithmetic (profile, labels, blockers, Project Status, PR base branch name) are one flag of the snapshot that any acquisition may set or clear; object fetches, merge bases and diff probes are commands that succeed or fail. That a command without a modelled effect is run at all is not claimed, only that none that ran has failed.
- Whether a profile accepts a Review target or a verdict on it is a function of the identity and the verdict (`Target.accepts`).
- A crash goes back to the durable part of any state the run has been in.

Not modelled:

- Running subprocesses, timeouts, progress, GraphQL and `gh` texts, argument parsing, receipt rendering: plumbing.
- Clone and chmod mechanics of the Review workspace, beyond "the clone exists".
- Reading marker files that were edited by hand: the strict parsing of stored guards, records and sessions, and sessions that have no operation id yet.
- The Project Status writes of Delivery, and the lookup of Project items and fields behind a field write.
- Mutual exclusion of an open Remediation session and a handed-off Review is not claimed: Remediation Prepare does not look at the Review marker.
- Convergence after a crash between commit and record, and between boundary and session clear: re-running stops there, which is what is proved.
- YAML and Unicode: templates and workflows are parsed values; casefold, upper, str() and redaction are parameters; titles are ASCII and casefolded already; a body is the sequence of its lines.
- JSON key order, rounding of floats, and bool as a kind of int; object keys are the contract field names plus arbitrary others.
- That the field lists in a Review contract's printer, in its parser and in its constructor call are the same: each class has one list here.
- The stack inspection of the legacy constructor path for `dataclasses.replace`.
- `src/tracequant`, the skill and feature audits, and the Bug and Documentation policies.

Members that state less than one might look for:

- Remediation.RemediationCompleter.Complete: the path without a session records no candidate, so its pushed head is not among those that owe a Review.
- Delivery.DeliveryCompleter.CompleteFromSnapshot: Delivery Complete itself looks at neither boundary nor session, so a Delivery push of anything but the open session's own candidate is not covered by them.
- Protocol.InvAfterCrash: the clone of a Review and files outside the worktree are not part of the durable state.
