# Verified model of the examination board services

This project models the item bank, the sitting lifecycle, the edge rate limiter and the audit
trail of the examination platform, and proves what their code promises over all inputs and over
whole runs of calls. `dafny verify dfyconfig.toml` checks all of it.

How it is laid out:

- `Decimals`, `Selector`, `SelectorLaws`, `SelectorOrder` - the greedy bucket selector of rule-based papers. The
  `while` loop is a method proved against the function `Greedy`; the laws say when the selector
  fails (exactly when the eligible pool lacks marks for some difficulty or topic), that order
  never matters to that verdict, how far a selection's marks can be from the paper total, and, read
  off the pool alone, which item every step takes.
- `ItemWorkflow`, `ItemLaws`, `ItemSteps` - one bank item: drafts, versions, restore, bulk retag, review and
  panel votes, with the invariants of every run of calls.
- `PaperRules`, `PaperConstruction`, `PaperLaws`, `PaperRecords`, `PaperLimits` - the gates of a paper, manual and
  rule-based construction over the bank, the whole-run result that papers stay true in every later
  state, and what bulk retags can still undo.
- `SittingLifecycle`, `SittingLaws`, `SittingSteps`, `SittingLimits`, `LockMonitor` - draft to closed, the T-30 lock,
  both kinds of amendment, the event history, the frozen snapshot and the daily monitor. The limits
  say exactly what an approval covers and what a resolution amendment leaves in order.
- `Coverage`, `Variants` - the blueprint coverage validator and the seeded variant generator.
- `EdgeRateLimit`, `EdgeRuns` - counters and sentinels of the edge limiter over Django's local-memory cache,
  which is the cache in force because the settings configure none.
- `AuditChain`, `AnchorRuns`, `Outbox` - the hash chain, the daily anchors, runs that record and
  anchor on one clock, and the outbox relay.

Conventions. Every service call is one atomic step; a call that raises leaves the state as it
was. Each class method is proved equal to a step function on values, and the laws are about runs
of that function. Marks and pass marks are integers in hundredths. Percentages, shares and clock
times are exact reals or integers. Preconditions named `Typed...`, `Answered` and `ValidInput` are
what the request serializers and the column types demand (marks null or at least 0.01, distinct
dictionary keys, non-negative percentages, non-blank sitting references), plus the fact that a query
result is an answer of its query. Only the amendment payloads are more typed here than in the
requests (see the end). The hash, the seed digest and the random generator are arbitrary functions.

Where code and documentation differ, the model follows the code:

- The limiter's documentation allows up to twice the threshold across a window boundary. The
  exact bound is max(T, 2T - 2); `WindowBound` proves it and `BoundIsReached` shows it is reached
  for every T of two or more.
- The limiter's documentation says a throttled address is refused for the remainder of the window.
  The code refuses it for exactly 15 minutes from the breach (`RefusedIff`); that outlasts the
  counting window unless its first and last rejections came at one moment
  (`RefusalOutlastsWindowIff`), as the run of `RefusedPastWindow` shows.
- A comment in the resolution amendment says the sitting cannot land in an inconsistent state.
  `ResolutionKeepsReadyIff` gives, for any amendment, the exact condition under which it stays
  ready; `LockedCanLeaveBand` is a whole run from a new sitting that breaks it.
- An approval survives later edits of the sitting (`ApprovalSurvivesEdit`). What is locked is what
  was approved when no edit is accepted in between (`UneditedLocksApproved`), and after one edit
  exactly when it changes nothing (`FieldEditKeepsApprovedIff`, `PaperEditKeepsApprovedIff`,
  `ReplacementIsNeverApproved`). `LockedIsNotApproved` is a run in which they differ.
- The cool-down promises sittings in between. The query orders by latest use and leaves ties open,
  so the sittings in between are strictly later if and only if none of the recent ones ties with
  the earlier use (`CooldownSpacesStrictlyIff`; `TieIsNotStrict` is a tie).
- A bulk retag moves the topics of locked items, so a finished paper can fall short of its
  blueprint. `PaperCoverageIff` says exactly when it still covers it, over every run since it was
  built, and `CoverageIsLost` is a run from the empty bank in which it does not.
- The replay documentation reads a mismatch as tampering or drift of the pool. The pool query fixes
  no order, and the replay matches if and only if the query lists the same ids in the same order
  (`ReplayIff`; `SameItemsCanMismatch` has neither tampering nor drift).

## Model

| member | source | states |
|---|---|---|
| Decimals.RoundHalfUp | apps/itembank/services.py:1400-1411 | the result is the nearest whole hundredth, ties going away from zero, for either sign |
| Decimals.TargetSumError | apps/itembank/services.py:1400-1411 | rounding every entry of a percentage dictionary moves the sum of the targets by at most half a hundredth per entry, either way |
| Selector.SortIsDescending | apps/itembank/services.py:1397-1398 | the bucket sort leaves the most valuable items first |
| Selector.BestIsFirstMaximum | apps/itembank/services.py:1417-1430 | the bucket scan finds nothing exactly when no non-empty bucket is needed, and otherwise the first non-empty bucket with the highest score |
| Selector.SelectItemsForConstraints | apps/itembank/services.py:1379-1472 | the selector's loop over buckets popped in place ends, and returns the items, marks and messages of the greedy run |
| Selector.GreedyRun | apps/itembank/services.py:1417-1445 | every run ends with nothing that helps any more, no item lost or invented, and each requirement at max(0, target - marks selected for it) |
| Selector.EveryPickKeeps | apps/itembank/services.py:1417-1445 | after every iteration of the loop each requirement equals max(0, target - marks selected so far for it), no bucket item is lost, and the selection so far is a prefix of the final one |
| Selector.ReportsAreAccurate | apps/itembank/services.py:1460-1471 | each message names the slot's target and the marks found for it, which are less |
| Selector.VerdictIsExact | apps/itembank/services.py:1379-1472 | a difficulty or topic is reported as under-represented if and only if the marks of all eligible pool items for it sum to less than its rounded target |
| SelectorOrder.SelectionIsGreedy | apps/itembank/services.py:1417-1445 | the items are tops of the sorted buckets, and on a pool of distinct rows the right picks of the pool itself |
| SelectorOrder.FillIsShelved | apps/itembank/services.py:1388-1395 | filling leaves one bucket per difficulty and topic, each with exactly its eligible items in pool order, the buckets in the order in which their pairs first occur |
| SelectorOrder.SortIsOrdered | apps/itembank/services.py:1397-1398 | the bucket sort is by marks and stable |
| SelectorOrder.SelectionIsRight | apps/itembank/services.py:1379-1445 | read off the pool, without buckets: each pick is the item worth most of the difficulty and topic that lack most together, ties going to the pair, and within it the item, that comes first in the pool; the selector stops when nothing left is needed |
| SelectorOrder.SelectionIff | apps/itembank/services.py:1379-1445 | a sequence of items is the selection iff it satisfies that description, so it leaves nothing open |
| SelectorOrder.TargetIsShare | apps/itembank/services.py:1400-1411 | each target is the named share of the total, rounded half up |
| SelectorLaws.SelectionIsDistinct | apps/itembank/services.py:1388-1395 | a selection has no duplicate, takes pool items only, and none that was excluded |
| SelectorLaws.LargerPoolIsNeverShorter | apps/itembank/services.py:1379-1472 | enlarging the pool never makes a difficulty or topic short that was not |
| SelectorLaws.VerdictIgnoresOrder | apps/itembank/services.py:1379-1472 | the verdict depends on which items the pool holds and not on their order |
| SelectorLaws.SelectionFailsIff | apps/itembank/services.py:1379-1472 | the selector reports an error if and only if the eligible pool lacks marks for some slot |
| SelectorLaws.SuccessMeetsTargets | apps/itembank/services.py:1447-1472 | without messages every difficulty and topic reaches its rounded target |
| SelectorLaws.SuccessIsAtLeast | apps/itembank/services.py:1400-1445 | a successful selection totals at least total_marks - 0.005 * (number of difficulties) when the percentages add up to 100, and in general the asked share less the same slack |
| SelectorLaws.SelectionIsAtMost | apps/itembank/services.py:1417-1445 | successful or not, a selection never totals more than all positive targets plus one largest item for each of them |
| PaperRules.SumTopics | apps/itembank/services.py:1137-1140 | the dictionary built first holds exactly the marks per non-empty topic |
| PaperRules.ValidateBlueprint | apps/itembank/services.py:1123-1153 | accepts iff every topic of a known blueprint reaches its rounded target within tolerance |
| PaperRules.ReadSection | apps/itembank/services.py:1177-1190 | reading one section stops at the first id that was read before or is not in the paper, with the error that names it, and otherwise adds exactly its ids |
| PaperRules.ValidateSections | apps/itembank/services.py:1156-1211 | the error raised is that of the first fault in reading order; none is raised iff the non-empty sections hold each paper item exactly once and nothing else, declared marks are right, and the count matches the blueprint |
| PaperRules.SectionsAcceptedIff | apps/itembank/services.py:1156-1211 | the faults and the partition are the same thing: no section, id, mark, coverage or count fault iff the list is a partition |
| PaperRules.PartitionKeepsMarks | apps/itembank/services.py:1191-1206 | ids that list the items exactly once carry the items' total marks |
| PaperRules.DeclaredMarksAddUp | apps/itembank/services.py:1156-1211 | when all sections of an accepted list declare marks, these sum to the marks of the paper's items |
| PaperRules.RecentSittings | apps/itembank/services.py:1095-1107 | returns at most N distinct sittings other than the excluded one, newest first, and none that is newer is left out |
| PaperRules.ChecksAgree | apps/itembank/services.py:1110-1120 | the per-item cool-down check and the precomputed set are the same rule |
| PaperRules.CooldownSpaces | apps/itembank/services.py:1095-1120 | an item that passes the check but was used in another sitting is separated from that use by N distinct sittings, used no earlier, and strictly later iff none of the recent ones ties with it |
| PaperRules.CooldownSpacesStrictlyIff | apps/itembank/services.py:1095-1120 | N distinct other sittings have a strictly later latest use iff none of the recent sittings ties with the earlier use |
| PaperRules.TieIsNotStrict | apps/itembank/services.py:1104-1107 | two sittings used at one moment: the item passes the check and no sitting is strictly later |
| PaperRules.ClockMakesStrict | apps/itembank/services.py:1095-1120 | when no two sittings are used at one moment the spacing is strict |
| PaperConstruction.ItemBank.CreateManualPaper | apps/itembank/services.py:1224-1308 | the first failing rule is raised and changes nothing; otherwise the paper is added, with one usage row per requested item under the requested sitting and one access row for the user |
| PaperConstruction.ItemBank.FindCooled | apps/itembank/services.py:1270-1277 | finds a cooled-down item iff there is one |
| PaperConstruction.ItemBank.QueryPool | apps/itembank/services.py:1501-1506 | the pool lists each locked, same-subject, non-cooled item once and nothing else |
| PaperConstruction.ItemBank.PickAll | apps/itembank/services.py:1508-1554 | the loop over variants with a growing set of used ids yields the primary and all variants, or the first refusal |
| PaperConstruction.ItemBank.GeneratePaperRuleBased | apps/itembank/services.py:1475-1593 | whole outcome of a generation call: error and unchanged bank, or the paper and its variants, with new usage rows all under the requested sitting and access rows for the user |
| PaperConstruction.ItemBank.LogUse | apps/itembank/services.py:1291-1294 | appends one usage row, then one vault-access row, per item in order |
| PaperLaws.GenerationIsSound | apps/itembank/services.py:1508-1554 | primary and variants are duplicate-free, pairwise disjoint, from the pool, and each meets all targets, the blueprint, the tolerance and the time limit |
| PaperLaws.RuleBasedIsSound | apps/itembank/services.py:1475-1593 | a successful call adds one paper whose sets are sound, disjoint and drawn from locked same-subject items that are not cooled down, with exactly one usage row under the requested sitting and one access row per item used, in order |
| PaperLaws.PrimaryIsShortIff | apps/itembank/services.py:1508-1517 | the call is refused for its constraints on the primary iff the eligible pool lacks marks for some target |
| PaperLaws.PickedIdsDistinct | apps/itembank/services.py:1527-1554 | all ids of a generated paper, primary and variants together, are distinct |
| PaperLaws.OneRowPerItem | apps/itembank/services.py:1568-1579 | a commit appends exactly one usage row, under the sitting of the paper, and one access row for each listed item, in order, and none for others |
| PaperLaws.FrozenKeepsPaper | apps/itembank/services.py:94-113 | a paper stays true as long as no locked item changes in anything but tags |
| PaperLaws.PapersStayTrue | apps/itembank/services.py:1224-1593 | over every run of item calls, bulk retags and paper calls: manual papers sum exactly to their total and keep their sections a partition, generated papers and variants stay within tolerance, all within the time limit, items locked, variants disjoint, cool-down spacing kept |
| PaperLaws.ReachablePaper | apps/itembank/services.py:1244-1268 | the same for one paper of a reachable state, spelled out: totals, time, locked items, sections, every variant and their disjointness, spacing |
| PaperLaws.SpacingIsStrict | apps/itembank/services.py:1095-1120 | over every run in which no two sittings are used at one moment, the sittings between two uses of an item of a paper are strictly later |
| PaperRecords.ManualWrites | apps/itembank/services.py:1279-1294 | a successful manual call stores the columns of its request, and its k-th usage and access rows carry the k-th id, the requested sitting, the moment and the user |
| PaperRecords.RuleBasedWrites | apps/itembank/services.py:1556-1579 | the same for generation, over the primary and then each variant, with variants numbered from 2 |
| PaperRecords.UsageIsLedger | apps/itembank/services.py:1291-1294 | in every reachable bank the usage history and the access log list the items of all papers, paper after paper, each row under the sitting of its paper, and nothing else |
| PaperRecords.EveryItemIsRecorded | apps/itembank/services.py:1568-1577 | every item of the primary or a variant of a reachable paper has a usage row, from the moment the paper was built on, with that item and the paper's sitting |
| PaperRecords.EveryRowHasPaper | apps/itembank/services.py:1291-1294 | every usage row of a reachable bank belongs to a paper for that sitting that uses that item |
| PaperRecords.ManualSucceedsIff | apps/itembank/services.py:1224-1277 | a manual paper is built iff its items are distinct, locked, of the subject, sum exactly to the total, fit the time, cover the blueprint, are partitioned by the sections, and none was used in a recent sitting |
| PaperRecords.ManualErrorIsFirst | apps/itembank/services.py:1238-1277 | the error of a refused manual paper names a rule that fails while all earlier ones hold |
| PaperRecords.RuleBasedSucceedsIff | apps/itembank/services.py:1494-1546 | a paper is generated iff both distributions sum to 100 within a tenth, the number of variants is not negative, and selecting again and again from what is left yields that many accepted selections |
| PaperRecords.ChainIsGenerated | apps/itembank/services.py:1547-1566 | these selections are then the primary and the variants, with the marks of their own items |
| PaperRecords.RefusalIsFirst | apps/itembank/services.py:1511-1546 | the error for a refused selection is the first failing check, in the primary's order or the variants' order |
| PaperRecords.GenerationErrorIsFirst | apps/itembank/services.py:1494-1546 | a refused generation names the distribution, the count, or the refusal of the first selection that is not accepted |
| PaperRecords.SectionFaultIsTrue | apps/itembank/services.py:1171-1200 | a section fault is true: the section is empty, its marks differ, or it holds a repeated or foreign id, as the error says |
| PaperLimits.RetagKeepsCoverageIff | apps/itembank/services.py:430-450 | after a bulk retag of the topic a paper still covers its blueprint iff, topic by topic, the items left alone carry enough, the touched ones counted for the new topic |
| PaperLimits.RetagCanBreakCoverage | apps/itembank/services.py:430-450 | retagging all items of a paper away from a topic whose target exceeds the tolerance leaves it short |
| PaperLimits.RunTags | apps/itembank/services.py:430-450 | over any run a locked item stays locked, keeps its marks, and carries each tag as given to it last by an accepted retag |
| PaperLimits.CoverageOverRunIff | apps/itembank/services.py:1123-1153 | after any run a set of locked items covers a blueprint iff it did at the start with each item under the topic given to it last |
| PaperLimits.PaperCoverageIff | apps/itembank/services.py:1123-1153 | every paper of a reachable state was covered, variants included, by the call that built it, and is covered now iff its items cover the blueprint under the topics given to them last since then |
| PaperLimits.UntouchedPaperStaysCovered | apps/itembank/services.py:430-450 | over every answered run without an accepted topic retag of its items, a paper in the bank is covered at the end iff it was at the start |
| PaperLimits.SubjectOverRunIff | apps/itembank/services.py:1263-1264 | after any run all items of a set carry the subject iff it is the subject given last to each |
| PaperLimits.CoverageIsLost | apps/itembank/services.py:430-450 | ten literal calls from the empty bank: the paper covers its blueprint after the ninth and not after the tenth |
| ItemWorkflow.ItemRecord.constructor | apps/itembank/services.py:46-146 | a first draft has one version, number 1, that records its metadata |
| ItemWorkflow.ItemRecord.LatestVersion | apps/itembank/services.py:99-104 | returns a row of the history that no version number exceeds, or nothing when there is none |
| ItemWorkflow.ItemRecord.SaveDraft | apps/itembank/services.py:46-148 | only the author, in Draft or Revised, appends a version numbered one above the greatest with the given content, or else that of a version no number exceeds; any refusal changes nothing |
| ItemWorkflow.ItemRecord.RestoreVersion | apps/itembank/services.py:565-666 | only the author, in Draft or Revised, copies a version of this item to a new one with the next number and takes its metadata; any refusal changes nothing |
| ItemWorkflow.ItemRecord.SubmitForReview | apps/itembank/services.py:151-218 | with all mandatory metadata a Draft goes to Submitted and a Revised item to the panel, one log row each; any refusal changes nothing |
| ItemWorkflow.ItemRecord.TransitionTo | apps/itembank/services.py:221-335 | exactly three moves are legal, each with its own actor rule, and assigning sets a known reviewer without conflict who is not the author; any refusal changes nothing |
| ItemWorkflow.ItemRecord.RegisterVote | apps/itembank/services.py:835-959 | one vote of at least thirty words per panellist; the second approval locks the item through Approved, the second rejection rejects it; any refusal changes nothing |
| ItemLaws.CreateIsSane | apps/itembank/services.py:46-146 | a created item satisfies the invariant |
| ItemLaws.RunKeepsInv | apps/itembank/services.py:46-335 | in every run: versions 1..n without gaps and the current one last, the transition log a linked path from Draft to the status, at most one approval and one rejection in the panel, reviewer assigned and not the author |
| ItemLaws.VersionsAreAppendOnly | apps/itembank/services.py:565-666 | old versions never change over any run |
| ItemLaws.RestoreBringsBack | apps/itembank/services.py:615-653 | restoring version k gives exactly its content, assets and metadata under the next number |
| ItemLaws.TimeTravelOverRun | apps/itembank/services.py:565-666 | restoring k after any run gives what k recorded before the run |
| ItemLaws.OnlyRetagsDrift | apps/itembank/services.py:99-146 | without bulk retags the metadata is always that of the current version |
| ItemLaws.DriftIsOnlyTags | apps/itembank/services.py:430-450 | with bulk retags interleaved only the six tags can differ from the current version |
| ItemLaws.ThirdVoteDecides | apps/itembank/services.py:888-936 | a third accepted vote locks the item if it approves and rejects it otherwise |
| ItemLaws.PanelIsSmall | apps/itembank/services.py:888-936 | an undecided panel holds at most two votes, a decided one two or three |
| ItemLaws.LockedWasEarned | workflow/guards.py:19-43 | every locked item went the whole path, has two approvals by different panellists of at least 30 words, at most one rejection, a reviewer who is not its author, and positive marks and time |
| ItemLaws.LockedIsAbsorbing | apps/itembank/services.py:94-113 | no run changes anything of a locked item but its tags |
| ItemSteps.SaveIff | apps/itembank/services.py:71-146 | a save is accepted iff it comes from the author of a draft or revised item; the new version has the next number, the given content and assets or those of the version before, and a snapshot of the columns it leaves |
| ItemSteps.CreateIff | apps/itembank/services.py:115-146 | a first draft needs content and has version 1 with its columns |
| ItemSteps.RestoreIff | apps/itembank/services.py:595-653 | a restore is accepted iff it comes from the author of a draft or revised item and names one of its versions; it copies all but id, number and saver |
| ItemSteps.RetagLeaves | apps/itembank/services.py:443-450 | a bulk retag sets the named tags in every status and nothing else |
| ItemSteps.ContentIsGivenLast | apps/itembank/services.py:99-146 | over every run the newest version carries the content and assets given or restored last |
| ItemSteps.SubmitIff | apps/itembank/services.py:165-206 | a submission is accepted iff it comes from the author of a draft or revised item with six tags that say something and marks and time set; one log row names the actor |
| ItemSteps.MoveIff | apps/itembank/services.py:246-316 | exactly three moves are accepted, each iff its actor rule holds, and each is logged with its actor |
| ItemSteps.VoteIff | apps/itembank/services.py:845-936 | a vote is accepted iff the item is with the panel, has thirty words, and is the panellist's first; two different approvers lock the item, two different rejecters reject it |
| ItemSteps.RunKeepsLoggedBy | apps/itembank/services.py:246-316 | over every run the author drafted, revised and submitted the item, and the last voter logged its decision |
| SittingLifecycle.SittingRecord.Update | apps/sitting/services.py:264-298 | an edit that sets a pass mark outside the band, leaves the compensation rule incomplete, or meets a lock changes nothing; an accepted one drops a configured sitting to draft |
| SittingLifecycle.SittingRecord.AddOrUpdatePaper | apps/sitting/services.py:301-377 | at most five papers, one per subject code; band and section sums are enforced before anything is written; an accepted one drops a configured sitting to draft |
| SittingLifecycle.SittingRecord.DeletePaper | apps/sitting/services.py:380-408 | removes exactly one paper, keeps the order of the others, and drops a configured sitting to draft; refused after the lock |
| SittingLifecycle.SittingRecord.ValidateComplete | apps/sitting/services.py:198-241 | the loop finds no problem iff five papers, bands, section sums, blueprints, compensation and dates are all in order |
| SittingLifecycle.SittingRecord.ConfigureSitting | apps/sitting/services.py:411-437 | succeeds iff the sitting is draft or configured and passes the whole readiness check |
| SittingLifecycle.SittingRecord.ApproveSitting | apps/sitting/services.py:440-468 | only a configured sitting is approved; nothing but the approval columns changes |
| SittingLifecycle.SittingRecord.LockSitting | apps/sitting/services.py:471-542 | the whole new row with the lock event and its snapshot, nothing on a locked sitting, or the first error |
| SittingLifecycle.SittingRecord.ActivateSitting | apps/sitting/services.py:545-563 | exactly a locked sitting becomes active; nothing else changes |
| SittingLifecycle.SittingRecord.CloseSitting | apps/sitting/services.py:566-584 | exactly an active sitting becomes closed; nothing else changes |
| SittingLifecycle.SittingRecord.ChairAmendment | apps/sitting/services.py:620-681 | after the lock, with ten characters of justification and no critical field, overlays the columns and appends one event with the overwritten and the new values; any refusal changes nothing |
| SittingLifecycle.SittingRecord.ResolutionAmendment | apps/sitting/services.py:684-757 | after the lock, with a resolution and thirty characters of justification, overlays the columns and appends one event that also stores the rebuilt snapshot; any refusal changes nothing |
| SittingLifecycle.SittingRecord.GetSnapshot | apps/sitting/services.py:818-861 | the backwards search returns the newest stored snapshot after the lock and the live one before it |
| SittingLaws.RunKeepsInv | apps/sitting/services.py:248-757 | readiness of what is configured and well-formed history hold after every run of calls on a new sitting |
| SittingLaws.ConfiguredIsLockable | apps/sitting/services.py:488-509 | a configured sitting passes the whole readiness check with five distinct subjects, and locking it succeeds iff it is approved |
| SittingLaws.LockSucceedsIff | apps/sitting/services.py:471-509 | locking succeeds exactly on locked sittings, which it leaves alone, and on configured approved ones |
| SittingLaws.HistoryReplays | apps/sitting/services.py:656-670 | folding the after-values from the lock snapshot gives the live fields; a sitting is locked iff it has one AUTO_LOCK event, its oldest |
| SittingLaws.HistoryUndoes | apps/sitting/services.py:720-746 | undoing before-values newest first gives the state after any earlier event, down to the lock-time values |
| SittingLaws.SnapshotAgrees | apps/sitting/services.py:818-861 | in every reachable locked state the returned snapshot is that of the newest lock or resolution event and agrees with the record on all critical fields, papers, lock time and approval |
| SittingLaws.SnapshotIsStable | apps/sitting/services.py:646-670 | on a locked sitting only a successful resolution amendment changes the snapshot, to the live record of that moment |
| SittingLaws.LockFreezes | apps/sitting/services.py:504-521 | locking stores the live record of that moment |
| SittingLaws.SnapshotIsPastRecord | apps/sitting/services.py:504-521 | in every run from a new sitting, the snapshot of a locked sitting is the whole live record right after the latest lock or resolution amendment |
| SittingLaws.SnapshotFrozenOverRun | apps/sitting/services.py:545-681 | over a whole run without a resolution amendment readers see one and the same snapshot |
| SittingLaws.CriticalFrozenOverRun | apps/sitting/services.py:545-681 | over such a run critical fields and papers do not move |
| SittingSteps.StatusMovesIff | apps/sitting/services.py:264-584 | the status changes only by five moves, Draft to Configured and back, Configured to Locked, Locked to Active, Active to Closed, each with its own call |
| SittingSteps.ClosedWasActive | apps/sitting/services.py:566-584 | over every run from a new sitting a closed sitting was active until a close call |
| SittingSteps.ActiveWasLocked | apps/sitting/services.py:545-563 | an active sitting was locked until an activate call |
| SittingSteps.LockedWasConfigured | apps/sitting/services.py:471-542 | a locked sitting was configured until a lock call |
| SittingSteps.NeverGoesBack | apps/sitting/services.py:471-584 | over every run the stage never goes back from locked, active or closed |
| SittingSteps.UpdateIff | apps/sitting/services.py:264-298 | exactly when a draft edit is accepted, column by column, and that it sets the columns it names and no other |
| SittingSteps.PutNewPaperIff | apps/sitting/services.py:301-377 | exactly when a paper of a new code is accepted, and the paper that is appended with its defaults |
| SittingSteps.PutOldPaperIff | apps/sitting/services.py:301-377 | exactly when a paper of a known code is edited in place, and what it leaves |
| SittingSteps.RemoveIff | apps/sitting/services.py:380-408 | exactly when a paper is removed, the others staying in order |
| SittingSteps.ConfigureIff | apps/sitting/services.py:198-241 | configuring is accepted iff five papers, bands, section sums, blueprints, compensation and dates are in order |
| SittingSteps.LockIff | apps/sitting/services.py:471-542 | exactly when a lock call is accepted, and the event it leaves with the record of that moment |
| SittingSteps.StripIsExact | apps/sitting/services.py:634-638 | the stripped length is that of the text between the white space at both ends |
| SittingSteps.ChairIff | apps/sitting/services.py:620-681 | a Chair amendment is accepted iff the sitting is locked, the justification has ten characters and only the centres are named; its event keeps who, why and both values |
| SittingSteps.ResolutionIff | apps/sitting/services.py:684-728 | exactly when a resolution amendment is accepted, with its thirty characters and ten columns |
| SittingSteps.ResolutionWrites | apps/sitting/services.py:714-746 | its event keeps who, why, the resolution, both values and the record it leaves |
| SittingLimits.ApprovalSurvivesEdit | apps/sitting/services.py:264-408 | after any of the three edit calls and a new configuration, an approved sitting locks on the old approval and what is locked is the edited record |
| SittingLimits.FieldEditKeepsApprovedIff | apps/sitting/services.py:264-298 | after a draft edit the locked configuration is the approved one iff every column of the payload already had its value |
| SittingLimits.PaperEditKeepsApprovedIff | apps/sitting/services.py:301-377 | after a paper call, which can only edit one of the five, the same iff the payload gave that paper nothing new |
| SittingLimits.RemovalBlocksConfigure | apps/sitting/services.py:380-408 | after a removal the sitting cannot be configured again until a paper is put |
| SittingLimits.ReplacementIsNeverApproved | apps/sitting/services.py:380-408 | a removal with a replacement under a fresh id locks on the old approval, and never what was approved |
| SittingLimits.UneditedLocksApproved | apps/sitting/services.py:440-542 | over runs: when no edit call is accepted between approval and lock, fields and papers at the lock are those at approval |
| SittingLimits.LockedIsNotApproved | apps/sitting/services.py:264-298 | a run from a new sitting whose lock snapshot differs from the record that was approved |
| SittingLimits.ResolutionKeepsReadyIff | apps/sitting/services.py:718-728 | any successful resolution amendment leaves a sitting that passes the readiness check iff it sets the pass mark or the old one is in the new band, every paper pass mark is in the new band, and the dates it leaves are in order |
| SittingLimits.ResolutionKeepsDatesIff | apps/sitting/services.py:718-728 | any successful resolution amendment leaves the dates in order iff the start it leaves is not after the end it leaves |
| SittingLimits.ResolutionKeepsBandIff | apps/sitting/services.py:718-728 | the default pass mark stays in its band iff the amendment sets it or the old one lies in the new band |
| SittingLimits.ResolutionAcceptsAnyDates | apps/sitting/services.py:718-728 | an amendment of one or both dates by anybody, given as typed dates, is accepted whatever they are, and keeps them in order iff it leaves them so |
| SittingLimits.ResolutionCanLeaveBand | apps/sitting/services.py:718-728 | on a locked sitting with pass mark 50 the amendment that raises the lower end to 60 goes through and leaves it unready |
| SittingLimits.LockedCanLeaveBand | apps/sitting/services.py:718-728 | a whole run of eleven literal calls from a new sitting that ends locked, out of band and not ready |
| LockMonitor.MonitorT30Lock | apps/sitting/tasks.py:61-119 | each row ends as the one-row rule says; the two lists name the candidates that lock and those that fail, each once, in date order |
| LockMonitor.DueOrderIsSorted | apps/sitting/tasks.py:70-80 | the candidates are each due row once, earliest date first |
| LockMonitor.RunLocksExactlyDue | apps/sitting/tasks.py:70-119 | on reachable sittings a run locks exactly the due ones and leaves the others |
| LockMonitor.LocksThirtyDaysAhead | apps/sitting/tasks.py:70-98 | a run locks an unlocked reachable sitting iff it is configured and approved and its date is at most thirty days after today |
| LockMonitor.ReportListsDue | apps/sitting/tasks.py:70-119 | on reachable sittings the list of locked ones is exactly the refs of the due ones, earliest date first, and nothing fails |
| LockMonitor.SecondRunIsIdle | apps/sitting/tasks.py:70-119 | after a run a reachable sitting is not due any more that day, and a second run leaves it alone (the whole table: next row) |
| LockMonitor.SecondRunReportsNothing | apps/sitting/tasks.py:70-119 | for a whole table of reachable sittings a second run of the same day has no candidate, two empty lists, and changes nothing |
| Coverage.Bucket | apps/sitting/blueprint.py:75-81 | the dictionary holds the marks of each bucket, its keys in first-occurrence order |
| Coverage.CheckDistribution | apps/sitting/blueprint.py:171-221 | the violations of one dimension in the validator's order |
| Coverage.ValidateBlueprintCoverage | apps/sitting/blueprint.py:91-168 | the report lists all violations, and is valid iff there is none |
| Coverage.VerdictIff | apps/sitting/blueprint.py:113-168 | valid iff the total is as expected, every declared share is within tolerance, no item is in an undeclared bucket, and the sections add up |
| Coverage.VerdictInColumns | apps/sitting/blueprint.py:113-168 | valid iff topics meet the topic shares, cognitive levels the cognitive shares and difficulties the difficulty shares, the total and the sections being in order |
| Coverage.ViolationsAreTrue | apps/sitting/blueprint.py:113-219 | every reported violation holds, in the column and with the numbers it names |
| Coverage.WholeMarksCut | apps/sitting/blueprint.py:65-72 | marks are cut toward zero |
| Coverage.BucketsSumToTotal | apps/sitting/blueprint.py:75-81 | in every dimension the bucket marks add up to the total |
| Coverage.VerdictIgnoresOrder | apps/sitting/blueprint.py:113-219 | the verdict depends only on the multiset of items |
| Variants.ShufflePool | apps/sitting/variants.py:240-247 | the in-place shuffle of the copy is the seed's swap sequence applied to the pool |
| Variants.ShufflePermutes | apps/sitting/variants.py:240-247 | the shuffle loses and invents nothing |
| Variants.PositionIsDrawn | apps/sitting/variants.py:240-247 | each position of the result holds the item drawn for it from the part of the list up to it |
| Variants.EveryOrderIsPossible | apps/sitting/variants.py:240-247 | for every reordering of the pool there are draws that produce it |
| Variants.DeriveSeed | apps/sitting/variants.py:111-126 | a supplied seed is used as it is, a derived one is a 63-bit non-negative number |
| Variants.SubjectPaper.GenerateVariants | apps/sitting/variants.py:149-234 | errors change nothing; otherwise exactly `count` rows are added after the highest number, split by verdict into created and rejected |
| Variants.OneVerdictPerCall | apps/sitting/variants.py:190-215 | whatever the seeds, one call accepts all its variants or rejects all of them, as the pool itself would be |
| Variants.NumbersStayDistinct | apps/sitting/variants.py:180-191 | running the generator again only adds fresh variant numbers |
| Variants.TableIsConsecutive | apps/sitting/variants.py:180-191 | over any sequence of calls the variants are numbered 1, 2, 3 and so on |
| Variants.NewRowsAre | apps/sitting/variants.py:189-215 | each new row has its number, the supplied seed or 63 bits of the digest, the shuffled ids and the verdict of the coverage check |
| Variants.ReplayReproduces | apps/sitting/variants.py:294-313 | after any sequence of calls on a pool that never changed, every stored row replays to its stored order |
| Variants.ReplayIff | apps/sitting/variants.py:294-313 | after any sequence of calls every stored row has a call that made it, and for every later pool the replay returns the stored order iff that pool lists the ids of that call in the same order |
| Variants.SameItemsCanMismatch | apps/sitting/variants.py:294-313 | the same two items listed the other way round replay to another order |
| Variants.RegenerateVariantForAudit | apps/sitting/variants.py:294-313 | reshuffles the current pool with the stored seed |
| Variants.ReplayIsPermutation | apps/sitting/variants.py:294-313 | stored orders and replays are permutations of their pools, so equality implies the same ids |
| EdgeRateLimit.EdgeRateLimiter.Call | shared/middleware.py:355-377 | the reply and the whole cache after one request; an answer of the handler changes the cache iff it is guarded, has an address and has status 401, 403 or 429 |
| EdgeRateLimit.EdgeRateLimiter.RecordRejection | shared/middleware.py:381-422 | the whole cache after one counted rejection |
| EdgeRateLimit.EdgeRateLimiter.Incr | shared/middleware.py:481-495 | a live counter grows and keeps its expiry, a missing or expired one restarts at 1 with a new window |
| EdgeRateLimit.ChangesWhenCounted | shared/middleware.py:350-377 | an answer of the handler is counted iff the path is guarded, there is an address, and its status is 401, 403 or 429 |
| EdgeRateLimit.SentinelsFollowCounters | shared/middleware.py:381-422 | in every run, other addresses overlapping or not, a counter at or above its threshold has a sentinel that lives at least as long, although blocked requests go on counting |
| EdgeRateLimit.ThresholdIsEnforced | shared/middleware.py:362-371 | after a breach no request of that address reaches the handler for a full window |
| EdgeRateLimit.RefusedIff | shared/middleware.py:355-377 | a request is answered as blocked iff an earlier one of its address, refused or answered with 401, 403 or 429, filled the block counter less than 86400 seconds before, and as throttled iff not blocked and an earlier such answer filled the throttle counter less than 900 seconds before |
| EdgeRateLimit.RefusalOutlastsWindowIff | shared/middleware.py:333-335 | the refusal outlasts the counting window iff its first rejection came earlier than its last |
| EdgeRateLimit.RefusedPastWindow | shared/middleware.py:333-335 | a run in which a request after the counting window is still refused |
| EdgeRateLimit.WindowBound | shared/middleware.py:325-331 | every half-open 15 minutes hold at most max(T, 2T - 2) counted handler rejections of one address |
| EdgeRateLimit.BoundIsReached | shared/middleware.py:325-331 | for every T of two or more some timed run reaches 2T - 2 |
| EdgeRuns.ThrottledAfterThreshold | shared/middleware.py:362-407 | from a clean start rejections within 900 seconds all reach the handler up to the threshold, and the next request is throttled iff it arrives less than 900 seconds after the last of them |
| EdgeRuns.BlockedAfterThreshold | shared/middleware.py:362-422 | requests within a day, counted or refused, are not answered as blocked up to the block threshold, and the next one is iff it arrives less than 86400 seconds after the last of them |
| EdgeRuns.RefusalsCount | shared/middleware.py:363-371 | a refused request adds one to the block count on arrival and leaves the throttle alone |
| AuditChain.AuditLog.Record | apps/audit/models.py:60-115 | refuses a state change without old state; otherwise appends one row whose hash is the chain value of the whole log, and the chain stays valid |
| AuditChain.FindEvidence | apps/audit/models.py:86-115 | from two different payload logs with one head hash, two different hash inputs with equal hash or an input hashing to genesis are constructed |
| AuditChain.SameHeadSameLog | apps/audit/models.py:86-115 | two consistent stored logs with the same last hash hold the same payloads or yield that evidence |
| AuditChain.AuditLog.DailyHashAnchor | apps/audit/tasks.py:72-116 | writes the anchor of the day, keeping an existing receipt |
| AuditChain.AnchorIsChainValue | apps/audit/tasks.py:82-116 | an anchor is the chain value over exactly the events created before the end of its day |
| AuditChain.AnchorsCompose | apps/audit/tasks.py:82-116 | a later anchor is the earlier one with the days between folded onto it |
| AuditChain.EmptyDayCarriesForward | apps/audit/tasks.py:90-101 | a day has no head event iff it has no events, and then repeats the hash of the day before |
| AuditChain.CountsAddUp | apps/audit/tasks.py:82-116 | event counts of consecutive days add up to the events between their ends |
| AuditChain.CountsSpanLog | apps/audit/tasks.py:82-116 | days that span the log count every event once |
| AuditChain.ReanchorIsStable | apps/audit/tasks.py:82-116 | anchoring a closed day again after later events changes nothing |
| AuditChain.AnchorInSeconds | apps/audit/tasks.py:78-101 | the anchor names the event and hash of the last row of the day, or without one the hash of the last row before it, or sixty-four zeros |
| AuditChain.AnchorCounts | apps/audit/tasks.py:84-90 | its count is the number of rows created on that day |
| AnchorRuns.RunKeepsLog | apps/audit/models.py:86-115 | over any run on one clock the log stays one chain in the order of its time stamps |
| AnchorRuns.TableHoldsLast | apps/audit/tasks.py:109-116 | the stored anchor of a day is that of the log as it was when the day was anchored last, with the receipt that came last |
| AnchorRuns.StoredAnchorIff | apps/audit/tasks.py:82-116 | a stored anchor taken once its day had begun is the anchor of the log as it is now, receipt included, iff no event of that day was recorded after it |
| AnchorRuns.ClosedAnchorsStay | apps/audit/tasks.py:82-116 | a stored anchor taken after its day closed stays that of the whole log: its hash is the chain value over exactly the events before the end of the day |
| AnchorRuns.StoredAnchorsCompose | apps/audit/tasks.py:82-116 | of two stored anchors of closed days the later is the earlier with the events between folded onto it |
| AnchorRuns.EarlyAnchorGoesStale | apps/audit/tasks.py:82-116 | a run in which the stored anchor of an unfinished day differs from that of the final log |
| Outbox.OutboxTable.PollOutbox | apps/audit/tasks.py:18-41 | marks exactly the delivered events of the oldest hundred unpublished ones and nothing else, and counts the newly marked ones |
| Outbox.PublishesAppend | apps/audit/tasks.py:25-41 | publishing new events one by one appends them, unpublished, in order |
| Outbox.PollMarksOldestHundred | apps/audit/tasks.py:25-41 | a poll newly marks an event iff it is unpublished with fewer than a hundred unpublished events before it and its delivery succeeds |
| Outbox.PublishedIff | apps/audit/tasks.py:25-41 | over any run of polls and arrivals an event is marked iff it arrived so or some poll so far had it in its batch and delivered it |
| Outbox.PublishedStays | apps/audit/tasks.py:25-41 | once published an event stays so over any run, failing ones included |
| Outbox.PollThroughput | apps/audit/tasks.py:25-41 | with at most k < 100 failing events pending, a poll publishes at least min(100 - k, healthy pending) healthy ones |
| Outbox.HealthyIsPublished | apps/audit/tasks.py:25-41 | a healthy event with a healthy ones before it is published after n polls once n * (100 - k) > a, whatever arrives meanwhile |

## Left out

- Interleaved transactions, row locks and stale in-memory instances: calls are serial steps.
- HTTP views, serializers beyond their typing rules, permissions, Celery scheduling, external
  clients, rendering and export.
- Audit, outbox, notification and security-event rows that the item, paper and sitting services
  write beside their own tables, and the sitting's lock pointer row.
- `publish_blueprint_version`, suggestions, metadata schemas, vault co-signing, review escalation
  and paper submission: easy members that change nothing modelled here.
- User, role and conflict-of-interest lookups: their answers are parameters of the calls.
- The local-memory cache's culling at 300 entries, to which entries of other addresses count, its
  being one per process, and overlapping requests of one address (those of different addresses may
  overlap).
- JSON encoding of audit payloads, SHA-256 and Python's random generator: arbitrary functions or
  values.
- Sub-second rounding of clocks: one time stamp per call; rows that share `created_at` are taken
  in table order.
- Float rounding in shares and in the percentage-sum check, which are exact reals here, and the
  per-bucket detail dictionaries and percentage texts of the coverage report.
- Decimal and ISO rendering of snapshot values: snapshots hold typed values.
- Raw JSON in amendments: their payload is a dictionary of JSON values that the serializer passes on
  (apps/sitting/serializers.py:109), and a date given as text fails later, at `isoformat`
  (apps/sitting/services.py:880), which undoes the call. Amendment payloads are typed values here.
- Unicode white space in `strip` and `split`: the four common ones are stripped, and a vote's
  justification is given as its words.
- The probing for alternative validators and item-pool functions by the variant generator: the
  built-in validator is used and the pool is a parameter.
- AuditChain.AnchorIsChainValue: assumes that `created_at` never decreases with the id.
