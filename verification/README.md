# Coordination, assessment, shutdown and registry models

This project models the parts of the repository that carry its safety rules, and proves what they keep.

- `Coordination.dfy`, `Runs.dfy`, `Safety.dfy`, `Witnesses.dfy`, `DeliveryStore.dfy`, `Summary.dfy`: the delivery
  coordination record of `scripts/delivery/state.py`. `Coordination` gives its data, its validation and, for each of the
  ten operations, when it is admitted (`Admits`) and what it leaves (`Result`). `DeliveryStore` is the program's own
  form: a working copy edited in place, branch by branch, and a store that publishes or refuses; each method is proved
  against `Coordination`. `Runs` and `Safety` prove what every run from an initialized record keeps, most of which no
  check in the program states; `Witnesses` gives runs that show where promises end. `StateStore` carries its run as a
  ghost field, so these results speak about every record it ever publishes.
- `Effects.dfy`, `Defects.dfy`, `Refusals.dfy`: the same record read off its raw fields, independently of
  `Coordination`'s own predicates: what each request writes where, and that every place holds what was last written
  there; every defect that validation refuses; every ground on which an operation is refused.
- `RepoPaths.dfy`: claim paths as `PurePosixPath` reads them, and overlap.
- `Json.dfy`, `Assessment.dfy`, `Assessor.dfy`, `Readiness.dfy`, `Demands.dfy`, `Reasons.dfy`: the merge assessor of
  `scripts/delivery/model.py` over untyped JSON evidence. `Assessment` says when each reason holds and when evidence is
  malformed, `Assessor` is the accumulating and early-raising procedure, `Readiness` says what a ready verdict amounts
  to. `Demands` says, on raw fields alone, what bars a merge and what it still wants, `Reasons` when each reason
  applies; verdict and reasons are proved to be exactly that.
- `Processes.dfy`, `AccountRunner.dfy`: process groups, bounded shutdown and exit status of `scripts/run_account_ui.py`,
  over a kernel that is free in everything it does not promise.
- `Registry.dfy`, `TargetStore.dfy`: the target registry of `apps/cli/src/targets.rs` as interleaved steps of many
  processes, and one update as its process runs it among them.
- `Planner.dfy`, `Sorting.dfy`, `Pagination.dfy`: the planner and the cursor loops.

Three results are about where the program does less than it may seem to. The local guards of `_operate` admit a
reservation with a malformed name, token, operation or reference, and an uncertain main merge of a retired issue
(`Witnesses.MalformedReservationOccurs`, `Witnesses.UncertainAfterRetirementOccurs`); `validate_state` then refuses
exactly these, so `apply` leaves the stored record alone (`Coordination.Preservation`). And the docstring of `_operate`
speaks of not discarding earlier ownership or failure evidence, while recording evidence archives nothing. Evidence that
is recorded over is kept if and only if something was archived on its issue since it was recorded
(`Runs.ReplacedEvidence`); recorded over at once it is lost (`Witnesses.EvidenceIsLost`). Every other field is always
kept (`Runs.NothingIsLost`).

Third, `run` heeds the cancellation for the last time as its last work phase decides its status. A signal after that
and before the finalizer ignores signals is recorded and has no effect: a run in which everything passes returns 0
(`AccountRunner.LateSignal`), a failed phase keeps its status (`AccountRunner.LateSignalAfterFailure`). A run returns 0
if and only if everything passes and no interruption was noticed (`AccountRunner.Runner.RunAll`); with well-behaved
children that is exactly if no signal arrives before the last read (`AccountRunner.BehavedRun`).

Assumptions, all visible in the model: a request carries the absolute path to which its worktree resolves
(`Request.resolved`); the registry's JSON codec is a pair of functions of which decoding undoes encoding
(`Registry.Faithful`), and its identity and transport checks are a predicate, whose failure is one error
(`InvalidTarget`); only the runner reaps its leader, as restoring the default SIGCHLD disposition arranges; what becomes
of each attempt to start a child is an arbitrary function (`Runner.fates`), so is which signal arrives at which point
between two reads (`Runner.signals`), and the status of each child is an arbitrary constant (`Kernel.exit`); the time
bounds hold where sleeping takes exactly its time and an observation ends by its deadline (`Kernel.exact`), termination
without that.

## Model

| member | source | states |
|---|---|---|
| Coordination.Preservation | scripts/delivery/state.py:257-311 | From any valid record, an admitted request leads to a record that whole-state validation accepts if and only if it is neither a reservation with a malformed name, token, operation or reference nor an uncertain main observation of a retired issue |
| Coordination.RefusedIsInvalid | scripts/delivery/state.py:606-615 | In each of those two cases validation refuses what the local guards let through |
| Coordination.MalformedReservationIsAdmitted | scripts/delivery/state.py:606-615 | The local guards let every reservation of a free nonblank name through, and it is refused exactly if its name, token, operation or reference is malformed |
| Coordination.UncertainAfterRetirementIsAdmitted | scripts/delivery/state.py:527-539 | The local guards let every well-formed observation of an unmerged retired issue's head through, and it is refused exactly if it is uncertain |
| Witnesses.MalformedReservationOccurs | scripts/delivery/state.py:606-615 | From any first claim on, the first of the two cases happens on a record that a run reaches |
| Witnesses.UncertainAfterRetirementOccurs | scripts/delivery/state.py:527-539 | From any first claim on, the second case happens on a record that a run reaches by a verified retirement |
| Witnesses.SomeClaimOpens | scripts/delivery/state.py:458-478 | Such a first claim exists |
| Coordination.AssignmentsKept | scripts/delivery/state.py:189-227 | Every operation keeps every assignment well formed, in scope and, under schema 1, free of supporting merges |
| Coordination.ExclusiveKept | scripts/delivery/state.py:230-254 | Every operation keeps occupied claims pairwise exclusive, whether or not it checks this itself |
| Coordination.ExclusiveTransfer | scripts/delivery/state.py:230-254 | Exclusivity depends only on who is occupied and on the owners and scopes of the occupied |
| Coordination.ResourcesKept | scripts/delivery/state.py:289-300 | Every resource stays well formed and owned by an active claim |
| Coordination.HolderStaysOccupied | scripts/delivery/state.py:542-551 | The holder of a resource cannot be retired |
| Coordination.ObservationsKept | scripts/delivery/state.py:301-311 | Main merge receipts stay matched with the merge state and head of their assignment, and exist for every state but unmerged |
| Coordination.Shape | scripts/delivery/state.py:107-119 | A request changes only its target; the target's history grows by the replaced fields for the seven archiving operations and stays as it is for claim, evidence and reserve |
| Defects.ValidExactly | scripts/delivery/state.py:257-311 | A record is valid if and only if it has none of the defects that are listed one by one on its raw fields |
| Defects.SnapshotExactly | scripts/delivery/state.py:189-227 | The same for the fields of one assignment: valid exactly if it has no flaw in its owner, scope, binding, supports, merge state or retirement |
| Refusals.AdmittedExactly | scripts/delivery/state.py:435-617 | On a valid record a request is admitted if and only if no ground for refusing it, of those listed on raw fields, applies: these are all the ValueErrors of the operations |
| Refusals.CollisionExactly | scripts/delivery/state.py:230-254 | Installing an active claim keeps a valid record exclusive exactly if it clashes with no other active one in worktree, branch, worker, path or contract |
| Effects.UpdateWrites | scripts/delivery/state.py:435-617 | One update writes into each of fourteen kinds of places exactly what its request says for that place, and leaves every other place as it was |
| Effects.LastWriteStands | scripts/delivery/state.py:413-433 | At every moment of every run a place holds what the last request that wrote there wrote: the binding of the last revision or else of the claim, the owner of the last handover, each scope field of the last amendment naming it, the custody of the last reservation not released, the last observation |
| Effects.UnwrittenStands | scripts/delivery/state.py:413-433 | A place to which no request has written holds nothing, and the schema version is 1 until a supporting merge is recorded |
| Effects.SomeWriteIsLast | scripts/delivery/state.py:413-433 | A place that was ever written has such a last write |
| DeliveryStore.CompatibleSymmetric | scripts/delivery/state.py:230-254 | Exclusivity of two claims does not depend on which is compared with which |
| DeliveryStore.OccupiedIssues | scripts/delivery/state.py:97-104 | Lists each claim that is not retired exactly once |
| DeliveryStore.CheckExclusive | scripts/delivery/state.py:230-254 | The triangular nested loop decides the full pairwise condition |
| DeliveryStore.Validate | scripts/delivery/state.py:257-311 | Accepts exactly the valid records |
| DeliveryStore.Draft.Archive | scripts/delivery/state.py:107-119 | Appends one event with the next revision, the operation and the fields as they were |
| DeliveryStore.Draft.DoRelease | scripts/delivery/state.py:441-457 | Frees the resource on a matching token, head and verified cleanup, archiving on its owner; refused otherwise |
| DeliveryStore.Draft.DoClaim | scripts/delivery/state.py:458-478 | Admits a well-formed, exclusive first claim with its resolved worktree |
| DeliveryStore.Draft.DoObservePrerequisite | scripts/delivery/state.py:485-524 | Records a supporting merge for the current binding under the reconciliation rules and raises the schema to 2 |
| DeliveryStore.Draft.DoObserveMerge | scripts/delivery/state.py:527-539 | Records a main merge receipt for the current head; a merged one is never reverted |
| DeliveryStore.Draft.CheckLifecycle | scripts/delivery/state.py:542-551 | Decides the shared guard of retire, adopt, amend and revise: current binding and no held resource |
| DeliveryStore.Draft.DoRetire | scripts/delivery/state.py:552-561 | Retires an active claim on the verified stop of its exact owner |
| DeliveryStore.Draft.DoAdopt | scripts/delivery/state.py:564-578 | Hands the claim to a new owner on the verified stop of the previous one, then validates and checks exclusivity |
| DeliveryStore.Draft.DoRevise | scripts/delivery/state.py:583-590 | Rebinds an active claim to the requested binding, clearing evidence, merge state and receipt; what that writes is stated on raw fields by Effects.UpdateWrites |
| DeliveryStore.Draft.DoAmend | scripts/delivery/state.py:591-601 | Changes named scope fields of an active claim, clears evidence, then validates and checks exclusivity |
| DeliveryStore.Draft.DoRecordEvidence | scripts/delivery/state.py:602-605 | Replaces the evidence of the current binding without archiving it |
| DeliveryStore.Draft.DoReserve | scripts/delivery/state.py:606-615 | Occupies a free resource for the current head |
| DeliveryStore.Draft.Operate | scripts/delivery/state.py:435-617 | Accepts exactly the admitted requests, and an accepted one turns the working copy into the specified record |
| DeliveryStore.StateStore.Initialize | scripts/delivery/state.py:376-404 | Publishes the initial record once, and never over an existing one |
| DeliveryStore.StateStore.Apply | scripts/delivery/state.py:413-433 | Publishes the committed record if and only if identities and revision match and the request is admitted and not one of the two refused cases; what is published has the next revision and in every place exactly what the request writes there, or what it held before; any ground for refusing it is a ValueError, and then nothing changes; all that was ever published is one run |
| DeliveryStore.Updated | scripts/delivery/state.py:428-432 | Operating on a copy, raising the revision and validating succeeds exactly if no ground for refusal applies and it is not one of the two refused cases, and writes in every place exactly what the request says |
| Runs.StatesAreValid | scripts/delivery/state.py:413-433 | Every record of a run is valid, keeps its header, and has as revision the number of updates before it |
| Runs.HistoryIsJournal | scripts/delivery/state.py:107-119 | At every moment of every run an issue's history equals the journal read off the run: exactly its archiving operations, in order, each with its revision and the fields it replaced |
| Runs.JournalEntries | scripts/delivery/state.py:107-119 | Each journal entry names its revision, the request made then and the fields found then, and revisions increase strictly |
| Runs.HistoriesAreOrdered | scripts/delivery/state.py:112-119 | Histories are strictly increasing in revision, never ahead of the record, and no two issues share a revision |
| Runs.NothingIsLost | scripts/delivery/state.py:107-119 | Any past value of an issue's owner, binding, scope, claim, merge, supporting merges and retirement receipt is current or archived by a later event, and histories only grow |
| Runs.NeverClaimedAgain | scripts/delivery/state.py:463-466 | An issue that was ever assigned is never claimed again, retired or not |
| Runs.JournalIsComplete | scripts/delivery/state.py:107-119 | Every archiving operation on an issue left its event with the fields it replaced |
| Runs.EvidenceStands | scripts/delivery/state.py:602-605 | Recorded evidence stays current until something is archived or recorded on its issue |
| Runs.ReplacedEvidence | scripts/delivery/state.py:602-605 | Evidence that the next recording replaces is kept in an event if and only if an archiving operation on the issue came between the two recordings, in every run and for ever after |
| Witnesses.EvidenceIsLost | scripts/delivery/state.py:602-605 | From any first claim on, any evidence that is recorded over at once is neither current nor in any event |
| Runs.HistoryReplays | scripts/delivery/state.py:107-119 | Replaying an issue's history leads from each archived record to the next and from the last to the present |
| Runs.ReceiptsAreJournaled | scripts/delivery/state.py:523-538 | Every current main or supporting merge receipt is the operation of an event in its issue's history |
| Safety.UncertaintyDiscipline | scripts/delivery/state.py:479-541 | In every reachable record an issue has at most one uncertain supporting merge, bound to the present binding of an active claim whose main merge is neither uncertain nor merged |
| Safety.DisciplineStep | scripts/delivery/state.py:479-541 | Each operation keeps that discipline |
| Safety.OnlyObservationSettles | scripts/delivery/state.py:517-541 | An uncertain merge, main or supporting, is resolved only by an observation of that merge of that issue, and owner, binding, scope and claim stand still until then |
| Safety.HeldStep | scripts/delivery/state.py:441-457 | A resource leaves the record only by a release that matches its token and head and is verified clean, and no operation touches a holder's owner, binding, scope or claim |
| Safety.CustodyHeads | scripts/delivery/state.py:606-615 | In every reachable record a held resource has an active owner and carries that owner's present head |
| Safety.CustodyFreezesOwner | scripts/delivery/state.py:542-551 | Over any stretch of a run without a release of the resource, it and its owner's owner, binding, scope and claim are unchanged |
| Safety.TermsStep | scripts/delivery/state.py:552-601 | Only adopt changes an owner and only on its verified stop, only adopt and retire change a claim, only revise a binding, only amend a scope, and each clears evidence while nothing is held or uncertain |
| Safety.OwnershipNeedsHandover | scripts/delivery/state.py:76-94 | Over any stretch of a run an owner or claim changes only after a verified stop of exactly that owner under its binding at that time |
| Safety.EvidenceIsFresh | scripts/delivery/state.py:552-605 | In every reachable record nonempty evidence was recorded by one request for the present binding, and owner, binding, scope and claim have not changed since |
| Safety.EvidenceStep | scripts/delivery/state.py:552-605 | Evidence survives a step only if it was just recorded or if nothing it speaks about changed |
| Safety.MergedStep | scripts/delivery/state.py:525-581 | A merged issue admits no change but a retirement |
| Safety.MergedIsForever | scripts/delivery/state.py:527-563 | Merged is absorbing and freezes owner, binding, scope and supporting merges; once retired too, the whole assignment is frozen |
| Safety.TerminalAdmits | scripts/delivery/state.py:525-563 | A retired and merged issue admits exactly well-formed merged observations of its own head |
| Safety.Territory | scripts/delivery/state.py:230-254 | At no moment of a run does a repository file lie under the claims of two occupied issues |
| Safety.DisjointPathsExact | scripts/delivery/state.py:152-170 | Two sets of accepted claim paths share no file if and only if no two of their paths overlap |
| RepoPaths.InParents | scripts/delivery/planner.py:10-12 | The parents of a path are exactly the proper component prefixes under the same root |
| RepoPaths.OverlapIsComparable | scripts/delivery/planner.py:10-12 | Paths overlap exactly when their roots agree and one component list is a prefix of the other |
| RepoPaths.OverlapIffSharedFile | scripts/delivery/planner.py:10-12 | Relative paths overlap exactly when some file lies under both |
| RepoPaths.OverlapOnText | scripts/delivery/state.py:152-170 | For accepted claim texts: equal, one is a dot, or one extends the other after a slash |
| RepoPaths.ClaimPathExactly | scripts/delivery/state.py:152-170 | A claim is accepted exactly if it is a dot, or a text without glob characters whose pieces between the slashes are all proper names |
| RepoPaths.JoinPrefix | scripts/delivery/state.py:152-170 | Component prefixes are exactly text prefixes that end at a slash |
| Text.DecimalInjective | scripts/delivery/state.py:285-286 | Distinct numbers have distinct decimal texts, so the string keys of the record identify issues and pull requests |
| Text.NonBlankExactly | scripts/delivery/model.py:27-30 | A text is accepted as nonempty exactly if something is left after stripping white space from both ends |
| Text.IdentifiersExactly | scripts/delivery/model.py:9-9 | Commit identifiers are exactly the texts of 40 lowercase hexadecimal digits, and resource names those of a letter followed by letters, digits, colons, underscores and dashes |
| Summary.Summarize | scripts/delivery/cli.py:119-209 | Reports the header; every assignment but retired and merged ones that the operation did not name, each line with the assignment's own owner, paths, contracts, checks, binding, merge, claim, blocker count and exactly its uncertain supporting pull requests; the occupied issues in increasing order; all holders with their owner; exactly the uncertain main merges; and the operation just applied with its issue and resource |
| Summary.RunsAreSummarizable | scripts/delivery/cli.py:161-164 | The lookups of the summary cannot fail on any record of any run |
| Summary.Holders | scripts/delivery/cli.py:161-168 | Lists every held resource with its owner's worker |
| Summary.AppliedExactly | scripts/delivery/cli.py:119-209 | The line about the operation names its kind, and its issue and resource if it has them |
| Summary.HiddenIsTerminal | scripts/delivery/cli.py:127-134 | An omitted issue is unoccupied, holds no resource, has no uncertain merge, and its fields never change again in the run |
| Summary.NothingOpenIsHidden | scripts/delivery/cli.py:127-134 | Every occupied claim, resource holder and issue with an uncertain main or supporting merge is listed |
| Assessor.AcceptedRisk | scripts/delivery/model.py:67-92 | The early-returning search accepts exactly when the first deciding risk record is a signed, current human acceptance, and raises exactly when that record is malformed |
| Assessor.FindingBlocks | scripts/delivery/model.py:95-120 | Raises exactly on malformed findings, and otherwise reports exactly whether a material finding is open |
| Assessor.CoverOf | scripts/delivery/model.py:176-196 | Decides whether one independent, ready, current local review examined every bot comment |
| Assessor.CoderabbitResult | scripts/delivery/model.py:149-197 | Settled exactly when the observed run is over, consistent, and all its comments are covered by one review |
| Assessor.ExamineSupporting | scripts/delivery/model.py:276-281 | The search for an uncertain supporting merge may stop before a malformed one; it raises only if there is a malformed one, and answers exactly whether there is an uncertain one otherwise |
| Assessor.ExamineAssignment | scripts/delivery/model.py:266-283 | Lists exactly the assignment reasons that hold; raises only on malformed assignments, and lets one pass only behind an uncertain supporting merge, which is a blocking reason itself |
| Assessor.ExaminePullRequest | scripts/delivery/model.py:284-294 | The same for the pull request's draft, mergeability and thread reasons |
| Assessor.ExamineRole | scripts/delivery/model.py:296-315 | The same for one reviewing role, where a stale receipt is not read further |
| Assessor.ExamineLive | scripts/delivery/model.py:304-315 | The same for a receipt of the present revision: independence, verdict and findings |
| Assessor.ExamineRoles | scripts/delivery/model.py:296-315 | The same for all four roles |
| Assessor.IndexChecks | scripts/delivery/model.py:326-332 | Builds the checks by name, or raises on an unnamed or repeated one |
| Assessor.GradeCheck | scripts/delivery/model.py:333-347 | Gives the one reason, if any, that a required check gives |
| Assessor.GradeChecks | scripts/delivery/model.py:333-347 | Lists exactly the reasons of the required checks |
| Assessor.ExamineChecks | scripts/delivery/model.py:316-347 | Lists exactly the check reasons, with reconciliation against GitHub's required set |
| Assessor.ExamineBot | scripts/delivery/model.py:348-357 | Lists exactly the bot reason that holds |
| Assessor.AssessMerge | scripts/delivery/model.py:257-361 | The accumulating, early-raising assessment returns the declarative verdict; its reasons hold and are blocking ones first; unless it met malformed evidence they are all reasons that hold; malformed evidence is reported unless an uncertain supporting merge hid it. What verdict and reasons mean on raw evidence is stated by Demands.VerdictExactly and Reasons.ReasonExactly |
| Assessment.CheckResult | scripts/delivery/model.py:123-146 | Passed exactly for a success that applies, an explained skip that does not, or a completed bot run without findings in any letter case; failed exactly for the four failing conclusions, of the bot only once completed |
| Readiness.ReadyExactly | scripts/delivery/model.py:257-361 | Ready if and only if the binding is current, four current ready reviews are independent with all material findings settled, the required checks are reconciled and passing, and the bot is settled |
| Readiness.SettledExactly | scripts/delivery/model.py:95-120 | A finding is settled exactly when it is neither malformed nor open |
| Readiness.LiveClear | scripts/delivery/model.py:304-315 | A receipt gives no reason exactly when it passes |
| Readiness.RoleClear | scripts/delivery/model.py:296-315 | A role gives no reason exactly when its receipt is current and passes |
| Readiness.ReviewsClear | scripts/delivery/model.py:296-315 | No role gives a reason exactly when all four receipts are current and pass |
| Readiness.ChecksClear | scripts/delivery/model.py:316-347 | The checks give no reason exactly when they are reconciled and every required one passes |
| Readiness.CheckClear | scripts/delivery/model.py:333-347 | A required check gives no reason exactly when it passes |
| Readiness.AssignmentClear | scripts/delivery/model.py:266-283 | The assignment gives no reason exactly when it is well formed, current, not retired, settled and unblocked |
| Readiness.PullRequestClear | scripts/delivery/model.py:284-294 | The pull request gives no reason exactly when it is no draft, mergeable and without open threads |
| Readiness.BotClear | scripts/delivery/model.py:348-357 | The bot gives no reason exactly when its run is current and settled |
| Readiness.NoReuseAcrossRevisions | scripts/delivery/model.py:59-64 | Evidence that made one revision ready cannot make another one ready, whatever is observed |
| Readiness.SevereFindingBlocks | scripts/delivery/model.py:67-120 | An unresolved finding of priority 0 or 1 in a current receipt blocks, whatever risk was accepted |
| Readiness.AssessPrerequisite | scripts/delivery/model.py:209-254 | Blocked unless the packet is accepted as a whole, and then the verdict on the assignment without blockers and with the packet's evidence |
| Readiness.SupportingReady | scripts/delivery/model.py:209-254 | A ready supporting pull request is ready to merge in its own right, all four receipts name it and are current, the deferred blockers are the assignment's, it closes nothing and the main merge is open |
| Demands.VerdictExactly | scripts/delivery/model.py:257-361 | On the raw fields of assignment and observation: blocked exactly if something on record bars the merge, pending exactly if nothing does and something is wanting, else ready |
| Demands.BlockedExactly | scripts/delivery/model.py:257-361 | Blocked if and only if a field of the assignment, pull request, a receipt, a finding, a check or the bot's run bars the merge, malformed evidence included |
| Demands.UnacceptedFindingBlocks | scripts/delivery/model.py:67-120 | An unresolved finding of priority 0 to 2 in a current receipt blocks unless some risk record meets every condition: finding, role, review reference, priority, verified human, source, each binding field, and the three texts |
| Demands.ToleratedExactly | scripts/delivery/model.py:67-92 | The acceptance of a finding, condition by condition on the fields of the first risk record that speaks of it |
| Demands.FindingExactly | scripts/delivery/model.py:95-120 | A finding bars the merge exactly if it is malformed, repeated, or unresolved, material and not tolerated |
| Reasons.UnreadableFindingExactly | scripts/delivery/model.py:95-120 | Evidence is malformed by a finding exactly if its own fields are, or if it is an unresolved one of priority 2 whose search for an acceptance meets an unreadable record |
| Demands.SeatExactly | scripts/delivery/model.py:296-315 | Each of the four receipts bars the merge, or leaves its seat open, exactly as its own fields say |
| Demands.CountsExactly | scripts/delivery/model.py:123-146 | When a recorded check counts for a required one, and when it failed or succeeded, by its own fields |
| Demands.ChecksReadyExactly | scripts/delivery/model.py:316-347 | The checks are ready exactly if no list and no check bars the merge, GitHub requires the same ones, and each has a counting success |
| Demands.RunExactly | scripts/delivery/model.py:149-197 | When the bot's run is malformed and when it ended well, on its own fields and those of the review that covers its comments |
| Reasons.ReasonExactly | scripts/delivery/model.py:266-357 | Each of the reasons other than malformed evidence is given exactly when it applies on raw fields |
| Demands.PacketExactly | scripts/delivery/model.py:209-254 | A supporting packet is accepted exactly if it shows all that is listed on its raw fields |
| Demands.SubstitutedExactly | scripts/delivery/model.py:252-252 | The assessment of a supporting packet keeps every field of the assignment but blockers and evidence |
| Demands.FoldsByCharacter | scripts/delivery/model.py:123-146 | Case folding works character by character |
| Demands.FoldsCapitals | scripts/delivery/model.py:123-146 | On ASCII text it only turns capitals into small letters |
| Json.SameReflexive | scripts/delivery/model.py:59-64 | The equality that receipts are compared with is reflexive |
| Json.SameSymmetric | scripts/delivery/model.py:59-64 | It is symmetric |
| Json.SameTransitive | scripts/delivery/model.py:59-64 | It is transitive across Booleans, integers and floats |
| Json.SameScalars | scripts/delivery/model.py:59-64 | Texts equal only themselves, numbers and Booleans exactly those of the same value, and a missing field only a missing one |
| Json.AccessorsExactly | scripts/delivery/model.py:27-43 | What the checked accessors accept: texts with something left after stripping, integers from the minimum on, full commit identifiers |
| Registry.ApplyKeepsValid | apps/cli/src/targets.rs:167-186 | Registering and selecting keep a registry valid |
| Registry.ApplyKeepsBindings | apps/cli/src/targets.rs:308-326 | No change rebinds or drops a label, and an unchanged update leaves the registry equal |
| Registry.ApplyExactly | apps/cli/src/targets.rs:305-326 | Selecting sets the selection and nothing else, registering adds or confirms one target and nothing else, each reports the previous selection and whether anything changed; they fail only on a label that is missing, or bound otherwise |
| Registry.LoadExactly | apps/cli/src/targets.rs:233-261 | Reading gives a registry exactly if there is no file, or a valid one of at most 4 MiB |
| Registry.RegistryExactly | apps/cli/src/targets.rs:167-186 | What makes a registry valid, field by field |
| Registry.LabelExactly | apps/cli/src/targets.rs:400-413 | A label has 1 to 64 ASCII characters, the first a letter or digit, the rest also dots, underscores and dashes |
| Registry.StepEndsExactly | apps/cli/src/targets.rs:264-337 | Each step of an update ends it with each of the nine errors exactly for its own cause, and with success exactly when its file is in place and synchronized or nothing had to change |
| Registry.PublishedLoads | apps/cli/src/targets.rs:250-261 | A valid registry is published exactly when the file it makes is within the reading limit, and is then read back equal |
| Registry.NextKeeps | apps/cli/src/targets.rs:264-337 | Every step of every process keeps the invariant of lock, file and commits |
| Registry.CommitKeeps | apps/cli/src/targets.rs:414-433 | The replacing step appends one commit whose effect is the new file |
| Registry.RunKeeps | apps/cli/src/targets.rs:264-337 | Every interleaving keeps the invariant |
| Registry.ReadersSeeCommits | apps/cli/src/targets.rs:233-261 | At any moment of any interleaving an unlocked reader sees the committed changes applied one after another |
| Registry.UpdatesAreLinearized | apps/cli/src/targets.rs:264-337 | A successful update took effect between its start and its end, any error but Uncertain means it never did, and no update commits twice |
| Registry.AnswerTellsEffect | apps/cli/src/targets.rs:305-337 | The registry reported by a success is the effect of its change, on raw fields, on the registry right before: the selected label, or the registered target, all other targets untouched |
| Registry.DeclineTellsWhy | apps/cli/src/targets.rs:305-326 | A conflict or a missing label was so at a moment since the update started |
| Registry.PreviousIsAtCommit | apps/cli/src/targets.rs:305-337 | The reported previous selection is the one in force right before the update's own commit, and the reported registry the one right after |
| Registry.ErrorsLeaveFile | apps/cli/src/targets.rs:264-337 | A step that ends an update with an error other than Uncertain leaves the file alone |
| Registry.UnreadableIsPreserved | apps/cli/src/targets.rs:250-261 | A file that cannot be read is never replaced by any interleaving of updates |
| Registry.BindingsAreForever | apps/cli/src/targets.rs:308-317 | A label once bound keeps exactly that target for every later reader |
| Registry.SavedSelectionResolves | apps/cli/src/targets.rs:371-398 | On any registry a reader sees, resolving without a label succeeds exactly when a selection is saved, and gives that target |
| Registry.ResolveExactly | apps/cli/src/targets.rs:371-398 | An explicit label goes before one from the environment, and that before the saved one; it fails exactly on a malformed or missing label |
| TargetStore.Store.Publish | apps/cli/src/targets.rs:414-433 | Replaces the file within the size bound in one step of the interleaved model, and says exactly when the result is uncertain |
| TargetStore.OthersKeep | apps/cli/src/targets.rs:264-337 | Whatever other processes do, they neither advance an update nor take its lock away |
| TargetStore.HolderIsUnderWay | apps/cli/src/targets.rs:293-305 | Only an update that is under way can hold the lock |
| TargetStore.Store.Acquire | apps/cli/src/targets.rs:293-305 | Tries for the lock until it is had, interrupted, failed, or out of time, while others come and go |
| TargetStore.Store.Change | apps/cli/src/targets.rs:305-326 | Reloads under the lock and decides the change from what was read: a success holds the selected label or the registered target and says whether that changed anything; or reports why not |
| TargetStore.Store.Update | apps/cli/src/targets.rs:264-337 | With any steps of any other processes in between, the update takes just the steps of the interleaved model that its own circumstances call for, reports what the model says, and is linearized: a success took effect at one moment since its start, a conflict or missing label was so at one, an error other than Uncertain means it never took effect; a reported registry holds what was asked for |
| Processes.ExecutableMembers | scripts/run_account_ui.py:548-564 | Reads a trustworthy listing as exactly whether the group has a member that is not a zombie, and rejects any other, row by row |
| Processes.Phase.Observe | scripts/run_account_ui.py:37-52 | Sees the exit of an owned leader and its status without reaping it, or gives ownership up |
| Processes.Phase.SignalGroup | scripts/run_account_ui.py:54-65 | Makes one signal attempt while the leader is owned, and none after |
| Processes.Phase.Reap | scripts/run_account_ui.py:67-82 | Gives ownership up for good, and confirms only a collected leader |
| Processes.OutcomeIsFirst | scripts/run_account_ui.py:289-301 | The wait is ended by the first look that shows an exit, a lost leader, or a leader still running at the deadline |
| Processes.SignalsInOrder | scripts/run_account_ui.py:130-138 | Of any two signals in a phase's log the first is SIGTERM and the second SIGKILL |
| Processes.KillFollowsTerm | scripts/run_account_ui.py:130-138 | No SIGKILL attempt without an earlier SIGTERM attempt |
| AccountRunner.Runner.Check | scripts/run_account_ui.py:117-127 | Reports quiet only on a trustworthy listing without executable members, of an exited, unreaped and owned leader, and never overlooks such a listing |
| AccountRunner.Runner.Escalate | scripts/run_account_ui.py:130-150 | Makes one attempt of its signal on the owned group, looks at it again if the grace period is worth a look, ends by its deadline, and does not give up before it without cause, after SIGTERM as after SIGKILL |
| AccountRunner.Runner.Follow | scripts/run_account_ui.py:139-151 | Watches the signalled group until it is quiet, unowned, unreadable or out of time, with looks at most 1.02 seconds apart and the last at most 1.07 seconds before giving up |
| AccountRunner.Runner.StopPhase | scripts/run_account_ui.py:111-159 | Confirms exactly the stops that end with a quiet listing, the reap and no trouble before; signals only the owned group, SIGTERM before SIGKILL and SIGKILL not before the grace period is over or trouble met; stops short of both signals only when the group is quiet or the leader lost; without trouble a killed group is looked at again and given up only once the kill grace period is over; ends within both grace periods |
| AccountRunner.Runner.Await | scripts/run_account_ui.py:290-301 | Times out exactly if the leader was seen running at the deadline and no interruption was read before; an interruption that comes between reading it and reading the clock does not stop a time-out; ends otherwise with the leader's exit or loss, or interrupted; looks at least every 0.02 seconds; sends no signal |
| AccountRunner.Runner.RunPhase | scripts/run_account_ui.py:256-315 | Reports the interruption as the phase last read it, and if it read none, 0 exactly if its child started, was seen to exit with 0 in time and its group settled, else the child's own status, 124 out of time, or 1; a signal it missed came after that last read; none starts once interrupted; process cleanup stays confirmed exactly while groups settle |
| AccountRunner.Runner.Interrupts | scripts/run_account_ui.py:235-237 | The first signal that arrives at a point where signals are handled fixes the cancellation status |
| AccountRunner.Runner.Work | scripts/run_account_ui.py:358-423 | Returns 0 only with six children that all passed and without noticing an interruption; otherwise the status of the last child started, all before it having passed, or the interruption noticed; a missed signal came after the last phase's last read |
| AccountRunner.Runner.RunAll | scripts/run_account_ui.py:449-545 | The run returns 0 if and only if six work children and the cleanup child started, exited with 0 in time and settled, no phase noticed an interruption, process cleanup was never unconfirmed and all file operations were done; a failed phase's status survives the finalizer; an interruption that nobody noticed came after the last read or before the finalizer ignored signals |
| AccountRunner.BehavedRun | scripts/run_account_ui.py:449-545 | With children that exit at once with 0 and nothing failing, the run returns 0 if and only if no signal arrives before the last read of the cancellation, whatever arrives later |
| AccountRunner.LateSignal | scripts/run_account_ui.py:485-498 | A signal after the last read and before the finalizer ignores signals is recorded as cancellation, and the run returns 0 |
| AccountRunner.LateSignalAfterFailure | scripts/run_account_ui.py:485-498 | Nor does such a signal override the status of a failed phase |
| AccountRunner.Verdict | scripts/run_account_ui.py:496-535 | How the status of the work, the cleanup and the file operations combine |
| AccountRunner.StatusIs | scripts/run_account_ui.py:309-312 | The status that the runner computes is the one that the child's exit, its time and its stop call for |
| AccountRunner.FailureIsFirst | scripts/run_account_ui.py:416-422 | With no interruption noticed the reported failure is that of the last phase started, and all before it passed |
| AccountRunner.NapShortens | scripts/run_account_ui.py:139-151 | Each nap shortens the remaining time that bounds the waiting loops |
| Planner.CreatePlan | scripts/delivery/planner.py:15-107 | Candidates are exactly the issues of the snapshot that are in no other list of the plan and have no external dependencies, none is claimed or named by an open pull request; owned issues with their claim and pull requests; unlocks exactly the inverse of the plan's blocked relation within the snapshot; external blockers exactly what the snapshot does not show; conflicts exactly the colliding pairs; None exactly for unreadable input |
| Planner.Conflicts | scripts/delivery/planner.py:67-90 | Reports each colliding pair of claims exactly once, in order |
| Planner.ClashIsCollision | scripts/delivery/planner.py:72-90 | A description with a shared issue, path or contract is exactly a collision |
| Planner.ReportsExactly | scripts/delivery/planner.py:85-107 | One report in order, with the two issues, the left claim's overlapping paths and the shared contracts, for each two claims with the same issue, an overlap or a shared contract, and none for others |
| Planner.DecisionExactly | scripts/delivery/planner.py:41-52 | An issue waits for a decision exactly if a label is, capitals aside, a decision label or holds a marker |
| Planner.AggregateExactly | scripts/delivery/planner.py:53-53 | An issue aggregates exactly if it has children or is labelled an epic, capitals aside |
| Planner.InputExactly | scripts/delivery/planner.py:21-47 | What makes a snapshot, a claim or a pull request unreadable, case by case |
| Planner.PathsInOrder | scripts/delivery/planner.py:91-95 | The reported paths keep the order and repetitions of the left claim's paths |
| Planner.OpenPullsInOrder | scripts/delivery/planner.py:30-33 | The open pull requests of an issue keep their order |
| Planner.OccupiedNeverCollide | scripts/delivery/planner.py:67-90 | The occupied claims of a valid record never collide |
| Planner.OccupiedHaveNoConflicts | scripts/delivery/planner.py:67-90 | The plan reports no conflict between the occupied claims of a valid record, however listed |
| Planner.ExternalBlockers | scripts/delivery/planner.py:50-65 | Names for each issue its dependencies outside the repository, or else its blockers outside the snapshot |
| Planner.Unlocks | scripts/delivery/planner.py:55-57 | The blockers relation of the snapshot, inverted and sorted |
| Planner.Unlock | scripts/delivery/planner.py:55-57 | Adds one issue under each of its blockers in the snapshot |
| Planner.Numbers | scripts/delivery/planner.py:21-26 | Accepts exactly the snapshots of readable, distinct issues |
| Sorting.Sorted | scripts/delivery/planner.py:91-107 | Sorting keeps the numbers and makes distinct ones strictly increasing |
| Pagination.Relation | scripts/delivery/github.py:105-132 | Terminates for any pages, and its reading is the one that the cursor chain justifies |
| Pagination.Connection | scripts/delivery/github.py:134-198 | The same for the loop that consumes a page before checking its cursor |
| Pagination.ReadingIsUnique | scripts/delivery/github.py:105-132 | A connection has one justified reading: complete exactly when the chain ends, repeated exactly when it revisits a cursor |
| Pagination.NodesFromFront | scripts/delivery/github.py:105-132 | A complete reading has the nodes of the pages in the order in which they were followed |
| Pagination.ChainsAgree | scripts/delivery/github.py:105-132 | Of two cursor chains from the same page, one begins with the other |

## Left out

- JSON decoding of requests and stored records for the store: fields arrive with their JSON types, unknown or missing
  fields and wrongly typed ones are not represented; every string, number and list is still validated as the code does.
- DeliveryStore.StateStore.Apply: a refusal does not say which of several grounds that apply the program would name
  first; `Refusals` says which apply. Texts of error messages are not represented.
- File locks, temporary files, permissions, symbolic links and fsync of the coordination record: reading and replacing
  it are atomic, and an operating system error during a write is not represented.
- The order of keys in dictionaries: iteration picks in any order, and the results do not depend on it.
- Case folding covers the characters that can meet the lowercase ASCII words it is compared with; lowering of planner
  labels covers ASCII letters.
- AccountRunner.Runner.RunAll: argument and toolchain checks, creation of the private directory and restoring signal
  handlers are not modelled; whether each of three file operations succeeds is a parameter.
- AccountRunner.Runner.Check: the observer subprocess that lists processes is one step that returns rows, is late or
  fails; whether it was itself cleaned up is not represented.
- Registry.UpdatesAreLinearized: the two second lock deadline is one step that is late or not, and directory and
  permission checks are one step that fails or not.
- TargetStore.Store.Update: the waiting time between two tries for the lock; how many tries fit before the deadline is
  arbitrary.
- Planner.CreatePlan: constant fields of the plan; contracts shared by two claims are a set, not a sorted list.
- Sorting.Sorted: speaks about lists of distinct numbers, which is what it is applied to.
- Summary.Summarize: the constant fields of the summary.
- Pagination.Connection: what is extracted from each page's nodes; the first page is given.
- Certificates, proxies, discovery, subprocess launching, generated clients, migrations and user interfaces.
- The rehearsal script, a finite set of examples.
